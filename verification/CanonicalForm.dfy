/** Two values serialize to the same text exactly when they are equivalent. */
module CanonicalForm {
  import opened Options
  import opened Json
  import opened Sorting
  import opened Canonical

  // ----- Normalized lists, element by element -------------------------------

  lemma {:induction false} ItemAt(xs: seq<Js>, j: nat)
    requires NormalizeItems(xs).Some? && j < |xs|
    ensures var n := NormalizeItems(xs).value;
      |n| == |xs| && Normalize(xs[j], false) == Some(n[j])
  {
    ItemCount(xs);
    if j > 0 {
      ItemAt(xs[1..], j - 1);
    }
  }

  lemma {:induction false} ItemCount(xs: seq<Js>)
    requires NormalizeItems(xs).Some?
    ensures |NormalizeItems(xs).value| == |xs|
  {
    if xs != [] {
      ItemCount(xs[1..]);
    }
  }

  lemma {:induction false} FieldCount(fs: seq<Field>)
    requires NormalizeFields(fs).Some?
    ensures |NormalizeFields(fs).value| == |fs|
  {
    if fs != [] {
      FieldCount(fs[1..]);
    }
  }

  lemma {:induction false} FieldAt(fs: seq<Field>, j: nat)
    requires NormalizeFields(fs).Some? && j < |fs|
    ensures var n := NormalizeFields(fs).value;
      |n| == |fs| && n[j].key == fs[j].key && Normalize(fs[j].value, IsSetLike(fs[j].key)) == Some(n[j].value)
  {
    FieldCount(fs);
    if j > 0 {
      FieldAt(fs[1..], j - 1);
    }
  }

  lemma WithoutTail<T>(s: seq<T>, j: nat)
    requires 0 < j < |s|
    ensures Without(s, j) == [s[0]] + Without(s[1..], j - 1)
  {
  }

  lemma WithoutMultiset<T>(s: seq<T>, j: nat)
    requires j < |s|
    ensures multiset(s) == multiset{s[j]} + multiset(Without(s, j))
  {
    assert s == s[..j] + [s[j]] + s[j + 1..];
  }

  /** Taking one element away takes its normal form away. */
  lemma {:induction false} ItemsWithout(ys: seq<Js>, j: nat)
    requires j < |ys|
    ensures NormalizeItems(ys).Some? <==> Normalize(ys[j], false).Some? && NormalizeItems(Without(ys, j)).Some?
    ensures NormalizeItems(ys).Some? ==> |NormalizeItems(ys).value| == |ys|
    ensures NormalizeItems(ys).Some? ==> NormalizeItems(Without(ys, j)).value == Without(NormalizeItems(ys).value, j)
  {
    if NormalizeItems(ys).Some? {
      ItemCount(ys);
    }
    if j == 0 {
      assert Without(ys, 0) == ys[1..];
    } else {
      ItemsWithout(ys[1..], j - 1);
      WithoutTail(ys, j);
      assert Without(ys, j)[1..] == Without(ys[1..], j - 1);
    }
  }

  lemma {:induction false} FieldsWithout(gs: seq<Field>, j: nat)
    requires j < |gs|
    ensures NormalizeFields(gs).Some?
            <==> Normalize(gs[j].value, IsSetLike(gs[j].key)).Some? && NormalizeFields(Without(gs, j)).Some?
    ensures NormalizeFields(gs).Some? ==> |NormalizeFields(gs).value| == |gs|
    ensures NormalizeFields(gs).Some? ==> NormalizeFields(Without(gs, j)).value == Without(NormalizeFields(gs).value, j)
  {
    if j == 0 {
      assert Without(gs, 0) == gs[1..];
      if NormalizeFields(gs).Some? {
        FieldCount(gs);
        assert Without(NormalizeFields(gs).value, 0) == NormalizeFields(gs[1..]).value;
      }
    } else {
      FieldsWithout(gs[1..], j - 1);
      WithoutTail(gs, j);
      assert Without(gs, j)[1..] == Without(gs[1..], j - 1);
      if NormalizeFields(gs).Some? {
        FieldCount(gs);
        WithoutTail(NormalizeFields(gs).value, j);
        assert NormalizeFields(gs).value[1..] == NormalizeFields(gs[1..]).value;
      }
    }
  }

  // ----- Sorting keys commutes with normalizing -----------------------------

  /** Normalizing one more field of a list that is already normalized. */
  function AddField(e: Field, n: Option<seq<Field>>): Option<seq<Field>> {
    var v := Normalize(e.value, IsSetLike(e.key));
    if e.value.Undefined? then n
    else if v.Some? && n.Some? then Some(Insert(Field(e.key, v.value), n.value, FieldKey))
    else None
  }

  function NormalizeDefined(fs: seq<Field>): Option<seq<Field>> {
    NormalizeFields(Defined(fs))
  }

  lemma NormalizeDefinedCons(f: Field, rest: seq<Field>)
    ensures var n := NormalizeDefined(rest); var v := Normalize(f.value, IsSetLike(f.key));
      NormalizeDefined([f] + rest) ==
        if f.value.Undefined? then n
        else if v.Some? && n.Some? then Some([Field(f.key, v.value)] + n.value)
        else None
  {
    assert ([f] + rest)[1..] == rest;
    assert ([f] + Defined(rest))[1..] == Defined(rest);
    assert [] + Defined(rest) == Defined(rest);
  }

  lemma {:induction false} KeyFromList(fs: seq<Field>, x: Field)
    requires NormalizeDefined(fs).Some? && x in NormalizeDefined(fs).value
    ensures exists f :: f in fs && f.key == x.key
  {
    if fs != [] {
      NormalizeDefinedCons(fs[0], fs[1..]);
      assert fs == [fs[0]] + fs[1..];
      if x.key != fs[0].key || fs[0].value.Undefined? {
        KeyFromList(fs[1..], x);
      }
    }
  }

  lemma HeadKeyIsLeast(e: Field, s: seq<Field>)
    requires Sorted(s, FieldKey) && (s == [] || !Before(s[0].key, e.key)) && NormalizeDefined(s).Some?
    ensures var n := NormalizeDefined(s).value; n == [] || !Before(n[0].key, e.key)
  {
    var n := NormalizeDefined(s).value;
    if n != [] {
      KeyFromList(s, n[0]);
      var f :| f in s && f.key == n[0].key;
      HeadIsLeast(s, FieldKey, f);
      BeforeIsTransitive(e.key, s[0].key, f.key);
    }
  }

  lemma {:induction false} InsertCommutes(e: Field, s: seq<Field>)
    requires Sorted(s, FieldKey)
    ensures NormalizeDefined(Insert(e, s, FieldKey)) == AddField(e, NormalizeDefined(s))
  {
    if s == [] || !Before(FieldKey(s[0]), FieldKey(e)) {
      NormalizeDefinedCons(e, s);
      if NormalizeDefined(s).Some? {
        HeadKeyIsLeast(e, s);
      }
    } else {
      InsertCommutes(e, s[1..]);
      NormalizeDefinedCons(s[0], s[1..]);
      assert s == [s[0]] + s[1..];
      NormalizeDefinedCons(s[0], Insert(e, s[1..], FieldKey));
      var n := NormalizeDefined(s[1..]);
      if n.Some? && Normalize(s[0].value, IsSetLike(s[0].key)).Some? && !s[0].value.Undefined? {
        var x := Field(s[0].key, Normalize(s[0].value, IsSetLike(s[0].key)).value);
        assert ([x] + n.value)[1..] == n.value;
      }
    }
  }

  /** Sorting first, as the source does, or last gives the same normal fields. */
  lemma {:induction false} SortCommutes(fs: seq<Field>)
    ensures var n := NormalizeDefined(fs);
      NormalizeDefined(Sort(fs, FieldKey)) == if n.Some? then Some(Sort(n.value, FieldKey)) else None
  {
    if fs != [] {
      SortCommutes(fs[1..]);
      SortSorts(fs[1..], FieldKey);
      InsertCommutes(fs[0], Sort(fs[1..], FieldKey));
      NormalizeDefinedCons(fs[0], fs[1..]);
      assert fs == [fs[0]] + fs[1..];
      var n := NormalizeDefined(fs[1..]);
      if n.Some? && Normalize(fs[0].value, IsSetLike(fs[0].key)).Some? && !fs[0].value.Undefined? {
        var x := Field(fs[0].key, Normalize(fs[0].value, IsSetLike(fs[0].key)).value);
        assert ([x] + n.value)[1..] == n.value;
      }
    }
  }

  // ----- Lists of distinct keys ---------------------------------------------

  lemma {:induction false} DefinedIsPart(fs: seq<Field>, x: Field)
    requires x in Defined(fs)
    ensures x in fs && !x.value.Undefined?
  {
    if fs != [] && x in Defined(fs[1..]) {
      DefinedIsPart(fs[1..], x);
    }
  }

  lemma {:induction false} DefinedKeepsDistinct(fs: seq<Field>)
    requires DistinctKeys(fs)
    ensures DistinctKeys(Defined(fs))
  {
    if fs != [] {
      DefinedKeepsDistinct(fs[1..]);
      forall x | x in Defined(fs[1..]) ensures x.key != fs[0].key {
        DefinedIsPart(fs[1..], x);
      }
    }
  }

  lemma NormalKeysDistinct(fs: seq<Field>)
    requires DistinctKeys(fs) && NormalizeDefined(fs).Some?
    ensures DistinctKeys(NormalizeDefined(fs).value) && Keyed(NormalizeDefined(fs).value, FieldKey)
  {
    DefinedKeepsDistinct(fs);
    var ds := Defined(fs);
    var n := NormalizeFields(ds).value;
    forall i, j | 0 <= i < j < |n| ensures n[i].key != n[j].key {
      FieldCount(ds);
      FieldAt(ds, i);
      FieldAt(ds, j);
    }
  }

  lemma {:induction false} OccursOnce(fs: seq<Field>, x: Field)
    requires DistinctKeys(fs)
    ensures multiset(fs)[x] <= 1
  {
    if fs != [] {
      OccursOnce(fs[1..], x);
      assert fs == [fs[0]] + fs[1..];
      if x == fs[0] {
        assert x !in fs[1..];
      }
    }
  }

  lemma OccursTwice(gs: seq<Field>, i: nat, j: nat)
    requires i < j < |gs| && gs[i] == gs[j]
    ensures multiset(gs)[gs[i]] >= 2
  {
    WithoutMultiset(gs, i);
    assert gs[j] == Without(gs, i)[j - 1];
    InMultiset(Without(gs, i), gs[j]);
  }

  lemma PermutedKeysDistinct(fs: seq<Field>, gs: seq<Field>)
    requires DistinctKeys(fs) && multiset(fs) == multiset(gs)
    ensures DistinctKeys(gs)
  {
    forall i, j | 0 <= i < j < |gs| ensures gs[i].key != gs[j].key {
      InMultiset(gs, gs[i]);
      InMultiset(fs, gs[i]);
      InMultiset(gs, gs[j]);
      InMultiset(fs, gs[j]);
      if gs[i] == gs[j] {
        OccursOnce(fs, gs[i]);
        OccursTwice(gs, i, j);
      }
    }
  }

  // ----- Equivalent values have the same normal form ------------------------

  lemma {:induction false} WellFormedItem(xs: seq<Js>, x: Js)
    requires WellFormedItems(xs) && x in xs
    ensures WellFormed(x)
  {
    if x != xs[0] {
      WellFormedItem(xs[1..], x);
    }
  }

  lemma {:induction false} WellFormedField(fs: seq<Field>, x: Field)
    requires WellFormedFields(fs) && x in fs
    ensures WellFormed(x.value)
  {
    if x != fs[0] {
      WellFormedField(fs[1..], x);
    }
  }

  lemma {:induction false} AllWellFormedItems(xs: seq<Js>)
    requires forall x :: x in xs ==> WellFormed(x)
    ensures WellFormedItems(xs)
  {
    if xs != [] {
      AllWellFormedItems(xs[1..]);
    }
  }

  lemma {:induction false} AllWellFormedFields(fs: seq<Field>)
    requires forall f :: f in fs ==> WellFormed(f.value)
    ensures WellFormedFields(fs)
  {
    if fs != [] {
      AllWellFormedFields(fs[1..]);
    }
  }

  /** The normal form of an object, sorted last. */
  lemma ObjectNormal(fields: seq<Field>, setLike: bool)
    ensures Normalize(Obj(fields), setLike) ==
      var kept := NormalizeDefined(fields);
      if kept.Some? then Some(Obj(Enumerate(Sort(kept.value, FieldKey)))) else None
  {
    SortCommutes(fields);
  }

  lemma SameObjectNormal(fs: seq<Field>, gs: seq<Field>, setLike: bool)
    requires DistinctKeys(fs) && (NormalizeDefined(fs).Some? <==> NormalizeDefined(gs).Some?)
    requires NormalizeDefined(fs).Some? ==>
      multiset(NormalizeDefined(fs).value) == multiset(NormalizeDefined(gs).value)
    ensures Normalize(Obj(fs), setLike) == Normalize(Obj(gs), setLike)
  {
    ObjectNormal(fs, setLike);
    ObjectNormal(gs, setLike);
    if NormalizeDefined(fs).Some? {
      NormalKeysDistinct(fs);
      SortIsCanonical(NormalizeDefined(fs).value, NormalizeDefined(gs).value, FieldKey);
    }
  }

  lemma SameSetNormal(xs: seq<Js>, ys: seq<Js>)
    requires NormalizeItems(xs).Some? <==> NormalizeItems(ys).Some?
    requires NormalizeItems(xs).Some? ==> multiset(NormalizeItems(xs).value) == multiset(NormalizeItems(ys).value)
    ensures Normalize(Arr(xs), true) == Normalize(Arr(ys), true)
  {
    if NormalizeItems(xs).Some? {
      PlainNormals(xs);
      SortIsCanonical(NormalizeItems(xs).value, NormalizeItems(ys).value, PrintedText);
    }
  }

  lemma {:induction false} SameNormal(v: Js, w: Js, setLike: bool)
    requires Equivalent(v, w, setLike) && WellFormed(v) && WellFormed(w)
    ensures Normalize(v, setLike) == Normalize(w, setLike)
    decreases Size(v)
  {
    match v
    case Arr(items) =>
      if setLike {
        SomeOrderNormal(items, w.items);
        SameSetNormal(items, w.items);
      } else {
        InOrderNormal(items, w.items);
      }
    case Obj(fields) =>
      DefinedSize(fields);
      DefinedWellFormed(fields);
      DefinedWellFormed(w.fields);
      FieldsNormal(Defined(fields), Defined(w.fields));
      SameObjectNormal(fields, w.fields, setLike);
    case _ =>
  }

  lemma DefinedWellFormed(fs: seq<Field>)
    requires WellFormedFields(fs)
    ensures WellFormedFields(Defined(fs))
  {
    forall f | f in Defined(fs) ensures WellFormed(f.value) {
      DefinedIsPart(fs, f);
      WellFormedField(fs, f);
    }
    AllWellFormedFields(Defined(fs));
  }

  lemma {:induction false} InOrderNormal(xs: seq<Js>, ys: seq<Js>)
    requires SameInOrder(xs, ys) && WellFormedItems(xs) && WellFormedItems(ys)
    ensures NormalizeItems(xs) == NormalizeItems(ys)
    decreases SizeItems(xs)
  {
    if xs != [] {
      SameNormal(xs[0], ys[0], false);
      InOrderNormal(xs[1..], ys[1..]);
    }
  }

  lemma {:induction false} SomeOrderNormal(xs: seq<Js>, ys: seq<Js>)
    requires SameInSomeOrder(xs, ys) && WellFormedItems(xs) && WellFormedItems(ys)
    ensures NormalizeItems(xs).Some? <==> NormalizeItems(ys).Some?
    ensures NormalizeItems(xs).Some? ==> multiset(NormalizeItems(xs).value) == multiset(NormalizeItems(ys).value)
    decreases SizeItems(xs)
  {
    if xs != [] {
      var j :| 0 <= j < |ys| && Equivalent(xs[0], ys[j], false) && SameInSomeOrder(xs[1..], Without(ys, j));
      WellFormedItem(ys, ys[j]);
      SameNormal(xs[0], ys[j], false);
      WithoutWellFormed(ys, j);
      SomeOrderNormal(xs[1..], Without(ys, j));
      ItemsWithout(ys, j);
      if NormalizeItems(xs).Some? {
        ItemAt(ys, j);
        WithoutMultiset(NormalizeItems(ys).value, j);
      }
    }
  }

  lemma WithoutWellFormed(ys: seq<Js>, j: nat)
    requires WellFormedItems(ys) && j < |ys|
    ensures WellFormedItems(Without(ys, j))
  {
    forall y | y in Without(ys, j) ensures WellFormed(y) {
      WellFormedItem(ys, y);
    }
    AllWellFormedItems(Without(ys, j));
  }

  lemma FieldsWithoutWellFormed(gs: seq<Field>, j: nat)
    requires WellFormedFields(gs) && j < |gs|
    ensures WellFormedFields(Without(gs, j))
  {
    forall g | g in Without(gs, j) ensures WellFormed(g.value) {
      WellFormedField(gs, g);
    }
    AllWellFormedFields(Without(gs, j));
  }

  lemma {:induction false} FieldsNormal(fs: seq<Field>, gs: seq<Field>)
    requires SameFields(fs, gs) && WellFormedFields(fs) && WellFormedFields(gs)
    ensures NormalizeFields(fs).Some? <==> NormalizeFields(gs).Some?
    ensures NormalizeFields(fs).Some? ==> multiset(NormalizeFields(fs).value) == multiset(NormalizeFields(gs).value)
    decreases SizeFields(fs)
  {
    if fs != [] {
      var j :| 0 <= j < |gs| && gs[j].key == fs[0].key
        && Equivalent(fs[0].value, gs[j].value, IsSetLike(fs[0].key)) && SameFields(fs[1..], Without(gs, j));
      WellFormedField(gs, gs[j]);
      SameNormal(fs[0].value, gs[j].value, IsSetLike(fs[0].key));
      FieldsWithoutWellFormed(gs, j);
      FieldsNormal(fs[1..], Without(gs, j));
      FieldsWithout(gs, j);
      if NormalizeFields(fs).Some? {
        FieldAt(gs, j);
        WithoutMultiset(NormalizeFields(gs).value, j);
      }
    }
  }

  // ----- Normal forms are plain ---------------------------------------------

  lemma {:induction false} AllPlainItems(xs: seq<Js>)
    ensures PlainItems(xs) <==> forall x :: x in xs ==> Plain(x)
  {
    if xs != [] {
      AllPlainItems(xs[1..]);
      assert xs[0] in xs && forall x :: x in xs[1..] ==> x in xs;
      if PlainItems(xs) {
        forall x | x in xs ensures Plain(x) {
          assert x == xs[0] || x in xs[1..];
        }
      }
    }
  }

  lemma {:induction false} AllPlainFields(fs: seq<Field>)
    ensures PlainFields(fs) <==> forall f :: f in fs ==> Plain(f.value)
  {
    if fs != [] {
      AllPlainFields(fs[1..]);
      assert fs == [fs[0]] + fs[1..];
    }
  }

  lemma {:induction false} NormalIsPlain(v: Js, setLike: bool)
    requires Normalize(v, setLike).Some?
    ensures Plain(Normalize(v, setLike).value)
    decreases Size(v)
  {
    match v
    case Arr(items) =>
      PlainNormals(items);
      var n := NormalizeItems(items).value;
      SortPermutes(n, PrintedText);
      AllPlainItems(n);
      forall x | x in Sort(n, PrintedText) ensures Plain(x) {
        InMultiset(Sort(n, PrintedText), x);
        InMultiset(n, x);
      }
      AllPlainItems(Sort(n, PrintedText));
    case Obj(fields) =>
      SortSize(fields);
      DefinedSize(Sort(fields, FieldKey));
      var n := NormalizeFields(Defined(Sort(fields, FieldKey))).value;
      PlainNormalFields(Defined(Sort(fields, FieldKey)));
      EnumeratePermutes(n);
      AllPlainFields(n);
      forall f | f in Enumerate(n) ensures Plain(f.value) {
        InMultiset(Enumerate(n), f);
        InMultiset(n, f);
      }
      AllPlainFields(Enumerate(n));
    case _ =>
  }

  /** Plain normal forms are told apart by their texts. */
  lemma {:induction false} PlainNormals(xs: seq<Js>)
    requires NormalizeItems(xs).Some?
    ensures PlainItems(NormalizeItems(xs).value) && Keyed(NormalizeItems(xs).value, PrintedText)
    decreases SizeItems(xs)
  {
    var n := NormalizeItems(xs).value;
    if xs != [] {
      NormalIsPlain(xs[0], false);
      PlainNormals(xs[1..]);
      assert n[1..] == NormalizeItems(xs[1..]).value;
    }
    AllPlainItems(n);
    forall x, y | x in n && y in n && PrintedText(x) == PrintedText(y) ensures x == y {
      PrintIsInjective(x, y);
    }
  }

  lemma {:induction false} PlainNormalFields(fs: seq<Field>)
    requires NormalizeFields(fs).Some?
    ensures PlainFields(NormalizeFields(fs).value)
    decreases SizeFields(fs)
  {
    if fs != [] {
      NormalIsPlain(fs[0].value, IsSetLike(fs[0].key));
      PlainNormalFields(fs[1..]);
      assert NormalizeFields(fs).value[1..] == NormalizeFields(fs[1..]).value;
    }
  }

  // ----- The same normal form means equivalent ------------------------------

  lemma ObjectNormalElements(fs: seq<Field>, gs: seq<Field>, setLike: bool)
    requires Normalize(Obj(fs), setLike).Some? && Normalize(Obj(fs), setLike) == Normalize(Obj(gs), setLike)
    ensures NormalizeDefined(fs).Some? && NormalizeDefined(gs).Some?
    ensures multiset(NormalizeDefined(fs).value) == multiset(NormalizeDefined(gs).value)
  {
    ObjectNormal(fs, setLike);
    ObjectNormal(gs, setLike);
    var n, m := NormalizeDefined(fs).value, NormalizeDefined(gs).value;
    SortPermutes(n, FieldKey);
    SortPermutes(m, FieldKey);
    EnumeratePermutes(Sort(n, FieldKey));
    EnumeratePermutes(Sort(m, FieldKey));
  }

  lemma SetNormalElements(xs: seq<Js>, ys: seq<Js>)
    requires Normalize(Arr(xs), true).Some? && Normalize(Arr(xs), true) == Normalize(Arr(ys), true)
    ensures NormalizeItems(xs).Some? && NormalizeItems(ys).Some?
    ensures multiset(NormalizeItems(xs).value) == multiset(NormalizeItems(ys).value)
  {
    SortPermutes(NormalizeItems(xs).value, PrintedText);
    SortPermutes(NormalizeItems(ys).value, PrintedText);
  }

  lemma {:induction false} SameMeansEquivalent(v: Js, w: Js, setLike: bool)
    requires Normalize(v, setLike).Some? && Normalize(v, setLike) == Normalize(w, setLike)
    ensures Equivalent(v, w, setLike)
    decreases Size(v)
  {
    match v
    case Arr(items) =>
      if setLike {
        SetNormalElements(items, w.items);
        SomeOrderFromNormal(items, w.items);
      } else {
        InOrderFromNormal(items, w.items);
      }
    case Obj(fields) =>
      DefinedSize(fields);
      ObjectNormalElements(fields, w.fields, setLike);
      FieldsFromNormal(Defined(fields), Defined(w.fields));
    case _ =>
  }

  lemma {:induction false} InOrderFromNormal(xs: seq<Js>, ys: seq<Js>)
    requires NormalizeItems(xs).Some? && NormalizeItems(xs) == NormalizeItems(ys)
    ensures SameInOrder(xs, ys)
    decreases SizeItems(xs)
  {
    ItemCount(xs);
    ItemCount(ys);
    if xs != [] {
      ItemAt(xs, 0);
      ItemAt(ys, 0);
      SameMeansEquivalent(xs[0], ys[0], false);
      assert NormalizeItems(xs).value[1..] == NormalizeItems(xs[1..]).value;
      assert NormalizeItems(ys).value[1..] == NormalizeItems(ys[1..]).value;
      InOrderFromNormal(xs[1..], ys[1..]);
    }
  }

  /** Removing equal elements from equal multisets. */
  lemma RemoveBoth<T>(n: seq<T>, m: seq<T>, j: nat)
    requires n != [] && j < |m| && m[j] == n[0] && multiset(n) == multiset(m)
    ensures multiset(n[1..]) == multiset(Without(m, j))
  {
    RestOfMultiset(n);
    WithoutMultiset(m, j);
  }

  lemma IndexIn<T>(m: seq<T>, n: seq<T>) returns (j: nat)
    requires n != [] && multiset(n) == multiset(m)
    ensures j < |m| && m[j] == n[0]
  {
    InMultiset(n, n[0]);
    InMultiset(m, n[0]);
    j :| 0 <= j < |m| && m[j] == n[0];
  }

  lemma {:induction false} SomeOrderFromNormal(xs: seq<Js>, ys: seq<Js>)
    requires NormalizeItems(xs).Some? && NormalizeItems(ys).Some?
    requires multiset(NormalizeItems(xs).value) == multiset(NormalizeItems(ys).value)
    ensures SameInSomeOrder(xs, ys)
    decreases SizeItems(xs)
  {
    var n, m := NormalizeItems(xs).value, NormalizeItems(ys).value;
    ItemCount(xs);
    ItemCount(ys);
    SameLength(n, m);
    if xs != [] {
      var j := IndexIn(m, n);
      RemoveBoth(n, m, j);
      ItemAt(xs, 0);
      ItemAt(ys, j);
      SameMeansEquivalent(xs[0], ys[j], false);
      ItemsWithout(ys, j);
      assert n[1..] == NormalizeItems(xs[1..]).value;
      SomeOrderFromNormal(xs[1..], Without(ys, j));
    }
  }

  lemma {:induction false} FieldsFromNormal(fs: seq<Field>, gs: seq<Field>)
    requires NormalizeFields(fs).Some? && NormalizeFields(gs).Some?
    requires multiset(NormalizeFields(fs).value) == multiset(NormalizeFields(gs).value)
    ensures SameFields(fs, gs)
    decreases SizeFields(fs)
  {
    var n, m := NormalizeFields(fs).value, NormalizeFields(gs).value;
    FieldCount(fs);
    FieldCount(gs);
    SameLength(n, m);
    if fs != [] {
      var j := IndexIn(m, n);
      RemoveBoth(n, m, j);
      FieldAt(fs, 0);
      FieldAt(gs, j);
      SameMeansEquivalent(fs[0].value, gs[j].value, IsSetLike(fs[0].key));
      FieldsWithout(gs, j);
      assert n[1..] == NormalizeFields(fs[1..]).value;
      FieldsFromNormal(fs[1..], Without(gs, j));
    }
  }

  // ----- A value is equivalent to its normal form ---------------------------

  lemma {:induction false} NormalIsEquivalent(v: Js, setLike: bool)
    requires Normalize(v, setLike).Some?
    ensures Equivalent(v, Normalize(v, setLike).value, setLike)
    decreases Size(v)
  {
    match v
    case Arr(items) =>
      var n := NormalizeItems(items).value;
      if setLike {
        SortPermutes(n, PrintedText);
        SomeOrderOfNormal(items, Sort(n, PrintedText));
      } else {
        InOrderOfNormal(items);
      }
    case Obj(fields) =>
      DefinedSize(fields);
      SortCommutes(fields);
      var n := NormalizeDefined(fields).value;
      SortPermutes(n, FieldKey);
      EnumeratePermutes(Sort(n, FieldKey));
      var ms := Enumerate(Sort(n, FieldKey));
      NormalIsPlain(v, setLike);
      PlainFieldsAreDefined(ms);
      FieldsOfNormal(Defined(fields), ms);
    case _ =>
  }

  lemma {:induction false} PlainFieldsAreDefined(fs: seq<Field>)
    requires PlainFields(fs)
    ensures Defined(fs) == fs
  {
    if fs != [] {
      PlainFieldsAreDefined(fs[1..]);
      assert fs == [fs[0]] + fs[1..];
    }
  }

  lemma {:induction false} InOrderOfNormal(xs: seq<Js>)
    requires NormalizeItems(xs).Some?
    ensures SameInOrder(xs, NormalizeItems(xs).value)
    decreases SizeItems(xs)
  {
    if xs != [] {
      NormalIsEquivalent(xs[0], false);
      InOrderOfNormal(xs[1..]);
      assert NormalizeItems(xs).value[1..] == NormalizeItems(xs[1..]).value;
    }
  }

  lemma {:induction false} SomeOrderOfNormal(xs: seq<Js>, ms: seq<Js>)
    requires NormalizeItems(xs).Some? && multiset(ms) == multiset(NormalizeItems(xs).value)
    ensures SameInSomeOrder(xs, ms)
    decreases SizeItems(xs)
  {
    var n := NormalizeItems(xs).value;
    ItemCount(xs);
    SameLength(n, ms);
    if xs != [] {
      var j := IndexIn(ms, n);
      RemoveBoth(n, ms, j);
      NormalIsEquivalent(xs[0], false);
      assert n[1..] == NormalizeItems(xs[1..]).value;
      SomeOrderOfNormal(xs[1..], Without(ms, j));
    }
  }

  lemma {:induction false} FieldsOfNormal(fs: seq<Field>, ms: seq<Field>)
    requires NormalizeFields(fs).Some? && multiset(ms) == multiset(NormalizeFields(fs).value)
    ensures SameFields(fs, ms)
    decreases SizeFields(fs)
  {
    var n := NormalizeFields(fs).value;
    FieldCount(fs);
    SameLength(n, ms);
    if fs != [] {
      var j := IndexIn(ms, n);
      RemoveBoth(n, ms, j);
      FieldAt(fs, 0);
      NormalIsEquivalent(fs[0].value, IsSetLike(fs[0].key));
      assert n[1..] == NormalizeFields(fs[1..]).value;
      FieldsOfNormal(fs[1..], Without(ms, j));
    }
  }

  lemma {:induction false} NormalIsWellFormed(v: Js, setLike: bool)
    requires WellFormed(v) && Normalize(v, setLike).Some?
    ensures WellFormed(Normalize(v, setLike).value)
    decreases Size(v)
  {
    match v
    case Arr(items) =>
      var n := NormalizeItems(items).value;
      ItemsStayWellFormed(items);
      SortPermutes(n, PrintedText);
      forall x | x in Sort(n, PrintedText) ensures WellFormed(x) {
        InMultiset(Sort(n, PrintedText), x);
        InMultiset(n, x);
      }
      AllWellFormedItems(Sort(n, PrintedText));
      AllWellFormedItems(n);
    case Obj(fields) =>
      DefinedSize(fields);
      SortCommutes(fields);
      DefinedWellFormed(fields);
      FieldsStayWellFormed(Defined(fields));
      var n := NormalizeDefined(fields).value;
      var ms := Enumerate(Sort(n, FieldKey));
      SortPermutes(n, FieldKey);
      EnumeratePermutes(Sort(n, FieldKey));
      NormalKeysDistinct(fields);
      PermutedKeysDistinct(n, ms);
      forall f | f in ms ensures WellFormed(f.value) {
        InMultiset(ms, f);
        InMultiset(n, f);
      }
      AllWellFormedFields(ms);
    case _ =>
  }

  lemma {:induction false} ItemsStayWellFormed(xs: seq<Js>)
    requires WellFormedItems(xs) && NormalizeItems(xs).Some?
    ensures forall x :: x in NormalizeItems(xs).value ==> WellFormed(x)
    decreases SizeItems(xs)
  {
    if xs != [] {
      NormalIsWellFormed(xs[0], false);
      ItemsStayWellFormed(xs[1..]);
    }
  }

  lemma {:induction false} FieldsStayWellFormed(fs: seq<Field>)
    requires WellFormedFields(fs) && NormalizeFields(fs).Some?
    ensures forall f :: f in NormalizeFields(fs).value ==> WellFormed(f.value)
    decreases SizeFields(fs)
  {
    if fs != [] {
      NormalIsWellFormed(fs[0].value, IsSetLike(fs[0].key));
      FieldsStayWellFormed(fs[1..]);
    }
  }

  // ----- Main results -------------------------------------------------------

  /** Normalizing twice is normalizing once. */
  lemma NormalizeIsIdempotent(v: Js, setLike: bool)
    requires WellFormed(v) && Normalize(v, setLike).Some?
    ensures Normalize(Normalize(v, setLike).value, setLike) == Normalize(v, setLike)
  {
    NormalIsEquivalent(v, setLike);
    NormalIsWellFormed(v, setLike);
    SameNormal(v, Normalize(v, setLike).value, setLike);
  }

  /** The canonical text; None where the source throws. */
  function Serialize(v: Js, setLike: bool): Option<Text> {
    var n := Normalize(v, setLike);
    if n.None? then None
    else
      NormalIsPlain(v, setLike);
      Some(Print(n.value))
  }

  /** Two values have the same canonical text exactly when they are equivalent. */
  lemma SameTextIffEquivalent(v: Js, w: Js, setLike: bool)
    requires WellFormed(v) && WellFormed(w) && Serialize(v, setLike).Some?
    ensures Serialize(v, setLike) == Serialize(w, setLike) <==> Equivalent(v, w, setLike)
  {
    if Equivalent(v, w, setLike) {
      SameNormal(v, w, setLike);
    }
    if Serialize(v, setLike) == Serialize(w, setLike) {
      NormalIsPlain(v, setLike);
      NormalIsPlain(w, setLike);
      PrintIsInjective(Normalize(v, setLike).value, Normalize(w, setLike).value);
      SameMeansEquivalent(v, w, setLike);
    }
  }

  /** The comparator of set-like arrays serializes elements that are normal already: it compares their texts. */
  lemma ComparatorComparesTexts(v: Js)
    requires WellFormed(v) && Normalize(v, false).Some?
    ensures Serialize(Normalize(v, false).value, false) == Some(PrintedText(Normalize(v, false).value))
  {
    NormalizeIsIdempotent(v, false);
    NormalIsPlain(v, false);
  }

  /** What the serializer accepts: a field may be undefined, an array element may not. */
  ghost predicate Supported(v: Js)
    decreases Size(v)
  {
    match v
    case Num(n) => !n.NonFinite?
    case Arr(items) => SupportedItems(items)
    case Obj(fields) => SupportedFields(fields)
    case Undefined => false
    case Unsupported => false
    case _ => true
  }

  ghost predicate SupportedItems(xs: seq<Js>)
    decreases SizeItems(xs)
  {
    xs == [] || (Supported(xs[0]) && SupportedItems(xs[1..]))
  }

  ghost predicate SupportedFields(fs: seq<Field>)
    decreases SizeFields(fs)
  {
    fs == [] || ((fs[0].value.Undefined? || Supported(fs[0].value)) && SupportedFields(fs[1..]))
  }

  /** Serialization throws exactly on the values that are not supported. */
  lemma {:induction false} SerializesIffSupported(v: Js, setLike: bool)
    ensures Serialize(v, setLike).Some? <==> Supported(v)
    decreases Size(v)
  {
    match v
    case Arr(items) => ItemsSupported(items);
    case Obj(fields) =>
      ObjectNormal(fields, setLike);
      FieldsSupported(fields);
    case _ =>
  }

  lemma {:induction false} ItemsSupported(xs: seq<Js>)
    ensures NormalizeItems(xs).Some? <==> SupportedItems(xs)
    decreases SizeItems(xs)
  {
    if xs != [] {
      SerializesIffSupported(xs[0], false);
      ItemsSupported(xs[1..]);
    }
  }

  lemma {:induction false} FieldsSupported(fs: seq<Field>)
    ensures NormalizeDefined(fs).Some? <==> SupportedFields(fs)
    decreases SizeFields(fs)
  {
    if fs != [] {
      NormalizeDefinedCons(fs[0], fs[1..]);
      assert fs == [fs[0]] + fs[1..];
      SerializesIffSupported(fs[0].value, IsSetLike(fs[0].key));
      FieldsSupported(fs[1..]);
    }
  }

  // ----- Key order ----------------------------------------------------------

  /** No other key sorts before an array index, and array indices sort as numbers do. */
  predicate IndicesSortAsNumbers(fs: seq<Field>) {
    forall f, g :: f in fs && g in fs && Before(f.key, g.key) && IsIndexKey(g.key) ==>
      IsIndexKey(f.key) && DecimalValue(f.key) <= DecimalValue(g.key)
  }

  predicate IndexOrdered(fs: seq<Field>) {
    forall i, j :: 0 <= i < j < |fs| ==> IndexOf(fs[i]) <= IndexOf(fs[j])
  }

  lemma {:induction false} PickKeeps(fs: seq<Field>, indices: bool, x: Field)
    requires x in Pick(fs, indices)
    ensures x in fs && IsIndexKey(x.key) == indices
  {
    if fs != [] && x in Pick(fs[1..], indices) {
      PickKeeps(fs[1..], indices, x);
    }
  }

  lemma {:induction false} InsertIndexOrders(e: Field, s: seq<Field>)
    requires IndexOrdered(s)
    ensures IndexOrdered(InsertIndex(e, s))
  {
    if s != [] && !(IndexOf(e) <= IndexOf(s[0])) {
      InsertIndexOrders(e, s[1..]);
      InsertIndexAdds(e, s[1..]);
      var t := InsertIndex(e, s[1..]);
      forall x | x in t ensures IndexOf(s[0]) <= IndexOf(x) {
        InMultiset(t, x);
        InMultiset(s[1..], x);
      }
    }
  }

  lemma {:induction false} SortIndicesOrders(s: seq<Field>)
    ensures IndexOrdered(SortIndices(s))
  {
    if s != [] {
      SortIndicesOrders(s[1..]);
      InsertIndexOrders(s[0], SortIndices(s[1..]));
    }
  }

  lemma PickCons(f: Field, rest: seq<Field>, indices: bool)
    ensures Pick([f] + rest, indices) ==
      (if IsIndexKey(f.key) == indices then [f] else []) + Pick(rest, indices)
  {
    assert ([f] + rest)[1..] == rest;
  }

  lemma SortIndicesCons(f: Field, p: seq<Field>)
    requires forall x :: x in p ==> IndexOf(f) <= IndexOf(x)
    ensures SortIndices([f] + p) == [f] + SortIndices(p)
  {
    assert ([f] + p)[1..] == p;
    SortIndicesPermutes(p);
    if SortIndices(p) != [] {
      InMultiset(SortIndices(p), SortIndices(p)[0]);
      InMultiset(p, SortIndices(p)[0]);
    }
  }

  lemma ConsAppend<T>(x: T, s: seq<T>, t: seq<T>)
    ensures ([x] + s) + t == [x] + (s + t)
  {
  }

  lemma HeadIsLeastIndex(f: Field, rest: seq<Field>)
    requires IsIndexKey(f.key)
    requires forall x :: x in rest && IsIndexKey(x.key) ==> DecimalValue(f.key) <= DecimalValue(x.key)
    ensures forall x :: x in Pick(rest, true) ==> IndexOf(f) <= IndexOf(x)
  {
    forall x | x in Pick(rest, true) ensures IndexOf(f) <= IndexOf(x) {
      PickKeeps(rest, true, x);
    }
  }

  lemma HeadIndexStays(f: Field, rest: seq<Field>)
    requires IsIndexKey(f.key) && forall x :: x in Pick(rest, true) ==> IndexOf(f) <= IndexOf(x)
    ensures Enumerate([f] + rest) == [f] + Enumerate(rest)
  {
    PickCons(f, rest, true);
    PickCons(f, rest, false);
    SortIndicesCons(f, Pick(rest, true));
    ConsAppend(f, SortIndices(Pick(rest, true)), Pick(rest, false));
  }

  lemma HeadIsBefore(fs: seq<Field>, x: Field)
    requires fs != [] && Sorted(fs, FieldKey) && DistinctKeys(fs) && x in fs[1..]
    ensures Before(fs[0].key, x.key)
  {
    HeadIsLeast(fs, FieldKey, x);
    BeforeIsTotal(fs[0].key, x.key);
    var i :| 0 <= i < |fs[1..]| && fs[1..][i] == x;
    assert fs[i + 1] == x;
  }

  lemma TailStaysOrdered(fs: seq<Field>)
    requires fs != [] && Sorted(fs, FieldKey) && DistinctKeys(fs) && IndicesSortAsNumbers(fs)
    ensures Sorted(fs[1..], FieldKey) && DistinctKeys(fs[1..]) && IndicesSortAsNumbers(fs[1..])
    ensures forall x :: x in fs[1..] ==> x in fs && Before(fs[0].key, x.key)
  {
    forall x | x in fs[1..] ensures x in fs && Before(fs[0].key, x.key) {
      HeadIsBefore(fs, x);
    }
  }

  /** Where indices sort as numbers, enumeration keeps a sorted list as it is. */
  lemma {:induction false} EnumerationKeepsOrder(fs: seq<Field>)
    requires Sorted(fs, FieldKey) && DistinctKeys(fs) && IndicesSortAsNumbers(fs)
    ensures Enumerate(fs) == fs
  {
    if fs != [] {
      TailStaysOrdered(fs);
      EnumerationKeepsOrder(fs[1..]);
      assert fs == [fs[0]] + fs[1..];
      if IsIndexKey(fs[0].key) {
        HeadIsLeastIndex(fs[0], fs[1..]);
        HeadIndexStays(fs[0], fs[1..]);
      } else {
        NoIndices(fs);
      }
    }
  }

  lemma {:induction false} NoIndices(fs: seq<Field>)
    requires forall x :: x in fs ==> !IsIndexKey(x.key)
    ensures Pick(fs, true) == [] && Pick(fs, false) == fs
  {
    if fs != [] {
      NoIndices(fs[1..]);
      assert fs == [fs[0]] + fs[1..];
    }
  }

  lemma SortedPositions(fs: seq<Field>, i: nat, j: nat)
    requires Sorted(fs, FieldKey) && i < |fs| && j < |fs| && Before(fs[i].key, fs[j].key)
    ensures i < j
  {
    if i == j {
      BeforeIsAsymmetric(fs[i].key, fs[j].key);
    }
  }

  lemma PositionEnumerated(fs: seq<Field>, x: Field) returns (k: nat)
    requires x in fs
    ensures k < |Enumerate(fs)| && Enumerate(fs)[k] == x
  {
    EnumeratePermutes(fs);
    InMultiset(fs, x);
    InMultiset(Enumerate(fs), x);
    k :| 0 <= k < |Enumerate(fs)| && Enumerate(fs)[k] == x;
  }

  /** Exactly the array indices stand in front. */
  lemma IndicesInFront(fs: seq<Field>, k: nat)
    requires k < |Enumerate(fs)|
    ensures IsIndexKey(Enumerate(fs)[k].key) <==> k < |SortIndices(Pick(fs, true))|
  {
    var p, q := SortIndices(Pick(fs, true)), Pick(fs, false);
    SortIndicesPermutes(Pick(fs, true));
    if k < |p| {
      InMultiset(p, p[k]);
      InMultiset(Pick(fs, true), p[k]);
      PickKeeps(fs, true, p[k]);
    } else {
      PickKeeps(fs, false, q[k - |p|]);
    }
  }

  /** An enumeration that is sorted shows that indices sort as numbers. */
  lemma OrderedEnumeration(fs: seq<Field>)
    requires Sorted(Enumerate(fs), FieldKey)
    ensures IndicesSortAsNumbers(fs)
  {
    SortIndicesOrders(Pick(fs, true));
    forall f, g | f in fs && g in fs && Before(f.key, g.key) && IsIndexKey(g.key)
      ensures IsIndexKey(f.key) && DecimalValue(f.key) <= DecimalValue(g.key)
    {
      var i := PositionEnumerated(fs, f);
      var j := PositionEnumerated(fs, g);
      SortedPositions(Enumerate(fs), i, j);
      IndicesInFront(fs, i);
      IndicesInFront(fs, j);
      var p := SortIndices(Pick(fs, true));
      assert f == p[i] && g == p[j];
    }
  }

  lemma SameKeysSameOrder(fs: seq<Field>, gs: seq<Field>)
    requires forall f :: f in fs ==> exists g :: g in gs && g.key == f.key
    requires IndicesSortAsNumbers(gs)
    ensures IndicesSortAsNumbers(fs)
  {
    forall f, h | f in fs && h in fs && Before(f.key, h.key) && IsIndexKey(h.key)
      ensures IsIndexKey(f.key) && DecimalValue(f.key) <= DecimalValue(h.key)
    {
      var f' :| f' in gs && f'.key == f.key;
      var h' :| h' in gs && h'.key == h.key;
    }
  }

  lemma SameKeys(ds: seq<Field>, s: seq<Field>)
    requires NormalizeFields(ds).Some? && multiset(s) == multiset(NormalizeFields(ds).value)
    ensures forall f :: f in s ==> exists g :: g in ds && g.key == f.key
    ensures forall g :: g in ds ==> exists f :: f in s && f.key == g.key
  {
    var n := NormalizeFields(ds).value;
    FieldCount(ds);
    forall f | f in s ensures exists g :: g in ds && g.key == f.key {
      InMultiset(s, f);
      InMultiset(n, f);
      var k :| 0 <= k < |n| && n[k] == f;
      FieldAt(ds, k);
      assert ds[k] in ds;
    }
    forall g | g in ds ensures exists f :: f in s && f.key == g.key {
      var k :| 0 <= k < |ds| && ds[k] == g;
      FieldAt(ds, k);
      InMultiset(n, n[k]);
      InMultiset(s, n[k]);
    }
  }

  /**
   The keys of a normalized object are in lexicographic order exactly when no key sorts
   before an array index and array indices sort as numbers: engines list array indices first.
   */
  lemma LexicographicIff(fields: seq<Field>, setLike: bool)
    requires DistinctKeys(fields) && Normalize(Obj(fields), setLike).Some?
    ensures Sorted(Normalize(Obj(fields), setLike).value.fields, FieldKey) <==> IndicesSortAsNumbers(Defined(fields))
  {
    ObjectNormal(fields, setLike);
    var n := NormalizeDefined(fields).value;
    var s := Sort(n, FieldKey);
    SortSorts(n, FieldKey);
    SortPermutes(n, FieldKey);
    NormalKeysDistinct(fields);
    PermutedKeysDistinct(n, s);
    SameKeys(Defined(fields), s);
    if IndicesSortAsNumbers(Defined(fields)) {
      SameKeysSameOrder(s, Defined(fields));
      EnumerationKeepsOrder(s);
    }
    if Sorted(Enumerate(s), FieldKey) {
      OrderedEnumeration(s);
      SameKeysSameOrder(Defined(fields), s);
    }
  }

  /** The keys "10" and "9" are printed as 9, 10. */
  lemma LexicographicOrderFails(v: Js, w: Js)
    ensures !IndicesSortAsNumbers([Field([0x31, 0x30], v), Field([0x39], w)])
  {
    var f, g := Field([0x31, 0x30], v), Field([0x39], w);
    assert f in [f, g] && g in [f, g] && Before(f.key, g.key);
    assert DecimalValue(g.key[..0]) == 0 && DecimalValue(g.key) == 9;
    assert f.key[..1] == [0x31] && DecimalValue(f.key[..1][..0]) == 0;
    assert DecimalValue(f.key[..1]) == 1 && DecimalValue(f.key) == 10;
  }
}
