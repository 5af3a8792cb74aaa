/** The canonical serializer: which values get the same text, and that no others do. */
module Canonical {
  import opened Options
  import opened Json
  import opened Sorting

  /** The text of an ASCII name. */
  function Ascii(s: string): Text {
    seq(|s|, i requires 0 <= i < |s| => if s[i] < 128 as char then s[i] as int as CodeUnit else 0x3F)
  }

  /** Arrays under these keys are compared as sets are: in any order. */
  predicate IsSetLike(key: Text) {
    || key == Ascii("triggered_articles")
    || key == Ascii("applied_formula_articles")
    || key == Ascii("invoked_procedures")
    || key == Ascii("languages")
    || key == Ascii("stations_in_scope")
    || key == Ascii("classifications")
    || key == Ascii("excluded_candidates")
  }

  // ----- The order in which an engine enumerates an object's keys -----------

  function DecimalValue(t: Text): nat
    requires forall i :: 0 <= i < |t| ==> IsDigit(t[i])
  {
    if t == [] then 0
    else
      assert IsDigit(t[|t| - 1]);
      DecimalValue(t[..|t| - 1]) * 10 + (t[|t| - 1] as int - 0x30)
  }

  /** An array index: canonical decimal digits of a number below 2^32 - 1. */
  predicate IsIndexKey(key: Text) {
    && key != [] && (forall i :: 0 <= i < |key| ==> IsDigit(key[i]))
    && (key[0] == 0x30 ==> |key| == 1) && DecimalValue(key) < 0xFFFF_FFFF
  }

  function Pick(fs: seq<Field>, indices: bool): seq<Field> {
    if fs == [] then []
    else (if IsIndexKey(fs[0].key) == indices then [fs[0]] else []) + Pick(fs[1..], indices)
  }

  function IndexOf(f: Field): nat {
    if IsIndexKey(f.key) then DecimalValue(f.key) else 0
  }

  function InsertIndex(e: Field, s: seq<Field>): seq<Field> {
    if s == [] || IndexOf(e) <= IndexOf(s[0]) then [e] + s else [s[0]] + InsertIndex(e, s[1..])
  }

  function SortIndices(s: seq<Field>): seq<Field> {
    if s == [] then [] else InsertIndex(s[0], SortIndices(s[1..]))
  }

  /** Array indices come first, in ascending order; other keys stay in insertion order. */
  function Enumerate(fs: seq<Field>): seq<Field> {
    SortIndices(Pick(fs, true)) + Pick(fs, false)
  }

  lemma {:induction false} PickPartitions(fs: seq<Field>)
    ensures multiset(Pick(fs, true)) + multiset(Pick(fs, false)) == multiset(fs)
  {
    if fs != [] {
      PickPartitions(fs[1..]);
      assert fs == [fs[0]] + fs[1..];
    }
  }

  lemma {:induction false} InsertIndexAdds(e: Field, s: seq<Field>)
    ensures multiset(InsertIndex(e, s)) == multiset{e} + multiset(s)
  {
    if s != [] && !(IndexOf(e) <= IndexOf(s[0])) {
      InsertIndexAdds(e, s[1..]);
      assert s == [s[0]] + s[1..];
    }
  }

  lemma {:induction false} SortIndicesPermutes(s: seq<Field>)
    ensures multiset(SortIndices(s)) == multiset(s)
  {
    if s != [] {
      SortIndicesPermutes(s[1..]);
      InsertIndexAdds(s[0], SortIndices(s[1..]));
      assert s == [s[0]] + s[1..];
    }
  }

  lemma EnumeratePermutes(fs: seq<Field>)
    ensures multiset(Enumerate(fs)) == multiset(fs)
  {
    PickPartitions(fs);
    SortIndicesPermutes(Pick(fs, true));
  }

  // ----- Normalization ------------------------------------------------------

  function Size(v: Js): nat {
    match v
    case Arr(items) => 1 + SizeItems(items)
    case Obj(fields) => 1 + SizeFields(fields)
    case _ => 1
  }

  function SizeItems(xs: seq<Js>): nat {
    if xs == [] then 0 else 1 + Size(xs[0]) + SizeItems(xs[1..])
  }

  function SizeFields(fs: seq<Field>): nat {
    if fs == [] then 0 else 1 + Size(fs[0].value) + SizeFields(fs[1..])
  }

  function FieldKey(f: Field): Text {
    f.key
  }

  function PrintedText(v: Js): Text {
    if Plain(v) then Print(v) else []
  }

  /** The fields whose value is not undefined. */
  function Defined(fs: seq<Field>): seq<Field> {
    if fs == [] then []
    else (if fs[0].value.Undefined? then [] else [fs[0]]) + Defined(fs[1..])
  }

  lemma {:induction false} InsertSize(e: Field, s: seq<Field>)
    ensures SizeFields(Insert(e, s, FieldKey)) == 1 + Size(e.value) + SizeFields(s)
  {
    if s != [] && Before(FieldKey(s[0]), FieldKey(e)) {
      InsertSize(e, s[1..]);
    } else {
      assert ([e] + s)[1..] == s;
    }
  }

  lemma {:induction false} SortSize(fs: seq<Field>)
    ensures SizeFields(Sort(fs, FieldKey)) == SizeFields(fs)
  {
    if fs != [] {
      SortSize(fs[1..]);
      InsertSize(fs[0], Sort(fs[1..], FieldKey));
    }
  }

  lemma {:induction false} DefinedSize(fs: seq<Field>)
    ensures SizeFields(Defined(fs)) <= SizeFields(fs)
  {
    if fs != [] {
      DefinedSize(fs[1..]);
      assert ([fs[0]] + Defined(fs[1..]))[1..] == Defined(fs[1..]);
      assert [] + Defined(fs[1..]) == Defined(fs[1..]);
    }
  }

  /** None where the source throws: a non-finite number or an unsupported value. */
  function Normalize(v: Js, setLike: bool): Option<Js>
    decreases Size(v)
  {
    match v
    case Null => Some(v)
    case Bool(_) => Some(v)
    case Str(_) => Some(v)
    case Num(n) =>
      (match n
       case NonFinite => None
       case NegativeZero => Some(Num(ZERO))
       case Finite(_) => Some(v))
    case Arr(items) =>
      var ns := NormalizeItems(items);
      if ns.None? then None
      else Some(Arr(if setLike then Sort(ns.value, PrintedText) else ns.value))
    case Obj(fields) =>
      SortSize(fields);
      DefinedSize(Sort(fields, FieldKey));
      var ns := NormalizeFields(Defined(Sort(fields, FieldKey)));
      if ns.None? then None else Some(Obj(Enumerate(ns.value)))
    case Undefined => None
    case Unsupported => None
  }

  function NormalizeItems(xs: seq<Js>): Option<seq<Js>>
    decreases SizeItems(xs)
  {
    if xs == [] then Some([])
    else
      var first, rest := Normalize(xs[0], false), NormalizeItems(xs[1..]);
      if first.Some? && rest.Some? then Some([first.value] + rest.value) else None
  }

  function NormalizeFields(fs: seq<Field>): Option<seq<Field>>
    decreases SizeFields(fs)
  {
    if fs == [] then Some([])
    else
      var first, rest := Normalize(fs[0].value, IsSetLike(fs[0].key)), NormalizeFields(fs[1..]);
      if first.Some? && rest.Some? then Some([Field(fs[0].key, first.value)] + rest.value) else None
  }

  // ----- When two values are the same fact ----------------------------------

  function Without<T>(s: seq<T>, j: nat): seq<T>
    requires j < |s|
  {
    s[..j] + s[j + 1..]
  }

  function PlusZero(n: Number): Number {
    if n.NegativeZero? then ZERO else n
  }

  /**
   Equal up to the order of keys, fields that are undefined, the sign of zero, and the
   order of the elements of set-like arrays.
   */
  ghost predicate Equivalent(v: Js, w: Js, setLike: bool)
    decreases Size(v)
  {
    match v
    case Num(n) => w.Num? && PlusZero(n) == PlusZero(w.number)
    case Arr(items) => w.Arr? && if setLike then SameInSomeOrder(items, w.items) else SameInOrder(items, w.items)
    case Obj(fields) => DefinedSize(fields); w.Obj? && SameFields(Defined(fields), Defined(w.fields))
    case _ => v == w
  }

  ghost predicate SameInOrder(xs: seq<Js>, ys: seq<Js>)
    decreases SizeItems(xs)
  {
    if xs == [] then ys == []
    else ys != [] && Equivalent(xs[0], ys[0], false) && SameInOrder(xs[1..], ys[1..])
  }

  ghost predicate SameInSomeOrder(xs: seq<Js>, ys: seq<Js>)
    decreases SizeItems(xs)
  {
    if xs == [] then ys == []
    else exists j :: 0 <= j < |ys| && Equivalent(xs[0], ys[j], false) && SameInSomeOrder(xs[1..], Without(ys, j))
  }

  ghost predicate SameFields(fs: seq<Field>, gs: seq<Field>)
    decreases SizeFields(fs)
  {
    if fs == [] then gs == []
    else exists j :: 0 <= j < |gs| && gs[j].key == fs[0].key
           && Equivalent(fs[0].value, gs[j].value, IsSetLike(fs[0].key)) && SameFields(fs[1..], Without(gs, j))
  }

  /** No object has the same key twice. */
  ghost predicate WellFormed(v: Js)
    decreases Size(v)
  {
    match v
    case Arr(items) => WellFormedItems(items)
    case Obj(fields) => DistinctKeys(fields) && WellFormedFields(fields)
    case _ => true
  }

  ghost predicate WellFormedItems(xs: seq<Js>)
    decreases SizeItems(xs)
  {
    xs == [] || (WellFormed(xs[0]) && WellFormedItems(xs[1..]))
  }

  ghost predicate WellFormedFields(fs: seq<Field>)
    decreases SizeFields(fs)
  {
    fs == [] || (WellFormed(fs[0].value) && WellFormedFields(fs[1..]))
  }

  ghost predicate DistinctKeys(fs: seq<Field>) {
    forall i, j :: 0 <= i < j < |fs| ==> fs[i].key != fs[j].key
  }
}
