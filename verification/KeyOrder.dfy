/** The order in which the keys of a normalized object are printed. */
module KeyOrder {
  import opened Options
  import opened Json
  import opened Sorting
  import opened Canonical
  import opened CanonicalForm

  // ----- Comparing by code units --------------------------------------------

  function CommonPrefix(a: Text, b: Text): (k: nat)
    ensures k <= |a| && k <= |b| && a[..k] == b[..k]
    ensures k < |a| && k < |b| ==> a[k] != b[k]
  {
    if a == [] || b == [] || a[0] != b[0] then 0
    else
      var k := CommonPrefix(a[1..], b[1..]);
      assert a[..k + 1] == [a[0]] + a[1..][..k] && b[..k + 1] == [b[0]] + b[1..][..k];
      k + 1
  }

  lemma {:induction false} BeforeAtPrefix(a: Text, b: Text, k: nat)
    requires k <= |a| && k <= |b| && a[..k] == b[..k]
    ensures Before(a, b) <==> Before(a[k..], b[k..])
    decreases k
  {
    if k > 0 {
      assert a[0] == a[..k][0] && b[0] == b[..k][0];
      assert a[1..][..k - 1] == a[..k][1..] && b[1..][..k - 1] == b[..k][1..];
      BeforeAtPrefix(a[1..], b[1..], k - 1);
      assert a[1..][k - 1..] == a[k..] && b[1..][k - 1..] == b[k..];
    }
  }

  /** One text comes before another exactly when it is a proper prefix, or smaller at the first difference. */
  lemma BeforeIff(a: Text, b: Text)
    ensures Before(a, b) <==>
      exists k: nat :: k <= |a| && k < |b| && a[..k] == b[..k] && (k == |a| || a[k] < b[k])
  {
    var n := CommonPrefix(a, b);
    BeforeAtPrefix(a, b, n);
    if k: nat :| k <= |a| && k < |b| && a[..k] == b[..k] && (k == |a| || a[k] < b[k]) {
      BeforeAtPrefix(a, b, k);
    }
    if Before(a, b) {
      assert n < |b| && a[..n] == b[..n] && (n == |a| || a[n] < b[n]);
    }
  }

  // ----- Array indices ------------------------------------------------------

  /** A number in decimal digits. */
  function Decimal(n: nat): (t: Text)
    ensures t != [] && forall i :: 0 <= i < |t| ==> IsDigit(t[i])
  {
    if n < 10 then [(0x30 + n) as CodeUnit] else Decimal(n / 10) + [(0x30 + n % 10) as CodeUnit]
  }

  lemma {:induction false} DecimalIsCanonical(n: nat)
    ensures DecimalValue(Decimal(n)) == n && (Decimal(n)[0] == 0x30 <==> n == 0) && (n == 0 ==> |Decimal(n)| == 1)
  {
    if n >= 10 {
      DecimalIsCanonical(n / 10);
      var t := Decimal(n);
      assert t[..|t| - 1] == Decimal(n / 10);
    } else {
      assert Decimal(n)[..0] == [];
    }
  }

  lemma {:induction false} CanonicalIsDecimal(t: Text)
    requires t != [] && (forall i :: 0 <= i < |t| ==> IsDigit(t[i])) && (t[0] == 0x30 ==> |t| == 1)
    ensures t == Decimal(DecimalValue(t)) && (t[0] != 0x30 ==> DecimalValue(t) > 0)
    decreases |t|
  {
    var front, last := t[..|t| - 1], t[|t| - 1];
    assert t == front + [last] && IsDigit(last);
    if front == [] {
      assert DecimalValue(front) == 0;
    } else {
      CanonicalIsDecimal(front);
      var d := last as int - 0x30;
      assert DecimalValue(t) == DecimalValue(front) * 10 + d;
      assert DecimalValue(t) / 10 == DecimalValue(front) && DecimalValue(t) % 10 == d;
    }
  }

  /** A key is an array index exactly when it is the decimal text of a number below 2^32 - 1. */
  lemma IndexKeyIff(key: Text)
    ensures IsIndexKey(key) <==> exists n: nat :: n < 0xFFFF_FFFF && key == Decimal(n)
  {
    if IsIndexKey(key) {
      CanonicalIsDecimal(key);
    }
    if n: nat :| n < 0xFFFF_FFFF && key == Decimal(n) {
      DecimalIsCanonical(n);
    }
  }

  // ----- The printed order --------------------------------------------------

  lemma {:induction false} PickKeepsOrder(fs: seq<Field>, indices: bool)
    requires forall i, j :: 0 <= i < j < |fs| ==> Before(fs[i].key, fs[j].key)
    ensures var p := Pick(fs, indices); forall i, j :: 0 <= i < j < |p| ==> Before(p[i].key, p[j].key)
  {
    if fs != [] {
      PickKeepsOrder(fs[1..], indices);
      var rest := Pick(fs[1..], indices);
      forall k | 0 <= k < |rest| ensures Before(fs[0].key, rest[k].key) {
        PickKeeps(fs[1..], indices, rest[k]);
        var i :| 0 <= i < |fs[1..]| && fs[1..][i] == rest[k];
        assert fs[i + 1] == rest[k];
      }
    }
  }

  lemma SortedIsStrict(fs: seq<Field>)
    requires Sorted(fs, FieldKey) && DistinctKeys(fs)
    ensures forall i, j :: 0 <= i < j < |fs| ==> Before(fs[i].key, fs[j].key)
  {
    forall i, j | 0 <= i < j < |fs| ensures Before(fs[i].key, fs[j].key) {
      BeforeIsTotal(fs[i].key, fs[j].key);
      assert !Before(FieldKey(fs[j]), FieldKey(fs[i]));
    }
  }

  lemma IndexIsPicked(fs: seq<Field>, k: nat)
    requires k < |SortIndices(Pick(fs, true))|
    ensures IsIndexKey(SortIndices(Pick(fs, true))[k].key)
  {
    var x := SortIndices(Pick(fs, true))[k];
    SortIndicesPermutes(Pick(fs, true));
    InMultiset(SortIndices(Pick(fs, true)), x);
    InMultiset(Pick(fs, true), x);
    PickKeeps(fs, true, x);
  }

  /** The elements of a normalized set-like array ascend by their texts. */
  lemma SetLikeOrder(items: seq<Js>)
    requires Normalize(Arr(items), true).Some?
    ensures var out := Normalize(Arr(items), true).value.items;
      forall i, j :: 0 <= i < j < |out| ==> !Before(PrintedText(out[j]), PrintedText(out[i]))
  {
    SortSorts(NormalizeItems(items).value, PrintedText);
  }

  lemma SmallerIndex(f: Field, g: Field)
    requires IsIndexKey(f.key) && IsIndexKey(g.key) && f.key != g.key && IndexOf(f) <= IndexOf(g)
    ensures DecimalValue(f.key) < DecimalValue(g.key)
  {
    CanonicalIsDecimal(f.key);
    CanonicalIsDecimal(g.key);
  }

  /** Array indices stand in front, ascending as numbers; the other keys follow, ascending by code units. */
  predicate InPrintedOrder(f: Field, g: Field) {
    if IsIndexKey(f.key) then IsIndexKey(g.key) ==> DecimalValue(f.key) < DecimalValue(g.key)
    else !IsIndexKey(g.key) && Before(f.key, g.key)
  }

  /** Two of the indices in front. */
  lemma IndicesAscend(fs: seq<Field>, i: nat, j: nat)
    requires var p := SortIndices(Pick(fs, true)); i < j < |p| && p[i].key != p[j].key
    ensures var p := SortIndices(Pick(fs, true)); InPrintedOrder(p[i], p[j])
  {
    SortIndicesOrders(Pick(fs, true));
    IndexIsPicked(fs, i);
    IndexIsPicked(fs, j);
    var p := SortIndices(Pick(fs, true));
    SmallerIndex(p[i], p[j]);
  }

  /** An index in front and one of the other keys. */
  lemma IndexBeforeOther(fs: seq<Field>, i: nat, j: nat)
    requires i < |SortIndices(Pick(fs, true))| && j < |Pick(fs, false)|
    ensures InPrintedOrder(SortIndices(Pick(fs, true))[i], Pick(fs, false)[j])
  {
    IndexIsPicked(fs, i);
    PickKeeps(fs, false, Pick(fs, false)[j]);
  }

  /** Two of the other keys. */
  lemma OthersAscend(fs: seq<Field>, i: nat, j: nat)
    requires Sorted(fs, FieldKey) && DistinctKeys(fs) && i < j < |Pick(fs, false)|
    ensures InPrintedOrder(Pick(fs, false)[i], Pick(fs, false)[j])
  {
    SortedIsStrict(fs);
    PickKeepsOrder(fs, false);
    PickKeeps(fs, false, Pick(fs, false)[i]);
    PickKeeps(fs, false, Pick(fs, false)[j]);
  }

  lemma EnumeratedKeysDistinct(fs: seq<Field>)
    requires DistinctKeys(fs)
    ensures DistinctKeys(Enumerate(fs))
  {
    EnumeratePermutes(fs);
    PermutedKeysDistinct(fs, Enumerate(fs));
  }

  lemma EnumeratedOrder(fs: seq<Field>)
    requires Sorted(fs, FieldKey) && DistinctKeys(fs)
    ensures var out := Enumerate(fs); forall i, j :: 0 <= i < j < |out| ==> InPrintedOrder(out[i], out[j])
  {
    var p, q, out := SortIndices(Pick(fs, true)), Pick(fs, false), Enumerate(fs);
    EnumeratedKeysDistinct(fs);
    forall i, j | 0 <= i < j < |out| ensures InPrintedOrder(out[i], out[j]) {
      if j < |p| {
        assert p[i] == out[i] && p[j] == out[j] && out[i].key != out[j].key;
        IndicesAscend(fs, i, j);
      } else if i < |p| {
        IndexBeforeOther(fs, i, j - |p|);
      } else {
        OthersAscend(fs, i - |p|, j - |p|);
      }
    }
  }

  /** The keys of every normalized object are printed in that order, whatever order they came in. */
  lemma NormalizedOrder(fields: seq<Field>, setLike: bool)
    requires DistinctKeys(fields) && Normalize(Obj(fields), setLike).Some?
    ensures var out := Normalize(Obj(fields), setLike).value.fields;
      forall i, j :: 0 <= i < j < |out| ==> InPrintedOrder(out[i], out[j])
  {
    ObjectNormal(fields, setLike);
    var n := NormalizeDefined(fields).value;
    SortSorts(n, FieldKey);
    SortPermutes(n, FieldKey);
    NormalKeysDistinct(fields);
    PermutedKeysDistinct(n, Sort(n, FieldKey));
    EnumeratedOrder(Sort(n, FieldKey));
  }
}
