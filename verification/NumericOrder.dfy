/** When a set-like array of numbers, sorted by text, comes out in numeric order. */
module NumericOrder {
  import opened Options
  import opened Json
  import opened Sorting
  import opened Canonical

  /** A non-negative integer as it is printed: digits without a leading zero. */
  predicate IsDecimal(t: Text) {
    && t != [] && (forall i :: 0 <= i < |t| ==> IsDigit(t[i]))
    && (t[0] == 0x30 ==> |t| == 1)
  }

  predicate IsInteger(v: Js) {
    v.Num? && v.number.Finite? && IsDecimal(v.number.token)
  }

  function Digits(v: Js): Text
    requires IsInteger(v)
  {
    v.number.token
  }

  function ValueOf(v: Js): nat
    requires IsInteger(v)
  {
    DecimalValue(Digits(v))
  }

  // ----- Digits and values --------------------------------------------------

  predicate AllDigits(t: Text) {
    forall i :: 0 <= i < |t| ==> IsDigit(t[i])
  }

  function Pow10(n: nat): (p: nat)
    ensures p >= 1
  {
    if n == 0 then 1 else 10 * Pow10(n - 1)
  }

  lemma {:induction false} Pow10Grows(m: nat, n: nat)
    requires m <= n
    ensures Pow10(m) <= Pow10(n)
  {
    if m < n {
      Pow10Grows(m, n - 1);
    }
  }

  lemma {:induction false} DecimalBelow(t: Text)
    requires AllDigits(t)
    ensures DecimalValue(t) < Pow10(|t|)
  {
    if t != [] {
      assert IsDigit(t[|t| - 1]);
      DecimalBelow(t[..|t| - 1]);
    }
  }

  function DigitValue(c: CodeUnit): nat
    requires IsDigit(c)
  {
    c as int - 0x30
  }

  lemma ScaledDigit(d: nat, p: nat)
    ensures (d * p) * 10 == d * (10 * p)
  {
  }

  /** The first digit counts for all the places after it. */
  lemma {:induction false} FirstDigit(t: Text)
    requires t != [] && AllDigits(t)
    ensures DecimalValue(t) == DigitValue(t[0]) * Pow10(|t| - 1) + DecimalValue(t[1..])
    decreases |t|
  {
    if |t| == 1 {
      assert t[..0] == [] && t[1..] == [];
      assert IsDigit(t[|t| - 1]);
    } else {
      var n := |t| - 1;
      FirstDigit(t[..n]);
      assert t[..n][1..] == t[1..][..n - 1] && t[1..][n - 1] == t[n];
      assert IsDigit(t[n]);
      ScaledDigit(DigitValue(t[0]), Pow10(n - 1));
    }
  }

  lemma SmallerDigit(a: nat, b: nat, p: nat)
    requires a < b
    ensures a * p + p <= b * p
  {
    assert (a + 1) * p <= b * p;
  }

  lemma FirstDigitDecides(s: Text, t: Text)
    requires s != [] && |s| == |t| && AllDigits(s) && AllDigits(t) && s[0] < t[0]
    ensures DecimalValue(s) < DecimalValue(t)
  {
    FirstDigit(s);
    FirstDigit(t);
    DecimalBelow(s[1..]);
    SmallerDigit(DigitValue(s[0]), DigitValue(t[0]), Pow10(|s| - 1));
  }

  /** Among numbers with equally many digits the order of the texts is the numeric order. */
  lemma {:induction false} SameLengthOrder(s: Text, t: Text)
    requires |s| == |t| && AllDigits(s) && AllDigits(t)
    ensures Before(s, t) <==> DecimalValue(s) < DecimalValue(t)
  {
    if s != [] {
      if s[0] == t[0] {
        SameLengthOrder(s[1..], t[1..]);
        FirstDigit(s);
        FirstDigit(t);
      } else if s[0] < t[0] {
        FirstDigitDecides(s, t);
      } else {
        FirstDigitDecides(t, s);
      }
    }
  }

  /** Fewer digits make a smaller number. */
  lemma ShorterIsSmaller(s: Text, t: Text)
    requires IsDecimal(s) && IsDecimal(t) && |s| < |t|
    ensures DecimalValue(s) < DecimalValue(t)
  {
    DecimalBelow(s);
    Pow10Grows(|s|, |t| - 1);
    FirstDigit(t);
    SmallerDigit(0, DigitValue(t[0]), Pow10(|t| - 1));
  }

  // ----- The sorted array ---------------------------------------------------

  predicate AllIntegers(items: seq<Js>) {
    forall v :: v in items ==> IsInteger(v)
  }

  predicate Ascending(items: seq<Js>)
    requires AllIntegers(items)
  {
    forall i, j :: 0 <= i < j < |items| ==> ValueOf(items[i]) <= ValueOf(items[j])
  }

  /** Text order never contradicts numeric order. */
  predicate TextsSortAsNumbers(items: seq<Js>)
    requires AllIntegers(items)
  {
    forall x, y :: x in items && y in items && Before(Digits(x), Digits(y)) ==> ValueOf(x) <= ValueOf(y)
  }

  /** A number with fewer digits also sorts first as a text. */
  predicate ShorterSortFirst(items: seq<Js>)
    requires AllIntegers(items)
  {
    forall x, y :: x in items && y in items && |Digits(x)| < |Digits(y)| ==> Before(Digits(x), Digits(y))
  }

  lemma OneNumber(x: Js, y: Js)
    requires IsInteger(x) && IsInteger(y)
    ensures |Digits(x)| == |Digits(y)| ==> (Before(Digits(x), Digits(y)) ==> ValueOf(x) <= ValueOf(y))
    ensures |Digits(x)| < |Digits(y)| ==> ValueOf(x) < ValueOf(y)
  {
    if |Digits(x)| == |Digits(y)| {
      SameLengthOrder(Digits(x), Digits(y));
    } else if |Digits(x)| < |Digits(y)| {
      ShorterIsSmaller(Digits(x), Digits(y));
    }
  }

  lemma LengthsDecide(items: seq<Js>)
    requires AllIntegers(items)
    ensures TextsSortAsNumbers(items) <==> ShorterSortFirst(items)
  {
    forall x, y | x in items && y in items
      ensures TextsSortAsNumbers(items) && |Digits(x)| < |Digits(y)| ==> Before(Digits(x), Digits(y))
      ensures ShorterSortFirst(items) && Before(Digits(x), Digits(y)) ==> ValueOf(x) <= ValueOf(y)
    {
      OneNumber(x, y);
      OneNumber(y, x);
      BeforeIsTotal(Digits(x), Digits(y));
      if Before(Digits(x), Digits(y)) {
        BeforeIsAsymmetric(Digits(x), Digits(y));
      }
    }
  }

  lemma {:induction false} IntegersAreNormal(items: seq<Js>)
    requires AllIntegers(items)
    ensures NormalizeItems(items) == Some(items)
    decreases |items|
  {
    if items != [] {
      IntegersAreNormal(items[1..]);
      assert IsInteger(items[0]) && Normalize(items[0], false) == Some(items[0]);
      assert items == [items[0]] + items[1..];
    }
  }

  lemma SortedKeepsIntegers(items: seq<Js>)
    requires AllIntegers(items)
    ensures var s := Sort(items, PrintedText);
      AllIntegers(s) && Sorted(s, PrintedText) && forall x :: x in s <==> x in items
  {
    var s := Sort(items, PrintedText);
    SortPermutes(items, PrintedText);
    SortSorts(items, PrintedText);
    forall x: Js ensures x in s <==> x in items {
      InMultiset(s, x);
      InMultiset(items, x);
    }
  }

  lemma SortedTextsAscend(s: seq<Js>)
    requires AllIntegers(s) && Sorted(s, PrintedText)
    ensures Ascending(s) <==> TextsSortAsNumbers(s)
  {
    if Ascending(s) {
      forall x, y | x in s && y in s && Before(Digits(x), Digits(y)) ensures ValueOf(x) <= ValueOf(y) {
        var i :| 0 <= i < |s| && s[i] == x;
        var j :| 0 <= j < |s| && s[j] == y;
        assert PrintedText(s[i]) == Digits(x) && PrintedText(s[j]) == Digits(y);
      }
    }
    if TextsSortAsNumbers(s) {
      forall i, j | 0 <= i < j < |s| ensures ValueOf(s[i]) <= ValueOf(s[j]) {
        BeforeIsTotal(Digits(s[i]), Digits(s[j]));
        assert PrintedText(s[i]) == Digits(s[i]) && PrintedText(s[j]) == Digits(s[j]);
      }
    }
  }

  lemma SameMembersSameTest(items: seq<Js>, s: seq<Js>)
    requires AllIntegers(items) && AllIntegers(s) && forall x :: x in s <==> x in items
    ensures TextsSortAsNumbers(s) <==> TextsSortAsNumbers(items)
  {
  }

  lemma SortedIsNormal(items: seq<Js>)
    requires AllIntegers(items)
    ensures Normalize(Arr(items), true) == Some(Arr(Sort(items, PrintedText)))
  {
    IntegersAreNormal(items);
  }

  /**
   A set-like array of non-negative integers comes out in numeric order exactly when every
   number with fewer digits also sorts first as a text, as then the order of the texts
   never contradicts that of the numbers.
   */
  lemma NumericOrderIff(items: seq<Js>)
    requires AllIntegers(items)
    ensures var n := Normalize(Arr(items), true);
      && n.Some? && n.value.Arr? && AllIntegers(n.value.items)
      && (Ascending(n.value.items) <==> ShorterSortFirst(items))
      && (Ascending(n.value.items) <==> TextsSortAsNumbers(items))
  {
    SortedIsNormal(items);
    SortedKeepsIntegers(items);
    SortedTextsAscend(Sort(items, PrintedText));
    SameMembersSameTest(items, Sort(items, PrintedText));
    LengthsDecide(items);
  }

  /** Numbers with equally many digits, such as the articles 1 to 7, come out in numeric order. */
  lemma SameDigitCountAscends(items: seq<Js>, digits: nat)
    requires AllIntegers(items) && forall v :: v in items ==> |Digits(v)| == digits
    ensures var n := Normalize(Arr(items), true);
      n.Some? && n.value.Arr? && AllIntegers(n.value.items) && Ascending(n.value.items)
  {
    NumericOrderIff(items);
  }

  /** The numbers 9 and 10 come out as 10, 9. */
  lemma NumericOrderFails()
    ensures var nine, ten := Num(Finite([0x39])), Num(Finite([0x31, 0x30]));
      && AllIntegers([nine, ten]) && !ShorterSortFirst([nine, ten])
      && Normalize(Arr([nine, ten]), true) == Some(Arr([ten, nine]))
  {
    var nine, ten := Num(Finite([0x39])), Num(Finite([0x31, 0x30]));
    assert Digits(nine) == [0x39] && Digits(ten) == [0x31, 0x30];
    assert !Before(Digits(nine), Digits(ten)) && Before(Digits(ten), Digits(nine));
    IntegersAreNormal([nine, ten]);
    assert [nine, ten][1..] == [ten] && [ten][1..] == [];
    assert Sort([ten], PrintedText) == [ten];
    assert PrintedText(nine) == [0x39] && PrintedText(ten) == [0x31, 0x30];
    assert Insert(nine, [], PrintedText) == [nine];
    assert Sort([nine, ten], PrintedText) == [ten, nine];
    assert nine in [nine, ten] && ten in [nine, ten];
  }
}
