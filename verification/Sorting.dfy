/** Sorting by a text, as `Array.prototype.sort` does: stable and by UTF-16 code units. */
module Sorting {
  import opened Json

  /** Strict lexicographic order by code units. */
  predicate Before(a: Text, b: Text) {
    b != [] && (a == [] || a[0] < b[0] || (a[0] == b[0] && Before(a[1..], b[1..])))
  }

  lemma {:induction false} BeforeIsTotal(a: Text, b: Text)
    ensures a == b || Before(a, b) || Before(b, a)
  {
    if a != [] && b != [] && a[0] == b[0] {
      BeforeIsTotal(a[1..], b[1..]);
      assert a == [a[0]] + a[1..] && b == [b[0]] + b[1..];
    }
  }

  lemma {:induction false} BeforeIsTransitive(a: Text, b: Text, c: Text)
    requires !Before(b, a) && !Before(c, b)
    ensures !Before(c, a)
  {
    if a != [] && b != [] && c != [] && a[0] == b[0] == c[0] {
      BeforeIsTransitive(a[1..], b[1..], c[1..]);
    }
  }

  /** Puts `e` in front of the first element that does not come before it. */
  function Insert<T>(e: T, s: seq<T>, key: T -> Text): seq<T> {
    if s == [] || !Before(key(s[0]), key(e)) then [e] + s else [s[0]] + Insert(e, s[1..], key)
  }

  function Sort<T>(s: seq<T>, key: T -> Text): seq<T> {
    if s == [] then [] else Insert(s[0], Sort(s[1..], key), key)
  }

  predicate Sorted<T>(s: seq<T>, key: T -> Text) {
    forall i, j :: 0 <= i < j < |s| ==> !Before(key(s[j]), key(s[i]))
  }

  lemma {:induction false} InsertAdds<T>(e: T, s: seq<T>, key: T -> Text)
    ensures multiset(Insert(e, s, key)) == multiset{e} + multiset(s)
  {
    if s != [] && Before(key(s[0]), key(e)) {
      InsertAdds(e, s[1..], key);
      assert s == [s[0]] + s[1..];
    }
  }

  lemma {:induction false} SortPermutes<T>(s: seq<T>, key: T -> Text)
    ensures multiset(Sort(s, key)) == multiset(s)
  {
    if s != [] {
      SortPermutes(s[1..], key);
      InsertAdds(s[0], Sort(s[1..], key), key);
      assert s == [s[0]] + s[1..];
    }
  }

  lemma InMultiset<T>(s: seq<T>, x: T)
    ensures x in s <==> x in multiset(s)
  {
  }

  lemma SortedCons<T>(e: T, s: seq<T>, key: T -> Text)
    requires Sorted(s, key) && forall x :: x in s ==> !Before(key(x), key(e))
    ensures Sorted([e] + s, key)
  {
  }

  lemma HeadIsLeast<T>(s: seq<T>, key: T -> Text, x: T)
    requires Sorted(s, key) && x in s
    ensures !Before(key(x), key(s[0]))
  {
    if x == s[0] && Before(key(x), key(s[0])) {
      BeforeIsAsymmetric(key(x), key(s[0]));
    }
  }

  lemma {:induction false} InsertSorts<T>(e: T, s: seq<T>, key: T -> Text)
    requires Sorted(s, key)
    ensures Sorted(Insert(e, s, key), key)
  {
    if s == [] {
    } else if !Before(key(s[0]), key(e)) {
      forall x | x in s ensures !Before(key(x), key(e)) {
        HeadIsLeast(s, key, x);
        BeforeIsTransitive(key(e), key(s[0]), key(x));
      }
      SortedCons(e, s, key);
    } else {
      InsertSorts(e, s[1..], key);
      InsertAdds(e, s[1..], key);
      forall x | x in Insert(e, s[1..], key) ensures !Before(key(x), key(s[0])) {
        InMultiset(Insert(e, s[1..], key), x);
        if x == e {
          BeforeIsTotal(key(e), key(s[0]));
          BeforeIsAsymmetric(key(s[0]), key(e));
        } else {
          InMultiset(s[1..], x);
        }
      }
      SortedCons(s[0], Insert(e, s[1..], key), key);
    }
  }

  lemma {:induction false} BeforeIsAsymmetric(a: Text, b: Text)
    requires Before(a, b)
    ensures !Before(b, a)
  {
    if a != [] && a[0] == b[0] {
      BeforeIsAsymmetric(a[1..], b[1..]);
    }
  }

  lemma {:induction false} SortSorts<T>(s: seq<T>, key: T -> Text)
    ensures Sorted(Sort(s, key), key)
  {
    if s != [] {
      SortSorts(s[1..], key);
      InsertSorts(s[0], Sort(s[1..], key), key);
    }
  }

  /** No two different elements share a key. */
  predicate Keyed<T(==)>(s: seq<T>, key: T -> Text) {
    forall x, y :: x in s && y in s && key(x) == key(y) ==> x == y
  }

  lemma SameHead<T>(s: seq<T>, t: seq<T>, key: T -> Text)
    requires Sorted(s, key) && Sorted(t, key) && multiset(s) == multiset(t) && Keyed(s, key) && s != [] && t != []
    ensures s[0] == t[0]
  {
    InMultiset(t, s[0]);
    InMultiset(s, t[0]);
    InMultiset(s, s[0]);
    InMultiset(t, t[0]);
    HeadIsLeast(s, key, t[0]);
    HeadIsLeast(t, key, s[0]);
    BeforeIsTotal(key(s[0]), key(t[0]));
  }

  lemma SameLength<T>(s: seq<T>, t: seq<T>)
    requires multiset(s) == multiset(t)
    ensures |s| == |t|
  {
    assert |multiset(s)| == |s| && |multiset(t)| == |t|;
  }

  lemma RestOfMultiset<T>(s: seq<T>)
    requires s != []
    ensures multiset(s[1..]) == multiset(s) - multiset{s[0]}
  {
    assert s == [s[0]] + s[1..];
  }

  /** Two sorted arrangements of the same elements are the same sequence. */
  lemma {:induction false} SortedIsUnique<T>(s: seq<T>, t: seq<T>, key: T -> Text)
    requires Sorted(s, key) && Sorted(t, key) && multiset(s) == multiset(t) && Keyed(s, key)
    ensures s == t
    decreases |s|
  {
    SameLength(s, t);
    if s != [] {
      SameHead(s, t, key);
      RestOfMultiset(s);
      RestOfMultiset(t);
      SortedIsUnique(s[1..], t[1..], key);
      assert s == [s[0]] + s[1..] && t == [t[0]] + t[1..];
    }
  }

  /** Sorting forgets the order the elements came in. */
  lemma SortIsCanonical<T>(s: seq<T>, t: seq<T>, key: T -> Text)
    requires multiset(s) == multiset(t) && Keyed(s, key)
    ensures Sort(s, key) == Sort(t, key)
  {
    SortPermutes(s, key);
    SortPermutes(t, key);
    SortSorts(s, key);
    SortSorts(t, key);
    forall x | x in Sort(s, key) ensures x in s {
      InMultiset(s, x);
      InMultiset(Sort(s, key), x);
    }
    SortedIsUnique(Sort(s, key), Sort(t, key), key);
  }
}
