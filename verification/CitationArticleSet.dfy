/** The set of articles a decision must cite. */
module CitationArticleSet {
  import opened Options

  predicate StrictlyIncreasing(s: seq<int>) {
    forall i, j :: 0 <= i < j < |s| ==> s[i] < s[j]
  }

  /** An article number is an integer from 1 to 7. */
  predicate IsArticle(n: real) {
    n == n.Floor as real && 1 <= n.Floor <= 7
  }

  lemma IsArticleIff(n: real)
    ensures IsArticle(n) <==> n in {1.0, 2.0, 3.0, 4.0, 5.0, 6.0, 7.0}
  {
    if IsArticle(n) {
      assert n.Floor in {1, 2, 3, 4, 5, 6, 7};
    }
  }

  function InsertNumber(n: int, s: seq<int>): seq<int> {
    if s == [] || n <= s[0] then [n] + s else [s[0]] + InsertNumber(n, s[1..])
  }

  /** The numbers in ascending order. */
  function SortNumbers(s: seq<int>): seq<int> {
    if s == [] then [] else InsertNumber(s[0], SortNumbers(s[1..]))
  }

  lemma {:induction false} InsertNumberIn(n: int, s: seq<int>, x: int)
    ensures x in InsertNumber(n, s) <==> x == n || x in s
  {
    if s != [] && !(n <= s[0]) {
      InsertNumberIn(n, s[1..], x);
      assert x in s <==> x == s[0] || x in s[1..];
    }
  }

  lemma {:induction false} InsertKeepsIncreasing(n: int, s: seq<int>)
    requires StrictlyIncreasing(s) && n !in s
    ensures StrictlyIncreasing(InsertNumber(n, s))
  {
    if s == [] {
    } else if n <= s[0] {
      assert s[0] in s && InsertNumber(n, s) == [n] + s;
    } else {
      InsertKeepsIncreasing(n, s[1..]);
      var t := InsertNumber(n, s[1..]);
      forall j | 0 <= j < |t| ensures s[0] < t[j] {
        InsertNumberIn(n, s[1..], t[j]);
      }
      assert InsertNumber(n, s) == [s[0]] + t;
    }
  }

  predicate AllDifferent(s: seq<int>) {
    forall i, j :: 0 <= i < j < |s| ==> s[i] != s[j]
  }

  /** Sorting different numbers makes them strictly increasing and keeps exactly them. */
  lemma {:induction false} SortNumbersSorts(s: seq<int>)
    requires AllDifferent(s)
    ensures StrictlyIncreasing(SortNumbers(s))
    ensures forall x :: x in SortNumbers(s) <==> x in s
  {
    if s != [] {
      SortNumbersSorts(s[1..]);
      forall x ensures x in SortNumbers(s) <==> x in s {
        InsertNumberIn(s[0], SortNumbers(s[1..]), x);
        assert x in s <==> x == s[0] || x in s[1..];
      }
      InsertKeepsIncreasing(s[0], SortNumbers(s[1..]));
    }
  }

  /** Strictly increasing sequences of the same numbers are equal. */
  lemma {:induction false} IncreasingIsUnique(s: seq<int>, t: seq<int>)
    requires StrictlyIncreasing(s) && StrictlyIncreasing(t) && forall x :: x in s <==> x in t
    ensures s == t
  {
    assert t != [] ==> t[0] in t;
    if s != [] {
      assert s[0] in s && s[0] in t;
      assert t[0] in t && t[0] in s;
      assert s[0] == t[0];
      forall x ensures x in s[1..] <==> x in t[1..] {
        if x in s[1..] {
          assert x in s && x != s[0];
        }
        if x in t[1..] {
          assert x in t && x != t[0];
        }
      }
      IncreasingIsUnique(s[1..], t[1..]);
      assert s == [s[0]] + s[1..] && t == [t[0]] + t[1..];
    }
  }

  /** The different numbers, in order of first occurrence. */
  method DifferentNumbers(s: seq<int>) returns (out: seq<int>)
    ensures AllDifferent(out)
    ensures forall x :: x in out <==> x in s
  {
    out := [];
    for i := 0 to |s|
      invariant AllDifferent(out)
      invariant forall x :: x in out <==> x in s[..i]
    {
      if s[i] !in out {
        out := out + [s[i]];
      }
      assert s[..i + 1] == s[..i] + [s[i]];
    }
    assert s[..|s|] == s;
  }

  /** The first number that is no article is an error; otherwise the union, ascending and without repetition. */
  method BuildCitationArticleSet(triggered: seq<real>, applied: seq<real>) returns (r: Result<seq<int>, real>)
    ensures var all := triggered + applied;
      && (r.Ok? <==> forall i :: 0 <= i < |all| ==> all[i] in {1.0, 2.0, 3.0, 4.0, 5.0, 6.0, 7.0})
      && (r.Err? ==> exists i :: 0 <= i < |all| && r.error == all[i] && !IsArticle(all[i])
                                 && forall j :: 0 <= j < i ==> IsArticle(all[j]))
      && (r.Ok? ==> StrictlyIncreasing(r.value) && forall x: int :: x in r.value <==> x as real in all)
  {
    var all := triggered + applied;
    var numbers: seq<int> := [];
    for i := 0 to |all|
      invariant forall j :: 0 <= j < i ==> IsArticle(all[j]) && all[j] in {1.0, 2.0, 3.0, 4.0, 5.0, 6.0, 7.0}
      invariant |numbers| == i && forall j :: 0 <= j < i ==> numbers[j] == all[j].Floor
    {
      IsArticleIff(all[i]);
      if !IsArticle(all[i]) {
        return Err(all[i]);
      }
      numbers := numbers + [all[i].Floor];
    }
    var different := DifferentNumbers(numbers);
    SortNumbersSorts(different);
    r := Ok(SortNumbers(different));
    forall x: int ensures x in r.value <==> x as real in all {
      if x in numbers {
        var j :| 0 <= j < |numbers| && numbers[j] == x;
        assert all[j] == x as real;
      }
      if x as real in all {
        var j :| 0 <= j < |all| && all[j] == x as real;
        assert numbers[j] == x;
      }
    }
  }

  /** The required articles that are not covered, in ascending order. */
  method FindMissingCitations(citationSet: seq<int>, triggered: seq<int>, applied: seq<int>) returns (missing: seq<int>)
    ensures StrictlyIncreasing(missing)
    ensures forall x :: x in missing <==> (x in triggered || x in applied) && x !in citationSet
  {
    var required := DifferentNumbers(triggered + applied);
    var found: seq<int> := [];
    for i := 0 to |required|
      invariant AllDifferent(found)
      invariant forall x :: x in found <==> x in required[..i] && x !in citationSet
    {
      if required[i] !in citationSet {
        assert required[i] !in required[..i];
        found := found + [required[i]];
      }
      assert required[..i + 1] == required[..i] + [required[i]];
    }
    assert required[..|required|] == required;
    SortNumbersSorts(found);
    missing := SortNumbers(found);
  }
}
