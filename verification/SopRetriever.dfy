/** Merging knowledge-base results and the S3 fallback into one citation per article. */
module SopRetriever {
  import opened Options
  import opened CitationArticleSet

  /** One knowledge-base result; the article is None when it cannot be told. */
  datatype KbResult = KbResult(
    article: Option<int>, text: Option<string>, s3Uri: Option<string>, webUrl: Option<string>, score: Option<real>)

  datatype CitationSource = FromKb | FromS3

  datatype Citation = Citation(article: int, content: string, location: string, score: Option<real>,
    source: CitationSource)

  datatype Fetched = Fetched(text: string, uri: string)

  /** What the S3 fallback answers for an article. */
  type Fetch = int -> Result<Fetched, string>

  const UNKNOWN_SOURCE := "kb://unknown-source"

  function SourceLocation(r: KbResult): string {
    if r.s3Uri.Some? && r.s3Uri.value != "" then r.s3Uri.value
    else if r.webUrl.Some? && r.webUrl.value != "" then r.webUrl.value
    else UNKNOWN_SOURCE
  }

  function ScoreOf(r: KbResult): real {
    r.score.GetOr(0.0)
  }

  function KbCitation(r: KbResult): Citation
    requires r.article.Some?
  {
    Citation(r.article.value, r.text.GetOr(""), SourceLocation(r), Some(ScoreOf(r)), FromKb)
  }

  // ----- What must come out ---------------------------------------------------

  /** The first of the article's best-scored results. */
  function BestResult(results: seq<KbResult>, article: int): (best: Option<KbResult>)
    ensures best.Some? ==> best.value.article == Some(article)
  {
    if results == [] then None
    else
      var before, r := BestResult(results[..|results| - 1], article), results[|results| - 1];
      if r.article == Some(article) && (before.None? || ScoreOf(r) > ScoreOf(before.value)) then Some(r) else before
  }

  /** No result for the article scores higher, and one is found exactly when there is one. */
  lemma {:induction false} BestResultIsBest(results: seq<KbResult>, article: int)
    ensures BestResult(results, article).Some? <==> exists r :: r in results && r.article == Some(article)
    ensures BestResult(results, article).Some? ==> BestResult(results, article).value in results
    ensures forall r :: r in results && r.article == Some(article) ==>
      BestResult(results, article).Some? && ScoreOf(r) <= ScoreOf(BestResult(results, article).value)
  {
    if results != [] {
      BestResultIsBest(results[..|results| - 1], article);
      assert results == results[..|results| - 1] + [results[|results| - 1]];
    }
  }

  /** The citation of one article: the best result, or else what S3 has. */
  function CitationOf(kb: Option<seq<KbResult>>, fetch: Fetch, article: int): Option<Citation> {
    var best := if kb.Some? then BestResult(kb.value, article) else None;
    if best.Some? then Some(KbCitation(best.value))
    else
      match fetch(article)
      case Ok(f) => Some(Citation(article, f.text, f.uri, None, FromS3))
      case Err(_) => None
  }

  /** One citation for each article that has one, in the order of the articles. */
  function Citations(kb: Option<seq<KbResult>>, fetch: Fetch, articles: seq<int>): seq<Citation> {
    if articles == [] then []
    else
      var c := CitationOf(kb, fetch, articles[|articles| - 1]);
      Citations(kb, fetch, articles[..|articles| - 1]) + if c.Some? then [c.value] else []
  }

  /** The articles that have none, in order. */
  function Uncited(kb: Option<seq<KbResult>>, fetch: Fetch, articles: seq<int>): seq<int> {
    if articles == [] then []
    else
      var a := articles[|articles| - 1];
      Uncited(kb, fetch, articles[..|articles| - 1]) + if CitationOf(kb, fetch, a).None? then [a] else []
  }

  lemma LastOrFront(articles: seq<int>)
    requires articles != []
    ensures forall a :: a in articles <==> a == articles[|articles| - 1] || a in articles[..|articles| - 1]
  {
    assert articles == articles[..|articles| - 1] + [articles[|articles| - 1]];
  }

  /** The cited and the uncited articles split the articles exactly, each in order. */
  lemma {:induction false} CitationsCover(kb: Option<seq<KbResult>>, fetch: Fetch, articles: seq<int>)
    ensures forall c :: c in Citations(kb, fetch, articles) <==>
      c.article in articles && CitationOf(kb, fetch, c.article) == Some(c)
    ensures forall a :: a in Uncited(kb, fetch, articles) <==> a in articles && CitationOf(kb, fetch, a).None?
  {
    if articles != [] {
      CitationsCover(kb, fetch, articles[..|articles| - 1]);
      LastOrFront(articles);
    }
  }

  /** Where nothing is uncited there is exactly one citation per article, in order. */
  lemma {:induction false} OneCitationEach(kb: Option<seq<KbResult>>, fetch: Fetch, articles: seq<int>)
    requires Uncited(kb, fetch, articles) == []
    ensures |Citations(kb, fetch, articles)| == |articles|
    ensures forall i :: 0 <= i < |articles| ==> Citations(kb, fetch, articles)[i].article == articles[i]
  {
    if articles != [] {
      OneCitationEach(kb, fetch, articles[..|articles| - 1]);
    }
  }

  lemma {:induction false} BestResultIsFirst(results: seq<KbResult>, article: int) returns (i: nat)
    requires BestResult(results, article).Some?
    ensures i < |results| && results[i] == BestResult(results, article).value && results[i].article == Some(article)
    ensures forall j :: 0 <= j < |results| && results[j].article == Some(article) ==>
      results[j].score.GetOr(0.0) <= results[i].score.GetOr(0.0)
    ensures forall j :: 0 <= j < i && results[j].article == Some(article) ==>
      results[j].score.GetOr(0.0) < results[i].score.GetOr(0.0)
  {
    var n := |results| - 1;
    var before, r := results[..n], results[n];
    if BestResult(before, article).None? {
      BestResultIsBest(before, article);
      i := n;
      assert forall j :: 0 <= j < n ==> results[j] in before;
    } else {
      var k := BestResultIsFirst(before, article);
      assert forall j :: 0 <= j < n ==> results[j] == before[j];
      i := if r.article == Some(article) && ScoreOf(r) > ScoreOf(before[k]) then n else k;
    }
  }

  /** This citation shows this result: its text, where it was found, and its score. */
  predicate Shows(c: Citation, r: KbResult) {
    && r.article == Some(c.article)
    && c.content == (if r.text.Some? then r.text.value else "")
    && c.score == Some(if r.score.Some? then r.score.value else 0.0)
    && (r.s3Uri.GetOr("") != "" ==> c.location == r.s3Uri.GetOr(""))
    && (r.s3Uri.GetOr("") == "" && r.webUrl.GetOr("") != "" ==> c.location == r.webUrl.GetOr(""))
    && (r.s3Uri.GetOr("") == "" && r.webUrl.GetOr("") == "" ==> c.location == "kb://unknown-source")
  }

  /** The first result of its article among those that score highest; a missing score counts as 0. */
  predicate IsFirstBest(results: seq<KbResult>, i: nat, article: int)
    requires i < |results|
  {
    && (forall j :: 0 <= j < |results| && results[j].article == Some(article) ==>
          results[j].score.GetOr(0.0) <= results[i].score.GetOr(0.0))
    && (forall j :: 0 <= j < i && results[j].article == Some(article) ==>
          results[j].score.GetOr(0.0) < results[i].score.GetOr(0.0))
  }

  /**
   A citation from the knowledge base shows the first of its article's best results; S3 is used
   only for an article without any result, and what it answers is shown unchanged.
   */
  lemma CitationsAreBest(kb: Option<seq<KbResult>>, fetch: Fetch, articles: seq<int>, c: Citation)
    requires c in Citations(kb, fetch, articles)
    ensures var results := kb.GetOr([]);
      && (c.source.FromKb? ==>
            exists i :: 0 <= i < |results| && Shows(c, results[i]) && IsFirstBest(results, i, c.article))
      && (c.source.FromS3? ==>
            && (forall r :: r in results ==> r.article != Some(c.article))
            && c.score == None && fetch(c.article) == Ok(Fetched(c.content, c.location)))
  {
    CitationsCover(kb, fetch, articles);
    var results := kb.GetOr([]);
    BestResultIsBest(results, c.article);
    if c.source.FromKb? {
      var i := BestResultIsFirst(results, c.article);
      assert Shows(c, results[i]) && IsFirstBest(results, i, c.article);
    }
  }

  datatype RetrieveSource = KbOnly | KbPartialS3 | S3Only

  datatype RetrieveResult =
    | Success(citations: seq<Citation>, source: RetrieveSource)
    | BothFailed(failed: seq<int>, partial: seq<Citation>, kbError: KbError, s3Error: string)

  /** Why the knowledge base did not do: it failed, or it had nothing on these articles. */
  datatype KbError = KbFailed(reason: string) | KbPartial(missing: seq<int>)

  // ----- The loops --------------------------------------------------------------

  /** The best result of every article of the set, and the articles in the order they were met. */
  method CollectBest(results: seq<KbResult>, articles: seq<int>)
    returns (best: map<int, KbResult>, order: seq<int>, unmapped: nat)
    ensures unmapped == CountUnmapped(results)
    ensures forall a :: a in best <==> a in articles && BestResult(results, a).Some?
    ensures forall a :: a in best ==> best[a] == BestResult(results, a).value
    ensures AllDifferent(order)
    ensures forall a :: a in order <==> a in best
  {
    best, order, unmapped := map[], [], 0;
    for i := 0 to |results|
      invariant unmapped == CountUnmapped(results[..i])
      invariant forall a :: a in best <==> a in articles && BestResult(results[..i], a).Some?
      invariant forall a :: a in best ==> best[a] == BestResult(results[..i], a).value
      invariant AllDifferent(order) && forall a :: a in order <==> a in best
    {
      var r := results[i];
      assert results[..i + 1][..i] == results[..i];
      if r.article.None? {
        unmapped := unmapped + 1;
      } else if r.article.value in articles {
        var a := r.article.value;
        if a !in best {
          order := order + [a];
          best := best[a := r];
        } else if ScoreOf(r) > ScoreOf(best[a]) {
          best := best[a := r];
        }
      }
    }
    assert results[..|results|] == results;
  }

  /** The citation the knowledge base gives for an article of the set. */
  predicate IsKbCitation(results: seq<KbResult>, articles: seq<int>, c: Citation) {
    && c.article in articles
    && BestResult(results, c.article).Some? && c == KbCitation(BestResult(results, c.article).value)
  }

  /** One best citation per article of the set, and how many results name no article. */
  method MapKbResults(results: seq<KbResult>, articles: seq<int>) returns (citations: seq<Citation>, unmapped: nat)
    ensures forall c :: c in citations <==> IsKbCitation(results, articles, c)
    ensures forall i, j :: 0 <= i < j < |citations| ==> citations[i].article != citations[j].article
    ensures unmapped == CountUnmapped(results)
  {
    var best, order, count := CollectBest(results, articles);
    unmapped := count;
    citations := [];
    assert forall j :: 0 <= j < |order| ==> order[j] in order;
    assert forall j :: 0 <= j < |order| ==> order[j] in best && best[order[j]] == BestResult(results, order[j]).value;
    for i := 0 to |order|
      invariant |citations| == i
      invariant forall j :: 0 <= j < i ==> citations[j] == KbCitation(best[order[j]])
    {
      citations := citations + [KbCitation(best[order[i]])];
    }
    forall c: Citation | IsKbCitation(results, articles, c) ensures c in citations {
      assert c.article in order;
      var j :| 0 <= j < |order| && order[j] == c.article;
      assert citations[j] == c;
    }
  }

  function CountUnmapped(results: seq<KbResult>): nat {
    if results == [] then 0
    else CountUnmapped(results[..|results| - 1]) + if results[|results| - 1].article.None? then 1 else 0
  }

  /** The fallback, article by article; the last error is the one that is kept. */
  method TryS3Fallback(fetch: Fetch, articles: seq<int>)
    returns (citations: seq<Citation>, failed: seq<int>, s3Error: Option<string>)
    ensures citations == Citations(None, fetch, articles) && failed == Uncited(None, fetch, articles)
    ensures s3Error.Some? <==> failed != []
    ensures s3Error.Some? ==> fetch(failed[|failed| - 1]) == Err(s3Error.value)
  {
    citations, failed, s3Error := [], [], None;
    for i := 0 to |articles|
      invariant citations == Citations(None, fetch, articles[..i]) && failed == Uncited(None, fetch, articles[..i])
      invariant s3Error.Some? <==> failed != []
      invariant s3Error.Some? ==> fetch(failed[|failed| - 1]) == Err(s3Error.value)
    {
      assert articles[..i + 1][..i] == articles[..i];
      var got := fetch(articles[i]);
      match got
      case Ok(f) => citations := citations + [Citation(articles[i], f.text, f.uri, None, FromS3)];
      case Err(e) => failed, s3Error := failed + [articles[i]], Some(e);
    }
    assert articles[..|articles|] == articles;
  }

  // ----- Ordering -------------------------------------------------------------------

  /** Where an article stands in the set; articles outside it come last. */
  function RankOf(rank: map<int, nat>, article: int, last: nat): nat {
    if article in rank then rank[article] else last
  }

  predicate NotAfter(rank: map<int, nat>, last: nat, a: int, b: int) {
    var x, y := RankOf(rank, a, last), RankOf(rank, b, last);
    if x != y then x < y else a <= b
  }

  function InsertByRank(c: Citation, s: seq<Citation>, rank: map<int, nat>, last: nat): seq<Citation> {
    if s == [] || NotAfter(rank, last, c.article, s[0].article) then [c] + s
    else [s[0]] + InsertByRank(c, s[1..], rank, last)
  }

  function SortByRank(s: seq<Citation>, rank: map<int, nat>, last: nat): seq<Citation> {
    if s == [] then [] else InsertByRank(s[0], SortByRank(s[1..], rank, last), rank, last)
  }

  lemma {:induction false} InsertByRankAdds(c: Citation, s: seq<Citation>, rank: map<int, nat>, last: nat)
    ensures multiset(InsertByRank(c, s, rank, last)) == multiset{c} + multiset(s)
  {
    if s != [] && !NotAfter(rank, last, c.article, s[0].article) {
      InsertByRankAdds(c, s[1..], rank, last);
      assert s == [s[0]] + s[1..];
    }
  }

  /** Every citation stands before those that come after it by rank, then by number. */
  predicate RankOrdered(s: seq<Citation>, rank: map<int, nat>, last: nat) {
    forall i, j :: 0 <= i < j < |s| ==> NotAfter(rank, last, s[i].article, s[j].article)
  }

  lemma {:induction false} InsertByRankOrders(c: Citation, s: seq<Citation>, rank: map<int, nat>, last: nat)
    requires RankOrdered(s, rank, last)
    ensures RankOrdered(InsertByRank(c, s, rank, last), rank, last)
  {
    if s != [] && !NotAfter(rank, last, c.article, s[0].article) {
      InsertByRankOrders(c, s[1..], rank, last);
      InsertByRankAdds(c, s[1..], rank, last);
      var t := InsertByRank(c, s[1..], rank, last);
      forall j | 0 <= j < |t| ensures NotAfter(rank, last, s[0].article, t[j].article) {
        assert t[j] in multiset(t);
        assert t[j] == c || t[j] in s[1..];
      }
    }
  }

  /** Sorting loses nothing and adds nothing. */
  lemma {:induction false} SortByRankOrders(s: seq<Citation>, rank: map<int, nat>, last: nat)
    ensures multiset(SortByRank(s, rank, last)) == multiset(s) && RankOrdered(SortByRank(s, rank, last), rank, last)
  {
    if s != [] {
      SortByRankOrders(s[1..], rank, last);
      InsertByRankAdds(s[0], SortByRank(s[1..], rank, last), rank, last);
      InsertByRankOrders(s[0], SortByRank(s[1..], rank, last), rank, last);
      assert s == [s[0]] + s[1..];
    }
  }

  /** Articles of the set come first; the others follow; on either side the numbers ascend. */
  predicate InSetOrder(articles: seq<int>, a: int, b: int) {
    && (b in articles ==> a in articles)
    && ((a in articles <==> b in articles) ==> a <= b)
  }

  lemma RankOrderIsSetOrder(rank: map<int, nat>, articles: seq<int>, a: int, b: int)
    requires StrictlyIncreasing(articles) && RanksArticles(rank, articles) && NotAfter(rank, |articles|, a, b)
    ensures InSetOrder(articles, a, b)
  {
    if a in articles && b in articles {
      RankIsNumericOrder(rank, articles, a, b);
    }
  }

  /** Fills the rank table and sorts a copy. */
  method OrderByArticleSet(citations: seq<Citation>, articles: seq<int>) returns (out: seq<Citation>)
    ensures multiset(out) == multiset(citations)
    ensures StrictlyIncreasing(articles) ==>
      forall i, j :: 0 <= i < j < |out| ==> InSetOrder(articles, out[i].article, out[j].article)
    ensures StrictlyIncreasing(articles) && OnePerArticle(citations, articles) ==>
      ArticlesIncrease(out) && forall c :: c in out <==> c in citations
  {
    var rank: map<int, nat> := map[];
    for i := 0 to |articles|
      invariant forall a :: a in rank <==> a in articles[..i]
      invariant forall a :: a in rank ==> rank[a] < i && articles[rank[a]] == a
    {
      rank := rank[articles[i] := i];
      assert articles[..i + 1] == articles[..i] + [articles[i]];
    }
    assert articles[..|articles|] == articles;
    out := SortByRank(citations, rank, |articles|);
    SortByRankOrders(citations, rank, |articles|);
    if StrictlyIncreasing(articles) {
      forall i, j | 0 <= i < j < |out| ensures InSetOrder(articles, out[i].article, out[j].article) {
        RankOrderIsSetOrder(rank, articles, out[i].article, out[j].article);
      }
    }
    if StrictlyIncreasing(articles) && OnePerArticle(citations, articles) {
      SortByRankSorts(citations, articles, rank);
    }
  }

  /** All articles are in the set and no two citations share one. */
  predicate OnePerArticle(citations: seq<Citation>, articles: seq<int>) {
    && (forall i :: 0 <= i < |citations| ==> citations[i].article in articles)
    && (forall i, j :: 0 <= i < j < |citations| ==> citations[i].article != citations[j].article)
  }

  predicate ArticlesIncrease(s: seq<Citation>) {
    forall i, j :: 0 <= i < j < |s| ==> s[i].article < s[j].article
  }

  ghost predicate RanksArticles(rank: map<int, nat>, articles: seq<int>) {
    && (forall a :: a in rank <==> a in articles)
    && (forall a :: a in rank ==> rank[a] < |articles| && articles[rank[a]] == a)
  }

  /** In a strictly increasing set, ranks order articles as numbers. */
  lemma RankIsNumericOrder(rank: map<int, nat>, articles: seq<int>, a: int, b: int)
    requires StrictlyIncreasing(articles) && RanksArticles(rank, articles) && a in articles && b in articles
    ensures NotAfter(rank, |articles|, a, b) <==> a <= b
  {
    assert articles[rank[a]] == a && articles[rank[b]] == b;
  }

  lemma {:induction false} InsertByRankSorts(c: Citation, s: seq<Citation>, articles: seq<int>, rank: map<int, nat>)
    requires StrictlyIncreasing(articles) && RanksArticles(rank, articles)
    requires ArticlesIncrease(s) && c.article in articles
    requires forall d :: d in s ==> d.article in articles && d.article != c.article
    ensures var t := InsertByRank(c, s, rank, |articles|);
      ArticlesIncrease(t) && forall d :: d in t <==> d == c || d in s
  {
    if s != [] {
      assert s[0] in s;
      RankIsNumericOrder(rank, articles, c.article, s[0].article);
      if !NotAfter(rank, |articles|, c.article, s[0].article) {
        InsertByRankSorts(c, s[1..], articles, rank);
        var t := InsertByRank(c, s[1..], rank, |articles|);
        forall j | 0 <= j < |t| ensures s[0].article < t[j].article {
          assert t[j] in t;
        }
        assert forall d :: d in s <==> d == s[0] || d in s[1..];
      }
    }
  }

  lemma {:induction false} SortByRankSorts(s: seq<Citation>, articles: seq<int>, rank: map<int, nat>)
    requires StrictlyIncreasing(articles) && RanksArticles(rank, articles) && OnePerArticle(s, articles)
    ensures var t := SortByRank(s, rank, |articles|);
      ArticlesIncrease(t) && forall d :: d in t <==> d in s
  {
    if s != [] {
      SortByRankSorts(s[1..], articles, rank);
      InsertByRankSorts(s[0], SortByRank(s[1..], rank, |articles|), articles, rank);
      assert forall d :: d in s <==> d == s[0] || d in s[1..];
    }
  }

  /** Sequences with increasing articles and the same citations are equal. */
  lemma {:induction false} OrderedIsUnique(s: seq<Citation>, t: seq<Citation>)
    requires ArticlesIncrease(s) && ArticlesIncrease(t) && forall c :: c in s <==> c in t
    ensures s == t
  {
    assert t != [] ==> t[0] in t;
    if s != [] {
      assert s[0] in s && s[0] in t;
      assert t[0] in t && t[0] in s;
      assert s[0] == t[0];
      forall c ensures c in s[1..] <==> c in t[1..] {
        if c in s[1..] {
          assert c in s && c != s[0];
        }
        if c in t[1..] {
          assert c in t && c != t[0];
        }
      }
      OrderedIsUnique(s[1..], t[1..]);
      assert s == [s[0]] + s[1..] && t == [t[0]] + t[1..];
    }
  }

  // ----- Retrieval --------------------------------------------------------------------

  /** The articles of the set the knowledge base has nothing on. */
  function Missing(results: seq<KbResult>, articles: seq<int>): seq<int> {
    if articles == [] then []
    else
      var a := articles[|articles| - 1];
      Missing(results, articles[..|articles| - 1]) + if BestResult(results, a).None? then [a] else []
  }

  lemma {:induction false} MissingIn(results: seq<KbResult>, articles: seq<int>)
    ensures forall a :: a in Missing(results, articles) <==> a in articles && BestResult(results, a).None?
  {
    if articles != [] {
      MissingIn(results, articles[..|articles| - 1]);
      LastOrFront(articles);
    }
  }

  lemma {:induction false} MissingIncreases(results: seq<KbResult>, articles: seq<int>)
    requires StrictlyIncreasing(articles)
    ensures StrictlyIncreasing(Missing(results, articles))
  {
    if articles != [] {
      var front := articles[..|articles| - 1];
      MissingIncreases(results, front);
      MissingIn(results, front);
      var m := Missing(results, front);
      forall j | 0 <= j < |m| ensures m[j] < articles[|articles| - 1] {
        assert m[j] in m;
      }
    }
  }

  /** Falling back on what is missing leaves exactly what has no citation at all. */
  lemma {:induction false} FallbackOnMissing(results: seq<KbResult>, fetch: Fetch, articles: seq<int>)
    ensures Uncited(None, fetch, Missing(results, articles)) == Uncited(Some(results), fetch, articles)
  {
    if articles != [] {
      var front, a := articles[..|articles| - 1], articles[|articles| - 1];
      FallbackOnMissing(results, fetch, front);
      if BestResult(results, a).None? {
        assert (Missing(results, front) + [a])[..|Missing(results, front)|] == Missing(results, front);
      } else {
        assert Missing(results, front) + [] == Missing(results, front);
      }
    }
  }

  lemma {:induction false} CitationsIncrease(kb: Option<seq<KbResult>>, fetch: Fetch, articles: seq<int>)
    requires StrictlyIncreasing(articles)
    ensures ArticlesIncrease(Citations(kb, fetch, articles))
  {
    if articles != [] {
      var front := articles[..|articles| - 1];
      CitationsIncrease(kb, fetch, front);
      CitationsCover(kb, fetch, front);
      var cs := Citations(kb, fetch, front);
      forall j | 0 <= j < |cs| ensures cs[j].article < articles[|articles| - 1] {
        assert cs[j] in cs;
        var k :| 0 <= k < |front| && front[k] == cs[j].article;
      }
    }
  }

  /** The knowledge-base citations and the fallback's together are the citations of the set. */
  lemma MergedIsOnePerArticle(
    results: seq<KbResult>, fetch: Fetch, articles: seq<int>, found: seq<Citation>, fallback: seq<Citation>)
    requires StrictlyIncreasing(articles)
    requires forall c :: c in found <==> IsKbCitation(results, articles, c)
    requires forall i, j :: 0 <= i < j < |found| ==> found[i].article != found[j].article
    requires fallback == Citations(None, fetch, Missing(results, articles))
    ensures OnePerArticle(found + fallback, articles)
    ensures forall c :: c in found + fallback <==> c in Citations(Some(results), fetch, articles)
  {
    MissingIn(results, articles);
    MissingIncreases(results, articles);
    CitationsCover(None, fetch, Missing(results, articles));
    CitationsIncrease(None, fetch, Missing(results, articles));
    CitationsCover(Some(results), fetch, articles);
    var merged := found + fallback;
    forall i | 0 <= i < |merged| ensures merged[i].article in articles {
      assert merged[i] in found || merged[i] in fallback;
    }
    forall i, j | 0 <= i < j < |merged| ensures merged[i].article != merged[j].article {
      if i < |found| <= j {
        assert merged[i] in found && merged[j] in fallback;
      }
    }
  }

  /** Ordering the merged citations gives the citations of the set in its order. */
  lemma OrderedAreCitations(kb: Option<seq<KbResult>>, fetch: Fetch, articles: seq<int>, out: seq<Citation>)
    requires StrictlyIncreasing(articles) && ArticlesIncrease(out)
    requires forall c :: c in out <==> c in Citations(kb, fetch, articles)
    ensures out == Citations(kb, fetch, articles)
  {
    CitationsIncrease(kb, fetch, articles);
    OrderedIsUnique(out, Citations(kb, fetch, articles));
  }

  /** The result the article set calls for, whatever the knowledge base and S3 answer. */
  predicate IsRetrieved(answer: Result<seq<KbResult>, string>, fetch: Fetch, articles: seq<int>, r: RetrieveResult) {
    var kb := if answer.Ok? then Some(answer.value) else None;
    var failed, cited := Uncited(kb, fetch, articles), Citations(kb, fetch, articles);
    match r
    case Success(citations, source) =>
      failed == [] && citations == cited
      && source == if articles == [] || (kb.Some? && Missing(kb.value, articles) == []) then KbOnly
                   else if kb.Some? then KbPartialS3 else S3Only
    case BothFailed(f, partial, kbError, s3Error) =>
      && failed != [] && f == failed && partial == cited
      && kbError == (if answer.Ok? then KbPartial(Missing(answer.value, articles)) else KbFailed(answer.error))
      && fetch(failed[|failed| - 1]) == Err(s3Error)
  }

  /** What the knowledge base gave, completed from S3. */
  method CompleteFromS3(results: seq<KbResult>, fetch: Fetch, articles: seq<int>) returns (r: RetrieveResult)
    requires articles != []
    ensures StrictlyIncreasing(articles) ==> IsRetrieved(Ok(results), fetch, articles, r)
  {
    var found, _ := MapKbResults(results, articles);
    var missing: seq<int> := [];
    for i := 0 to |articles|
      invariant missing == Missing(results, articles[..i])
    {
      assert articles[..i + 1][..i] == articles[..i];
      NotFoundIffNone(results, articles, found, articles[i]);
      if forall c :: c in found ==> c.article != articles[i] {
        missing := missing + [articles[i]];
      }
    }
    assert articles[..|articles|] == articles;
    var fallback, failed, s3Error := TryS3Fallback(fetch, missing);
    var ordered := OrderByArticleSet(found + fallback, articles);
    FallbackOnMissing(results, fetch, articles);
    if StrictlyIncreasing(articles) {
      MergedIsOnePerArticle(results, fetch, articles, found, fallback);
      OrderedAreCitations(Some(results), fetch, articles, ordered);
    }
    if failed != [] {
      r := BothFailed(failed, ordered, KbPartial(missing), s3Error.GetOr("partial S3 failure"));
    } else {
      r := Success(ordered, if missing == [] then KbOnly else KbPartialS3);
    }
  }

  lemma NotFoundIffNone(results: seq<KbResult>, articles: seq<int>, found: seq<Citation>, a: int)
    requires a in articles && forall c :: c in found <==> IsKbCitation(results, articles, c)
    ensures BestResult(results, a).None? <==> forall c :: c in found ==> c.article != a
  {
    assert BestResult(results, a).Some? ==>
      IsKbCitation(results, articles, KbCitation(BestResult(results, a).value));
  }

  /**
   For every list of results and every S3 failure, success has exactly one citation per
   article in the set's order, and failure splits the set exactly into cited and failed,
   with what the knowledge base lacked and the last error of S3.
   */
  method Retrieve(kb: Result<seq<KbResult>, string>, fetch: Fetch, articles: seq<int>) returns (r: RetrieveResult)
    ensures StrictlyIncreasing(articles) ==> IsRetrieved(kb, fetch, articles, r)
  {
    if articles == [] {
      return Success([], KbOnly);
    }
    if kb.Ok? {
      r := CompleteFromS3(kb.value, fetch, articles);
      return;
    }
    var citations, failed, s3Error := TryS3Fallback(fetch, articles);
    var ordered := OrderByArticleSet(citations, articles);
    if StrictlyIncreasing(articles) {
      CitationsCover(None, fetch, articles);
      CitationsIncrease(None, fetch, articles);
      OrderedAreCitations(None, fetch, articles, ordered);
    }
    if failed != [] {
      r := BothFailed(failed, ordered, KbFailed(kb.error), s3Error.GetOr("S3 fallback partial failure"));
    } else {
      r := Success(ordered, S3Only);
    }
  }
}
