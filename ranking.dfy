/** The search of the script: with a non-empty query, keep the papers of
    positive score and sort them in place, stably, by descending score;
    with an empty query, show the whole collection as it is. */
module Ranking {
  import opened Bibliography
  import opened Scoring
  import opened StableSort
  import opened Text

  /** The sort key the script passes to `list.sort`. */
  function ScoreKey(q: string): Paper -> int {
    p => Score(p, q)
  }

  /** The filtering step of the search: the papers of positive score, in collection order. */
  function Positive(papers: seq<Paper>, q: string): (r: seq<Paper>)
    ensures forall p :: p in r <==> p in papers && Matches(p, q)
  {
    if papers == [] then []
    else
      assert forall p :: p in papers <==> p == papers[0] || p in papers[1..];
      (if Score(papers[0], q) > 0 then [papers[0]] else []) + Positive(papers[1..], q)
  }

  /** Filtering on a positive score keeps, for every positive score, all
      papers of that score in collection order, and no paper of score 0. */
  lemma {:induction false} PositiveOfScore(papers: seq<Paper>, q: string, k: int)
    ensures OfKey(Positive(papers, q), ScoreKey(q), k) == if k > 0 then OfKey(papers, ScoreKey(q), k) else []
  {
    if papers != [] {
      var head := if Score(papers[0], q) > 0 then [papers[0]] else [];
      OfKeyAppend(head, Positive(papers[1..], q), ScoreKey(q), k);
      PositiveOfScore(papers[1..], q, k);
    }
  }

  /** What the search shows for `query` over the collection. */
  function Results(papers: seq<Paper>, query: string): seq<Paper> {
    if query != [] then SortDesc(Positive(papers, query), ScoreKey(query)) else papers
  }

  /** Builds `shown` for a query: filter, copy into a list, sort it in place. */
  method Search(papers: seq<Paper>, query: string) returns (shown: seq<Paper>)
    ensures query == [] ==> shown == papers
    ensures shown == Results(papers, query)
  {
    if query != [] {
      var matching := Positive(papers, query);
      var a := new Paper[|matching|](i requires 0 <= i < |matching| => matching[i]);
      assert a[..] == matching;
      SortByKey(a, ScoreKey(query));
      shown := a[..];
    } else {
      shown := papers;
    }
  }

  /** A non-empty query shows exactly the papers it matches. */
  lemma ResultsMatch(papers: seq<Paper>, query: string)
    requires query != []
    ensures forall p :: p in Results(papers, query) <==> p in papers && Matches(p, query)
  {
    var t := Results(papers, query);
    SortDescPermutes(Positive(papers, query), ScoreKey(query));
    forall p
      ensures p in t <==> p in Positive(papers, query)
    {
      assert p in t <==> p in multiset(t);
    }
  }

  /** A non-empty query shows a permutation of the collection's matching
      papers: each as often as it occurs among them. */
  lemma ResultsPermutation(papers: seq<Paper>, query: string)
    requires query != []
    ensures multiset(Results(papers, query)) == multiset(Positive(papers, query))
    ensures |Results(papers, query)| == |Positive(papers, query)|
  {
    SortDescPermutes(Positive(papers, query), ScoreKey(query));
    assert |multiset(Results(papers, query))| == |multiset(Positive(papers, query))|;
  }

  /** A non-empty query shows its papers by non-increasing score. */
  lemma ResultsOrdered(papers: seq<Paper>, query: string)
    requires query != []
    ensures forall i, j :: 0 <= i < j < |Results(papers, query)| ==>
              Score(Results(papers, query)[i], query) >= Score(Results(papers, query)[j], query)
  {
    SortDescSorted(Positive(papers, query), ScoreKey(query));
  }

  /** Ties keep collection order: for each positive score, the shown papers
      of that score are exactly the collection's papers of that score, in
      collection order; no paper of score 0 is shown. */
  lemma ResultsStable(papers: seq<Paper>, query: string, k: int)
    requires query != []
    ensures OfKey(Results(papers, query), ScoreKey(query), k)
            == if k > 0 then OfKey(papers, ScoreKey(query), k) else []
  {
    SortDescStable(Positive(papers, query), ScoreKey(query), k);
    PositiveOfScore(papers, query, k);
  }

  /** The shown list is the only arrangement with the three properties
      above: any list ordered by non-increasing score that holds, for each
      positive score, the collection's papers of that score in collection
      order, and no paper of score 0, is the shown list. */
  lemma ResultsUnique(papers: seq<Paper>, query: string, t: seq<Paper>)
    requires query != []
    requires SortedDesc(t, ScoreKey(query))
    requires forall k :: OfKey(t, ScoreKey(query), k) == if k > 0 then OfKey(papers, ScoreKey(query), k) else []
    ensures t == Results(papers, query)
  {
    var r := Results(papers, query);
    SortDescSorted(Positive(papers, query), ScoreKey(query));
    forall k
      ensures OfKey(t, ScoreKey(query), k) == OfKey(r, ScoreKey(query), k)
    {
      ResultsStable(papers, query, k);
    }
    StableOrderUnique(t, r, ScoreKey(query));
  }

  /** Three papers for a worked case. */
  const GraphDb: Paper := Paper(1, "Graph Databases", "", [], "", 2020, [])
  const SqlTuning: Paper := Paper(2, "SQL", "", [], "", 2021, ["graph"])
  const WebSearch: Paper := Paper(3, "Web", "", [], "", 2022, [])

  /** The scores in the worked case. */
  lemma GraphQueryScores()
    ensures Score(GraphDb, "graph") == 3
    ensures Score(SqlTuning, "graph") == 2
    ensures Score(WebSearch, "graph") == 0
  {
    assert Lower("graph") == "graph";
    assert Lower("Graph Databases")[..5] == "graph";
  }

  /** A worked case: for the query "graph", a paper titled "Graph Databases"
      (score 3) comes before a paper whose only hit is its keyword "graph"
      (score 2), and a paper without a hit is not shown. */
  lemma GraphQueryExample()
    ensures Results([WebSearch, SqlTuning, GraphDb], "graph") == [GraphDb, SqlTuning]
  {
    GraphQueryScores();
    var papers := [WebSearch, SqlTuning, GraphDb];
    assert papers[1..] == [SqlTuning, GraphDb] && papers[1..][1..] == [GraphDb] && [GraphDb][1..] == [];
    assert Positive([GraphDb], "graph") == [GraphDb] + Positive([], "graph");
    assert Positive([SqlTuning, GraphDb], "graph") == [SqlTuning] + Positive([GraphDb], "graph");
    assert Positive(papers, "graph") == Positive([SqlTuning, GraphDb], "graph");
    var key := ScoreKey("graph");
    assert [SqlTuning, GraphDb][..1] == [SqlTuning] && [SqlTuning][..0] == [];
    assert SortDesc([SqlTuning], key) == [SqlTuning];
    assert [SqlTuning][1..] == [];
    assert Insert(GraphDb, [SqlTuning], key) == [GraphDb, SqlTuning];
  }
}
