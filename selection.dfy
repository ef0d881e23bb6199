/** The selection: the full records of the marked papers, in collection
    order, and the record offered for download. */
module Selection {
  import opened Wrappers
  import opened Sequences
  import opened Bibliography
  import opened Relevance

  /** The papers of the collection whose id has an entry in the log, in collection order. */
  function Selected(papers: seq<Paper>, log: Log): (r: seq<Paper>)
    ensures forall p :: p in r <==> p in papers && p.id in log
  {
    if papers == [] then []
    else
      assert forall p :: p in papers <==> p == papers[0] || p in papers[1..];
      (if papers[0].id in log then [papers[0]] else []) + Selected(papers[1..], log)
  }

  /** The selection keeps collection order: it is a subsequence of the collection. */
  lemma {:induction false} SelectedInOrder(papers: seq<Paper>, log: Log)
    ensures IsSubsequence(Selected(papers, log), papers)
  {
    if papers != [] {
      SelectedInOrder(papers[1..], log);
      var rest := Selected(papers[1..], log);
      if papers[0].id in log {
        assert ([papers[0]] + rest)[1..] == rest;
      } else {
        assert Selected(papers, log) == rest;
      }
    }
  }

  /** Only which ids the log holds matters, not their order or the order of the events. */
  lemma {:induction false} SelectedIgnoresLogOrder(papers: seq<Paper>, log: Log, log': Log)
    requires forall y :: y in log <==> y in log'
    ensures Selected(papers, log) == Selected(papers, log')
  {
    if papers != [] {
      SelectedIgnoresLogOrder(papers[1..], log, log');
    }
  }

  /** In a collection with unique ids, no two selected records share an id. */
  lemma {:induction false} SelectedUnique(papers: seq<Paper>, log: Log)
    requires UniqueIds(papers)
    ensures UniqueIds(Selected(papers, log))
  {
    if papers != [] {
      var rest := Selected(papers[1..], log);
      SelectedUnique(papers[1..], log);
      if papers[0].id in log {
        forall j | 0 < j < |[papers[0]] + rest|
          ensures ([papers[0]] + rest)[j].id != papers[0].id
        {
          assert rest[j - 1] in papers[1..];
        }
      }
    }
  }

  /** The downloadable record: the selected papers and the current overview (`None` when none was generated). */
  datatype Export = Export(selectedPapers: seq<Paper>, aiOverview: Option<string>)

  /** The `save_dict` of the script. */
  function SaveRecord(papers: seq<Paper>, log: Log, overview: Option<string>): (r: Export)
    ensures forall p :: p in r.selectedPapers <==> p in papers && p.id in log
    ensures IsSubsequence(r.selectedPapers, papers)
    ensures r.aiOverview == overview
  {
    SelectedInOrder(papers, log);
    Export(Selected(papers, log), overview)
  }
}
