/** The per-session state of the page (`log`, `ai_overview`, `show_ai`)
    and what each user event does to it. The transitions are pure
    functions on a `State` value; the `Session` class holds the fields the
    script updates in place and its methods are proved against those
    functions. */
module SessionState {
  import opened Wrappers
  import opened Sequences
  import opened Bibliography
  import opened Ranking
  import opened Relevance
  import opened Selection
  import opened Overview

  /** The session fields the script reads and writes. */
  datatype State = State(log: Log, aiOverview: Option<string>, showAi: bool)

  /** A new session: empty log, no overview, overview not shown. */
  const Initial: State := State([], None, false)

  /** What pressing the generate button led to. */
  datatype GenerateOutcome = Generated | NothingMarked | GenerationFailed

  /** What the overview area displays. */
  datatype View = NoOverview | Expanded(text: string) | Collapsed

  /** The overview area: text and a collapse button when an overview exists
      and is shown, only an expand button when it exists and is hidden.
      An empty overview text counts as none. */
  function ViewOf(s: State): View {
    if s.aiOverview.Some? && s.aiOverview.value != "" then
      if s.showAi then Expanded(s.aiOverview.value) else Collapsed
    else NoOverview
  }

  /** The generate button. With no marked paper it only warns; otherwise it
      asks the service for an overview of the marked papers and, on an
      answer, stores its text (`None` when the answer has no text) and shows
      it. A failure stops the run before anything is stored. */
  function Generate(s: State, papers: seq<Paper>, generate: string -> Reply): (r: (State, GenerateOutcome))
    ensures r.0.log == s.log
    ensures r.1 == NothingMarked <==> Selected(papers, s.log) == []
    ensures r.1 == GenerationFailed <==>
              Selected(papers, s.log) != [] && generate(OverviewPrompt(Selected(papers, s.log))).Failure?
    ensures r.1 != Generated ==> r.0 == s
    ensures r.1 == Generated ==> r.0.showAi
  {
    var selected := Selected(papers, s.log);
    if selected == [] then (s, NothingMarked)
    else
      match generate(OverviewPrompt(selected))
      case Answer(t) => (s.(aiOverview := t, showAi := true), Generated)
      case Failure => (s, GenerationFailed)
  }

  /** The collapse and expand buttons: flip whether the overview is shown. */
  function Toggle(s: State): (r: State)
    ensures r.showAi != s.showAi
    ensures r.log == s.log && r.aiOverview == s.aiOverview
  {
    s.(showAi := !s.showAi)
  }

  /** With no paper marked, the service is not consulted: whatever it would
      answer, the state stays as it is and the outcome is a warning. */
  lemma GenerateNothingMarked(s: State, papers: seq<Paper>, generate: string -> Reply, other: string -> Reply)
    requires Selected(papers, s.log) == []
    ensures Generate(s, papers, generate) == Generate(s, papers, other) == (s, NothingMarked)
  {
  }

  /** With papers marked, the stored overview is the service's answer to
      the prompt built from at most the first `MaxPapers` marked papers in
      collection order, and it is displayed when it is not empty. */
  lemma GenerateStoresAnswer(s: State, papers: seq<Paper>, generate: string -> Reply, t: string)
    requires Selected(papers, s.log) != []
    requires generate(OverviewPrompt(Selected(papers, s.log))) == Answer(Some(t))
    ensures Generate(s, papers, generate) == (State(s.log, Some(t), true), Generated)
    ensures t != "" ==> ViewOf(Generate(s, papers, generate).0) == Expanded(t)
  {
  }

  /** A failed request leaves the earlier overview and its visibility as they were. */
  lemma GenerateFailureKeepsState(s: State, papers: seq<Paper>, generate: string -> Reply)
    requires Selected(papers, s.log) != []
    requires generate(OverviewPrompt(Selected(papers, s.log))).Failure?
    ensures Generate(s, papers, generate) == (s, GenerationFailed)
    ensures ViewOf(Generate(s, papers, generate).0) == ViewOf(s)
  {
  }

  /** An answer without text still counts as generated: it replaces any
      earlier overview by none, so the overview area shows nothing. */
  lemma GenerateNoTextErases(s: State, papers: seq<Paper>, generate: string -> Reply)
    requires Selected(papers, s.log) != []
    requires generate(OverviewPrompt(Selected(papers, s.log))) == Answer(None)
    ensures Generate(s, papers, generate) == (State(s.log, None, true), Generated)
    ensures ViewOf(Generate(s, papers, generate).0) == NoOverview
  {
  }

  /** Only an answer without text takes a stored overview away: collapsing,
      expanding, checkbox events, warnings, failures and answers with text
      all leave an overview in place. */
  lemma OverviewPersists(s: State, papers: seq<Paper>, generate: string -> Reply, id: PaperId, relevant: bool)
    requires s.aiOverview.Some?
    ensures generate(OverviewPrompt(Selected(papers, s.log))) != Answer(None) ==>
              Generate(s, papers, generate).0.aiOverview.Some?
    ensures Toggle(s).aiOverview == s.aiOverview
    ensures s.(log := Step(s.log, id, relevant)).aiOverview == s.aiOverview
  {
  }

  /** Collapsing and expanding swap the two displays of an existing overview. */
  lemma ToggleSwapsView(s: State)
    ensures ViewOf(s).Expanded? ==> ViewOf(Toggle(s)) == Collapsed
    ensures ViewOf(s) == Collapsed ==> ViewOf(Toggle(s)) == Expanded(s.aiOverview.value)
    ensures ViewOf(s) == NoOverview ==> ViewOf(Toggle(s)) == NoOverview
  {
  }

  /** Toggling twice restores the state. */
  lemma ToggleTwice(s: State)
    ensures Toggle(Toggle(s)) == s
  {
  }

  /** The session object: its fields are updated in place by the event handlers. */
  class Session {
    var log: Log
    var aiOverview: Option<string>
    var showAi: bool

    /** The session's value. */
    function Current(): State
      reads this
    {
      State(log, aiOverview, showAi)
    }

    /** The log never holds an id twice. */
    ghost predicate Valid()
      reads this
    {
      NoDup(log)
    }

    /** A new session. */
    constructor ()
      ensures Valid() && Current() == Initial
    {
      log, aiOverview, showAi := [], None, false;
    }

    /** The checkbox of one shown paper. */
    method OnCheckbox(id: PaperId, relevant: bool)
      requires Valid()
      modifies this
      ensures Valid()
      ensures Current() == old(Current()).(log := Step(old(log), id, relevant))
    {
      StepKeepsNoDup(log, id, relevant);
      if relevant && id !in log {
        log := log + [id];
      } else if !relevant {
        log := Unmark(log, id);
      }
    }

    /** The loop over the shown papers: one checkbox event each, in order. */
    method RenderCheckboxes(shown: seq<Paper>, checked: set<PaperId>)
      requires Valid()
      modifies this
      ensures Valid()
      ensures Current() == old(Current()).(log := Sync(old(log), Ids(shown), checked))
    {
      ghost var ids := Ids(shown);
      var i := 0;
      while i < |shown|
        invariant 0 <= i <= |shown|
        invariant Valid()
        invariant aiOverview == old(aiOverview) && showAi == old(showAi)
        invariant Sync(log, ids[i..], checked) == Sync(old(log), ids, checked)
      {
        assert ids[i..][1..] == ids[i + 1..];
        OnCheckbox(shown[i].id, shown[i].id in checked);
        i := i + 1;
      }
    }

    /** The generate button. */
    method GenerateOverview(papers: seq<Paper>, generate: string -> Reply) returns (outcome: GenerateOutcome)
      requires Valid()
      modifies this
      ensures Valid()
      ensures (Current(), outcome) == Generate(old(Current()), papers, generate)
    {
      var selected := Selected(papers, log);
      if selected != [] {
        var reply := AiOverview(selected, generate);
        match reply
        case Answer(t) =>
          aiOverview, showAi := t, true;
          outcome := Generated;
        case Failure =>
          outcome := GenerationFailed;
      } else {
        outcome := NothingMarked;
      }
    }

    /** The collapse or expand button. */
    method ToggleAi()
      requires Valid()
      modifies this
      ensures Valid()
      ensures Current() == Toggle(old(Current()))
    {
      showAi := !showAi;
    }

    /** One run of the page: search, the checkbox pass, the generate button
        when it was pressed, and the download record, offered for download
        when it holds a paper. A failed generation stops the run before the
        record is built. */
    method Run(papers: seq<Paper>, query: string, checked: set<PaperId>, generateClicked: bool,
               generate: string -> Reply)
      returns (shown: seq<Paper>, outcome: Option<GenerateOutcome>, record: Option<Export>, offered: bool)
      requires Valid()
      modifies this
      ensures Valid()
      ensures shown == Results(papers, query)
      ensures log == Sync(old(log), Ids(shown), checked)
      ensures forall p :: p in shown ==> (p.id in log <==> p.id in checked)
      ensures !generateClicked ==> outcome == None && aiOverview == old(aiOverview) && showAi == old(showAi)
      ensures generateClicked ==>
                outcome.Some? && (Current(), outcome.value) == Generate(State(log, old(aiOverview), old(showAi)), papers, generate)
      ensures record == if outcome == Some(GenerationFailed) then None else Some(SaveRecord(papers, log, aiOverview))
      ensures offered <==> record.Some? && record.value.selectedPapers != []
    {
      shown := Search(papers, query);
      RenderCheckboxes(shown, checked);
      forall p | p in shown
        ensures p.id in log <==> p.id in checked
      {
        var i :| 0 <= i < |shown| && shown[i] == p;
        assert Ids(shown)[i] == p.id;
        SyncAgrees(old(log), Ids(shown), checked, p.id);
      }
      outcome := None;
      if generateClicked {
        var o := GenerateOverview(papers, generate);
        outcome := Some(o);
      }
      if outcome == Some(GenerationFailed) {
        record, offered := None, false;
      } else {
        var saved := SaveRecord(papers, log, aiOverview);
        record, offered := Some(saved), saved.selectedPapers != [];
      }
    }
  }
}
