/** The relevance log: the list of paper ids marked relevant, updated by
    the checkbox of every paper the search shows. */
module Relevance {
  import opened Sequences
  import opened Bibliography

  /** The session's `log`; each entry is reduced to its `paper_id`. */
  type Log = seq<PaperId>

  /** The log with every entry for `id` filtered out, the others in order. */
  function Unmark(log: Log, id: PaperId): (r: Log)
    ensures forall y :: y in r <==> y in log && y != id
    ensures NoDup(log) ==> NoDup(r)
  {
    if log == [] then []
    else
      assert forall y :: y in log <==> y == log[0] || y in log[1..];
      var rest := Unmark(log[1..], id);
      if log[0] == id then rest
      else
        assert NoDup(log) ==> NoDup([log[0]] + rest) by {
          if NoDup(log) {
            assert log[0] !in log[1..];
            NoDupCons(log[0], rest);
          }
        }
        [log[0]] + rest
  }

  /** One checkbox event for a shown paper: a checked box appends the id
      unless an entry for it exists; an unchecked box removes its entries. */
  function Step(log: Log, id: PaperId, relevant: bool): (r: Log)
    ensures id in r <==> relevant
    ensures forall y :: y != id ==> (y in r <==> y in log)
  {
    if relevant && id !in log then log + [id]
    else if !relevant then Unmark(log, id)
    else log
  }

  /** The checkbox pass: every shown paper's event, in the order shown. */
  function Sync(log: Log, ids: seq<PaperId>, checked: set<PaperId>): Log
    decreases |ids|
  {
    if ids == [] then log else Sync(Step(log, ids[0], ids[0] in checked), ids[1..], checked)
  }

  /** The entries of `log` whose id lies in `ids`, in log order. */
  function Keep(log: Log, ids: set<PaperId>): (r: Log)
    ensures forall y :: y in r <==> y in log && y in ids
  {
    if log == [] then []
    else
      assert forall y :: y in log <==> y == log[0] || y in log[1..];
      (if log[0] in ids then [log[0]] else []) + Keep(log[1..], ids)
  }

  lemma {:induction false} KeepAppend(a: Log, b: Log, ids: set<PaperId>)
    ensures Keep(a + b, ids) == Keep(a, ids) + Keep(b, ids)
  {
    if a == [] {
      assert a + b == b;
    } else {
      assert (a + b)[1..] == a[1..] + b;
      KeepAppend(a[1..], b, ids);
    }
  }

  /** A checked box leaves exactly one entry for the id: the log is
      unchanged when the id is present, and gains it at the end otherwise. */
  lemma CheckLeavesOne(log: Log, id: PaperId)
    requires NoDup(log)
    ensures multiset(Step(log, id, true))[id] == 1
    ensures id in log ==> Step(log, id, true) == log
    ensures id !in log ==> Step(log, id, true) == log + [id]
    ensures NoDup(Step(log, id, true))
  {
    var r := Step(log, id, true);
    assert NoDup(r);
    NoDupCount(r, id);
  }

  /** Checking an already checked paper again changes nothing. */
  lemma CheckIdempotent(log: Log, id: PaperId)
    ensures Step(Step(log, id, true), id, true) == Step(log, id, true)
  {
  }

  /** An unchecked box removes every entry for the id and keeps every other
      entry, as often as it occurred and in its order. */
  lemma {:induction false} UncheckRemovesAll(log: Log, id: PaperId)
    ensures id !in Step(log, id, false)
    ensures forall y :: y != id ==> multiset(Step(log, id, false))[y] == multiset(log)[y]
    ensures IsSubsequence(Step(log, id, false), log)
  {
    if log != [] {
      UncheckRemovesAll(log[1..], id);
      assert log == [log[0]] + log[1..];
      var rest := Unmark(log[1..], id);
      if log[0] == id {
        assert Unmark(log, id) == rest;
        assert rest == [] || rest[0] != log[0];
      } else {
        assert Unmark(log, id) == [log[0]] + rest;
        assert ([log[0]] + rest)[1..] == rest;
      }
    }
  }

  /** Unchecking a paper that has no entry changes nothing. */
  lemma {:induction false} UncheckAbsent(log: Log, id: PaperId)
    requires id !in log
    ensures Step(log, id, false) == log
  {
    if log != [] {
      UncheckAbsent(log[1..], id);
      assert log == [log[0]] + log[1..];
    }
  }

  lemma {:induction false} UnmarkAppend(a: Log, b: Log, id: PaperId)
    ensures Unmark(a + b, id) == Unmark(a, id) + Unmark(b, id)
  {
    if a == [] {
      assert a + b == b;
    } else {
      assert (a + b)[1..] == a[1..] + b;
      UnmarkAppend(a[1..], b, id);
    }
  }

  /** Checking and then unchecking a paper that had no entry restores the log. */
  lemma CheckThenUncheck(log: Log, id: PaperId)
    requires id !in log
    ensures Step(Step(log, id, true), id, false) == log
  {
    UnmarkAppend(log, [id], id);
    UncheckAbsent(log, id);
    assert Unmark([id], id) == [];
  }

  /** Every event keeps the log free of duplicate ids. */
  lemma StepKeepsNoDup(log: Log, id: PaperId, relevant: bool)
    requires NoDup(log)
    ensures NoDup(Step(log, id, relevant))
  {
  }

  /** The checkbox pass keeps the log free of duplicate ids. */
  lemma {:induction false} SyncKeepsNoDup(log: Log, ids: seq<PaperId>, checked: set<PaperId>)
    requires NoDup(log)
    ensures NoDup(Sync(log, ids, checked))
    decreases |ids|
  {
    if ids != [] {
      StepKeepsNoDup(log, ids[0], ids[0] in checked);
      SyncKeepsNoDup(Step(log, ids[0], ids[0] in checked), ids[1..], checked);
    }
  }

  /** An event for one id leaves the entries of every other id alone, in order. */
  lemma {:induction false} StepLeavesOthers(log: Log, id: PaperId, relevant: bool, others: set<PaperId>)
    requires id !in others
    ensures Keep(Step(log, id, relevant), others) == Keep(log, others)
  {
    if relevant && id !in log {
      KeepAppend(log, [id], others);
    } else if !relevant && log != [] {
      StepLeavesOthers(log[1..], id, relevant, others);
      assert log == [log[0]] + log[1..];
      KeepAppend([log[0]], log[1..], others);
      UnmarkAppend([log[0]], log[1..], id);
      KeepAppend(Unmark([log[0]], id), Unmark(log[1..], id), others);
    }
  }

  /** Papers that are not shown keep their marks: for any set of ids none
      of which is shown, the log's entries with those ids are unchanged, in order. */
  lemma {:induction false} SyncLeavesOthers(log: Log, ids: seq<PaperId>, checked: set<PaperId>, others: set<PaperId>)
    requires forall i :: 0 <= i < |ids| ==> ids[i] !in others
    ensures Keep(Sync(log, ids, checked), others) == Keep(log, others)
    decreases |ids|
  {
    if ids != [] {
      StepLeavesOthers(log, ids[0], ids[0] in checked, others);
      SyncLeavesOthers(Step(log, ids[0], ids[0] in checked), ids[1..], checked, others);
    }
  }

  /** A paper that is not shown is marked after the pass exactly when it was before. */
  lemma SyncKeepsUnshownMark(log: Log, ids: seq<PaperId>, checked: set<PaperId>, id: PaperId)
    requires id !in ids
    ensures id in Sync(log, ids, checked) <==> id in log
  {
    SyncLeavesOthers(log, ids, checked, {id});
    assert id in Keep(log, {id}) <==> id in log;
  }

  /** After the pass, every shown paper is marked exactly when its box is checked. */
  lemma {:induction false} SyncAgrees(log: Log, ids: seq<PaperId>, checked: set<PaperId>, id: PaperId)
    requires id in ids
    ensures id in Sync(log, ids, checked) <==> id in checked
    decreases |ids|
  {
    var next := Step(log, ids[0], ids[0] in checked);
    if id in ids[1..] {
      SyncAgrees(next, ids[1..], checked, id);
    } else {
      assert id == ids[0];
      SyncKeepsUnshownMark(next, ids[1..], checked, id);
    }
  }
}
