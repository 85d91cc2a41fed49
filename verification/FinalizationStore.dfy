/** The three statements of `settleArtifactVerification`, row by row. */
module FinalizationStore {
  import opened Options
  import opened Finalization
  import Sets

  class FinalizationTables {
    var now: nat
    var ops: map<OpId, Op>
    var finals: map<RunId, Final>
    var journal: map<RunId, seq<Note>>

    function Contents(): Desk
      reads this
    {
      Desk(now, ops, finals, journal)
    }

    method UpdateOperations(target: Target, verified: bool)
      modifies this`ops
      ensures ops == SettledOps(old(ops), target, verified)
    {
      var left := ops.Keys;
      while left != {}
        invariant left <= ops.Keys == old(ops.Keys)
        invariant forall o | o in ops ::
                    ops[o] == if o !in left && Matched(old(ops)[o], target) then SettledOp(old(ops)[o], verified) else old(ops)[o]
        decreases |left|
      {
        var o :| o in left;
        if Matched(ops[o], target) { ops := ops[o := SettledOp(ops[o], verified)]; }
        left := left - {o};
      }
    }

    method Count(run: RunId) returns (all: nat, done: nat, broken: nat)
      ensures all == |OpsOf(ops, run)| && done == |DoneOps(ops, run)| && broken == |BrokenOps(ops, run)|
    {
      all, done, broken := 0, 0, 0;
      ghost var mine, complete, bad := OpsOf(ops, run), DoneOps(ops, run), BrokenOps(ops, run);
      ghost var seen: set<OpId> := {};
      var left := ops.Keys;
      while left != {}
        invariant seen !! left && seen + left == ops.Keys
        invariant all == |seen * mine| && done == |seen * complete| && broken == |seen * bad|
        decreases |left|
      {
        var o :| o in left;
        Sets.OneMoreSeen(seen, o, mine);
        Sets.OneMoreSeen(seen, o, complete);
        Sets.OneMoreSeen(seen, o, bad);
        var here := ops[o].finalization == Some(run);
        all := all + (if here then 1 else 0);
        done := done + (if here && Done(ops[o]) then 1 else 0);
        broken := broken + (if here && Broken(ops[o]) then 1 else 0);
        seen := seen + {o};
        left := left - {o};
      }
      assert seen == ops.Keys;
      assert seen * mine == mine && seen * complete == complete && seen * bad == bad;
    }

    method UpdateFinalizations(affected: set<RunId>, error: Option<string>)
      requires affected <= finals.Keys
      modifies this`finals
      ensures finals == SettledFinals(old(finals), affected, ops, error)
    {
      var before := finals;
      var left := affected;
      while left != {}
        invariant left <= affected <= finals.Keys == before.Keys
        invariant forall run | run in finals ::
                    finals[run] == if run in affected && run !in left then Recounted(before[run], ops, run, error) else before[run]
        decreases |left|
      {
        var run :| run in left;
        var all, done, broken := Count(run);
        finals := finals[run := Counted(before[run], all, done, broken, error)];
        left := left - {run};
      }
    }

    method NextSequence(notes: seq<Note>) returns (next: nat)
      ensures next == MaxSequence(notes) + 1
    {
      var most := 0;
      for i := 0 to |notes|
        invariant most == MaxSequence(notes[..i])
      {
        assert notes[..i + 1][..i] == notes[..i];
        if notes[i].sequence > most { most := notes[i].sequence; }
      }
      assert notes[..|notes|] == notes;
      next := most + 1;
    }

    method AnnounceRun(affected: set<RunId>, verified: bool, run: RunId, notes: seq<Note>) returns (after: seq<Note>)
      ensures after == AnnouncedFor(finals, affected, verified, run, notes)
    {
      after := notes;
      var kind := if verified then EndComplete else ErrorNote;
      if run in affected && run in finals && finals[run].stage == (if verified then AllComplete else AllFailed) {
        if !Noted(notes, kind, finals[run].key) {
          var next := NextSequence(notes);
          after := notes + [Note(next, kind, finals[run].key)];
        }
      }
    }

    method InsertAnnouncements(affected: set<RunId>, verified: bool)
      modifies this`journal
      ensures journal == Announced(old(Contents()), affected, verified)
    {
      var before := journal;
      var left := journal.Keys + finals.Keys;
      journal := map run | run in left :: NotesOf(before, run);
      while left != {}
        invariant left <= journal.Keys == before.Keys + finals.Keys
        invariant forall run | run in journal ::
                    journal[run] == if run in left then NotesOf(before, run)
                                    else AnnouncedFor(finals, affected, verified, run, NotesOf(before, run))
        decreases |left|
      {
        var run :| run in left;
        var after := AnnounceRun(affected, verified, run, journal[run]);
        journal := journal[run := after];
        left := left - {run};
      }
    }

    method SettleArtifactVerification(target: Target, verified: bool, error: Option<string>)
      modifies this
      ensures Contents() == Settle(old(Contents()), target, verified, error)
    {
      UpdateOperations(target, verified);
      var affected := AffectedRuns(finals, ops, target);
      UpdateFinalizations(affected, error);
      InsertAnnouncements(affected, verified);
    }
  }
}
