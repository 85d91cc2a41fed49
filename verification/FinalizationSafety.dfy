/** What settling a verification leaves in the counters, and what every run keeps. */
module FinalizationSafety {
  import opened Options
  import FileRows
  import Sets
  import opened Finalization

  lemma CountsFit(ops: map<OpId, Op>, run: RunId)
    ensures |DoneOps(ops, run)| + |BrokenOps(ops, run)| <= |OpsOf(ops, run)|
    ensures |DoneOps(ops, run)| == |OpsOf(ops, run)| <==> forall o | o in OpsOf(ops, run) :: Done(ops[o])
    ensures |BrokenOps(ops, run)| == |OpsOf(ops, run)| <==> forall o | o in OpsOf(ops, run) :: Broken(ops[o])
    ensures |DoneOps(ops, run)| + |BrokenOps(ops, run)| == |OpsOf(ops, run)| <==> forall o | o in OpsOf(ops, run) :: Done(ops[o]) || Broken(ops[o])
    ensures |BrokenOps(ops, run)| == 0 <==> forall o | o in OpsOf(ops, run) :: !Broken(ops[o])
  {
    var all, done, broken := OpsOf(ops, run), DoneOps(ops, run), BrokenOps(ops, run);
    assert done !! broken;
    assert |done + broken| == |done| + |broken|;
    Sets.SubsetSize(done + broken, all);
    Sets.SubsetSize(done, all);
    Sets.SubsetSize(broken, all);
    if forall o | o in all :: Done(ops[o]) || Broken(ops[o]) { assert done + broken == all; }
    if |broken| == 0 {
      forall o | o in all ensures !Broken(ops[o]) { assert o !in broken; }
    } else {
      var o :| o in broken;
      assert o in all;
    }
    if forall o | o in all :: Done(ops[o]) { assert done == all; }
    if forall o | o in all :: Broken(ops[o]) { assert broken == all; }
  }

  lemma AffectedBySettled(ops: map<OpId, Op>, target: Target, verified: bool, run: RunId)
    ensures Affected(SettledOps(ops, target, verified), target, run) <==> Affected(ops, target, run)
  {
    var settled := SettledOps(ops, target, verified);
    if o :| o in ops && ops[o].finalization == Some(run) && Matched(ops[o], target) {
      assert settled[o].finalization == Some(run) && Matched(settled[o], target);
    }
    if o :| o in settled && settled[o].finalization == Some(run) && Matched(settled[o], target) {
      assert ops[o].finalization == Some(run) && Matched(ops[o], target);
    }
  }

  /** An affected finalization holds one operation with the new outcome. */
  lemma OutcomeCounted(ops: map<OpId, Op>, target: Target, verified: bool, run: RunId)
    requires Affected(ops, target, run)
    ensures var settled := SettledOps(ops, target, verified);
            && |OpsOf(settled, run)| > 0
            && (verified ==> |DoneOps(settled, run)| > 0)
            && (!verified ==> |BrokenOps(settled, run)| > 0)
  {
    var o :| o in ops && ops[o].finalization == Some(run) && Matched(ops[o], target);
    var settled := SettledOps(ops, target, verified);
    assert settled[o] == SettledOp(ops[o], verified);
    assert o in OpsOf(settled, run);
    if verified { assert o in DoneOps(settled, run); } else { assert o in BrokenOps(settled, run); }
  }

  /** The operation's file is one of the target's, or its bytes are at the target's location. */
  ghost predicate Concerns(op: Op, target: Target) {
    (op.file.Some? && op.file.value in target.files) || op.receipt == Some(target.location)
  }

  ghost predicate ConcernsRun(ops: map<OpId, Op>, target: Target, run: RunId) {
    exists o | o in ops :: ops[o].finalization == Some(run) && Concerns(ops[o], target)
  }

  ghost predicate Verified(op: Op) {
    op.status == Complete && op.verdict == Good
  }

  ghost predicate Broke(op: Op) {
    op.status == Failed || op.verdict == Bad
  }

  /** Settling gives exactly the operations it concerns the outcome, and changes nothing else of them. */
  lemma SettlesExactly(d: Desk, target: Target, verified: bool, error: Option<string>)
    ensures var t := Settle(d, target, verified, error);
            && t.now == d.now && t.ops.Keys == d.ops.Keys && t.finals.Keys == d.finals.Keys
            && forall o | o in d.ops ::
                 t.ops[o] == if !Concerns(d.ops[o], target) then d.ops[o]
                             else if verified then d.ops[o].(status := Complete, verdict := Good)
                             else d.ops[o].(status := Failed, verdict := Bad)
  {}

  /** The counts and the stage of a finalization are those of its operations. */
  ghost predicate IsRecount(f: Final, ops: map<OpId, Op>, run: RunId) {
    var mine := set o | o in ops && ops[o].finalization == Some(run);
    && f.completed == |set o | o in mine && Verified(ops[o])| && f.failed == |set o | o in mine && Broke(ops[o])|
    && f.completed + f.failed <= |mine| <= f.items
    && (f.ended ==> !f.stage.Running?)
    && (!f.stage.Running? && mine != {} ==>
          && (f.stage == AllComplete <==> f.items == |mine| && forall o | o in mine :: Verified(ops[o]))
          && (f.stage == AllFailed <==> f.items == |mine| && forall o | o in mine :: Broke(ops[o]))
          && (f.stage == Partial <==> f.stage != AllComplete && f.stage != AllFailed)
          && (f.ended <==> f.items == |mine| && forall o | o in mine :: Verified(ops[o]) || Broke(ops[o])))
    && (f.owner.Some? ==> f.stage.Running?)
  }

  lemma Recount(f: Final, ops: map<OpId, Op>, run: RunId)
    requires f.completed == |DoneOps(ops, run)| && f.failed == |BrokenOps(ops, run)| && |OpsOf(ops, run)| <= f.items
    requires f.owner.Some? ==> f.stage.Running?
    requires f.ended ==> !f.stage.Running?
    requires !f.stage.Running? && OpsOf(ops, run) != {} ==>
               && f.stage == (if f.completed == f.items then AllComplete else if f.failed == f.items then AllFailed else Partial)
               && f.ended == (f.completed + f.failed >= f.items)
    ensures IsRecount(f, ops, run)
  {
    var mine := set o | o in ops && ops[o].finalization == Some(run);
    assert mine == OpsOf(ops, run);
    assert (set o | o in mine && Verified(ops[o])) == DoneOps(ops, run);
    assert (set o | o in mine && Broke(ops[o])) == BrokenOps(ops, run);
    CountsFit(ops, run);
  }

  /**
   * After a settle step the counters of every affected finalization are a
   * recount, they never exceed the item count, and a finalization that is not
   * running is complete exactly when every item is an operation verified, and
   * failed exactly when every item is an operation failed.
   */
  lemma SettleIsRecount(d: Desk, target: Target, verified: bool, error: Option<string>, run: RunId)
    requires run in d.finals && ConcernsRun(d.ops, target, run)
    ensures var t := Settle(d, target, verified, error);
            var was, f, mine := d.finals[run], t.finals[run], set o | o in t.ops && t.ops[o].finalization == Some(run);
            && mine != {} && IsRecount(f, t.ops, run)
            && f.items == (if was.items < |mine| then |mine| else was.items)
            && (f.stage.Running? <==> was.stage.Running?)
            && (f.stage.Running? ==> f.owner == was.owner && f.expires == was.expires)
            && (f.stage == AllComplete ==> verified) && (f.stage == AllFailed ==> !verified)
            && f.key == was.key
            && f.error == (if f.failed == 0 then None
                           else if error.Some? then error
                           else if was.error.Some? then was.error
                           else Some("artifact_verification_failed"))
  {
    var ops := SettledOps(d.ops, target, verified);
    assert Affected(d.ops, target, run);
    AffectedBySettled(d.ops, target, verified, run);
    OutcomeCounted(d.ops, target, verified, run);
    CountsFit(ops, run);
    var t := Settle(d, target, verified, error);
    Recount(t.finals[run], t.ops, run);
    assert OpsOf(t.ops, run) == set o | o in t.ops && t.ops[o].finalization == Some(run);
  }

  /** Finalizations without an operation that is concerned keep their row and their journal. */
  lemma SettleSpares(d: Desk, target: Target, verified: bool, error: Option<string>, run: RunId)
    requires run in d.finals && !ConcernsRun(d.ops, target, run)
    ensures var t := Settle(d, target, verified, error);
            t.finals[run] == d.finals[run] && NotesOf(t.journal, run) == NotesOf(d.journal, run)
  {
    AffectedBySettled(d.ops, target, verified, run);
  }

  /** `after` is the journal with one more note at the next sequence number. */
  ghost predicate Extended(before: seq<Note>, after: seq<Note>, kind: NoteKind, key: string) {
    && |after| == |before| + 1 && after[..|before|] == before
    && after[|before|].kind == kind && after[|before|].key == key
    && (forall i | 0 <= i < |before| :: before[i].sequence < after[|before|].sequence)
    && (after[|before|].sequence == 1 || exists i | 0 <= i < |before| :: before[i].sequence + 1 == after[|before|].sequence)
  }

  lemma {:induction false} MaxSequenceBounds(notes: seq<Note>)
    ensures forall i | 0 <= i < |notes| :: notes[i].sequence <= MaxSequence(notes)
    ensures MaxSequence(notes) == 0 || exists i | 0 <= i < |notes| :: notes[i].sequence == MaxSequence(notes)
    decreases |notes|
  {
    if notes != [] {
      var n := |notes| - 1;
      MaxSequenceBounds(notes[..n]);
      if MaxSequence(notes) == notes[n].sequence {
        assert notes[n].sequence == MaxSequence(notes);
      } else {
        var i :| 0 <= i < n && notes[..n][i].sequence == MaxSequence(notes[..n]);
        assert notes[i].sequence == MaxSequence(notes);
      }
    }
  }

  lemma AnnounceExtends(notes: seq<Note>, kind: NoteKind, key: string)
    requires kind.OtherNote? || !Noted(notes, kind, key)
    ensures Extended(notes, Announce(notes, kind, key), kind, key)
  {
    MaxSequenceBounds(notes);
    if MaxSequence(notes) != 0 {
      var i :| 0 <= i < |notes| && notes[i].sequence == MaxSequence(notes);
      assert notes[i].sequence + 1 == Announce(notes, kind, key)[|notes|].sequence;
    }
  }

  /**
   * Settling adds the announcement of a finalization it completes or fails,
   * under its key and at the next sequence number, unless it is there
   * already; it adds nothing else.
   */
  lemma SettleAnnounces(d: Desk, target: Target, verified: bool, error: Option<string>, run: RunId)
    requires run in d.finals && ConcernsRun(d.ops, target, run)
    ensures var t, notes := Settle(d, target, verified, error), NotesOf(d.journal, run);
            var kind, key := if verified then EndComplete else ErrorNote, d.finals[run].key;
            if (t.finals[run].stage == AllComplete || t.finals[run].stage == AllFailed)
               && forall i | 0 <= i < |notes| :: notes[i].kind != kind || notes[i].key != key
            then Extended(notes, NotesOf(t.journal, run), kind, key)
            else NotesOf(t.journal, run) == notes
  {
    var notes := NotesOf(d.journal, run);
    var kind, key := if verified then EndComplete else ErrorNote, d.finals[run].key;
    SettleIsRecount(d, target, verified, error, run);
    AffectedBySettled(d.ops, target, verified, run);
    assert Affected(d.ops, target, run);
    if !Noted(notes, kind, key) {
      AnnounceExtends(notes, kind, key);
    }
  }

  // ----- every run -----

  ghost predicate FinalOk(f: Final) {
    && f.completed + f.failed <= f.items
    && (f.stage == AllComplete ==> f.completed == f.items && f.failed == 0)
  }

  /** Strictly increasing sequence numbers, and no announcement twice. */
  ghost predicate JournalOk(notes: seq<Note>) {
    && (forall i | 0 <= i < |notes| :: notes[i].sequence > 0)
    && (forall i, j | 0 <= i < j < |notes| :: notes[i].sequence < notes[j].sequence)
    && (forall i, j | 0 <= i < j < |notes| && !notes[i].kind.OtherNote? :: notes[i].kind != notes[j].kind || notes[i].key != notes[j].key)
  }

  ghost predicate DeskOk(d: Desk) {
    && (forall run | run in d.finals :: FinalOk(d.finals[run]))
    && (forall run | run in d.journal :: JournalOk(d.journal[run]))
  }

  lemma AnnounceKeeps(notes: seq<Note>, kind: NoteKind, key: string)
    requires JournalOk(notes)
    ensures JournalOk(Announce(notes, kind, key))
  {
    MaxSequenceBounds(notes);
    if !Noted(notes, kind, key) {
      forall i | 0 <= i < |notes| ensures notes[i].kind != kind || notes[i].key != key {}
    }
  }

  lemma SettleKeeps(d: Desk, target: Target, verified: bool, error: Option<string>)
    requires DeskOk(d)
    ensures DeskOk(Settle(d, target, verified, error))
  {
    var t := Settle(d, target, verified, error);
    forall run | run in t.finals ensures FinalOk(t.finals[run]) {
      if ConcernsRun(d.ops, target, run) {
        SettleIsRecount(d, target, verified, error, run);
        CountsFit(t.ops, run);
      } else {
        SettleSpares(d, target, verified, error, run);
      }
    }
    forall run | run in t.journal ensures JournalOk(t.journal[run]) {
      if run in d.finals {
        AnnounceKeeps(NotesOf(d.journal, run), if verified then EndComplete else ErrorNote, d.finals[run].key);
      }
    }
  }

  lemma FinishKeeps(f: Final, ops: map<OpId, Op>, run: RunId, complete: bool, items: nat)
    ensures FinalOk(Finished(f, ops, run, complete, items))
  {
    CountsFit(ops, run);
  }

  lemma StepKeeps(d: Desk, e: Event)
    requires DeskOk(d)
    ensures DeskOk(Step(d, e))
  {
    match e
    case Settled(target, verified, error) => SettleKeeps(d, target, verified, error);
    case Finish(run, owner, complete, items) =>
      if run in d.finals { FinishKeeps(d.finals[run], d.ops, run, complete, items); }
    case Append(run, kind, key) => AnnounceKeeps(NotesOf(d.journal, run), kind, key);
    case _ => PlainStepKeeps(d, e);
  }

  lemma PlainStepKeeps(d: Desk, e: Event)
    requires DeskOk(d) && !e.Settled? && !e.Finish? && !e.Append?
    ensures DeskOk(Step(d, e))
  {}

  lemma {:induction false} EveryRunKeeps(events: seq<Event>)
    ensures DeskOk(Run(events))
    decreases |events|
  {
    if events != [] {
      EveryRunKeeps(events[..|events| - 1]);
      StepKeeps(Run(events[..|events| - 1]), events[|events| - 1]);
    }
  }

  /** Each operation key has at most one complete end entry and one error entry, and sequence numbers only grow. */
  lemma AnnouncedOnce(events: seq<Event>, run: RunId, i: nat, j: nat)
    requires run in Run(events).journal
    requires i < |Run(events).journal[run]| && j < |Run(events).journal[run]|
    ensures var notes := Run(events).journal[run];
            && (i < j <==> notes[i].sequence < notes[j].sequence)
            && (!notes[i].kind.OtherNote? && notes[i].kind == notes[j].kind && notes[i].key == notes[j].key ==> i == j)
  {
    EveryRunKeeps(events);
    assert JournalOk(Run(events).journal[run]);
  }

  /** Only a running finalization is leased, so only its owner finishes or fails it. */
  ghost predicate Leased(f: Final) {
    f.owner.Some? ==> f.stage.Running? && f.expires.Some?
  }

  ghost predicate LeasesOk(d: Desk) {
    forall run | run in d.finals :: Leased(d.finals[run])
  }

  lemma StepKeepsLeases(d: Desk, e: Event)
    requires LeasesOk(d)
    ensures LeasesOk(Step(d, e))
  {}

  lemma {:induction false} EveryRunLeases(events: seq<Event>)
    ensures LeasesOk(Run(events))
    decreases |events|
  {
    if events != [] {
      EveryRunLeases(events[..|events| - 1]);
      StepKeepsLeases(Run(events[..|events| - 1]), events[|events| - 1]);
    }
  }

  /** While a lease runs nobody else begins, requeues, skips, finishes or fails the finalization; only settling its operations changes its row. */
  lemma LeaseExcludes(events: seq<Event>, run: RunId, e: Event, owner: Worker)
    requires run in Run(events).finals
    requires var f := Run(events).finals[run]; f.owner == Some(owner) && !Unleased(f, Run(events).now)
    requires e.Begin? || e.Finish? || e.FailFinal? ==> e.owner != owner
    requires !e.Settled?
    ensures Step(Run(events), e).finals[run] == Run(events).finals[run]
  {
    EveryRunLeases(events);
  }

  /**
   * A worker gets a finalization exactly when it is not over and no other
   * worker's lease on it runs; it holds it for 300 seconds then.
   */
  lemma BeginIff(d: Desk, run: RunId, owner: Worker)
    requires run in d.finals
    ensures var f, t := d.finals[run], Step(d, Begin(run, owner));
            if f.stage in {Waiting, AllFailed, Partial, Running} && (f.expires.None? || f.expires.value <= d.now || f.owner == Some(owner))
            then t == d.(finals := d.finals[run := f.(stage := Running, owner := Some(owner), expires := Some(d.now + 300), error := None)])
            else t == d
  {}

  /** A finalization whose worker crashed can be requeued once its lease is over, and then anybody gets it. */
  lemma ExpiredIsRequeued(d: Desk, run: RunId, owner: Worker)
    requires run in d.finals && d.finals[run].stage.Running? && d.finals[run].expires.Some?
    ensures var t := Step(d, Requeue(run));
            if d.now < d.finals[run].expires.value then t == d
            else t.finals[run].stage == Waiting && Step(t, Begin(run, owner)).finals[run].owner == Some(owner)
  {}

  /** Stored bytes are undecided, a link decides by its verdict, and a failed operation counts as failed; the other operations stay as they are. */
  lemma OperationCounts(d: Desk, o: OpId, receipt: FileRows.Location, file: FileRows.FileId, verdict: Verdict)
    requires o in d.ops
    ensures var t := Step(d, StoreOp(o, receipt));
            t == d.(ops := t.ops) && t.ops == d.ops[o := t.ops[o]] && t.ops[o].receipt == Some(receipt) && !Verified(t.ops[o]) && !Broke(t.ops[o])
    ensures var t := Step(d, LinkOp(o, file, verdict));
            && t == d.(ops := t.ops) && t.ops == d.ops[o := t.ops[o]] && t.ops[o].file == Some(file)
            && (Verified(t.ops[o]) <==> verdict == Good) && (Broke(t.ops[o]) <==> verdict == Bad)
    ensures var t := Step(d, FailOp(o));
            t == d.(ops := t.ops) && t.ops == d.ops[o := t.ops[o]] && Broke(t.ops[o]) && !Verified(t.ops[o])
  {}

  /** The worker that holds the lease ends a run as failed with its reason; nobody else can. */
  lemma FailIff(d: Desk, run: RunId, owner: Worker, reason: string)
    requires run in d.finals
    ensures var f, t := d.finals[run], Step(d, FailFinal(run, owner, reason));
            if f.owner == Some(owner)
            then t == d.(finals := d.finals[run := f.(stage := AllFailed, error := Some(reason), owner := None, expires := None)])
            else t == d
  {}

  /** Finishing by the worker that holds the lease ends the run with a recount; nobody else can finish it. */
  lemma FinishIsRecount(d: Desk, run: RunId, owner: Worker, complete: bool, items: nat)
    requires run in d.finals
    ensures var t := Step(d, Finish(run, owner, complete, items));
            if d.finals[run].owner != Some(owner) then t == d
            else
              var f, mine := t.finals[run], set o | o in d.ops && d.ops[o].finalization == Some(run);
              && t.ops == d.ops && IsRecount(f, d.ops, run) && !f.stage.Running? && f.owner == None && f.expires == None
              && f.items == (if items < |mine| then |mine| else items)
              && (f.items == 0 ==> f.ended && f.stage == (if complete then AllComplete else Partial))
  {
    var t := Step(d, Finish(run, owner, complete, items));
    if d.finals[run].owner == Some(owner) {
      assert OpsOf(d.ops, run) == set o | o in d.ops && d.ops[o].finalization == Some(run);
      Recount(t.finals[run], d.ops, run);
    }
  }

  // ----- settling a duplicate -----

  /**
   * Deduplication settles after the files were pointed at the winner, so an
   * operation of the duplicate is settled exactly when its storage receipt
   * names the duplicate's location; a link through the file is not enough.
   */
  lemma DuplicateSettlesIff(
    rows: FileRows.Rows, b: FileRows.BlobId, digest: FileRows.Digest, winner: FileRows.BlobId, d: Desk, o: OpId)
    requires b in rows.blobs && winner != b && o in d.ops
    ensures var t := Settle(d, TargetOf(FileRows.FinalizeAsDuplicate(rows, b, digest, winner), b), true, None);
            o in t.ops && t.ops[o] == if d.ops[o].receipt == Some(rows.blobs[b].location)
                                      then d.ops[o].(status := Complete, verdict := Good)
                                      else d.ops[o]
  {
    var target := TargetOf(FileRows.FinalizeAsDuplicate(rows, b, digest, winner), b);
    assert target.files == {};
    SettlesExactly(d, target, true, None);
  }

  /** A unique blob settles every operation of its files, and those stored at its location. */
  lemma VerifiedSettlesIff(rows: FileRows.Rows, b: FileRows.BlobId, digest: FileRows.Digest, d: Desk, o: OpId)
    requires b in rows.blobs && o in d.ops
    ensures var op, t := d.ops[o], Settle(d, TargetOf(FileRows.FinalizeAsVerified(rows, b, digest), b), true, None);
            o in t.ops && t.ops[o] == if || op.receipt == Some(rows.blobs[b].location)
                                         || (op.file.Some? && op.file.value in rows.files && rows.files[op.file.value].blob == Some(b))
                                      then op.(status := Complete, verdict := Good)
                                      else op
  {
    SettlesExactly(d, TargetOf(FileRows.FinalizeAsVerified(rows, b, digest), b), true, None);
  }

  /**
   * The failure path settles without looking at the blob's status: when
   * another delivery verified the blob meanwhile, the blob stays verified
   * while its operations fail and no finalization of theirs stays complete.
   */
  lemma LateFailureFlips(
    rows: FileRows.Rows, b: FileRows.BlobId, integrity: bool, d: Desk, o: OpId, run: RunId, error: Option<string>)
    requires b in rows.blobs && rows.blobs[b].status == FileRows.Verified
    requires o in d.ops && d.ops[o].finalization == Some(run) && run in d.finals && Concerns(d.ops[o], TargetOf(rows, b))
    ensures var after := FileRows.RecordFailure(rows, b, integrity);
            var t := Settle(d, TargetOf(after, b), false, error);
            && after.blobs[b] == rows.blobs[b]
            && t.ops[o].status == Failed && t.ops[o].verdict == Bad
            && (!d.finals[run].stage.Running? ==> t.finals[run].stage != AllComplete)
  {
    var after := FileRows.RecordFailure(rows, b, integrity);
    assert TargetOf(after, b).files == TargetOf(rows, b).files;
    SettleIsRecount(d, TargetOf(after, b), false, error, run);
  }
}
