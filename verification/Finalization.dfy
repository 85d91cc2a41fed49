/**
 * Turn finalizations: artifact operations, the counters and status recomputed
 * from them whenever a blob's verification settles, and the journal entries
 * that announce the result.
 */
module Finalization {
  import opened Options
  import opened Numbers
  import FileRows

  type OpId = nat
  type RunId = nat
  type Worker = nat

  datatype OpStatus = Pending | Staged | Complete | Failed

  datatype Verdict = Unknown | Good | Bad

  datatype Op = Op(
    finalization: Option<RunId>,
    file: Option<FileRows.FileId>,
    receipt: Option<FileRows.Location>,
    status: OpStatus,
    verdict: Verdict)

  datatype Stage = Waiting | Running | AllComplete | Partial | AllFailed | Skipped

  /** The finalization of one run; there is at most one per run. */
  datatype Final = Final(
    key: string,
    stage: Stage,
    items: nat,
    completed: nat,
    failed: nat,
    error: Option<string>,
    ended: bool,
    owner: Option<Worker>,
    expires: Option<nat>)

  datatype NoteKind = EndComplete | EndOther(stage: Stage) | ErrorNote | OtherNote

  datatype Note = Note(sequence: nat, kind: NoteKind, key: string)

  datatype Desk = Desk(now: nat, ops: map<OpId, Op>, finals: map<RunId, Final>, journal: map<RunId, seq<Note>>)

  /** What a settled blob stands for: the files linked to it now, and where its bytes are. */
  datatype Target = Target(files: set<FileRows.FileId>, location: FileRows.Location)

  function TargetOf(rows: FileRows.Rows, b: FileRows.BlobId): Target
    requires b in rows.blobs
  {
    Target((set f | f in rows.files && rows.files[f].blob == Some(b)), rows.blobs[b].location)
  }

  predicate Matched(op: Op, target: Target) {
    || (op.file.Some? && op.file.value in target.files)
    || op.receipt == Some(target.location)
  }

  // ----- operations -----

  function SettledOp(op: Op, verified: bool): Op {
    op.(status := if verified then Complete else Failed, verdict := if verified then Good else Bad)
  }

  function SettledOps(ops: map<OpId, Op>, target: Target, verified: bool): map<OpId, Op> {
    map o | o in ops :: if Matched(ops[o], target) then SettledOp(ops[o], verified) else ops[o]
  }

  function OpsOf(ops: map<OpId, Op>, run: RunId): set<OpId> {
    set o | o in ops && ops[o].finalization == Some(run)
  }

  predicate Done(op: Op) {
    op.status == Complete && op.verdict == Good
  }

  predicate Broken(op: Op) {
    op.status == Failed || op.verdict == Bad
  }

  function DoneOps(ops: map<OpId, Op>, run: RunId): set<OpId> {
    set o | o in ops && ops[o].finalization == Some(run) && Done(ops[o])
  }

  function BrokenOps(ops: map<OpId, Op>, run: RunId): set<OpId> {
    set o | o in ops && ops[o].finalization == Some(run) && Broken(ops[o])
  }

  predicate Affected(ops: map<OpId, Op>, target: Target, run: RunId) {
    exists o | o in ops :: ops[o].finalization == Some(run) && Matched(ops[o], target)
  }

  // ----- counters -----

  function Counted(f: Final, all: nat, done: nat, broken: nat, error: Option<string>): Final {
    var items := Max(f.items, all);
    f.(items := items, completed := done, failed := broken,
       stage := if f.stage.Running? then Running
                else if done == items then AllComplete
                else if broken == items then AllFailed
                else Partial,
       error := if broken == 0 then None
                else if error.Some? then error
                else Some(f.error.GetOr("artifact_verification_failed")),
       ended := !f.stage.Running? && done + broken >= items,
       owner := if f.stage.Running? then f.owner else None,
       expires := if f.stage.Running? then f.expires else None)
  }

  function Recounted(f: Final, ops: map<OpId, Op>, run: RunId, error: Option<string>): Final {
    Counted(f, |OpsOf(ops, run)|, |DoneOps(ops, run)|, |BrokenOps(ops, run)|, error)
  }

  /** The runs of the `affected` subquery. */
  function AffectedRuns(finals: map<RunId, Final>, ops: map<OpId, Op>, target: Target): set<RunId> {
    set run | run in finals && Affected(ops, target, run)
  }

  function SettledFinals(finals: map<RunId, Final>, affected: set<RunId>, ops: map<OpId, Op>, error: Option<string>): map<RunId, Final> {
    map run | run in finals :: if run in affected then Recounted(finals[run], ops, run, error) else finals[run]
  }

  // ----- journal -----

  function MaxSequence(notes: seq<Note>): nat {
    if notes == [] then 0 else Max(MaxSequence(notes[..|notes| - 1]), notes[|notes| - 1].sequence)
  }

  predicate Noted(notes: seq<Note>, kind: NoteKind, key: string) {
    exists i | 0 <= i < |notes| :: notes[i].kind == kind && notes[i].key == key
  }

  /** Appends at the next sequence number, a finalization announcement only if it is not there yet. */
  function Announce(notes: seq<Note>, kind: NoteKind, key: string): seq<Note> {
    if !kind.OtherNote? && Noted(notes, kind, key) then notes else notes + [Note(MaxSequence(notes) + 1, kind, key)]
  }

  function NotesOf(journal: map<RunId, seq<Note>>, run: RunId): seq<Note> {
    if run in journal then journal[run] else []
  }

  /** One run's journal after the announcement statement. */
  function AnnouncedFor(finals: map<RunId, Final>, affected: set<RunId>, verified: bool, run: RunId, notes: seq<Note>): seq<Note> {
    if run in affected && run in finals && finals[run].stage == (if verified then AllComplete else AllFailed)
    then Announce(notes, if verified then EndComplete else ErrorNote, finals[run].key)
    else notes
  }

  function Announced(desk: Desk, affected: set<RunId>, verified: bool): map<RunId, seq<Note>> {
    map run | run in desk.journal.Keys + desk.finals.Keys ::
      AnnouncedFor(desk.finals, affected, verified, run, NotesOf(desk.journal, run))
  }

  /** `settleArtifactVerification`: operations, then counters, then announcements. */
  function Settle(desk: Desk, target: Target, verified: bool, error: Option<string>): Desk {
    var ops := SettledOps(desk.ops, target, verified);
    var affected := AffectedRuns(desk.finals, ops, target);
    var counted := Desk(desk.now, ops, SettledFinals(desk.finals, affected, ops, error), desk.journal);
    counted.(journal := Announced(counted, affected, verified))
  }

  // ----- everything else that touches these tables -----

  datatype Event =
    | Settled(target: Target, verified: bool, error: Option<string>)
    | Tick
    | Create(run: RunId, key: string)
    | StartOp(op: OpId, run: RunId)
    | StoreOp(op: OpId, receipt: FileRows.Location)
    | LinkOp(op: OpId, file: FileRows.FileId, verdict: Verdict)
    | FailOp(op: OpId)
    | Begin(run: RunId, owner: Worker)
    | Requeue(run: RunId)
    | Finish(run: RunId, owner: Worker, complete: bool, items: nat)
    | FailFinal(run: RunId, owner: Worker, reason: string)
    | Skip(run: RunId)
    | Append(run: RunId, kind: NoteKind, key: string)
    | Prune(run: RunId, count: nat)

  function LinkedOp(op: Op, file: FileRows.FileId, verdict: Verdict): Op {
    op.(file := Some(file), verdict := verdict,
        status := match verdict case Good => Complete case Bad => Failed case Unknown => Staged)
  }

  function Finished(f: Final, ops: map<OpId, Op>, run: RunId, complete: bool, items: nat): Final {
    var all := Max(items, |OpsOf(ops, run)|);
    var done, broken := |DoneOps(ops, run)|, |BrokenOps(ops, run)|;
    f.(items := all, completed := done, failed := broken, owner := None, expires := None,
       stage := if all == 0 then (if complete then AllComplete else Partial)
                else if done == all then AllComplete
                else if broken == all then AllFailed
                else Partial,
       ended := all == 0 || done + broken >= all)
  }

  predicate Restartable(stage: Stage) {
    stage in {Waiting, AllFailed, Partial, Running}
  }

  const LEASE_SECONDS := 300

  predicate Unleased(f: Final, now: nat) {
    f.expires.None? || f.expires.value <= now
  }

  /** One transaction. */
  function Step(d: Desk, e: Event): Desk {
    match e
    case Tick => d.(now := d.now + 1)
    case Settled(target, verified, error) => Settle(d, target, verified, error)
    case Create(run, key) =>
      if run in d.finals then d else d.(finals := d.finals[run := Final(key, Waiting, 0, 0, 0, None, false, None, None)])
    case StartOp(op, run) =>
      if run in d.finals then d.(ops := d.ops[op := Op(Some(run), None, None, Pending, Unknown)]) else d
    case StoreOp(op, receipt) =>
      if op in d.ops then d.(ops := d.ops[op := d.ops[op].(status := Staged, receipt := Some(receipt), verdict := Unknown)]) else d
    case LinkOp(op, file, verdict) =>
      if op in d.ops then d.(ops := d.ops[op := LinkedOp(d.ops[op], file, verdict)]) else d
    case FailOp(op) =>
      if op in d.ops then d.(ops := d.ops[op := d.ops[op].(status := Failed, verdict := Bad)]) else d
    case Begin(run, owner) =>
      if run in d.finals && Restartable(d.finals[run].stage) && (Unleased(d.finals[run], d.now) || d.finals[run].owner == Some(owner))
      then d.(finals := d.finals[run := d.finals[run].(stage := Running, owner := Some(owner), expires := Some(d.now + LEASE_SECONDS), error := None)])
      else d
    case Requeue(run) =>
      if run in d.finals && d.finals[run].stage.Running? && d.finals[run].expires.Some? && Unleased(d.finals[run], d.now)
      then d.(finals := d.finals[run := d.finals[run].(stage := Waiting, owner := None, expires := None)])
      else d
    case Finish(run, owner, complete, items) =>
      if run in d.finals && d.finals[run].owner == Some(owner)
      then d.(finals := d.finals[run := Finished(d.finals[run], d.ops, run, complete, items)])
      else d
    case FailFinal(run, owner, reason) =>
      if run in d.finals && d.finals[run].owner == Some(owner)
      then d.(finals := d.finals[run := d.finals[run].(stage := AllFailed, error := Some(reason), owner := None, expires := None)])
      else d
    case Skip(run) =>
      if run in d.finals && Restartable(d.finals[run].stage) && (d.finals[run].stage != Running || Unleased(d.finals[run], d.now))
      then d.(finals := d.finals[run := d.finals[run].(stage := Skipped, items := 0, completed := 0, failed := 0, ended := true,
                                                       owner := None, expires := None)])
      else d
    case Append(run, kind, key) =>
      d.(journal := d.journal[run := Announce(NotesOf(d.journal, run), kind, key)])
    case Prune(run, count) =>
      if run in d.journal && count <= |d.journal[run]| then d.(journal := d.journal[run := d.journal[run][count..]]) else d
  }

  function Run(events: seq<Event>): Desk {
    if events == [] then Desk(0, map[], map[], map[]) else Step(Run(events[..|events| - 1]), events[|events| - 1])
  }
}
