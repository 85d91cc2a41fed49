/**
 * Context backfill runs: keyset pages whose cursor commits with the work,
 * deliveries of numbered generations in any order and any number, failures
 * recorded outside the transaction.
 */
module MaintenanceRuns {
  import opened Options

  type RowId = nat
  type Generation = nat

  datatype Phase = WorkspaceFiles | FileSources | TaskOutcomes | VerifyFileBlobs

  /** `nextBackfillPhase`. */
  function NextPhase(phase: Phase): Option<Phase> {
    match phase
    case WorkspaceFiles => Some(FileSources)
    case FileSources => Some(TaskOutcomes)
    case _ => None
  }

  function PhasesLeft(phase: Phase): nat {
    match phase case WorkspaceFiles => 3 case FileSources => 2 case _ => 1
  }

  datatype Status = Queued | Running | Completed | Failed | Cancelled

  datatype Cursor = Cursor(phase: Phase, last: Option<RowId>)

  datatype RunRow = RunRow(status: Status, cursor: Cursor, scanned: nat)

  /** The rows that qualify in each phase, in id order. */
  datatype Tables = Tables(workspaceFiles: seq<RowId>, fileSources: seq<RowId>, taskOutcomes: seq<RowId>, blobs: seq<RowId>)

  function RowsOf(tables: Tables, phase: Phase): seq<RowId> {
    match phase
    case WorkspaceFiles => tables.workspaceFiles
    case FileSources => tables.fileSources
    case TaskOutcomes => tables.taskOutcomes
    case VerifyFileBlobs => tables.blobs
  }

  /** The payload fields every generation of a run shares. */
  datatype Job = Job(tables: Tables, start: Phase, batchSize: nat)

  datatype Scan = Scan(phase: Phase, id: RowId)

  /** `log` is every row the committed batches scanned, `batches` how many committed. */
  datatype State = State(
    run: Option<RunRow>,
    enqueued: set<Generation>,
    committed: set<Generation>,
    log: seq<Scan>,
    batches: nat)

  datatype Event = Deliver(generation: Generation) | RecordFailure | Cancel

  const Initial := State(None, {0}, {}, [], 0)

  /** `id > lastId`. */
  function After(rows: seq<RowId>, last: Option<RowId>): seq<RowId> {
    if rows == [] then []
    else (if last.None? || rows[0] > last.value then [rows[0]] else []) + After(rows[1..], last)
  }

  function Page(rows: seq<RowId>, last: Option<RowId>, size: nat): seq<RowId> {
    var left := After(rows, last);
    if |left| <= size then left else left[..size]
  }

  function Tagged(phase: Phase, rows: seq<RowId>): seq<Scan> {
    seq(|rows|, i requires 0 <= i < |rows| => Scan(phase, rows[i]))
  }

  function Claimed(s: State, job: Job): RunRow {
    if s.run.Some? then s.run.value else RunRow(Queued, Cursor(job.start, None), 0)
  }

  predicate Ended(status: Status) {
    status == Completed || status == Cancelled
  }

  function Advanced(job: Job, run: RunRow): RunRow {
    var page := Page(RowsOf(job.tables, run.cursor.phase), run.cursor.last, job.batchSize);
    var exhausted := |page| < job.batchSize;
    var next := if exhausted then NextPhase(run.cursor.phase) else Some(run.cursor.phase);
    RunRow(if exhausted && next.None? then Completed else Running,
           Cursor(next.GetOr(run.cursor.phase),
                  if exhausted then None else if page == [] then run.cursor.last else Some(page[|page| - 1])),
           run.scanned + |page|)
  }

  /** One `backfill` transaction, or the failure record that follows a rolled-back one. */
  function Step(job: Job, s: State, e: Event): State {
    match e
    case Deliver(g) =>
      var run := Claimed(s, job);
      if g !in s.enqueued then s
      else if Ended(run.status) then s.(run := Some(run))
      else
        var after := Advanced(job, run);
        State(Some(after),
              if after.status == Completed then s.enqueued else s.enqueued + {g + 1},
              s.committed + {g},
              s.log + Tagged(run.cursor.phase, Page(RowsOf(job.tables, run.cursor.phase), run.cursor.last, job.batchSize)),
              s.batches + 1)
    case RecordFailure => if s.run.None? then s else s.(run := Some(s.run.value.(status := Failed)))
    case Cancel => if s.run.None? then s else s.(run := Some(s.run.value.(status := Cancelled)))
  }

  function Run(job: Job, events: seq<Event>): State {
    if events == [] then Initial else Step(job, Run(job, events[..|events| - 1]), events[|events| - 1])
  }

  // ----- one full scan -----

  function FullScan(tables: Tables, phase: Phase): seq<Scan>
    decreases PhasesLeft(phase)
  {
    Tagged(phase, RowsOf(tables, phase)) + LaterScan(tables, phase)
  }

  function LaterScan(tables: Tables, phase: Phase): seq<Scan>
    decreases PhasesLeft(phase), 0
  {
    match NextPhase(phase) case Some(next) => FullScan(tables, next) case None => []
  }

  function Remaining(job: Job, run: RunRow): seq<Scan> {
    if run.status == Completed then []
    else Tagged(run.cursor.phase, After(RowsOf(job.tables, run.cursor.phase), run.cursor.last)) + LaterScan(job.tables, run.cursor.phase)
  }

  /** How many pages a phase of `n` rows takes: the last one is short, possibly empty. */
  function Pages(n: nat, size: nat): nat
    requires size > 0
  {
    if n < size then 1 else 1 + Pages(n - size, size)
  }

  function PagesFrom(job: Job, phase: Phase): nat
    requires job.batchSize > 0
    decreases PhasesLeft(phase)
  {
    Pages(|RowsOf(job.tables, phase)|, job.batchSize) + PagesAfter(job, phase)
  }

  function PagesAfter(job: Job, phase: Phase): nat
    requires job.batchSize > 0
    decreases PhasesLeft(phase), 0
  {
    match NextPhase(phase) case Some(next) => PagesFrom(job, next) case None => 0
  }

  function PagesLeft(job: Job, run: RunRow): nat
    requires job.batchSize > 0
  {
    if run.status == Completed then 0
    else Pages(|After(RowsOf(job.tables, run.cursor.phase), run.cursor.last)|, job.batchSize) + PagesAfter(job, run.cursor.phase)
  }

  ghost predicate Ascending(rows: seq<RowId>) {
    forall i, j | 0 <= i < j < |rows| :: rows[i] < rows[j]
  }

  ghost predicate JobOk(job: Job) {
    job.batchSize > 0 && forall phase :: Ascending(RowsOf(job.tables, phase))
  }

  // ----- paging -----

  lemma {:induction false} AfterAll(rows: seq<RowId>, last: RowId)
    requires forall i | 0 <= i < |rows| :: rows[i] > last
    ensures After(rows, Some(last)) == rows
  {
    if rows != [] {
      AfterAll(rows[1..], last);
    }
  }

  lemma {:induction false} AfterNone(rows: seq<RowId>)
    ensures After(rows, None) == rows
  {
    if rows != [] {
      AfterNone(rows[1..]);
    }
  }

  lemma {:induction false} AfterIndex(rows: seq<RowId>, k: nat)
    requires Ascending(rows) && k < |rows|
    ensures After(rows, Some(rows[k])) == rows[k + 1..]
  {
    if k == 0 {
      AfterAll(rows[1..], rows[0]);
    } else {
      assert rows[1..][k - 1] == rows[k] && rows[1..][k..] == rows[k + 1..];
      AfterIndex(rows[1..], k - 1);
    }
  }

  predicate CursorIn(rows: seq<RowId>, last: Option<RowId>) {
    last.Some? ==> last.value in rows
  }

  /** The cursor splits the rows: what is after it is a suffix. */
  lemma AfterIsSuffix(rows: seq<RowId>, last: Option<RowId>) returns (n: nat)
    requires Ascending(rows) && CursorIn(rows, last)
    ensures n <= |rows| && After(rows, last) == rows[n..]
  {
    n := 0;
    if last.None? {
      AfterNone(rows);
    } else {
      var k :| 0 <= k < |rows| && rows[k] == last.value;
      AfterIndex(rows, k);
      n := k + 1;
    }
  }

  lemma SliceSplit(rows: seq<RowId>, n: nat, size: nat)
    requires n <= |rows| && 0 < size <= |rows| - n
    ensures rows[n..] == rows[n..n + size] + rows[n + size..]
    ensures rows[n..][..size] == rows[n..n + size] && rows[n..n + size][size - 1] == rows[n + size - 1]
  {}

  lemma PageIsSlice(rows: seq<RowId>, last: Option<RowId>, size: nat) returns (n: nat)
    requires Ascending(rows) && CursorIn(rows, last) && 0 < size <= |After(rows, last)|
    ensures n + size <= |rows| && After(rows, last) == rows[n..] && Page(rows, last, size) == rows[n..n + size]
  {
    n := AfterIsSuffix(rows, last);
    SliceSplit(rows, n, size);
    if |rows[n..]| == size { assert rows[n..][..size] == rows[n..]; }
  }

  /** A full page is the next slice of the rows, and its last id leaves exactly the rows behind it. */
  lemma PageThenRest(rows: seq<RowId>, last: Option<RowId>, size: nat) returns (n: nat)
    requires Ascending(rows) && CursorIn(rows, last) && 0 < size <= |After(rows, last)|
    ensures n + size <= |rows| && After(rows, last) == rows[n..] && Page(rows, last, size) == rows[n..n + size]
    ensures rows[n..n + size][size - 1] == rows[n + size - 1] && rows[n + size - 1] in rows
    ensures After(rows, Some(rows[n + size - 1])) == rows[n + size..]
  {
    n := PageIsSlice(rows, last, size);
    AfterIndex(rows, n + size - 1);
  }

  lemma TaggedConcat(phase: Phase, first: seq<RowId>, second: seq<RowId>)
    ensures Tagged(phase, first + second) == Tagged(phase, first) + Tagged(phase, second)
  {}

  // ----- every run -----

  ghost predicate RunOk(job: Job, s: State)
    requires job.batchSize > 0
  {
    match s.run
    case None => s.log == [] && s.batches == 0
    case Some(run) =>
      && CursorIn(RowsOf(job.tables, run.cursor.phase), run.cursor.last)
      && s.log + Remaining(job, run) == FullScan(job.tables, job.start)
      && s.batches + PagesLeft(job, run) == PagesFrom(job, job.start)
      && run.scanned == |s.log|
  }

  /** The newest generation, the only one that can be beyond every committed batch. */
  ghost predicate QueueOk(s: State, top: Generation) {
    && top in s.enqueued
    && (forall g | g in s.enqueued :: g <= top)
    && s.committed <= s.enqueued
    && ((s.run.Some? ==> s.run.value.status != Completed) ==> top !in s.committed)
  }

  /** Where a fresh cursor starts, everything of its phase and the later ones remains. */
  lemma FreshPhase(job: Job, run: RunRow)
    requires job.batchSize > 0 && run.status != Completed && run.cursor.last == None
    ensures Remaining(job, run) == FullScan(job.tables, run.cursor.phase)
    ensures PagesLeft(job, run) == PagesFrom(job, run.cursor.phase)
  {
    AfterNone(RowsOf(job.tables, run.cursor.phase));
  }

  /** One committed batch takes its page off what remains, and one page off the count. */
  ghost predicate AdvanceOk(job: Job, run: RunRow)
    requires job.batchSize > 0
  {
    var after := Advanced(job, run);
    var page := Page(RowsOf(job.tables, run.cursor.phase), run.cursor.last, job.batchSize);
    && Remaining(job, run) == Tagged(run.cursor.phase, page) + Remaining(job, after)
    && PagesLeft(job, run) == 1 + PagesLeft(job, after)
    && CursorIn(RowsOf(job.tables, after.cursor.phase), after.cursor.last)
  }

  lemma Shorter(job: Job, run: RunRow)
    requires JobOk(job) && !Ended(run.status) && CursorIn(RowsOf(job.tables, run.cursor.phase), run.cursor.last)
    requires |After(RowsOf(job.tables, run.cursor.phase), run.cursor.last)| < job.batchSize
    ensures AdvanceOk(job, run)
  {
    var after := Advanced(job, run);
    var page := Page(RowsOf(job.tables, run.cursor.phase), run.cursor.last, job.batchSize);
    assert page == After(RowsOf(job.tables, run.cursor.phase), run.cursor.last);
    if after.status == Completed {
      assert LaterScan(job.tables, run.cursor.phase) == [];
    } else {
      FreshPhase(job, after);
      assert LaterScan(job.tables, run.cursor.phase) == FullScan(job.tables, after.cursor.phase);
    }
  }

  /** A full page: the run stands behind its last id. */
  lemma FullNext(job: Job, run: RunRow) returns (n: nat)
    requires JobOk(job) && !Ended(run.status) && CursorIn(RowsOf(job.tables, run.cursor.phase), run.cursor.last)
    requires |After(RowsOf(job.tables, run.cursor.phase), run.cursor.last)| >= job.batchSize
    ensures var rows, size := RowsOf(job.tables, run.cursor.phase), job.batchSize;
            && n + size <= |rows| && After(rows, run.cursor.last) == rows[n..]
            && Page(rows, run.cursor.last, size) == rows[n..n + size]
            && After(rows, Some(rows[n + size - 1])) == rows[n + size..] && rows[n + size - 1] in rows
            && Advanced(job, run) == RunRow(Running, Cursor(run.cursor.phase, Some(rows[n + size - 1])), run.scanned + size)
  {
    n := PageThenRest(RowsOf(job.tables, run.cursor.phase), run.cursor.last, job.batchSize);
  }

  lemma Full(job: Job, run: RunRow)
    requires JobOk(job) && !Ended(run.status) && CursorIn(RowsOf(job.tables, run.cursor.phase), run.cursor.last)
    requires |After(RowsOf(job.tables, run.cursor.phase), run.cursor.last)| >= job.batchSize
    ensures AdvanceOk(job, run)
  {
    var n := FullNext(job, run);
    FullScanSplit(job, run.cursor.phase, RowsOf(job.tables, run.cursor.phase), n, job.batchSize);
  }

  lemma FullScanSplit(job: Job, phase: Phase, rows: seq<RowId>, n: nat, size: nat)
    requires 0 < size && n + size <= |rows|
    ensures Tagged(phase, rows[n..]) + LaterScan(job.tables, phase)
            == Tagged(phase, rows[n..n + size]) + (Tagged(phase, rows[n + size..]) + LaterScan(job.tables, phase))
  {
    SliceSplit(rows, n, size);
    TaggedConcat(phase, rows[n..n + size], rows[n + size..]);
  }

  lemma AdvanceKeeps(job: Job, run: RunRow)
    requires JobOk(job) && !Ended(run.status) && CursorIn(RowsOf(job.tables, run.cursor.phase), run.cursor.last)
    ensures AdvanceOk(job, run)
  {
    if |After(RowsOf(job.tables, run.cursor.phase), run.cursor.last)| < job.batchSize {
      Shorter(job, run);
    } else {
      Full(job, run);
    }
  }

  lemma ClaimKeeps(job: Job, s: State)
    requires JobOk(job) && RunOk(job, s)
    ensures RunOk(job, s.(run := Some(Claimed(s, job))))
  {
    if s.run.None? { FreshPhase(job, Claimed(s, job)); }
  }

  lemma DeliverKeeps(job: Job, s: State, g: Generation)
    requires JobOk(job) && RunOk(job, s)
    ensures RunOk(job, Step(job, s, Deliver(g)))
  {
    ClaimKeeps(job, s);
    var run := Claimed(s, job);
    if g in s.enqueued && !Ended(run.status) {
      AdvanceKeeps(job, run);
      var page := Tagged(run.cursor.phase, Page(RowsOf(job.tables, run.cursor.phase), run.cursor.last, job.batchSize));
      assert s.log + (page + Remaining(job, Advanced(job, run))) == (s.log + page) + Remaining(job, Advanced(job, run));
    }
  }

  predicate LateFailure(s: State, e: Event) {
    e == RecordFailure && s.run.Some? && s.run.value.status == Completed
  }

  predicate LateCancel(s: State, e: Event) {
    e == Cancel && s.run.Some? && s.run.value.status == Completed
  }

  /** No failure and no cancellation is recorded on a run that has completed. */
  ghost predicate Timely(job: Job, events: seq<Event>)
    decreases |events|
  {
    events != [] ==>
      var n := |events| - 1;
      var s := Run(job, events[..n]);
      Timely(job, events[..n]) && !LateFailure(s, events[n]) && !LateCancel(s, events[n])
  }

  lemma {:induction false} EveryRunScans(job: Job, events: seq<Event>)
    requires JobOk(job) && Timely(job, events)
    ensures RunOk(job, Run(job, events))
    decreases |events|
  {
    if events != [] {
      var n := |events| - 1;
      EveryRunScans(job, events[..n]);
      if events[n].Deliver? {
        DeliverKeeps(job, Run(job, events[..n]), events[n].generation);
      }
    }
  }

  lemma {:induction false} EveryRunQueues(job: Job, events: seq<Event>) returns (top: Generation)
    requires Timely(job, events)
    ensures QueueOk(Run(job, events), top)
    decreases |events|
  {
    if events == [] {
      top := 0;
    } else {
      var n := |events| - 1;
      var s := Run(job, events[..n]);
      var before := EveryRunQueues(job, events[..n]);
      top := QueueStep(job, s, events[n], before);
    }
  }

  lemma QueueStep(job: Job, s: State, e: Event, before: Generation) returns (top: Generation)
    requires QueueOk(s, before) && !LateFailure(s, e) && !LateCancel(s, e)
    ensures QueueOk(Step(job, s, e), top)
  {
    top := if before + 1 in Step(job, s, e).enqueued then before + 1 else before;
  }

  // ----- what a backfill promises -----

  /** From `at` on, the log is the rows of one phase in id order. */
  ghost predicate LogsPhase(log: seq<Scan>, at: nat, phase: Phase, rows: seq<RowId>) {
    at + |rows| <= |log| && forall i | 0 <= i < |rows| :: log[at + i] == Scan(phase, rows[i])
  }

  /** Workspace files, then file sources, then task outcomes, from the start on; or the blobs alone. */
  ghost predicate ScansFrom(log: seq<Scan>, tables: Tables, start: Phase) {
    var w, f, o, b := tables.workspaceFiles, tables.fileSources, tables.taskOutcomes, tables.blobs;
    match start
    case WorkspaceFiles =>
      && |log| == |w| + |f| + |o| && LogsPhase(log, 0, WorkspaceFiles, w)
      && LogsPhase(log, |w|, FileSources, f) && LogsPhase(log, |w| + |f|, TaskOutcomes, o)
    case FileSources => |log| == |f| + |o| && LogsPhase(log, 0, FileSources, f) && LogsPhase(log, |f|, TaskOutcomes, o)
    case TaskOutcomes => |log| == |o| && LogsPhase(log, 0, TaskOutcomes, o)
    case VerifyFileBlobs => |log| == |b| && LogsPhase(log, 0, VerifyFileBlobs, b)
  }

  /** The batches of every phase from the start on. */
  function BatchesFrom(tables: Tables, start: Phase, size: nat): nat
    requires size > 0
  {
    match start
    case WorkspaceFiles => BatchesOf(tables.workspaceFiles, size) + BatchesOf(tables.fileSources, size) + BatchesOf(tables.taskOutcomes, size)
    case FileSources => BatchesOf(tables.fileSources, size) + BatchesOf(tables.taskOutcomes, size)
    case TaskOutcomes => BatchesOf(tables.taskOutcomes, size)
    case VerifyFileBlobs => BatchesOf(tables.blobs, size)
  }

  /** The full pages of a phase and the short one behind them, which may be empty. */
  function BatchesOf(rows: seq<RowId>, size: nat): nat
    requires size > 0
  {
    |rows| / size + 1
  }

  lemma FullScanIs(tables: Tables, start: Phase)
    ensures ScansFrom(FullScan(tables, start), tables, start)
  {
    assert FullScan(tables, TaskOutcomes) == Tagged(TaskOutcomes, tables.taskOutcomes);
    assert FullScan(tables, FileSources) == Tagged(FileSources, tables.fileSources) + FullScan(tables, TaskOutcomes);
    assert FullScan(tables, WorkspaceFiles) == Tagged(WorkspaceFiles, tables.workspaceFiles) + FullScan(tables, FileSources);
  }

  lemma QuotientIs(n: nat, size: nat, q: nat, r: nat)
    requires size > 0 && r < size && n == q * size + r
    ensures n / size == q
  {
    var k, s := n / size, n % size;
    SameQuotient(size, k, s, q, r);
  }

  lemma SameQuotient(size: nat, k: nat, s: nat, q: nat, r: nat)
    requires r < size && s < size && k * size + s == q * size + r
    ensures k == q
  {
    var d: int := q - k;
    assert d * size == s - r;
    Multiple(d, size);
  }

  lemma Multiple(d: int, size: nat)
    ensures d >= 1 ==> d * size >= size
    ensures d <= -1 ==> d * size <= 0 - size
  {
    if d >= 1 { assert (d - 1) * size >= 0; }
    if d <= -1 { assert (0 - 1 - d) * size >= 0; }
  }

  lemma {:induction false} PagesAre(n: nat, size: nat)
    requires size > 0
    ensures Pages(n, size) == n / size + 1
  {
    if n >= size {
      PagesAre(n - size, size);
      QuotientIs(n, size, (n - size) / size + 1, (n - size) % size);
    }
  }

  lemma PagesFromAre(job: Job)
    requires job.batchSize > 0
    ensures PagesFrom(job, job.start) == BatchesFrom(job.tables, job.start, job.batchSize)
  {
    PagesAre(|job.tables.workspaceFiles|, job.batchSize);
    PagesAre(|job.tables.fileSources|, job.batchSize);
    PagesAre(|job.tables.taskOutcomes|, job.batchSize);
    PagesAre(|job.tables.blobs|, job.batchSize);
    assert PagesFrom(job, TaskOutcomes) == BatchesOf(job.tables.taskOutcomes, job.batchSize);
    assert PagesFrom(job, FileSources) == BatchesOf(job.tables.fileSources, job.batchSize) + PagesFrom(job, TaskOutcomes);
  }

  /**
   * Under duplicated, repeated and reordered deliveries of any generation the
   * committed batches scan a prefix of one full scan: the rows of the start
   * phase and of each phase behind it, each row once and in id order. A
   * completed run has scanned all of it, in a fixed number of batches.
   */
  lemma BackfillIsOneScan(job: Job, events: seq<Event>) returns (whole: seq<Scan>)
    requires JobOk(job) && Timely(job, events)
    ensures ScansFrom(whole, job.tables, job.start)
    ensures var s := Run(job, events);
            && s.log <= whole && s.batches <= BatchesFrom(job.tables, job.start, job.batchSize)
            && (s.run.Some? ==> s.run.value.scanned == |s.log|)
            && (s.run.Some? && s.run.value.status == Completed ==>
                  s.log == whole && s.batches == BatchesFrom(job.tables, job.start, job.batchSize))
  {
    EveryRunScans(job, events);
    FullScanIs(job.tables, job.start);
    PagesFromAre(job);
    whole := FullScan(job.tables, job.start);
  }

  /** A run that is not completed always has a generation queued whose batch has not committed. */
  lemma BackfillIsNeverLost(job: Job, events: seq<Event>) returns (g: Generation)
    requires Timely(job, events)
    ensures var s := Run(job, events);
            (s.run.Some? ==> s.run.value.status != Completed) ==> g in s.enqueued && g !in s.committed
  {
    g := EveryRunQueues(job, events);
  }

  /** Delivering that generation commits one more batch unless the run has ended. */
  lemma OneDelivery(job: Job, events: seq<Event>) returns (g: Generation)
    requires JobOk(job) && Timely(job, events)
    requires Run(job, events).run.Some? ==> !Ended(Run(job, events).run.value.status)
    ensures var next := events + [Deliver(g)];
            && Timely(job, next) && Run(job, next).run.Some? && Run(job, next).run.value.status in {Running, Completed}
            && Run(job, events).batches < Run(job, next).batches <= PagesFrom(job, job.start)
  {
    g := EveryRunQueues(job, events);
    var next := events + [Deliver(g)];
    assert next[..|events|] == events;
    EveryRunScans(job, next);
  }

  /** So deliveries alone lead to completion. */
  lemma {:induction false} BackfillCompletes(job: Job, events: seq<Event>) returns (more: seq<Event>)
    requires JobOk(job) && Timely(job, events)
    requires Run(job, events).run.Some? ==> !Ended(Run(job, events).run.value.status)
    ensures Timely(job, events + more)
    ensures forall i | 0 <= i < |more| :: more[i].Deliver?
    ensures Run(job, events + more).run.Some? && Run(job, events + more).run.value.status == Completed
    decreases PagesFrom(job, job.start) - Run(job, events).batches
  {
    var g := OneDelivery(job, events);
    var next := events + [Deliver(g)];
    more := [Deliver(g)];
    if Run(job, next).run.value.status != Completed {
      var rest := BackfillCompletes(job, next);
      assert next + rest == events + (more + rest);
      more := more + rest;
    }
  }

  // ----- failures recorded late -----

  function LastRows(job: Job): seq<RowId> {
    if job.start == VerifyFileBlobs then job.tables.blobs else job.tables.taskOutcomes
  }

  /** A failure recorded on a completed run leaves the cursor at the start of the last phase: the next delivery scans it again exactly when it has rows. */
  lemma LateFailureRescansIff(job: Job, events: seq<Event>, g: Generation)
    requires JobOk(job) && Timely(job, events)
    requires var s := Run(job, events);
             g in s.enqueued && s.run.Some? && s.run.value.status == Completed
    ensures var s := Run(job, events);
            var t := Step(job, Step(job, s, RecordFailure), Deliver(g));
            && s.log <= t.log && t.batches == s.batches + 1
            && |t.log| - |s.log| == (if |LastRows(job)| < job.batchSize then |LastRows(job)| else job.batchSize)
  {
    CompletedCursor(job, events);
    AfterNone(LastRows(job));
  }

  /** Blob runs stay with the blobs, and a completed run stands at the beginning of its last phase. */
  lemma {:induction false} CompletedCursor(job: Job, events: seq<Event>)
    requires Timely(job, events) && Run(job, events).run.Some?
    ensures var cursor := Run(job, events).run.value.cursor;
            && (cursor.phase == VerifyFileBlobs <==> job.start == VerifyFileBlobs)
            && (Run(job, events).run.value.status == Completed ==>
                  cursor.last == None && RowsOf(job.tables, cursor.phase) == LastRows(job))
    decreases |events|
  {
    if Run(job, events[..|events| - 1]).run.Some? {
      CompletedCursor(job, events[..|events| - 1]);
    }
  }

  /** Cancellation does not hold: a failure recorded afterwards lets the next delivery scan on. */
  lemma CancelledIsNotAbsorbing(job: Job, s: State, g: Generation)
    requires JobOk(job) && g in s.enqueued && s.run.Some? && s.run.value.status == Cancelled
    ensures Step(job, s, Deliver(g)) == s
    ensures var t := Step(job, Step(job, s, RecordFailure), Deliver(g)); t.batches == s.batches + 1 && t.run.value.status != Cancelled
  {}
}
