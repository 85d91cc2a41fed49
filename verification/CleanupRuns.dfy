/**
 * Retention cleanup runs: a chain of phases, one batch a delivery, with the
 * same generations, failures and cancellations as the backfill. Each plain
 * phase removes expired rows of its own; `orphan_files` collects files.
 */
module CleanupRuns {
  import opened Options
  import FileRows
  import OrphanFiles

  type Generation = nat

  datatype Phase =
    | ExpiredMemory | TurnEvents | OperationalEvents | RetrievalSnapshots | VisionObservations
    | KnowledgeTombstones | OrphanReservations | Orphans | RuntimeOutbox

  /** `nextCleanupPhase`. */
  function NextPhase(phase: Phase): Option<Phase> {
    match phase
    case ExpiredMemory => Some(TurnEvents)
    case TurnEvents => Some(OperationalEvents)
    case OperationalEvents => Some(RetrievalSnapshots)
    case RetrievalSnapshots => Some(VisionObservations)
    case VisionObservations => Some(KnowledgeTombstones)
    case KnowledgeTombstones => Some(OrphanReservations)
    case OrphanReservations => Some(Orphans)
    case Orphans => Some(RuntimeOutbox)
    case RuntimeOutbox => None
  }

  /** How many phases follow. */
  function Rank(phase: Phase): nat {
    match phase
    case ExpiredMemory => 8
    case TurnEvents => 7
    case OperationalEvents => 6
    case RetrievalSnapshots => 5
    case VisionObservations => 4
    case KnowledgeTombstones => 3
    case OrphanReservations => 2
    case Orphans => 1
    case RuntimeOutbox => 0
  }

  /** The expired rows of the plain phases, and the file rows. */
  datatype Store = Store(expired: map<Phase, set<nat>>, rows: FileRows.Rows)

  function Waiting(store: Store, phase: Phase): set<nat> {
    if phase in store.expired then store.expired[phase] else {}
  }

  ghost predicate Clean(store: Store, phase: Phase) {
    if phase.Orphans? then OrphanFiles.Collected(store.rows) else Waiting(store, phase) == {}
  }

  function Load(store: Store, phase: Phase): nat {
    if phase.Orphans? then OrphanFiles.Work(store.rows) else |Waiting(store, phase)|
  }

  /**
   * One batch of a phase, of at most `size` rows: it changes nothing of the
   * other phases, scanning anything lowers the load, and a short batch leaves
   * the phase clean.
   */
  ghost predicate IsBatch(store: Store, phase: Phase, size: nat, after: Store, scanned: nat) {
    && scanned <= size && OrphanFiles.Linked(after.rows)
    && (if phase.Orphans? then after.expired == store.expired
        else after.rows == store.rows && after.expired == store.expired[phase := Waiting(after, phase)])
    && (scanned > 0 ==> Load(after, phase) < Load(store, phase))
    && (scanned < size ==> Clean(after, phase))
  }

  datatype Status = Queued | Running | Completed | Failed | Cancelled

  datatype RunRow = RunRow(status: Status, phase: Phase, scanned: nat)

  datatype State = State(run: Option<RunRow>, enqueued: set<Generation>, committed: set<Generation>, store: Store, batches: nat)

  /** A delivery carries what its batch did to the store. */
  datatype Event = Deliver(generation: Generation, after: Store, scanned: nat) | RecordFailure | Cancel

  function Start(store: Store): State {
    State(None, {0}, {}, store, 0)
  }

  predicate Ended(status: Status) {
    status == Completed || status == Cancelled
  }

  function Claimed(s: State): RunRow {
    if s.run.Some? then s.run.value else RunRow(Queued, ExpiredMemory, 0)
  }

  function Advanced(run: RunRow, size: nat, scanned: nat): RunRow {
    var next := if scanned < size then NextPhase(run.phase) else Some(run.phase);
    RunRow(if next.None? then Completed else Running, next.GetOr(run.phase), run.scanned + scanned)
  }

  ghost predicate Enabled(size: nat, s: State, e: Event) {
    match e
    case Deliver(g, after, scanned) =>
      g in s.enqueued && (!Ended(Claimed(s).status) ==> IsBatch(s.store, Claimed(s).phase, size, after, scanned))
    case _ => s.run.Some?
  }

  /** One `cleanup` transaction, or the failure record that follows a rolled-back one. */
  function Next(size: nat, s: State, e: Event): State {
    match e
    case Deliver(g, after, scanned) =>
      var run := Claimed(s);
      if Ended(run.status) then s.(run := Some(run))
      else
        var advanced := Advanced(run, size, scanned);
        State(Some(advanced), if advanced.status == Completed then s.enqueued else s.enqueued + {g + 1},
              s.committed + {g}, after, s.batches + 1)
    case RecordFailure => s.(run := Some(Claimed(s).(status := Failed)))
    case Cancel => s.(run := Some(Claimed(s).(status := Cancelled)))
  }

  ghost function Step(size: nat, s: State, e: Event): State {
    if Enabled(size, s, e) then Next(size, s, e) else s
  }

  ghost function Run(size: nat, store: Store, events: seq<Event>): State {
    if events == [] then Start(store) else Step(size, Run(size, store, events[..|events| - 1]), events[|events| - 1])
  }

  lemma RunAppend(size: nat, store: Store, events: seq<Event>, e: Event)
    ensures Run(size, store, events + [e]) == Step(size, Run(size, store, events), e)
  {
    assert (events + [e])[..|events|] == events;
  }

  // ----- one batch -----

  /** Batches still to come at most: one for every waiting row and one to leave each phase. */
  function Left(store: Store, phase: Phase): nat
    decreases Rank(phase)
  {
    Load(store, phase) + 1 + (match NextPhase(phase) case Some(next) => Left(store, next) case None => 0)
  }

  function LeftOf(store: Store, run: RunRow): nat {
    if run.status == Completed then 0 else Left(store, run.phase)
  }

  lemma {:induction false} LeftSame(store: Store, after: Store, phase: Phase)
    requires forall p | Rank(p) <= Rank(phase) :: Load(after, p) == Load(store, p)
    ensures Left(after, phase) == Left(store, phase)
    decreases Rank(phase)
  {
    if NextPhase(phase).Some? { LeftSame(store, after, NextPhase(phase).value); }
  }

  lemma BatchLowersLeft(store: Store, run: RunRow, size: nat, after: Store, scanned: nat)
    requires size > 0 && IsBatch(store, run.phase, size, after, scanned)
    requires run.status != Completed
    ensures LeftOf(after, Advanced(run, size, scanned)) < LeftOf(store, run)
  {
    var phase := run.phase;
    if NextPhase(phase).Some? {
      var next := NextPhase(phase).value;
      forall p | Rank(p) <= Rank(next) ensures Load(after, p) == Load(store, p) {
        assert p != phase;
      }
      LeftSame(store, after, next);
    }
  }

  // ----- every run -----

  /** Every phase already left is clean. */
  ghost predicate LeftClean(store: Store, run: RunRow) {
    && OrphanFiles.Linked(store.rows)
    && (run.status == Completed ==> run.phase == RuntimeOutbox)
    && forall p | Rank(p) > Rank(run.phase) || (run.status == Completed && p == run.phase) :: Clean(store, p)
  }

  ghost predicate PastClean(s: State) {
    LeftClean(s.store, Claimed(s))
  }

  lemma BatchKeepsClean(store: Store, run: RunRow, size: nat, after: Store, scanned: nat)
    requires LeftClean(store, run) && run.status != Completed && IsBatch(store, run.phase, size, after, scanned)
    ensures LeftClean(after, Advanced(run, size, scanned))
  {
    forall p | Rank(p) > Rank(run.phase) ensures Clean(after, p) {
      assert p != run.phase;
    }
  }

  lemma DeliveryIsBatch(size: nat, s: State, e: Event)
    requires Enabled(size, s, e) && e.Deliver? && !Ended(Claimed(s).status)
    ensures IsBatch(s.store, Claimed(s).phase, size, e.after, e.scanned)
    ensures var t := Step(size, s, e);
            && t.run == Some(Advanced(Claimed(s), size, e.scanned)) && t.store == e.after && t.batches == s.batches + 1
            && (t.run.value.status != Completed ==> e.generation + 1 in t.enqueued)
  {}

  /** A delivery on a run that has not ended lowers what is left. */
  lemma DeliveryProgress(size: nat, s: State, e: Event, t: State)
    requires size > 0 && PastClean(s) && Enabled(size, s, e) && e.Deliver? && !Ended(Claimed(s).status) && t == Step(size, s, e)
    ensures PastClean(t) && t.run == Some(Advanced(Claimed(s), size, e.scanned)) && t.batches == s.batches + 1
    ensures LeftOf(t.store, t.run.value) < LeftOf(s.store, Claimed(s))
    ensures t.run.value.status != Completed ==> e.generation + 1 in t.enqueued
  {
    DeliveryIsBatch(size, s, e);
    BatchLowersLeft(s.store, Claimed(s), size, e.after, e.scanned);
    BatchKeepsClean(s.store, Claimed(s), size, e.after, e.scanned);
  }

  lemma {:induction false} EveryRunCleans(size: nat, store: Store, events: seq<Event>)
    requires size > 0 && OrphanFiles.Linked(store.rows)
    ensures PastClean(Run(size, store, events))
    decreases |events|
  {
    if events != [] {
      var n := |events| - 1;
      EveryRunCleans(size, store, events[..n]);
    }
  }

  lemma StaysLinked(size: nat, store: Store, events: seq<Event>)
    requires size > 0 && OrphanFiles.Linked(store.rows)
    ensures OrphanFiles.Linked(Run(size, store, events).store.rows)
  {
    EveryRunCleans(size, store, events);
  }

  /** A run brought to `s` by deliveries alone, and the generation to deliver next. */
  ghost predicate InProgress(size: nat, initial: Store, events: seq<Event>, s: State, generation: Generation) {
    && size > 0 && OrphanFiles.Linked(initial.rows) && s == Run(size, initial, events)
    && (forall i | 0 <= i < |events| :: events[i].Deliver?)
    && !Claimed(s).status.Cancelled?
    && (Claimed(s).status != Completed ==> generation in s.enqueued)
  }

  lemma DeliveryAdvances(size: nat, initial: Store, events: seq<Event>, s: State, e: Event, t: State)
    requires e.Deliver? && InProgress(size, initial, events, s, e.generation) && Claimed(s).status != Completed
    requires Enabled(size, s, e) && t == Step(size, s, e)
    ensures InProgress(size, initial, events + [e], t, e.generation + 1)
    ensures t.run.Some? && LeftOf(t.store, t.run.value) < LeftOf(s.store, Claimed(s))
  {
    EveryRunCleans(size, initial, events);
    RunAppend(size, initial, events, e);
    DeliveryProgress(size, s, e, t);
  }

  /** With no other writers, a completed run has left nothing behind in any phase, whatever failed or was delivered twice. */
  lemma CompletedIsClean(size: nat, store: Store, events: seq<Event>, phase: Phase)
    requires size > 0 && OrphanFiles.Linked(store.rows)
    requires var s := Run(size, store, events); s.run.Some? && s.run.value.status == Completed
    ensures Clean(Run(size, store, events).store, phase)
  {
    EveryRunCleans(size, store, events);
  }

  /** A failure or a cancellation recorded on a run that has completed. */
  predicate Late(s: State, e: Event) {
    !e.Deliver? && s.run.Some? && s.run.value.status == Completed
  }

  ghost predicate Timely(size: nat, store: Store, events: seq<Event>)
    decreases |events|
  {
    events != [] ==>
      var n := |events| - 1;
      Timely(size, store, events[..n]) && !Late(Run(size, store, events[..n]), events[n])
  }

  ghost predicate Counted(s: State, total: nat) {
    s.batches + LeftOf(s.store, Claimed(s)) <= total
  }

  ghost predicate QueueOk(s: State, top: Generation) {
    && top in s.enqueued && (forall g | g in s.enqueued :: g <= top) && s.committed <= s.enqueued
    && (Claimed(s).status != Completed ==> top !in s.committed)
  }

  /** Unless a failure is recorded late, the committed batches are at most the rows to remove plus one per phase. */
  lemma {:induction false} BatchesAreBounded(size: nat, store: Store, events: seq<Event>)
    requires size > 0 && OrphanFiles.Linked(store.rows) && Timely(size, store, events)
    ensures Counted(Run(size, store, events), Left(store, ExpiredMemory))
    decreases |events|
  {
    if events != [] {
      var n := |events| - 1;
      BatchesAreBounded(size, store, events[..n]);
      EveryRunCleans(size, store, events[..n]);
      var s, e := Run(size, store, events[..n]), events[n];
      if Enabled(size, s, e) && e.Deliver? && !Ended(Claimed(s).status) { DeliveryProgress(size, s, e, Step(size, s, e)); }
    }
  }

  lemma StepKeepsQueue(size: nat, s: State, e: Event, before: Generation) returns (top: Generation)
    requires QueueOk(s, before) && !Late(s, e)
    ensures QueueOk(Step(size, s, e), top)
  {
    top := if before + 1 in Step(size, s, e).enqueued then before + 1 else before;
  }

  /** A run that is not completed always has a generation queued whose batch has not committed. */
  lemma {:induction false} CleanupIsNeverLost(size: nat, store: Store, events: seq<Event>) returns (top: Generation)
    requires Timely(size, store, events)
    ensures QueueOk(Run(size, store, events), top)
    decreases |events|
  {
    if events == [] {
      top := 0;
    } else {
      var n := |events| - 1;
      var before := CleanupIsNeverLost(size, store, events[..n]);
      top := StepKeepsQueue(size, Run(size, store, events[..n]), events[n], before);
    }
  }
}
