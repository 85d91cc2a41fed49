/** The cleanup half of the maintenance runner, statement by statement. */
module CleanupRunner {
  import opened Options
  import opened CleanupRuns
  import FileRows
  import OrphanFiles

  class CleanupTables {
    const batchSize: nat
    var store: Store
    var run: Option<RunRow>
    var enqueued: set<Generation>
    ghost var committed: set<Generation>
    ghost var batches: nat

    constructor (store: Store, batchSize: nat)
      ensures this.batchSize == batchSize && Model() == Start(store)
    {
      this.batchSize := batchSize;
      this.store := store;
      run := None;
      enqueued := {0};
      committed := {};
      batches := 0;
    }

    ghost function Model(): State
      reads this
    {
      State(run, enqueued, committed, store, batches)
    }

    /** The deletion of a plain phase: expired rows of its own, as many as the batch takes, and nothing else. */
    method RemoveExpired(phase: Phase) returns (scanned: nat)
      requires !phase.Orphans? && OrphanFiles.Linked(store.rows)
      modifies this`store
      ensures IsBatch(old(store), phase, batchSize, store, scanned)
      ensures scanned == if |old(Waiting(store, phase))| < batchSize then |old(Waiting(store, phase))| else batchSize
      ensures Waiting(store, phase) <= old(Waiting(store, phase)) && |Waiting(store, phase)| == |old(Waiting(store, phase))| - scanned
    {
      scanned := 0;
      var left := Waiting(store, phase);
      while left != {} && scanned < batchSize
        invariant left <= Waiting(store, phase) && |left| + scanned == |Waiting(store, phase)| && scanned <= batchSize
        decreases |left|
      {
        var id :| id in left;
        left := left - {id};
        scanned := scanned + 1;
      }
      store := store.(expired := store.expired[phase := left]);
    }

    /** The `orphan_files` phase is one orphan collection. */
    method CollectOrphans() returns (scanned: nat, ghost mid: FileRows.Rows, ghost batch: seq<FileRows.FileId>)
      requires OrphanFiles.Linked(store.rows)
      modifies this`store
      ensures IsBatch(old(store), Orphans, batchSize, store, scanned)
      ensures OrphanFiles.IsCollection(old(store.rows), mid, batchSize, batch)
      ensures store.rows == OrphanFiles.CollectAll(mid, batch) && scanned == |batch|
    {
      var rows, changed, exhausted;
      rows, mid, batch, scanned, changed, exhausted := OrphanFiles.CleanupOrphanFiles(store.rows, batchSize);
      OrphanFiles.BatchProgress(store.rows, mid, batchSize, batch);
      store := store.(rows := rows);
    }

    method CleanupPhase(phase: Phase) returns (scanned: nat)
      requires OrphanFiles.Linked(store.rows)
      modifies this`store
      ensures IsBatch(old(store), phase, batchSize, store, scanned)
    {
      if phase.Orphans? {
        ghost var mid, batch;
        scanned, mid, batch := CollectOrphans();
      } else {
        scanned := RemoveExpired(phase);
      }
    }

    /** The progress record and the next generation of one batch. */
    method RecordProgress(generation: Generation, claimed: RunRow, scanned: nat)
      modifies this`run, this`enqueued, this`committed, this`batches
      ensures var advanced := Advanced(claimed, batchSize, scanned);
              Model() == State(Some(advanced),
                               if advanced.status == Completed then old(enqueued) else old(enqueued) + {generation + 1},
                               old(committed) + {generation}, store, old(batches) + 1)
    {
      var next := if scanned < batchSize then CleanupRuns.NextPhase(claimed.phase) else Some(claimed.phase);
      run := Some(RunRow(if next.None? then Completed else Running, next.GetOr(claimed.phase), claimed.scanned + scanned));
      if next.Some? { enqueued := enqueued + {generation + 1}; }
      committed := committed + {generation};
      batches := batches + 1;
    }

    /** `cleanup` for one delivered generation: claim, batch, next phase and next generation commit together. */
    method Cleanup(generation: Generation) returns (ghost e: Event)
      requires generation in enqueued && OrphanFiles.Linked(store.rows)
      modifies this
      ensures e.Deliver? && e.generation == generation && Enabled(batchSize, old(Model()), e)
      ensures Model() == Step(batchSize, old(Model()), e)
    {
      ghost var before := Model();
      var claimed := if run.Some? then run.value else RunRow(Queued, ExpiredMemory, 0);
      if Ended(claimed.status) {
        e := Deliver(generation, store, 0);
        run := Some(claimed);
      } else {
        var scanned := CleanupPhase(claimed.phase);
        e := Deliver(generation, store, scanned);
        assert Enabled(batchSize, before, e);
        RecordProgress(generation, claimed, scanned);
      }
    }

    /** Delivering each next generation completes the run: the chain of phases ends with every phase clean. */
    method CleanupUntilDone(ghost initial: Store) returns (ghost events: seq<Event>)
      requires batchSize > 0 && OrphanFiles.Linked(initial.rows) && Model() == Start(initial)
      modifies this
      ensures Model() == CleanupRuns.Run(batchSize, initial, events) && forall i | 0 <= i < |events| :: events[i].Deliver?
      ensures run.Some? && run.value.status == Completed && forall phase :: Clean(store, phase)
    {
      events := [];
      var generation := 0;
      while run.None? || run.value.status != Completed
        invariant InProgress(batchSize, initial, events, Model(), generation)
        decreases LeftOf(Model().store, Claimed(Model()))
      {
        ghost var was := Model();
        StaysLinked(batchSize, initial, events);
        ghost var e := Cleanup(generation);
        DeliveryAdvances(batchSize, initial, events, was, e, Model());
        events := events + [e];
        generation := generation + 1;
      }
      forall phase ensures Clean(store, phase) { CompletedIsClean(batchSize, initial, events, phase); }
    }
  }
}
