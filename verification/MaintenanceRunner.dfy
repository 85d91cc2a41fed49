/** The maintenance runner itself: one backfill transaction, statement by statement. */
module MaintenanceRunner {
  import opened Options
  import opened MaintenanceRuns

  class MaintenanceTables {
    const job: Job
    var run: Option<RunRow>
    var enqueued: set<Generation>
    ghost var committed: set<Generation>
    ghost var log: seq<Scan>
    ghost var batches: nat

    constructor (job: Job)
      ensures this.job == job && Contents() == Initial
    {
      this.job := job;
      run := None;
      enqueued := {0};
      committed := {};
      log := [];
      batches := 0;
    }

    ghost function Contents(): State
      reads this
    {
      State(run, enqueued, committed, log, batches)
    }

    /** The paged query: rows past the cursor, in id order, at most `size` of them. */
    method SelectPage(rows: seq<RowId>, last: Option<RowId>, size: nat) returns (page: seq<RowId>)
      ensures page == Page(rows, last, size)
    {
      page := [];
      for i := 0 to |rows|
        invariant page == Page(rows[..i], last, size)
      {
        AfterOneMore(rows, last, i);
        if |page| < size && (last.None? || rows[i] > last.value) { page := page + [rows[i]]; }
      }
      assert rows[..|rows|] == rows;
    }

    /** Inserts the run if it is new, and marks it running unless it has ended. */
    method Claim() returns (claimed: RunRow)
      modifies this`run
      ensures claimed == Claimed(old(Contents()), job)
      ensures run == Some(if Ended(claimed.status) then claimed else claimed.(status := Running))
    {
      if run.None? { run := Some(RunRow(Queued, Cursor(job.start, None), 0)); }
      claimed := run.value;
      if !Ended(claimed.status) { run := Some(claimed.(status := Running)); }
    }

    /** `backfill` for one delivered generation. */
    method Backfill(generation: Generation)
      requires generation in enqueued
      modifies this
      ensures Contents() == Step(job, old(Contents()), Deliver(generation))
    {
      var claimed := Claim();
      if Ended(claimed.status) { return; }
      var cursor := claimed.cursor;
      var page := SelectPage(RowsOf(job.tables, cursor.phase), cursor.last, job.batchSize);
      var exhausted := |page| < job.batchSize;
      var nextPhase := if exhausted then NextPhase(cursor.phase) else Some(cursor.phase);
      var completed := exhausted && nextPhase.None?;
      var lastId := if page == [] then cursor.last else Some(page[|page| - 1]);
      run := Some(RunRow(if completed then Completed else Running,
                         Cursor(nextPhase.GetOr(cursor.phase), if exhausted then None else lastId),
                         claimed.scanned + |page|));
      if !completed { enqueued := enqueued + {generation + 1}; }
      committed := committed + {generation};
      log := log + Tagged(cursor.phase, page);
      batches := batches + 1;
    }
  }

  function IfAfter(row: RowId, last: Option<RowId>): seq<RowId> {
    if last.None? || row > last.value then [row] else []
  }

  lemma {:induction false} AfterAppend(rows: seq<RowId>, row: RowId, last: Option<RowId>)
    ensures After(rows + [row], last) == After(rows, last) + IfAfter(row, last)
  {
    var all := rows + [row];
    if rows == [] {
      assert all[1..] == [];
    } else {
      assert all[1..] == rows[1..] + [row];
      AfterAppend(rows[1..], row, last);
      assert After(all, last) == IfAfter(rows[0], last) + After(all[1..], last);
    }
  }

  lemma AfterOneMore(rows: seq<RowId>, last: Option<RowId>, i: nat)
    requires i < |rows|
    ensures After(rows[..i + 1], last) == After(rows[..i], last) + IfAfter(rows[i], last)
  {
    assert rows[..i + 1] == rows[..i] + [rows[i]];
    AfterAppend(rows[..i], rows[i], last);
  }
}
