/** What every run of the outbox keeps, and what follows for one row's history. */
module OutboxSafety {
  import opened Options
  import opened OutboxRows

  predicate DispatcherAct(act: Act) {
    act.Completed? || act.Deferred? || act.Failed?
  }

  /** May `next` follow `earlier` on the same row? */
  predicate Allowed(earlier: Entry, next: Entry) {
    && earlier.epoch <= next.epoch
    && (next.act.Claimed? ==> earlier.epoch < next.epoch)
    && (DispatcherAct(next.act) ==> earlier.epoch < next.epoch || earlier.act.Claimed?)
  }

  ghost predicate Follows(history: seq<Entry>, next: Entry) {
    && (forall i | 0 <= i < |history| :: Allowed(history[i], next))
    && (DispatcherAct(next.act) ==> Entry(next.epoch, Claimed) in history)
  }

  ghost predicate Fenced(history: seq<Entry>)
    decreases |history|
  {
    history != [] ==>
      var n := |history| - 1;
      Fenced(history[..n]) && Follows(history[..n], history[n])
  }

  ghost predicate Bounded(history: seq<Entry>, epoch: nat) {
    forall i | 0 <= i < |history| :: history[i].epoch <= epoch
  }

  /** While a lease is held, nothing but its claim has happened at the current epoch. */
  ghost predicate Quiet(history: seq<Entry>, epoch: nat) {
    forall i | 0 <= i < |history| && history[i].epoch == epoch :: history[i].act.Claimed?
  }

  function Claims(history: seq<Entry>): nat
    decreases |history|
  {
    if history == [] then 0
    else Claims(history[..|history| - 1]) + (if history[|history| - 1].act.Claimed? then 1 else 0)
  }

  function Effects(history: seq<Entry>): nat
    decreases |history|
  {
    if history == [] then 0
    else Effects(history[..|history| - 1]) + (if DispatcherAct(history[|history| - 1].act) then 1 else 0)
  }

  ghost predicate RowOk(row: Row) {
    && row.epoch == row.attempts
    && (NeedsReceipt(row.event) ==> row.attempts <= MAX_CAP)
    && Fenced(row.history) && Bounded(row.history, row.epoch)
    && Claims(row.history) == row.epoch
    && (row.epoch > 0 ==> Entry(row.epoch, Claimed) in row.history)
    && (row.owner.Some? ==> row.epoch > 0 && Quiet(row.history, row.epoch))
    && Effects(row.history) + (if row.owner.Some? then 1 else 0) <= row.epoch
  }

  ghost predicate TokenOk(s: State, t: Token) {
    && t.id in s.used && t.epoch == t.attempts && t.epoch > 0
    && (t.id in s.rows ==> t.epoch <= s.rows[t.id].epoch && t.event == s.rows[t.id].event)
  }

  ghost predicate TokensUnique(tokens: set<Token>) {
    forall t, u | t in tokens && u in tokens && t.id == u.id :: t.event == u.event && (t.epoch == u.epoch ==> t == u)
  }

  ghost predicate Inv(s: State) {
    && s.rows.Keys <= s.used
    && (forall id | id in s.rows :: RowOk(s.rows[id]))
    && (forall t | t in s.tokens :: TokenOk(s, t))
    && TokensUnique(s.tokens)
  }

  // ----- one row -----

  /** Appending a note that is allowed at the row's epoch. */
  lemma NotedOk(row: Row, act: Act)
    requires Fenced(row.history) && Bounded(row.history, row.epoch)
    requires Follows(row.history, Entry(row.epoch, act))
    ensures Fenced(Noted(row, act).history) && Bounded(Noted(row, act).history, row.epoch)
    ensures forall entry | entry in row.history :: entry in Noted(row, act).history
    ensures Entry(row.epoch, act) in Noted(row, act).history
    ensures Claims(Noted(row, act).history) == Claims(row.history) + (if act.Claimed? then 1 else 0)
    ensures Effects(Noted(row, act).history) == Effects(row.history) + (if DispatcherAct(act) then 1 else 0)
  {
    assert Noted(row, act).history[..|row.history|] == row.history;
  }

  lemma ClaimedOk(row: Row, worker: Worker, now: nat)
    requires RowOk(row) && (NeedsReceipt(row.event) ==> row.attempts < MAX_CAP)
    ensures RowOk(ClaimedRow(row, worker, now))
  {
    var next := row.(epoch := row.epoch + 1);
    NotedOk(next, Claimed);
    assert ClaimedRow(row, worker, now).history == Noted(next, Claimed).history;
  }

  /** A dispatcher outcome needs the lease, and gives it up. */
  lemma DispatcherStepOk(row: Row, id: RowId, now: nat, tokens: set<Token>, e: Event)
    requires RowOk(row) && (e.Complete? || e.Defer? || e.Fail?)
    ensures RowOk(RowStep(row, id, now, tokens, e))
  {
    var next := RowStep(row, id, now, tokens, e);
    if next.history != row.history {
      var act := if e.Complete? then Completed else if e.Defer? then Deferred else Failed;
      NotedOk(row, act);
      assert next.history == Noted(row, act).history;
    }
  }

  /** Everything that closes a row without being its dispatcher frees the lease. */
  lemma ClosingStepOk(row: Row, id: RowId, now: nat, tokens: set<Token>, e: Event)
    requires RowOk(row) && (e.Receipt? || e.Supersede? || e.DeadLetter?)
    ensures RowOk(RowStep(row, id, now, tokens, e))
  {
    var next := RowStep(row, id, now, tokens, e);
    if next.history != row.history {
      var act := if e.Receipt? then Received else if e.Supersede? then Superseded else Exhausted;
      NotedOk(row, act);
      assert next.history == Noted(row, act).history;
    }
  }

  lemma RowStepOk(row: Row, id: RowId, now: nat, tokens: set<Token>, e: Event)
    requires RowOk(row)
    ensures RowOk(RowStep(row, id, now, tokens, e))
  {
    if e.Complete? || e.Defer? || e.Fail? {
      DispatcherStepOk(row, id, now, tokens, e);
    } else if e.Receipt? || e.Supersede? || e.DeadLetter? {
      ClosingStepOk(row, id, now, tokens, e);
    } else if e.Claim? && e.id == id && Claimable(row, now, e.configured) {
      ClaimedOk(row, e.worker, now);
    }
  }

  // ----- every run -----

  lemma FreshOk(e: Event, now: nat)
    requires e.Insert?
    ensures RowOk(FreshRow(e, now))
  {}

  lemma StepKeepsRows(s: State, e: Event, id: RowId)
    requires Inv(s) && id in Step(s, e).rows
    ensures RowOk(Step(s, e).rows[id])
    ensures id in Step(s, e).used
  {
    if e.Insert? { FreshOk(e, s.now); }
    if id in s.rows { RowStepOk(s.rows[id], id, s.now, s.tokens, e); }
  }

  lemma EpochGrows(row: Row, id: RowId, now: nat, tokens: set<Token>, e: Event)
    ensures row.epoch <= RowStep(row, id, now, tokens, e).epoch && row.event == RowStep(row, id, now, tokens, e).event
  {}

  lemma StepKeepsTokens(s: State, e: Event, t: Token)
    requires Inv(s) && t in Step(s, e).tokens
    ensures TokenOk(Step(s, e), t)
  {
    if t in s.tokens { assert TokenOk(s, t); }
    if t.id in s.rows { EpochGrows(s.rows[t.id], t.id, s.now, s.tokens, e); }
  }

  lemma StepKeepsUnique(s: State, e: Event)
    requires Inv(s)
    ensures TokensUnique(Step(s, e).tokens)
  {
    forall t, u | t in Step(s, e).tokens && u in Step(s, e).tokens && t.id == u.id
      ensures t.event == u.event && (t.epoch == u.epoch ==> t == u)
    {
      if t in s.tokens { assert TokenOk(s, t); }
      if u in s.tokens { assert TokenOk(s, u); }
    }
  }

  lemma StepKeeps(s: State, e: Event)
    requires Inv(s)
    ensures Inv(Step(s, e))
  {
    var t := Step(s, e);
    forall id | id in t.rows ensures RowOk(t.rows[id]) && id in t.used { StepKeepsRows(s, e, id); }
    forall k | k in t.tokens ensures TokenOk(t, k) { StepKeepsTokens(s, e, k); }
    StepKeepsUnique(s, e);
  }

  lemma {:induction false} EveryRunKeeps(s: State, events: seq<Event>)
    requires Inv(s)
    ensures Inv(Run(s, events))
    decreases |events|
  {
    if events != [] {
      EveryRunKeeps(s, events[..|events| - 1]);
      StepKeeps(Run(s, events[..|events| - 1]), events[|events| - 1]);
    }
  }
}
