/**
 * When each statement on the outbox takes effect on a row, and when the row
 * can be claimed again afterwards, read off the row's own fields.
 */
module OutboxEffects {
  import opened Options
  import opened OutboxRows
  import opened Numbers

  /** A claim by `worker` at this moment takes the row. */
  predicate Taken(s: State, worker: Worker, id: RowId, configured: Option<int>) {
    id in s.rows && Step(s, Claim(worker, id, configured)).rows[id].epoch > s.rows[id].epoch
  }

  /** The configured number, or else the row's own, moved to the nearest of 1 to 100. */
  lemma CapIsNearest(configured: Option<int>, maxAttempts: int, other: int)
    requires 1 <= other <= 100
    ensures var wanted := if configured.Some? then configured.value else maxAttempts;
            var cap := Cap(configured, maxAttempts);
            && 1 <= cap <= 100
            && (if wanted <= cap then cap - wanted else wanted - cap) <= (if wanted <= other then other - wanted else wanted - other)
  {}

  /** A row is claimed exactly when it is open, due, not leased, and has an attempt left or needs no receipt. */
  lemma ClaimIff(s: State, worker: Worker, id: RowId, configured: Option<int>)
    requires id in s.rows
    ensures var row := s.rows[id];
            Taken(s, worker, id, configured) <==>
              && !row.completed && !row.deadLettered
              && (if row.receiptDue.Some? then row.receiptDue.value <= s.now else row.available <= s.now)
              && (row.leaseExpires.Some? ==> row.leaseExpires.value <= s.now)
              && (row.event.Other? || row.attempts < Cap(configured, row.maxAttempts))
  {}

  /** Only that row changes: it is leased for 30 seconds at its next epoch and attempt, which the token names. */
  lemma ClaimLeases(s: State, worker: Worker, id: RowId, configured: Option<int>)
    requires Taken(s, worker, id, configured)
    ensures var row, t := s.rows[id], Step(s, Claim(worker, id, configured));
            && t.rows[id].owner == Some(worker) && t.rows[id].leaseExpires == Some(s.now + 30) && t.rows[id].receiptDue == None
            && t.rows[id].epoch == row.epoch + 1 && t.rows[id].attempts == row.attempts + 1
            && t.tokens == s.tokens + {Token(worker, id, row.event, row.epoch + 1, row.attempts + 1)}
            && t.rows.Keys == s.rows.Keys && forall other | other in s.rows && other != id :: t.rows[other] == s.rows[other]
  {}

  /** The token is the row's latest claim, and the row is still leased to it. */
  predicate Current(s: State, token: Token) {
    && token in s.tokens && token.id in s.rows
    && s.rows[token.id].owner == Some(token.worker) && s.rows[token.id].epoch == token.epoch
    && !s.rows[token.id].completed && !s.rows[token.id].deadLettered
  }

  predicate OutcomeOf(e: Event, token: Token) {
    (e.Complete? || e.Defer? || e.Fail?) && e.token == token
  }

  /** A token that is not current changes nothing at all. */
  lemma StaleTokenIsFenced(s: State, token: Token, e: Event)
    requires OutcomeOf(e, token) && !Current(s, token)
    ensures Step(s, e) == s
  {
    assert Step(s, e).rows == s.rows;
  }

  /** A current token's outcome gives the lease up, and touches no other row. */
  lemma OutcomeFrees(s: State, token: Token, e: Event)
    requires OutcomeOf(e, token) && Current(s, token)
    requires (e.Complete? ==> s.rows[token.id].event.Other?) && (e.Defer? ==> !s.rows[token.id].event.Other?)
    ensures var row, t := s.rows[token.id], Step(s, e);
            && t.rows.Keys == s.rows.Keys && t.tokens == s.tokens && t.now == s.now
            && (forall other | other in s.rows && other != token.id :: t.rows[other] == s.rows[other])
            && t.rows[token.id].owner == None && t.rows[token.id].leaseExpires == None
            && t.rows[token.id].epoch == row.epoch && t.rows[token.id].attempts == row.attempts
            && t.rows[token.id].event == row.event && t.rows[token.id].maxAttempts == row.maxAttempts
  {}

  /** A completed delivery is finished, and not as a dead letter. */
  lemma CompleteFinishes(s: State, token: Token)
    requires Current(s, token) && s.rows[token.id].event.Other?
    ensures var row := Step(s, Complete(token)).rows[token.id]; row.completed && !row.deadLettered
  {}

  /** A deferred row stays open, and can be claimed again exactly from the moment its receipt is overdue, at least 30 seconds later. */
  lemma DeferredReturns(s: State, token: Token, retrySeconds: nat, wait: nat, worker: Worker, configured: Option<int>)
    requires Current(s, token) && !s.rows[token.id].event.Other?
    ensures var t := Step(s, Defer(token, retrySeconds));
            && Open(t.rows[token.id])
            && (Taken(Step(t, Tick(wait)), worker, token.id, configured) <==>
                  && wait >= 30 && wait >= retrySeconds
                  && s.rows[token.id].attempts < Cap(configured, s.rows[token.id].maxAttempts))
  {
    var t := Step(s, Defer(token, retrySeconds));
    ClaimIff(Step(t, Tick(wait)), worker, token.id, configured);
  }

  /**
   * A failure that is not terminal, with attempts left, keeps the row open,
   * and it can be claimed again exactly once its delay is over. Any other
   * failure finishes the row as a dead letter.
   */
  lemma FailedReturns(
    s: State, token: Token, terminal: bool, configured: Option<int>, wait: nat, worker: Worker, again: Option<int>)
    requires Current(s, token)
    ensures var row, t := s.rows[token.id], Step(s, Fail(token, terminal, configured));
            if !terminal && token.attempts < Cap(configured, row.maxAttempts)
            then && Open(t.rows[token.id])
                 && (Taken(Step(t, Tick(wait)), worker, token.id, again) <==>
                       && wait >= Backoff(token.attempts)
                       && (row.event.Other? || row.attempts < Cap(again, row.maxAttempts)))
            else t.rows[token.id].completed && t.rows[token.id].deadLettered
  {
    var t := Step(s, Fail(token, terminal, configured));
    ClaimIff(Step(t, Tick(wait)), worker, token.id, again);
  }

  /** A receipt finishes exactly an open row at its own epoch, leased or not. */
  lemma ReceiptIff(s: State, id: RowId, epoch: nat)
    requires id in s.rows
    ensures var row, t := s.rows[id], Step(s, Receipt(id, epoch));
            if !row.completed && !row.deadLettered && row.epoch == epoch
            then t.rows[id].completed && !t.rows[id].deadLettered && t.rows[id].owner == None && t.rows[id].leaseExpires == None
            else t.rows[id] == row
  {}

  /** A final snapshot finishes exactly the unfinished interval snapshots of its run. */
  lemma SupersedeIff(s: State, successor: RowId, aggregate: nat, id: RowId)
    requires id in s.rows
    ensures var row, t := s.rows[id], Step(s, Supersede(successor, aggregate));
            && id in t.rows
            && if id != successor && row.event == SandboxSnapshot && row.aggregate == aggregate && !row.beforeFinalize && !row.completed
               then t.rows[id].completed && t.rows[id].owner == None && t.rows[id].leaseExpires == None && t.rows[id].epoch == row.epoch
               else t.rows[id] == row
  {}

  /** A dead letter is made exactly of an open, due, unleased row that waits for a receipt and has no attempt left. */
  lemma DeadLetterIff(s: State, id: RowId, configured: Option<int>)
    requires id in s.rows
    ensures var row, t := s.rows[id], Step(s, DeadLetter(id, configured));
            if && !row.completed && !row.deadLettered && !row.event.Other?
               && (if row.receiptDue.Some? then row.receiptDue.value <= s.now else row.available <= s.now)
               && (row.leaseExpires.Some? ==> row.leaseExpires.value <= s.now)
               && row.attempts >= Cap(configured, row.maxAttempts)
            then t.rows[id].completed && t.rows[id].deadLettered && t.rows[id].owner == None
            else t.rows[id] == row
  {}

  /** A revived row can be claimed from its new date on, as soon as it is not leased and as long as it has attempts left. */
  lemma RevivedReturns(s: State, id: RowId, wait: nat, clearLease: bool, worker: Worker, configured: Option<int>)
    requires id in s.rows
    ensures var row := s.rows[id];
            Taken(Step(Step(s, Revive(id, s.now + wait, clearLease)), Tick(wait)), worker, id, configured) <==>
              && (clearLease || row.leaseExpires.None? || row.leaseExpires.value <= s.now + wait)
              && (row.event.Other? || row.attempts < Cap(configured, row.maxAttempts))
  {
    ClaimIff(Step(Step(s, Revive(id, s.now + wait, clearLease)), Tick(wait)), worker, id, configured);
  }

  /** The keys a claim sorts by, most significant first. */
  function SortKeys(row: Row): seq<nat> {
    [row.priority, if row.receiptDue.Some? then row.receiptDue.value else row.available, row.firstAvailable, row.created]
  }

  predicate LexAtMost(a: seq<nat>, b: seq<nat>) {
    a == [] || (b != [] && (a[0] < b[0] || (a[0] == b[0] && LexAtMost(a[1..], b[1..]))))
  }

  /** The claim order is lexicographic in those keys. */
  lemma OrderIsLexicographic(a: Row, b: Row)
    ensures NotAfter(a, b) <==> LexAtMost(SortKeys(a), SortKeys(b))
  {
    var x, y := SortKeys(a), SortKeys(b);
    assert x[1..][1..] == x[2..] && y[1..][1..] == y[2..] && x[2..][1..] == x[3..] && y[2..][1..] == y[3..];
    assert x[3..] == [a.created] && y[3..] == [b.created];
    assert LexAtMost(x[3..], y[3..]) <==> a.created <= b.created;
    assert LexAtMost(x[2..], y[2..]) <==> NotYounger(a, b);
  }
}
