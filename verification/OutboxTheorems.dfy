/** What the outbox promises over every run. */
module OutboxTheorems {
  import opened Options
  import opened OutboxRows
  import opened OutboxSafety
  import opened Numbers
  import Decimal

  lemma {:induction false} FencedOrder(history: seq<Entry>, i: nat, j: nat)
    requires Fenced(history) && i < j < |history|
    ensures Allowed(history[i], history[j])
    decreases |history|
  {
    if j < |history| - 1 {
      FencedOrder(history[..|history| - 1], i, j);
    }
  }

  lemma {:induction false} OutcomeHasClaim(history: seq<Entry>, j: nat) returns (k: nat)
    requires Fenced(history) && j < |history| && DispatcherAct(history[j].act)
    ensures k < j && history[k] == Entry(history[j].epoch, Claimed)
    decreases |history|
  {
    var n := |history| - 1;
    if j < n {
      k := OutcomeHasClaim(history[..n], j);
    } else {
      k :| 0 <= k < n && history[..n][k] == Entry(history[j].epoch, Claimed);
    }
  }

  /** Each claim epoch has at most one effective complete, defer or fail, in any run. */
  lemma OneOutcomePerEpoch(events: seq<Event>, id: RowId, i: nat, j: nat)
    requires id in Run(Initial, events).rows
    requires var h := Run(Initial, events).rows[id].history;
             && i < |h| && j < |h| && DispatcherAct(h[i].act) && DispatcherAct(h[j].act) && h[i].epoch == h[j].epoch
    ensures i == j
  {
    EveryRunKeeps(Initial, events);
    var h := Run(Initial, events).rows[id].history;
    if i < j { FencedOrder(h, i, j); }
    if j < i { FencedOrder(h, j, i); }
  }

  /**
   * Nothing a dispatcher does takes effect after a later claim; and after a
   * receipt, a supersession, a dead letter or another outcome, only a
   * dispatcher that claimed the row again since can change it.
   */
  lemma OutcomesFollowTheirClaim(events: seq<Event>, id: RowId, i: nat, j: nat) returns (k: nat)
    requires id in Run(Initial, events).rows
    requires var h := Run(Initial, events).rows[id].history; i < j < |h| && DispatcherAct(h[j].act)
    ensures var h := Run(Initial, events).rows[id].history;
            && h[i].epoch <= h[j].epoch
            && (!h[i].act.Claimed? ==> i < k < j && h[k] == Entry(h[j].epoch, Claimed) && h[i].epoch < h[k].epoch)
  {
    EveryRunKeeps(Initial, events);
    var h := Run(Initial, events).rows[id].history;
    FencedOrder(h, i, j);
    k := OutcomeHasClaim(h, j);
    if k < i { FencedOrder(h, k, i); }
  }

  /** Claims number the epochs 1, 2, 3, ...; attempts and epochs agree; deliveries of a receipt event are at most 100. */
  lemma DeliveryIsBounded(events: seq<Event>, id: RowId)
    requires id in Run(Initial, events).rows
    ensures var row := Run(Initial, events).rows[id];
            && row.attempts == row.epoch == Claims(row.history)
            && Effects(row.history) <= Claims(row.history)
            && (!row.event.Other? ==> Claims(row.history) <= 100)
  {
    EveryRunKeeps(Initial, events);
  }

  // ----- the configured cap -----

  ghost predicate ClaimsWithin(events: seq<Event>, id: RowId, maxAttempts: int, bound: nat) {
    forall i | 0 <= i < |events| && events[i].Claim? && events[i].id == id :: Cap(events[i].configured, maxAttempts) <= bound
  }

  lemma {:induction false} AttemptsWithinCap(s: State, events: seq<Event>, id: RowId, bound: nat)
    requires id in s.rows && NeedsReceipt(s.rows[id].event) && s.rows[id].attempts <= bound && id in s.used
    requires ClaimsWithin(events, id, s.rows[id].maxAttempts, bound)
    ensures var t := Run(s, events);
            && id in t.used
            && (id in t.rows ==>
                  && t.rows[id].event == s.rows[id].event && t.rows[id].maxAttempts == s.rows[id].maxAttempts
                  && t.rows[id].attempts <= bound)
    decreases |events|
  {
    if events != [] {
      var n := |events| - 1;
      AttemptsWithinCap(s, events[..n], id, bound);
      var m := Run(s, events[..n]);
      if id in m.rows {
        AttemptsStep(m, events[n], id, bound);
      }
    }
  }

  lemma AttemptsStep(s: State, e: Event, id: RowId, bound: nat)
    requires id in s.rows && id in s.used && NeedsReceipt(s.rows[id].event) && s.rows[id].attempts <= bound
    requires e.Claim? && e.id == id ==> Cap(e.configured, s.rows[id].maxAttempts) <= bound
    ensures var t := Step(s, e);
            && id in t.used
            && (id in t.rows ==>
                  && t.rows[id].event == s.rows[id].event && t.rows[id].maxAttempts == s.rows[id].maxAttempts
                  && t.rows[id].attempts <= bound)
  {}

  // ----- closed rows stay closed -----

  predicate Reopens(e: Event, id: RowId) {
    (e.Reopen? || e.Revive? || e.Prune?) && e.id == id
  }

  lemma ClosedStep(s: State, e: Event, id: RowId)
    requires id in s.rows && id in s.used && s.rows[id].completed && !Reopens(e, id)
    ensures var t := Step(s, e); id in t.rows && id in t.used && t.rows[id] == s.rows[id]
  {}

  /** A completed row changes only by being reopened. */
  lemma {:induction false} ClosedStays(s: State, events: seq<Event>, id: RowId)
    requires id in s.rows && id in s.used && s.rows[id].completed
    requires forall i | 0 <= i < |events| :: !Reopens(events[i], id)
    ensures var t := Run(s, events); id in t.rows && id in t.used && t.rows[id] == s.rows[id]
    decreases |events|
  {
    if events != [] {
      var n := |events| - 1;
      ClosedStays(s, events[..n], id);
      ClosedStep(Run(s, events[..n]), events[n], id);
    }
  }

  /** What a receipt or a supersession leaves behind, the dispatcher that holds the token cannot change. */
  lemma ReceiptBeatsDispatcher(s: State, first: Event, token: Token, late: Event)
    requires token.id in s.rows && token.id in s.used && Fence(s.rows[token.id], token)
    requires first == Receipt(token.id, token.epoch)
             || (first.Supersede? && SupersededBy(s.rows[token.id], token.id, first.successor, first.aggregate))
    requires late.Complete? || late.Defer? || late.Fail?
    requires late.token == token
    ensures var t := Step(s, first);
            t.rows[token.id].completed && Step(t, late).rows[token.id] == t.rows[token.id]
  {
    ClosedStep(Step(s, first), late, token.id);
  }

  // ----- how long an outcome keeps a row from being claimed -----

  /** Not leased, and finished or not due before `t`. */
  predicate Resting(row: Row, t: nat) {
    row.owner.None? && (row.completed || DueAt(row) >= t)
  }

  lemma RestingStep(s: State, e: Event, id: RowId, t: nat)
    requires id in s.rows && id in s.used && Resting(s.rows[id], t) && s.now < t && !Reopens(e, id)
    ensures var u := Step(s, e);
            && s.now <= u.now && id in u.rows && id in u.used && Resting(u.rows[id], t)
            && Claims(u.rows[id].history) == Claims(s.rows[id].history)
  {
    var h := s.rows[id].history;
    assert forall entry: Entry :: (h + [entry])[..|h|] == h;
  }

  lemma {:induction false} RestsUntil(s: State, events: seq<Event>, id: RowId, t: nat)
    requires id in s.rows && id in s.used && Resting(s.rows[id], t)
    requires forall i | 0 <= i < |events| :: !Reopens(events[i], id)
    requires Run(s, events).now < t
    ensures var u := Run(s, events);
            && s.now <= u.now && id in u.rows && id in u.used && Resting(u.rows[id], t)
            && Claims(u.rows[id].history) == Claims(s.rows[id].history)
    decreases |events|
  {
    if events != [] {
      var n := |events| - 1;
      ClockRuns(Run(s, events[..n]), events[n]);
      RestsUntil(s, events[..n], id, t);
      RestingStep(Run(s, events[..n]), events[n], id, t);
    }
  }

  lemma ClockRuns(s: State, e: Event)
    ensures s.now <= Step(s, e).now
  {}

  /** A delivered row that is not reopened is not claimed again before its receipt is overdue, at least 30 seconds later. */
  lemma DeferredWaits(s: State, token: Token, retrySeconds: nat, events: seq<Event>)
    requires token in s.tokens && token.id in s.rows && token.id in s.used
    requires NeedsReceipt(s.rows[token.id].event) && Fence(s.rows[token.id], token)
    requires forall i | 0 <= i < |events| :: !Reopens(events[i], token.id)
    requires Run(Step(s, Defer(token, retrySeconds)), events).now < s.now + Max(retrySeconds, LEASE_SECONDS)
    ensures var u := Run(Step(s, Defer(token, retrySeconds)), events);
            token.id in u.rows && Claims(u.rows[token.id].history) == Claims(s.rows[token.id].history)
  {
    var h := s.rows[token.id].history;
    assert forall entry: Entry :: (h + [entry])[..|h|] == h;
    RestsUntil(Step(s, Defer(token, retrySeconds)), events, token.id, s.now + Max(retrySeconds, LEASE_SECONDS));
  }

  /** The delay doubles with every attempt from one second up to 256; the limit of 300 is never what stops it. */
  lemma {:induction false} BackoffDoubles(attempts: nat)
    ensures 1 <= Backoff(attempts) <= 256
    ensures attempts < 8 ==> Backoff(attempts + 1) == 2 * Backoff(attempts)
    ensures attempts >= 8 ==> Backoff(attempts) == 256
  {
    assert Pow2(1) == 2 && Pow2(2) == 4 && Pow2(3) == 8 && Pow2(4) == 16;
    assert Pow2(5) == 32 && Pow2(6) == 64 && Pow2(7) == 128 && Pow2(8) == 256;
  }

  /** A failed row that is not reopened is not claimed again before its delay is over, and never when it was dead-lettered. */
  lemma FailedWaits(s: State, token: Token, terminal: bool, configured: Option<int>, events: seq<Event>)
    requires token in s.tokens && token.id in s.rows && token.id in s.used && Fence(s.rows[token.id], token)
    requires forall i | 0 <= i < |events| :: !Reopens(events[i], token.id)
    requires var ends := terminal || token.attempts >= Cap(configured, s.rows[token.id].maxAttempts);
             ends || Run(Step(s, Fail(token, terminal, configured)), events).now < s.now + Backoff(token.attempts)
    ensures var u := Run(Step(s, Fail(token, terminal, configured)), events);
            token.id in u.rows && Claims(u.rows[token.id].history) == Claims(s.rows[token.id].history)
  {
    var h := s.rows[token.id].history;
    assert forall entry: Entry :: (h + [entry])[..|h|] == h;
    var t := Step(s, Fail(token, terminal, configured));
    if t.rows[token.id].completed {
      ClosedStays(t, events, token.id);
    } else {
      RestsUntil(t, events, token.id, s.now + Backoff(token.attempts));
    }
  }

  // ----- enabledness -----

  /** An unfinished, due, unleased receipt event can be claimed or dead-lettered, never both, exactly when it is not dead-lettered. */
  lemma ExactlyOneEnabled(row: Row, now: nat, configured: Option<int>)
    requires NeedsReceipt(row.event) && !row.completed && DueAt(row) <= now && Unleased(row, now)
    ensures (Claimable(row, now, configured) <==> !Exhaustible(row, now, configured)) <==> !row.deadLettered
  {}

  predicate Clears(e: Event, id: RowId) {
    e.Revive? && e.id == id
  }

  lemma WedgedStep(s: State, e: Event, id: RowId)
    requires id in s.rows && id in s.used && s.rows[id].deadLettered && !Clears(e, id)
    ensures var t := Step(s, e);
            && id in t.used
            && (id in t.rows ==>
                  && t.rows[id].deadLettered && t.rows[id].epoch == s.rows[id].epoch
                  && Claims(t.rows[id].history) == Claims(s.rows[id].history)
                  && Effects(t.rows[id].history) == Effects(s.rows[id].history))
  {
    if id in Step(s, e).rows {
      var h := s.rows[id].history;
      assert (h + [Entry(s.rows[id].epoch, Superseded)])[..|h|] == h;
    }
  }

  /** A dead letter reopened without clearing its mark is never delivered again, however long the run. */
  lemma {:induction false} DeadLetterIsWedged(s: State, events: seq<Event>, id: RowId)
    requires id in s.rows && id in s.used && s.rows[id].deadLettered
    requires forall i | 0 <= i < |events| :: !Clears(events[i], id)
    ensures var t := Run(s, events);
            && id in t.used
            && (id in t.rows ==>
                  && t.rows[id].deadLettered && t.rows[id].epoch == s.rows[id].epoch
                  && Claims(t.rows[id].history) == Claims(s.rows[id].history)
                  && Effects(t.rows[id].history) == Effects(s.rows[id].history))
    decreases |events|
  {
    if events != [] {
      var n := |events| - 1;
      DeadLetterIsWedged(s, events[..n], id);
      if id in Run(s, events[..n]).rows {
        WedgedStep(Run(s, events[..n]), events[n], id);
      }
    }
  }

  function WaitFor(row: Row, now: nat): nat {
    var due := if DueAt(row) > now then DueAt(row) - now else 0;
    var leased := if row.leaseExpires.Some? && row.leaseExpires.value > now then row.leaseExpires.value - now else 0;
    due + leased
  }

  /** With nothing but time and one dispatcher that crashes after every claim, an open receipt event still ends. */
  lemma {:induction false} CrashesEnd(s: State, id: RowId, worker: Worker, configured: Option<int>) returns (events: seq<Event>)
    requires id in s.rows && NeedsReceipt(s.rows[id].event) && Open(s.rows[id])
    ensures id in Run(s, events).rows && Run(s, events).rows[id].completed && Run(s, events).rows[id].deadLettered
    ensures forall i | 0 <= i < |events| :: events[i].Tick? || events[i].Claim? || events[i].DeadLetter?
    decreases Cap(configured, s.rows[id].maxAttempts) - s.rows[id].attempts
  {
    var wait := Tick(WaitFor(s.rows[id], s.now));
    var waited := Step(s, wait);
    if s.rows[id].attempts >= Cap(configured, s.rows[id].maxAttempts) {
      events := [wait, DeadLetter(id, configured)];
      RunTwo(s, wait, DeadLetter(id, configured));
    } else {
      var claimed := Step(waited, Claim(worker, id, configured));
      var rest := CrashesEnd(claimed, id, worker, configured);
      events := [wait, Claim(worker, id, configured)] + rest;
      RunTwo(s, wait, Claim(worker, id, configured));
      RunConcat(s, [wait, Claim(worker, id, configured)], rest);
    }
  }

  lemma RunTwo(s: State, a: Event, b: Event)
    ensures Run(s, [a, b]) == Step(Step(s, a), b)
  {
    assert [a, b][..1] == [a];
    assert [a][..0] == [];
    assert Run(s, [a]) == Step(Run(s, []), a);
  }

  lemma {:induction false} RunConcat(s: State, first: seq<Event>, second: seq<Event>)
    ensures Run(s, first + second) == Run(Run(s, first), second)
    decreases |second|
  {
    if second == [] {
      assert first + second == first;
    } else {
      var n := |second| - 1;
      assert (first + second)[..|first| + n] == first + second[..n];
      RunConcat(s, first, second[..n]);
    }
  }

  /** Events without receipts have no such end: crashes between claim and outcome repeat without bound. */
  lemma {:induction false} CrashLoop(s: State, id: RowId, worker: Worker, configured: Option<int>, n: nat) returns (events: seq<Event>)
    requires id in s.rows && !NeedsReceipt(s.rows[id].event) && Open(s.rows[id])
    ensures id in Run(s, events).rows && Run(s, events).rows[id].attempts == s.rows[id].attempts + n
    ensures Open(Run(s, events).rows[id])
    decreases n
  {
    if n == 0 {
      events := [];
    } else {
      var wait := Tick(WaitFor(s.rows[id], s.now));
      var claimed := Step(Step(s, wait), Claim(worker, id, configured));
      var rest := CrashLoop(claimed, id, worker, configured, n - 1);
      events := [wait, Claim(worker, id, configured)] + rest;
      RunTwo(s, wait, Claim(worker, id, configured));
      RunConcat(s, [wait, Claim(worker, id, configured)], rest);
    }
  }

  // ----- where a closing is not a fence -----

  /** Cancelling a deletion leaves the lease in place: once reopened, the old dispatcher's fence holds exactly as before. */
  lemma CancelKeepsFence(row: Row, id: RowId, now: nat, tokens: set<Token>, token: Token, available: nat)
    requires Open(row)
    ensures var cancelled := RowStep(row, id, now, tokens, Cancel(id));
            var reopened := RowStep(cancelled, id, now, tokens, Reopen(id, available));
            && !Fence(cancelled, token)
            && (Fence(reopened, token) <==> Fence(row, token))
  {}

  /** A receipt sent before the row was reopened closes it again exactly when nobody has claimed it since. */
  lemma StaleReceiptIff(s: State, events: seq<Event>, id: RowId, epoch: nat, available: nat, clearLease: bool)
    requires Inv(s) && id in s.rows && s.rows[id].epoch == epoch
    requires var t := Run(Step(s, Revive(id, available, clearLease)), events); id in t.rows && Open(t.rows[id])
    ensures var t := Run(Step(s, Revive(id, available, clearLease)), events);
            Step(t, Receipt(id, epoch)).rows[id].completed <==> Claims(t.rows[id].history) == Claims(s.rows[id].history)
  {
    StepKeeps(s, Revive(id, available, clearLease));
    EveryRunKeeps(Step(s, Revive(id, available, clearLease)), events);
  }

  // ----- job ids -----

  function Dashed(name: string): string {
    if name == "" then "" else [if name[0] == '.' then '-' else name[0]] + Dashed(name[1..])
  }

  /** The event name with its dots replaced. */
  function EventName(event: EventType): string {
    match event
    case TurnExecute => "turn-execute"
    case TurnResume => "turn-resume"
    case SandboxSnapshot => "sandbox-snapshot"
    case DeleteObject => "file-delete-object"
    case DeleteBlob => "file-delete-blob"
    case VerifyBlob => "file-verify-blob"
    case Other(name) => Dashed(name)
  }

  /** `outboxJobId`: only events with a receipt carry the attempt. */
  function JobId(event: EventType, id: RowId, attempt: nat): string {
    if NeedsReceipt(event) then DeliveryId(EventName(event), id, attempt) else BaseId(EventName(event), id)
  }

  function BaseId(name: string, id: RowId): string {
    "outbox-" + name + "-" + id
  }

  function DeliveryId(name: string, id: RowId, attempt: nat): string {
    BaseId(name, id) + "-delivery-" + Decimal.Digits(attempt)
  }

  predicate HexDigit(c: char) {
    '0' <= c <= '9' || 'a' <= c <= 'f'
  }

  /** The text of a `uuid` column, dashes included. */
  predicate IsUuid(id: RowId) {
    |id| == 36 && forall i | 0 <= i < 36 :: if i in {8, 13, 18, 23} then id[i] == '-' else HexDigit(id[i])
  }

  lemma HeadNotLonger(a: string, b: string, x: string, y: string)
    requires a + "-" + x == b + "-" + y
    requires forall j | 0 <= j < |y| :: Decimal.IsDigit(y[j])
    ensures |a| <= |b|
  {
    var l, r := a + "-" + x, b + "-" + y;
    forall k | |b| < k < |r| ensures Decimal.IsDigit(r[k]) {
      assert r[k] == y[k - |b| - 1];
    }
    assert l[|a|] == '-';
  }

  lemma SameTail(a: string, b: string, x: string, y: string)
    requires a + "-" + x == b + "-" + y
    requires forall j | 0 <= j < |x| :: Decimal.IsDigit(x[j])
    requires forall j | 0 <= j < |y| :: Decimal.IsDigit(y[j])
    ensures a == b && x == y
  {
    HeadNotLonger(a, b, x, y);
    HeadNotLonger(b, a, y, x);
    var l, r := a + "-" + x, b + "-" + y;
    assert a == l[..|a|] && b == r[..|b|];
    assert x == l[|a| + 1..] && y == r[|b| + 1..];
  }

  /** A delivery id names one row and one attempt. */
  lemma DeliveryIdsDiffer(name: string, id: RowId, attempt: nat, otherName: string, otherId: RowId, otherAttempt: nat)
    requires |id| == |otherId|
    requires DeliveryId(name, id, attempt) == DeliveryId(otherName, otherId, otherAttempt)
    ensures id == otherId && attempt == otherAttempt
  {
    Decimal.DigitsRead(attempt);
    Decimal.DigitsRead(otherAttempt);
    var mark := "-delivery";
    var a, b := BaseId(name, id) + mark, BaseId(otherName, otherId) + mark;
    var x, y := Decimal.Digits(attempt), Decimal.Digits(otherAttempt);
    assert a + "-" + x == DeliveryId(name, id, attempt);
    assert b + "-" + y == DeliveryId(otherName, otherId, otherAttempt);
    SameTail(a, b, x, y);
    Decimal.DigitsInjective(attempt, otherAttempt);
    SameId("outbox-" + name + "-", id, "outbox-" + otherName + "-", otherId, mark);
  }

  lemma SameId(front: string, id: RowId, otherFront: string, otherId: RowId, mark: string)
    requires |id| == |otherId| && front + id + mark == otherFront + otherId + mark
    ensures id == otherId
  {
    var whole := front + id + mark;
    assert |front| == |otherFront|;
    assert id == whole[|front|..|front| + |id|];
    assert otherId == (otherFront + otherId + mark)[|front|..|front| + |id|];
  }

  lemma BaseIdsDiffer(name: string, id: RowId, otherName: string, otherId: RowId)
    requires |id| == |otherId| && BaseId(name, id) == BaseId(otherName, otherId)
    ensures id == otherId
  {
    var front, otherFront := "outbox-" + name + "-", "outbox-" + otherName + "-";
    assert front + id + "" == BaseId(name, id) && otherFront + otherId + "" == BaseId(otherName, otherId);
    SameId(front, id, otherFront, otherId, "");
  }

  /** No text ends both with a uuid and with `-delivery-` and digits: the digits would cover a dash of the uuid, or the `y` fall on it. */
  lemma UuidIsNoDelivery(front: string, id: RowId, head: string, digits: string)
    requires IsUuid(id) && forall j | 0 <= j < |digits| :: Decimal.IsDigit(digits[j])
    ensures front + id != head + "-delivery-" + digits
  {
    var l, r := front + id, head + "-delivery-" + digits;
    if |l| == |r| {
      var n := |l|;
      if |digits| >= 13 {
        assert l[n - 13] == id[23] && r[n - 13] == digits[|digits| - 13];
      } else {
        var k := n - |digits| - 2;
        assert r[k] == "-delivery-"[8] && l[k] == id[34 - |digits|];
      }
    }
  }

  lemma BaseIsNoDelivery(name: string, id: RowId, otherName: string, otherId: RowId, attempt: nat)
    requires IsUuid(id)
    ensures BaseId(name, id) != DeliveryId(otherName, otherId, attempt)
  {
    Decimal.DigitsRead(attempt);
    UuidIsNoDelivery("outbox-" + name + "-", id, BaseId(otherName, otherId), Decimal.Digits(attempt));
  }

  /** Job ids of rows agree exactly for the same row and, where the event has a receipt, the same attempt. */
  lemma JobIdsEqualIff(event: EventType, id: RowId, attempt: nat, otherEvent: EventType, otherId: RowId, otherAttempt: nat)
    requires IsUuid(id) && IsUuid(otherId) && (id == otherId ==> event == otherEvent)
    ensures JobId(event, id, attempt) == JobId(otherEvent, otherId, otherAttempt)
            <==> id == otherId && (!NeedsReceipt(event) || attempt == otherAttempt)
  {
    var name, otherName := EventName(event), EventName(otherEvent);
    if JobId(event, id, attempt) == JobId(otherEvent, otherId, otherAttempt) {
      if NeedsReceipt(event) && NeedsReceipt(otherEvent) {
        DeliveryIdsDiffer(name, id, attempt, otherName, otherId, otherAttempt);
      } else if !NeedsReceipt(event) && !NeedsReceipt(otherEvent) {
        BaseIdsDiffer(name, id, otherName, otherId);
      } else {
        BaseIsNoDelivery(name, id, otherName, otherId, otherAttempt);
        BaseIsNoDelivery(otherName, otherId, name, id, attempt);
      }
    }
  }

  /**
   * Two claims of one run publish the same job id exactly when they claimed
   * the same row and its event has no receipt, or they are the same claim.
   */
  lemma PublishedTwiceIff(events: seq<Event>, t: Token, u: Token)
    requires t in Run(Initial, events).tokens && u in Run(Initial, events).tokens && IsUuid(t.id) && IsUuid(u.id)
    ensures JobId(t.event, t.id, t.attempts) == JobId(u.event, u.id, u.attempts) <==> t == u || (t.id == u.id && !NeedsReceipt(t.event))
  {
    EveryRunKeeps(Initial, events);
    var s := Run(Initial, events);
    assert TokenOk(s, t) && TokenOk(s, u);
    JobIdsEqualIff(t.event, t.id, t.attempts, u.event, u.id, u.attempts);
  }

  /** Such repeats happen: a crash after the claim, and the lease running out, are enough. */
  lemma RepublishedAfterCrash(id: RowId, name: string, worker: Worker) returns (events: seq<Event>, t: Token, u: Token)
    requires IsUuid(id)
    ensures t in Run(Initial, events).tokens && u in Run(Initial, events).tokens && t != u
    ensures JobId(t.event, t.id, t.attempts) == JobId(u.event, u.id, u.attempts)
  {
    var insert := Insert(id, Other(name), 0, false, 0, 8, 0, 0);
    var claim := Claim(worker, id, None);
    t, u := Token(worker, id, Other(name), 1, 1), Token(worker, id, Other(name), 2, 2);
    var inserted := Step(Initial, insert);
    var claimed := Step(inserted, claim);
    var waited := Step(claimed, Tick(LEASE_SECONDS));
    assert t in claimed.tokens;
    assert Claimable(waited.rows[id], waited.now, None);
    RunTwo(Initial, insert, claim);
    RunTwo(claimed, Tick(LEASE_SECONDS), claim);
    RunConcat(Initial, [insert, claim], [Tick(LEASE_SECONDS), claim]);
    events := [insert, claim] + [Tick(LEASE_SECONDS), claim];
  }
}
