/**
 * One dispatcher working on the rows of one tenant, statement by statement.
 * Every statement is one or more steps of the outbox model.
 */
module OutboxDispatcher {
  import opened Options
  import opened OutboxRows
  import OutboxTheorems

  /**
   * What happens to one claimed row between its claim and its outcome: an
   * unknown event name, a failing preparation, a payload that does not parse,
   * a queue that cannot be reached, or none of these.
   */
  datatype Delivery = Unsupported | Unprepared | Malformed | Unreachable | Enqueued

  predicate Prepared(delivery: Delivery) {
    !delivery.Unsupported? && !delivery.Unprepared?
  }

  predicate Terminal(delivery: Delivery) {
    delivery.Unsupported? || delivery.Malformed?
  }

  class OutboxTable {
    var now: nat
    var rows: map<RowId, Row>
    var tokens: set<Token>
    ghost var used: set<RowId>

    ghost function Model(): State
      reads this
    {
      State(now, rows, used, tokens)
    }

    constructor ()
      ensures Model() == Initial
    {
      now := 0;
      rows := map[];
      tokens := {};
      used := {};
    }
  }

  predicate OwnStep(e: Event, worker: Worker) {
    match e
    case Claim(w, _, _) => w == worker
    case Complete(token) => token.worker == worker
    case Defer(token, _) => token.worker == worker
    case Fail(token, _, _) => token.worker == worker
    case DeadLetter(_, _) => true
    case Supersede(_, _) => true
    case _ => false
  }

  ghost predicate OwnSteps(events: seq<Event>, worker: Worker) {
    forall i | 0 <= i < |events| :: OwnStep(events[i], worker)
  }

  function ClaimCount(events: seq<Event>): nat
    decreases |events|
  {
    if events == [] then 0 else ClaimCount(events[..|events| - 1]) + (if events[|events| - 1].Claim? then 1 else 0)
  }

  lemma OneMore(s: State, events: seq<Event>, e: Event)
    ensures Run(s, events + [e]) == Step(Run(s, events), e)
    ensures ClaimCount(events + [e]) == ClaimCount(events) + (if e.Claim? then 1 else 0)
  {
    assert (events + [e])[..|events|] == events;
  }

  lemma {:induction false} CountConcat(first: seq<Event>, second: seq<Event>)
    ensures ClaimCount(first + second) == ClaimCount(first) + ClaimCount(second)
    decreases |second|
  {
    if second == [] {
      assert first + second == first;
    } else {
      var n := |second| - 1;
      assert (first + second)[..|first| + n] == first + second[..n];
      CountConcat(first, second[..n]);
    }
  }

  /** Two stretches of own steps without claims, one after the other. */
  ghost function Joined(start: State, first: seq<Event>, second: seq<Event>, worker: Worker): (all: seq<Event>)
    requires OwnSteps(first, worker) && OwnSteps(second, worker) && ClaimCount(first) == 0 && ClaimCount(second) == 0
    ensures Run(start, all) == Run(Run(start, first), second) && OwnSteps(all, worker) && ClaimCount(all) == 0
    ensures all == first + second
  {
    OutboxTheorems.RunConcat(start, first, second);
    CountConcat(first, second);
    first + second
  }

  /** Without new claims no fence rises, and no row or token is lost. */
  lemma {:induction false} FencesFall(s: State, events: seq<Event>, worker: Worker)
    requires OwnSteps(events, worker) && ClaimCount(events) == 0
    ensures Run(s, events).rows.Keys == s.rows.Keys && Run(s, events).tokens == s.tokens
    ensures forall t: Token | t.id in s.rows && !Fence(s.rows[t.id], t) :: !Fence(Run(s, events).rows[t.id], t)
    decreases |events|
  {
    if events != [] {
      var n := |events| - 1;
      var m := Run(s, events[..n]);
      FencesFall(s, events[..n], worker);
      forall t: Token | t.id in m.rows
        ensures t.id in Step(m, events[n]).rows && (!Fence(m.rows[t.id], t) ==> !Fence(Step(m, events[n]).rows[t.id], t))
      {}
    }
  }

  predicate Single(e: Event, id: RowId) {
    match e
    case Claim(_, target, _) => target == id
    case Complete(token) => token.id == id
    case Defer(token, _) => token.id == id
    case Fail(token, _, _) => token.id == id
    case DeadLetter(target, _) => target == id
    case _ => false
  }

  /** A statement about one row leaves the others alone. */
  lemma OnlyThatRow(s: State, e: Event, id: RowId)
    requires Single(e, id)
    ensures id in s.rows ==> Stepped(s, e) == s.rows[id := RowStep(s.rows[id], id, s.now, s.tokens, e)]
    ensures id !in s.rows ==> Stepped(s, e) == s.rows
  {}

  /** The rows a claim picks: the first `limit` due rows in claim order. */
  ghost predicate IsPick(s: State, ids: seq<RowId>, limit: nat, configured: Option<int>) {
    && |ids| <= limit
    && (forall i | 0 <= i < |ids| :: ids[i] in s.rows && Claimable(s.rows[ids[i]], s.now, configured))
    && (forall i, j | 0 <= i < j < |ids| :: ids[i] != ids[j] && NotAfter(s.rows[ids[i]], s.rows[ids[j]]))
    && (forall id | id in s.rows && Claimable(s.rows[id], s.now, configured) && id !in ids ::
          |ids| == limit && forall i | 0 <= i < |ids| :: NotAfter(s.rows[ids[i]], s.rows[id]))
  }

  function IdsOf(tokens: seq<Token>): seq<RowId> {
    seq(|tokens|, i requires 0 <= i < |tokens| => tokens[i].id)
  }

  class RuntimeOutboxDispatcher {
    const table: OutboxTable
    const worker: Worker
    const configured: Option<int>
    const batchSize: nat
    const retrySeconds: nat
    var running: bool

    constructor (table: OutboxTable, worker: Worker, configured: Option<int>, batchSize: nat, retrySeconds: nat)
      ensures this.table == table && this.worker == worker && !running
    {
      this.table := table;
      this.worker := worker;
      this.configured := configured;
      this.batchSize := batchSize;
      this.retrySeconds := retrySeconds;
      running := false;
    }

    method Complete(token: Token)
      requires token.worker == worker && token in table.tokens
      requires token.id in table.rows ==> !NeedsReceipt(table.rows[token.id].event)
      modifies table
      ensures table.Model() == Step(old(table.Model()), OutboxRows.Complete(token))
    {
      OnlyThatRow(table.Model(), OutboxRows.Complete(token), token.id);
      if token.id in table.rows && Fence(table.rows[token.id], token) {
        table.rows := table.rows[token.id := CompletedRow(table.rows[token.id])];
      }
    }

    method DeferForDeliveryReceipt(token: Token)
      requires token.worker == worker && token in table.tokens
      requires token.id in table.rows ==> NeedsReceipt(table.rows[token.id].event)
      modifies table
      ensures table.Model() == Step(old(table.Model()), Defer(token, retrySeconds))
    {
      OnlyThatRow(table.Model(), Defer(token, retrySeconds), token.id);
      if token.id in table.rows && Fence(table.rows[token.id], token) {
        table.rows := table.rows[token.id := DeferredRow(table.rows[token.id], table.now, retrySeconds)];
      }
    }

    method Fail(token: Token, terminal: bool)
      requires token.worker == worker && token in table.tokens
      modifies table
      ensures table.Model() == Step(old(table.Model()), OutboxRows.Fail(token, terminal, configured))
    {
      OnlyThatRow(table.Model(), OutboxRows.Fail(token, terminal, configured), token.id);
      if token.id in table.rows && Fence(table.rows[token.id], token) {
        table.rows := table.rows[token.id := FailedRow(table.rows[token.id], table.now, token, terminal, configured)];
      }
    }

    /** The supersession of `prepare`. */
    method SupersedeSnapshots(successor: RowId, aggregate: nat)
      modifies table
      ensures table.Model() == Step(old(table.Model()), Supersede(successor, aggregate))
    {
      table.rows := map id | id in table.rows ::
        if SupersededBy(table.rows[id], id, successor, aggregate) then SupersededRow(table.rows[id]) else table.rows[id];
    }

    method DeadLetterExhaustedReceipts() returns (ghost events: seq<Event>)
      modifies table
      ensures table.Model() == Run(old(table.Model()), events)
      ensures OwnSteps(events, worker) && ClaimCount(events) == 0
      ensures forall id | id in table.rows :: !Exhaustible(table.rows[id], table.now, configured)
      ensures table.rows.Keys == old(table.rows.Keys) && table.tokens == old(table.tokens)
    {
      events := [];
      var left := table.rows.Keys;
      while left != {}
        invariant left <= table.rows.Keys == old(table.rows.Keys)
        invariant table.tokens == old(table.tokens)
        invariant table.Model() == Run(old(table.Model()), events)
        invariant OwnSteps(events, worker) && ClaimCount(events) == 0
        invariant forall id | id in table.rows && id !in left :: !Exhaustible(table.rows[id], table.now, configured)
        decreases |left|
      {
        var id :| id in left;
        ghost var e := DeadLetter(id, configured);
        OneMore(old(table.Model()), events, e);
        OnlyThatRow(table.Model(), e, id);
        if Exhaustible(table.rows[id], table.now, configured) {
          table.rows := table.rows[id := ExhaustedRow(table.rows[id])];
        }
        events := events + [e];
        left := left - {id};
      }
    }

    method First(ids: set<RowId>) returns (first: RowId)
      requires ids != {} && ids <= table.rows.Keys
      ensures first in ids && forall id | id in ids :: NotAfter(table.rows[first], table.rows[id])
    {
      first :| first in ids;
      var left := ids - {first};
      while left != {}
        invariant first in ids && left <= ids
        invariant forall id | id in ids && id !in left :: NotAfter(table.rows[first], table.rows[id])
        decreases |left|
      {
        var id :| id in left;
        if !NotAfter(table.rows[first], table.rows[id]) { first := id; }
        left := left - {id};
      }
    }

    method SelectDue(limit: nat) returns (ids: seq<RowId>)
      ensures IsPick(table.Model(), ids, limit, configured)
    {
      ids := [];
      var left := set id | id in table.rows && Claimable(table.rows[id], table.now, configured);
      while left != {} && |ids| < limit
        invariant |ids| <= limit && left <= table.rows.Keys
        invariant forall i | 0 <= i < |ids| :: ids[i] in table.rows && Claimable(table.rows[ids[i]], table.now, configured) && ids[i] !in left
        invariant forall i, j | 0 <= i < j < |ids| :: ids[i] != ids[j] && NotAfter(table.rows[ids[i]], table.rows[ids[j]])
        invariant forall id, i | id in left && 0 <= i < |ids| :: NotAfter(table.rows[ids[i]], table.rows[id])
        invariant forall id | id in left :: Claimable(table.rows[id], table.now, configured)
        invariant forall id | id in table.rows && Claimable(table.rows[id], table.now, configured) :: id in left || id in ids
        decreases |left|
      {
        var first := First(left);
        ids := ids + [first];
        left := left - {first};
      }
    }

    method ClaimOne(id: RowId, ghost start: State, ghost before: seq<Event>) returns (token: Token, ghost events: seq<Event>)
      requires id in table.rows && Claimable(table.rows[id], table.now, configured)
      requires table.Model() == Run(start, before) && OwnSteps(before, worker)
      modifies table
      ensures table.Model() == Run(start, events) && OwnSteps(events, worker) && ClaimCount(events) == ClaimCount(before) + 1
      ensures token == TokenFor(id, old(table.rows[id]))
      ensures table.rows == old(table.rows)[id := ClaimedRow(old(table.rows[id]), worker, table.now)]
      ensures table.tokens == old(table.tokens) + {token} && table.now == old(table.now)
    {
      events := before + [Claim(worker, id, configured)];
      OneMore(start, before, Claim(worker, id, configured));
      OnlyThatRow(table.Model(), Claim(worker, id, configured), id);
      token := TokenFor(id, table.rows[id]);
      table.rows := table.rows[id := ClaimedRow(table.rows[id], worker, table.now)];
      table.tokens := table.tokens + {token};
    }

    function TokenFor(id: RowId, row: Row): Token {
      Token(worker, id, row.event, row.epoch + 1, row.attempts + 1)
    }

    method ClaimAll(ids: seq<RowId>) returns (claimed: seq<Token>, ghost events: seq<Event>)
      requires forall i | 0 <= i < |ids| :: ids[i] in table.rows && Claimable(table.rows[ids[i]], table.now, configured)
      requires forall i, j | 0 <= i < j < |ids| :: ids[i] != ids[j]
      modifies table
      ensures |claimed| == |ids| && table.now == old(table.now)
      ensures table.rows.Keys == old(table.rows).Keys
      ensures forall i | 0 <= i < |ids| :: claimed[i] == TokenFor(ids[i], old(table.rows)[ids[i]])
      ensures forall i | 0 <= i < |ids| :: table.rows[ids[i]] == ClaimedRow(old(table.rows)[ids[i]], worker, table.now)
      ensures forall i | 0 <= i < |ids| :: claimed[i] in table.tokens
      ensures table.Model() == Run(old(table.Model()), events)
      ensures OwnSteps(events, worker) && ClaimCount(events) == |claimed|
    {
      ghost var was := table.rows;
      ghost var model := table.Model();
      events := [];
      claimed := [];
      for k := 0 to |ids|
        invariant |claimed| == k
        invariant table.now == old(table.now) && table.rows.Keys == was.Keys
        invariant forall i | 0 <= i < k :: claimed[i] == TokenFor(ids[i], was[ids[i]])
        invariant forall i | 0 <= i < k :: table.rows[ids[i]] == ClaimedRow(was[ids[i]], worker, table.now)
        invariant forall i | 0 <= i < k :: claimed[i] in table.tokens
        invariant forall i | k <= i < |ids| :: table.rows[ids[i]] == was[ids[i]]
        invariant table.Model() == Run(model, events)
        invariant OwnSteps(events, worker) && ClaimCount(events) == k
      {
        var token;
        token, events := ClaimOne(ids[k], model, events);
        claimed := claimed + [token];
      }
    }

    /** The claim statement: leases the picked rows and hands out one token each. */
    method ClaimDue(limit: nat) returns (claimed: seq<Token>, ghost picked: seq<RowId>, ghost events: seq<Event>)
      modifies table
      ensures IsPick(old(table.Model()), picked, limit, configured)
      ensures |claimed| == |picked|
      ensures forall i | 0 <= i < |picked| ::
                && picked[i] in table.rows && picked[i] in old(table.rows) && claimed[i] in table.tokens
                && claimed[i] == TokenFor(picked[i], old(table.rows)[picked[i]])
                && table.rows[picked[i]] == ClaimedRow(old(table.rows)[picked[i]], worker, table.now)
      ensures table.Model() == Run(old(table.Model()), events)
      ensures OwnSteps(events, worker) && ClaimCount(events) == |claimed|
    {
      var ids := SelectDue(limit);
      picked := ids;
      claimed, events := ClaimAll(ids);
    }

    /** `prepare`: a final snapshot supersedes the interval snapshots of its run. */
    method Prepare(token: Token, row: Row) returns (ghost events: seq<Event>)
      modifies table
      ensures table.Model() == Run(old(table.Model()), events)
      ensures OwnSteps(events, worker) && ClaimCount(events) == 0
      ensures table.tokens == old(table.tokens) && table.rows.Keys == old(table.rows).Keys && table.now == old(table.now)
      ensures token.id in table.rows ==> table.rows[token.id] == old(table.rows)[token.id]
      ensures row.event.SandboxSnapshot? && row.beforeFinalize ==> Supersede(token.id, row.aggregate) in events
    {
      events := [];
      if row.event.SandboxSnapshot? && row.beforeFinalize {
        ghost var e := Supersede(token.id, row.aggregate);
        OneMore(table.Model(), events, e);
        SupersedeSnapshots(token.id, row.aggregate);
        events := events + [e];
      }
    }

    /** The outcome that belongs to a delivery is among the steps. */
    ghost predicate Reported(events: seq<Event>, token: Token, delivery: Delivery) {
      if delivery.Enqueued? then OutboxRows.Complete(token) in events || Defer(token, retrySeconds) in events
      else OutboxRows.Fail(token, delivery.Unsupported? || delivery.Malformed?, configured) in events
    }

    ghost predicate AllReported(events: seq<Event>, tokens: seq<Token>, deliver: RowId -> Delivery) {
      forall i | 0 <= i < |tokens| :: Reported(events, tokens[i], deliver(tokens[i].id))
    }

    lemma OneMoreReported(events: seq<Event>, longer: seq<Event>, tokens: seq<Token>, token: Token, deliver: RowId -> Delivery)
      requires AllReported(events, tokens, deliver) && events <= longer && Reported(longer, token, deliver(token.id))
      ensures AllReported(longer, tokens + [token], deliver)
    {
      assert forall e | e in events :: e in longer;
    }

    /** What a delivery leaves of a row that is still leased to its token. */
    ghost predicate Concluded(before: Row, after: Row, token: Token, delivery: Delivery, now: nat) {
      && after.owner == None && after.leaseExpires == None
      && match delivery
         case Enqueued =>
           if before.event.Other? then after.completed && !after.deadLettered
           else Open(after) && after.receiptDue == Some(now + if retrySeconds < 30 then 30 else retrySeconds)
         case Unsupported => after.completed && after.deadLettered
         case Malformed => after.completed && after.deadLettered
         case _ =>
           if token.attempts < Cap(configured, before.maxAttempts)
           then Open(after) && after.receiptDue == None && after.available == now + Backoff(token.attempts)
           else after.completed && after.deadLettered
    }

    /** The receipt to wait for, or the completion. */
    method Deliver(token: Token) returns (ghost e: Event)
      requires token.worker == worker && token in table.tokens && token.id in table.rows
      modifies table
      ensures table.Model() == Step(old(table.Model()), e) && OwnStep(e, worker) && !e.Claim?
      ensures e == OutboxRows.Complete(token) || e == Defer(token, retrySeconds)
      ensures token.id in table.rows && !Fence(table.rows[token.id], token)
      ensures var row := old(table.rows)[token.id];
              if Fence(row, token) then Concluded(row, table.rows[token.id], token, Enqueued, table.now) else table.rows == old(table.rows)
    {
      if NeedsReceipt(table.rows[token.id].event) {
        DeferForDeliveryReceipt(token);
        e := Defer(token, retrySeconds);
      } else {
        Complete(token);
        e := OutboxRows.Complete(token);
      }
    }

    /** The receipt to wait for, the completion, or the failure. */
    method Conclude(token: Token, delivery: Delivery) returns (ghost e: Event)
      requires token.worker == worker && token in table.tokens && token.id in table.rows
      modifies table
      ensures table.Model() == Step(old(table.Model()), e) && OwnStep(e, worker) && !e.Claim?
      ensures Reported([e], token, delivery)
      ensures token.id in table.rows && !Fence(table.rows[token.id], token)
      ensures var row := old(table.rows)[token.id];
              if Fence(row, token) then Concluded(row, table.rows[token.id], token, delivery, table.now) else table.rows == old(table.rows)
    {
      if delivery.Enqueued? {
        e := Deliver(token);
      } else {
        Fail(token, Terminal(delivery));
        e := OutboxRows.Fail(token, Terminal(delivery), configured);
      }
    }

    /** One claimed row to its outcome; what is prepared is superseded even when publishing fails. */
    method Settle(token: Token, delivery: Delivery) returns (ghost events: seq<Event>)
      requires token.worker == worker && token in table.tokens && token.id in table.rows
      modifies table
      ensures table.Model() == Run(old(table.Model()), events)
      ensures OwnSteps(events, worker) && ClaimCount(events) == 0
      ensures Reported(events, token, delivery)
      ensures var row := old(table.rows)[token.id];
              !delivery.Unsupported? && !delivery.Unprepared? && row.event.SandboxSnapshot? && row.beforeFinalize ==>
                Supersede(token.id, row.aggregate) in events
      ensures token.id in table.rows && !Fence(table.rows[token.id], token)
      ensures var row := old(table.rows)[token.id];
              if Fence(row, token) then Concluded(row, table.rows[token.id], token, delivery, old(table.now))
              else table.rows[token.id] == row
    {
      ghost var start := table.Model();
      events := [];
      if Prepared(delivery) { events := Prepare(token, table.rows[token.id]); }
      ghost var e := Conclude(token, delivery);
      OneMore(start, events, e);
      events := events + [e];
    }

    ghost predicate Held(tokens: seq<Token>)
      reads table
    {
      forall i | 0 <= i < |tokens| :: tokens[i].worker == worker && tokens[i] in table.tokens && tokens[i].id in table.rows
    }

    function Delivered(tokens: seq<Token>, deliver: RowId -> Delivery): nat
      decreases |tokens|
    {
      if tokens == [] then 0
      else Delivered(tokens[..|tokens| - 1], deliver) + (if deliver(tokens[|tokens| - 1].id).Enqueued? then 1 else 0)
    }

    /** The claims settled so far are no longer leased to this dispatcher. */
    ghost predicate Freed(tokens: seq<Token>)
      reads table
    {
      forall i | 0 <= i < |tokens| && tokens[i].id in table.rows :: !Fence(table.rows[tokens[i].id], tokens[i])
    }

    /** Own steps without claims that took every one of these tokens to the outcome of its delivery. */
    ghost predicate Settled(done: seq<Token>, deliver: RowId -> Delivery, start: State, events: seq<Event>)
      reads table
    {
      && table.Model() == Run(start, events) && OwnSteps(events, worker) && ClaimCount(events) == 0
      && AllReported(events, done, deliver) && Freed(done)
    }

    /** One more claim to its outcome, keeping the earlier ones free. */
    method SettleNext(token: Token, done: seq<Token>, deliver: RowId -> Delivery, ghost start: State, ghost before: seq<Event>)
      returns (ghost events: seq<Event>)
      requires token.worker == worker && token in table.tokens && token.id in table.rows && Settled(done, deliver, start, before)
      modifies table
      ensures table.rows.Keys == old(table.rows).Keys && table.tokens == old(table.tokens)
      ensures Settled(done + [token], deliver, start, events)
    {
      ghost var more := Settle(token, deliver(token.id));
      FencesFall(Run(start, before), more, worker);
      events := Joined(start, before, more, worker);
      OneMoreReported(before, events, done, token, deliver);
    }

    /** The dispatch loop over the claimed rows; afterwards none of them is leased to this claim. */
    method SettleAll(claimed: seq<Token>, deliver: RowId -> Delivery) returns (dispatched: nat, ghost events: seq<Event>)
      requires Held(claimed)
      modifies table
      ensures Settled(claimed, deliver, old(table.Model()), events)
      ensures dispatched == Delivered(claimed, deliver)
    {
      ghost var start := table.Model();
      dispatched := 0;
      events := [];
      for k := 0 to |claimed|
        invariant Held(claimed) && Settled(claimed[..k], deliver, start, events)
        invariant dispatched == Delivered(claimed[..k], deliver)
      {
        assert claimed[..k + 1] == claimed[..k] + [claimed[k]];
        assert claimed[..k + 1][..k] == claimed[..k];
        events := SettleNext(claimed[k], claimed[..k], deliver, start, events);
        if deliver(claimed[k].id).Enqueued? { dispatched := dispatched + 1; }
      }
      assert claimed[..|claimed|] == claimed;
    }

    /** Exhausted receipts are buried first; then the first due rows there are get claimed. */
    method BuryAndClaim() returns (claimed: seq<Token>, ghost buried: seq<Event>, ghost events: seq<Event>)
      modifies table
      ensures table.Model() == Run(old(table.Model()), events) && buried <= events
      ensures OwnSteps(events, worker) && ClaimCount(events) == |claimed| <= batchSize
      ensures IsPick(Run(old(table.Model()), buried), IdsOf(claimed), batchSize, configured)
      ensures Held(claimed)
    {
      ghost var start := table.Model();
      buried := DeadLetterExhaustedReceipts();
      ghost var picked, leases;
      claimed, picked, leases := ClaimDue(batchSize);
      assert IdsOf(claimed) == picked;
      events := buried + leases;
      OutboxTheorems.RunConcat(start, buried, leases);
      CountConcat(buried, leases);
    }

    /**
     * One `dispatchDue` cycle, or nothing while another is still running. It
     * claims the first due rows there are once exhausted receipts are buried.
     */
    method DispatchDue(deliver: RowId -> Delivery)
      returns (dispatched: nat, ghost buried: seq<Event>, ghost claimed: seq<Token>, ghost events: seq<Event>)
      requires this as object != table
      modifies this, table
      ensures running == old(running)
      ensures table.Model() == Run(old(table.Model()), events) && OwnSteps(events, worker)
      ensures ClaimCount(events) == |claimed| <= batchSize && dispatched == Delivered(claimed, deliver)
      ensures old(running) ==> events == [] && claimed == []
      ensures !old(running) ==> buried <= events && IsPick(Run(old(table.Model()), buried), IdsOf(claimed), batchSize, configured)
      ensures Freed(claimed) && AllReported(events, claimed, deliver)
    {
      if running { return 0, [], [], []; }
      running := true;
      ghost var start := table.Model();
      var tokens;
      ghost var leases, outcomes;
      tokens, buried, leases := BuryAndClaim();
      dispatched, outcomes := SettleAll(tokens, deliver);
      claimed := tokens;
      events := leases + outcomes;
      OutboxTheorems.RunConcat(start, leases, outcomes);
      CountConcat(leases, outcomes);
      running := false;
    }
  }
}
