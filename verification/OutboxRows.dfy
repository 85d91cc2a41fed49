/**
 * `runtime_outbox` rows and every statement that changes one: claims, the
 * dispatcher's three fenced outcomes, worker receipts, supersession, dead
 * letters and the upserts that reopen a row. Each row carries the history of
 * what took effect on it.
 */
module OutboxRows {
  import opened Options
  import opened Numbers

  type RowId = string
  type Worker = nat

  datatype EventType =
    | TurnExecute | TurnResume | SandboxSnapshot
    | DeleteObject | DeleteBlob | VerifyBlob
    | Other(name: string)

  predicate NeedsReceipt(event: EventType) {
    !event.Other?
  }

  datatype Act = Claimed | Completed | Deferred | Failed | Received | Superseded | Exhausted

  /** Something that took effect while the row was at this lease epoch. */
  datatype Entry = Entry(epoch: nat, act: Act)

  datatype Row = Row(
    event: EventType,
    aggregate: nat,
    beforeFinalize: bool,
    completed: bool,
    deadLettered: bool,
    available: nat,
    receiptDue: Option<nat>,
    owner: Option<Worker>,
    leaseExpires: Option<nat>,
    epoch: nat,
    attempts: nat,
    maxAttempts: int,
    priority: nat,
    firstAvailable: nat,
    created: nat,
    history: seq<Entry>)

  /** What a claim hands to its dispatcher. */
  datatype Token = Token(worker: Worker, id: RowId, event: EventType, epoch: nat, attempts: nat)

  datatype State = State(now: nat, rows: map<RowId, Row>, used: set<RowId>, tokens: set<Token>)

  datatype Event =
    | Tick(seconds: nat)
    | Insert(id: RowId, event: EventType, aggregate: nat, beforeFinalize: bool, available: nat, maxAttempts: int, priority: nat, firstAvailable: nat)
    | Prune(id: RowId)
    | Claim(worker: Worker, id: RowId, configured: Option<int>)
    | Complete(token: Token)
    | Defer(token: Token, retrySeconds: nat)
    | Fail(token: Token, terminal: bool, configured: Option<int>)
    | Receipt(id: RowId, epoch: nat)
    | Supersede(successor: RowId, aggregate: nat)
    | Cancel(id: RowId)
    | DeadLetter(id: RowId, configured: Option<int>)
    | Reopen(id: RowId, available: nat)
    | Revive(id: RowId, available: nat, clearLease: bool)

  const LEASE_SECONDS := 30
  const MAX_CAP := 100

  /** `LEAST(100,GREATEST(1,COALESCE(configured,max_attempts)))`. */
  function Cap(configured: Option<int>, maxAttempts: int): nat {
    var wanted := configured.GetOr(maxAttempts);
    if wanted < 1 then 1 else if wanted > MAX_CAP then MAX_CAP else wanted
  }

  function DueAt(row: Row): nat {
    row.receiptDue.GetOr(row.available)
  }

  predicate Unleased(row: Row, now: nat) {
    row.leaseExpires.None? || row.leaseExpires.value <= now
  }

  predicate Open(row: Row) {
    !row.completed && !row.deadLettered
  }

  predicate NotYounger(a: Row, b: Row) {
    a.firstAvailable < b.firstAvailable || (a.firstAvailable == b.firstAvailable && a.created <= b.created)
  }

  /** The order of the claim: priority class, due time, first availability, age. */
  predicate NotAfter(a: Row, b: Row) {
    || a.priority < b.priority
    || (a.priority == b.priority && (DueAt(a) < DueAt(b) || (DueAt(a) == DueAt(b) && NotYounger(a, b))))
  }

  /** The `due` query of the claim. */
  predicate Claimable(row: Row, now: nat, configured: Option<int>) {
    && Open(row) && DueAt(row) <= now && Unleased(row, now)
    && (NeedsReceipt(row.event) ==> row.attempts < Cap(configured, row.maxAttempts))
  }

  /** The condition of `deadLetterExhaustedReceipts`. */
  predicate Exhaustible(row: Row, now: nat, configured: Option<int>) {
    && NeedsReceipt(row.event) && Open(row) && DueAt(row) <= now && Unleased(row, now)
    && row.attempts >= Cap(configured, row.maxAttempts)
  }

  /** The fence of `complete`, `deferForDeliveryReceipt` and `fail`. */
  predicate Fence(row: Row, token: Token) {
    row.owner == Some(token.worker) && row.epoch == token.epoch && Open(row)
  }

  function Noted(row: Row, act: Act): Row {
    row.(history := row.history + [Entry(row.epoch, act)])
  }

  function Unlocked(row: Row): Row {
    row.(owner := None, leaseExpires := None)
  }

  function ClaimedRow(row: Row, worker: Worker, now: nat): Row {
    Noted(row.(owner := Some(worker), leaseExpires := Some(now + LEASE_SECONDS), receiptDue := None,
               epoch := row.epoch + 1, attempts := row.attempts + 1), Claimed)
  }

  function CompletedRow(row: Row): Row {
    Noted(Unlocked(row).(completed := true, receiptDue := None), Completed)
  }

  function DeferredRow(row: Row, now: nat, retrySeconds: nat): Row {
    Noted(Unlocked(row).(receiptDue := Some(now + Max(retrySeconds, LEASE_SECONDS))), Deferred)
  }

  function Pow2(n: nat): nat {
    if n == 0 then 1 else 2 * Pow2(n - 1)
  }

  function Backoff(attempts: nat): nat {
    Min(300, Pow2(Min(attempts, 8)))
  }

  function FailedRow(row: Row, now: nat, token: Token, terminal: bool, configured: Option<int>): Row {
    var free := Unlocked(row).(receiptDue := None);
    Noted(if terminal || token.attempts >= Cap(configured, row.maxAttempts)
          then free.(completed := true, deadLettered := true)
          else free.(available := now + Backoff(token.attempts)), Failed)
  }

  function ReceivedRow(row: Row): Row {
    Noted(Unlocked(row).(completed := true, receiptDue := None), Received)
  }

  function SupersededRow(row: Row): Row {
    Noted(Unlocked(row).(completed := true), Superseded)
  }

  function ExhaustedRow(row: Row): Row {
    Noted(Unlocked(row).(completed := true, deadLettered := true, receiptDue := None), Exhausted)
  }

  predicate SupersededBy(row: Row, id: RowId, successor: RowId, aggregate: nat) {
    id != successor && row.aggregate == aggregate && row.event.SandboxSnapshot? && !row.completed && !row.beforeFinalize
  }

  /** One row under one statement; `id` is the row's own id. */
  function RowStep(row: Row, id: RowId, now: nat, tokens: set<Token>, e: Event): Row {
    match e
    case Claim(worker, target, configured) =>
      if target == id && Claimable(row, now, configured) then ClaimedRow(row, worker, now) else row
    case Complete(token) =>
      if token.id == id && token in tokens && !NeedsReceipt(row.event) && Fence(row, token) then CompletedRow(row) else row
    case Defer(token, retry) =>
      if token.id == id && token in tokens && NeedsReceipt(row.event) && Fence(row, token) then DeferredRow(row, now, retry) else row
    case Fail(token, terminal, configured) =>
      if token.id == id && token in tokens && Fence(row, token) then FailedRow(row, now, token, terminal, configured) else row
    case Receipt(target, epoch) =>
      if target == id && Open(row) && row.epoch == epoch then ReceivedRow(row) else row
    case Supersede(successor, aggregate) =>
      if SupersededBy(row, id, successor, aggregate) then SupersededRow(row) else row
    case Cancel(target) =>
      if target == id && !row.completed then row.(completed := true) else row
    case DeadLetter(target, configured) =>
      if target == id && Exhaustible(row, now, configured) then ExhaustedRow(row) else row
    case Reopen(target, available) =>
      if target == id then row.(completed := false, available := available) else row
    case Revive(target, available, clearLease) =>
      if target != id then row
      else
        var cleared := row.(completed := false, deadLettered := false, receiptDue := None, available := available);
        if clearLease then Unlocked(cleared) else cleared
    case _ => row
  }

  function Stepped(s: State, e: Event): map<RowId, Row> {
    map id | id in s.rows :: RowStep(s.rows[id], id, s.now, s.tokens, e)
  }

  function FreshRow(e: Event, now: nat): Row
    requires e.Insert?
  {
    Row(e.event, e.aggregate, e.beforeFinalize, false, false, e.available, None, None, None, 0, 0, e.maxAttempts, e.priority, e.firstAvailable, now, [])
  }

  function Step(s: State, e: Event): State {
    match e
    case Tick(seconds) => s.(now := s.now + seconds)
    case Insert(id, _, _, _, _, _, _, _) =>
      if id in s.used then s else s.(rows := s.rows[id := FreshRow(e, s.now)], used := s.used + {id})
    case Prune(id) =>
      if id in s.rows && s.rows[id].completed then s.(rows := s.rows - {id}) else s
    case Claim(worker, id, configured) =>
      if id in s.rows && Claimable(s.rows[id], s.now, configured)
      then s.(rows := Stepped(s, e), tokens := s.tokens + {Token(worker, id, s.rows[id].event, s.rows[id].epoch + 1, s.rows[id].attempts + 1)})
      else s
    case _ => s.(rows := Stepped(s, e))
  }

  function Run(s: State, events: seq<Event>): State
    decreases |events|
  {
    if events == [] then s else Step(Run(s, events[..|events| - 1]), events[|events| - 1])
  }

  const Initial := State(0, map[], {}, {})
}
