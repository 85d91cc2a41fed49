/**
 * Budget reservations and the credit ledger: admission posts one positive
 * entry per scope, and either an expired admission or the orphan cleanup
 * takes it back, whichever comes first.
 */
module BudgetLedger {
  import opened Options
  import opened Sequences

  type Request = nat

  datatype Scope = Org | Department(id: nat) | User(id: nat)

  datatype Kind = Reserve | Reconcile | Release

  datatype Status = Reserved | Reconciled | Released

  /** The reservation of one request; requests are numbered in admission order. */
  datatype Reservation = Reservation(department: Option<nat>, user: Option<nat>, amount: nat, status: Status)

  datatype Entry = Entry(request: Request, scope: Scope, kind: Kind, amount: int, balanceAfter: Option<int>)

  datatype Books = Books(reservations: seq<Reservation>, entries: seq<Entry>)

  datatype Event =
    | Admit(department: Option<nat>, user: Option<nat>, amount: nat)
    | RecoverExpired(request: Request)
    | ReleaseOrphan(request: Request)

  function Scopes(r: Reservation): seq<Scope> {
    [Org]
    + (if r.department.Some? then [Department(r.department.value)] else [])
    + (if r.user.Some? then [User(r.user.value)] else [])
  }

  /** The unique key of the ledger. */
  predicate Has(entries: seq<Entry>, request: Request, scope: Scope, kind: Kind) {
    exists i | 0 <= i < |entries| :: entries[i].request == request && entries[i].scope == scope && entries[i].kind == kind
  }

  function Total(entries: seq<Entry>, scope: Scope): int {
    if entries == [] then 0
    else Total(entries[..|entries| - 1], scope) + (if entries[|entries| - 1].scope == scope then entries[|entries| - 1].amount else 0)
  }

  function RequestTotal(entries: seq<Entry>, request: Request, scope: Scope): int {
    if entries == [] then 0
    else
      var last := entries[|entries| - 1];
      RequestTotal(entries[..|entries| - 1], request, scope)
      + (if last.scope == scope && last.request == request then last.amount else 0)
  }

  /** `INSERT ... ON CONFLICT (request, scope, kind) DO NOTHING`. */
  function Post(entries: seq<Entry>, entry: Entry): seq<Entry> {
    if Has(entries, entry.request, entry.scope, entry.kind) then entries else entries + [entry]
  }

  /** One entry per scope; the recovery also records the balance each entry leaves. */
  function PostScopes(entries: seq<Entry>, request: Request, scopes: seq<Scope>, kind: Kind, amount: int): seq<Entry>
    decreases |scopes|
  {
    if scopes == [] then entries
    else
      var before := PostScopes(entries, request, scopes[..|scopes| - 1], kind, amount);
      var scope := scopes[|scopes| - 1];
      Post(before, ScopeEntry(before, request, scope, kind, amount))
  }

  function Closed(books: Books, request: Request, status: Status, kind: Kind): Books {
    if request < |books.reservations| && books.reservations[request].status == Reserved then
      var r := books.reservations[request];
      Books(books.reservations[request := r.(status := status)], PostScopes(books.entries, request, Scopes(r), kind, 0 - r.amount))
    else books
  }

  function Step(books: Books, e: Event): Books {
    match e
    case Admit(department, user, amount) =>
      var r := Reservation(department, user, amount, Reserved);
      Books(books.reservations + [r], PostScopes(books.entries, |books.reservations|, Scopes(r), Reserve, amount))
    case RecoverExpired(request) => Closed(books, request, Reconciled, Reconcile)
    case ReleaseOrphan(request) => Closed(books, request, Released, Release)
  }

  function Run(events: seq<Event>): Books {
    if events == [] then Books([], []) else Step(Run(events[..|events| - 1]), events[|events| - 1])
  }

  // ----- what each request's entries are -----

  /** The organization, and the department and the user the reservation names. */
  predicate Charged(r: Reservation, scope: Scope) {
    match scope
    case Org => true
    case Department(id) => r.department == Some(id)
    case User(id) => r.user == Some(id)
  }

  lemma ScopesAreCharged(r: Reservation)
    ensures Distinct(Scopes(r)) && forall scope :: scope in Scopes(r) <==> Charged(r, scope)
  {}

  lemma ScopeIsCharged(r: Reservation, scope: Scope)
    ensures scope in Scopes(r) <==> Charged(r, scope)
  {}

  predicate Posted(r: Reservation, scope: Scope, kind: Kind) {
    && Charged(r, scope)
    && (kind == Reserve || (kind == Reconcile && r.status == Reconciled) || (kind == Release && r.status == Released))
  }

  ghost predicate EntriesOk(books: Books, request: Request, scope: Scope, kind: Kind) {
    Has(books.entries, request, scope, kind) <==> request < |books.reservations| && Posted(books.reservations[request], scope, kind)
  }

  function Outstanding(r: Reservation, scope: Scope): nat {
    if r.status == Reserved && Charged(r, scope) then r.amount else 0
  }

  function Held(reservations: seq<Reservation>, scope: Scope): nat {
    if reservations == [] then 0
    else Held(reservations[..|reservations| - 1], scope) + Outstanding(reservations[|reservations| - 1], scope)
  }

  ghost predicate Balanced(books: Books, scope: Scope) {
    && Total(books.entries, scope) == Held(books.reservations, scope)
    && forall request: Request ::
         RequestTotal(books.entries, request, scope)
         == (if request < |books.reservations| then Outstanding(books.reservations[request], scope) else 0)
  }

  ghost predicate Inv(books: Books) {
    && (forall request: Request, scope, kind :: EntriesOk(books, request, scope, kind))
    && (forall scope :: Balanced(books, scope))
  }

  // ----- posting -----

  lemma HasAppended(entries: seq<Entry>, entry: Entry, request: Request, scope: Scope, kind: Kind)
    ensures Has(entries + [entry], request, scope, kind)
            <==> Has(entries, request, scope, kind) || (entry.request == request && entry.scope == scope && entry.kind == kind)
  {
    var all := entries + [entry];
    assert all[|entries|] == entry;
    if i :| 0 <= i < |entries| && entries[i].request == request && entries[i].scope == scope && entries[i].kind == kind {
      assert all[i] == entries[i];
    }
  }

  lemma {:induction false} PostedKeys(
    entries: seq<Entry>, request: Request, scopes: seq<Scope>, kind: Kind, amount: int, r: Request, s: Scope, k: Kind)
    ensures Has(PostScopes(entries, request, scopes, kind, amount), r, s, k)
            <==> Has(entries, r, s, k) || (r == request && k == kind && s in scopes)
    decreases |scopes|
  {
    if scopes != [] {
      var n := |scopes| - 1;
      PostedKeys(entries, request, scopes[..n], kind, amount, r, s, k);
      var before := PostScopes(entries, request, scopes[..n], kind, amount);
      var entry := ScopeEntry(before, request, scopes[n], kind, amount);
      HasAppended(before, entry, r, s, k);
      assert scopes == scopes[..n] + [scopes[n]];
    }
  }

  /** Each scope moves by the amount once, and by nothing when its entry is already there. */
  lemma {:induction false} PostedTotals(
    entries: seq<Entry>, request: Request, scopes: seq<Scope>, kind: Kind, amount: int, r: Request, s: Scope)
    requires Distinct(scopes)
    requires forall i | 0 <= i < |scopes| :: !Has(entries, request, scopes[i], kind)
    ensures var after := PostScopes(entries, request, scopes, kind, amount);
            && Total(after, s) == Total(entries, s) + (if s in scopes then amount else 0)
            && RequestTotal(after, r, s) == RequestTotal(entries, r, s) + (if s in scopes && r == request then amount else 0)
    decreases |scopes|
  {
    if scopes != [] {
      var n := |scopes| - 1;
      PostedTotals(entries, request, scopes[..n], kind, amount, r, s);
      var before := PostScopes(entries, request, scopes[..n], kind, amount);
      PostedKeys(entries, request, scopes[..n], kind, amount, request, scopes[n], kind);
      NotBefore(scopes);
      PostedOne(before, ScopeEntry(before, request, scopes[n], kind, amount), r, s);
    }
  }

  lemma NotBefore(scopes: seq<Scope>)
    requires Distinct(scopes) && scopes != []
    ensures var n := |scopes| - 1;
            scopes[n] !in scopes[..n] && forall s :: s in scopes <==> s in scopes[..n] || s == scopes[n]
  {
    assert scopes == scopes[..|scopes| - 1] + [scopes[|scopes| - 1]];
  }

  lemma PostedOne(entries: seq<Entry>, entry: Entry, r: Request, s: Scope)
    requires !Has(entries, entry.request, entry.scope, entry.kind)
    ensures Total(Post(entries, entry), s) == Total(entries, s) + (if entry.scope == s then entry.amount else 0)
    ensures RequestTotal(Post(entries, entry), r, s)
            == RequestTotal(entries, r, s) + (if entry.scope == s && entry.request == r then entry.amount else 0)
  {
    assert (entries + [entry])[..|entries|] == entries;
  }

  lemma {:induction false} HeldUpdated(reservations: seq<Reservation>, request: Request, r: Reservation, scope: Scope)
    requires request < |reservations|
    ensures Held(reservations[request := r], scope)
            == Held(reservations, scope) - Outstanding(reservations[request], scope) + Outstanding(r, scope)
    decreases |reservations|
  {
    var n := |reservations| - 1;
    if request == n {
      assert reservations[request := r][..n] == reservations[..n];
    } else {
      assert reservations[request := r][..n] == reservations[..n][request := r];
      HeldUpdated(reservations[..n], request, r, scope);
    }
  }

  // ----- steps -----

  ghost predicate Closing(books: Books, request: Request, status: Status, kind: Kind) {
    && request < |books.reservations| && books.reservations[request].status == Reserved
    && ((status == Reconciled && kind == Reconcile) || (status == Released && kind == Release))
  }

  lemma ClosedKeepsKeys(books: Books, request: Request, status: Status, kind: Kind, q: Request, s: Scope, k: Kind)
    requires Inv(books) && Closing(books, request, status, kind)
    ensures EntriesOk(Closed(books, request, status, kind), q, s, k)
  {
    var r := books.reservations[request];
    assert EntriesOk(books, q, s, k);
    ScopeIsCharged(r, s);
    PostedKeys(books.entries, request, Scopes(r), kind, 0 - r.amount, q, s, k);
  }

  lemma NothingPosted(books: Books, request: Request, status: Status, kind: Kind)
    requires Inv(books) && Closing(books, request, status, kind)
    ensures var scopes := Scopes(books.reservations[request]);
            forall i | 0 <= i < |scopes| :: !Has(books.entries, request, scopes[i], kind)
  {
    var scopes := Scopes(books.reservations[request]);
    forall i | 0 <= i < |scopes| ensures !Has(books.entries, request, scopes[i], kind) {
      assert EntriesOk(books, request, scopes[i], kind);
    }
  }

  /** Giving a reserved amount back to its scopes. */
  lemma GivenBack(entries: seq<Entry>, request: Request, r: Reservation, kind: Kind, q: Request, s: Scope)
    requires r.status == Reserved && forall i | 0 <= i < |Scopes(r)| :: !Has(entries, request, Scopes(r)[i], kind)
    ensures var after := PostScopes(entries, request, Scopes(r), kind, 0 - r.amount);
            && Total(after, s) == Total(entries, s) - Outstanding(r, s)
            && RequestTotal(after, q, s) == RequestTotal(entries, q, s) - (if q == request then Outstanding(r, s) else 0)
  {
    ScopesAreCharged(r);
    PostedTotals(entries, request, Scopes(r), kind, 0 - r.amount, q, s);
  }

  /** What closing a reservation does to one scope. */
  lemma ClosedTotals(books: Books, request: Request, status: Status, kind: Kind, q: Request, s: Scope)
    requires Inv(books) && Closing(books, request, status, kind)
    ensures var t := Closed(books, request, status, kind);
            var given := Outstanding(books.reservations[request], s);
            && Total(t.entries, s) == Total(books.entries, s) - given
            && RequestTotal(t.entries, q, s) == RequestTotal(books.entries, q, s) - (if q == request then given else 0)
  {
    var r := books.reservations[request];
    NothingPosted(books, request, status, kind);
    assert Closed(books, request, status, kind).entries == PostScopes(books.entries, request, Scopes(r), kind, 0 - r.amount);
    GivenBack(books.entries, request, r, kind, q, s);
  }

  lemma ClosedKeepsBalance(books: Books, request: Request, status: Status, kind: Kind, s: Scope)
    requires Inv(books) && Closing(books, request, status, kind)
    ensures Balanced(Closed(books, request, status, kind), s)
  {
    var t := Closed(books, request, status, kind);
    assert Balanced(books, s);
    HeldUpdated(books.reservations, request, books.reservations[request].(status := status), s);
    ClosedTotals(books, request, status, kind, request, s);
    forall q: Request
      ensures RequestTotal(t.entries, q, s) == (if q < |t.reservations| then Outstanding(t.reservations[q], s) else 0)
    {
      ClosedTotals(books, request, status, kind, q, s);
    }
  }

  lemma ClosedKeeps(books: Books, request: Request, status: Status, kind: Kind)
    requires Inv(books) && Closing(books, request, status, kind)
    ensures Inv(Closed(books, request, status, kind))
  {
    var t := Closed(books, request, status, kind);
    forall q: Request, s, k ensures EntriesOk(t, q, s, k) { ClosedKeepsKeys(books, request, status, kind, q, s, k); }
    forall s ensures Balanced(t, s) { ClosedKeepsBalance(books, request, status, kind, s); }
  }

  lemma AdmitKeepsKeys(books: Books, e: Event, q: Request, s: Scope, k: Kind)
    requires Inv(books) && e.Admit?
    ensures EntriesOk(Step(books, e), q, s, k)
  {
    var request := |books.reservations|;
    var r := Step(books, e).reservations[request];
    assert EntriesOk(books, q, s, k);
    ScopeIsCharged(r, s);
    PostedKeys(books.entries, request, Scopes(r), Reserve, r.amount, q, s, k);
  }

  /** What an admission does to one scope. */
  lemma AdmitTotals(books: Books, e: Event, q: Request, s: Scope)
    requires Inv(books) && e.Admit?
    ensures var t, request := Step(books, e), |books.reservations|;
            var given := Outstanding(t.reservations[request], s);
            && Total(t.entries, s) == Total(books.entries, s) + given
            && RequestTotal(t.entries, q, s) == RequestTotal(books.entries, q, s) + (if q == request then given else 0)
  {
    var request := |books.reservations|;
    var r := Step(books, e).reservations[request];
    forall scope | scope in Scopes(r) ensures !Has(books.entries, request, scope, Reserve) {
      assert EntriesOk(books, request, scope, Reserve);
    }
    ScopesAreCharged(r);
    PostedTotals(books.entries, request, Scopes(r), Reserve, r.amount, q, s);
  }

  lemma AdmitKeepsBalance(books: Books, e: Event, s: Scope)
    requires Inv(books) && e.Admit?
    ensures Balanced(Step(books, e), s)
  {
    var t := Step(books, e);
    var request := |books.reservations|;
    assert Balanced(books, s);
    assert t.reservations[..request] == books.reservations;
    forall q: Request
      ensures RequestTotal(t.entries, q, s) == (if q < |t.reservations| then Outstanding(t.reservations[q], s) else 0)
    {
      AdmitTotals(books, e, q, s);
    }
    AdmitTotals(books, e, request, s);
  }

  lemma AdmitKeeps(books: Books, e: Event)
    requires Inv(books) && e.Admit?
    ensures Inv(Step(books, e))
  {
    forall q: Request, s, k ensures EntriesOk(Step(books, e), q, s, k) { AdmitKeepsKeys(books, e, q, s, k); }
    forall s ensures Balanced(Step(books, e), s) { AdmitKeepsBalance(books, e, s); }
  }

  lemma StepKeeps(books: Books, e: Event)
    requires Inv(books)
    ensures Inv(Step(books, e))
  {
    match e
    case Admit(_, _, _) => AdmitKeeps(books, e);
    case RecoverExpired(request) =>
      if request < |books.reservations| && books.reservations[request].status == Reserved {
        ClosedKeeps(books, request, Reconciled, Reconcile);
      }
    case ReleaseOrphan(request) =>
      if request < |books.reservations| && books.reservations[request].status == Reserved {
        ClosedKeeps(books, request, Released, Release);
      }
  }

  lemma {:induction false} EveryRunBalances(events: seq<Event>)
    ensures Inv(Run(events))
    decreases |events|
  {
    if events != [] {
      EveryRunBalances(events[..|events| - 1]);
      StepKeeps(Run(events[..|events| - 1]), events[|events| - 1]);
    }
  }

  // ----- conservation -----

  /**
   * Every scope's balance is what is reserved in it, and each request
   * contributes its amount, while it is reserved, to the organization, its
   * department and its user, and nothing to any other scope or afterwards.
   */
  lemma BalanceIsReserved(events: seq<Event>, request: Request, scope: Scope)
    requires request < |Run(events).reservations|
    ensures var books := Run(events);
            var r := books.reservations[request];
            && Total(books.entries, scope) == Held(books.reservations, scope)
            && RequestTotal(books.entries, request, scope) == match scope
               case Org => if r.status == Reserved then r.amount else 0
               case Department(d) => if r.status == Reserved && r.department == Some(d) then r.amount else 0
               case User(u) => if r.status == Reserved && r.user == Some(u) then r.amount else 0
  {
    EveryRunBalances(events);
    assert Balanced(Run(events), scope);
  }

  /**
   * A reservation has its entry in exactly the organization, its department
   * and its user, and is given back there by exactly one of the two paths.
   */
  lemma ReleasedOnce(events: seq<Event>, request: Request, scope: Scope)
    requires request < |Run(events).reservations|
    ensures var books := Run(events);
            var r := books.reservations[request];
            && (Has(books.entries, request, scope, Reserve) <==>
                  scope == Org || (scope.Department? && r.department == Some(scope.id)) || (scope.User? && r.user == Some(scope.id)))
            && (Has(books.entries, request, scope, Reconcile) <==>
                  Has(books.entries, request, scope, Reserve) && r.status == Reconciled)
            && (Has(books.entries, request, scope, Release) <==>
                  Has(books.entries, request, scope, Reserve) && r.status == Released)
  {
    EveryRunBalances(events);
    assert EntriesOk(Run(events), request, scope, Reserve);
    assert EntriesOk(Run(events), request, scope, Reconcile);
    assert EntriesOk(Run(events), request, scope, Release);
  }

  /** An admission adds its reservation; the two paths close one that is still reserved, and touch no other. */
  lemma EventCloses(events: seq<Event>, e: Event)
    ensures var before, after := Run(events).reservations, Run(events + [e]).reservations;
            && (e.Admit? ==> after == before + [Reservation(e.department, e.user, e.amount, Reserved)])
            && (!e.Admit? ==>
                  && |after| == |before|
                  && forall p | 0 <= p < |after| ::
                       after[p] == if p != e.request || before[p].status != Reserved then before[p]
                                   else before[p].(status := if e.RecoverExpired? then Reconciled else Released))
  {
    assert (events + [e])[..|events|] == events;
  }

  /** Once a reservation is closed, repeating either path changes nothing at all. */
  lemma ClosedIsFinal(events: seq<Event>, more: Event, request: Request)
    requires request < |Run(events).reservations| && Run(events).reservations[request].status != Reserved
    requires more == RecoverExpired(request) || more == ReleaseOrphan(request)
    ensures Run(events + [more]) == Run(events)
  {
    assert (events + [more])[..|events|] == events;
  }

  /** The recorded balance of a recovery entry is the balance of its scope once the entry is in. */
  ghost predicate BalanceTrue(entries: seq<Entry>) {
    forall i | 0 <= i < |entries| && entries[i].balanceAfter.Some? ::
      entries[i].balanceAfter.value == Total(entries[..i + 1], entries[i].scope)
  }

  lemma PostBalance(entries: seq<Entry>, entry: Entry)
    requires BalanceTrue(entries)
    requires entry.balanceAfter.Some? ==> entry.balanceAfter.value == Total(entries, entry.scope) + entry.amount
    ensures BalanceTrue(Post(entries, entry))
  {
    var all := entries + [entry];
    forall i | 0 <= i < |all| && all[i].balanceAfter.Some? ensures all[i].balanceAfter.value == Total(all[..i + 1], all[i].scope) {
      if i < |entries| {
        assert all[..i + 1] == entries[..i + 1];
      } else {
        assert all[..i + 1] == all;
      }
    }
  }

  /** The entry a posting adds for one scope. */
  function ScopeEntry(before: seq<Entry>, request: Request, scope: Scope, kind: Kind, amount: int): Entry {
    Entry(request, scope, kind, amount, if kind.Reconcile? then Some(Total(before, scope) + amount) else None)
  }

  lemma {:induction false} PostScopesBalance(entries: seq<Entry>, request: Request, scopes: seq<Scope>, kind: Kind, amount: int)
    requires BalanceTrue(entries)
    ensures BalanceTrue(PostScopes(entries, request, scopes, kind, amount))
    decreases |scopes|
  {
    if scopes != [] {
      var n := |scopes| - 1;
      PostScopesBalance(entries, request, scopes[..n], kind, amount);
      var before := PostScopes(entries, request, scopes[..n], kind, amount);
      PostBalance(before, ScopeEntry(before, request, scopes[n], kind, amount));
    }
  }

  lemma StepRecords(books: Books, e: Event)
    requires BalanceTrue(books.entries)
    ensures BalanceTrue(Step(books, e).entries)
  {
    match e
    case Admit(department, user, amount) =>
      PostScopesBalance(books.entries, |books.reservations|, Scopes(Reservation(department, user, amount, Reserved)), Reserve, amount);
    case RecoverExpired(request) => ClosingRecords(books, request, Reconciled, Reconcile);
    case ReleaseOrphan(request) => ClosingRecords(books, request, Released, Release);
  }

  lemma ClosingRecords(books: Books, request: Request, status: Status, kind: Kind)
    requires BalanceTrue(books.entries)
    ensures BalanceTrue(Closed(books, request, status, kind).entries)
  {
    if request < |books.reservations| {
      PostScopesBalance(books.entries, request, Scopes(books.reservations[request]), kind, 0 - books.reservations[request].amount);
    }
  }

  lemma {:induction false} RecordedBalancesAreTrue(events: seq<Event>)
    ensures BalanceTrue(Run(events).entries)
    decreases |events|
  {
    if events != [] {
      RecordedBalancesAreTrue(events[..|events| - 1]);
      StepRecords(Run(events[..|events| - 1]), events[|events| - 1]);
    }
  }

  // ----- the recovery loop -----

  class BudgetTables {
    var reservations: seq<Reservation>
    var entries: seq<Entry>

    function Contents(): Books
      reads this
    {
      Books(reservations, entries)
    }

    method ScopeTotal(scope: Scope) returns (total: int)
      ensures total == Total(entries, scope)
    {
      total := 0;
      for i := 0 to |entries|
        invariant total == Total(entries[..i], scope)
      {
        assert entries[..i + 1][..i] == entries[..i];
        if entries[i].scope == scope { total := total + entries[i].amount; }
      }
      assert entries[..|entries|] == entries;
    }

    /** `recoverExpiredAdmissions` for the expired requests, in order. */
    method RecoverExpiredAdmissions(expired: seq<Request>)
      modifies this
      ensures Contents() == RecoveredAll(old(Contents()), expired)
      ensures Recovered(old(reservations), reservations, expired)
      ensures old(Inv(Contents())) ==> Inv(Contents())
    {
      for i := 0 to |expired|
        invariant Contents() == RecoveredAll(old(Contents()), expired[..i])
      {
        assert expired[..i + 1][..i] == expired[..i];
        var request := expired[i];
        if request < |reservations| && reservations[request].status == Reserved {
          var reservation := reservations[request];
          reservations := reservations[request := reservation.(status := Reconciled)];
          PostReconciliation(request, Scopes(reservation), 0 - reservation.amount);
        }
      }
      assert expired[..|expired|] == expired;
      RecoveredAllCloses(old(Contents()), expired);
    }

    method PostReconciliation(request: Request, scopes: seq<Scope>, adjustment: int)
      modifies this`entries
      ensures entries == PostScopes(old(entries), request, scopes, Reconcile, adjustment)
    {
      for i := 0 to |scopes|
        invariant entries == PostScopes(old(entries), request, scopes[..i], Reconcile, adjustment)
      {
        assert scopes[..i + 1][..i] == scopes[..i];
        var prior := ScopeTotal(scopes[i]);
        if !Has(entries, request, scopes[i], Reconcile) {
          entries := entries + [Entry(request, scopes[i], Reconcile, adjustment, Some(prior + adjustment))];
        }
      }
      assert scopes[..|scopes|] == scopes;
    }
  }

  /** Exactly the listed reservations that were still reserved are reconciled now. */
  ghost predicate Recovered(before: seq<Reservation>, after: seq<Reservation>, expired: seq<Request>) {
    && |after| == |before|
    && forall q | 0 <= q < |after| ::
         after[q] == if q in expired && before[q].status == Reserved then before[q].(status := Reconciled) else before[q]
  }

  lemma {:induction false} RecoveredAllCloses(books: Books, expired: seq<Request>)
    ensures Recovered(books.reservations, RecoveredAll(books, expired).reservations, expired)
    ensures Inv(books) ==> Inv(RecoveredAll(books, expired))
    decreases |expired|
  {
    if expired != [] {
      var n := |expired| - 1;
      RecoveredAllCloses(books, expired[..n]);
      assert expired == expired[..n] + [expired[n]];
      if Inv(books) { StepKeeps(RecoveredAll(books, expired[..n]), RecoverExpired(expired[n])); }
    }
  }

  function RecoveredAll(books: Books, expired: seq<Request>): Books
    decreases |expired|
  {
    if expired == [] then books
    else Step(RecoveredAll(books, expired[..|expired| - 1]), RecoverExpired(expired[|expired| - 1]))
  }
}
