/** The lease row of a session: who may take it, extend it and give it up, read off its fields. */
module CompactionLease {
  import opened Options
  import opened CompactionPrefix
  import opened CompactionProtocol

  /** Nobody else's lease is running. */
  ghost predicate FreeFor(lease: Option<Lease>, now: nat, owner: Owner) {
    lease.Some? && lease.value.owner != owner ==> lease.value.expires <= now
  }

  ghost predicate HeldBy(lease: Option<Lease>, owner: Owner) {
    lease.Some? && lease.value.owner == owner
  }

  ghost predicate SameButLease(s: State, t: State) {
    t.now == s.now && t.path == s.path && t.nextId == s.nextId && t.checkpoints == s.checkpoints
  }

  /** A call gets the lease exactly when nobody else's is running, and then until its seconds are over. */
  lemma ClaimIff(s: State, owner: Owner, version: string, keepTokens: real, seconds: nat)
    requires owner !in s.compactors
    ensures var t := Step(s, Claim(owner, version, keepTokens, seconds));
            if FreeFor(s.lease, s.now, owner)
            then SameButLease(s, t) && owner in t.compactors && t.lease == Some(Lease(owner, s.now + seconds, None))
            else t == s
  {}

  /** A heartbeat extends exactly an unexpired lease of its own, to the given seconds from now. */
  lemma HeartbeatIff(s: State, owner: Owner, seconds: nat)
    ensures var t := Step(s, Heartbeat(owner, seconds));
            if s.lease.Some? && s.lease.value.owner == owner && s.now < s.lease.value.expires
            then SameButLease(s, t) && t.lease == Some(Lease(owner, s.now + seconds, s.lease.value.lastError))
            else t == s
  {}

  /** A release leaves a lease that everybody can claim at once, with the error; somebody else's lease stays as it is. */
  lemma ReleaseFrees(
    s: State, owner: Owner, error: Option<string>, next: Owner, version: string, keepTokens: real, seconds: nat)
    requires owner in s.compactors && next !in s.compactors
    ensures var t := Step(s, Release(owner, error));
            && SameButLease(s, t)
            && (if s.lease.Some? && s.lease.value.owner == owner
                then && t.lease == Some(Lease(owner, s.now, error))
                     && Step(t, Claim(next, version, keepTokens, seconds)).lease == Some(Lease(next, s.now + seconds, None))
                else t.lease == s.lease)
  {
    ClaimIff(Step(s, Release(owner, error)), next, version, keepTokens, seconds);
  }

  /** While a lease runs, no other owner claims, extends or persists, and its release changes nothing of the row. */
  lemma LeaseExcludes(s: State, e: Event, owner: Owner)
    requires s.lease.Some? && s.lease.value.owner == owner && s.now < s.lease.value.expires
    requires e.Claim? || e.Heartbeat? || e.Persist? || e.Release? ==> e.owner != owner
    ensures Step(s, e).lease == s.lease && Step(s, e).checkpoints == s.checkpoints
  {}

  /** An unexpired lease is all a loaded compactor needs to persist what it selected: both checkpoints, with the error cleared. */
  lemma PersistIff(s: State, owner: Owner, covered: nat)
    requires owner in s.compactors && s.compactors[owner].phase.Loaded?
    requires var c := s.compactors[owner];
             && c.phase.entries != [] && Cut(Pending(c.phase.entries, c.phase.segments), c.keep, covered)
             && Proceeds(c.phase.entries, c.phase.segments, covered)
    ensures var t := Step(s, Persist(owner, covered));
            if s.lease.Some? && s.lease.value.owner == owner && s.now < s.lease.value.expires
            then t.lease == Some(Lease(owner, s.lease.value.expires, None)) && t.compactors[owner].phase.Ended?
            else t == s
  {}
}
