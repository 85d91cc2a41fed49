/**
 * The compaction repository and one `compactSession` call on it. Each method
 * is one statement or transaction, and one step of the compaction protocol.
 */
module CompactionRepository {
  import opened Options
  import opened CompactionPrefix
  import opened CompactionProtocol
  import CompactionSafety
  import opened CompactionLease

  class SessionTables {
    var now: nat
    var path: seq<Entry>
    var lease: Option<Lease>
    var checkpoints: seq<Checkpoint>
    ghost var nextId: nat
    ghost var compactors: map<Owner, Compactor>

    ghost function Model(): State
      reads this
    {
      State(now, nextId, path, lease, checkpoints, compactors)
    }

    /** `claim`: a free or expired lease row, or one's own. */
    method Claim(owner: Owner, version: string, keepTokens: real, seconds: nat) returns (claimed: bool)
      requires owner !in compactors
      modifies this`lease, this`compactors
      ensures claimed == FreeFor(old(lease), now, owner)
      ensures lease == if claimed then Some(Lease(owner, now + seconds, None)) else old(lease)
      ensures Model() == Step(old(Model()), CompactionProtocol.Claim(owner, version, keepTokens, seconds))
    {
      claimed := lease.None? || lease.value.expires <= now || lease.value.owner == owner;
      if claimed {
        lease := Some(Lease(owner, now + seconds, None));
        compactors := compactors[owner := Compactor(version, keepTokens, Claimed)];
      }
    }

    method Heartbeat(owner: Owner, seconds: nat) returns (held: bool)
      modifies this`lease
      ensures held <==> old(lease).Some? && old(lease).value.owner == owner && now < old(lease).value.expires
      ensures lease == if held then Some(Lease(owner, now + seconds, old(lease).value.lastError)) else old(lease)
      ensures Model() == Step(old(Model()), CompactionProtocol.Heartbeat(owner, seconds))
    {
      held := lease.Some? && lease.value.owner == owner && lease.value.expires > now;
      if held { lease := Some(lease.value.(expires := now + seconds)); }
    }

    method IsOnPath(id: nat) returns (found: bool)
      ensures found == OnPath(path, id)
    {
      found := false;
      for i := 0 to |path|
        invariant found == OnPath(path[..i], id)
      {
        assert path[..i + 1] == path[..i] + [path[i]];
        assert path[..i + 1][i] == path[i];
        if path[i].id == id { found := true; }
        if found && path[i].id != id {
          var k :| 0 <= k < i && path[..i][k].id == id;
          assert path[..i + 1][k].id == id;
        }
      }
      assert path[..|path|] == path;
    }

    /** The checkpoint query and the filter on its rows. */
    method VisibleRows(kind: Kind, version: string) returns (rows: seq<Checkpoint>)
      ensures rows == Visible(checkpoints, kind, version, path)
    {
      rows := [];
      for i := 0 to |checkpoints|
        invariant rows == Visible(checkpoints[..i], kind, version, path)
      {
        assert checkpoints[..i + 1][..i] == checkpoints[..i];
        var row := checkpoints[i];
        var active := IsOnPath(row.source);
        if row.kind == kind && row.version == version && active { rows := rows + [row]; }
      }
      assert checkpoints[..|checkpoints|] == checkpoints;
    }

    method ReadEntries(ghost owner: Owner) returns (entries: seq<Entry>)
      requires InPhase(Model(), owner, true, false, false)
      modifies this`compactors
      ensures entries == path && Model() == Step(old(Model()), CompactionProtocol.ReadEntries(owner))
    {
      entries := path;
      compactors := compactors[owner := compactors[owner].(phase := Reading(path, nextId))];
    }

    method ReadCheckpoints(ghost owner: Owner, version: string) returns (segments: seq<Checkpoint>, rollings: seq<Checkpoint>)
      requires InPhase(Model(), owner, false, true, false) && compactors[owner].version == version
      modifies this`compactors
      ensures segments == Visible(checkpoints, Segment, version, path) && rollings == Visible(checkpoints, Rolling, version, path)
      ensures Model() == Step(old(Model()), CompactionProtocol.ReadCheckpoints(owner))
    {
      segments := VisibleRows(Segment, version);
      rollings := VisibleRows(Rolling, version);
      ghost var c := compactors[owner];
      compactors := compactors[owner := c.(phase := Loaded(c.phase.entries, c.phase.horizon, segments, rollings))];
    }

    /** `INSERT ... ON CONFLICT DO NOTHING`. */
    method InsertCheckpoint(c: Checkpoint)
      modifies this`checkpoints
      ensures checkpoints == Insert(old(checkpoints), c)
    {
      for i := 0 to |checkpoints|
        invariant forall k | 0 <= k < i :: !SameKey(checkpoints[k], c)
      {
        if SameKey(checkpoints[i], c) { return; }
      }
      checkpoints := checkpoints + [c];
    }

    /** `persist`: fenced by the lease, then both checkpoints. */
    method Persist(owner: Owner, segment: Checkpoint, rolling: Checkpoint, ghost covered: nat) returns (persisted: bool)
      requires InPhase(Model(), owner, false, false, true)
      requires var c := compactors[owner];
               && c.phase.entries != [] && Cut(Pending(c.phase.entries, c.phase.segments), c.keep, covered)
               && Proceeds(c.phase.entries, c.phase.segments, covered)
               && segment == SegmentFor(c.version, c.phase.entries, c.phase.segments, covered)
               && rolling == RollingFor(c.phase.segments, c.phase.rollings, segment)
      modifies this`lease, this`checkpoints, this`compactors
      ensures persisted <==> old(lease).Some? && old(lease).value.owner == owner && now < old(lease).value.expires
      ensures lease == if persisted then Some(Lease(owner, old(lease).value.expires, None)) else old(lease)
      ensures Model() == Step(old(Model()), CompactionProtocol.Persist(owner, covered))
    {
      persisted := lease.Some? && lease.value.owner == owner && lease.value.expires > now;
      if !persisted { return; }
      ghost var before := Model();
      assert Enabled(before, CompactionProtocol.Persist(owner, covered));
      InsertCheckpoint(segment);
      InsertCheckpoint(rolling);
      lease := Some(lease.value.(lastError := None));
      compactors := compactors[owner := compactors[owner].(phase := Ended)];
      assert Model() == Next(before, CompactionProtocol.Persist(owner, covered));
    }

    method Release(owner: Owner, error: Option<string>)
      requires owner in compactors
      modifies this`lease, this`compactors
      ensures lease == if old(lease).Some? && old(lease).value.owner == owner then Some(Lease(owner, now, error)) else old(lease)
      ensures Model() == Step(old(Model()), CompactionProtocol.Release(owner, error))
    {
      if lease.Some? && lease.value.owner == owner { lease := Some(lease.value.(expires := now, lastError := error)); }
      compactors := compactors[owner := compactors[owner].(phase := Ended)];
    }

    /** One uninterrupted `compactSession`; `seconds` is the lease it asks for. */
    method CompactSession(owner: Owner, version: string, keepTokens: real, seconds: nat) returns (outcome: Outcome, ghost events: seq<Event>)
      requires owner !in compactors && Inv(Model())
      modifies this
      ensures Model() == Run(old(Model()), events) && Inv(Model()) && path == old(path)
      ensures outcome.AlreadyRunning? <==> !old(FreeFor(lease, now, owner))
      ensures if outcome.AlreadyRunning? then lease == old(lease)
              else lease == Some(Lease(owner, now, if outcome.LeaseLost? then Some(LEASE_LOST) else None))
      ensures outcome.LeaseLost? ==> seconds == 0
      ensures !outcome.Persisted? ==> checkpoints == old(checkpoints)
      ensures outcome.NoOp? || outcome.Persisted? ==> Cut(Pending(path, Visible(checkpoints, Segment, version, path)), keepTokens, 0)
    {
      ghost var start := Model();
      events := [];
      var claimed := Claim(owner, version, keepTokens, seconds);
      events := Extended(start, events, CompactionProtocol.Claim(owner, version, keepTokens, seconds));
      if !claimed { return AlreadyRunning, events; }
      var entries := ReadEntries(owner);
      events := Extended(start, events, CompactionProtocol.ReadEntries(owner));
      var segments, rollings := ReadCheckpoints(owner, version);
      events := Extended(start, events, CompactionProtocol.ReadCheckpoints(owner));
      outcome, events := Plan(owner, version, keepTokens, entries, segments, rollings, start, events);
      var error := if outcome.LeaseLost? then Some(LEASE_LOST) else None;
      Release(owner, error);
      events := Extended(start, events, CompactionProtocol.Release(owner, error));
    }

    /** What a compactor does with what it loaded, up to the release. */
    method Plan(
      owner: Owner, version: string, keepTokens: real, entries: seq<Entry>, segments: seq<Checkpoint>, rollings: seq<Checkpoint>,
      ghost start: State, ghost before: seq<Event>) returns (outcome: Outcome, ghost events: seq<Event>)
      requires Inv(Model()) && Model() == Run(start, before)
      requires Ready(owner, version, keepTokens, entries, segments, rollings)
      modifies this`lease, this`checkpoints, this`compactors
      ensures owner in compactors && Inv(Model()) && Model() == Run(start, events)
      ensures HeldBy(old(lease), owner) ==> HeldBy(lease, owner)
      ensures outcome.NoOp? || outcome.Persisted? || outcome.LeaseLost?
      ensures outcome.LeaseLost? ==> !Holds(old(lease), now, owner)
      ensures !outcome.Persisted? ==> checkpoints == old(checkpoints)
      ensures outcome.NoOp? || outcome.Persisted? ==> Cut(Pending(path, Visible(checkpoints, Segment, version, path)), keepTokens, 0)
    {
      events := before;
      if entries == [] { return NoOp, events; }
      var pending := Pending(entries, segments);
      var covered, retained := SelectCompactionPrefix(pending, keepTokens);
      if covered == [] { return NoOp, events; }
      outcome, events := PersistPlan(owner, version, keepTokens, entries, segments, rollings, |covered|, start, before);
    }

    ghost predicate Ready(owner: Owner, version: string, keepTokens: real, entries: seq<Entry>, segments: seq<Checkpoint>, rollings: seq<Checkpoint>)
      reads this
    {
      && InPhase(Model(), owner, false, false, true) && entries == path
      && var c := compactors[owner];
         && c.version == version && c.keep == keepTokens && c.phase.entries == entries
         && c.phase.segments == segments && c.phase.rollings == rollings
         && segments == Visible(checkpoints, Segment, version, path) && rollings == Visible(checkpoints, Rolling, version, path)
    }

    method PersistPlan(
      owner: Owner, version: string, keepTokens: real, entries: seq<Entry>, segments: seq<Checkpoint>, rollings: seq<Checkpoint>,
      covered: nat, ghost start: State, ghost before: seq<Event>) returns (outcome: Outcome, ghost events: seq<Event>)
      requires Inv(Model()) && Model() == Run(start, before) && Ready(owner, version, keepTokens, entries, segments, rollings)
      requires entries != [] && 0 < covered <= |Pending(entries, segments)| && Cut(Pending(entries, segments), keepTokens, covered)
      modifies this`lease, this`checkpoints, this`compactors
      ensures owner in compactors && Inv(Model()) && Model() == Run(start, events)
      ensures HeldBy(old(lease), owner) ==> HeldBy(lease, owner)
      ensures (outcome == LeaseLost && !Holds(old(lease), now, owner) && checkpoints == old(checkpoints))
              || (outcome.Persisted? && Cut(Pending(path, Visible(checkpoints, Segment, version, path)), keepTokens, 0))
    {
      GuardIsIdle(Model(), owner, covered);
      var segment := SegmentFor(version, entries, segments, covered);
      ghost var loaded := Model();
      var persisted := Persist(owner, segment, RollingFor(segments, rollings, segment), covered);
      events := Extended(start, before, CompactionProtocol.Persist(owner, covered));
      ghost var after := Run(start, events);
      assert Model() == after && Inv(after);
      if !persisted { return LeaseLost, events; }
      CompactedIsFixpoint(loaded, owner, covered);
      outcome := Persisted(segment);
    }
  }

  /** The failure category a lost lease leaves in the row. */
  const LEASE_LOST := "lease_lost"

  datatype Outcome = AlreadyRunning | NoOp | LeaseLost | Persisted(segment: Checkpoint)

  ghost function Extended(start: State, events: seq<Event>, e: Event): (longer: seq<Event>)
    requires Inv(Run(start, events))
    ensures Run(start, longer) == Step(Run(start, events), e) && Inv(Run(start, longer))
  {
    assert (events + [e])[..|events|] == events;
    CompactionSafety.StepPreserves(Run(start, events), e);
    events + [e]
  }

  /**
   * The check against repeating the latest segment never stops a compactor
   * that covers something, whatever happened between its two reads and since.
   */
  lemma GuardIsIdle(s: State, owner: Owner, covered: nat)
    requires Inv(s) && owner in s.compactors && s.compactors[owner].phase.Loaded?
    requires 0 < covered <= |Pending(s.compactors[owner].phase.entries, s.compactors[owner].phase.segments)|
    ensures Proceeds(s.compactors[owner].phase.entries, s.compactors[owner].phase.segments, covered)
  {
    var c := s.compactors[owner];
    assert CompactorOk(s, owner);
  }

  /** After a persist, what is pending is what was kept, and the same budget covers none of it. */
  lemma CompactedIsFixpoint(s: State, owner: Owner, covered: nat)
    requires Inv(s) && Enabled(s, Persist(owner, covered)) && s.compactors[owner].phase.entries == s.path
    requires var c := s.compactors[owner];
             && c.phase.segments == Visible(s.checkpoints, Segment, c.version, s.path)
             && c.phase.rollings == Visible(s.checkpoints, Rolling, c.version, s.path)
    ensures var c := s.compactors[owner];
            var t := Next(s, Persist(owner, covered));
            && Visible(t.checkpoints, Segment, c.version, t.path) == c.phase.segments + [SegmentFor(c.version, s.path, c.phase.segments, covered)]
            && Cut(Pending(t.path, Visible(t.checkpoints, Segment, c.version, t.path)), c.keep, 0)
  {
    var c := s.compactors[owner];
    var segment := SegmentFor(c.version, s.path, c.phase.segments, covered);
    var rolling := RollingFor(c.phase.segments, c.phase.rollings, segment);
    assert CompactorOk(s, owner);
    assert VersionTiled(s.checkpoints, c.version, s.path);
    CompactionSafety.PersistWrites(s, c, covered);
    CompactionSafety.TwoAppends(s.checkpoints, segment, rolling, c.version, s.path);
    KeptIsPending(s.path, s.nextId, c.version, c.phase.segments, covered);
    SelectionIsFixpoint(Pending(s.path, c.phase.segments), c.keep, covered);
  }

  lemma KeptIsPending(path: seq<Entry>, bound: nat, version: string, segments: seq<Checkpoint>, covered: nat)
    requires Ordered(path, bound) && path != [] && 0 < covered <= |Pending(path, segments)|
    ensures Pending(path, segments + [SegmentFor(version, path, segments, covered)]) == Pending(path, segments)[covered..]
  {
    var k := End(path, segments) + covered - 1;
    CompactionSafety.IndexAfterIs(path, bound, k);
    assert Pending(path, segments)[covered - 1] == path[k];
  }
}
