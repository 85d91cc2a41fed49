/**
 * Safety of session compaction over every interleaving: the segments of each
 * algorithm version visible from the current path tile a prefix of it, and
 * the rolling checkpoint covers exactly their union.
 */
module CompactionSafety {
  import opened Options
  import opened CompactionPrefix
  import opened CompactionProtocol

  // ----- paths -----

  lemma IndexAfterIs(path: seq<Entry>, bound: nat, k: nat)
    requires Ordered(path, bound) && k < |path|
    ensures IndexAfter(path, Some(path[k].id)) == k + 1
  {
    var r := IndexAfter(path, Some(path[k].id));
    if r > 0 {
      assert path[r - 1].id == path[k].id;
    }
  }

  lemma {:induction false} TiledOnExtension(path: seq<Entry>, longer: seq<Entry>, bound: nat, segments: seq<Checkpoint>, rollings: seq<Checkpoint>)
    requires path <= longer && Ordered(longer, bound) && Tiled(path, segments, rollings)
    ensures Tiled(longer, segments, rollings) && End(longer, segments) == End(path, segments)
  {
    if segments != [] {
      var n := |segments| - 1;
      TiledOnExtension(path, longer, bound, segments[..n], rollings[..n]);
      var k := IndexAfter(path, Some(segments[n].end)) - 1;
      assert longer[k] == path[k];
      IndexAfterIs(longer, bound, k);
    }
  }

  lemma PrefixIds(path: seq<Entry>, prefix: seq<Entry>, bound: nat, k: nat)
    requires Ordered(path, bound) && prefix <= path && k < |path|
    requires |prefix| < |path| ==> path[k].id < path[|prefix|].id
    ensures k < |prefix| && prefix[k] == path[k] && IndexAfter(prefix, Some(path[k].id)) == k + 1
  {
    IndexAfterIs(prefix, bound, k);
  }

  lemma ContinuesOnPrefix(path: seq<Entry>, bound: nat, prefix: seq<Entry>, older: seq<Checkpoint>, segment: Checkpoint)
    requires Ordered(path, bound) && prefix <= path
    requires Continues(path, older, segment) && End(prefix, older) == End(path, older)
    requires |prefix| < |path| ==> segment.source < path[|prefix|].id
    ensures Continues(prefix, older, segment)
    ensures IndexAfter(prefix, Some(segment.end)) == IndexAfter(path, Some(segment.end))
  {
    PrefixIds(path, prefix, bound, IndexAfter(path, Some(segment.end)) - 1);
  }

  /** Segments that end inside a prefix of the path tile that prefix too. */
  lemma {:induction false} TiledOnPrefix(path: seq<Entry>, bound: nat, prefix: seq<Entry>, segments: seq<Checkpoint>, rollings: seq<Checkpoint>)
    requires Ordered(path, bound) && prefix <= path && Tiled(path, segments, rollings)
    requires |prefix| < |path| ==> forall s | s in segments :: s.source < path[|prefix|].id
    ensures Tiled(prefix, segments, rollings) && End(prefix, segments) == End(path, segments)
  {
    if segments != [] {
      var n := |segments| - 1;
      assert segments[n] in segments;
      TiledOnPrefix(path, bound, prefix, segments[..n], rollings[..n]);
      ContinuesOnPrefix(path, bound, prefix, segments[..n], segments[n]);
    }
  }

  // ----- which checkpoints are visible -----

  lemma {:induction false} VisibleMembers(checkpoints: seq<Checkpoint>, kind: Kind, version: string, path: seq<Entry>)
    ensures forall i | 0 <= i < |Visible(checkpoints, kind, version, path)| ::
              Matches(Visible(checkpoints, kind, version, path)[i], kind, version, path)
              && Visible(checkpoints, kind, version, path)[i] in checkpoints
    ensures forall c | c in checkpoints && Matches(c, kind, version, path) ::
              c in Visible(checkpoints, kind, version, path)
  {
    if checkpoints != [] {
      var n := |checkpoints| - 1;
      VisibleMembers(checkpoints[..n], kind, version, path);
      assert checkpoints == checkpoints[..n] + [checkpoints[n]];
    }
  }

  lemma VisibleAppend(checkpoints: seq<Checkpoint>, c: Checkpoint, kind: Kind, version: string, path: seq<Entry>)
    ensures Visible(checkpoints + [c], kind, version, path)
         == Visible(checkpoints, kind, version, path) + if Matches(c, kind, version, path) then [c] else []
  {
    assert (checkpoints + [c])[..|checkpoints|] == checkpoints;
  }

  lemma {:induction false} VisibleSamePath(checkpoints: seq<Checkpoint>, kind: Kind, version: string, a: seq<Entry>, b: seq<Entry>)
    requires forall c | c in checkpoints :: OnPath(a, c.source) <==> OnPath(b, c.source)
    ensures Visible(checkpoints, kind, version, a) == Visible(checkpoints, kind, version, b)
  {
    if checkpoints != [] {
      var n := |checkpoints| - 1;
      assert checkpoints[n] in checkpoints;
      assert forall c | c in checkpoints[..n] :: c in checkpoints;
      VisibleSamePath(checkpoints[..n], kind, version, a, b);
    }
  }

  /** The checkpoints of `cs` made from leaves below `bound`. */
  ghost function Below(cs: seq<Checkpoint>, bound: nat): seq<Checkpoint> {
    if cs == [] then []
    else Below(cs[..|cs| - 1], bound) + if cs[|cs| - 1].source < bound then [cs[|cs| - 1]] else []
  }

  lemma {:induction false} VisibleBelow(checkpoints: seq<Checkpoint>, kind: Kind, version: string, path: seq<Entry>, prefix: seq<Entry>, bound: nat)
    requires forall id: nat :: OnPath(prefix, id) <==> OnPath(path, id) && id < bound
    ensures Visible(checkpoints, kind, version, prefix) == Below(Visible(checkpoints, kind, version, path), bound)
  {
    if checkpoints != [] {
      var n := |checkpoints| - 1;
      var older := Visible(checkpoints[..n], kind, version, path);
      VisibleBelow(checkpoints[..n], kind, version, path, prefix, bound);
      if Matches(checkpoints[n], kind, version, path) {
        assert (older + [checkpoints[n]])[..|older|] == older;
      } else {
        assert older + [] == older;
      }
    }
  }

  lemma {:induction false} BelowMembers(cs: seq<Checkpoint>, bound: nat)
    ensures forall c | c in Below(cs, bound) :: c in cs && c.source < bound
    ensures (forall c | c in cs :: c.source < bound) ==> Below(cs, bound) == cs
  {
    if cs != [] {
      var n := |cs| - 1;
      BelowMembers(cs[..n], bound);
      assert cs == cs[..n] + [cs[n]];
    }
  }

  lemma {:induction false} TiledSources(path: seq<Entry>, segments: seq<Checkpoint>, rollings: seq<Checkpoint>)
    requires Tiled(path, segments, rollings) && segments != []
    ensures forall c | c in segments || c in rollings :: c.source <= segments[|segments| - 1].source
    ensures rollings[|rollings| - 1].source == segments[|segments| - 1].source
  {
    var n := |segments| - 1;
    assert segments == segments[..n] + [segments[n]] && rollings == rollings[..n] + [rollings[n]];
    if n > 0 {
      TiledSources(path, segments[..n], rollings[..n]);
      assert segments[..n][n - 1].source <= segments[n].source;
    }
  }

  /** Keeping the segments made from leaves below `bound` keeps the older of them, and their rolling checkpoints. */
  lemma {:induction false} BelowTiled(path: seq<Entry>, segments: seq<Checkpoint>, rollings: seq<Checkpoint>, bound: nat)
    requires Tiled(path, segments, rollings)
    ensures Tiled(path, Below(segments, bound), Below(rollings, bound))
  {
    if segments != [] {
      var n := |segments| - 1;
      TiledSources(path, segments, rollings);
      if segments[n].source < bound {
        BelowMembers(segments, bound);
        BelowMembers(rollings, bound);
      } else {
        BelowTiled(path, segments[..n], rollings[..n], bound);
        assert Below(segments, bound) == Below(segments[..n], bound);
        assert Below(rollings, bound) == Below(rollings[..n], bound);
      }
    }
  }

  // ----- events that move the path -----

  lemma AppendKeepsVisible(s: State, event: Event, version: string, kind: Kind)
    requires Inv(s) && event.Append?
    ensures Visible(s.checkpoints, kind, version, Next(s, event).path) == Visible(s.checkpoints, kind, version, s.path)
  {
    var longer := Next(s, event).path;
    forall c | c in s.checkpoints ensures OnPath(s.path, c.source) <==> OnPath(longer, c.source) {
      if i :| 0 <= i < |s.path| && s.path[i].id == c.source {
        assert longer[i].id == c.source;
      }
      if i :| 0 <= i < |longer| && longer[i].id == c.source {
        assert i < |s.path|;
      }
    }
    VisibleSamePath(s.checkpoints, kind, version, s.path, longer);
  }

  lemma OnLongerPath(path: seq<Entry>, entry: Entry, id: nat)
    requires id != entry.id
    ensures OnPath(path + [entry], id) <==> OnPath(path, id)
  {
    if i :| 0 <= i < |path| && path[i].id == id {
      assert (path + [entry])[i].id == id;
    }
  }

  lemma AppendPreserves(s: State, event: Event)
    requires Inv(s) && event.Append?
    ensures Inv(Next(s, event))
  {
    var t := Next(s, event);
    forall version ensures VersionTiled(t.checkpoints, version, t.path) {
      assert VersionTiled(s.checkpoints, version, s.path);
      AppendKeepsVisible(s, event, version, Segment);
      AppendKeepsVisible(s, event, version, Rolling);
      TiledOnExtension(s.path, t.path, t.nextId,
                       Visible(s.checkpoints, Segment, version, s.path), Visible(s.checkpoints, Rolling, version, s.path));
    }
    forall owner | owner in t.compactors ensures CompactorOk(t, owner) {
      assert CompactorOk(s, owner);
      var c := s.compactors[owner];
      if c.phase.Reading? || c.phase.Loaded? {
        if c.phase.entries != [] {
          OnLongerPath(s.path, t.path[|s.path|], Leaf(c.phase.entries));
        }
        AppendKeepsVisible(s, event, c.version, Segment);
        AppendKeepsVisible(s, event, c.version, Rolling);
      }
    }
  }

  /** The id from which a rewind drops entries. */
  ghost function RewindBound(s: State, keep: nat): nat
    requires keep <= |s.path|
  {
    if keep < |s.path| then s.path[keep].id else s.nextId
  }

  lemma RewindOnPath(s: State, keep: nat)
    requires Ordered(s.path, s.nextId) && keep <= |s.path|
    ensures forall id: nat :: OnPath(s.path[..keep], id) <==> OnPath(s.path, id) && id < RewindBound(s, keep)
  {
    forall id: nat ensures OnPath(s.path[..keep], id) <==> OnPath(s.path, id) && id < RewindBound(s, keep) {
      if i :| 0 <= i < keep && s.path[..keep][i].id == id {
        assert s.path[i].id == id;
      }
      if OnPath(s.path, id) && id < RewindBound(s, keep) {
        var i :| 0 <= i < |s.path| && s.path[i].id == id;
        assert i < keep;
        assert s.path[..keep][i].id == id;
      }
    }
  }

  lemma RewindVisible(s: State, keep: nat, version: string, kind: Kind)
    requires Inv(s) && keep <= |s.path|
    ensures Visible(s.checkpoints, kind, version, s.path[..keep])
         == Below(Visible(s.checkpoints, kind, version, s.path), RewindBound(s, keep))
  {
    RewindOnPath(s, keep);
    VisibleBelow(s.checkpoints, kind, version, s.path, s.path[..keep], RewindBound(s, keep));
  }

  /** A rewind drops a newest part of the visible segments and keeps the rest tiled. */
  lemma RewindTiled(s: State, keep: nat, version: string)
    requires Inv(s) && keep <= |s.path|
    ensures VersionTiled(s.checkpoints, version, s.path[..keep])
  {
    var bound, prefix := RewindBound(s, keep), s.path[..keep];
    var segments := Visible(s.checkpoints, Segment, version, s.path);
    var rollings := Visible(s.checkpoints, Rolling, version, s.path);
    RewindVisible(s, keep, version, Segment);
    RewindVisible(s, keep, version, Rolling);
    assert VersionTiled(s.checkpoints, version, s.path);
    BelowPrefixTiled(s.path, s.nextId, prefix, segments, rollings, bound);
  }

  lemma BelowPrefixTiled(path: seq<Entry>, limit: nat, prefix: seq<Entry>, segments: seq<Checkpoint>, rollings: seq<Checkpoint>, bound: nat)
    requires Ordered(path, limit) && prefix <= path && Tiled(path, segments, rollings)
    requires |prefix| < |path| ==> bound <= path[|prefix|].id
    ensures Tiled(prefix, Below(segments, bound), Below(rollings, bound))
  {
    BelowTiled(path, segments, rollings, bound);
    BelowMembers(segments, bound);
    TiledOnPrefix(path, limit, prefix, Below(segments, bound), Below(rollings, bound));
  }

  lemma RewindEntries(s: State, keep: nat, entries: seq<Entry>, horizon: nat)
    requires Ordered(s.path, s.nextId) && keep <= |s.path| && EntriesCurrent(s, entries, horizon)
    requires entries != [] && OnPath(s.path[..keep], Leaf(entries))
    ensures OnPath(s.path, Leaf(entries)) && entries <= s.path[..keep]
    ensures RewindBound(s, keep) >= horizon || keep == |s.path|
  {
    var i :| 0 <= i < keep && s.path[..keep][i].id == Leaf(entries);
    assert s.path[i].id == Leaf(entries);
    assert s.path[|entries| - 1].id == Leaf(entries);
    assert i == |entries| - 1;
  }

  lemma {:induction false} BelowAll(cs: seq<Checkpoint>, bound: nat)
    requires forall i | 0 <= i < |cs| :: cs[i].source < bound
    ensures Below(cs, bound) == cs
  {
    if cs != [] {
      BelowAll(cs[..|cs| - 1], bound);
    }
  }

  lemma RewindCheckpoints(s: State, keep: nat, c: Compactor)
    requires Inv(s) && keep <= |s.path| && c.phase.Loaded?
    requires EntriesCurrent(s, c.phase.entries, c.phase.horizon) && CheckpointsCurrent(s, c)
    requires c.phase.entries != [] && OnPath(s.path[..keep], Leaf(c.phase.entries))
    ensures c.phase.segments == Visible(s.checkpoints, Segment, c.version, s.path[..keep])
    ensures c.phase.rollings == Visible(s.checkpoints, Rolling, c.version, s.path[..keep])
  {
    RewindEntries(s, keep, c.phase.entries, c.phase.horizon);
    RewindVisible(s, keep, c.version, Segment);
    RewindVisible(s, keep, c.version, Rolling);
    VisibleMembers(s.checkpoints, Segment, c.version, s.path);
    VisibleMembers(s.checkpoints, Rolling, c.version, s.path);
    BelowAll(c.phase.segments, RewindBound(s, keep));
    BelowAll(c.phase.rollings, RewindBound(s, keep));
  }

  lemma RewindPreserves(s: State, keep: nat)
    requires Inv(s) && keep <= |s.path|
    ensures Inv(Next(s, Rewind(keep)))
  {
    var t := Next(s, Rewind(keep));
    forall version ensures VersionTiled(t.checkpoints, version, t.path) {
      assert VersionTiled(s.checkpoints, version, s.path);
      RewindTiled(s, keep, version);
    }
    forall owner | owner in t.compactors ensures CompactorOk(t, owner) {
      assert CompactorOk(s, owner);
      var c := s.compactors[owner];
      if (c.phase.Reading? || c.phase.Loaded?) && c.phase.entries != [] && OnPath(t.path, Leaf(c.phase.entries)) {
        RewindEntries(s, keep, c.phase.entries, c.phase.horizon);
        if c.phase.Loaded? && s.lease.Some? && s.lease.value.owner == owner {
          RewindCheckpoints(s, keep, c);
        }
      }
    }
  }

  // ----- loading -----

  lemma ReadPreserves(s: State, event: Event)
    requires Inv(s) && Enabled(s, event) && (event.ReadEntries? || event.ReadCheckpoints?)
    ensures Inv(Next(s, event))
  {
    var t := Next(s, event);
    assert AllTiled(t);
    forall owner | owner in t.compactors ensures CompactorOk(t, owner) {
      if owner != event.owner {
        assert CompactorOk(s, owner);
        assert t.compactors[owner] == s.compactors[owner];
      } else {
        assert CompactorOk(s, owner);
      }
    }
  }

  /** Events that touch only the clock, the lease or a compactor's phase. */
  lemma LeaseEventPreserves(s: State, event: Event)
    requires Inv(s) && Enabled(s, event)
    requires event.Tick? || event.Claim? || event.Heartbeat? || event.Release?
    ensures Inv(Next(s, event))
  {
    var t := Next(s, event);
    assert AllTiled(t);
    forall owner | owner in t.compactors ensures CompactorOk(t, owner) {
      if owner in s.compactors {
        assert CompactorOk(s, owner);
      }
    }
  }

  // ----- persisting -----

  lemma LeafOnEntries(entries: seq<Entry>, bound: nat)
    requires Ordered(entries, bound) && entries != []
    ensures forall i | 0 <= i < |entries| :: entries[i].id <= Leaf(entries)
  {}

  /** A persist whose leaf is off the path changes nothing that is visible. */
  lemma InvisibleInsert(checkpoints: seq<Checkpoint>, c: Checkpoint, kind: Kind, version: string, path: seq<Entry>)
    requires !Matches(c, kind, version, path)
    ensures Visible(Insert(checkpoints, c), kind, version, path) == Visible(checkpoints, kind, version, path)
  {
    VisibleAppend(checkpoints, c, kind, version, path);
    var v := Visible(checkpoints, kind, version, path);
    assert v + [] == v;
  }

  /** Every visible segment was made from a leaf the compactor read, at or before its own. */
  lemma SourcesRead(path: seq<Entry>, entries: seq<Entry>, horizon: nat, segments: seq<Checkpoint>)
    requires Ordered(entries, horizon) && entries != [] && entries <= path
    requires forall i | |entries| <= i < |path| :: path[i].id >= horizon
    requires forall i | 0 <= i < |segments| :: OnPath(path, segments[i].source) && segments[i].source < horizon
    ensures forall i | 0 <= i < |segments| :: segments[i].source <= Leaf(entries)
  {
    LeafOnEntries(entries, horizon);
    forall i | 0 <= i < |segments| ensures segments[i].source <= Leaf(entries) {
      var k :| 0 <= k < |path| && path[k].id == segments[i].source;
      assert k < |entries|;
    }
  }

  /** On the compactor's own entries the segments end where they end on the path. */
  lemma PendingStart(path: seq<Entry>, bound: nat, entries: seq<Entry>, segments: seq<Checkpoint>, rollings: seq<Checkpoint>)
    requires Ordered(path, bound) && entries != [] && entries <= path
    requires forall i | 0 <= i < |segments| :: segments[i].source <= Leaf(entries)
    requires Tiled(path, segments, rollings)
    ensures End(entries, segments) == End(path, segments)
  {
    assert path[|entries| - 1].id == Leaf(entries);
    TiledOnPrefix(path, bound, entries, segments, rollings);
  }

  /** Every tiled segment ends at or before where the tiling ends. */
  lemma {:induction false} EndsBefore(path: seq<Entry>, bound: nat, segments: seq<Checkpoint>, rollings: seq<Checkpoint>, k: nat)
    requires Ordered(path, bound) && Tiled(path, segments, rollings)
    requires End(path, segments) <= k < |path|
    ensures forall i | 0 <= i < |segments| :: segments[i].end != path[k].id
  {
    if segments != [] {
      var n := |segments| - 1;
      EndsBefore(path, bound, segments[..n], rollings[..n], k);
      assert path[End(path, segments) - 1].id == segments[n].end;
      forall i | 0 <= i < |segments| ensures segments[i].end != path[k].id {
        if i < n { assert segments[..n][i] == segments[i]; }
      }
    }
  }

  lemma SnocTiled(path: seq<Entry>, segments: seq<Checkpoint>, rollings: seq<Checkpoint>, segment: Checkpoint)
    requires Tiled(path, segments, rollings) && Continues(path, segments, segment)
    ensures Tiled(path, segments + [segment], rollings + [RollingFor(segments, rollings, segment)])
  {
    var rolling := RollingFor(segments, rollings, segment);
    RollingStart(path, segments, rollings, segment);
    assert (segments + [segment])[..|segments|] == segments;
    assert (rollings + [rolling])[..|rollings|] == rollings;
  }

  lemma PlanContinues(
    path: seq<Entry>, bound: nat, entries: seq<Entry>,
    version: string, segments: seq<Checkpoint>, rollings: seq<Checkpoint>, covered: nat)
    requires Ordered(path, bound) && entries != [] && entries <= path
    requires forall i | 0 <= i < |segments| :: segments[i].source <= Leaf(entries)
    requires End(entries, segments) == End(path, segments)
    requires Proceeds(entries, segments, covered)
    ensures Continues(path, segments, SegmentFor(version, entries, segments, covered))
    ensures SegmentFor(version, entries, segments, covered).end == path[End(path, segments) + covered - 1].id
  {
    var k := End(path, segments) + covered - 1;
    assert entries[k] == path[k] && path[|entries| - 1].id == Leaf(entries);
    IndexAfterIs(path, bound, k);
  }

  /** Appending the segment a compactor planned, and its rolling checkpoint, extends the tiling. */
  lemma PlannedSegmentTiles(
    path: seq<Entry>, bound: nat, entries: seq<Entry>,
    version: string, segments: seq<Checkpoint>, rollings: seq<Checkpoint>, covered: nat)
    requires Ordered(path, bound) && entries != [] && entries <= path
    requires forall i | 0 <= i < |segments| :: segments[i].source <= Leaf(entries)
    requires Tiled(path, segments, rollings)
    requires Proceeds(entries, segments, covered)
    ensures var segment := SegmentFor(version, entries, segments, covered);
            && Tiled(path, segments + [segment], rollings + [RollingFor(segments, rollings, segment)])
            && forall i | 0 <= i < |segments| :: segments[i].end != segment.end
  {
    PendingStart(path, bound, entries, segments, rollings);
    PlanContinues(path, bound, entries, version, segments, rollings, covered);
    EndsBefore(path, bound, segments, rollings, End(path, segments) + covered - 1);
    SnocTiled(path, segments, rollings, SegmentFor(version, entries, segments, covered));
  }

  lemma RollingStart(path: seq<Entry>, segments: seq<Checkpoint>, rollings: seq<Checkpoint>, segment: Checkpoint)
    requires Tiled(path, segments, rollings)
    ensures RollingFor(segments, rollings, segment).start == (segments + [segment])[0].start
  {}

  lemma NewKey(checkpoints: seq<Checkpoint>, c: Checkpoint, path: seq<Entry>)
    requires OnPath(path, c.source)
    requires forall d | d in Visible(checkpoints, c.kind, c.version, path) :: d.end != c.end
    ensures Insert(checkpoints, c) == checkpoints + [c]
  {
    VisibleMembers(checkpoints, c.kind, c.version, path);
    forall i | 0 <= i < |checkpoints| ensures !SameKey(checkpoints[i], c) {
      assert checkpoints[i] in checkpoints;
    }
  }

  lemma ReadSources(s: State, c: Compactor)
    requires c.phase.Loaded? && c.phase.entries != []
    requires EntriesCurrent(s, c.phase.entries, c.phase.horizon) && CheckpointsCurrent(s, c)
    requires OnPath(s.path, Leaf(c.phase.entries))
    ensures forall i | 0 <= i < |c.phase.segments| :: c.phase.segments[i].source <= Leaf(c.phase.entries)
  {
    var segments := c.phase.segments;
    VisibleMembers(s.checkpoints, Segment, c.version, s.path);
    forall i | 0 <= i < |segments| ensures OnPath(s.path, segments[i].source) && segments[i].source < c.phase.horizon {
      assert segments[i] in s.checkpoints;
    }
    SourcesRead(s.path, c.phase.entries, c.phase.horizon, segments);
  }

  lemma {:induction false} RollingEnds(path: seq<Entry>, segments: seq<Checkpoint>, rollings: seq<Checkpoint>)
    requires Tiled(path, segments, rollings)
    ensures forall i | 0 <= i < |segments| :: rollings[i].end == segments[i].end
  {
    if segments != [] {
      var n := |segments| - 1;
      RollingEnds(path, segments[..n], rollings[..n]);
      assert forall i | 0 <= i < n :: segments[..n][i] == segments[i] && rollings[..n][i] == rollings[i];
    }
  }

  /** Neither insert of a persist meets a conflict. */
  lemma BothInserted(path: seq<Entry>, checkpoints: seq<Checkpoint>, segments: seq<Checkpoint>, rollings: seq<Checkpoint>,
                     segment: Checkpoint, rolling: Checkpoint)
    requires segment.kind == Segment && rolling.kind == Rolling && OnPath(path, segment.source)
    requires rolling.source == segment.source && rolling.version == segment.version && rolling.end == segment.end
    requires segments == Visible(checkpoints, Segment, segment.version, path)
    requires rollings == Visible(checkpoints, Rolling, segment.version, path)
    requires Tiled(path, segments, rollings)
    requires forall i | 0 <= i < |segments| :: segments[i].end != segment.end
    ensures Insert(Insert(checkpoints, segment), rolling) == checkpoints + [segment] + [rolling]
  {
    NewKey(checkpoints, segment, path);
    VisibleAppend(checkpoints, segment, Rolling, segment.version, path);
    assert rollings + [] == rollings;
    RollingEnds(path, segments, rollings);
    NewKey(checkpoints + [segment], rolling, path);
  }

  /** A persist whose leaf is still on the path writes two new rows that extend the tiling. */
  lemma PersistWrites(s: State, c: Compactor, covered: nat)
    requires Ordered(s.path, s.nextId) && c.phase.Loaded? && c.phase.entries != []
    requires EntriesCurrent(s, c.phase.entries, c.phase.horizon) && CheckpointsCurrent(s, c)
    requires Tiled(s.path, c.phase.segments, c.phase.rollings)
    requires OnPath(s.path, Leaf(c.phase.entries)) && Proceeds(c.phase.entries, c.phase.segments, covered)
    ensures var segment := SegmentFor(c.version, c.phase.entries, c.phase.segments, covered);
            var rolling := RollingFor(c.phase.segments, c.phase.rollings, segment);
            && Tiled(s.path, c.phase.segments + [segment], c.phase.rollings + [rolling])
            && Insert(Insert(s.checkpoints, segment), rolling) == s.checkpoints + [segment] + [rolling]
  {
    var segments, rollings := c.phase.segments, c.phase.rollings;
    var segment := SegmentFor(c.version, c.phase.entries, segments, covered);
    ReadSources(s, c);
    PlannedSegmentTiles(s.path, s.nextId, c.phase.entries, c.version, segments, rollings, covered);
    BothInserted(s.path, s.checkpoints, segments, rollings, segment, RollingFor(segments, rollings, segment));
  }

  lemma PersistOnPath(s: State, c: Compactor, covered: nat, version: string)
    requires Ordered(s.path, s.nextId) && c.phase.Loaded? && c.phase.entries != []
    requires EntriesCurrent(s, c.phase.entries, c.phase.horizon) && CheckpointsCurrent(s, c)
    requires VersionTiled(s.checkpoints, c.version, s.path) && VersionTiled(s.checkpoints, version, s.path)
    requires OnPath(s.path, Leaf(c.phase.entries)) && Proceeds(c.phase.entries, c.phase.segments, covered)
    ensures var segment := SegmentFor(c.version, c.phase.entries, c.phase.segments, covered);
            var rolling := RollingFor(c.phase.segments, c.phase.rollings, segment);
            VersionTiled(Insert(Insert(s.checkpoints, segment), rolling), version, s.path)
  {
    var segment := SegmentFor(c.version, c.phase.entries, c.phase.segments, covered);
    var rolling := RollingFor(c.phase.segments, c.phase.rollings, segment);
    PersistWrites(s, c, covered);
    TwoAppends(s.checkpoints, segment, rolling, version, s.path);
    var v, w := Visible(s.checkpoints, Segment, version, s.path), Visible(s.checkpoints, Rolling, version, s.path);
    assert v + [] == v && w + [] == w;
  }

  lemma TwoAppends(checkpoints: seq<Checkpoint>, segment: Checkpoint, rolling: Checkpoint, version: string, path: seq<Entry>)
    requires segment.kind == Segment && rolling.kind == Rolling
    requires segment.version == rolling.version && segment.source == rolling.source && OnPath(path, segment.source)
    ensures Visible(checkpoints + [segment] + [rolling], Segment, version, path)
         == Visible(checkpoints, Segment, version, path) + if version == segment.version then [segment] else []
    ensures Visible(checkpoints + [segment] + [rolling], Rolling, version, path)
         == Visible(checkpoints, Rolling, version, path) + if version == segment.version then [rolling] else []
  {
    VisibleAppend(checkpoints, segment, Segment, version, path);
    VisibleAppend(checkpoints + [segment], rolling, Segment, version, path);
    VisibleAppend(checkpoints, segment, Rolling, version, path);
    VisibleAppend(checkpoints + [segment], rolling, Rolling, version, path);
    var v, w := Visible(checkpoints, Segment, version, path), Visible(checkpoints, Rolling, version, path);
    assert v + [] == v && (v + [segment]) + [] == v + [segment] && w + [] == w;
  }

  lemma PersistOffPath(checkpoints: seq<Checkpoint>, segment: Checkpoint, rolling: Checkpoint, version: string, path: seq<Entry>)
    requires VersionTiled(checkpoints, version, path)
    requires !OnPath(path, segment.source) && rolling.source == segment.source
    ensures VersionTiled(Insert(Insert(checkpoints, segment), rolling), version, path)
  {
    var once := Insert(checkpoints, segment);
    InvisibleInsert(checkpoints, segment, Segment, version, path);
    InvisibleInsert(checkpoints, segment, Rolling, version, path);
    InvisibleInsert(once, rolling, Segment, version, path);
    InvisibleInsert(once, rolling, Rolling, version, path);
  }

  lemma PersistTiles(s: State, owner: Owner, covered: nat)
    requires Inv(s) && Enabled(s, Persist(owner, covered))
    ensures AllTiled(Next(s, Persist(owner, covered)))
  {
    var t := Next(s, Persist(owner, covered));
    var c := s.compactors[owner];
    assert CompactorOk(s, owner);
    assert VersionTiled(s.checkpoints, c.version, s.path);
    forall version ensures VersionTiled(t.checkpoints, version, t.path) {
      assert VersionTiled(s.checkpoints, version, s.path);
      if OnPath(s.path, Leaf(c.phase.entries)) {
        PersistOnPath(s, c, covered, version);
      } else {
        var segment := SegmentFor(c.version, c.phase.entries, c.phase.segments, covered);
        PersistOffPath(s.checkpoints, segment, RollingFor(c.phase.segments, c.phase.rollings, segment), version, s.path);
      }
    }
  }

  lemma InsertBelow(checkpoints: seq<Checkpoint>, c: Checkpoint, bound: nat)
    requires SourcesBelow(checkpoints, bound) && c.source < bound
    ensures SourcesBelow(Insert(checkpoints, c), bound)
  {}

  lemma PersistPreserves(s: State, owner: Owner, covered: nat)
    requires Inv(s) && Enabled(s, Persist(owner, covered))
    ensures Inv(Next(s, Persist(owner, covered)))
  {
    var t := Next(s, Persist(owner, covered));
    var c := s.compactors[owner];
    assert CompactorOk(s, owner);
    PersistTiles(s, owner, covered);
    var segment := SegmentFor(c.version, c.phase.entries, c.phase.segments, covered);
    InsertBelow(s.checkpoints, segment, s.nextId);
    InsertBelow(Insert(s.checkpoints, segment), RollingFor(c.phase.segments, c.phase.rollings, segment), s.nextId);
    forall other | other in t.compactors ensures CompactorOk(t, other) {
      assert CompactorOk(s, other);
    }
  }

  // ----- every run -----

  lemma StepPreserves(s: State, event: Event)
    requires Inv(s)
    ensures Inv(Step(s, event))
  {
    if Enabled(s, event) {
      match event
      case Append(_, _) => AppendPreserves(s, event);
      case Rewind(keep) => RewindPreserves(s, keep);
      case ReadEntries(_) => ReadPreserves(s, event);
      case ReadCheckpoints(_) => ReadPreserves(s, event);
      case Persist(owner, covered) => PersistPreserves(s, owner, covered);
      case _ => LeaseEventPreserves(s, event);
    }
  }

  lemma {:induction false} RunPreserves(s: State, events: seq<Event>)
    requires Inv(s)
    ensures Inv(Run(s, events))
  {
    if events != [] {
      RunPreserves(s, events[..|events| - 1]);
      StepPreserves(Run(s, events[..|events| - 1]), events[|events| - 1]);
    }
  }

  /**
   * Over every interleaving of claims, reads, heartbeats, expiries, takeovers,
   * persists, releases, pushes and rewinds, the visible segments of every
   * algorithm version tile a prefix of the current path without gap or
   * overlap, and the latest rolling checkpoint covers exactly their union.
   */
  lemma EveryRunTiles(s: State, events: seq<Event>, version: string)
    requires Initial(s)
    ensures VersionTiled(Run(s, events).checkpoints, version, Run(s, events).path)
  {
    assert forall v :: Visible([], Segment, v, []) == [] && Visible([], Rolling, v, []) == [];
    RunPreserves(s, events);
    assert AllTiled(Run(s, events));
  }

  ghost predicate InSegment(path: seq<Entry>, segments: seq<Checkpoint>, i: nat, p: nat) {
    i < |segments| && End(path, segments[..i]) <= p < End(path, segments[..i + 1])
  }

  lemma {:induction false} EndMonotone(path: seq<Entry>, segments: seq<Checkpoint>, rollings: seq<Checkpoint>, i: nat, j: nat)
    requires Tiled(path, segments, rollings) && i <= j <= |segments|
    ensures End(path, segments[..i]) <= End(path, segments[..j])
    decreases |segments|
  {
    assert segments[..|segments|] == segments;
    if i < |segments| {
      var n := |segments| - 1;
      EndMonotone(path, segments[..n], rollings[..n], i, if j <= n then j else n);
      assert segments[..n][..i] == segments[..i];
      assert segments[..n][..if j <= n then j else n] == segments[..if j <= n then j else n];
    }
  }

  /** The segment a covered position lies in. */
  lemma SegmentAt(path: seq<Entry>, segments: seq<Checkpoint>, p: nat) returns (i: nat)
    requires p < End(path, segments) && segments != []
    requires p >= End(path, [])
    ensures InSegment(path, segments, i, p)
  {
    assert segments[..|segments|] == segments && segments[..0] == [];
    i := 0;
    while End(path, segments[..i + 1]) <= p
      invariant i < |segments| && End(path, segments[..i]) <= p
      decreases |segments| - i
    {
      i := i + 1;
    }
  }

  lemma OneSegmentOnly(path: seq<Entry>, segments: seq<Checkpoint>, rollings: seq<Checkpoint>, p: nat, i: nat, j: nat)
    requires Tiled(path, segments, rollings)
    requires InSegment(path, segments, i, p) && InSegment(path, segments, j, p)
    ensures i == j
  {
    if i < j {
      EndMonotone(path, segments, rollings, i + 1, j);
    } else if j < i {
      EndMonotone(path, segments, rollings, j + 1, i);
    }
  }

  /** In a tiling, every covered path position lies in exactly one segment, and no other position in any. */
  lemma ExactlyOneSegment(path: seq<Entry>, segments: seq<Checkpoint>, rollings: seq<Checkpoint>, p: nat)
    requires Tiled(path, segments, rollings)
    ensures p < End(path, segments) <==> exists i: nat :: InSegment(path, segments, i, p)
    ensures forall i: nat, j: nat | InSegment(path, segments, i, p) && InSegment(path, segments, j, p) :: i == j
  {
    if p < End(path, segments) {
      var i := SegmentAt(path, segments, p);
    }
    forall i: nat | InSegment(path, segments, i, p) ensures p < End(path, segments) {
      EndMonotone(path, segments, rollings, i + 1, |segments|);
      assert segments[..|segments|] == segments;
    }
    forall i: nat, j: nat | InSegment(path, segments, i, p) && InSegment(path, segments, j, p) ensures i == j {
      OneSegmentOnly(path, segments, rollings, p, i, j);
    }
  }

  // ----- mutual exclusion between a load and its persist -----

  ghost predicate Effective(s: State, events: seq<Event>, i: nat)
    requires i < |events|
  {
    Enabled(Run(s, events[..i]), events[i])
  }

  lemma LeaseMovesOn(s: State, event: Event, owner: Owner)
    requires owner in s.compactors && (s.lease.None? || s.lease.value.owner != owner)
    ensures var t := Step(s, event); owner in t.compactors && (t.lease.None? || t.lease.value.owner != owner)
  {}

  /** A compactor that has lost the lease never holds it again. */
  lemma {:induction false} LostLeaseStaysLost(s: State, events: seq<Event>, first: nat, last: nat, owner: Owner)
    requires first <= last <= |events|
    requires var m := Run(s, events[..first]); owner in m.compactors && (m.lease.None? || m.lease.value.owner != owner)
    ensures var t := Run(s, events[..last]); owner in t.compactors && (t.lease.None? || t.lease.value.owner != owner)
    decreases last
  {
    if first < last {
      LostLeaseStaysLost(s, events, first, last - 1, owner);
      assert events[..last][..last - 1] == events[..last - 1];
      LeaseMovesOn(Run(s, events[..last - 1]), events[last - 1], owner);
    }
  }

  lemma {:induction false} CompactorsRemain(s: State, events: seq<Event>, first: nat, last: nat, owner: Owner)
    requires first <= last <= |events| && owner in Run(s, events[..first]).compactors
    ensures owner in Run(s, events[..last]).compactors
    decreases last
  {
    if first < last {
      CompactorsRemain(s, events, first, last - 1, owner);
      assert events[..last][..last - 1] == events[..last - 1];
    }
  }

  lemma EndedStep(s: State, event: Event, owner: Owner)
    requires owner in s.compactors && s.compactors[owner].phase.Ended?
    ensures var t := Step(s, event); owner in t.compactors && t.compactors[owner].phase.Ended?
  {}

  /** A compactor that has persisted or released never persists again. */
  lemma {:induction false} EndedStaysEnded(s: State, events: seq<Event>, first: nat, last: nat, owner: Owner)
    requires first <= last <= |events|
    requires var m := Run(s, events[..first]); owner in m.compactors && m.compactors[owner].phase.Ended?
    ensures var t := Run(s, events[..last]); owner in t.compactors && t.compactors[owner].phase.Ended?
    decreases last
  {
    if first < last {
      EndedStaysEnded(s, events, first, last - 1, owner);
      assert events[..last][..last - 1] == events[..last - 1];
      EndedStep(Run(s, events[..last - 1]), events[last - 1], owner);
    }
  }

  /** Whoever persists after a compactor has read the path, that compactor cannot persist any more. */
  lemma PersistBlocks(s: State, events: seq<Event>, other: nat, own: nat)
    requires other < own < |events| && events[other].Persist? && Effective(s, events, other)
    requires events[own].Persist? && events[own].owner in Run(s, events[..other]).compactors
    ensures !Effective(s, events, own)
  {
    var owner := events[own].owner;
    if events[other].owner == owner {
      assert events[..other + 1][..other] == events[..other];
      EndedStaysEnded(s, events, other + 1, own, owner);
    } else {
      LostLeaseStaysLost(s, events, other, own, owner);
    }
  }

  /** No persist at all takes effect between a compactor's load and its own successful persist. */
  lemma NoPersistBetween(s: State, events: seq<Event>, load: nat, own: nat)
    requires load < own < |events|
    requires events[load].ReadEntries? && Effective(s, events, load)
    requires events[own].Persist? && Effective(s, events, own) && events[own].owner == events[load].owner
    ensures forall other | load < other < own && events[other].Persist? :: !Effective(s, events, other)
  {
    forall other | load < other < own && events[other].Persist? ensures !Effective(s, events, other) {
      if Effective(s, events, other) {
        CompactorsRemain(s, events, load, other, events[load].owner);
        PersistBlocks(s, events, other, own);
      }
    }
  }

  const TwoTurns := [Entry(0, Some("user"), 4), Entry(1, Some("user"), 4)]

  function AfterTurns(phases: map<Owner, Compactor>, lease: Option<Lease>): State {
    State(0, 2, TwoTurns, lease, [], phases)
  }

  lemma OneMoreStep(s: State, events: seq<Event>, e: Event, t: State)
    requires Step(Run(s, events), e) == t
    ensures Run(s, events + [e]) == t
    ensures forall i | 0 <= i <= |events| :: (events + [e])[..i] == events[..i]
  {
    assert (events + [e])[..|events|] == events;
  }

  lemma TurnsAppended(s: State, user: Event)
    requires s == State(0, 0, [], None, [], map[]) && user == Append(Some("user"), 4)
    ensures Run(s, [user, user]) == AfterTurns(map[], None)
  {
    var one := State(0, 1, [TwoTurns[0]], None, [], map[]);
    assert [user] == [] + [user] && [user, user] == [user] + [user];
    OneMoreStep(s, [], user, one);
    OneMoreStep(s, [user], user, AfterTurns(map[], None));
  }

  lemma ClaimedAndRead(lease: Option<Lease>)
    requires lease == Some(Lease(0, 60, None))
    ensures Step(AfterTurns(map[], None), Claim(0, "v", 1.0, 60)) == AfterTurns(map[0 := Compactor("v", 1.0, Claimed)], lease)
    ensures var s := AfterTurns(map[0 := Compactor("v", 1.0, Claimed)], lease);
            Enabled(s, ReadEntries(0)) && Step(s, ReadEntries(0)) == AfterTurns(map[0 := Compactor("v", 1.0, Reading(TwoTurns, 2))], lease)
  {}

  lemma LoadedAndPersisted(lease: Option<Lease>)
    requires lease == Some(Lease(0, 60, None))
    ensures var loaded := AfterTurns(map[0 := Compactor("v", 1.0, Loaded(TwoTurns, 2, [], []))], lease);
            && Step(AfterTurns(map[0 := Compactor("v", 1.0, Reading(TwoTurns, 2))], lease), ReadCheckpoints(0)) == loaded
            && Enabled(loaded, Persist(0, 1))
  {
    TwoTurnsCut(TwoTurns);
    assert Pending(TwoTurns, []) == TwoTurns;
  }

  /** Two turns are enough for a load followed by a persist of the first of them. */
  lemma PersistHappens() returns (s: State, events: seq<Event>)
    ensures Initial(s) && |events| == 6
    ensures events[3] == ReadEntries(0) && Effective(s, events, 3)
    ensures events[5] == Persist(0, 1) && Effective(s, events, 5)
  {
    s := State(0, 0, [], None, [], map[]);
    var user, lease := Append(Some("user"), 4), Some(Lease(0, 60, None));
    var two := [user, user];
    TurnsAppended(s, user);
    ClaimedAndRead(lease);
    LoadedAndPersisted(lease);
    var claimed := two + [Claim(0, "v", 1.0, 60)];
    OneMoreStep(s, two, Claim(0, "v", 1.0, 60), AfterTurns(map[0 := Compactor("v", 1.0, Claimed)], lease));
    var reading := claimed + [ReadEntries(0)];
    OneMoreStep(s, claimed, ReadEntries(0), AfterTurns(map[0 := Compactor("v", 1.0, Reading(TwoTurns, 2))], lease));
    var loaded := reading + [ReadCheckpoints(0)];
    OneMoreStep(s, reading, ReadCheckpoints(0), AfterTurns(map[0 := Compactor("v", 1.0, Loaded(TwoTurns, 2, [], []))], lease));
    events := loaded + [Persist(0, 1)];
    assert events[..5] == loaded && events[..3] == claimed;
  }

  lemma TwoTurnsCut(path: seq<Entry>)
    requires |path| == 2 && IsTurn(path[1]) && path[1].characters == 4
    ensures Cut(path, 1.0, 1)
  {
    assert path[1..][1..] == [] && Total(path[1..]) == 1;
    assert RecentStart(path, Target(1.0), 1) && KeptFrom(path, 1, 1);
  }
}
