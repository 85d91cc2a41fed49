/**
 * Durable session compaction: any number of compactors, one lease row and one
 * append-only checkpoint table a session. Each event below is one SQL
 * statement or transaction; a crash is a compactor whose events stop.
 *
 * The session path is a stack of entries with ever-growing ids: a turn pushes
 * an entry, a rewind pops down to an earlier one. The two reads of a load are
 * separate statements, so the path may move between them.
 */
module CompactionProtocol {
  import opened Options
  import opened CompactionPrefix

  type Owner = nat

  datatype Kind = Segment | Rolling

  datatype Checkpoint = Checkpoint(kind: Kind, version: string, source: nat, start: nat, end: nat)

  datatype Lease = Lease(owner: Owner, expires: nat, lastError: Option<string>)

  /** `horizon` is a history variable: the next entry id when the entries were read. */
  datatype Phase =
    | Claimed
    | Reading(entries: seq<Entry>, horizon: nat)
    | Loaded(entries: seq<Entry>, horizon: nat, segments: seq<Checkpoint>, rollings: seq<Checkpoint>)
    | Ended

  datatype Compactor = Compactor(version: string, keep: real, phase: Phase)

  datatype State = State(
    now: nat,
    nextId: nat,
    path: seq<Entry>,
    lease: Option<Lease>,
    checkpoints: seq<Checkpoint>,
    compactors: map<Owner, Compactor>)

  datatype Event =
    | Tick
    | Append(role: Option<string>, characters: nat)
    | Rewind(keep: nat)
    | Claim(owner: Owner, version: string, keepTokens: real, seconds: nat)
    | Heartbeat(owner: Owner, seconds: nat)
    | ReadEntries(owner: Owner)
    | ReadCheckpoints(owner: Owner)
    | Persist(owner: Owner, covered: nat)
    | Release(owner: Owner, error: Option<string>)

  // ----- reads -----

  ghost predicate OnPath(path: seq<Entry>, id: nat) {
    exists i | 0 <= i < |path| :: path[i].id == id
  }

  ghost predicate Matches(c: Checkpoint, kind: Kind, version: string, path: seq<Entry>) {
    c.kind == kind && c.version == version && OnPath(path, c.source)
  }

  /** The checkpoints of one kind and algorithm version whose source leaf is on the path, oldest first. */
  ghost function Visible(checkpoints: seq<Checkpoint>, kind: Kind, version: string, path: seq<Entry>): seq<Checkpoint> {
    if checkpoints == [] then []
    else
      var last := checkpoints[|checkpoints| - 1];
      Visible(checkpoints[..|checkpoints| - 1], kind, version, path)
      + if Matches(last, kind, version, path) then [last] else []
  }

  // ----- what a compactor derives from what it loaded -----

  function LatestEnd(segments: seq<Checkpoint>): Option<nat> {
    if segments == [] then None else Some(segments[|segments| - 1].end)
  }

  function Pending(entries: seq<Entry>, segments: seq<Checkpoint>): seq<Entry> {
    entries[IndexAfter(entries, LatestEnd(segments))..]
  }

  function Leaf(entries: seq<Entry>): nat
    requires entries != []
  {
    entries[|entries| - 1].id
  }

  function SegmentFor(version: string, entries: seq<Entry>, segments: seq<Checkpoint>, covered: nat): Checkpoint
    requires 0 < covered <= |Pending(entries, segments)|
  {
    var pending := Pending(entries, segments);
    Checkpoint(Segment, version, Leaf(entries), pending[0].id, pending[covered - 1].id)
  }

  const REBASE_INTERVAL := 5

  predicate Rebased(segments: seq<Checkpoint>) {
    |segments| > 1 && |segments| % REBASE_INTERVAL == 0
  }

  function RollingFor(segments: seq<Checkpoint>, rollings: seq<Checkpoint>, segment: Checkpoint): Checkpoint {
    var start :=
      if Rebased(segments + [segment]) then (segments + [segment])[0].start
      else if rollings != [] then rollings[|rollings| - 1].start
      else segment.start;
    segment.(kind := Rolling, start := start)
  }

  /** The compactor goes on to persist: it covers something, and not what the latest segment already covers. */
  predicate Proceeds(entries: seq<Entry>, segments: seq<Checkpoint>, covered: nat) {
    && 0 < covered <= |Pending(entries, segments)|
    && !(segments != []
         && segments[|segments| - 1].source == Leaf(entries)
         && segments[|segments| - 1].end == Pending(entries, segments)[covered - 1].id)
  }

  /** `INSERT ... ON CONFLICT DO NOTHING` on (kind, source leaf, covered end, version). */
  function Insert(checkpoints: seq<Checkpoint>, c: Checkpoint): seq<Checkpoint> {
    if exists i | 0 <= i < |checkpoints| :: SameKey(checkpoints[i], c) then checkpoints else checkpoints + [c]
  }

  predicate SameKey(a: Checkpoint, b: Checkpoint) {
    a.kind == b.kind && a.source == b.source && a.end == b.end && a.version == b.version
  }

  // ----- the lease row -----

  predicate Claimable(lease: Option<Lease>, now: nat, owner: Owner) {
    lease.None? || lease.value.expires <= now || lease.value.owner == owner
  }

  predicate Holds(lease: Option<Lease>, now: nat, owner: Owner) {
    lease.Some? && lease.value.owner == owner && lease.value.expires > now
  }

  function Released(lease: Option<Lease>, now: nat, owner: Owner, error: Option<string>): Option<Lease> {
    if lease.Some? && lease.value.owner == owner
    then Some(lease.value.(expires := now, lastError := error))
    else lease
  }

  // ----- the transition system -----

  ghost predicate InPhase(s: State, owner: Owner, claimed: bool, reading: bool, loaded: bool) {
    owner in s.compactors
    && ((claimed && s.compactors[owner].phase.Claimed?)
        || (reading && s.compactors[owner].phase.Reading?)
        || (loaded && s.compactors[owner].phase.Loaded?))
  }

  ghost predicate Enabled(s: State, event: Event) {
    match event
    case Tick => true
    case Append(_, _) => true
    case Rewind(keep) => keep <= |s.path|
    // Every compactSession call makes up its own owner name.
    case Claim(owner, _, _, _) => owner !in s.compactors && Claimable(s.lease, s.now, owner)
    case Heartbeat(owner, _) => Holds(s.lease, s.now, owner)
    case ReadEntries(owner) => InPhase(s, owner, true, false, false)
    case ReadCheckpoints(owner) => InPhase(s, owner, false, true, false)
    case Persist(owner, covered) =>
      && InPhase(s, owner, false, false, true)
      && Holds(s.lease, s.now, owner)
      && var c := s.compactors[owner];
         && c.phase.entries != []
         && Cut(Pending(c.phase.entries, c.phase.segments), c.keep, covered)
         && Proceeds(c.phase.entries, c.phase.segments, covered)
    case Release(owner, _) => owner in s.compactors
  }

  ghost function Next(s: State, event: Event): State
    requires Enabled(s, event)
  {
    match event
    case Tick => s.(now := s.now + 1)
    case Append(role, characters) =>
      s.(path := s.path + [Entry(s.nextId, role, characters)], nextId := s.nextId + 1)
    case Rewind(keep) => s.(path := s.path[..keep])
    case Claim(owner, version, keepTokens, seconds) =>
      s.(lease := Some(Lease(owner, s.now + seconds, None)),
         compactors := s.compactors[owner := Compactor(version, keepTokens, Claimed)])
    case Heartbeat(owner, seconds) =>
      s.(lease := Some(s.lease.value.(expires := s.now + seconds)))
    case ReadEntries(owner) =>
      s.(compactors := s.compactors[owner := s.compactors[owner].(phase := Reading(s.path, s.nextId))])
    case ReadCheckpoints(owner) =>
      var c := s.compactors[owner];
      s.(compactors := s.compactors[owner := c.(phase := Loaded(c.phase.entries, c.phase.horizon,
          Visible(s.checkpoints, Segment, c.version, s.path),
          Visible(s.checkpoints, Rolling, c.version, s.path)))])
    case Persist(owner, covered) =>
      var c := s.compactors[owner];
      var segment := SegmentFor(c.version, c.phase.entries, c.phase.segments, covered);
      var rolling := RollingFor(c.phase.segments, c.phase.rollings, segment);
      s.(checkpoints := Insert(Insert(s.checkpoints, segment), rolling),
         lease := Some(s.lease.value.(lastError := None)),
         compactors := s.compactors[owner := c.(phase := Ended)])
    case Release(owner, error) =>
      s.(lease := Released(s.lease, s.now, owner, error),
         compactors := s.compactors[owner := s.compactors[owner].(phase := Ended)])
  }

  /** An event that is not enabled changes nothing: the statement matches no row, or the caller gives up. */
  ghost function Step(s: State, event: Event): State {
    if Enabled(s, event) then Next(s, event) else s
  }

  ghost function Run(s: State, events: seq<Event>): State {
    if events == [] then s else Step(Run(s, events[..|events| - 1]), events[|events| - 1])
  }

  ghost predicate Initial(s: State) {
    s.path == [] && s.lease == None && s.checkpoints == [] && s.compactors == map[]
  }

  // ----- the sequence invariant -----

  ghost predicate Ordered(path: seq<Entry>, bound: nat) {
    && (forall i, j | 0 <= i < j < |path| :: path[i].id < path[j].id)
    && forall i | 0 <= i < |path| :: path[i].id < bound
  }

  /** How many path entries the segments cover: up to the end of the last one. */
  function End(path: seq<Entry>, segments: seq<Checkpoint>): nat {
    IndexAfter(path, LatestEnd(segments))
  }

  /**
   * The segments tile a prefix of the path: each starts right where the one
   * before it ended, covers at least one entry, and ends no later than the
   * leaf it was made from, which only moves on. Beside every segment stands
   * the rolling checkpoint that covers exactly the segments so far.
   */
  ghost predicate Tiled(path: seq<Entry>, segments: seq<Checkpoint>, rollings: seq<Checkpoint>) {
    && |segments| == |rollings|
    && (segments == [] ||
        (var n := |segments| - 1;
         && Tiled(path, segments[..n], rollings[..n])
         && Continues(path, segments[..n], segments[n])
         && rollings[n] == segments[n].(kind := Rolling, start := segments[0].start)))
  }

  ghost predicate Continues(path: seq<Entry>, older: seq<Checkpoint>, segment: Checkpoint) {
    && End(path, older) < IndexAfter(path, Some(segment.end))
    && path[End(path, older)].id == segment.start
    && segment.end <= segment.source
    && segment.kind == Segment
    && forall i | 0 <= i < |older| :: older[i].source <= segment.source
  }

  ghost predicate VersionTiled(checkpoints: seq<Checkpoint>, version: string, path: seq<Entry>) {
    Tiled(path, Visible(checkpoints, Segment, version, path), Visible(checkpoints, Rolling, version, path))
  }

  ghost predicate AllTiled(s: State) {
    forall version :: VersionTiled(s.checkpoints, version, s.path)
  }

  ghost predicate SourcesBelow(checkpoints: seq<Checkpoint>, bound: nat) {
    forall i | 0 <= i < |checkpoints| :: checkpoints[i].source < bound
  }

  /** While its leaf is still on the path, what a compactor read is the path's beginning. */
  ghost predicate EntriesCurrent(s: State, entries: seq<Entry>, horizon: nat) {
    && horizon <= s.nextId
    && Ordered(entries, horizon)
    && (entries != [] && OnPath(s.path, Leaf(entries)) ==>
          && entries <= s.path
          && forall i | |entries| <= i < |s.path| :: s.path[i].id >= horizon)
  }

  /** While its lease stands, nobody else has persisted, so the checkpoints it read are the current ones. */
  ghost predicate CheckpointsCurrent(s: State, c: Compactor)
    requires c.phase.Reading? || c.phase.Loaded?
  {
    && SourcesBelow(s.checkpoints, c.phase.horizon)
    && (c.phase.Loaded? && c.phase.entries != [] && OnPath(s.path, Leaf(c.phase.entries)) ==>
          && c.phase.segments == Visible(s.checkpoints, Segment, c.version, s.path)
          && c.phase.rollings == Visible(s.checkpoints, Rolling, c.version, s.path))
  }

  ghost predicate CompactorOk(s: State, owner: Owner)
    requires owner in s.compactors
  {
    var c := s.compactors[owner];
    c.phase.Reading? || c.phase.Loaded? ==>
      && EntriesCurrent(s, c.phase.entries, c.phase.horizon)
      && (s.lease.Some? && s.lease.value.owner == owner ==> CheckpointsCurrent(s, c))
  }

  ghost predicate Inv(s: State) {
    && Ordered(s.path, s.nextId)
    && SourcesBelow(s.checkpoints, s.nextId)
    && AllTiled(s)
    && forall owner | owner in s.compactors :: CompactorOk(s, owner)
  }
}
