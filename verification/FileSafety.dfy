/**
 * Stored files under concurrent verification, deduplication, deletion and
 * orphan collection. Hashing and physical deletion happen outside any
 * transaction, so every worker is a little state machine of its own and may
 * stop for good between any two of its steps.
 *
 * Environment: an upload takes a new file, blob row and location. Its bytes
 * are stored first, or the rows are reserved first and the bytes arrive later,
 * while nothing is stored there and the blob is not scheduled for deletion;
 * bytes of another size than declared may be dropped again. A reference is
 * only ever added to a live file, and an upload finishes on a live file.
 */
module FileSafety {
  import opened Options
  import opened FileRows

  type WorkerId = nat

  datatype Worker =
    | Hashing(blob: BlobId, outbox: Option<OutboxId>, epoch: Option<nat>, row: Blob)
    | Hashed(blob: BlobId, outbox: Option<OutboxId>, epoch: Option<nat>, row: Blob, digest: Digest)
    | Erasing(blob: BlobId, receipt: OutboxId, delivery: nat, row: Blob)
    | Erased(blob: BlobId, receipt: OutboxId, delivery: nat)

  datatype System = System(rows: Rows, workers: map<WorkerId, Worker>)

  datatype Event =
    | Tick
    | Upload(file: FileId, newBlob: BlobId, location: Location, bytes: Bytes, declared: Option<Digest>, expected: Option<Digest>)
    | Reserve(file: FileId, newBlob: BlobId, location: Location, size: nat, expected: Option<Digest>, uploading: Reference)
    | Arrive(blob: BlobId, bytes: Bytes)
    | DropMismatch(blob: BlobId)
    | FinishUpload(file: FileId, indexed: bool)
    | FailUpload(file: FileId, kept: set<Reference>)
    | AddReference(file: FileId, reference: Reference)
    | DropReference(file: FileId, reference: Reference)
    | Collect(file: FileId)
    | DispatchVerify(blob: BlobId)
    | DeadLetterVerify(blob: BlobId)
    | ReopenVerify(blob: BlobId)
    | PurgeVerify(blob: BlobId)
    | DispatchDelete(blob: BlobId)
    | DeadLetterDelete(blob: BlobId)
    | PurgeDelete(blob: BlobId)
    | StartVerify(worker: WorkerId, blob: BlobId, outbox: Option<OutboxId>, epoch: Option<nat>)
    | Hash(worker: WorkerId)
    | Finalize(worker: WorkerId, winner: Option<BlobId>)
    | FailVerify(worker: WorkerId, integrity: bool)
    | StartDelete(worker: WorkerId, blob: BlobId, receipt: OutboxId, delivery: nat)
    | Erase(worker: WorkerId)
    | ReleaseClaim(worker: WorkerId)
    | CompleteDelete(worker: WorkerId)

  predicate IsHashed(s: System, w: WorkerId) {
    w in s.workers && s.workers[w].Hashed? && s.workers[w].blob in s.rows.blobs
  }

  predicate IsErased(s: System, w: WorkerId) {
    w in s.workers && s.workers[w].Erased? && s.workers[w].blob in s.rows.blobs
  }

  predicate IsErasing(s: System, w: WorkerId) {
    w in s.workers && s.workers[w].Erasing? && s.workers[w].blob in s.rows.blobs
  }

  ghost predicate WinnerQuery(rows: Rows, b: BlobId, digest: Digest, winner: Option<BlobId>) {
    match winner
    case Some(w) => IsWinner(rows, b, digest, w)
    case None => forall w :: !IsWinner(rows, b, digest, w)
  }

  function Finalized(s: System, w: WorkerId, winner: Option<BlobId>): Option<Rows>
    requires IsHashed(s, w)
  {
    var p := s.workers[w];
    FinalizeVerification(s.rows, p.blob, p.outbox, p.epoch, p.digest, Expected(p.row), winner)
  }

  function Completed(s: System, w: WorkerId): Option<Rows>
    requires IsErased(s, w)
  {
    var p := s.workers[w];
    CompleteDeletion(s.rows, p.blob, p.receipt, p.delivery)
  }

  ghost predicate Enabled(s: System, e: Event) {
    var r := s.rows;
    match e
    case Tick => true
    case Upload(f, b, location, _, _, _) =>
      NewUpload(r, f, b, location)
    case Reserve(f, b, location, _, _, _) => NewUpload(r, f, b, location) && location !in r.objects
    case Arrive(b, _) => b in r.blobs && !Doomed(r.blobs[b].status) && r.blobs[b].location !in r.objects
    case DropMismatch(b) =>
      b in r.blobs && r.blobs[b].location in r.objects && |r.objects[r.blobs[b].location]| != r.blobs[b].size
    case FinishUpload(f, _) =>
      f in r.files && !r.files[f].deleted && r.files[f].blob.Some? && r.files[f].blob.value in r.blobs && Complete(r, r.files[f].blob.value)
    case FailUpload(f, kept) => f in r.files && kept <= r.files[f].references
    case AddReference(f, _) => f in r.files && !r.files[f].deleted
    case DropReference(f, _) => f in r.files
    case Collect(f) => f in r.files && (r.files[f].blob.Some? ==> r.files[f].blob.value in r.blobs)
    case DispatchVerify(b) => b in r.verifyRows
    case DeadLetterVerify(b) => b in r.verifyRows
    case ReopenVerify(b) => b in r.blobs
    case PurgeVerify(b) => b in r.verifyRows && r.verifyRows[b].completed
    case DispatchDelete(b) => b in r.deleteRows
    case DeadLetterDelete(b) => b in r.deleteRows
    case PurgeDelete(b) => b in r.deleteRows && r.deleteRows[b].completed
    case StartVerify(w, b, _, _) => w !in s.workers && b in r.blobs
    case Hash(w) =>
      && w in s.workers && s.workers[w].Hashing?
      && s.workers[w].row.location in r.objects
      && |r.objects[s.workers[w].row.location]| == s.workers[w].row.size
    case Finalize(w, winner) =>
      && IsHashed(s, w)
      && WinnerQuery(r, s.workers[w].blob, s.workers[w].digest, winner)
      && Finalized(s, w, winner).Some?
    case FailVerify(w, _) =>
      w in s.workers && (s.workers[w].Hashing? || s.workers[w].Hashed?) && s.workers[w].blob in r.blobs
    case StartDelete(w, b, receipt, delivery) => w !in s.workers && b in r.blobs && !ClaimDeletion(r, b, receipt, delivery).Refused?
    case Erase(w) => IsErasing(s, w)
    case ReleaseClaim(w) => IsErasing(s, w)
    case CompleteDelete(w) => IsErased(s, w) && Completed(s, w).Some?
  }

  /** All the declared bytes of the blob are in the object store. */
  predicate Complete(r: Rows, b: BlobId)
    requires b in r.blobs
  {
    r.blobs[b].location in r.objects && |r.objects[r.blobs[b].location]| == r.blobs[b].size
  }

  /** Bytes stored first, then the rows. */
  function Uploaded(
    r: Rows, f: FileId, b: BlobId, location: Location, bytes: Bytes, declared: Option<Digest>, expected: Option<Digest>): Rows
  {
    r.(blobs := r.blobs[b := Blob(location, |bytes|, declared, expected, Unverified, None, false, None, r.now)],
       objects := r.objects[location := bytes],
       files := r.files[f := File(Some(b), false, {}, Available, None)])
  }

  /** The rows of a multipart upload, before any bytes. */
  function Reserved(r: Rows, f: FileId, b: BlobId, location: Location, size: nat, expected: Option<Digest>, uploading: Reference): Rows {
    r.(blobs := r.blobs[b := Blob(location, size, None, expected, Unverified, None, false, None, r.now)],
       files := r.files[f := File(Some(b), false, {uploading}, InProgress, None)])
  }

  predicate NewUpload(r: Rows, f: FileId, b: BlobId, location: Location) {
    f !in r.files && b !in r.blobs && forall x | x in r.blobs :: r.blobs[x].location != location
  }

  /** `completeUpload` after its size check: the file opens, a failed blob is verified again. */
  function Finished(r: Rows, f: FileId, indexed: bool): Rows
    requires f in r.files && r.files[f].blob.Some? && r.files[f].blob.value in r.blobs
  {
    var b := r.files[f].blob.value;
    r.(files := r.files[f := r.files[f].(status := if indexed then Processing else Available)],
       blobs := r.blobs[b := r.blobs[b].(status := if r.blobs[b].status == Failed then Unverified else r.blobs[b].status,
                                         updatedAt := r.now)],
       verifyRows := Reopened(r.verifyRows, b, r.nextRow), nextRow := r.nextRow + 1)
  }

  function Closed(rowsOf: map<BlobId, Row>, b: BlobId): map<BlobId, Row>
    requires b in rowsOf
  {
    rowsOf[b := rowsOf[b].(completed := true, deadLettered := true)]
  }

  function Dispatched(rowsOf: map<BlobId, Row>, b: BlobId): map<BlobId, Row>
    requires b in rowsOf
  {
    rowsOf[b := rowsOf[b].(epoch := rowsOf[b].epoch + 1)]
  }

  ghost function Next(s: System, e: Event): System
    requires Enabled(s, e)
  {
    var r := s.rows;
    match e
    case Tick => s.(rows := r.(now := r.now + 1))
    case Upload(f, b, location, bytes, declared, expected) =>
      s.(rows := Uploaded(r, f, b, location, bytes, declared, expected))
    case Reserve(f, b, location, size, expected, uploading) =>
      s.(rows := Reserved(r, f, b, location, size, expected, uploading))
    case Arrive(b, bytes) => s.(rows := r.(objects := r.objects[r.blobs[b].location := bytes]))
    case DropMismatch(b) => s.(rows := r.(objects := r.objects - {r.blobs[b].location}))
    case FinishUpload(f, indexed) => s.(rows := Finished(r, f, indexed))
    case FailUpload(f, kept) => s.(rows := r.(files := r.files[f := r.files[f].(status := UploadFailed, references := kept)]))
    case AddReference(f, reference) => s.(rows := Associated(r, f, reference))
    case DropReference(f, reference) =>
      s.(rows := r.(files := r.files[f := r.files[f].(references := r.files[f].references - {reference})]))
    case Collect(f) => s.(rows := CollectFile(r, f))
    case DispatchVerify(b) => s.(rows := r.(verifyRows := Dispatched(r.verifyRows, b)))
    case DeadLetterVerify(b) => s.(rows := r.(verifyRows := Closed(r.verifyRows, b)))
    case ReopenVerify(b) => s.(rows := r.(verifyRows := Reopened(r.verifyRows, b, r.nextRow), nextRow := r.nextRow + 1))
    case PurgeVerify(b) => s.(rows := r.(verifyRows := r.verifyRows - {b}))
    case DispatchDelete(b) => s.(rows := r.(deleteRows := Dispatched(r.deleteRows, b)))
    case DeadLetterDelete(b) => s.(rows := r.(deleteRows := Closed(r.deleteRows, b)))
    case PurgeDelete(b) => s.(rows := r.(deleteRows := r.deleteRows - {b}))
    case StartVerify(w, b, outbox, epoch) =>
      var (claimed, row) := ClaimVerification(r, b, outbox, epoch);
      System(claimed, if row.Some? then s.workers[w := Hashing(b, outbox, epoch, row.value)] else s.workers)
    case Hash(w) =>
      var p := s.workers[w];
      s.(workers := s.workers[w := Hashed(p.blob, p.outbox, p.epoch, p.row, Sha256(r.objects[p.row.location]))])
    case Finalize(w, winner) => System(Finalized(s, w, winner).value, s.workers - {w})
    case FailVerify(w, integrity) => System(RecordFailure(r, s.workers[w].blob, integrity), s.workers - {w})
    case StartDelete(w, b, receipt, delivery) =>
      (match ClaimDeletion(r, b, receipt, delivery)
       case Granted(granted, row) => System(granted, s.workers[w := Erasing(b, receipt, delivery, row)])
       case other => s.(rows := other.rows))
    case Erase(w) =>
      var p := s.workers[w];
      System(r.(objects := r.objects - {p.row.location}), s.workers[w := Erased(p.blob, p.receipt, p.delivery)])
    case ReleaseClaim(w) =>
      System(ReleaseDeletionClaim(r, s.workers[w].blob, s.workers[w].receipt), s.workers - {w})
    case CompleteDelete(w) => System(Completed(s, w).value, s.workers - {w})
  }

  ghost function Step(s: System, e: Event): System {
    if Enabled(s, e) then Next(s, e) else s
  }

  ghost function Run(s: System, events: seq<Event>): System {
    if events == [] then s else Step(Run(s, events[..|events| - 1]), events[|events| - 1])
  }

  // ----- the invariant -----

  ghost predicate BlobOk(r: Rows, b: BlobId)
    requires b in r.blobs
  {
    var blob := r.blobs[b];
    && (blob.status == Deleted <==> blob.deleted)
    && (blob.deleted ==> blob.location !in r.objects)
    && (blob.status == Verified ==> Complete(r, b) && blob.sha256 == Some(Sha256(r.objects[blob.location])))
    && (blob.status == Verifying && b in r.verifyRows ==>
          !r.verifyRows[b].completed || r.verifyRows[b].deadLettered)
    && (b in r.deleteRows ==> Doomed(blob.status))
  }

  /** The upload was finished, whatever verification found since. */
  predicate WasUploaded(file: File) {
    file.status in {Scanning, Processing, Available} || (file.status == Quarantined && file.quarantine.Some?)
  }

  ghost predicate FileOk(r: Rows, f: FileId)
    requires f in r.files
  {
    var file := r.files[f];
    && (file.deleted ==> file.references == {})
    && (file.blob.Some? ==>
          && file.blob.value in r.blobs
          && (!file.deleted ==> !Doomed(r.blobs[file.blob.value].status))
          && (!file.deleted && WasUploaded(file) ==> Complete(r, file.blob.value)))
  }

  ghost predicate SameContent(a: Blob, b: Blob) {
    a.status == Verified && b.status == Verified && a.sha256 == b.sha256 && a.size == b.size
  }

  ghost predicate LocationsDistinct(r: Rows) {
    forall a, b | a in r.blobs && b in r.blobs && a != b :: r.blobs[a].location != r.blobs[b].location
  }

  ghost predicate VerifiedUnique(r: Rows) {
    forall a, b | a in r.blobs && b in r.blobs && a != b :: !SameContent(r.blobs[a], r.blobs[b])
  }

  ghost predicate RowsOk(r: Rows) {
    && (forall b | b in r.blobs :: BlobOk(r, b))
    && (forall f | f in r.files :: FileOk(r, f))
    && (forall b | b in r.deleteRows :: b in r.blobs)
    && LocationsDistinct(r)
    && VerifiedUnique(r)
  }

  ghost predicate WorkerOk(r: Rows, p: Worker) {
    && p.blob in r.blobs
    && (p.Hashing? || p.Hashed? || p.Erasing? ==>
          p.row.location == r.blobs[p.blob].location && p.row.size == r.blobs[p.blob].size)
    && (p.Hashed? && !Doomed(r.blobs[p.blob].status) ==>
          Complete(r, p.blob) && p.digest == Sha256(r.objects[p.row.location]))
    && (p.Erasing? || p.Erased? ==> Doomed(r.blobs[p.blob].status))
    && (p.Erased? ==> r.blobs[p.blob].location !in r.objects)
  }

  ghost predicate Inv(s: System) {
    RowsOk(s.rows) && forall w | w in s.workers :: WorkerOk(s.rows, s.workers[w])
  }

  /** What every step keeps: blob identity and doom, and the complete bytes of every blob not doomed afterwards. */
  ghost predicate BlobGrows(r: Rows, t: Rows, b: BlobId)
    requires b in r.blobs
  {
    && b in t.blobs
    && t.blobs[b].location == r.blobs[b].location
    && t.blobs[b].size == r.blobs[b].size
    && (Doomed(r.blobs[b].status) ==> Doomed(t.blobs[b].status))
    && (Complete(r, b) && !Doomed(t.blobs[b].status) ==> t.blobs[b].location in t.objects)
    && (Complete(r, b) && t.blobs[b].location in t.objects ==>
          t.objects[t.blobs[b].location] == r.objects[t.blobs[b].location])
    && (Doomed(r.blobs[b].status) && t.blobs[b].location in t.objects ==> t.blobs[b].location in r.objects)
  }

  ghost predicate Grows(r: Rows, t: Rows) {
    && (forall b | b in r.blobs :: BlobGrows(r, t, b))
    && (forall f | f in r.files :: f in t.files && (r.files[f].deleted ==> t.files[f].deleted))
  }

  lemma WorkerKept(r: Rows, t: Rows, p: Worker)
    requires Grows(r, t) && WorkerOk(r, p)
    ensures WorkerOk(t, p)
  {
    assert BlobGrows(r, t, p.blob);
  }

  // ----- references and outbox rows -----

  /** A live file's blob is neither scheduled nor has it a deletion row, so adding a reference restores nothing. */
  lemma NothingToRestore(r: Rows, f: FileId, reference: Reference)
    requires RowsOk(r) && f in r.files && !r.files[f].deleted
    ensures Associated(r, f, reference) == r.(files := r.files[f := r.files[f].(references := r.files[f].references + {reference})])
  {
    assert FileOk(r, f);
    if r.files[f].blob.Some? { assert BlobOk(r, r.files[f].blob.value); }
  }

  lemma FileFramed(r: Rows, t: Rows, f: FileId)
    requires f in r.files && f in t.files && t.files[f] == r.files[f] && FileOk(r, f)
    requires t.blobs == r.blobs && t.objects == r.objects
    ensures FileOk(t, f)
  {}

  /** Only one file's references, or its status after a failed upload, change. */
  lemma OneFileKeeps(r: Rows, t: Rows, f: FileId)
    requires RowsOk(r) && f in r.files && f in t.files && t == r.(files := r.files[f := t.files[f]])
    requires t.files[f].blob == r.files[f].blob && t.files[f].deleted == r.files[f].deleted
    requires t.files[f].deleted ==> t.files[f].references == {}
    requires WasUploaded(t.files[f]) ==> WasUploaded(r.files[f])
    ensures RowsOk(t) && Grows(r, t)
  {
    assert FileOk(r, f);
    forall b | b in t.blobs ensures BlobOk(t, b) {
      assert BlobOk(r, b);
    }
    forall g | g in t.files ensures FileOk(t, g) {
      assert FileOk(r, g);
      if g != f { FileFramed(r, t, g); }
    }
  }

  /** Outbox rows and the clock may change: deletion rows never gain a blob, verification rows close no verifying one. */
  lemma RowChangeKeeps(r: Rows, t: Rows)
    requires RowsOk(r) && t.blobs == r.blobs && t.objects == r.objects && t.files == r.files
    requires t.deleteRows.Keys <= r.deleteRows.Keys
    requires forall b | b in t.verifyRows && b in r.blobs && r.blobs[b].status == Verifying ::
               !t.verifyRows[b].completed || t.verifyRows[b].deadLettered
    ensures RowsOk(t) && Grows(r, t)
  {
    forall b | b in t.blobs ensures BlobOk(t, b) {
      assert BlobOk(r, b);
    }
    forall f | f in t.files ensures FileOk(t, f) {
      assert FileOk(r, f);
      FileFramed(r, t, f);
    }
  }

  lemma RowEvent(s: System, e: Event)
    requires Inv(s) && Enabled(s, e)
    requires e.Tick? || e.DispatchVerify? || e.DeadLetterVerify? || e.ReopenVerify? || e.PurgeVerify?
          || e.DispatchDelete? || e.DeadLetterDelete? || e.PurgeDelete?
    ensures RowsOk(Next(s, e).rows) && Grows(s.rows, Next(s, e).rows)
  {
    forall b | b in s.rows.blobs ensures BlobOk(s.rows, b) {}
    RowChangeKeeps(s.rows, Next(s, e).rows);
  }

  // ----- uploads -----

  lemma UploadKeeps(
    r: Rows, f: FileId, b: BlobId, location: Location, bytes: Bytes, declared: Option<Digest>, expected: Option<Digest>)
    requires RowsOk(r) && NewUpload(r, f, b, location)
    ensures RowsOk(Uploaded(r, f, b, location, bytes, declared, expected)) && Grows(r, Uploaded(r, f, b, location, bytes, declared, expected))
  {
    var t := Uploaded(r, f, b, location, bytes, declared, expected);
    forall x | x in t.blobs ensures BlobOk(t, x) {
      if x != b { OthersUpload(r, f, b, location, bytes, declared, expected, x); }
    }
    forall g | g in t.files ensures FileOk(t, g) {
      if g != f { assert FileOk(r, g); }
    }
  }

  lemma OthersUpload(
    r: Rows, f: FileId, b: BlobId, location: Location, bytes: Bytes, declared: Option<Digest>, expected: Option<Digest>, x: BlobId)
    requires RowsOk(r) && NewUpload(r, f, b, location) && x in r.blobs
    ensures BlobOk(Uploaded(r, f, b, location, bytes, declared, expected), x)
  {
    assert BlobOk(r, x);
  }

  lemma ReserveKeeps(r: Rows, f: FileId, b: BlobId, location: Location, size: nat, expected: Option<Digest>, uploading: Reference)
    requires RowsOk(r) && NewUpload(r, f, b, location)
    ensures RowsOk(Reserved(r, f, b, location, size, expected, uploading)) && Grows(r, Reserved(r, f, b, location, size, expected, uploading))
  {
    var t := Reserved(r, f, b, location, size, expected, uploading);
    forall x | x in t.blobs ensures BlobOk(t, x) {
      if x != b { assert BlobOk(r, x); }
    }
    forall g | g in t.files ensures FileOk(t, g) {
      if g != f { assert FileOk(r, g); }
    }
  }

  /** Bytes arriving, or being dropped for their size, are nobody else's and never complete ones. */
  lemma ObjectsKeep(r: Rows, b: BlobId, t: Rows)
    requires RowsOk(r) && b in r.blobs && t == r.(objects := t.objects) && !Complete(r, b)
    requires forall x | x != r.blobs[b].location :: (x in t.objects <==> x in r.objects) && (x in r.objects ==> t.objects[x] == r.objects[x])
    requires r.blobs[b].location in t.objects ==> !Doomed(r.blobs[b].status)
    ensures RowsOk(t) && Grows(r, t)
  {
    forall x | x in t.blobs ensures BlobOk(t, x) {
      assert BlobOk(r, x);
    }
    forall f | f in t.files ensures FileOk(t, f) {
      assert FileOk(r, f);
    }
  }

  lemma FinishKeeps(r: Rows, f: FileId, indexed: bool)
    requires RowsOk(r) && f in r.files && !r.files[f].deleted && r.files[f].blob.Some?
    requires r.files[f].blob.value in r.blobs && Complete(r, r.files[f].blob.value)
    ensures RowsOk(Finished(r, f, indexed)) && Grows(r, Finished(r, f, indexed))
  {
    var t := Finished(r, f, indexed);
    forall b | b in t.blobs ensures BlobOk(t, b) {
      assert BlobOk(r, b);
    }
    forall g | g in t.files ensures FileOk(t, g) {
      assert FileOk(r, g);
    }
  }

  // ----- collection -----

  ghost predicate SameRowsBut(older: map<BlobId, Row>, newer: map<BlobId, Row>, b: BlobId) {
    forall x | x != b :: (x in newer <==> x in older) && (x in older ==> newer[x] == older[x])
  }

  /** One blob and its outbox rows change; it is not newly verified, and doomed only when no live file has it. */
  lemma OneBlobKeeps(r: Rows, t: Rows, b: BlobId)
    requires RowsOk(r) && b in r.blobs && t.objects == r.objects && t.files == r.files
    requires b in t.blobs && t.blobs == r.blobs[b := t.blobs[b]]
    requires SameRowsBut(r.verifyRows, t.verifyRows, b) && SameRowsBut(r.deleteRows, t.deleteRows, b)
    requires BlobOk(t, b) && BlobGrows(r, t, b) && t.blobs[b].location == r.blobs[b].location
    requires t.blobs[b].status == Verified ==> SameContent(t.blobs[b], r.blobs[b])
    requires Doomed(t.blobs[b].status) && !Doomed(r.blobs[b].status) ==> !LiveOn(r, b)
    ensures RowsOk(t) && Grows(r, t)
  {
    forall x | x in t.blobs ensures BlobOk(t, x) {
      if x != b { assert BlobOk(r, x); }
    }
    forall f | f in t.files ensures FileOk(t, f) {
      assert FileOk(r, f);
    }
    forall x | x in r.blobs ensures BlobGrows(r, t, x) {}
  }

  /** Only the last live file's blob is scheduled, so no live file loses it. */
  lemma ScheduleKeeps(r: Rows, b: BlobId)
    requires RowsOk(r) && b in r.blobs
    ensures RowsOk(ScheduleIfDead(r, b)) && Grows(r, ScheduleIfDead(r, b))
  {
    assert BlobOk(r, b);
    if !r.blobs[b].deleted && !LiveOn(r, b) {
      OneBlobKeeps(r, ScheduleIfDead(r, b), b);
    }
  }

  lemma TombstoneKeeps(r: Rows, f: FileId)
    requires RowsOk(r) && f in r.files && r.files[f].references == {}
    ensures RowsOk(Tombstoned(r, f)) && Grows(r, Tombstoned(r, f))
  {
    var t := Tombstoned(r, f);
    forall b | b in t.blobs ensures BlobOk(t, b) {
      assert BlobOk(r, b);
    }
    forall g | g in t.files ensures FileOk(t, g) {
      assert FileOk(r, g);
      if g != f { FileFramed(r, t, g); }
    }
  }

  lemma GrowsTransitive(r: Rows, t: Rows, u: Rows)
    requires Grows(r, t) && Grows(t, u)
    ensures Grows(r, u)
  {
    forall b | b in r.blobs ensures BlobGrows(r, u, b) {
      assert BlobGrows(r, t, b) && BlobGrows(t, u, b);
    }
  }

  lemma CollectKeeps(r: Rows, f: FileId)
    requires RowsOk(r) && f in r.files
    requires r.files[f].blob.Some? ==> r.files[f].blob.value in r.blobs
    ensures RowsOk(CollectFile(r, f)) && Grows(r, CollectFile(r, f))
  {
    if r.files[f].references == {} {
      TombstoneKeeps(r, f);
      if r.files[f].blob.Some? {
        ScheduleKeeps(Tombstoned(r, f), r.files[f].blob.value);
        GrowsTransitive(r, Tombstoned(r, f), CollectFile(r, f));
      }
    }
  }

  // ----- verification -----

  lemma WatchdogKeeps(r: Rows, b: BlobId, outbox: Option<OutboxId>, epoch: Option<nat>)
    requires RowsOk(r) && b in r.blobs && r.blobs[b].status != Verifying
    ensures RowsOk(WatchdogClosed(r, b, outbox, epoch)) && Grows(r, WatchdogClosed(r, b, outbox, epoch))
  {
    var t := WatchdogClosed(r, b, outbox, epoch);
    forall x | x in t.blobs ensures BlobOk(t, x) {
      assert BlobOk(r, x);
    }
    forall f | f in t.files ensures FileOk(t, f) {
      assert FileOk(r, f);
    }
  }

  lemma ClaimKeeps(r: Rows, b: BlobId, outbox: Option<OutboxId>, epoch: Option<nat>)
    requires RowsOk(r) && b in r.blobs
    ensures RowsOk(ClaimVerification(r, b, outbox, epoch).0) && Grows(r, ClaimVerification(r, b, outbox, epoch).0)
  {
    var blob := r.blobs[b];
    assert BlobOk(r, b);
    if blob.status == Verified || Doomed(blob.status) {
      WatchdogKeeps(r, b, outbox, epoch);
    } else if blob.status != Verifying || r.now >= blob.updatedAt + STALE_SECONDS {
      OneBlobKeeps(r, ClaimVerification(r, b, outbox, epoch).0, b);
    }
  }

  lemma VerifiedKeeps(r: Rows, b: BlobId, digest: Digest)
    requires RowsOk(r) && b in r.blobs && !Doomed(r.blobs[b].status)
    requires Complete(r, b) && digest == Sha256(r.objects[r.blobs[b].location])
    requires forall w :: !IsWinner(r, b, digest, w)
    ensures RowsOk(FinalizeAsVerified(r, b, digest)) && Grows(r, FinalizeAsVerified(r, b, digest))
  {
    var t := FinalizeAsVerified(r, b, digest);
    assert BlobOk(r, b);
    forall x | x in t.blobs ensures BlobOk(t, x) {
      assert BlobOk(r, x);
    }
    forall f | f in t.files ensures FileOk(t, f) {
      assert FileOk(r, f);
    }
    forall x | x in t.blobs && x != b ensures !SameContent(t.blobs[x], t.blobs[b]) {
      assert BlobOk(r, x);
      assert !IsWinner(r, b, digest, x);
    }
  }

  lemma DuplicateKeeps(r: Rows, b: BlobId, digest: Digest, winner: BlobId)
    requires RowsOk(r) && b in r.blobs && !Doomed(r.blobs[b].status)
    requires IsWinner(r, b, digest, winner)
    ensures RowsOk(FinalizeAsDuplicate(r, b, digest, winner)) && Grows(r, FinalizeAsDuplicate(r, b, digest, winner))
  {
    var t := FinalizeAsDuplicate(r, b, digest, winner);
    assert BlobOk(r, b);
    forall x | x in t.blobs ensures BlobOk(t, x) {
      assert BlobOk(r, x);
    }
    forall f | f in t.files ensures FileOk(t, f) {
      assert FileOk(r, f);
    }
  }

  lemma FinalizeKeeps(s: System, w: WorkerId, winner: Option<BlobId>)
    requires Inv(s) && Enabled(s, Finalize(w, winner))
    ensures RowsOk(Finalized(s, w, winner).value) && Grows(s.rows, Finalized(s, w, winner).value)
  {
    var r, p := s.rows, s.workers[w];
    var b := p.blob;
    assert WorkerOk(r, p);
    assert BlobOk(r, b);
    if Doomed(r.blobs[b].status) {
      WatchdogKeeps(r, b, p.outbox, p.epoch);
    } else {
      var t: Rows;
      if winner.None? {
        VerifiedKeeps(r, b, p.digest);
        t := FinalizeAsVerified(r, b, p.digest);
      } else {
        DuplicateKeeps(r, b, p.digest, winner.value);
        t := FinalizeAsDuplicate(r, b, p.digest, winner.value);
      }
      WatchdogKeeps(t, b, p.outbox, p.epoch);
      GrowsTransitive(r, t, WatchdogClosed(t, b, p.outbox, p.epoch));
    }
  }

  lemma FailureKeeps(r: Rows, b: BlobId, integrity: bool)
    requires RowsOk(r) && b in r.blobs
    ensures RowsOk(RecordFailure(r, b, integrity)) && Grows(r, RecordFailure(r, b, integrity))
  {
    var t := RecordFailure(r, b, integrity);
    assert BlobOk(r, b);
    forall x | x in t.blobs ensures BlobOk(t, x) {
      assert BlobOk(r, x);
    }
    forall f | f in t.files ensures FileOk(t, f) {
      assert FileOk(r, f);
    }
  }

  // ----- deletion -----

  lemma AcknowledgeKeeps(r: Rows, b: BlobId, outbox: OutboxId, epoch: nat)
    requires RowsOk(r) && Acknowledged(r, b, outbox, epoch).Some?
    ensures RowsOk(Acknowledged(r, b, outbox, epoch).value) && Grows(r, Acknowledged(r, b, outbox, epoch).value)
  {
    var t := Acknowledged(r, b, outbox, epoch).value;
    forall x | x in t.blobs ensures BlobOk(t, x) {
      assert BlobOk(r, x);
    }
    forall f | f in t.files ensures FileOk(t, f) {
      assert FileOk(r, f);
    }
  }

  /** With no live or referenced file left on a scheduled blob, a deletion is never cancelled. */
  lemma NeverCancelled(r: Rows, b: BlobId, outbox: OutboxId, epoch: nat)
    requires RowsOk(r) && b in r.blobs
    ensures !ClaimDeletion(r, b, outbox, epoch).Cancelled?
  {
    assert BlobOk(r, b);
    if b in r.deleteRows {
      forall f | f in r.files && r.files[f].blob == Some(b)
        ensures r.files[f].deleted && r.files[f].references == {}
      {
        assert FileOk(r, f);
      }
    }
  }

  lemma ClaimedKeeps(r: Rows, b: BlobId, outbox: OutboxId, epoch: nat)
    requires RowsOk(r) && b in r.blobs && !ClaimDeletion(r, b, outbox, epoch).Refused?
    ensures RowsOk(ClaimDeletion(r, b, outbox, epoch).rows) && Grows(r, ClaimDeletion(r, b, outbox, epoch).rows)
  {
    NeverCancelled(r, b, outbox, epoch);
    var t := ClaimDeletion(r, b, outbox, epoch).rows;
    if ClaimDeletion(r, b, outbox, epoch).AlreadyDeleted? {
      AcknowledgeKeeps(r, b, outbox, epoch);
    } else {
      forall x | x in t.blobs ensures BlobOk(t, x) {
        assert BlobOk(r, x);
      }
      forall f | f in t.files ensures FileOk(t, f) {
        assert FileOk(r, f);
      }
    }
  }

  lemma EraseKeeps(r: Rows, b: BlobId)
    requires RowsOk(r) && b in r.blobs && Doomed(r.blobs[b].status)
    ensures var t := r.(objects := r.objects - {r.blobs[b].location}); RowsOk(t) && Grows(r, t)
  {
    var t := r.(objects := r.objects - {r.blobs[b].location});
    forall x | x in t.blobs ensures BlobOk(t, x) {
      assert BlobOk(r, x);
    }
    forall f | f in t.files ensures FileOk(t, f) {
      assert FileOk(r, f);
    }
  }

  lemma ReleaseKeeps(r: Rows, b: BlobId, outbox: OutboxId)
    requires RowsOk(r) && b in r.blobs
    ensures RowsOk(ReleaseDeletionClaim(r, b, outbox)) && Grows(r, ReleaseDeletionClaim(r, b, outbox))
  {
    assert BlobOk(r, b);
    if HoldsClaim(r.blobs[b], outbox) {
      OneBlobKeeps(r, ReleaseDeletionClaim(r, b, outbox), b);
    }
  }

  lemma MarkDeletedKeeps(r: Rows, b: BlobId)
    requires RowsOk(r) && b in r.blobs && r.blobs[b].status == PendingDelete && r.blobs[b].location !in r.objects
    ensures var t := r.(blobs := r.blobs[b := r.blobs[b].(status := Deleted, deleted := true, claim := None, updatedAt := r.now)]);
            RowsOk(t) && Grows(r, t)
  {
    var t := r.(blobs := r.blobs[b := r.blobs[b].(status := Deleted, deleted := true, claim := None, updatedAt := r.now)]);
    assert BlobOk(r, b);
    forall x | x in t.blobs ensures BlobOk(t, x) {
      assert BlobOk(r, x);
    }
    forall f | f in t.files ensures FileOk(t, f) {
      assert FileOk(r, f);
    }
  }

  lemma CompleteKeeps(r: Rows, b: BlobId, outbox: OutboxId, epoch: nat)
    requires RowsOk(r) && b in r.blobs && r.blobs[b].location !in r.objects
    requires CompleteDeletion(r, b, outbox, epoch).Some?
    ensures RowsOk(CompleteDeletion(r, b, outbox, epoch).value) && Grows(r, CompleteDeletion(r, b, outbox, epoch).value)
  {
    if HoldsClaim(r.blobs[b], outbox) && r.blobs[b].status == PendingDelete {
      var t := r.(blobs := r.blobs[b := r.blobs[b].(status := Deleted, deleted := true, claim := None, updatedAt := r.now)]);
      MarkDeletedKeeps(r, b);
      AcknowledgeKeeps(t, b, outbox, epoch);
      GrowsTransitive(r, t, CompleteDeletion(r, b, outbox, epoch).value);
    } else {
      AcknowledgeKeeps(r, b, outbox, epoch);
    }
  }

  // ----- every step, every run -----

  lemma NextRowsOk(s: System, e: Event)
    requires Inv(s) && Enabled(s, e)
    ensures RowsOk(Next(s, e).rows) && Grows(s.rows, Next(s, e).rows)
  {
    match e
    case Upload(f, b, location, bytes, declared, expected) => UploadKeeps(s.rows, f, b, location, bytes, declared, expected);
    case Reserve(f, b, location, size, expected, uploading) => ReserveKeeps(s.rows, f, b, location, size, expected, uploading);
    case Arrive(b, _) => ObjectsKeep(s.rows, b, Next(s, e).rows);
    case DropMismatch(b) => ObjectsKeep(s.rows, b, Next(s, e).rows);
    case FinishUpload(f, indexed) => FinishKeeps(s.rows, f, indexed);
    case FailUpload(f, _) =>
      assert FileOk(s.rows, f);
      OneFileKeeps(s.rows, Next(s, e).rows, f);
    case AddReference(f, reference) =>
      NothingToRestore(s.rows, f, reference);
      OneFileKeeps(s.rows, Next(s, e).rows, f);
    case DropReference(f, _) =>
      assert FileOk(s.rows, f);
      OneFileKeeps(s.rows, Next(s, e).rows, f);
    case Collect(f) => CollectKeeps(s.rows, f);
    case StartVerify(_, b, outbox, epoch) => ClaimKeeps(s.rows, b, outbox, epoch);
    case Hash(_) =>
    case Finalize(w, winner) => FinalizeKeeps(s, w, winner);
    case FailVerify(w, integrity) => FailureKeeps(s.rows, s.workers[w].blob, integrity);
    case StartDelete(_, b, receipt, delivery) => ClaimedKeeps(s.rows, b, receipt, delivery);
    case Erase(w) =>
      assert WorkerOk(s.rows, s.workers[w]);
      EraseKeeps(s.rows, s.workers[w].blob);
    case ReleaseClaim(w) => ReleaseKeeps(s.rows, s.workers[w].blob, s.workers[w].receipt);
    case CompleteDelete(w) =>
      assert WorkerOk(s.rows, s.workers[w]);
      CompleteKeeps(s.rows, s.workers[w].blob, s.workers[w].receipt, s.workers[w].delivery);
    case _ => RowEvent(s, e);
  }

  lemma NewWorkerOk(s: System, e: Event, w: WorkerId)
    requires Inv(s) && Enabled(s, e) && w in Next(s, e).workers
    requires w !in s.workers || Next(s, e).workers[w] != s.workers[w]
    ensures WorkerOk(Next(s, e).rows, Next(s, e).workers[w])
  {
    NextRowsOk(s, e);
    if e.Hash? || e.Erase? {
      assert WorkerOk(s.rows, s.workers[w]);
    } else if e.StartDelete? {
      NeverCancelled(s.rows, e.blob, e.receipt, e.delivery);
    }
  }

  lemma StepKeeps(s: System, e: Event)
    requires Inv(s)
    ensures Inv(Step(s, e)) && Grows(s.rows, Step(s, e).rows)
  {
    if Enabled(s, e) {
      var t := Next(s, e);
      NextRowsOk(s, e);
      forall w | w in t.workers ensures WorkerOk(t.rows, t.workers[w]) {
        if w in s.workers && t.workers[w] == s.workers[w] {
          WorkerKept(s.rows, t.rows, s.workers[w]);
        } else {
          NewWorkerOk(s, e, w);
        }
      }
    }
  }
}
