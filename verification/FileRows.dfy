/**
 * The rows behind stored files, the object store beside them, and the SQL
 * transactions of blob verification, deletion and orphan collection, each as
 * one step on those rows. A transaction that throws leaves the rows alone.
 */
module FileRows {
  import opened Options

  type BlobId = nat
  type FileId = nat
  type OutboxId = nat
  type Location = nat
  type Bytes = seq<char>

  /** SHA-256, taken to be injective. */
  datatype Digest = Sha256(bytes: Bytes)

  datatype Status = Unverified | Verifying | Verified | Failed | PendingDelete | Deleted

  datatype DeletionClaim = DeletionClaim(outbox: OutboxId, at: nat)

  datatype Blob = Blob(
    location: Location,
    size: nat,
    sha256: Option<Digest>,
    expectedSha256: Option<Digest>,
    status: Status,
    deleteAfter: Option<nat>,
    deleted: bool,
    claim: Option<DeletionClaim>,
    updatedAt: nat)

  /** Everything that keeps a file: library entries, associations, workspace files, uploads in progress. */
  datatype Reference = Library(user: nat) | Association(id: nat) | Workspace(id: nat) | Uploading(expires: nat)

  datatype FileStatus = InProgress | Scanning | Processing | Available | Quarantined | UploadFailed | Removed

  /** Set while a file is quarantined: by which blob's verification, and from which status. */
  datatype Quarantine = Quarantine(blob: BlobId, previous: FileStatus)

  datatype File = File(
    blob: Option<BlobId>,
    deleted: bool,
    references: set<Reference>,
    status: FileStatus,
    quarantine: Option<Quarantine>)

  /** One `runtime_outbox` row of a blob; the dedupe key leaves at most one per blob and event type. */
  datatype Row = Row(id: OutboxId, epoch: nat, completed: bool, deadLettered: bool)

  datatype Rows = Rows(
    now: nat,
    blobs: map<BlobId, Blob>,
    objects: map<Location, Bytes>,
    files: map<FileId, File>,
    verifyRows: map<BlobId, Row>,
    deleteRows: map<BlobId, Row>,
    nextRow: OutboxId)

  const GRACE_SECONDS := 7 * 24 * 3600
  const STALE_SECONDS := 15 * 60

  predicate Doomed(status: Status) {
    status == PendingDelete || status == Deleted
  }

  predicate LiveOn(rows: Rows, b: BlobId) {
    exists f | f in rows.files :: rows.files[f].blob == Some(b) && !rows.files[f].deleted
  }

  predicate ReferencedOn(rows: Rows, b: BlobId) {
    exists f | f in rows.files :: rows.files[f].blob == Some(b) && rows.files[f].references != {}
  }

  /** `immutableExpectedSha256`. */
  function Expected(blob: Blob): Option<Digest> {
    if blob.expectedSha256.Some? then blob.expectedSha256 else blob.sha256
  }

  // ----- outbox rows -----

  /** `INSERT ... ON CONFLICT (dedupe_key) DO UPDATE` with every completion field cleared. */
  function Revived(rowsOf: map<BlobId, Row>, b: BlobId, newId: OutboxId): map<BlobId, Row> {
    rowsOf[b := if b in rowsOf then rowsOf[b].(completed := false, deadLettered := false) else Row(newId, 0, false, false)]
  }

  /** The maintenance upserts: they clear `completed_at` but not `dead_lettered_at`. */
  function Reopened(rowsOf: map<BlobId, Row>, b: BlobId, newId: OutboxId): map<BlobId, Row> {
    rowsOf[b := if b in rowsOf then rowsOf[b].(completed := false) else Row(newId, 0, false, false)]
  }

  /** `completeVerificationWatchdog`: closes the row only for the delivery that is current. */
  function WatchdogClosed(rows: Rows, b: BlobId, outbox: Option<OutboxId>, epoch: Option<nat>): Rows {
    if && b in rows.verifyRows
       && !rows.verifyRows[b].completed && !rows.verifyRows[b].deadLettered
       && (outbox.None? || outbox == Some(rows.verifyRows[b].id))
       && (epoch.None? || epoch == Some(rows.verifyRows[b].epoch))
    then rows.(verifyRows := rows.verifyRows[b := rows.verifyRows[b].(completed := true)])
    else rows
  }

  /** `acknowledgeBlobOutbox`: throws unless this delivery closes the row or it is closed already. */
  function Acknowledged(rows: Rows, b: BlobId, outbox: OutboxId, epoch: nat): Option<Rows> {
    if b !in rows.deleteRows || rows.deleteRows[b].id != outbox || rows.deleteRows[b].deadLettered then None
    else if rows.deleteRows[b].completed then Some(rows)
    else if rows.deleteRows[b].epoch != epoch then None
    else Some(rows.(deleteRows := rows.deleteRows[b := rows.deleteRows[b].(completed := true)]))
  }

  // ----- references -----

  /** Reference creation in the API: a scheduled blob is restored, its deletion closed, then the reference added. */
  function Associated(rows: Rows, f: FileId, reference: Reference): Rows
    requires f in rows.files
  {
    var file := rows.files[f];
    var added := file.(references := file.references + {reference});
    if file.blob.None? || file.blob.value !in rows.blobs then rows.(files := rows.files[f := added])
    else
      var b := file.blob.value;
      rows.(files := rows.files[f := added],
            blobs := if rows.blobs[b].status == PendingDelete && !rows.blobs[b].deleted
                     then rows.blobs[b := CancelledBlob(rows.blobs[b], rows.now)]
                     else rows.blobs,
            deleteRows := if b in rows.deleteRows then rows.deleteRows[b := rows.deleteRows[b].(completed := true)] else rows.deleteRows)
  }

  // ----- verification -----

  /** The claim transaction of `verify`: the blob row to hash, or nothing to do. */
  function ClaimVerification(rows: Rows, b: BlobId, outbox: Option<OutboxId>, epoch: Option<nat>): (Rows, Option<Blob>)
    requires b in rows.blobs
  {
    var blob := rows.blobs[b];
    if blob.status == Verified || Doomed(blob.status) then (WatchdogClosed(rows, b, outbox, epoch), None)
    else if blob.status == Verifying && rows.now < blob.updatedAt + STALE_SECONDS then (rows, None)
    else
      (rows.(blobs := rows.blobs[b := blob.(status := Verifying, updatedAt := rows.now)],
             verifyRows := Revived(rows.verifyRows, b, rows.nextRow),
             nextRow := rows.nextRow + 1),
       Some(blob))
  }

  predicate IsWinner(rows: Rows, b: BlobId, digest: Digest, w: BlobId) {
    && w in rows.blobs && b in rows.blobs && w != b
    && rows.blobs[w].sha256 == Some(digest)
    && rows.blobs[w].size == rows.blobs[b].size
    && rows.blobs[w].status == Verified
    && !rows.blobs[w].deleted
  }

  function RestoredStatus(file: File, b: BlobId): FileStatus {
    if file.status == Quarantined && file.quarantine.Some? && file.quarantine.value.blob == b
    then (match file.quarantine.value.previous
          case Scanning => Scanning
          case Processing => Processing
          case _ => Available)
    else file.status
  }

  function ClearedQuarantine(file: File, b: BlobId): Option<Quarantine> {
    if file.quarantine.Some? && file.quarantine.value.blob == b then None else file.quarantine
  }

  /** The file update of a finished verification: linked files move to `target` and leave quarantine. */
  function Settled(files: map<FileId, File>, b: BlobId, target: BlobId): map<FileId, File> {
    map f | f in files ::
      if files[f].blob == Some(b)
      then files[f].(blob := Some(target), status := RestoredStatus(files[f], b), quarantine := ClearedQuarantine(files[f], b))
      else files[f]
  }

  /** Neither check against the expected digest fails. */
  predicate DigestAccepted(blob: Blob, digest: Digest, expected: Option<Digest>) {
    Expected(blob) == expected && (expected.None? || expected == Some(digest))
  }

  function FinalizeAsVerified(rows: Rows, b: BlobId, digest: Digest): Rows
    requires b in rows.blobs
  {
    rows.(blobs := rows.blobs[b := rows.blobs[b].(
            sha256 := Some(digest), status := Verified, deleteAfter := None, updatedAt := rows.now)],
          files := Settled(rows.files, b, b))
  }

  function FinalizeAsDuplicate(rows: Rows, b: BlobId, digest: Digest, winner: BlobId): Rows
    requires b in rows.blobs
  {
    var deleteAfter := if rows.blobs[b].deleteAfter.Some? then rows.blobs[b].deleteAfter else Some(rows.now + GRACE_SECONDS);
    rows.(files := Settled(rows.files, b, winner),
          blobs := rows.blobs[b := rows.blobs[b].(
            sha256 := Some(digest), status := PendingDelete, deleteAfter := deleteAfter, updatedAt := rows.now)],
          deleteRows := Revived(rows.deleteRows, b, rows.nextRow),
          nextRow := rows.nextRow + 1)
  }

  /** `finalizeVerification`; `winner` is the verified twin the query found, if any. */
  function FinalizeVerification(
    rows: Rows, b: BlobId, outbox: Option<OutboxId>, epoch: Option<nat>,
    digest: Digest, expected: Option<Digest>, winner: Option<BlobId>): Option<Rows>
    requires b in rows.blobs
  {
    var blob := rows.blobs[b];
    if Doomed(blob.status) then Some(WatchdogClosed(rows, b, outbox, epoch))
    else if !DigestAccepted(blob, digest, expected) then None
    else if winner.None? then Some(WatchdogClosed(FinalizeAsVerified(rows, b, digest), b, outbox, epoch))
    else Some(WatchdogClosed(FinalizeAsDuplicate(rows, b, digest, winner.value), b, outbox, epoch))
  }

  /** `recordVerificationFailure`; an integrity error quarantines the live files of the blob. */
  function RecordFailure(rows: Rows, b: BlobId, integrity: bool): Rows
    requires b in rows.blobs
  {
    var blob := rows.blobs[b];
    rows.(blobs := if blob.status == Verifying
                   then rows.blobs[b := blob.(status := Failed, updatedAt := rows.now)]
                   else rows.blobs,
          files := if integrity
                   then map f | f in rows.files :: QuarantinedFile(rows.files[f], b)
                   else rows.files)
  }

  function QuarantinedFile(file: File, b: BlobId): File {
    if file.blob == Some(b) && !file.deleted && file.status in {Scanning, Processing, Available}
    then file.(status := Quarantined,
               quarantine := Some(Quarantine(b, if file.quarantine.Some? then file.quarantine.value.previous else file.status)))
    else file
  }

  // ----- deletion -----

  datatype Claimed = Refused | AlreadyDeleted(rows: Rows) | Cancelled(rows: Rows) | Granted(rows: Rows, blob: Blob)

  /** The cancellation branch: back to `verified` when any digest is recorded, without hashing again. */
  function CancelledBlob(blob: Blob, now: nat): Blob {
    blob.(status := if blob.sha256.None? then Unverified else Verified, deleteAfter := None, updatedAt := now)
  }

  /** `claimDeletion`, with the physical-location guard in place. */
  function ClaimDeletion(rows: Rows, b: BlobId, outbox: OutboxId, epoch: nat): Claimed
    requires b in rows.blobs
  {
    var blob := rows.blobs[b];
    if b !in rows.deleteRows || rows.deleteRows[b].id != outbox then Refused
    else if blob.status == Deleted || blob.deleted then
      match Acknowledged(rows, b, outbox, epoch)
      case Some(acknowledged) => AlreadyDeleted(acknowledged)
      case None => Refused
    else if LiveOn(rows, b) || ReferencedOn(rows, b) then
      match Acknowledged(rows.(blobs := rows.blobs[b := CancelledBlob(blob, rows.now)]), b, outbox, epoch)
      case Some(acknowledged) => Cancelled(acknowledged)
      case None => Refused
    else if blob.status != PendingDelete || blob.deleteAfter.None? || blob.deleteAfter.value > rows.now then Refused
    else if blob.claim.Some? && blob.claim.value.outbox != outbox && blob.claim.value.at + STALE_SECONDS > rows.now then Refused
    else Granted(rows.(blobs := rows.blobs[b := blob.(claim := Some(DeletionClaim(outbox, rows.now)), updatedAt := rows.now)]), blob)
  }

  predicate HoldsClaim(blob: Blob, outbox: OutboxId) {
    blob.claim.Some? && blob.claim.value.outbox == outbox
  }

  function ReleaseDeletionClaim(rows: Rows, b: BlobId, outbox: OutboxId): Rows
    requires b in rows.blobs
  {
    if HoldsClaim(rows.blobs[b], outbox)
    then rows.(blobs := rows.blobs[b := rows.blobs[b].(claim := None, updatedAt := rows.now)])
    else rows
  }

  /** `completeDeletion`: throws when the claim was lost or the receipt cannot be recorded. */
  function CompleteDeletion(rows: Rows, b: BlobId, outbox: OutboxId, epoch: nat): Option<Rows>
    requires b in rows.blobs
  {
    var blob := rows.blobs[b];
    if HoldsClaim(blob, outbox) && blob.status == PendingDelete then
      Acknowledged(rows.(blobs := rows.blobs[b := blob.(status := Deleted, deleted := true, claim := None, updatedAt := rows.now)]),
                   b, outbox, epoch)
    else if blob.status == Deleted || blob.deleted then Acknowledged(rows, b, outbox, epoch)
    else None
  }

  // ----- orphan collection -----

  function Tombstoned(rows: Rows, f: FileId): Rows
    requires f in rows.files
  {
    rows.(files := rows.files[f := rows.files[f].(deleted := true, status := Removed)])
  }

  /** Last-reference admission: schedules the blob unless another live file uses it. */
  function ScheduleIfDead(rows: Rows, b: BlobId): Rows
    requires b in rows.blobs
  {
    var blob := rows.blobs[b];
    if blob.deleted || LiveOn(rows, b) then rows
    else
      var deleteAfter := if blob.deleteAfter.Some? then blob.deleteAfter else Some(rows.now + GRACE_SECONDS);
      rows.(blobs := rows.blobs[b := blob.(status := PendingDelete, deleteAfter := deleteAfter, updatedAt := rows.now)],
            deleteRows := Reopened(rows.deleteRows, b, rows.nextRow),
            nextRow := rows.nextRow + 1)
  }

  /** What `cleanupOrphanFiles` does to one candidate after rechecking its references. */
  function CollectFile(rows: Rows, f: FileId): Rows
    requires f in rows.files
    requires rows.files[f].blob.Some? ==> rows.files[f].blob.value in rows.blobs
  {
    var file := rows.files[f];
    if file.references != {} then rows
    else if file.blob.None? then Tombstoned(rows, f)
    else ScheduleIfDead(Tombstoned(rows, f), file.blob.value)
  }
}
