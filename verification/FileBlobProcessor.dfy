/**
 * The blob processor: the hashing loop, the winner query, and `verify` and
 * `delete` as the transactions they run when nothing interrupts them.
 */
module FileBlobProcessor {
  import opened Options
  import opened FileRows
  import opened FileOutcomes

  function Joined(chunks: seq<Bytes>): Bytes
    decreases |chunks|
  {
    if chunks == [] then [] else Joined(chunks[..|chunks| - 1]) + chunks[|chunks| - 1]
  }

  datatype Verification = VerifiedBlob(digest: Digest) | Deduplicated(digest: Digest) | Skipped | Rejected

  datatype Deletion = DeletedBlob | NothingToDelete | CancelledDeletion | DeletionFailed

  /** The bytes behind a blob, checked the way `verify` checks them. */
  predicate Intact(blob: Blob, bytes: Bytes) {
    && |bytes| == blob.size
    && (blob.expectedSha256.Some? ==> blob.expectedSha256.value == Sha256(bytes))
    && (blob.expectedSha256.None? && blob.sha256.Some? ==> blob.sha256.value == Sha256(bytes))
  }

  /** Neither settled already nor being verified by a delivery that is not stale. */
  predicate VerificationDue(blob: Blob, now: nat) {
    blob.status in {Unverified, Failed} || (blob.status == Verifying && blob.updatedAt + 15 * 60 <= now)
  }

  /**
   * The blob carries the digest: as the verified one, or as a duplicate of
   * `target`, which holds its files now, scheduled with an open row.
   */
  ghost predicate Concluded(r: Rows, t: Rows, b: BlobId, digest: Digest, result: Verification, target: BlobId)
    requires b in r.blobs
  {
    && b in t.blobs && target in t.blobs
    && t.blobs[b].sha256 == Some(digest) && t.blobs[target].sha256 == Some(digest) && t.blobs[target].status == Verified
    && FilesSettled(r.files, t.files, b, target)
    && (forall x | x in r.blobs && x != b :: x in t.blobs && t.blobs[x] == r.blobs[x])
    && if target == b then result == VerifiedBlob(digest) && t.blobs[b].deleteAfter == None && t.deleteRows == r.deleteRows
       else && result == Deduplicated(digest) && t.blobs[b].status == PendingDelete && t.blobs[target].size == r.blobs[b].size
            && t.blobs[b].deleteAfter == Some(r.blobs[b].deleteAfter.GetOr(r.now + 7 * 24 * 3600))
            && OpenAgain(r.deleteRows, t.deleteRows, b)
  }

  /** Nothing but the blob's status, its row, and the files an integrity failure takes out of use. */
  ghost predicate FailedWith(r: Rows, t: Rows, b: BlobId, integrity: bool)
    requires b in r.blobs
  {
    && t.blobs == r.blobs[b := r.blobs[b].(status := Failed, updatedAt := r.now)]
    && t.deleteRows == r.deleteRows && OpenAgain(r.verifyRows, t.verifyRows, b)
    && if integrity then FilesQuarantined(r.files, t.files, b) else t.files == r.files
  }

  class FileBlobTables {
    var now: nat
    var blobs: map<BlobId, Blob>
    var objects: map<Location, Bytes>
    var files: map<FileId, File>
    var verifyRows: map<BlobId, Row>
    var deleteRows: map<BlobId, Row>
    var nextRow: OutboxId

    function Contents(): Rows
      reads this
    {
      Rows(now, blobs, objects, files, verifyRows, deleteRows, nextRow)
    }

    method Restore(rows: Rows)
      modifies this
      ensures Contents() == rows
    {
      now, blobs, objects, files := rows.now, rows.blobs, rows.objects, rows.files;
      verifyRows, deleteRows, nextRow := rows.verifyRows, rows.deleteRows, rows.nextRow;
    }

    /** Streams an object once: its digest and its length. */
    method HashObject(chunks: seq<Bytes>) returns (digest: Digest, byteCount: nat)
      ensures digest == Sha256(Joined(chunks)) && byteCount == |Joined(chunks)|
    {
      var hashed: Bytes := [];
      byteCount := 0;
      for i := 0 to |chunks|
        invariant hashed == Joined(chunks[..i]) && byteCount == |hashed|
      {
        assert chunks[..i + 1][..i] == chunks[..i];
        byteCount := byteCount + |chunks[i]|;
        hashed := hashed + chunks[i];
      }
      assert chunks[..|chunks|] == chunks;
      digest := Sha256(hashed);
    }

    /** A verified, undeleted blob of the same digest and size, if there is one. */
    method FindWinner(b: BlobId, digest: Digest) returns (winner: Option<BlobId>)
      requires b in blobs
      ensures winner.Some? ==> IsWinner(Contents(), b, digest, winner.value)
      ensures winner.None? ==> forall w :: !IsWinner(Contents(), b, digest, w)
    {
      winner := None;
      var left := blobs.Keys;
      while left != {} && winner.None?
        invariant left <= blobs.Keys
        invariant winner.Some? ==> IsWinner(Contents(), b, digest, winner.value)
        invariant winner.None? ==> forall w | w in blobs.Keys - left :: !IsWinner(Contents(), b, digest, w)
        decreases |left|
      {
        var w :| w in left;
        left := left - {w};
        if IsWinner(Contents(), b, digest, w) { winner := Some(w); }
      }
    }

    /** The claim transaction, statement by statement. */
    method ClaimVerification(b: BlobId, outbox: Option<OutboxId>, epoch: Option<nat>) returns (claimed: Option<Blob>)
      requires b in blobs
      modifies this
      ensures (Contents(), claimed) == FileRows.ClaimVerification(old(Contents()), b, outbox, epoch)
    {
      var blob := blobs[b];
      if blob.status == Verified || Doomed(blob.status) {
        CompleteVerificationWatchdog(b, outbox, epoch);
        return None;
      }
      if blob.status == Verifying && now < blob.updatedAt + STALE_SECONDS { return None; }
      blobs := blobs[b := blob.(status := Verifying, updatedAt := now)];
      verifyRows := Revived(verifyRows, b, nextRow);
      nextRow := nextRow + 1;
      claimed := Some(blob);
    }

    method CompleteVerificationWatchdog(b: BlobId, outbox: Option<OutboxId>, epoch: Option<nat>)
      modifies this`verifyRows
      ensures Contents() == WatchdogClosed(old(Contents()), b, outbox, epoch)
    {
      if b in verifyRows {
        var row := verifyRows[b];
        if !row.completed && !row.deadLettered && (outbox.None? || outbox == Some(row.id)) && (epoch.None? || epoch == Some(row.epoch)) {
          verifyRows := verifyRows[b := row.(completed := true)];
        }
      }
    }

    /** The finalizing transaction; nothing is written when a digest check fails. */
    method FinalizeVerification(b: BlobId, outbox: Option<OutboxId>, epoch: Option<nat>, digest: Digest, expected: Option<Digest>)
      returns (result: Verification, ghost winner: Option<BlobId>)
      requires b in blobs
      modifies this
      ensures winner.Some? ==> IsWinner(old(Contents()), b, digest, winner.value)
      ensures winner.None? ==> forall w :: !IsWinner(old(Contents()), b, digest, w)
      ensures var after := FileRows.FinalizeVerification(old(Contents()), b, outbox, epoch, digest, expected, winner);
              if after.None? then result == Rejected && Contents() == old(Contents()) else Contents() == after.value
      ensures now == old(now) && objects == old(objects)
      ensures ClosedIfCurrent(old(verifyRows), verifyRows, b, outbox, epoch) || result == Rejected
      ensures var blob := old(blobs[b]);
              if blob.status in {PendingDelete, Deleted} then
                result == Deduplicated(digest) && blobs == old(blobs) && files == old(files) && deleteRows == old(deleteRows)
              else if !Demands(blob, expected) || (expected.Some? && expected != Some(digest)) then
                result == Rejected && Contents() == old(Contents())
              else
                && result == (if winner.None? then VerifiedBlob(digest) else Deduplicated(digest))
                && Outcome(old(Contents()), Contents(), b, digest, winner)
    {
      var blob := blobs[b];
      var found := FindWinner(b, digest);
      assert Contents() == old(Contents());
      winner := found;
      FinalizeIff(Contents(), b, outbox, epoch, digest, expected, winner);
      if Doomed(blob.status) {
        CompleteVerificationWatchdog(b, outbox, epoch);
        return Deduplicated(digest), winner;
      }
      if !DigestAccepted(blob, digest, expected) { return Rejected, winner; }
      if found.None? {
        blobs := blobs[b := blob.(sha256 := Some(digest), status := Verified, deleteAfter := None, updatedAt := now)];
        files := Settled(files, b, b);
        result := VerifiedBlob(digest);
      } else {
        files := Settled(files, b, found.value);
        blobs := blobs[b := blob.(sha256 := Some(digest), status := PendingDelete, updatedAt := now,
                                  deleteAfter := if blob.deleteAfter.Some? then blob.deleteAfter else Some(now + GRACE_SECONDS))];
        deleteRows := Revived(deleteRows, b, nextRow);
        nextRow := nextRow + 1;
        result := Deduplicated(digest);
      }
      CompleteVerificationWatchdog(b, outbox, epoch);
    }

    /** `recordVerificationFailure`. */
    method RecordVerificationFailure(b: BlobId, integrity: bool)
      requires b in blobs
      modifies this
      ensures Contents() == RecordFailure(old(Contents()), b, integrity)
      ensures blobs == if old(blobs[b]).status == Verifying then old(blobs)[b := old(blobs[b]).(status := Failed, updatedAt := now)] else old(blobs)
      ensures if integrity then FilesQuarantined(old(files), files, b) else files == old(files)
      ensures now == old(now) && objects == old(objects) && verifyRows == old(verifyRows) && deleteRows == old(deleteRows)
    {
      FailureQuarantines(Contents(), b, integrity);
      if blobs[b].status == Verifying { blobs := blobs[b := blobs[b].(status := Failed, updatedAt := now)]; }
      if integrity { files := map f | f in files :: QuarantinedFile(files[f], b); }
    }

    /** Hashing and what follows it, for a blob just claimed. */
    method Settle(b: BlobId, outbox: Option<OutboxId>, epoch: Option<nat>, claimed: Blob, chunks: Option<seq<Bytes>>)
      returns (result: Verification, ghost target: BlobId)
      requires b in blobs && blobs[b] == claimed.(status := Verifying, updatedAt := now)
      modifies this
      ensures now == old(now) && objects == old(objects)
      ensures if chunks.Some? && Intact(claimed, Joined(chunks.value))
              then && Concluded(old(Contents()), Contents(), b, Sha256(Joined(chunks.value)), result, target)
                   && ClosedIfCurrent(old(verifyRows), verifyRows, b, outbox, epoch)
              else && result == Rejected && deleteRows == old(deleteRows) && verifyRows == old(verifyRows)
                   && blobs == old(blobs)[b := claimed.(status := Failed, updatedAt := now)]
                   && if chunks.Some? then FilesQuarantined(old(files), files, b) else files == old(files)
    {
      target := b;
      if chunks.None? {
        RecordVerificationFailure(b, false);
        return Rejected, target;
      }
      var digest, byteCount := HashObject(chunks.value);
      var expected := Expected(claimed);
      if byteCount != claimed.size || (expected.Some? && expected != Some(digest)) {
        RecordVerificationFailure(b, true);
        return Rejected, target;
      }
      ghost var winner;
      result, winner := FinalizeVerification(b, outbox, epoch, digest, expected);
      target := winner.GetOr(b);
    }

    /**
     * `verify` without interruption; `chunks` is how the object's bytes
     * arrive, if they do. Bytes of the recorded size and the demanded digest
     * conclude it; wrong bytes fail the blob and take its files out of use.
     */
    method Verify(b: BlobId, outbox: Option<OutboxId>, epoch: Option<nat>, chunks: Option<seq<Bytes>>)
      returns (result: Verification, ghost target: BlobId)
      requires b in blobs
      modifies this
      ensures now == old(now) && objects == old(objects)
      ensures if !VerificationDue(old(blobs[b]), old(now)) then
                result == Skipped && blobs == old(blobs) && files == old(files) && deleteRows == old(deleteRows)
              else if chunks.Some? && Intact(old(blobs[b]), Joined(chunks.value)) then
                Concluded(old(Contents()), Contents(), b, Sha256(Joined(chunks.value)), result, target)
              else result == Rejected && FailedWith(old(Contents()), Contents(), b, chunks.Some?)
      ensures result.VerifiedBlob? || result.Deduplicated? ==>
                && b in verifyRows && !verifyRows[b].deadLettered
                && (verifyRows[b].completed <==>
                      (outbox.None? || outbox.value == verifyRows[b].id) && (epoch.None? || epoch.value == verifyRows[b].epoch))
    {
      var claimed := ClaimVerification(b, outbox, epoch);
      if claimed.None? { return Skipped, b; }
      result, target := Settle(b, outbox, epoch, claimed.value, chunks);
    }

    // ----- deletion -----

    /** The receipt of a deletion delivery. */
    method AcknowledgeBlobOutbox(b: BlobId, outbox: OutboxId, epoch: nat) returns (ok: bool)
      modifies this`deleteRows
      ensures var after := Acknowledged(old(Contents()), b, outbox, epoch);
              ok == after.Some? && Contents() == if ok then after.value else old(Contents())
    {
      if b !in deleteRows || deleteRows[b].id != outbox || deleteRows[b].deadLettered { return false; }
      if deleteRows[b].completed { return true; }
      if deleteRows[b].epoch != epoch { return false; }
      deleteRows := deleteRows[b := deleteRows[b].(completed := true)];
      ok := true;
    }

    /** `claimDeletion`; a thrown error rolls everything back. */
    method ClaimDeletion(b: BlobId, outbox: OutboxId, epoch: nat) returns (claim: Claimed)
      requires b in blobs
      modifies this
      ensures claim == FileRows.ClaimDeletion(old(Contents()), b, outbox, epoch)
      ensures Contents() == if claim.Refused? then old(Contents()) else claim.rows
    {
      var before := Contents();
      var blob := blobs[b];
      if b !in deleteRows || deleteRows[b].id != outbox { return Refused; }
      if blob.status == Deleted || blob.deleted {
        var ok := AcknowledgeBlobOutbox(b, outbox, epoch);
        return if ok then AlreadyDeleted(Contents()) else Refused;
      }
      if LiveOn(before, b) || ReferencedOn(before, b) {
        blobs := blobs[b := CancelledBlob(blob, now)];
        var ok := AcknowledgeBlobOutbox(b, outbox, epoch);
        if !ok {
          Restore(before);
          return Refused;
        }
        return Cancelled(Contents());
      }
      if blob.status != PendingDelete || blob.deleteAfter.None? || blob.deleteAfter.value > now { return Refused; }
      if blob.claim.Some? && blob.claim.value.outbox != outbox && blob.claim.value.at + STALE_SECONDS > now { return Refused; }
      blobs := blobs[b := blob.(claim := Some(DeletionClaim(outbox, now)), updatedAt := now)];
      claim := Granted(Contents(), blob);
    }

    method ReleaseDeletionClaim(b: BlobId, outbox: OutboxId)
      requires b in blobs
      modifies this`blobs
      ensures Contents() == FileRows.ReleaseDeletionClaim(old(Contents()), b, outbox)
    {
      if HoldsClaim(blobs[b], outbox) { blobs := blobs[b := blobs[b].(claim := None, updatedAt := now)]; }
    }

    method CompleteDeletion(b: BlobId, outbox: OutboxId, epoch: nat) returns (ok: bool)
      requires b in blobs
      modifies this
      ensures b in blobs && objects == old(objects)
      ensures var after := FileRows.CompleteDeletion(old(Contents()), b, outbox, epoch);
              ok == after.Some? && Contents() == if ok then after.value else old(Contents())
    {
      var before := Contents();
      if HoldsClaim(blobs[b], outbox) && blobs[b].status == PendingDelete {
        blobs := blobs[b := blobs[b].(status := Deleted, deleted := true, claim := None, updatedAt := now)];
      } else if blobs[b].status != Deleted && !blobs[b].deleted {
        return false;
      }
      ok := AcknowledgeBlobOutbox(b, outbox, epoch);
      if !ok { Restore(before); }
    }

    /**
     * `delete` without interruption. The bytes go exactly when the delivery's
     * row is there, nothing uses the blob, and it is scheduled, due and not
     * claimed elsewhere; the deletion is recorded when the receipt is accepted
     * too. A deleted blob, or one in use again, only has its row finished.
     */
    method Delete(b: BlobId, outbox: OutboxId, epoch: nat, erased: bool) returns (result: Deletion)
      requires b in blobs
      modifies this
      ensures files == old(files) && verifyRows == old(verifyRows) && now == old(now)
      ensures b in blobs && blobs == old(blobs)[b := blobs[b]]
      ensures var due := b in old(deleteRows) && old(deleteRows)[b].id == outbox
                         && !old(InUse(files, b)) && Eligible(old(blobs)[b], outbox, now);
              var receivable := old(Receivable(deleteRows, b, outbox, epoch));
              var gone := old(blobs)[b].status == Deleted || old(blobs)[b].deleted;
              && objects == (if due && erased then old(objects) - {old(blobs)[b].location} else old(objects))
              && (result.DeletedBlob? <==> due && erased && receivable)
              && (result.NothingToDelete? <==> gone && receivable)
              && (result.CancelledDeletion? <==> !gone && old(InUse(files, b)) && receivable)
              && (result.DeletedBlob? ==> blobs[b] == old(blobs)[b].(status := Deleted, deleted := true, claim := None, updatedAt := now))
              && (result.NothingToDelete? ==> blobs == old(blobs))
              && (result.CancelledDeletion? ==>
                    blobs[b] == old(blobs)[b].(status := if old(blobs)[b].sha256.Some? then Verified else Unverified, deleteAfter := None, updatedAt := now))
              && (if result.DeletionFailed? then deleteRows == old(deleteRows) else Received(old(deleteRows), deleteRows, b))
              && (result.DeletionFailed? && !due ==> blobs == old(blobs))
              && (due && !erased ==> blobs[b] == old(blobs)[b].(claim := None, updatedAt := now))
    {
      DeletionClaimIff(Contents(), b, outbox, epoch);
      var claim := ClaimDeletion(b, outbox, epoch);
      match claim {
        case Refused => return DeletionFailed;
        case AlreadyDeleted(_) => return NothingToDelete;
        case Cancelled(_) => return CancelledDeletion;
        case Granted(_, blob) =>
          if !erased {
            ReleaseDeletionClaim(b, outbox);
            return DeletionFailed;
          }
          objects := objects - {blob.location};
          DeletionCompletesIff(Contents(), b, outbox, epoch);
          var ok := CompleteDeletion(b, outbox, epoch);
          result := if ok then DeletedBlob else DeletionFailed;
      }
    }
  }
}
