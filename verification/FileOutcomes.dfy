/**
 * What each transaction on blobs and files decides, and what it leaves in
 * their rows, read off the rows' own fields.
 */
module FileOutcomes {
  import opened Options
  import opened FileRows
  import FileSafety

  // ----- outbox rows -----

  /** The same row for the next delivery, open again. */
  ghost predicate OpenAgain(before: map<BlobId, Row>, after: map<BlobId, Row>, b: BlobId) {
    && b in after && !after[b].completed && !after[b].deadLettered
    && (b in before ==> after[b].id == before[b].id && after[b].epoch == before[b].epoch)
    && OthersKept(before, after, b)
  }

  ghost predicate OthersKept<T(!new)>(before: map<nat, T>, after: map<nat, T>, x: nat) {
    && (forall y | y != x :: y in after <==> y in before)
    && forall y | y in before && y != x :: after[y] == before[y]
  }

  /** The row of `b` is finished exactly by a delivery that is current, or by a caller that names none. */
  ghost predicate ClosedIfCurrent(before: map<BlobId, Row>, after: map<BlobId, Row>, b: BlobId, outbox: Option<OutboxId>, epoch: Option<nat>) {
    && after.Keys == before.Keys && OthersKept(before, after, b)
    && (b in before ==>
          after[b] == before[b].(completed :=
            || before[b].completed
            || (!before[b].deadLettered
                && (outbox == None || outbox == Some(before[b].id)) && (epoch == None || epoch == Some(before[b].epoch)))))
  }

  /** Everything but blobs, files and outbox rows. */
  ghost predicate SameStore(r: Rows, t: Rows) {
    t.now == r.now && t.objects == r.objects
  }

  lemma WatchdogIff(r: Rows, b: BlobId, outbox: Option<OutboxId>, epoch: Option<nat>)
    ensures var t := WatchdogClosed(r, b, outbox, epoch);
            t == r.(verifyRows := t.verifyRows) && ClosedIfCurrent(r.verifyRows, t.verifyRows, b, outbox, epoch)
  {}

  // ----- verification -----

  /**
   * A verification starts exactly when the blob was never verified, failed,
   * or has been verifying for fifteen minutes; its row is open then. A settled
   * blob closes the row of the delivery; one being verified changes nothing.
   */
  lemma VerificationClaimIff(r: Rows, b: BlobId, outbox: Option<OutboxId>, epoch: Option<nat>)
    requires b in r.blobs
    ensures var (t, claimed) := ClaimVerification(r, b, outbox, epoch);
            var blob := r.blobs[b];
            && SameStore(r, t) && t.files == r.files && t.deleteRows == r.deleteRows
            && (claimed.Some? <==> blob.status in {Unverified, Failed} || (blob.status == Verifying && blob.updatedAt + 15 * 60 <= r.now))
            && (if claimed.Some?
                then && claimed.value == blob && t.blobs == r.blobs[b := blob.(status := Verifying, updatedAt := r.now)]
                     && OpenAgain(r.verifyRows, t.verifyRows, b)
                else && t.blobs == r.blobs
                     && if blob.status == Verifying then t.verifyRows == r.verifyRows
                        else ClosedIfCurrent(r.verifyRows, t.verifyRows, b, outbox, epoch))
  {}

  /** Files of `b` move to `target` and out of the quarantine its verification put them in; other files stay as they are. */
  ghost predicate FilesSettled(before: map<FileId, File>, after: map<FileId, File>, b: BlobId, target: BlobId) {
    && after.Keys == before.Keys
    && forall f | f in before ::
         if before[f].blob != Some(b) then after[f] == before[f]
         else
           var own := before[f].quarantine.Some? && before[f].quarantine.value.blob == b;
           && after[f].blob == Some(target)
           && after[f].deleted == before[f].deleted && after[f].references == before[f].references
           && after[f].quarantine == (if own then None else before[f].quarantine)
           && after[f].status == (if !own || before[f].status != Quarantined then before[f].status
                                  else if before[f].quarantine.value.previous == Scanning then Scanning
                                  else if before[f].quarantine.value.previous == Processing then Processing
                                  else Available)
  }

  /** The digest verification demands of a blob: the one its upload declared, else the one recorded before. */
  ghost predicate Demands(blob: Blob, expected: Option<Digest>) {
    if blob.expectedSha256.Some? then expected == blob.expectedSha256 else expected == blob.sha256
  }

  /** What finalizing makes of the blob, its files and its deletion row. */
  ghost predicate Outcome(r: Rows, t: Rows, b: BlobId, digest: Digest, winner: Option<BlobId>)
    requires b in r.blobs
  {
    var blob := r.blobs[b].(sha256 := Some(digest), updatedAt := r.now);
    if winner.None?
    then && t.blobs == r.blobs[b := blob.(status := Verified, deleteAfter := None)]
         && FilesSettled(r.files, t.files, b, b) && t.deleteRows == r.deleteRows
    else && t.blobs == r.blobs[b := blob.(status := PendingDelete, deleteAfter := Some(blob.deleteAfter.GetOr(r.now + 7 * 24 * 3600)))]
         && FilesSettled(r.files, t.files, b, winner.value) && OpenAgain(r.deleteRows, t.deleteRows, b)
  }

  lemma VerifiedOutcome(r: Rows, b: BlobId, digest: Digest)
    requires b in r.blobs
    ensures var t := FinalizeAsVerified(r, b, digest);
            SameStore(r, t) && t.verifyRows == r.verifyRows && Outcome(r, t, b, digest, None)
  {}

  lemma DuplicateOutcome(r: Rows, b: BlobId, digest: Digest, winner: BlobId)
    requires b in r.blobs
    ensures var t := FinalizeAsDuplicate(r, b, digest, winner);
            SameStore(r, t) && t.verifyRows == r.verifyRows && Outcome(r, t, b, digest, Some(winner))
  {}

  /**
   * Finalizing is refused exactly when what the blob demands has changed, or
   * is another digest than the one found. Without a winner the blob is
   * verified with the digest; with one its files move there, and the blob is
   * scheduled on its own date, or in seven days, with an open row.
   */
  lemma FinalizeIff(
    r: Rows, b: BlobId, outbox: Option<OutboxId>, epoch: Option<nat>,
    digest: Digest, expected: Option<Digest>, winner: Option<BlobId>)
    requires b in r.blobs
    ensures var blob, result := r.blobs[b], FinalizeVerification(r, b, outbox, epoch, digest, expected, winner);
            && (result.None? <==>
                  blob.status !in {PendingDelete, Deleted} && (!Demands(blob, expected) || (expected.Some? && expected != Some(digest))))
            && (result.Some? ==>
                  var t := result.value;
                  && SameStore(r, t) && ClosedIfCurrent(r.verifyRows, t.verifyRows, b, outbox, epoch)
                  && if blob.status in {PendingDelete, Deleted}
                     then t.blobs == r.blobs && t.files == r.files && t.deleteRows == r.deleteRows
                     else Outcome(r, t, b, digest, winner))
  {
    if r.blobs[b].status in {PendingDelete, Deleted} {
      WatchdogIff(r, b, outbox, epoch);
    } else if winner.None? {
      VerifiedOutcome(r, b, digest);
      WatchdogIff(FinalizeAsVerified(r, b, digest), b, outbox, epoch);
    } else {
      DuplicateOutcome(r, b, digest, winner.value);
      WatchdogIff(FinalizeAsDuplicate(r, b, digest, winner.value), b, outbox, epoch);
    }
  }

  /** An integrity failure takes every live file of `b` that can be read out of use and keeps its earlier status; no other file changes. */
  ghost predicate FilesQuarantined(before: map<FileId, File>, after: map<FileId, File>, b: BlobId) {
    && after.Keys == before.Keys
    && forall f | f in before ::
         if before[f].blob == Some(b) && !before[f].deleted && before[f].status in {Scanning, Processing, Available}
         then && after[f].status == Quarantined && after[f].quarantine.Some? && after[f].quarantine.value.blob == b
              && after[f].quarantine.value.previous
                 == (if before[f].quarantine.Some? then before[f].quarantine.value.previous else before[f].status)
              && after[f].blob == before[f].blob && !after[f].deleted && after[f].references == before[f].references
         else after[f] == before[f]
  }

  /** A failure marks only a verifying blob failed, and quarantines files only when the bytes were wrong. */
  lemma FailureQuarantines(r: Rows, b: BlobId, integrity: bool)
    requires b in r.blobs
    ensures var t := RecordFailure(r, b, integrity);
            && SameStore(r, t) && t.verifyRows == r.verifyRows && t.deleteRows == r.deleteRows
            && (if r.blobs[b].status == Verifying
                then t.blobs == r.blobs[b := r.blobs[b].(status := Failed, updatedAt := r.now)]
                else t.blobs == r.blobs)
            && (if integrity then FilesQuarantined(r.files, t.files, b) else t.files == r.files)
  {}

  /** A file quarantined by a failed verification gets its status back from the next one that succeeds. */
  lemma QuarantineEnds(before: map<FileId, File>, failed: map<FileId, File>, after: map<FileId, File>, b: BlobId, target: BlobId, f: FileId)
    requires FilesQuarantined(before, failed, b) && FilesSettled(failed, after, b, target)
    requires f in before && before[f].blob == Some(b) && !before[f].deleted && before[f].quarantine.None?
    ensures after[f] == before[f].(blob := Some(target))
  {}

  // ----- deletion -----

  /** Some file that is live, or that anything still refers to, is linked to the blob. */
  ghost predicate InUse(files: map<FileId, File>, b: BlobId) {
    exists f | f in files :: files[f].blob == Some(b) && (!files[f].deleted || files[f].references != {})
  }

  /** The delivery can still report its row finished, or it is finished already. */
  ghost predicate Receivable(rowsOf: map<BlobId, Row>, b: BlobId, outbox: OutboxId, epoch: nat) {
    && b in rowsOf && rowsOf[b].id == outbox && !rowsOf[b].deadLettered
    && (rowsOf[b].completed || rowsOf[b].epoch == epoch)
  }

  ghost predicate Received(before: map<BlobId, Row>, after: map<BlobId, Row>, b: BlobId) {
    b in before && after == before[b := before[b].(completed := true)]
  }

  lemma ReceiptIff(r: Rows, b: BlobId, outbox: OutboxId, epoch: nat)
    ensures var result := Acknowledged(r, b, outbox, epoch);
            && (result.Some? <==> Receivable(r.deleteRows, b, outbox, epoch))
            && (result.Some? ==> result.value == r.(deleteRows := result.value.deleteRows) && Received(r.deleteRows, result.value.deleteRows, b))
  {
    if b in r.deleteRows && r.deleteRows[b].completed {
      assert r.deleteRows == r.deleteRows[b := r.deleteRows[b].(completed := true)];
    }
  }

  /** Scheduled, past its date, and not claimed by another delivery in the last fifteen minutes. */
  ghost predicate Eligible(blob: Blob, outbox: OutboxId, now: nat) {
    && blob.status == PendingDelete && !blob.deleted
    && blob.deleteAfter.Some? && blob.deleteAfter.value <= now
    && (blob.claim.Some? && blob.claim.value.outbox != outbox ==> blob.claim.value.at + 15 * 60 <= now)
  }

  /** What a deletion claim decides, and what it leaves. */
  lemma DeletionClaimIff(r: Rows, b: BlobId, outbox: OutboxId, epoch: nat)
    requires b in r.blobs
    ensures var blob, result := r.blobs[b], ClaimDeletion(r, b, outbox, epoch);
            var named, gone := b in r.deleteRows && r.deleteRows[b].id == outbox, blob.status == Deleted || blob.deleted;
            && (result.AlreadyDeleted? <==> gone && Receivable(r.deleteRows, b, outbox, epoch))
            && (result.Cancelled? <==> !gone && InUse(r.files, b) && Receivable(r.deleteRows, b, outbox, epoch))
            && (result.Granted? <==> named && !gone && !InUse(r.files, b) && Eligible(blob, outbox, r.now))
            && (result.AlreadyDeleted? ==>
                  && result.rows == r.(deleteRows := result.rows.deleteRows)
                  && Received(r.deleteRows, result.rows.deleteRows, b))
            && (result.Cancelled? ==>
                  && result.rows == r.(deleteRows := result.rows.deleteRows, blobs := result.rows.blobs)
                  && Received(r.deleteRows, result.rows.deleteRows, b)
                  && result.rows.blobs == r.blobs[b := blob.(status := if blob.sha256.Some? then Verified else Unverified,
                                                             deleteAfter := None, updatedAt := r.now)])
            && (result.Granted? ==>
                  && result.blob == blob
                  && result.rows == r.(blobs := r.blobs[b := blob.(claim := Some(DeletionClaim(outbox, r.now)), updatedAt := r.now)]))
  {
    ReceiptIff(r, b, outbox, epoch);
    ReceiptIff(r.(blobs := r.blobs[b := CancelledBlob(r.blobs[b], r.now)]), b, outbox, epoch);
    assert InUse(r.files, b) <==> LiveOn(r, b) || ReferencedOn(r, b);
  }

  /** Only the delivery that claimed the deletion gives it up again. */
  lemma ReleaseIff(r: Rows, b: BlobId, outbox: OutboxId)
    requires b in r.blobs
    ensures var blob, t := r.blobs[b], ReleaseDeletionClaim(r, b, outbox);
            if blob.claim.Some? && blob.claim.value.outbox == outbox
            then t == r.(blobs := r.blobs[b := blob.(claim := None, updatedAt := r.now)])
            else t == r
  {}

  /** A deletion is recorded exactly by the delivery that still holds its claim, or was recorded before, and whose receipt is accepted. */
  lemma DeletionCompletesIff(r: Rows, b: BlobId, outbox: OutboxId, epoch: nat)
    requires b in r.blobs
    ensures var blob, result := r.blobs[b], CompleteDeletion(r, b, outbox, epoch);
            var held := blob.claim.Some? && blob.claim.value.outbox == outbox && blob.status == PendingDelete;
            && (result.Some? <==> (held || blob.status == Deleted || blob.deleted) && Receivable(r.deleteRows, b, outbox, epoch))
            && (result.Some? ==>
                  && result.value == r.(deleteRows := result.value.deleteRows, blobs := result.value.blobs)
                  && Received(r.deleteRows, result.value.deleteRows, b)
                  && result.value.blobs == if held
                                           then r.blobs[b := blob.(status := Deleted, deleted := true, claim := None, updatedAt := r.now)]
                                           else r.blobs)
  {
    var blob := r.blobs[b];
    ReceiptIff(r, b, outbox, epoch);
    ReceiptIff(r.(blobs := r.blobs[b := blob.(status := Deleted, deleted := true, claim := None, updatedAt := r.now)]), b, outbox, epoch);
  }

  // ----- collection and uploads -----

  ghost predicate OtherLive(files: map<FileId, File>, b: BlobId, f: FileId) {
    exists g | g in files && g != f :: files[g].blob == Some(b) && !files[g].deleted
  }

  /** Reopened without touching the dead-letter mark. */
  ghost predicate Requeued(before: map<BlobId, Row>, after: map<BlobId, Row>, b: BlobId) {
    && b in after && !after[b].completed && OthersKept(before, after, b)
    && (if b in before then after[b] == before[b].(completed := false) else !after[b].deadLettered)
  }

  /**
   * Collecting tombstones a file nothing refers to. Its blob is scheduled, on
   * its own date or in seven days, exactly when no other live file uses it
   * and it is not deleted yet.
   */
  lemma CollectIff(r: Rows, f: FileId)
    requires f in r.files && (r.files[f].blob.Some? ==> r.files[f].blob.value in r.blobs)
    ensures var file, t := r.files[f], CollectFile(r, f);
            && SameStore(r, t) && t.verifyRows == r.verifyRows
            && (if file.references != {} then t == r
                else && t.files == r.files[f := file.(deleted := true, status := Removed)]
                     && if file.blob.None? || r.blobs[file.blob.value].deleted || OtherLive(r.files, file.blob.value, f)
                        then t.blobs == r.blobs && t.deleteRows == r.deleteRows
                        else
                          var b := file.blob.value;
                          && t.blobs == r.blobs[b := r.blobs[b].(status := PendingDelete, updatedAt := r.now,
                                                                 deleteAfter := Some(r.blobs[b].deleteAfter.GetOr(r.now + 7 * 24 * 3600)))]
                          && Requeued(r.deleteRows, t.deleteRows, b))
  {
    var file := r.files[f];
    if file.references == {} && file.blob.Some? {
      var b, m := file.blob.value, Tombstoned(r, f);
      if g :| g in m.files && m.files[g].blob == Some(b) && !m.files[g].deleted {
        assert g != f && r.files[g].blob == Some(b);
      }
      if g :| g in r.files && g != f && r.files[g].blob == Some(b) && !r.files[g].deleted {
        assert m.files[g].blob == Some(b);
      }
    }
  }

  /** Adding a reference to a file of a scheduled blob restores the blob and finishes its deletion. */
  lemma ReferenceRestores(r: Rows, f: FileId, reference: Reference)
    requires f in r.files
    ensures var file, t := r.files[f], Associated(r, f, reference);
            && SameStore(r, t) && t.verifyRows == r.verifyRows
            && t.files == r.files[f := file.(references := file.references + {reference})]
            && (if file.blob.None? || file.blob.value !in r.blobs then t.blobs == r.blobs && t.deleteRows == r.deleteRows
                else
                  var b, blob := file.blob.value, r.blobs[file.blob.value];
                  && (if blob.status == PendingDelete && !blob.deleted
                      then t.blobs == r.blobs[b := blob.(status := if blob.sha256.Some? then Verified else Unverified,
                                                         deleteAfter := None, updatedAt := r.now)]
                      else t.blobs == r.blobs)
                  && (if b in r.deleteRows then Received(r.deleteRows, t.deleteRows, b) else t.deleteRows == r.deleteRows))
  {}

  /** A finished upload opens its file, asks for a verification, and lets a failed one be tried again. */
  lemma UploadFinishes(r: Rows, f: FileId, indexed: bool)
    requires f in r.files && r.files[f].blob.Some? && r.files[f].blob.value in r.blobs
    ensures var b, t := r.files[f].blob.value, FileSafety.Finished(r, f, indexed);
            && SameStore(r, t) && t.deleteRows == r.deleteRows && Requeued(r.verifyRows, t.verifyRows, b)
            && t.files == r.files[f := r.files[f].(status := if indexed then Processing else Available)]
            && t.blobs == r.blobs[b := r.blobs[b].(updatedAt := r.now, status := if r.blobs[b].status == Failed then Unverified else r.blobs[b].status)]
  {}
}
