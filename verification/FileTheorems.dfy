/**
 * What the file protocol guarantees over whole runs, and exactly when the one
 * unchecked shortcut in it, cancelling a deletion, is harmless.
 */
module FileTheorems {
  import opened Options
  import opened FileRows
  import opened FileSafety

  ghost predicate Initial(s: System) {
    && s.rows.blobs == map[] && s.rows.objects == map[] && s.rows.files == map[]
    && s.rows.verifyRows == map[] && s.rows.deleteRows == map[] && s.workers == map[]
  }

  lemma {:induction false} RunKeeps(s: System, events: seq<Event>)
    requires Initial(s)
    ensures Inv(Run(s, events))
  {
    if events != [] {
      RunKeeps(s, events[..|events| - 1]);
      StepKeeps(Run(s, events[..|events| - 1]), events[|events| - 1]);
    }
  }

  // ----- no live file loses its bytes -----

  /** All the declared bytes of file `f` are in the object store. */
  ghost predicate Stored(r: Rows, f: FileId) {
    && f in r.files && r.files[f].blob.Some? && r.files[f].blob.value in r.blobs
    && Complete(r, r.files[f].blob.value)
  }

  /** The bytes a reader of file `f` gets. */
  ghost function FileBytes(r: Rows, f: FileId): Bytes
    requires Stored(r, f)
  {
    r.objects[r.blobs[r.files[f].blob.value].location]
  }

  ghost predicate LiveFile(r: Rows, f: FileId) {
    f in r.files && !r.files[f].deleted && r.files[f].blob.Some?
  }

  /** A file that is live later was live before, and keeps whatever it had stored completely. */
  ghost predicate SameBytes(r: Rows, t: Rows, f: FileId) {
    LiveFile(r, f) && (Stored(r, f) ==> Stored(t, f) && FileBytes(t, f) == FileBytes(r, f))
  }

  lemma SameBlobSameBytes(r: Rows, t: Rows, f: FileId)
    requires RowsOk(r) && RowsOk(t) && Grows(r, t) && f in r.files && LiveFile(t, f)
    requires t.files[f].blob == r.files[f].blob
    ensures SameBytes(r, t, f)
  {
    assert FileOk(r, f) && FileOk(t, f);
    assert BlobGrows(r, t, r.files[f].blob.value);
  }

  /** Deduplication moves a file to a blob that holds the very same bytes. */
  lemma MovedSameBytes(s: System, w: WorkerId, winner: Option<BlobId>, f: FileId)
    requires Inv(s) && Enabled(s, Finalize(w, winner))
    requires LiveFile(s.rows, f) && Finalized(s, w, winner).value.files[f].blob != s.rows.files[f].blob
    ensures SameBytes(s.rows, Finalized(s, w, winner).value, f)
    ensures Stored(s.rows, f)
  {
    var r, p := s.rows, s.workers[w];
    assert WorkerOk(r, p);
    assert FileOk(r, f);
    assert winner.Some? && r.files[f].blob == Some(p.blob);
    assert BlobOk(r, winner.value);
  }

  // ----- which steps touch links and verification rows -----

  ghost predicate LinksKept(r: Rows, t: Rows) {
    forall f | f in r.files :: f in t.files && t.files[f].blob == r.files[f].blob
  }

  /** Keeps every link and verification row, and puts no blob into `verifying`. */
  ghost predicate Calm(r: Rows, t: Rows) {
    && LinksKept(r, t)
    && t.verifyRows == r.verifyRows
    && forall b | b in t.blobs && t.blobs[b].status == Verifying :: b in r.blobs && r.blobs[b].status == Verifying
  }

  lemma CollectCalm(r: Rows, f: FileId)
    requires f in r.files && (r.files[f].blob.Some? ==> r.files[f].blob.value in r.blobs)
    ensures Calm(r, CollectFile(r, f))
  {}

  lemma FailureCalm(r: Rows, b: BlobId, integrity: bool)
    requires b in r.blobs
    ensures Calm(r, RecordFailure(r, b, integrity))
  {}

  lemma ClaimDeletionCalm(r: Rows, b: BlobId, outbox: OutboxId, epoch: nat)
    requires RowsOk(r) && b in r.blobs && !ClaimDeletion(r, b, outbox, epoch).Refused?
    ensures Calm(r, ClaimDeletion(r, b, outbox, epoch).rows)
  {
    NeverCancelled(r, b, outbox, epoch);
  }

  lemma CompleteCalm(r: Rows, b: BlobId, outbox: OutboxId, epoch: nat)
    requires b in r.blobs && CompleteDeletion(r, b, outbox, epoch).Some?
    ensures Calm(r, CompleteDeletion(r, b, outbox, epoch).value)
  {}

  lemma ReleaseCalm(r: Rows, b: BlobId, outbox: OutboxId)
    requires b in r.blobs
    ensures Calm(r, ReleaseDeletionClaim(r, b, outbox))
  {}

  predicate TouchesVerification(e: Event) {
    e.DispatchVerify? || e.DeadLetterVerify? || e.ReopenVerify? || e.PurgeVerify? || e.StartVerify? || e.Finalize? || e.FinishUpload?
  }

  lemma CalmStep(s: System, e: Event)
    requires Inv(s) && Enabled(s, e) && !TouchesVerification(e)
    ensures Calm(s.rows, Next(s, e).rows)
  {
    match e
    case AddReference(f, reference) => NothingToRestore(s.rows, f, reference);
    case Collect(f) => CollectCalm(s.rows, f);
    case FailVerify(w, integrity) => FailureCalm(s.rows, s.workers[w].blob, integrity);
    case StartDelete(_, b, receipt, delivery) => ClaimDeletionCalm(s.rows, b, receipt, delivery);
    case CompleteDelete(w) => CompleteCalm(s.rows, s.workers[w].blob, s.workers[w].receipt, s.workers[w].delivery);
    case ReleaseClaim(w) => ReleaseCalm(s.rows, s.workers[w].blob, s.workers[w].receipt);
    case _ =>
  }

  lemma FinalizeLinks(s: System, w: WorkerId, winner: Option<BlobId>, f: FileId)
    requires Enabled(s, Finalize(w, winner)) && f in s.rows.files
    ensures var t := Finalized(s, w, winner).value;
            f in t.files && (t.files[f].blob.Some? <==> s.rows.files[f].blob.Some?)
  {}

  lemma FinalizeKeepsBytes(s: System, w: WorkerId, winner: Option<BlobId>, f: FileId)
    requires Inv(s) && Enabled(s, Finalize(w, winner)) && f in s.rows.files
    requires var t := Finalized(s, w, winner).value; LiveFile(t, f) && RowsOk(t) && Grows(s.rows, t)
    ensures SameBytes(s.rows, Finalized(s, w, winner).value, f)
  {
    var t := Finalized(s, w, winner).value;
    FinalizeLinks(s, w, winner, f);
    if t.files[f].blob == s.rows.files[f].blob {
      SameBlobSameBytes(s.rows, t, f);
    } else {
      MovedSameBytes(s, w, winner, f);
    }
  }

  /** Only deduplication moves a file to another blob. */
  lemma StepLinks(s: System, e: Event)
    requires Inv(s) && Enabled(s, e) && !e.Finalize?
    ensures LinksKept(s.rows, Next(s, e).rows)
  {
    if !TouchesVerification(e) { CalmStep(s, e); }
  }

  lemma StepKeepsBytes(s: System, e: Event, f: FileId)
    requires Inv(s) && f in s.rows.files && LiveFile(Step(s, e).rows, f)
    ensures SameBytes(s.rows, Step(s, e).rows, f)
  {
    StepKeeps(s, e);
    if Enabled(s, e) {
      if e.Finalize? {
        FinalizeKeepsBytes(s, e.worker, e.winner, f);
      } else {
        StepLinks(s, e);
        SameBlobSameBytes(s.rows, Next(s, e).rows, f);
      }
    }
  }

  /** No file disappears, and one that is live later was live before, with the same stored bytes. */
  ghost predicate KeepsBytes(r: Rows, t: Rows) {
    forall f | f in r.files :: f in t.files && (LiveFile(t, f) ==> SameBytes(r, t, f))
  }

  lemma {:induction false} RunKeepsBytes(s: System, events: seq<Event>, i: nat, j: nat)
    requires Initial(s) && i <= j <= |events|
    ensures KeepsBytes(Run(s, events[..i]).rows, Run(s, events[..j]).rows)
    decreases j
  {
    if i < j {
      RunKeepsBytes(s, events, i, j - 1);
      RunKeeps(s, events[..j - 1]);
      OneStep(s, events, j);
      var m, t := Run(s, events[..j - 1]), Run(s, events[..j]).rows;
      StepKeeps(m, events[j - 1]);
      forall f | f in m.rows.files && LiveFile(t, f) ensures SameBytes(m.rows, t, f) {
        StepKeepsBytes(m, events[j - 1], f);
      }
    } else {
      assert KeepsBytes(Run(s, events[..j]).rows, Run(s, events[..j]).rows);
    }
  }

  /**
   * In every run, with workers stopping anywhere between claim, physical
   * deletion and receipt: a live file whose upload was finished has its
   * object, and a file that is still live holds the bytes it had completely
   * stored at every earlier moment, whatever was deduplicated in between.
   */
  lemma NoLiveFileLosesBytes(s: System, events: seq<Event>, i: nat, j: nat, f: FileId)
    requires Initial(s) && i <= j <= |events|
    requires f in Run(s, events[..i]).rows.files && LiveFile(Run(s, events[..j]).rows, f)
    ensures var r, t := Run(s, events[..i]).rows, Run(s, events[..j]).rows;
            && (WasUploaded(t.files[f]) ==> Stored(t, f))
            && (Stored(r, f) || WasUploaded(r.files[f]) ==> Stored(r, f) && Stored(t, f) && FileBytes(t, f) == FileBytes(r, f))
  {
    var r, t := Run(s, events[..i]).rows, Run(s, events[..j]).rows;
    RunKeepsBytes(s, events, i, j);
    RunKeeps(s, events[..i]);
    RunKeeps(s, events[..j]);
    assert SameBytes(r, t, f);
  }

  lemma OneStep(s: System, events: seq<Event>, j: nat)
    requires 0 < j <= |events|
    ensures Run(s, events[..j]) == Step(Run(s, events[..j - 1]), events[j - 1])
  {
    assert events[..j][..j - 1] == events[..j - 1];
  }

  /** Verified blobs match their bytes and are unique by digest and size; a deleted blob has no object. */
  lemma VerifiedBlobsMatch(s: System, events: seq<Event>)
    requires Initial(s)
    ensures var r := Run(s, events).rows;
            && (forall b | b in r.blobs && r.blobs[b].status == Verified ::
                  && r.blobs[b].location in r.objects
                  && r.blobs[b].sha256 == Some(Sha256(r.objects[r.blobs[b].location]))
                  && r.blobs[b].size == |r.objects[r.blobs[b].location]|)
            && (forall a, b | a in r.blobs && b in r.blobs && SameContent(r.blobs[a], r.blobs[b]) :: a == b)
            && (forall b | b in r.blobs && r.blobs[b].status == Deleted :: r.blobs[b].location !in r.objects)
  {
    RunKeeps(s, events);
    var r := Run(s, events).rows;
    forall b | b in r.blobs ensures BlobOk(r, b) {}
  }

  // ----- verification survives crashes -----

  ghost predicate OpenOrDead(rowsOf: map<BlobId, Row>, b: BlobId) {
    b in rowsOf && (!rowsOf[b].completed || rowsOf[b].deadLettered)
  }

  ghost predicate Watched(r: Rows, b: BlobId) {
    b in r.blobs && r.blobs[b].status == Verifying ==> OpenOrDead(r.verifyRows, b)
  }

  /** Retention removes the row of a blob that is being verified. */
  ghost predicate PurgesVerifying(s: System, e: Event, b: BlobId) {
    e == PurgeVerify(b) && Enabled(s, e) && b in s.rows.blobs && s.rows.blobs[b].status == Verifying
  }

  ghost predicate NeverPurged(s: System, events: seq<Event>, b: BlobId) {
    forall i | 0 <= i < |events| :: !PurgesVerifying(Run(s, events[..i]), events[i], b)
  }

  lemma ClaimWatched(r: Rows, x: BlobId, outbox: Option<OutboxId>, epoch: Option<nat>, b: BlobId)
    requires x in r.blobs && Watched(r, b)
    ensures Watched(ClaimVerification(r, x, outbox, epoch).0, b)
  {}

  lemma FinalizeWatched(s: System, w: WorkerId, winner: Option<BlobId>, b: BlobId)
    requires Enabled(s, Finalize(w, winner)) && Watched(s.rows, b)
    ensures Watched(Finalized(s, w, winner).value, b)
  {}

  lemma StepKeepsWatch(s: System, e: Event, b: BlobId)
    requires Inv(s) && Watched(s.rows, b) && !PurgesVerifying(s, e, b)
    ensures Watched(Step(s, e).rows, b)
  {
    if Enabled(s, e) {
      if e.StartVerify? {
        ClaimWatched(s.rows, e.blob, e.outbox, e.epoch, b);
      } else if e.Finalize? {
        FinalizeWatched(s, e.worker, e.winner, b);
      } else if !TouchesVerification(e) {
        CalmStep(s, e);
      }
    }
  }

  /**
   * After any crash a blob in `verifying` still has its verification row, open
   * or dead-lettered, unless retention removed this blob's row while it was
   * being verified.
   */
  lemma {:induction false} VerifyingIsWatched(s: System, events: seq<Event>, b: BlobId)
    requires Initial(s) && NeverPurged(s, events, b)
    ensures Watched(Run(s, events).rows, b)
  {
    if events != [] {
      var n := |events| - 1;
      forall i | 0 <= i < n ensures !PurgesVerifying(Run(s, events[..n][..i]), events[..n][i], b) {
        assert events[..n][..i] == events[..i];
        assert !PurgesVerifying(Run(s, events[..i]), events[i], b);
      }
      VerifyingIsWatched(s, events[..n], b);
      RunKeeps(s, events[..n]);
      StepKeepsWatch(Run(s, events[..n]), events[n], b);
    }
  }

  /** And then it removed a dead-lettered row, never one that was still to be delivered. */
  lemma PurgedRowWasDead(s: System, events: seq<Event>, b: BlobId)
    requires Initial(s) && PurgesVerifying(Run(s, events), PurgeVerify(b), b)
    ensures Run(s, events).rows.verifyRows[b].deadLettered
  {
    RunKeeps(s, events);
    assert BlobOk(Run(s, events).rows, b);
  }

  /** In every run, a verifying blob whose row is there at all has it open or dead-lettered, never closed as delivered. */
  lemma VerifyingNeverClosed(s: System, events: seq<Event>, b: BlobId)
    requires Initial(s)
    requires var r := Run(s, events).rows; b in r.blobs && r.blobs[b].status == Verifying
    ensures var r := Run(s, events).rows; OpenOrDead(r.verifyRows, b) <==> b in r.verifyRows
  {
    RunKeeps(s, events);
    assert BlobOk(Run(s, events).rows, b);
  }

  lemma RunAppend(s: System, events: seq<Event>, e: Event)
    ensures Run(s, events + [e]) == Step(Run(s, events), e)
  {
    assert (events + [e])[..|events|] == events;
  }

  lemma UploadedAndClaimed(s: System) returns (t: System)
    requires Initial(s)
    ensures t == Step(Step(s, Upload(0, 0, 0, [], None, None)), StartVerify(0, 0, None, None))
    ensures 0 in t.rows.blobs && t.rows.blobs[0].status == Verifying && 0 in t.rows.verifyRows
  {
    var uploaded := Step(s, Upload(0, 0, 0, [], None, None));
    assert Enabled(s, Upload(0, 0, 0, [], None, None));
    assert uploaded.rows.blobs[0].status == Unverified && 0 in uploaded.rows.blobs;
    assert Enabled(uploaded, StartVerify(0, 0, None, None));
    t := Step(uploaded, StartVerify(0, 0, None, None));
  }

  lemma DeadAndPurged(s: System) returns (t: System)
    requires 0 in s.rows.blobs && s.rows.blobs[0].status == Verifying && 0 in s.rows.verifyRows
    ensures PurgesVerifying(Step(s, DeadLetterVerify(0)), PurgeVerify(0), 0)
    ensures t == Step(Step(s, DeadLetterVerify(0)), PurgeVerify(0))
    ensures 0 in t.rows.blobs && t.rows.blobs[0].status == Verifying && 0 !in t.rows.verifyRows
  {
    var dead := Step(s, DeadLetterVerify(0));
    assert Enabled(s, DeadLetterVerify(0)) && Enabled(dead, PurgeVerify(0));
    t := Step(dead, PurgeVerify(0));
  }

  /** That happens: a claimed verification is dead-lettered, and retention then removes the row of a blob still verifying. */
  lemma PurgedWhileVerifying(s: System) returns (events: seq<Event>)
    requires Initial(s)
    ensures var r := Run(s, events).rows; 0 in r.blobs && r.blobs[0].status == Verifying && 0 !in r.verifyRows
  {
    var upload, claim := Upload(0, 0, 0, [], None, None), StartVerify(0, 0, None, None);
    var claimed := UploadedAndClaimed(s);
    var purged := DeadAndPurged(claimed);
    RunAppend(s, [], upload);
    RunAppend(s, [] + [upload], claim);
    RunAppend(s, [] + [upload] + [claim], DeadLetterVerify(0));
    RunAppend(s, [] + [upload] + [claim] + [DeadLetterVerify(0)], PurgeVerify(0));
    events := [] + [upload] + [claim] + [DeadLetterVerify(0)] + [PurgeVerify(0)];
  }

  ghost predicate ClosedBetween(r: Rows, t: Rows, b: BlobId) {
    && b in r.verifyRows && !r.verifyRows[b].completed
    && b in t.verifyRows && t.verifyRows[b].completed && !t.verifyRows[b].deadLettered
  }

  ghost predicate HasOutcome(r: Rows, b: BlobId) {
    b in r.blobs && (r.blobs[b].status == Verified || Doomed(r.blobs[b].status))
  }

  lemma FinalizeCloses(s: System, w: WorkerId, winner: Option<BlobId>, x: BlobId)
    requires Enabled(s, Finalize(w, winner)) && ClosedBetween(s.rows, Finalized(s, w, winner).value, x)
    ensures HasOutcome(Finalized(s, w, winner).value, x)
  {}

  /** The watchdog row is closed as delivered only in a transaction that leaves the blob with an outcome. */
  lemma WatchdogClosesWithOutcome(s: System, e: Event, b: BlobId)
    requires Inv(s) && ClosedBetween(s.rows, Step(s, e).rows, b)
    ensures HasOutcome(Step(s, e).rows, b)
  {
    if e.Finalize? {
      FinalizeCloses(s, e.worker, e.winner, b);
    } else if !TouchesVerification(e) {
      CalmStep(s, e);
    }
  }

  // ----- cancelling a deletion -----

  ghost predicate VerifiedMatch(r: Rows) {
    forall b | b in r.blobs && r.blobs[b].status == Verified ::
      && r.blobs[b].location in r.objects
      && r.blobs[b].sha256 == Some(Sha256(r.objects[r.blobs[b].location]))
      && r.blobs[b].size == |r.objects[r.blobs[b].location]|
  }

  ghost predicate HasTwin(r: Rows, b: BlobId)
    requires b in r.blobs
  {
    exists a :: a in r.blobs && a != b && r.blobs[a].status == Verified
                && r.blobs[a].sha256 == r.blobs[b].sha256 && r.blobs[a].size == r.blobs[b].size
  }

  /** What a caller would have to check before restoring a scheduled blob to `verified`. */
  ghost predicate DigestStillHolds(r: Rows, b: BlobId)
    requires b in r.blobs
  {
    && r.blobs[b].location in r.objects
    && r.blobs[b].sha256 == Some(Sha256(r.objects[r.blobs[b].location]))
    && r.blobs[b].size == |r.objects[r.blobs[b].location]|
  }

  /**
   * The cancellation keeps verified blobs truthful and unique exactly when no
   * digest was recorded, or the recorded one still describes the stored bytes
   * and no verified twin took over meanwhile. Nothing in the code checks this.
   */
  lemma CancellationSoundIff(r: Rows, b: BlobId)
    requires b in r.blobs && r.blobs[b].status == PendingDelete
    requires VerifiedMatch(r) && VerifiedUnique(r)
    ensures var t := r.(blobs := r.blobs[b := CancelledBlob(r.blobs[b], r.now)]);
            VerifiedMatch(t) && VerifiedUnique(t)
            <==> r.blobs[b].sha256.None? || (DigestStillHolds(r, b) && !HasTwin(r, b))
  {
    var t := r.(blobs := r.blobs[b := CancelledBlob(r.blobs[b], r.now)]);
    if r.blobs[b].sha256.Some? {
      if HasTwin(r, b) {
        var a :| a in r.blobs && a != b && r.blobs[a].status == Verified
                 && r.blobs[a].sha256 == r.blobs[b].sha256 && r.blobs[a].size == r.blobs[b].size;
        assert SameContent(t.blobs[a], t.blobs[b]);
      } else {
        forall x, y | x in t.blobs && y in t.blobs && x != y && (DigestStillHolds(r, b))
          ensures !SameContent(t.blobs[x], t.blobs[y])
        {
          assert x != b && y != b ==> !SameContent(r.blobs[x], r.blobs[y]);
        }
      }
      assert t.blobs[b].status == Verified;
    } else {
      forall x, y | x in t.blobs && y in t.blobs && x != y ensures !SameContent(t.blobs[x], t.blobs[y]) {
        assert x != b && y != b ==> !SameContent(r.blobs[x], r.blobs[y]);
      }
    }
  }

  /**
   * So restoring the loser of a deduplication is never sound while its winner
   * is still verified, at whatever later moment it happens.
   */
  lemma LoserNeverRestorable(r: Rows, b: BlobId, digest: Digest, winner: BlobId, t: Rows)
    requires b in r.blobs && IsWinner(r, b, digest, winner)
    requires b in t.blobs && t.blobs[b].sha256 == FinalizeAsDuplicate(r, b, digest, winner).blobs[b].sha256
    requires t.blobs[b].size == r.blobs[b].size && t.blobs[b].status == PendingDelete
    requires winner in t.blobs && SameContent(t.blobs[winner], r.blobs[winner])
    ensures !VerifiedUnique(t.(blobs := t.blobs[b := CancelledBlob(t.blobs[b], t.now)]))
  {
    var after := t.(blobs := t.blobs[b := CancelledBlob(t.blobs[b], t.now)]);
    assert SameContent(after.blobs[winner], after.blobs[b]);
  }

  /** A scheduled blob with a live file on it, which the environment assumption rules out. */
  ghost function TrapRows(): Rows {
    Rows(10,
         map[0 := Blob(0, 1, Some(Sha256("y")), None, PendingDelete, Some(5), false, None, 0)],
         map[0 := "x"],
         map[0 := File(Some(0), false, {}, Available, None)],
         map[],
         map[0 := Row(7, 1, false, false)],
         8)
  }

  /** Without that assumption, one cancelled deletion marks a blob verified whose digest is wrong. */
  lemma CancellationTrap()
    ensures var r := TrapRows();
            && ClaimDeletion(r, 0, 7, 1).Cancelled?
            && ClaimDeletion(r, 0, 7, 1).rows.blobs[0].status == Verified
            && !VerifiedMatch(ClaimDeletion(r, 0, 7, 1).rows)
  {
    var r := TrapRows();
    assert r.files[0].blob == Some(0) && !r.files[0].deleted;
    assert LiveOn(r, 0);
    var t := ClaimDeletion(r, 0, 7, 1).rows;
    assert t.blobs[0].status == Verified && t.objects[0] == "x" && t.blobs[0].sha256 == Some(Sha256("y"));
    assert "x"[0] != "y"[0];
  }
}
