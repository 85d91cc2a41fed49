/**
 * The grace period: nothing a file used is erased before seven days have
 * passed since it was last in use.
 */
module FileGrace {
  import opened Options
  import opened FileRows
  import opened FileSafety
  import opened FileTheorems

  /** A blob in use carries no deletion date and no deletion claim. */
  ghost predicate Clean(r: Rows) {
    forall b | b in r.blobs && !Doomed(r.blobs[b].status) :: r.blobs[b].deleteAfter.None? && r.blobs[b].claim.None?
  }

  /** The blob's deletion date, and whatever its deletion has reached, respect the moment it was in use. */
  ghost predicate Dated(r: Rows, b: BlobId, used: nat) {
    && b in r.blobs && used <= r.now
    && var blob := r.blobs[b];
       && (Doomed(blob.status) ==> blob.deleteAfter.Some? && blob.deleteAfter.value >= used + GRACE_SECONDS)
       && (blob.claim.Some? || blob.deleted ==> r.now >= used + GRACE_SECONDS)
  }

  /** `whole`: the blob's bytes were complete at that moment. */
  ghost predicate Graced(s: System, b: BlobId, used: nat, whole: bool) {
    && Dated(s.rows, b, used)
    && (whole ==> Complete(s.rows, b) || s.rows.now >= used + GRACE_SECONDS)
    && forall w | w in s.workers && Deletes(s.workers[w], b) ::
         s.rows.now >= used + GRACE_SECONDS
  }

  /** No transaction moves the clock or touches an object. */
  ghost predicate SameWorld(r: Rows, t: Rows) {
    t.now == r.now && t.objects == r.objects
  }

  // ----- the transactions -----

  lemma ClaimGraced(r: Rows, b: BlobId, outbox: Option<OutboxId>, epoch: Option<nat>, x: BlobId, used: nat)
    requires b in r.blobs && Clean(r)
    ensures Clean(ClaimVerification(r, b, outbox, epoch).0) && SameWorld(r, ClaimVerification(r, b, outbox, epoch).0)
    ensures Dated(r, x, used) ==> Dated(ClaimVerification(r, b, outbox, epoch).0, x, used)
  {}

  lemma VerifiedGraced(r: Rows, b: BlobId, digest: Digest, x: BlobId, used: nat)
    requires b in r.blobs && Clean(r) && !Doomed(r.blobs[b].status)
    ensures Clean(FinalizeAsVerified(r, b, digest)) && SameWorld(r, FinalizeAsVerified(r, b, digest))
    ensures Dated(r, x, used) ==> Dated(FinalizeAsVerified(r, b, digest), x, used)
  {}

  lemma FinalizeGraced(s: System, w: WorkerId, winner: Option<BlobId>, x: BlobId, used: nat)
    requires Enabled(s, Finalize(w, winner)) && Clean(s.rows)
    ensures Clean(Finalized(s, w, winner).value) && SameWorld(s.rows, Finalized(s, w, winner).value)
    ensures Dated(s.rows, x, used) ==> Dated(Finalized(s, w, winner).value, x, used)
  {
    var r, p := s.rows, s.workers[w];
    if !Doomed(r.blobs[p.blob].status) && winner.None? {
      VerifiedGraced(r, p.blob, p.digest, x, used);
    }
  }

  lemma CollectGraced(r: Rows, f: FileId, x: BlobId, used: nat)
    requires f in r.files && (r.files[f].blob.Some? ==> r.files[f].blob.value in r.blobs) && Clean(r)
    ensures Clean(CollectFile(r, f)) && SameWorld(r, CollectFile(r, f))
    ensures Dated(r, x, used) ==> Dated(CollectFile(r, f), x, used)
  {
    if r.files[f].references == {} && r.files[f].blob.Some? {
      assert Clean(Tombstoned(r, f));
    }
  }

  /** A deletion is claimed only once its date has come. */
  lemma ClaimDeletionGraced(r: Rows, b: BlobId, outbox: OutboxId, epoch: nat, x: BlobId, used: nat)
    requires RowsOk(r) && b in r.blobs && Clean(r)
    ensures match ClaimDeletion(r, b, outbox, epoch)
            case Refused => true
            case Cancelled(_) => false
            case AlreadyDeleted(t) => Clean(t) && SameWorld(r, t) && (Dated(r, x, used) ==> Dated(t, x, used))
            case Granted(t, _) =>
              && Clean(t) && SameWorld(r, t) && (Dated(r, x, used) ==> Dated(t, x, used))
              && (Dated(r, b, used) ==> r.now >= used + GRACE_SECONDS)
  {
    NeverCancelled(r, b, outbox, epoch);
  }

  lemma CompleteGraced(r: Rows, b: BlobId, outbox: OutboxId, epoch: nat, x: BlobId, used: nat)
    requires b in r.blobs && Clean(r) && CompleteDeletion(r, b, outbox, epoch).Some?
    ensures Clean(CompleteDeletion(r, b, outbox, epoch).value) && SameWorld(r, CompleteDeletion(r, b, outbox, epoch).value)
    ensures Dated(r, x, used) ==> Dated(CompleteDeletion(r, b, outbox, epoch).value, x, used)
  {}

  lemma ReleaseGraced(r: Rows, b: BlobId, outbox: OutboxId, x: BlobId, used: nat)
    requires b in r.blobs && Clean(r)
    ensures Clean(ReleaseDeletionClaim(r, b, outbox)) && SameWorld(r, ReleaseDeletionClaim(r, b, outbox))
    ensures Dated(r, x, used) ==> Dated(ReleaseDeletionClaim(r, b, outbox), x, used)
  {}

  lemma FailureGraced(r: Rows, b: BlobId, integrity: bool, x: BlobId, used: nat)
    requires b in r.blobs && Clean(r)
    ensures Clean(RecordFailure(r, b, integrity)) && SameWorld(r, RecordFailure(r, b, integrity))
    ensures Dated(r, x, used) ==> Dated(RecordFailure(r, b, integrity), x, used)
  {}

  lemma RowsGraced(s: System, e: Event, x: BlobId, used: nat)
    requires Inv(s) && Enabled(s, e) && Clean(s.rows)
    ensures Clean(Next(s, e).rows)
    ensures Dated(s.rows, x, used) ==> Dated(Next(s, e).rows, x, used)
    ensures s.rows.now <= Next(s, e).rows.now
    ensures !e.Erase? && !e.DropMismatch? && !e.Arrive? && !e.Upload? ==> Next(s, e).rows.objects == s.rows.objects
  {
    match e
    case Collect(f) => CollectGraced(s.rows, f, x, used);
    case StartVerify(_, b, outbox, epoch) => ClaimGraced(s.rows, b, outbox, epoch, x, used);
    case Finalize(w, winner) => FinalizeGraced(s, w, winner, x, used);
    case FailVerify(w, integrity) => FailureGraced(s.rows, s.workers[w].blob, integrity, x, used);
    case StartDelete(_, b, receipt, delivery) => ClaimDeletionGraced(s.rows, b, receipt, delivery, x, used);
    case CompleteDelete(w) => CompleteGraced(s.rows, s.workers[w].blob, s.workers[w].receipt, s.workers[w].delivery, x, used);
    case ReleaseClaim(w) => ReleaseGraced(s.rows, s.workers[w].blob, s.workers[w].receipt, x, used);
    case _ =>
  }

  // ----- every run -----

  lemma {:induction false} RunIsClean(s: System, events: seq<Event>)
    requires Initial(s)
    ensures Clean(Run(s, events).rows)
  {
    if events != [] {
      var m := Run(s, events[..|events| - 1]);
      RunIsClean(s, events[..|events| - 1]);
      RunKeeps(s, events[..|events| - 1]);
      if Enabled(m, events[|events| - 1]) { RowsGraced(m, events[|events| - 1], 0, 0); }
    }
  }

  predicate Deletes(p: Worker, b: BlobId) {
    p.blob == b && (p.Erasing? || p.Erased?)
  }

  lemma NewEraser(s: System, e: Event, b: BlobId, w: WorkerId)
    requires Enabled(s, e) && !e.StartDelete? && w in Next(s, e).workers && Deletes(Next(s, e).workers[w], b)
    ensures w in s.workers && Deletes(s.workers[w], b)
  {}

  lemma ClaimedEraser(s: System, e: Event, b: BlobId, w: WorkerId, used: nat)
    requires Inv(s) && Enabled(s, e) && e.StartDelete? && Clean(s.rows) && Dated(s.rows, b, used)
    requires w in Next(s, e).workers && Deletes(Next(s, e).workers[w], b)
    ensures (w in s.workers && Deletes(s.workers[w], b)) || s.rows.now >= used + GRACE_SECONDS
  {
    ClaimDeletionGraced(s.rows, e.blob, e.receipt, e.delivery, b, used);
  }

  /** Complete bytes go away only under the worker erasing their own blob. */
  lemma ObjectsGraced(s: System, e: Event, b: BlobId, used: nat)
    requires Inv(s) && Enabled(s, e) && Clean(s.rows) && Graced(s, b, used, true) && Complete(s.rows, b)
    requires b in Next(s, e).rows.blobs && !Complete(Next(s, e).rows, b)
    ensures s.rows.now >= used + GRACE_SECONDS
  {
    NextRowsOk(s, e);
    assert BlobGrows(s.rows, Next(s, e).rows, b);
    if e.Erase? {
      assert WorkerOk(s.rows, s.workers[e.worker]);
    } else if !e.Arrive? && !e.DropMismatch? && !e.Upload? {
      RowsGraced(s, e, b, used);
    }
  }

  lemma StepGraced(s: System, e: Event, b: BlobId, used: nat, whole: bool)
    requires Inv(s) && Clean(s.rows) && Graced(s, b, used, whole)
    ensures Graced(Step(s, e), b, used, whole)
  {
    if Enabled(s, e) {
      var t := Next(s, e);
      RowsGraced(s, e, b, used);
      if whole && Complete(s.rows, b) && !Complete(t.rows, b) { ObjectsGraced(s, e, b, used); }
      forall w | w in t.workers && Deletes(t.workers[w], b)
        ensures t.rows.now >= used + GRACE_SECONDS
      {
        if e.StartDelete? {
          ClaimedEraser(s, e, b, w, used);
        } else {
          NewEraser(s, e, b, w);
        }
      }
    }
  }

  lemma {:induction false} RunGraced(s: System, events: seq<Event>, i: nat, j: nat, b: BlobId)
    requires Initial(s) && i <= j <= |events|
    requires var r := Run(s, events[..i]).rows; b in r.blobs && !Doomed(r.blobs[b].status)
    ensures var r := Run(s, events[..i]).rows; Graced(Run(s, events[..j]), b, r.now, Complete(r, b))
    decreases j
  {
    RunKeeps(s, events[..i]);
    RunIsClean(s, events[..i]);
    if i < j {
      var r := Run(s, events[..i]).rows;
      RunGraced(s, events, i, j - 1, b);
      RunKeeps(s, events[..j - 1]);
      RunIsClean(s, events[..j - 1]);
      OneStep(s, events, j);
      StepGraced(Run(s, events[..j - 1]), events[j - 1], b, r.now, Complete(r, b));
    }
  }

  /**
   * A blob in use at some moment of a run is not marked deleted before seven
   * days later, and what it had completely stored is not erased either,
   * however deletions, deduplications and crashes interleave.
   */
  lemma GracePeriod(s: System, events: seq<Event>, i: nat, j: nat, b: BlobId)
    requires Initial(s) && i <= j <= |events|
    requires var r := Run(s, events[..i]).rows; b in r.blobs && !Doomed(r.blobs[b].status)
    requires Run(s, events[..j]).rows.now < Run(s, events[..i]).rows.now + 7 * 24 * 3600
    ensures var r, t := Run(s, events[..i]).rows, Run(s, events[..j]).rows;
            && b in t.blobs && !t.blobs[b].deleted
            && (Complete(r, b) ==> Complete(t, b))
  {
    RunGraced(s, events, i, j, b);
  }
}
