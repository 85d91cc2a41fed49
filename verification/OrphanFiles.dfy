/**
 * The `orphan_files` cleanup phase: batches of unreferenced files are
 * tombstoned and their last-used blobs scheduled for deletion, until a batch
 * comes back short. Analysed without concurrent writers.
 */
module OrphanFiles {
  import opened Options
  import opened FileRows
  import FileSafety
  import Sets

  /** Scheduled for deletion with an open delete row, which may be dead-lettered. */
  predicate Scheduled(r: Rows, b: BlobId) {
    && b in r.blobs && r.blobs[b].status == PendingDelete
    && b in r.deleteRows && !r.deleteRows[b].completed
  }

  /** The candidate query. */
  predicate Candidate(r: Rows, f: FileId) {
    && f in r.files && r.files[f].references == {}
    && (!r.files[f].deleted
        || (r.files[f].blob.Some?
            && var b := r.files[f].blob.value;
               b in r.blobs && !r.blobs[b].deleted && !LiveOn(r, b) && !Scheduled(r, b)))
  }

  predicate Linked(r: Rows) {
    forall f | f in r.files && r.files[f].blob.Some? :: r.files[f].blob.value in r.blobs
  }

  /** A tombstoned file keeps no reference, as in every reachable state. */
  predicate TombstonesBare(r: Rows) {
    forall f | f in r.files && r.files[f].deleted :: r.files[f].references == {}
  }

  lemma ReachableIsBare(r: Rows)
    requires FileSafety.RowsOk(r)
    ensures Linked(r) && TombstonesBare(r)
  {
    forall f | f in r.files
      ensures (r.files[f].blob.Some? ==> r.files[f].blob.value in r.blobs) && (r.files[f].deleted ==> r.files[f].references == {})
    {
      assert FileSafety.FileOk(r, f);
    }
  }

  // ----- retiring expired uploads -----

  predicate Expired(reference: Reference, now: nat) {
    reference.Uploading? && reference.expires <= now
  }

  /** Drops the expired upload; a live file then loses everything but its other uploads. */
  function RetiredFile(file: File, upload: Reference): File {
    var left := file.references - {upload};
    if file.deleted then file.(references := left)
    else file.(references := (set x | x in left && x.Uploading?), status := UploadFailed)
  }

  function RetireUpload(r: Rows, f: FileId, upload: Reference): Rows
    requires f in r.files
  {
    r.(files := r.files[f := RetiredFile(r.files[f], upload)])
  }

  datatype Upload = Upload(file: FileId, reference: Reference)

  function ExpiredUploads(r: Rows): set<Upload> {
    set f, x | f in r.files && x in r.files[f].references && Expired(x, r.now) :: Upload(f, x)
  }

  predicate NotLater(u: Upload, v: Upload) {
    u.reference.Uploading? && v.reference.Uploading? ==> u.reference.expires <= v.reference.expires
  }

  /** An upload still in progress that ran out, as its file records it. */
  ghost predicate RanOut(r: Rows, u: Upload) {
    && u.file in r.files && u.reference in r.files[u.file].references
    && u.reference.Uploading? && u.reference.expires <= r.now
  }

  /** The `size` uploads that ran out first. */
  ghost predicate IsOldest(r: Rows, uploads: seq<Upload>, size: nat) {
    && |uploads| <= size
    && (forall i | 0 <= i < |uploads| :: RanOut(r, uploads[i]))
    && (forall i, j | 0 <= i < j < |uploads| :: uploads[i] != uploads[j] && uploads[i].reference.expires <= uploads[j].reference.expires)
    && (forall u | RanOut(r, u) && u !in uploads ::
          |uploads| == size && forall i | 0 <= i < |uploads| :: uploads[i].reference.expires <= u.reference.expires)
  }

  function RetireAll(r: Rows, uploads: seq<Upload>): (t: Rows)
    requires forall u | u in uploads :: u.file in r.files
    ensures t.files.Keys == r.files.Keys
    decreases |uploads|
  {
    if uploads == [] then r
    else
      var last := uploads[|uploads| - 1];
      RetireUpload(RetireAll(r, uploads[..|uploads| - 1]), last.file, last.reference)
  }

  method FirstExpired(uploads: set<Upload>) returns (first: Upload)
    requires uploads != {} && forall u | u in uploads :: u.reference.Uploading?
    ensures first in uploads && forall u | u in uploads :: NotLater(first, u)
  {
    first :| first in uploads;
    var left := uploads - {first};
    while left != {}
      invariant first in uploads && left <= uploads
      invariant forall u | u in uploads && u !in left :: NotLater(first, u)
      decreases |left|
    {
      var u :| u in left;
      if !NotLater(first, u) { first := u; }
      left := left - {u};
    }
  }

  method OldestExpired(r: Rows, size: nat) returns (uploads: seq<Upload>)
    ensures IsOldest(r, uploads, size)
  {
    uploads := [];
    var left := ExpiredUploads(r);
    while left != {} && |uploads| < size
      invariant |uploads| <= size && left <= ExpiredUploads(r)
      invariant forall i | 0 <= i < |uploads| :: uploads[i] in ExpiredUploads(r) && uploads[i] !in left
      invariant forall i, j | 0 <= i < j < |uploads| :: uploads[i] != uploads[j] && NotLater(uploads[i], uploads[j])
      invariant forall u, i | u in left && 0 <= i < |uploads| :: NotLater(uploads[i], u)
      invariant forall u | u in ExpiredUploads(r) :: u in left || u in uploads
      decreases |left|
    {
      var first := FirstExpired(left);
      uploads := uploads + [first];
      left := left - {first};
    }
  }

  /** Retiring uploads changes no blob, link or tombstone. */
  lemma {:induction false} RetireAllKeeps(r: Rows, uploads: seq<Upload>)
    requires forall u | u in uploads :: u.file in r.files
    ensures SameSkeleton(r, RetireAll(r, uploads))
    ensures TombstonesBare(r) ==> TombstonesBare(RetireAll(r, uploads))
    decreases |uploads|
  {
    if uploads != [] {
      var n := |uploads| - 1;
      RetireAllKeeps(r, uploads[..n]);
    }
  }

  ghost predicate Listed(uploads: seq<Upload>, f: FileId) {
    exists x :: Upload(f, x) in uploads
  }

  /**
   * A file with a retired upload loses the retired ones; if it is live, it has
   * failed and keeps nothing but its other uploads. Every other file stays as
   * it is.
   */
  ghost predicate Retired(r: Rows, t: Rows, uploads: seq<Upload>, f: FileId)
    requires f in r.files && f in t.files
  {
    if !Listed(uploads, f) then t.files[f] == r.files[f]
    else
      && t.files[f].blob == r.files[f].blob && t.files[f].deleted == r.files[f].deleted && t.files[f].quarantine == r.files[f].quarantine
      && t.files[f].status == (if r.files[f].deleted then r.files[f].status else UploadFailed)
      && forall x :: x in t.files[f].references <==>
                       x in r.files[f].references && Upload(f, x) !in uploads && (r.files[f].deleted || x.Uploading?)
  }

  lemma {:induction false} RetiredExactly(r: Rows, uploads: seq<Upload>, f: FileId)
    requires (forall v | v in uploads :: v.file in r.files) && f in r.files
    ensures Retired(r, RetireAll(r, uploads), uploads, f)
    decreases |uploads|
  {
    if uploads != [] {
      var n := |uploads| - 1;
      RetireAllKeeps(r, uploads[..n]);
      RetiredExactly(r, uploads[..n], f);
      assert uploads == uploads[..n] + [uploads[n]];
      if uploads[n].file == f { assert Upload(f, uploads[n].reference) in uploads; }
      assert Listed(uploads, f) <==> Listed(uploads[..n], f) || uploads[n].file == f;
    }
  }

  method RetireExpiredUploads(r: Rows, batchSize: nat) returns (t: Rows, retired: seq<Upload>)
    requires Linked(r)
    ensures IsOldest(r, retired, batchSize) && t == RetireAll(r, retired)
  {
    retired := OldestExpired(r, batchSize);
    t := r;
    for i := 0 to |retired|
      invariant t == RetireAll(r, retired[..i])
    {
      assert retired[..i + 1][..i] == retired[..i];
      t := RetireUpload(t, retired[i].file, retired[i].reference);
    }
    assert retired[..|retired|] == retired;
  }

  /** Same blobs, delete rows and clock, and the same files with the same links and tombstones. */
  ghost predicate SameSkeleton(r: Rows, t: Rows) {
    && t.blobs == r.blobs && t.deleteRows == r.deleteRows && t.now == r.now
    && t.files.Keys == r.files.Keys
    && forall f | f in r.files :: t.files[f].blob == r.files[f].blob && t.files[f].deleted == r.files[f].deleted
  }

  // ----- what is left to do -----

  function LiveFiles(r: Rows): set<FileId> {
    set f | f in r.files && !r.files[f].deleted
  }

  /** Undeleted blobs all of whose files are tombstoned and that are not scheduled yet. */
  function Unscheduled(r: Rows): set<BlobId> {
    set b | b in r.blobs && !r.blobs[b].deleted && !LiveOn(r, b) && UsedOn(r, b) && !Scheduled(r, b)
  }

  predicate UsedOn(r: Rows, b: BlobId) {
    exists f | f in r.files :: r.files[f].blob == Some(b)
  }

  function Work(r: Rows): nat {
    |LiveFiles(r)| + |Unscheduled(r)|
  }

  lemma SkeletonWork(r: Rows, t: Rows)
    requires SameSkeleton(r, t)
    ensures LiveFiles(t) == LiveFiles(r) && Unscheduled(t) == Unscheduled(r)
  {
    forall b: BlobId ensures LiveOn(t, b) <==> LiveOn(r, b) {
      if f :| f in r.files && r.files[f].blob == Some(b) && !r.files[f].deleted {
        assert t.files[f].blob == Some(b) && !t.files[f].deleted;
      }
      if f :| f in t.files && t.files[f].blob == Some(b) && !t.files[f].deleted {
        assert r.files[f].blob == Some(b) && !r.files[f].deleted;
      }
    }
    forall b: BlobId ensures UsedOn(t, b) <==> UsedOn(r, b) {
      if f :| f in r.files && r.files[f].blob == Some(b) {
        assert t.files[f].blob == Some(b);
      }
      if f :| f in t.files && t.files[f].blob == Some(b) {
        assert r.files[f].blob == Some(b);
      }
    }
  }

  // ----- collecting one file -----

  lemma LiveOnAfterTombstone(r: Rows, f: FileId, b: BlobId)
    requires f in r.files
    ensures LiveOn(Tombstoned(r, f), b) ==> LiveOn(r, b)
    ensures r.files[f].deleted || r.files[f].blob != Some(b) ==> (LiveOn(Tombstoned(r, f), b) <==> LiveOn(r, b))
    ensures UsedOn(Tombstoned(r, f), b) <==> UsedOn(r, b)
  {
    var t := Tombstoned(r, f);
    if g :| g in t.files && t.files[g].blob == Some(b) && !t.files[g].deleted {
      assert r.files[g].blob == Some(b) && !r.files[g].deleted;
    }
    if r.files[f].deleted || r.files[f].blob != Some(b) {
      if g :| g in r.files && r.files[g].blob == Some(b) && !r.files[g].deleted {
        assert t.files[g].blob == Some(b) && !t.files[g].deleted;
      }
    }
    if g :| g in r.files && r.files[g].blob == Some(b) {
      assert t.files[g].blob == Some(b);
    }
    if g :| g in t.files && t.files[g].blob == Some(b) {
      assert r.files[g].blob == Some(b);
    }
  }

  /** A collection leaves links and references alone. */
  ghost predicate SameLinks(r: Rows, t: Rows) {
    && Linked(t) && t.now == r.now && t.files.Keys == r.files.Keys
    && forall f | f in r.files :: t.files[f].blob == r.files[f].blob && t.files[f].references == r.files[f].references
  }

  /** What one collection does to the remaining work. */
  lemma CollectWork(r: Rows, f: FileId)
    requires Linked(r) && f in r.files && r.files[f].references == {}
    ensures var t := CollectFile(r, f);
            && LiveFiles(t) == LiveFiles(r) - {f}
            && Unscheduled(t) <= Unscheduled(r)
            && (r.files[f].blob.Some? ==> r.files[f].blob.value !in Unscheduled(t))
  {
    var t := CollectFile(r, f);
    var m := Tombstoned(r, f);
    forall b | b in Unscheduled(t) ensures b in Unscheduled(r) && r.files[f].blob != Some(b) {
      LiveOnAfterTombstone(r, f, b);
      assert t.files == m.files;
      assert LiveOn(t, b) <==> LiveOn(m, b);
      assert UsedOn(t, b) <==> UsedOn(m, b);
    }
  }

  lemma CollectDecreases(r: Rows, f: FileId)
    requires Linked(r) && f in r.files && r.files[f].references == {}
    ensures Work(CollectFile(r, f)) <= Work(r)
    ensures Candidate(r, f) ==> Work(CollectFile(r, f)) < Work(r)
  {
    var t := CollectFile(r, f);
    CollectWork(r, f);
    Sets.SubsetSize(LiveFiles(t), LiveFiles(r));
    Sets.SubsetSize(Unscheduled(t), Unscheduled(r));
    if Candidate(r, f) && r.files[f].deleted {
      var b := r.files[f].blob.value;
      assert UsedOn(r, b);
      assert b in Unscheduled(r) && b !in Unscheduled(t);
    } else if Candidate(r, f) {
      assert f in LiveFiles(r) && f !in LiveFiles(t);
    }
  }

  // ----- one batch -----

  /** The first `size` candidates in id order. */
  ghost predicate IsBatch(r: Rows, size: nat, batch: seq<FileId>) {
    && |batch| <= size
    && (forall i, j | 0 <= i < j < |batch| :: batch[i] < batch[j])
    && (forall i | 0 <= i < |batch| :: Candidate(r, batch[i]))
    && (forall f | Candidate(r, f) && f !in batch :: |batch| == size && forall i | 0 <= i < |batch| :: batch[i] < f)
  }

  method SelectBatch(r: Rows, size: nat) returns (batch: seq<FileId>)
    ensures IsBatch(r, size, batch)
  {
    batch := [];
    var left := set f | f in r.files && Candidate(r, f);
    while left != {} && |batch| < size
      invariant |batch| <= size
      invariant forall i, j | 0 <= i < j < |batch| :: batch[i] < batch[j]
      invariant forall i | 0 <= i < |batch| :: Candidate(r, batch[i])
      invariant forall f | f in left :: Candidate(r, f) && forall i | 0 <= i < |batch| :: batch[i] < f
      invariant forall f | Candidate(r, f) :: f in left || f in batch
      decreases |left|
    {
      var least := Least(left);
      batch := batch + [least];
      left := left - {least};
    }
  }

  method Least(ids: set<FileId>) returns (least: FileId)
    requires ids != {}
    ensures least in ids && forall f | f in ids :: least <= f
  {
    least :| least in ids;
    var left := ids - {least};
    while left != {}
      invariant least in ids && left <= ids
      invariant forall f | f in ids && f !in left :: least <= f
      decreases |left|
    {
      var f :| f in left;
      if f < least { least := f; }
      left := left - {f};
    }
  }

  function CollectAll(r: Rows, batch: seq<FileId>): (t: Rows)
    requires Linked(r) && forall f | f in batch :: f in r.files
    ensures SameLinks(r, t)
    decreases |batch|
  {
    if batch == [] then r
    else
      var older := CollectAll(r, batch[..|batch| - 1]);
      CollectFile(older, batch[|batch| - 1])
  }

  ghost predicate Unreferenced(r: Rows, batch: seq<FileId>) {
    forall f | f in batch :: f in r.files && r.files[f].references == {}
  }

  lemma {:induction false} CollectAllLive(r: Rows, batch: seq<FileId>)
    requires Linked(r) && Unreferenced(r, batch)
    ensures LiveFiles(CollectAll(r, batch)) == LiveFiles(r) - (set f | f in batch)
    decreases |batch|
  {
    if batch != [] {
      var n := |batch| - 1;
      assert batch == batch[..n] + [batch[n]];
      CollectAllLive(r, batch[..n]);
      CollectWork(CollectAll(r, batch[..n]), batch[n]);
    }
  }

  lemma {:induction false} CollectAllSchedules(r: Rows, batch: seq<FileId>)
    requires Linked(r) && Unreferenced(r, batch)
    ensures Unscheduled(CollectAll(r, batch)) <= Unscheduled(r)
    ensures forall f | f in batch && r.files[f].blob.Some? :: r.files[f].blob.value !in Unscheduled(CollectAll(r, batch))
    decreases |batch|
  {
    if batch != [] {
      var n := |batch| - 1;
      assert batch == batch[..n] + [batch[n]];
      CollectAllSchedules(r, batch[..n]);
      CollectWork(CollectAll(r, batch[..n]), batch[n]);
    }
  }

  lemma {:induction false} CollectAllWork(r: Rows, batch: seq<FileId>)
    requires Linked(r) && Unreferenced(r, batch)
    ensures Work(CollectAll(r, batch)) <= Work(r)
    ensures batch != [] && Candidate(r, batch[0]) ==> Work(CollectAll(r, batch)) < Work(r)
    decreases |batch|
  {
    if batch != [] {
      var n := |batch| - 1;
      CollectAllWork(r, batch[..n]);
      CollectDecreases(CollectAll(r, batch[..n]), batch[n]);
      if n > 0 {
        assert batch[..n][0] == batch[0];
      } else {
        assert CollectAll(r, batch[..n]) == r;
      }
    }
  }

  lemma CollectAllStep(r: Rows, batch: seq<FileId>, i: nat)
    requires Linked(r) && Unreferenced(r, batch) && i < |batch|
    ensures Unreferenced(r, batch[..i])
    ensures CollectAll(r, batch[..i + 1]) == CollectFile(CollectAll(r, batch[..i]), batch[i])
  {
    assert batch[..i + 1][..i] == batch[..i];
  }

  /** The files a run of collections tombstones, one more at a time. */
  lemma CollectedOneMore(r: Rows, batch: seq<FileId>, i: nat)
    requires Linked(r) && Unreferenced(r, batch) && i < |batch|
    requires forall j | 0 <= j < i :: batch[j] != batch[i]
    ensures batch[i] in LiveFiles(CollectAll(r, batch[..i])) <==> batch[i] in LiveFiles(r)
    ensures |LiveFiles(r) - LiveFiles(CollectAll(r, batch[..i + 1]))|
            == |LiveFiles(r) - LiveFiles(CollectAll(r, batch[..i]))| + (if batch[i] in LiveFiles(r) then 1 else 0)
  {
    CollectAllStep(r, batch, i);
    CollectAllLive(r, batch[..i]);
    CollectWork(CollectAll(r, batch[..i]), batch[i]);
  }

  /** One batch: the oldest expired uploads are retired, then the first candidates collected. */
  ghost predicate IsCollection(r: Rows, mid: Rows, size: nat, batch: seq<FileId>) {
    && (exists retired :: IsOldest(r, retired, size) && mid == RetireAll(r, retired))
    && SameSkeleton(r, mid) && Linked(mid) && IsBatch(mid, size, batch) && Unreferenced(mid, batch)
    && (TombstonesBare(r) ==> TombstonesBare(mid))
  }

  /** The loop over one batch; `changed` counts the files newly tombstoned. */
  method CollectRows(mid: Rows, rows: seq<FileId>) returns (t: Rows, changed: nat)
    requires Linked(mid) && Unreferenced(mid, rows)
    requires forall i, j | 0 <= i < j < |rows| :: rows[i] != rows[j]
    ensures t == CollectAll(mid, rows) && changed == |LiveFiles(mid) - LiveFiles(t)|
  {
    t := mid;
    changed := 0;
    for i := 0 to |rows|
      invariant t == CollectAll(mid, rows[..i])
      invariant changed == |LiveFiles(mid) - LiveFiles(t)|
    {
      CollectAllStep(mid, rows, i);
      CollectedOneMore(mid, rows, i);
      if t.files[rows[i]].references == {} {
        if !t.files[rows[i]].deleted { changed := changed + 1; }
        t := CollectFile(t, rows[i]);
      }
    }
    assert rows[..|rows|] == rows;
  }

  method CleanupOrphanFiles(r: Rows, batchSize: nat)
    returns (t: Rows, ghost mid: Rows, ghost batch: seq<FileId>, scanned: nat, changed: nat, exhausted: bool)
    requires Linked(r)
    ensures IsCollection(r, mid, batchSize, batch)
    ensures t == CollectAll(mid, batch)
    ensures scanned == |batch| && exhausted == (scanned < batchSize)
    ensures changed == |LiveFiles(mid) - LiveFiles(t)|
  {
    var current, retired := RetireExpiredUploads(r, batchSize);
    RetireAllKeeps(r, retired);
    mid := current;
    var rows := SelectBatch(current, batchSize);
    batch := rows;
    assert Unreferenced(mid, batch) by { assert forall f | f in batch :: Candidate(mid, f); }
    t, changed := CollectRows(current, rows);
    scanned := |rows|;
    exhausted := |rows| < batchSize;
  }

  // ----- the whole phase -----

  /** No live file is unreferenced, and every dead blob with an unreferenced file is scheduled. */
  ghost predicate Collected(r: Rows) {
    && (forall f | f in r.files && !r.files[f].deleted :: r.files[f].references != {})
    && (forall f | f in r.files && r.files[f].blob.Some? && r.files[f].references == {} ::
          r.files[f].blob.value !in Unscheduled(r))
  }

  /** A non-empty batch leaves strictly less to do; a short batch leaves nothing. */
  lemma BatchProgress(r: Rows, mid: Rows, batchSize: nat, batch: seq<FileId>)
    requires SameSkeleton(r, mid) && Linked(mid) && IsBatch(mid, batchSize, batch)
    ensures var t := CollectAll(mid, batch);
            && (batch != [] ==> Work(t) < Work(r))
            && (|batch| < batchSize ==> Collected(t))
  {
    SkeletonWork(r, mid);
    assert forall f | f in batch :: Candidate(mid, f);
    CollectAllWork(mid, batch);
    CollectAllLive(mid, batch);
    CollectAllSchedules(mid, batch);
    var t := CollectAll(mid, batch);
    if |batch| < batchSize {
      forall f | f in t.files && !t.files[f].deleted ensures t.files[f].references != {} {
        assert f in LiveFiles(t);
        if t.files[f].references == {} {
          assert f in LiveFiles(mid) && Candidate(mid, f);
        }
      }
      forall f | f in t.files && t.files[f].blob.Some? && t.files[f].references == {}
        ensures t.files[f].blob.value !in Unscheduled(t)
      {
        var b := t.files[f].blob.value;
        if b in Unscheduled(t) {
          assert b in Unscheduled(mid);
          assert mid.files[f].blob == Some(b);
          assert mid.files[f].deleted;
          assert Candidate(mid, f);
        }
      }
    }
  }

  lemma BatchKeepsBare(mid: Rows, batch: seq<FileId>)
    requires Linked(mid) && Unreferenced(mid, batch) && TombstonesBare(mid)
    ensures TombstonesBare(CollectAll(mid, batch))
  {
    var t := CollectAll(mid, batch);
    CollectAllLive(mid, batch);
    forall f | f in t.files && t.files[f].deleted ensures t.files[f].references == {} {
      assert f !in LiveFiles(t);
      if f in LiveFiles(mid) { assert f in batch; }
    }
  }

  /** Something other than an upload that ran out refers to the file. */
  ghost predicate Kept(r: Rows, f: FileId) {
    && f in r.files && r.files[f].references != {}
    && forall x | x in r.files[f].references && x.Uploading? :: x.expires > r.now
  }

  lemma {:induction false} CollectAllKept(r: Rows, batch: seq<FileId>, f: FileId)
    requires Linked(r) && (forall g | g in batch :: g in r.files) && f in r.files && r.files[f].references != {}
    ensures CollectAll(r, batch).files[f] == r.files[f]
    decreases |batch|
  {
    if batch != [] { CollectAllKept(r, batch[..|batch| - 1], f); }
  }

  /** A collection leaves every such file exactly as it is. */
  lemma CollectionSpares(r: Rows, mid: Rows, size: nat, batch: seq<FileId>, f: FileId)
    requires IsCollection(r, mid, size, batch) && Kept(r, f)
    ensures CollectAll(mid, batch).files[f] == r.files[f]
  {
    var retired :| IsOldest(r, retired, size) && mid == RetireAll(r, retired);
    RetiredExactly(r, retired, f);
    assert forall u | u in retired :: RanOut(r, u);
    CollectAllKept(mid, batch, f);
  }

  /** An undeleted blob that had files, all of which are tombstoned. */
  ghost predicate Dead(r: Rows, b: BlobId) {
    && b in r.blobs && !r.blobs[b].deleted
    && (exists f | f in r.files :: r.files[f].blob == Some(b))
    && forall f | f in r.files && r.files[f].blob == Some(b) :: r.files[f].deleted
  }

  lemma DeadIsScheduled(t: Rows, b: BlobId)
    requires Collected(t) && TombstonesBare(t) && Dead(t, b)
    ensures t.blobs[b].status == PendingDelete && b in t.deleteRows && !t.deleteRows[b].completed
  {
    var f :| f in t.files && t.files[f].blob == Some(b);
    assert t.files[f].references == {} && b !in Unscheduled(t);
  }

  /**
   * Repeated batches end. They leave no live file unreferenced, every file
   * that something refers to as it was, and from every reachable state every
   * dead blob pending deletion with an open row.
   */
  method CollectUntilExhausted(r: Rows, batchSize: nat) returns (t: Rows)
    requires Linked(r) && batchSize > 0
    ensures forall f | f in t.files && !t.files[f].deleted :: t.files[f].references != {}
    ensures forall f | Kept(r, f) :: f in t.files && t.files[f] == r.files[f]
    ensures TombstonesBare(r) ==>
              forall b | Dead(t, b) :: t.blobs[b].status == PendingDelete && b in t.deleteRows && !t.deleteRows[b].completed
  {
    t := r;
    var exhausted := false;
    while !exhausted
      invariant Linked(t) && (exhausted ==> Collected(t)) && t.now == r.now
      invariant TombstonesBare(r) ==> TombstonesBare(t)
      invariant forall f | Kept(r, f) :: f in t.files && t.files[f] == r.files[f]
      decreases !exhausted, Work(t)
    {
      ghost var before := t;
      ghost var mid, batch;
      var scanned, changed;
      t, mid, batch, scanned, changed, exhausted := CleanupOrphanFiles(t, batchSize);
      BatchProgress(before, mid, batchSize, batch);
      if TombstonesBare(r) { BatchKeepsBare(mid, batch); }
      forall f | Kept(r, f) ensures f in t.files && t.files[f] == r.files[f] {
        assert Kept(before, f);
        CollectionSpares(before, mid, batchSize, batch, f);
      }
    }
    if TombstonesBare(r) {
      forall b | Dead(t, b) ensures t.blobs[b].status == PendingDelete && b in t.deleteRows && !t.deleteRows[b].completed {
        DeadIsScheduled(t, b);
      }
    }
  }

  ghost predicate HasOrphan(r: Rows, b: BlobId) {
    exists f | f in r.files :: r.files[f].blob == Some(b) && r.files[f].references == {}
  }

  ghost predicate SameBlob(r: Rows, t: Rows, b: BlobId) {
    && b in r.blobs && b in t.blobs && t.blobs[b] == r.blobs[b]
    && (b in t.deleteRows <==> b in r.deleteRows)
    && (b in t.deleteRows ==> t.deleteRows[b] == r.deleteRows[b])
  }

  lemma CollectSpares(r: Rows, f: FileId, b: BlobId)
    requires Linked(r) && b in r.blobs && f in r.files && r.files[f].blob != Some(b)
    ensures SameBlob(r, CollectFile(r, f), b)
  {}

  /** Blobs no collected file points to are left alone. */
  lemma {:induction false} CollectAllSpares(r: Rows, batch: seq<FileId>, b: BlobId)
    requires Linked(r) && b in r.blobs && forall f | f in batch :: f in r.files && r.files[f].blob != Some(b)
    ensures SameBlob(r, CollectAll(r, batch), b)
    decreases |batch|
  {
    if batch != [] {
      var n := |batch| - 1;
      CollectAllSpares(r, batch[..n], b);
      CollectSpares(CollectAll(r, batch[..n]), batch[n], b);
    }
  }

  /**
   * Once the phase is left, a dead blob is scheduled exactly when it was
   * before or one of its tombstoned files keeps no reference.
   */
  lemma DeadBlobScheduledIff(r: Rows, batchSize: nat, batch: seq<FileId>, b: BlobId)
    requires Linked(r) && IsBatch(r, batchSize, batch) && |batch| < batchSize
    requires b in r.blobs && UsedOn(r, b)
    requires var t := CollectAll(r, batch); b in t.blobs && !t.blobs[b].deleted && !LiveOn(t, b)
    ensures Scheduled(CollectAll(r, batch), b) <==> Scheduled(r, b) || HasOrphan(r, b)
  {
    var t := CollectAll(r, batch);
    assert SameSkeleton(r, r);
    BatchProgress(r, r, batchSize, batch);
    if f :| f in r.files && r.files[f].blob == Some(b) && r.files[f].references == {} {
      assert t.files[f].blob == Some(b);
      assert b !in Unscheduled(t);
    } else {
      forall f | f in batch ensures f in r.files && r.files[f].blob != Some(b) {
        assert Candidate(r, f);
      }
      CollectAllSpares(r, batch, b);
    }
  }

  /** A scheduled blob whose row was dead-lettered before stays dead-lettered: nothing delivers it again. */
  lemma DeadLetterSurvivesScheduling(r: Rows, b: BlobId, epoch: nat)
    requires b in r.blobs && !r.blobs[b].deleted && !LiveOn(r, b) && b in r.deleteRows
    ensures var t := ScheduleIfDead(r, b);
            && Scheduled(t, b)
            && t.deleteRows[b].deadLettered == r.deleteRows[b].deadLettered
            && (Acknowledged(t, b, t.deleteRows[b].id, t.deleteRows[b].epoch).Some? <==> !r.deleteRows[b].deadLettered)
  {}
}
