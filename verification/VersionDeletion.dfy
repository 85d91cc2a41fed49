/**
 * Deleting every version of some keys from object storage: paged listing by
 * prefix, exact key filtering, batched deletion.
 */
module VersionDeletion {
  import opened Options

  type Key = string

  /** A version or delete marker; no version id on an unversioned object. */
  datatype Object = Object(key: Key, version: Option<string>)

  /** What two listed objects must agree on to be the same object. */
  datatype Identity = Identity(key: Key, version: string)

  function IdentityOf(o: Object): Identity {
    Identity(o.key, o.version.GetOr(""))
  }

  /** They agree exactly when the keys and the version ids do, where no version id and an empty one are the same. */
  lemma SameObjectIff(a: Object, b: Object)
    ensures IdentityOf(a) == IdentityOf(b) <==>
              a.key == b.key && (a.version == b.version || (a.version in {None, Some("")} && b.version in {None, Some("")}))
  {}

  datatype Marker = Marker(key: Option<string>, version: Option<string>)

  datatype Response = Response(versions: seq<Object>, deleteMarkers: seq<Object>, truncated: bool, next: Marker)

  datatype Head = Present | Missing | Unavailable

  /**
   * How the service lists one prefix: a response for each marker, the objects
   * it enumerates, and how far into them each marker points.
   */
  datatype Listing = Listing(pages: Marker -> Response, items: seq<Object>, position: Marker -> nat)

  const START := Marker(None, None)
  const BATCH := 1000

  predicate HasPrefix(prefix: Key, key: Key) {
    |prefix| <= |key| && key[..|prefix|] == prefix
  }

  /** A truncated page without a usable continuation. */
  predicate Stuck(listing: Listing, marker: Marker) {
    var page := listing.pages(marker);
    page.truncated && (page.next == START || page.next == marker)
  }

  ghost predicate Covers(page: Response, items: seq<Object>, first: nat, last: nat) {
    && first <= last <= |items|
    && forall o :: o in page.versions + page.deleteMarkers <==> o in items[first..last]
  }

  /** Each page covers a stretch of the items and a usable continuation points past it. */
  ghost predicate Advancing(listing: Listing) {
    && listing.position(START) == 0
    && forall marker :: listing.position(marker) <= |listing.items| ==>
         var page := listing.pages(marker);
         if !page.truncated then Covers(page, listing.items, listing.position(marker), |listing.items|)
         else !Stuck(listing, marker) ==>
                && listing.position(marker) < listing.position(page.next)
                && Covers(page, listing.items, listing.position(marker), listing.position(page.next))
  }

  /** The listing enumerates exactly the stored versions under the prefix. */
  ghost predicate Lists(listing: Listing, versions: set<Object>, prefix: Key) {
    Advancing(listing) && Enumerates(listing.items, versions, prefix)
  }

  ghost predicate Enumerates(items: seq<Object>, versions: set<Object>, prefix: Key) {
    forall o :: o in items <==> o in versions && HasPrefix(prefix, o.key)
  }

  // ----- listing one key -----

  /** `deduplicateObjects`. */
  method Deduplicate(objects: seq<Object>) returns (kept: seq<Object>)
    ensures forall i, j | 0 <= i < j < |kept| :: IdentityOf(kept[i]) != IdentityOf(kept[j])
    ensures forall o | o in kept :: o in objects
    ensures forall o | o in objects :: IdentityOf(o) in Identities(kept)
  {
    kept := [];
    var seen: set<Identity> := {};
    for i := 0 to |objects|
      invariant seen == Identities(kept)
      invariant forall a, b | 0 <= a < b < |kept| :: IdentityOf(kept[a]) != IdentityOf(kept[b])
      invariant forall o | o in kept :: o in objects
      invariant forall o | o in objects[..i] :: IdentityOf(o) in seen
    {
      if IdentityOf(objects[i]) !in seen {
        seen := seen + {IdentityOf(objects[i])};
        kept := kept + [objects[i]];
      }
    }
    assert objects[..|objects|] == objects;
  }

  function KeyOnly(objects: seq<Object>, key: Key): (kept: seq<Object>)
    ensures forall o :: o in kept <==> o in objects && o.key == key
  {
    if objects == [] then []
    else (if objects[0].key == key then [objects[0]] else []) + KeyOnly(objects[1..], key)
  }

  /** The markers a listing asks for in turn, each the continuation of the page before. */
  ghost predicate IsTrail(listing: Listing, trail: seq<Marker>) {
    && trail != [] && trail[0] == START
    && forall i | 0 <= i < |trail| - 1 ::
         var page := listing.pages(trail[i]);
         page.truncated && !Stuck(listing, trail[i]) && trail[i + 1] == page.next
  }

  lemma TrailGrows(listing: Listing, trail: seq<Marker>)
    requires IsTrail(listing, trail)
    requires var last := trail[|trail| - 1]; listing.pages(last).truncated && !Stuck(listing, last)
    ensures IsTrail(listing, trail + [listing.pages(trail[|trail| - 1]).next])
  {
    var longer := trail + [listing.pages(trail[|trail| - 1]).next];
    forall i | 0 <= i < |longer| - 1
      ensures listing.pages(longer[i]).truncated && !Stuck(listing, longer[i]) && longer[i + 1] == listing.pages(longer[i]).next
    {
      if i < |trail| - 1 { assert longer[i] == trail[i] && longer[i + 1] == trail[i + 1]; }
    }
  }

  /** Follows the continuations to the last page, or to the first page without a usable one. */
  method CollectPages(listing: Listing, key: Key) returns (result: Result<seq<Object>>, ghost trail: seq<Marker>)
    requires Advancing(listing)
    ensures IsTrail(listing, trail)
    ensures result.Err? <==> Stuck(listing, trail[|trail| - 1])
    ensures result.Ok? ==> !listing.pages(trail[|trail| - 1]).truncated
    ensures result.Ok? ==> forall o :: o in result.value <==> o in listing.items && o.key == key
  {
    var objects: seq<Object> := [];
    var marker := START;
    trail := [START];
    while true
      invariant IsTrail(listing, trail) && trail[|trail| - 1] == marker
      invariant listing.position(marker) <= |listing.items|
      invariant forall o :: o in objects <==> o in listing.items[..listing.position(marker)] && o.key == key
      decreases |listing.items| - listing.position(marker)
    {
      var page := listing.pages(marker);
      ghost var first := listing.position(marker);
      objects := objects + KeyOnly(page.versions + page.deleteMarkers, key);
      if !page.truncated {
        assert listing.items == listing.items[..first] + listing.items[first..|listing.items|];
        return Ok(objects), trail;
      }
      if page.next == START || page.next == marker {
        return Err("invalid version pagination"), trail;
      }
      ghost var last := listing.position(page.next);
      assert listing.items[..last] == listing.items[..first] + listing.items[first..last];
      TrailGrows(listing, trail);
      marker := page.next;
      trail := trail + [marker];
    }
  }

  /** `listEveryVersion`: exactly the versions of the key, or the plain object when the listing shows none. */
  method ListEveryVersion(listing: Listing, key: Key, head: Head) returns (result: Result<seq<Object>>, ghost trail: seq<Marker>)
    requires Advancing(listing)
    ensures IsTrail(listing, trail)
    ensures result.Err? <==> Stuck(listing, trail[|trail| - 1])
                             || (head == Unavailable && forall o | o in listing.items :: o.key != key)
    ensures result.Ok? ==>
              && (forall i, j | 0 <= i < j < |result.value| :: IdentityOf(result.value[i]) != IdentityOf(result.value[j]))
              && (forall o | o in result.value :: o.key == key)
              && if exists o :: o in listing.items && o.key == key
                 then Sound(result.value, listing.items, key) && Complete(result.value, listing.items, key)
                 else result.value == if head == Present then [Object(key, None)] else []
  {
    var collected;
    collected, trail := CollectPages(listing, key);
    if collected.Err? { return collected, trail; }
    var objects := collected.value;
    if |objects| > 0 {
      var kept := Deduplicate(objects);
      assert objects[0] in objects;
      return Ok(kept), trail;
    }
    assert forall o :: o in listing.items && o.key == key ==> o in objects;
    match head {
      case Present => result := Ok([Object(key, None)]);
      case Missing => result := Ok([]);
      case Unavailable => result := Err("head request failed");
    }
  }

  /** Nothing but versions of the key, and every one of them. */
  ghost predicate Sound(objects: seq<Object>, items: seq<Object>, key: Key) {
    forall o | o in objects :: o in items && o.key == key
  }

  ghost predicate Complete(objects: seq<Object>, items: seq<Object>, key: Key) {
    forall o | o in items && o.key == key :: IdentityOf(o) in Identities(objects)
  }

  // ----- batches -----

  function Batches(objects: seq<Object>): seq<seq<Object>>
    decreases |objects|
  {
    if objects == [] then []
    else if |objects| <= BATCH then [objects]
    else [objects[..BATCH]] + Batches(objects[BATCH..])
  }

  function Flattened(batches: seq<seq<Object>>): seq<Object> {
    if batches == [] then [] else batches[0] + Flattened(batches[1..])
  }

  /** The batches partition the objects: a thousand in each but the last, which is not empty. */
  lemma {:induction false} BatchesPartition(objects: seq<Object>)
    ensures Flattened(Batches(objects)) == objects
    ensures forall i | 0 <= i < |Batches(objects)| :: 0 < |Batches(objects)[i]| <= 1000
    ensures forall i | 0 <= i < |Batches(objects)| - 1 :: |Batches(objects)[i]| == 1000
    decreases |objects|
  {
    if |objects| > BATCH {
      BatchesPartition(objects[BATCH..]);
      assert objects == objects[..BATCH] + objects[BATCH..];
    } else if objects != [] {
      assert Flattened([objects]) == objects + Flattened([objects][1..]);
    }
  }

  // ----- the store -----

  class ObjectStore {
    /** Listed versions and delete markers. */
    var versions: set<Object>
    /** Objects a head request finds although no listing shows them. */
    var plain: set<Key>

    predicate Gone(key: Key)
      reads this
    {
      forall o | o in versions :: o.key != key
    }

    /** One `DeleteObjects` request. */
    method DeleteObjects(batch: seq<Object>)
      modifies this
      ensures versions == Without(old(versions), batch)
      ensures plain == old(plain) - set o | o in batch && o.version.None? :: o.key
    {
      versions := Without(versions, batch);
      plain := plain - set o | o in batch && o.version.None? :: o.key;
    }

    /** The batches in order; a request answered with errors has deleted only some of its objects and stops the rest. */
    method DeleteInBatches(objects: seq<Object>, accepted: nat -> Option<nat>) returns (ok: bool, ghost sent: seq<seq<Object>>)
      modifies this
      ensures sent <= Batches(objects)
      ensures ok ==> sent == Batches(objects) && versions == Without(old(versions), objects)
      ensures ok ==> plain == old(plain) - set o | o in objects && o.version.None? :: o.key
      ensures forall o | o in old(versions) && o !in versions :: exists k :: k in objects && IdentityOf(k) == IdentityOf(o)
      ensures versions <= old(versions) && plain <= old(plain)
      ensures forall key | key in old(plain) && key !in plain :: exists k :: k in objects && k.key == key
    {
      sent := [];
      var offset := 0;
      while offset < |objects|
        invariant offset <= |objects|
        invariant sent + Batches(objects[offset..]) == Batches(objects)
        invariant versions == Without(old(versions), objects[..offset])
        invariant plain == old(plain) - set o | o in objects[..offset] && o.version.None? :: o.key
      {
        var last := if offset + BATCH < |objects| then offset + BATCH else |objects|;
        var batch := objects[offset..last];
        BatchHead(objects, offset);
        sent := sent + [batch];
        var limit := accepted(offset / BATCH);
        if limit.Some? {
          DeleteObjects(if limit.value < |batch| then batch[..limit.value] else batch);
          ok := false;
          return;
        }
        DeleteObjects(batch);
        assert objects[..last] == objects[..offset] + batch;
        offset := last;
      }
      assert objects[..offset] == objects;
      ok := true;
    }

    /** What has to be deleted for one key. */
    method ListKey(key: Key, listing: Listing, reachable: bool) returns (listed: Result<seq<Object>>)
      requires Lists(listing, versions, key)
      ensures listed.Ok? ==> Collected(listed.value, key) && forall o | o in listed.value :: o.key == key
    {
      var head := HeadOf(key, reachable);
      ghost var trail;
      listed, trail := ListEveryVersion(listing, key, head);
      if listed.Ok? {
        assert (exists o :: o in listing.items && o.key == key) || head != Unavailable;
        ListedIsCollected(listing, key, head, listed.value);
      }
    }

    /** What has to be deleted for all the keys, each listed once. */
    method ListKeys(keys: seq<Key>, listings: Key -> Listing, reachable: Key -> bool) returns (objects: Result<seq<Object>>)
      requires forall key | key in keys :: Lists(listings(key), versions, key)
      ensures objects.Ok? ==> (forall o | o in objects.value :: o.key in keys) && forall key | key in keys :: Collected(objects.value, key)
    {
      var collected: seq<Object> := [];
      var seen: set<Key> := {};
      for i := 0 to |keys|
        invariant forall key :: key in seen <==> key in keys[..i]
        invariant forall o | o in collected :: o.key in keys
        invariant forall key | key in seen :: Collected(collected, key)
      {
        var key := keys[i];
        if key !in seen {
          var listed := ListKey(key, listings(key), reachable(key));
          if listed.Err? { return listed; }
          AllCollected(collected, listed.value, seen, key);
          collected := collected + listed.value;
          seen := seen + {key};
        }
      }
      assert keys[..|keys|] == keys;
      objects := Ok(collected);
    }

    /** `deleteEveryObjectVersion`. */
    method DeleteEveryObjectVersion(keys: seq<Key>, listings: Key -> Listing, reachable: Key -> bool, accepted: nat -> Option<nat>)
      returns (ok: bool)
      requires forall key | key in keys :: Lists(listings(key), versions, key)
      modifies this
      ensures versions <= old(versions) && plain <= old(plain)
      ensures forall o | o in old(versions) && o.key !in keys :: o in versions
      ensures forall key | key in old(plain) && key !in keys :: key in plain
      ensures ok ==> forall key | key in keys :: Gone(key)
      ensures ok ==> forall key | key in keys && old(Gone(key)) :: key !in plain
    {
      var objects := ListKeys(keys, listings, reachable);
      if objects.Err? { return false; }
      ghost var sent;
      ok, sent := DeleteInBatches(objects.value, accepted);
    }

    /** A head request, answered only while the service can be reached. */
    function HeadOf(key: Key, reachable: bool): Head
      reads this
    {
      if !reachable then Unavailable else if key in plain || !Gone(key) then Present else Missing
    }

    /** Everything of the key that the store holds is among the objects; a plain object only when nothing is listed. */
    ghost predicate Collected(objects: seq<Object>, key: Key)
      reads this
    {
      && (forall o | o in versions && o.key == key :: IdentityOf(o) in Identities(objects))
      && (Gone(key) && key in plain ==> Object(key, None) in objects)
    }

    lemma ListedExactly(items: seq<Object>, key: Key, listed: seq<Object>, witnessed: Object)
      requires forall o | o in items && o.key == key :: o in versions
      requires forall o | o in versions && o.key == key :: o in items
      requires Complete(listed, items, key) && witnessed in items && witnessed.key == key
      ensures Collected(listed, key)
    {
      assert witnessed in versions;
    }

    lemma ListedNothing(items: seq<Object>, key: Key, head: Head, listed: seq<Object>)
      requires forall o | o in items :: o.key != key
      requires forall o | o in versions && o.key == key :: o in items
      requires key in plain ==> head == Present
      requires listed == if head == Present then [Object(key, None)] else []
      ensures Collected(listed, key)
    {}

    lemma ListedIsCollected(listing: Listing, key: Key, head: Head, listed: seq<Object>)
      requires Lists(listing, versions, key)
      requires (exists o :: o in listing.items && o.key == key) || (key in plain ==> head == Present)
      requires if exists o :: o in listing.items && o.key == key
               then Complete(listed, listing.items, key)
               else listed == if head == Present then [Object(key, None)] else []
      ensures Collected(listed, key)
    {
      assert HasPrefix(key, key);
      ghost var items := listing.items;
      if o :| o in items && o.key == key {
        ListedExactly(items, key, listed, o);
      } else {
        ListedNothing(items, key, head, listed);
      }
    }

    lemma AllCollected(objects: seq<Object>, more: seq<Object>, seen: set<Key>, key: Key)
      requires forall k | k in seen :: Collected(objects, k)
      requires Collected(more, key)
      ensures forall k | k in seen + {key} :: Collected(objects + more, k)
    {}

    /** `deleteCapturedObjectVersion`: only the captured version goes, and a missing one is no error. */
    method DeleteCapturedObjectVersion(key: Key, version: Option<string>, listing: Listing, reachable: bool, accepted: nat -> Option<nat>)
      returns (ok: bool)
      requires !Captured(version) ==> Lists(listing, versions, key)
      modifies this
      ensures versions <= old(versions) && forall o | o in old(versions) && o.key != key :: o in versions
      ensures Captured(version) ==> ok && plain == old(plain) && versions == old(versions) - {Object(key, version)}
      ensures !Captured(version) && ok ==> Gone(key)
    {
      if Captured(version) {
        versions := versions - {Object(key, version)};
        return true;
      }
      ok := DeleteEveryObjectVersion([key], _ => listing, _ => reachable, accepted);
    }
  }

  predicate Captured(version: Option<string>) {
    version.Some? && version.value != ""
  }

  function Without(versions: set<Object>, objects: seq<Object>): set<Object> {
    set o | o in versions && IdentityOf(o) !in Identities(objects)
  }

  function Identities(objects: seq<Object>): set<Identity> {
    set o | o in objects :: IdentityOf(o)
  }

  lemma BatchHead(objects: seq<Object>, offset: nat)
    requires offset < |objects|
    ensures var last := if offset + BATCH < |objects| then offset + BATCH else |objects|;
            Batches(objects[offset..]) == [objects[offset..last]] + Batches(objects[last..])
  {
    var rest := objects[offset..];
    if |rest| > BATCH {
      assert rest[..BATCH] == objects[offset..offset + BATCH] && rest[BATCH..] == objects[offset + BATCH..];
    } else {
      assert objects[offset..|objects|] == rest && objects[|objects|..] == [];
    }
  }
}
