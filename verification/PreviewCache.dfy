/**
 * The image preview cache: least recently used first, bounded in entries and
 * in encoded bytes, keyed by the content's digest.
 */
module PreviewCache {
  import opened Options
  import opened Sequences

  type Content = seq<char>

  /** SHA-256 of the source, taken to be injective. */
  datatype Key = Digest(content: Content)

  /** An encoded preview; `data` is what the byte budget counts. */
  datatype Preview = Preview(data: string, mediaType: string)

  datatype Slot = Slot(key: Key, preview: Preview)

  /** A JavaScript `Map` in insertion order, and the running byte count. */
  datatype Cache = Cache(slots: seq<Slot>, bytes: int)

  const MAX_CACHE_BYTES := 8 * 1024 * 1024
  const MAX_CACHE_ENTRIES := 128
  const MAX_BASE64_BYTES := 600 * 1024
  const MAX_SOURCE_BYTES := 20 * 1024 * 1024

  function KeysOf(slots: seq<Slot>): seq<Key> {
    seq(|slots|, i requires 0 <= i < |slots| => slots[i].key)
  }

  function Bytes(slots: seq<Slot>): nat {
    if slots == [] then 0 else |slots[0].preview.data| + Bytes(slots[1..])
  }

  function Find(slots: seq<Slot>, key: Key): Option<Preview> {
    if slots == [] then None
    else if slots[0].key == key then Some(slots[0].preview)
    else Find(slots[1..], key)
  }

  /** `cache.delete(key)`. */
  function Without(slots: seq<Slot>, key: Key): seq<Slot> {
    if slots == [] then []
    else if slots[0].key == key then slots[1..]
    else [slots[0]] + Without(slots[1..], key)
  }

  /** A hit moves its entry to the end. */
  function Used(cache: Cache, key: Key): Cache {
    match Find(cache.slots, key)
    case None => cache
    case Some(preview) => cache.(slots := Without(cache.slots, key) + [Slot(key, preview)])
  }

  predicate TooMuch(slots: seq<Slot>, bytes: int, size: nat) {
    bytes + size > MAX_CACHE_BYTES || |slots| >= MAX_CACHE_ENTRIES
  }

  /** Drops the oldest entries while the new one does not fit. */
  function Evicted(cache: Cache, size: nat): Cache
    decreases |cache.slots|
  {
    if cache.slots != [] && TooMuch(cache.slots, cache.bytes, size)
    then Evicted(Cache(cache.slots[1..], cache.bytes - |cache.slots[0].preview.data|), size)
    else cache
  }

  function Removed(cache: Cache, key: Key): Cache {
    match Find(cache.slots, key)
    case None => cache
    case Some(preview) => Cache(Without(cache.slots, key), cache.bytes - |preview.data|)
  }

  function Stored(cache: Cache, key: Key, preview: Preview): Cache {
    var room := Evicted(Removed(cache, key), |preview.data|);
    Cache(room.slots + [Slot(key, preview)], room.bytes + |preview.data|)
  }

  // ----- interleaved calls -----

  /** A call looks its key up first and stores its result later; other calls may run in between. */
  datatype Event = Look(content: Content) | Store(content: Content)

  /** What an uncached run of the decoder returns. */
  type Decoder = Content -> Option<Preview>

  ghost predicate DecoderOk(decode: Decoder) {
    forall content :: decode(content).Some? ==> |decode(content).value.data| <= MAX_BASE64_BYTES
  }

  function Step(decode: Decoder, cache: Cache, e: Event): Cache {
    match e
    case Look(content) => Used(cache, Digest(content))
    case Store(content) =>
      match decode(content)
      case None => cache
      case Some(preview) => Stored(cache, Digest(content), preview)
  }

  /** Every key used so far, each once, least recently used first. */
  function Touched(recency: seq<Key>, key: Key): seq<Key> {
    Dropped(recency, key) + [key]
  }

  function Dropped(recency: seq<Key>, key: Key): seq<Key> {
    if recency == [] then []
    else if recency[0] == key then recency[1..]
    else [recency[0]] + Dropped(recency[1..], key)
  }

  datatype World = World(cache: Cache, recency: seq<Key>)

  function WorldStep(decode: Decoder, w: World, e: Event): World {
    var used := match e case Look(content) => Find(w.cache.slots, Digest(content)).Some? case Store(content) => decode(content).Some?;
    World(Step(decode, w.cache, e), if used then Touched(w.recency, Digest(e.content)) else w.recency)
  }

  function Run(decode: Decoder, events: seq<Event>): World {
    if events == [] then World(Cache([], 0), []) else WorldStep(decode, Run(decode, events[..|events| - 1]), events[|events| - 1])
  }

  ghost predicate Bounded(cache: Cache) {
    && cache.bytes == Bytes(cache.slots) <= MAX_CACHE_BYTES
    && |cache.slots| <= MAX_CACHE_ENTRIES
  }

  ghost predicate Faithful(decode: Decoder, slots: seq<Slot>) {
    forall i | 0 <= i < |slots| :: decode(slots[i].key.content) == Some(slots[i].preview)
  }

  /** The cached keys are the most recently used ones. */
  ghost predicate Recent(w: World) {
    && Distinct(w.recency)
    && |w.cache.slots| <= |w.recency|
    && KeysOf(w.cache.slots) == w.recency[|w.recency| - |w.cache.slots|..]
  }

  ghost predicate Inv(decode: Decoder, w: World) {
    Bounded(w.cache) && Faithful(decode, w.cache.slots) && Recent(w)
  }

  // ----- removing and finding -----

  lemma {:induction false} BytesAppend(slots: seq<Slot>, slot: Slot)
    ensures Bytes(slots + [slot]) == Bytes(slots) + |slot.preview.data|
  {
    if slots == [] {
      assert [slot][1..] == [];
    } else {
      assert (slots + [slot])[1..] == slots[1..] + [slot];
      BytesAppend(slots[1..], slot);
    }
  }

  lemma {:induction false} FindWithout(slots: seq<Slot>, key: Key)
    ensures Find(slots, key).Some? <==> key in KeysOf(slots)
    ensures Find(slots, key).Some? ==> Bytes(Without(slots, key)) == Bytes(slots) - |Find(slots, key).value.data|
    ensures Find(slots, key).Some? ==> |Without(slots, key)| == |slots| - 1
    ensures Find(slots, key).None? ==> Without(slots, key) == slots
  {
    if slots != [] {
      FindWithout(slots[1..], key);
      assert KeysOf(slots) == [slots[0].key] + KeysOf(slots[1..]);
    }
  }

  lemma {:induction false} WithoutKeys(slots: seq<Slot>, key: Key)
    ensures KeysOf(Without(slots, key)) == Dropped(KeysOf(slots), key)
  {
    if slots != [] {
      WithoutKeys(slots[1..], key);
      assert KeysOf(slots)[1..] == KeysOf(slots[1..]);
      assert KeysOf([slots[0]] + Without(slots[1..], key)) == [slots[0].key] + KeysOf(Without(slots[1..], key));
    }
  }

  lemma {:induction false} WithoutFaithful(decode: Decoder, slots: seq<Slot>, key: Key)
    requires Faithful(decode, slots)
    ensures Faithful(decode, Without(slots, key))
  {
    if slots != [] {
      WithoutFaithful(decode, slots[1..], key);
    }
  }

  lemma {:induction false} FindFaithful(decode: Decoder, slots: seq<Slot>, key: Key)
    requires Faithful(decode, slots) && Find(slots, key).Some?
    ensures decode(key.content) == Find(slots, key)
  {
    if slots[0].key != key {
      FindFaithful(decode, slots[1..], key);
    }
  }

  // ----- recency -----

  lemma {:induction false} DroppedSplit(first: seq<Key>, second: seq<Key>, key: Key)
    ensures key in first ==> Dropped(first + second, key) == Dropped(first, key) + second
    ensures key !in first ==> Dropped(first + second, key) == first + Dropped(second, key)
  {
    if first == [] {
      assert first + second == second;
    } else {
      assert (first + second)[1..] == first[1..] + second;
      DroppedSplit(first[1..], second, key);
    }
  }

  lemma {:induction false} DroppedMembers(keys: seq<Key>, key: Key)
    requires Distinct(keys)
    ensures Distinct(Dropped(keys, key)) && key !in Dropped(keys, key)
    ensures forall k | k in Dropped(keys, key) :: k in keys
  {
    if keys != [] {
      var rest := keys[1..];
      DroppedMembers(rest, key);
      assert forall k | k in rest :: k != keys[0];
      if keys[0] != key {
        DistinctCons(keys[0], Dropped(rest, key));
      }
    }
  }

  lemma DistinctCons(first: Key, rest: seq<Key>)
    requires Distinct(rest) && first !in rest
    ensures Distinct([first] + rest)
  {}

  ghost predicate Suffix(kept: seq<Key>, recency: seq<Key>) {
    |kept| <= |recency| && kept == recency[|recency| - |kept|..]
  }

  lemma TouchKeepsDistinct(recency: seq<Key>, key: Key)
    requires Distinct(recency)
    ensures Distinct(Touched(recency, key))
  {
    DroppedMembers(recency, key);
  }

  /** Touching a key keeps the rest of the cache a suffix: here of the older keys and the cached ones. */
  lemma TouchKeepsSuffix(older: seq<Key>, kept: seq<Key>, key: Key)
    requires key in older ==> key !in kept
    ensures Suffix(Dropped(kept, key) + [key], Touched(older + kept, key))
  {
    DroppedSplit(older, kept, key);
    if key in older {
      DroppedAbsent(kept, key);
    }
  }

  lemma TouchKeepsRecent(kept: seq<Key>, recency: seq<Key>, key: Key)
    requires Distinct(recency) && Suffix(kept, recency)
    ensures Distinct(Touched(recency, key)) && Suffix(Dropped(kept, key) + [key], Touched(recency, key))
  {
    var older := recency[..|recency| - |kept|];
    assert recency == older + kept;
    TouchKeepsDistinct(recency, key);
    if key in older { SplitApart(older, kept, key); }
    TouchKeepsSuffix(older, kept, key);
  }

  lemma SplitApart(first: seq<Key>, second: seq<Key>, key: Key)
    requires Distinct(first + second) && key in first
    ensures key !in second
  {
    var i :| 0 <= i < |first| && first[i] == key;
    forall j | 0 <= j < |second| ensures second[j] != key {
      assert (first + second)[i] == key && (first + second)[|first| + j] == second[j];
    }
  }

  lemma {:induction false} DroppedAbsent(keys: seq<Key>, key: Key)
    requires key !in keys
    ensures Dropped(keys, key) == keys
  {
    if keys != [] {
      DroppedAbsent(keys[1..], key);
    }
  }

  // ----- eviction -----

  /** Eviction keeps the newest entries that leave room, and not one fewer. */
  lemma {:induction false} EvictedKeepsNewest(cache: Cache, size: nat) returns (gone: nat)
    requires cache.bytes == Bytes(cache.slots)
    ensures gone <= |cache.slots|
    ensures var room := Evicted(cache, size);
            && room.slots == cache.slots[gone..] && room.bytes == Bytes(room.slots)
            && (room.slots == [] || !TooMuch(room.slots, room.bytes, size))
            && (gone > 0 ==> TooMuch(cache.slots[gone - 1..], Bytes(cache.slots[gone - 1..]), size))
    decreases |cache.slots|
  {
    if cache.slots != [] && TooMuch(cache.slots, cache.bytes, size) {
      var less := EvictedKeepsNewest(Cache(cache.slots[1..], cache.bytes - |cache.slots[0].preview.data|), size);
      gone := less + 1;
      assert cache.slots[1..][less..] == cache.slots[gone..];
      if less > 0 { assert cache.slots[1..][less - 1..] == cache.slots[gone - 1..]; }
    } else {
      gone := 0;
    }
  }

  // ----- every interleaving -----

  lemma LookKeeps(decode: Decoder, w: World, key: Key)
    requires Inv(decode, w) && Find(w.cache.slots, key).Some?
    ensures Inv(decode, World(Used(w.cache, key), Touched(w.recency, key)))
  {
    var slots := w.cache.slots;
    var slot := Slot(key, Find(slots, key).value);
    FindWithout(slots, key);
    BytesAppend(Without(slots, key), slot);
    WithoutFaithful(decode, slots, key);
    FindFaithful(decode, slots, key);
    WithoutKeys(slots, key);
    assert KeysOf(Without(slots, key) + [slot]) == KeysOf(Without(slots, key)) + [key];
    TouchKeepsRecent(KeysOf(slots), w.recency, key);
  }

  /** Bounds after storing: the entries that stay, the new one, and the byte count. */
  lemma StoredBounded(cache: Cache, key: Key, preview: Preview) returns (gone: nat)
    requires Bounded(cache) && |preview.data| <= MAX_BASE64_BYTES
    ensures Bounded(Stored(cache, key, preview))
    ensures gone <= |Without(cache.slots, key)|
    ensures Stored(cache, key, preview).slots == Without(cache.slots, key)[gone..] + [Slot(key, preview)]
  {
    FindWithout(cache.slots, key);
    var less := Removed(cache, key);
    assert less.slots == Without(cache.slots, key) && less.bytes == Bytes(less.slots);
    gone := EvictedKeepsNewest(less, |preview.data|);
    BytesAppend(Evicted(less, |preview.data|).slots, Slot(key, preview));
  }

  lemma StoreKeeps(decode: Decoder, w: World, key: Key, preview: Preview)
    requires Inv(decode, w) && decode(key.content) == Some(preview) && |preview.data| <= MAX_BASE64_BYTES
    ensures Inv(decode, World(Stored(w.cache, key, preview), Touched(w.recency, key)))
  {
    var gone := StoredBounded(w.cache, key, preview);
    var rest := Without(w.cache.slots, key);
    WithoutFaithful(decode, w.cache.slots, key);
    WithoutKeys(w.cache.slots, key);
    TouchKeepsRecent(KeysOf(w.cache.slots), w.recency, key);
    assert KeysOf(rest[gone..] + [Slot(key, preview)]) == KeysOf(rest)[gone..] + [key];
    assert (KeysOf(rest) + [key])[gone..] == KeysOf(rest)[gone..] + [key];
  }

  lemma StepKeeps(decode: Decoder, w: World, e: Event)
    requires DecoderOk(decode) && Inv(decode, w)
    ensures Inv(decode, WorldStep(decode, w, e))
  {
    match e
    case Look(content) =>
      if Find(w.cache.slots, Digest(content)).Some? { LookKeeps(decode, w, Digest(content)); }
    case Store(content) =>
      if decode(content).Some? { StoreKeeps(decode, w, Digest(content), decode(content).value); }
  }

  lemma {:induction false} EveryRunKeeps(decode: Decoder, events: seq<Event>)
    requires DecoderOk(decode)
    ensures Inv(decode, Run(decode, events))
    decreases |events|
  {
    if events != [] {
      EveryRunKeeps(decode, events[..|events| - 1]);
      StepKeeps(decode, Run(decode, events[..|events| - 1]), events[|events| - 1]);
    }
  }

  /** In every interleaving a hit is what an uncached run returns, and the budgets hold. */
  lemma HitsAreRecomputations(decode: Decoder, events: seq<Event>, content: Content)
    requires DecoderOk(decode)
    ensures var cache := Run(decode, events).cache;
            && (Find(cache.slots, Digest(content)).Some? ==> Find(cache.slots, Digest(content)) == decode(content))
            && cache.bytes == Bytes(cache.slots) <= 8 * 1024 * 1024 && |cache.slots| <= 128
  {
    EveryRunKeeps(decode, events);
    var slots := Run(decode, events).cache.slots;
    if Find(slots, Digest(content)).Some? { FindFaithful(decode, slots, Digest(content)); }
  }

  /** A cached key has been used more recently than every key that is not cached. */
  lemma EvictsLeastRecent(decode: Decoder, events: seq<Event>, i: nat, j: nat)
    requires DecoderOk(decode)
    requires var w := Run(decode, events);
             && i < |w.recency| && j < |w.recency|
             && Find(w.cache.slots, w.recency[i]).Some? && Find(w.cache.slots, w.recency[j]).None?
    ensures j < i
  {
    EveryRunKeeps(decode, events);
    var w := Run(decode, events);
    var n := |w.recency| - |w.cache.slots|;
    FindWithout(w.cache.slots, w.recency[i]);
    var k :| 0 <= k < |w.cache.slots| && KeysOf(w.cache.slots)[k] == w.recency[i];
    assert w.recency[n + k] == w.recency[i];
    forall m | n <= m < |w.recency| ensures Find(w.cache.slots, w.recency[m]).Some? {
      FindWithout(w.cache.slots, w.recency[m]);
      assert KeysOf(w.cache.slots)[m - n] == w.recency[m];
    }
  }

  // ----- the module's own state -----

  class PreviewStore {
    var slots: seq<Slot>
    var cacheBytes: int

    function Contents(): Cache
      reads this
    {
      Cache(slots, cacheBytes)
    }

    constructor ()
      ensures Contents() == Cache([], 0)
    {
      slots := [];
      cacheBytes := 0;
    }

    method Lookup(key: Key) returns (cached: Option<Preview>)
      modifies this
      ensures cached == Find(old(slots), key) && Contents() == Used(old(Contents()), key)
    {
      cached := Find(slots, key);
      if cached.Some? {
        slots := Without(slots, key);
        slots := slots + [Slot(key, cached.value)];
      }
    }

    /** The `result` closure, with its eviction loop. */
    method Insert(key: Key, preview: Preview)
      modifies this
      ensures Contents() == Stored(old(Contents()), key, preview)
    {
      var existing := Find(slots, key);
      if existing.Some? {
        cacheBytes := cacheBytes - |existing.value.data|;
        slots := Without(slots, key);
      }
      ghost var less := Contents();
      while |slots| > 0 && (cacheBytes + |preview.data| > MAX_CACHE_BYTES || |slots| >= MAX_CACHE_ENTRIES)
        invariant Evicted(Contents(), |preview.data|) == Evicted(less, |preview.data|)
        decreases |slots|
      {
        var oldest := slots[0];
        cacheBytes := cacheBytes - |oldest.preview.data|;
        slots := slots[1..];
      }
      slots := slots + [Slot(key, preview)];
      cacheBytes := cacheBytes + |preview.data|;
    }

    /** `prepareModelImage` run without interruption: the cache never shows in its result. */
    method PrepareModelImage(input: Content, decode: Decoder) returns (result: Option<Preview>)
      requires DecoderOk(decode) && Bounded(Contents()) && Faithful(decode, slots)
      modifies this
      ensures Bounded(Contents()) && Faithful(decode, slots)
      ensures result == if 0 < |input| <= 20 * 1024 * 1024 then decode(input) else None
    {
      if |input| == 0 || |input| > MAX_SOURCE_BYTES { return None; }
      var key := Digest(input);
      FindWithout(slots, key);
      WithoutFaithful(decode, slots, key);
      var before := Contents();
      result := Lookup(key);
      if result.Some? {
        FindFaithful(decode, before.slots, key);
        BytesAppend(Without(before.slots, key), Slot(key, result.value));
        return;
      }
      result := decode(input);
      if result.Some? {
        ghost var gone := StoredBounded(before, key, result.value);
        Insert(key, result.value);
      }
    }
  }
}
