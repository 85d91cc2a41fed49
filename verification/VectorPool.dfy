/**
 * Shared connection pools behind pg clients: one open pool per configuration,
 * counted by the clients that hold it, and ended with the last of them.
 */
module VectorPool {
  import opened Options

  /** A configuration, printed with its keys sorted. */
  type Key = string

  class PgPool {
    var endCalls: nat
    /** The entry this pool was made for. */
    ghost var owner: PoolEntry?

    constructor ()
      ensures endCalls == 0
    {
      endCalls := 0;
      owner := null;
    }

    method End()
      modifies this`endCalls
      ensures endCalls == old(endCalls) + 1
    {
      endCalls := endCalls + 1;
    }
  }

  class PoolEntry {
    const pool: PgPool
    ghost const key: Key
    var references: nat
    var closing: bool
    /** The clients that have not ended yet. */
    ghost var holders: set<PooledClient>

    /** A new pool with its first reference. */
    constructor (key: Key)
      ensures fresh(pool) && pool.owner == this && pool.endCalls == 0
      ensures this.key == key && references == 1 && !closing && holders == {}
    {
      var created := new PgPool();
      pool := created;
      this.key := key;
      references := 1;
      closing := false;
      holders := {};
      new;
      pool.owner := this;
    }

    ghost predicate Counted()
      reads this, pool
    {
      pool.owner == this && references == |holders| && pool.endCalls == (if closing then 1 else 0)
    }
  }

  class PooledClient {
    const entry: PoolEntry
    const key: Key
    var ended: bool

    constructor (entry: PoolEntry, key: Key)
      ensures this.entry == entry && this.key == key && !ended
    {
      this.entry := entry;
      this.key := key;
      ended := false;
    }
  }

  class PoolRegistry {
    var entries: map<Key, PoolEntry>
    var closed: bool
    /** Every entry and every client ever made. */
    ghost var made: set<PoolEntry>
    ghost var pools: set<PgPool>
    ghost var clients: set<PooledClient>

    /** An entry is open exactly while it is registered, and only while somebody holds it. */
    ghost predicate EntryOk(e: PoolEntry)
      reads this, e, e.pool
    {
      && e.Counted()
      && (e.closing ==> closed || e.holders == {})
      && (!e.closing ==> !closed && e.holders != {} && e.key in entries && entries[e.key] == e)
    }

    ghost predicate ClientOk(c: PooledClient)
      reads this, c, c.entry
    {
      && c.entry in made && c.key == c.entry.key
      && (c.ended <==> c !in c.entry.holders)
    }

    ghost predicate HoldersOk(e: PoolEntry)
      reads this, e
    {
      forall c | c in e.holders :: c in clients && c.entry == e
    }

    ghost predicate Valid()
      reads this, made, pools, clients
    {
      && (forall e | e in made :: e.pool in pools && EntryOk(e) && HoldersOk(e))
      && (forall k | k in entries :: entries[k] in made && entries[k].key == k && !entries[k].closing)
      && (forall c | c in clients :: c.entry in made && ClientOk(c))
    }

    constructor ()
      ensures Valid() && !closed && made == {} && clients == {}
    {
      entries := map[];
      closed := false;
      made := {};
      pools := {};
      clients := {};
    }

    // An untouched object keeps its part of the invariant.

    twostate lemma EntryFramed(e: PoolEntry)
      requires old(allocated(e)) && old(EntryOk(e)) && unchanged(e) && unchanged(e.pool) && closed == old(closed)
      requires !e.closing ==> e.key in entries && entries[e.key] == e
      ensures EntryOk(e)
    {}

    twostate lemma HoldersFramed(e: PoolEntry)
      requires old(allocated(e)) && old(HoldersOk(e)) && unchanged(e) && old(clients) <= clients
      ensures HoldersOk(e)
    {}

    twostate lemma ClientFramed(c: PooledClient)
      requires old(allocated(c)) && old(ClientOk(c)) && unchanged(c) && old(made) <= made
      requires c in c.entry.holders <==> c in old(c.entry.holders)
      ensures ClientOk(c)
    {}

    /** One more client on an entry that was open. */
    twostate lemma SharedValid(new client: PooledClient)
      requires old(Valid()) && client !in old(clients) && clients == old(clients) + {client}
      requires made == old(made) && pools == old(pools) && entries == old(entries) && closed == old(closed)
      requires var entry := client.entry;
               && entry in made && client.key == entry.key && !client.ended && !entry.closing
               && old(EntryOk(entry)) && old(HoldersOk(entry)) && EntryOk(entry)
               && entry.holders == old(entry.holders) + {client}
      requires forall e | e in made && e != client.entry :: unchanged(e)
      requires forall e | e in made :: unchanged(e.pool)
      requires forall c | c in old(clients) :: unchanged(c)
      ensures Valid()
    {
      forall e | e in made ensures e.pool in pools && EntryOk(e) && HoldersOk(e) {
        if e != client.entry { EntryFramed(e); HoldersFramed(e); }
      }
      forall c | c in clients ensures c.entry in made && ClientOk(c) {
        if c != client { ClientFramed(c); }
      }
    }

    /** A new entry with its first client. */
    twostate lemma OpenedValid(new client: PooledClient)
      requires old(Valid()) && client !in old(clients) && clients == old(clients) + {client}
      requires client.entry !in old(made) && made == old(made) + {client.entry} && pools == old(pools) + {client.entry.pool}
      requires client.key !in old(entries) && entries == old(entries)[client.key := client.entry] && closed == old(closed)
      requires client.key == client.entry.key && !client.ended && !client.entry.closing
      requires EntryOk(client.entry) && client.entry.holders == {client}
      requires forall e | e in old(made) :: unchanged(e) && unchanged(e.pool)
      requires forall c | c in old(clients) :: unchanged(c)
      ensures Valid()
    {
      forall e | e in made ensures e.pool in pools && EntryOk(e) && HoldersOk(e) {
        if e != client.entry { EntryFramed(e); HoldersFramed(e); }
      }
      forall c | c in clients ensures c.entry in made && ClientOk(c) {
        if c != client { ClientFramed(c); }
      }
    }

    /** `getEntry` for a configuration with an open pool, and the client that takes it. */
    method Share(key: Key) returns (client: PooledClient)
      requires Valid() && !closed && key in entries
      modifies this`clients, entries[key]
      ensures Valid()
      ensures fresh(client) && clients == old(clients) + {client}
      ensures client.entry == entries[key] && client.key == key && !client.ended
      ensures !entries[key].closing
    {
      var entry := entries[key];
      assert EntryOk(entry) && HoldersOk(entry);
      client := new PooledClient(entry, key);
      entry.references := entry.references + 1;
      entry.holders := entry.holders + {client};
      clients := clients + {client};
      SharedValid(client);
    }

    /** `getEntry` for a configuration without one. */
    method Open(key: Key) returns (client: PooledClient)
      requires Valid() && !closed && key !in entries
      modifies this`entries, this`made, this`pools, this`clients
      ensures Valid()
      ensures fresh(client) && clients == old(clients) + {client}
      ensures fresh(client.entry) && fresh(client.entry.pool) && made == old(made) + {client.entry}
      ensures entries == old(entries)[key := client.entry] && client.key == key && !client.ended
      ensures !client.entry.closing
    {
      var entry := new PoolEntry(key);
      client := new PooledClient(entry, key);
      entry.holders := {client};
      entries := entries[key := entry];
      made := made + {entry};
      pools := pools + {entry.pool};
      clients := clients + {client};
      OpenedValid(client);
    }

    /** The pooled client constructor: refused once the registry is closed. */
    method Construct(key: Key) returns (result: Result<PooledClient>)
      requires Valid()
      modifies this, made
      ensures Valid() && closed == old(closed)
      ensures result.Ok? <==> !closed
      ensures result.Err? ==> entries == old(entries) && clients == old(clients)
      ensures result.Ok? ==>
                var c := result.value;
                && fresh(c) && clients == old(clients) + {c} && c.key == key && !c.ended
                && key in entries && c.entry == entries[key] && !c.entry.closing
                && (key in old(entries) ==> c.entry == old(entries[key]))
    {
      if closed { return Err("Berry Mem0 PostgreSQL pool is closed"); }
      var client;
      if key in entries {
        client := Share(key);
      } else {
        client := Open(key);
      }
      result := Ok(client);
    }

    /** `releaseEntry`: the last holder closes the entry and ends its pool. */
    method ReleaseEntry(key: Key, entry: PoolEntry)
      requires entry.pool.endCalls == (if entry.closing then 1 else 0)
      modifies this`entries, entry`references, entry`closing, entry.pool`endCalls
      ensures entry.references == if old(entry.references) > 0 then old(entry.references) - 1 else 0
      ensures entry.closing <==> old(entry.closing) || entry.references == 0
      ensures entry.pool.endCalls == (if entry.closing then 1 else 0)
      ensures entries == if entry.references == 0 && !old(entry.closing) then old(entries) - {key} else old(entries)
    {
      if entry.references > 0 { entry.references := entry.references - 1; }
      if entry.references > 0 || entry.closing { return; }
      entries := entries - {key};
      entry.pool.End();
      entry.closing := true;
    }

    /** One client less on its entry, which was registered as long as it was open. */
    twostate lemma EndedValid(client: PooledClient)
      requires old(Valid()) && client in clients && clients == old(clients) && client.ended
      requires made == old(made) && pools == old(pools) && closed == old(closed)
      requires entries == old(entries) || (client.entry.closing && entries == old(entries) - {client.entry.key})
      requires client.entry in made && client.key == client.entry.key
      requires old(EntryOk(client.entry)) && old(HoldersOk(client.entry)) && EntryOk(client.entry)
      requires client.entry.holders == old(client.entry.holders) - {client}
      requires entries != old(entries) ==> client.entry.key in old(entries) && old(entries)[client.entry.key] == client.entry
      requires old(client.entry.closing) || !client.entry.closing ==> entries == old(entries)
      requires forall e | e in made && e != client.entry :: unchanged(e) && unchanged(e.pool)
      requires forall c | c in clients && c != client :: unchanged(c)
      requires forall k | k in entries :: entries[k] in made && entries[k].key == k && !entries[k].closing
      ensures Valid()
    {
      forall e | e in made ensures e.pool in pools && EntryOk(e) && HoldersOk(e) {
        if e != client.entry { EntryFramed(e); HoldersFramed(e); }
      }
      forall c | c in clients ensures c.entry in made && ClientOk(c) {
        if c != client { ClientFramed(c); }
      }
    }

    /** `end` on a client; ending it again does nothing. */
    method End(client: PooledClient)
      requires Valid() && client in clients
      modifies this`entries, client, client.entry, client.entry.pool`endCalls
      ensures Valid()
      ensures client.ended
      ensures old(client.ended) ==> entries == old(entries) && unchanged(client.entry, client.entry.pool)
      ensures !old(client.ended) ==> client.entry.references == old(client.entry.references) - 1
      ensures client.entry.closing <==> old(client.entry.closing) || client.entry.references == 0
    {
      var entry := client.entry;
      assert ClientOk(client);
      assert EntryOk(entry) && HoldersOk(entry);
      if client.ended { return; }
      client.ended := true;
      assert client in entry.holders;
      entry.holders := entry.holders - {client};
      ReleaseEntry(client.key, entry);
      EndedValid(client);
    }

    /** Ends the pools of some open entries. */
    method EndPools(open: set<PoolEntry>)
      requires forall e | e in open :: e.Counted() && !e.closing
      modifies open`closing, (set e | e in open :: e.pool)`endCalls
      ensures forall e | e in open :: e.Counted() && e.closing
    {
      var left := open;
      while left != {}
        invariant left <= open
        invariant forall e | e in open :: e.Counted() && e.closing == (e !in left)
        decreases |left|
      {
        var e :| e in left;
        e.pool.End();
        e.closing := true;
        left := left - {e};
      }
    }

    /** `close`: every open pool is ended, once; clients may outlive it. */
    method Close()
      requires Valid()
      modifies this`entries, this`closed, entries.Values`closing, (set e | e in entries.Values :: e.pool)`endCalls
      ensures Valid() && closed && (old(closed) || entries == map[])
      ensures forall e | e in made :: e.closing
    {
      if closed {
        assert forall e | e in made :: EntryOk(e);
        return;
      }
      closed := true;
      var open := entries.Values;
      forall e | e in open ensures e.Counted() && !e.closing {
        assert old(EntryOk(e));
      }
      entries := map[];
      EndPools(open);
      forall e | e in made ensures e.pool in pools && EntryOk(e) && HoldersOk(e) {
        assert old(EntryOk(e));
        if e !in open { assert e.pool !in (set o | o in open :: o.pool); }
        HoldersKept(e);
      }
      forall c | c in clients ensures c.entry in made && ClientOk(c) {
        ClientFramed(c);
      }
    }

    twostate lemma HoldersKept(e: PoolEntry)
      requires old(allocated(e)) && old(HoldersOk(e)) && e.holders == old(e.holders) && old(clients) <= clients
      ensures HoldersOk(e)
    {}

    // ----- what holds between calls -----

    /** Until the registry is closed, no live client holds an ended pool. */
    lemma LiveClientHoldsOpenPool(c: PooledClient)
      requires Valid() && !closed && c in clients && !c.ended
      ensures c.entry.pool.endCalls == 0 && c.entry.references > 0 && c.key in entries && entries[c.key] == c.entry
    {
      assert ClientOk(c);
      assert EntryOk(c.entry);
    }

    /** At most one open pool per configuration, and never a pool ended twice. */
    lemma OneOpenPoolPerKey(e: PoolEntry, f: PoolEntry)
      requires Valid() && e in made && f in made
      ensures !e.closing && !f.closing && e.key == f.key ==> e == f
      ensures e.pool.endCalls <= 1
    {
      assert EntryOk(e) && EntryOk(f);
    }

    /** The reference count is the number of clients not ended. */
    lemma ReferencesAreLiveClients(e: PoolEntry)
      requires Valid() && e in made
      ensures e.references == |set c | c in clients && !c.ended && c.entry == e|
      ensures !closed ==> (e.closing <==> forall c | c in clients && c.entry == e :: c.ended)
    {
      assert EntryOk(e) && HoldersOk(e);
      assert forall c | c in clients :: ClientOk(c);
      assert e.holders == set c | c in clients && !c.ended && c.entry == e;
      if !closed && !e.closing {
        var c :| c in e.holders;
        assert c in clients && c.entry == e && !c.ended;
      }
    }
  }
}
