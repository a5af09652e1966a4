/** The LRU cache with a time to live that keeps query vectors (app/rag/resilience.py:178-198). The
    ordered dictionary is a sequence, least recently used first. */
module QueryCache {
  import opened Common
  import opened Vectors

  datatype CacheEntry = CacheEntry(key: string, expires: real, vector: Vector)

  type Cache = seq<CacheEntry>

  datatype CachePolicy = CachePolicy(ttl: real, maxEntries: int) {
    predicate Off() { ttl <= 0.0 || maxEntries <= 0 }
  }

  predicate DistinctKeys(cache: Cache) {
    forall i, j :: 0 <= i < j < |cache| ==> cache[i].key != cache[j].key
  }

  /** Position of a key. */
  function Position(cache: Cache, key: string): (r: Option<nat>)
    ensures r.Some? ==> r.value < |cache| && cache[r.value].key == key
    ensures r.None? ==> forall i :: 0 <= i < |cache| ==> cache[i].key != key
  {
    if cache == [] then None
    else if cache[0].key == key then Some(0)
    else
      match Position(cache[1..], key)
      case None => None
      case Some(i) => Some(i + 1)
  }

  function Without(cache: Cache, key: string): Cache {
    match Position(cache, key)
    case None => cache
    case Some(i) => cache[..i] + cache[i + 1..]
  }

  function Lookup(policy: CachePolicy, cache: Cache, key: string, now: real): (Cache, Option<Vector>) {
    if policy.Off() then (cache, None)
    else
      match Position(cache, key)
      case None => (cache, None)
      case Some(i) =>
        if cache[i].expires <= now then (Without(cache, key), None)
        else (Without(cache, key) + [cache[i]], Some(cache[i].vector))
  }

  function Trim(cache: Cache, max: int): Cache
    requires max >= 0
  {
    if |cache| > max then cache[|cache| - max..] else cache
  }

  function Store(policy: CachePolicy, cache: Cache, key: string, vector: Vector, now: real): Cache {
    if policy.Off() then cache
    else Trim(Without(cache, key) + [CacheEntry(key, now + policy.ttl, vector)], policy.maxEntries)
  }

  /** One lookup per query, in order. */
  function LookupAll(policy: CachePolicy, cache: Cache, queries: seq<string>, now: real): (r: (Cache, seq<Option<Vector>>))
    ensures |r.1| == |queries|
  {
    if queries == [] then (cache, [])
    else
      var (before, found) := LookupAll(policy, cache, queries[..|queries| - 1], now);
      var (after, last) := Lookup(policy, before, queries[|queries| - 1], now);
      (after, found + [last])
  }

  function StoreAll(policy: CachePolicy, cache: Cache, queries: seq<string>, vectors: seq<Vector>, now: real): Cache
    requires |queries| == |vectors|
  {
    if queries == [] then cache
    else
      var n := |queries| - 1;
      Store(policy, StoreAll(policy, cache, queries[..n], vectors[..n], now), queries[n], vectors[n], now)
  }

  // ----- what the cache keeps

  /** Every entry is the embedder's own vector for its key; keys are distinct; the bound holds; no entry
      outlives its time to live. */
  ghost predicate CacheInv(policy: CachePolicy, embed: string -> Vector, cache: Cache, clock: real) {
    && (if policy.Off() then cache == [] else |cache| <= policy.maxEntries)
    && DistinctKeys(cache)
    && forall i :: 0 <= i < |cache| ==> cache[i].vector == embed(cache[i].key) && cache[i].expires <= clock + policy.ttl
  }

  lemma WithoutKeeps(policy: CachePolicy, embed: string -> Vector, cache: Cache, clock: real, key: string)
    requires CacheInv(policy, embed, cache, clock)
    ensures CacheInv(policy, embed, Without(cache, key), clock)
    ensures forall i :: 0 <= i < |Without(cache, key)| ==> Without(cache, key)[i].key != key && Without(cache, key)[i] in cache
    ensures Position(cache, key).Some? ==> |Without(cache, key)| == |cache| - 1
    ensures Position(cache, key).None? ==> Without(cache, key) == cache
  {
    var rest := Without(cache, key);
    match Position(cache, key)
    case None =>
    case Some(at) =>
      assert forall i :: 0 <= i < |rest| ==> rest[i] == cache[if i < at then i else i + 1];
  }

  /** A lookup never serves an expired entry, and what it serves is the embedder's vector. */
  lemma LookupKeeps(policy: CachePolicy, embed: string -> Vector, cache: Cache, clock: real, key: string, now: real)
    requires CacheInv(policy, embed, cache, clock)
    ensures CacheInv(policy, embed, Lookup(policy, cache, key, now).0, clock)
    ensures Lookup(policy, cache, key, now).1.Some? ==>
              && Lookup(policy, cache, key, now).1.value == embed(key)
              && exists i :: 0 <= i < |cache| && cache[i].key == key && cache[i].expires > now
    ensures Lookup(policy, cache, key, now).1.None? ==>
              policy.Off() || forall i :: 0 <= i < |cache| && cache[i].key == key ==> cache[i].expires <= now
  {
    WithoutKeeps(policy, embed, cache, clock, key);
  }

  /** The cache holds the key and its time to live has not ended. */
  ghost predicate Alive(policy: CachePolicy, cache: Cache, key: string, now: real) {
    !policy.Off() && exists i :: 0 <= i < |cache| && cache[i].key == key && cache[i].expires > now
  }

  /** A lookup serves exactly the keys that are alive, makes the served one the most recent and takes no other. */
  lemma LookupServesAlive(policy: CachePolicy, embed: string -> Vector, cache: Cache, clock: real, key: string, now: real)
    requires CacheInv(policy, embed, cache, clock)
    ensures var (after, found) := Lookup(policy, cache, key, now);
            && (found.Some? <==> Alive(policy, cache, key, now))
            && (found.Some? ==> after != [] && after[|after| - 1].key == key)
            && forall other :: Alive(policy, after, other, now) <==> Alive(policy, cache, other, now)
  {
    WithoutKeeps(policy, embed, cache, clock, key);
    var (after, found) := Lookup(policy, cache, key, now);
    forall other
      ensures Alive(policy, after, other, now) <==> Alive(policy, cache, other, now)
    {
      if Alive(policy, cache, other, now) {
        var i :| 0 <= i < |cache| && cache[i].key == other && cache[i].expires > now;
        StillThere(cache, key, i);
        if other == key {
          assert after[|after| - 1] == cache[i];
        } else {
          var j :| 0 <= j < |Without(cache, key)| && Without(cache, key)[j] == cache[i];
          assert after[j] == cache[i];
        }
      }
    }
  }

  lemma StillThere(cache: Cache, key: string, i: nat)
    requires DistinctKeys(cache) && i < |cache|
    ensures cache[i].key == key ==> Position(cache, key) == Some(i)
    ensures cache[i].key != key ==> exists j :: 0 <= j < |Without(cache, key)| && Without(cache, key)[j] == cache[i]
  {
    var rest := Without(cache, key);
    match Position(cache, key)
    case None =>
      assert rest[i] == cache[i];
    case Some(p) =>
      if p != i {
        var j := if i < p then i else i - 1;
        assert rest[j] == cache[i];
      }
  }

  lemma PositionIs(cache: Cache, key: string, i: nat)
    requires DistinctKeys(cache) && i < |cache| && cache[i].key == key
    ensures Position(cache, key) == Some(i)
  {
    StillThere(cache, key, i);
  }

  lemma {:induction false} LookupAllServesAlive(policy: CachePolicy, embed: string -> Vector, cache: Cache, clock: real,
              queries: seq<string>, now: real)
    requires CacheInv(policy, embed, cache, clock)
    ensures forall other :: Alive(policy, LookupAll(policy, cache, queries, now).0, other, now) <==> Alive(policy, cache, other, now)
    ensures forall i :: 0 <= i < |queries| ==> (LookupAll(policy, cache, queries, now).1[i].Some? <==> Alive(policy, cache, queries[i], now))
  {
    if queries != [] {
      var n := |queries| - 1;
      var (before, found) := LookupAll(policy, cache, queries[..n], now);
      LookupAllServesAlive(policy, embed, cache, clock, queries[..n], now);
      LookupAllKeeps(policy, embed, cache, clock, queries[..n], now);
      LookupServesAlive(policy, embed, before, clock, queries[n], now);
      forall i | 0 <= i < n
        ensures found[i].Some? <==> Alive(policy, cache, queries[i], now)
      {
        assert queries[..n][i] == queries[i];
      }
    }
  }

  lemma StoreKeeps(policy: CachePolicy, embed: string -> Vector, cache: Cache, clock: real, key: string, now: real)
    requires CacheInv(policy, embed, cache, clock) && clock <= now
    ensures CacheInv(policy, embed, Store(policy, cache, key, embed(key), now), now)
    ensures !policy.Off() ==> CacheEntry(key, now + policy.ttl, embed(key)) in Store(policy, cache, key, embed(key), now)
  {
    if !policy.Off() {
      WithoutKeeps(policy, embed, cache, clock, key);
      var grown := Without(cache, key) + [CacheEntry(key, now + policy.ttl, embed(key))];
      var kept := Trim(grown, policy.maxEntries);
      assert kept[|kept| - 1] == grown[|grown| - 1];
      assert DistinctKeys(grown);
    }
  }

  lemma {:induction false} LookupAllKeeps(policy: CachePolicy, embed: string -> Vector, cache: Cache, clock: real, queries: seq<string>, now: real)
    requires CacheInv(policy, embed, cache, clock)
    ensures CacheInv(policy, embed, LookupAll(policy, cache, queries, now).0, clock)
    ensures forall i :: 0 <= i < |queries| && LookupAll(policy, cache, queries, now).1[i].Some? ==>
              LookupAll(policy, cache, queries, now).1[i].value == embed(queries[i])
  {
    if queries != [] {
      var n := |queries| - 1;
      LookupAllKeeps(policy, embed, cache, clock, queries[..n], now);
      LookupKeeps(policy, embed, LookupAll(policy, cache, queries[..n], now).0, clock, queries[n], now);
    }
  }

  lemma {:induction false} StoreAllKeeps(policy: CachePolicy, embed: string -> Vector, cache: Cache, clock: real, queries: seq<string>,
              vectors: seq<Vector>, now: real)
    requires CacheInv(policy, embed, cache, clock) && clock <= now
    requires |queries| == |vectors| && forall i :: 0 <= i < |queries| ==> vectors[i] == embed(queries[i])
    ensures CacheInv(policy, embed, StoreAll(policy, cache, queries, vectors, now), now)
  {
    if queries != [] {
      var n := |queries| - 1;
      StoreAllKeeps(policy, embed, cache, clock, queries[..n], vectors[..n], now);
      StoreKeeps(policy, embed, StoreAll(policy, cache, queries[..n], vectors[..n], now), now, queries[n], now);
    }
  }

  /** Eviction takes the least recently used first: an entry among the most recent `maxEntries - 1`
      survives the store of another key. */
  lemma RecentEntriesSurvive(policy: CachePolicy, cache: Cache, key: string, vector: Vector, now: real, i: nat)
    requires !policy.Off() && DistinctKeys(cache) && i < |cache| && cache[i].key != key
    requires |cache| - i <= policy.maxEntries - 1
    ensures cache[i] in Store(policy, cache, key, vector, now)
  {
    var rest := Without(cache, key);
    var grown := rest + [CacheEntry(key, now + policy.ttl, vector)];
    var at := match Position(cache, key) case None => i case Some(p) => if i < p then i else i - 1;
    assert grown[at] == cache[i];
    var kept := Trim(grown, policy.maxEntries);
    if |grown| > policy.maxEntries {
      assert kept[at - (|grown| - policy.maxEntries)] == cache[i];
    }
  }

  /** An entry among the last `n` that expires `now + ttl` or later. */
  ghost predicate AmongLast(cache: Cache, n: nat, key: string, expires: real) {
    exists i :: 0 <= i < |cache| && i >= |cache| - n && cache[i].key == key && cache[i].expires == expires
  }

  lemma StoreKeepsLast(policy: CachePolicy, cache: Cache, n: nat, key: string, vector: Vector, now: real, other: string)
    requires !policy.Off() && n + 1 <= policy.maxEntries && DistinctKeys(cache)
    requires other == key || AmongLast(cache, n, other, now + policy.ttl)
    ensures AmongLast(Store(policy, cache, key, vector, now), n + 1, other, now + policy.ttl)
  {
    var rest := Without(cache, key);
    var grown := rest + [CacheEntry(key, now + policy.ttl, vector)];
    var kept := Trim(grown, policy.maxEntries);
    var at := |grown| - 1;
    if other != key {
      var i :| 0 <= i < |cache| && i >= |cache| - n && cache[i].key == other && cache[i].expires == now + policy.ttl;
      at := match Position(cache, key) case None => i case Some(p) => if i < p then i else i - 1;
      assert grown[at] == cache[i];
    }
    assert at >= |grown| - (n + 1);
    var k := at - (|grown| - |kept|);
    assert kept[k] == grown[at];
  }

  lemma {:induction false} StoredAmongLast(policy: CachePolicy, embed: string -> Vector, cache: Cache, clock: real, queries: seq<string>,
              vectors: seq<Vector>, now: real, i: nat)
    requires !policy.Off() && CacheInv(policy, embed, cache, clock) && clock <= now && i < |queries| <= policy.maxEntries
    requires |queries| == |vectors| && forall k :: 0 <= k < |queries| ==> vectors[k] == embed(queries[k])
    ensures AmongLast(StoreAll(policy, cache, queries, vectors, now), |queries|, queries[i], now + policy.ttl)
    decreases |queries|
  {
    var n := |queries| - 1;
    var before := StoreAll(policy, cache, queries[..n], vectors[..n], now);
    StoreAllKeeps(policy, embed, cache, clock, queries[..n], vectors[..n], now);
    if i < n {
      StoredAmongLast(policy, embed, cache, clock, queries[..n], vectors[..n], now, i);
    }
    StoreKeepsLast(policy, before, n, queries[n], vectors[n], now, queries[i]);
  }

  /** As many stores as the cache holds entries are all served until their time to live ends. */
  lemma StoredAreAlive(policy: CachePolicy, embed: string -> Vector, cache: Cache, clock: real, queries: seq<string>, vectors: seq<Vector>, now: real,
                       i: nat, later: real)
    requires !policy.Off() && CacheInv(policy, embed, cache, clock) && clock <= now && i < |queries| <= policy.maxEntries
    requires |queries| == |vectors| && forall k :: 0 <= k < |queries| ==> vectors[k] == embed(queries[k])
    ensures later < now + policy.ttl ==> Alive(policy, StoreAll(policy, cache, queries, vectors, now), queries[i], later)
  {
    StoredAmongLast(policy, embed, cache, clock, queries, vectors, now, i);
  }

  /** A stored key is served until it expires, and not after. */
  lemma StoredThenServed(policy: CachePolicy, embed: string -> Vector, cache: Cache, clock: real, key: string, now: real, later: real)
    requires !policy.Off() && CacheInv(policy, embed, cache, clock) && clock <= now
    ensures Lookup(policy, Store(policy, cache, key, embed(key), now), key, later).1
         == if later < now + policy.ttl then Some(embed(key)) else None
  {
    StoreKeeps(policy, embed, cache, clock, key, now);
    var after := Store(policy, cache, key, embed(key), now);
    var i :| 0 <= i < |after| && after[i] == CacheEntry(key, now + policy.ttl, embed(key));
    PositionIs(after, key, i);
  }
}
