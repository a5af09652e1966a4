/** Chunks, vectors, shard files and manifests of one embedding generation, and the checks that
    decide whether a shard file on disk may be trusted
    (app/consumer/embedding_artifacts.py, app/schemas/embedding.py). */
module EmbeddingArtifacts {
  import opened Common
  import opened Vectors

  /** What lies outside the program: the model, the float32 conversion, the store's rounding of a
      vector it was given, and the square root. */
  datatype Surroundings = Surroundings(
    embed: (string, string) -> Vector,
    float32: real -> real,
    persist: Vector -> Vector,
    sqrt: real -> real)

  ghost predicate Lawful(env: Surroundings) {
    && (forall x :: env.float32(env.float32(x)) == env.float32(x))
    && (forall x :: x >= 0.0 ==> env.sqrt(x) >= 0.0 && env.sqrt(x) * env.sqrt(x) == x)
  }

  datatype Chunk = Chunk(id: string, docId: string, text: string, metadata: string)

  /** The document side names everything that moves a stored vector; the query side is only
      recorded. */
  datatype Contract = Contract(model: string, dimension: Option<nat>, queryFormat: string) {
    function DocumentIdentity(): (string, Option<nat>) { (model, dimension) }
  }

  /** What the generation id hashes. */
  datatype Identity = Identity(
    indexName: string,
    release: string,
    documentId: string,
    chunks: seq<Chunk>,
    model: string,
    dimension: Option<nat>,
    shardSize: nat)
  {
    function Slot(): (string, string) { (indexName, documentId) }

    function ShardTotal(): nat { if shardSize == 0 then 0 else |Shards(chunks, shardSize)| }

    /** The corpus gives every chunk its own id; the schema wants at least one chunk. */
    ghost predicate Valid() {
      && shardSize > 0
      && chunks != []
      && (forall i, j :: 0 <= i < j < |chunks| ==> chunks[i].id != chunks[j].id)
    }
  }

  type GenerationId = Sha256<Identity>

  datatype Origin = Origin(generation: GenerationId, chunkId: string)

  datatype Record = Record(chunk: Chunk, vector: Vector, origin: Option<Origin>)

  datatype Entry = Entry(chunk: Chunk, vector: Vector)

  /** A shard file. `packing` stands for every byte that does not show in the decoded records. */
  datatype File = Gzip(packing: nat, records: seq<Record>) | Undecodable(bytes: seq<nat>)

  datatype ShardManifest = ShardManifest(
    index: nat,
    artifactFile: nat,
    artifactSha: Sha256<File>,
    chunkCount: nat,
    chunkIdsSha: Sha256<seq<string>>,
    chunksSha: Sha256<seq<Chunk>>,
    vectorsSha: Sha256<seq<Vector>>,
    dimension: nat,
    reusedCount: nat)

  datatype Status = Building | Validated | Active | Failed

  datatype Provenance = Embedded | Adopted

  datatype Manifest = Manifest(
    identity: Identity,
    provenance: Provenance,
    status: Status,
    contract: Contract,
    shards: map<nat, ShardManifest>,
    completedCount: nat,
    reusedCount: nat,
    canaryPassed: Option<bool>)

  // ----- vectors

  function Float32(env: Surroundings, v: Vector): (r: Vector)
    ensures |r| == |v|
  {
    seq(|v|, i requires 0 <= i < |v| => env.float32(v[i]))
  }

  function Float32All(env: Surroundings, vs: seq<Vector>): (r: seq<Vector>)
    ensures |r| == |vs|
  {
    seq(|vs|, i requires 0 <= i < |vs| => Float32(env, vs[i]))
  }

  lemma Float32Idempotent(env: Surroundings, x: real)
    requires Lawful(env)
    ensures env.float32(env.float32(x)) == env.float32(x)
  {
  }

  lemma Float32Twice(env: Surroundings, vs: seq<Vector>)
    requires Lawful(env)
    ensures Float32All(env, Float32All(env, vs)) == Float32All(env, vs)
  {
    forall i | 0 <= i < |vs|
      ensures Float32(env, Float32(env, vs[i])) == Float32(env, vs[i])
    {
      var v := vs[i];
      forall k | 0 <= k < |v|
        ensures Float32(env, Float32(env, v))[k] == Float32(env, v)[k]
      {
        Float32Idempotent(env, v[k]);
      }
    }
  }

  function VectorsDigest(env: Surroundings, vs: seq<Vector>): Sha256<seq<Vector>> {
    Sha256(Float32All(env, vs))
  }

  /** The vector an uninterrupted build that reuses nothing stores for a text. */
  function ReferenceVector(env: Surroundings, model: string, text: string): Vector {
    Float32(env, env.embed(model, text))
  }

  function ReferenceVectors(env: Surroundings, model: string, chunks: seq<Chunk>): (r: seq<Vector>)
    ensures |r| == |chunks|
  {
    seq(|chunks|, i requires 0 <= i < |chunks| => ReferenceVector(env, model, chunks[i].text))
  }

  // ----- chunks, entries, records

  function Ids(chunks: seq<Chunk>): (r: seq<string>)
    ensures |r| == |chunks|
  {
    seq(|chunks|, i requires 0 <= i < |chunks| => chunks[i].id)
  }

  function TextsOf(chunks: seq<Chunk>): set<string> {
    set i | 0 <= i < |chunks| :: chunks[i].text
  }

  function ChunksOf(entries: seq<Entry>): (r: seq<Chunk>)
    ensures |r| == |entries|
  {
    seq(|entries|, i requires 0 <= i < |entries| => entries[i].chunk)
  }

  function VectorsOf(entries: seq<Entry>): (r: seq<Vector>)
    ensures |r| == |entries|
  {
    seq(|entries|, i requires 0 <= i < |entries| => entries[i].vector)
  }

  function Pair(chunks: seq<Chunk>, vectors: seq<Vector>): (r: seq<Entry>)
    requires |chunks| == |vectors|
    ensures |r| == |chunks|
  {
    seq(|chunks|, i requires 0 <= i < |chunks| => Entry(chunks[i], vectors[i]))
  }

  function EntriesOf(records: seq<Record>): (r: seq<Entry>)
    ensures |r| == |records|
  {
    seq(|records|, i requires 0 <= i < |records| => Entry(records[i].chunk, records[i].vector))
  }

  function OriginsOf(records: seq<Record>): (r: seq<Option<Origin>>)
    ensures |r| == |records|
  {
    seq(|records|, i requires 0 <= i < |records| => records[i].origin)
  }

  function Records(chunks: seq<Chunk>, vectors: seq<Vector>, origins: seq<Option<Origin>>): (r: seq<Record>)
    requires |chunks| == |vectors| == |origins|
    ensures |r| == |chunks|
  {
    seq(|chunks|, i requires 0 <= i < |chunks| => Record(chunks[i], vectors[i], origins[i]))
  }

  function Present(origins: seq<Option<Origin>>): nat {
    if origins == [] then 0 else (if origins[0].Some? then 1 else 0) + Present(origins[1..])
  }

  /** Position of the first entry with this chunk id. */
  function Find(entries: seq<Entry>, id: string): (r: Option<nat>)
    ensures r.Some? ==> r.value < |entries| && entries[r.value].chunk.id == id
    ensures r.None? ==> forall i :: 0 <= i < |entries| ==> entries[i].chunk.id != id
  {
    if entries == [] then None
    else if entries[0].chunk.id == id then Some(0)
    else
      match Find(entries[1..], id)
      case None => None
      case Some(i) => Some(i + 1)
  }

  predicate DistinctIds(entries: seq<Entry>) {
    forall i, j :: 0 <= i < j < |entries| ==> entries[i].chunk.id != entries[j].chunk.id
  }

  /** The vectors of exactly the expected chunks, in their order; None where the source raises. */
  function VectorsForChunks(expected: seq<Chunk>, entries: seq<Entry>, dimension: Option<nat>): (r: Option<seq<Vector>>)
    ensures r.Some? ==> ValidVectors(r.value, |expected|, dimension)
  {
    if !DistinctIds(entries) then None
    else if exists i :: 0 <= i < |entries| && entries[i].chunk.id !in Ids(expected) then None
    else if exists i :: 0 <= i < |expected| && Find(entries, expected[i].id).None? then None
    else if exists i :: 0 <= i < |expected| && entries[Find(entries, expected[i].id).value].chunk != expected[i] then None
    else
      var vectors := seq(|expected|, i requires 0 <= i < |expected| => entries[Find(entries, expected[i].id).value].vector);
      if ValidVectors(vectors, |expected|, dimension) then Some(vectors) else None
  }

  /** Entries already in the expected order give their own vectors. */
  lemma InOrderVectors(expected: seq<Chunk>, entries: seq<Entry>, dimension: Option<nat>)
    requires ChunksOf(entries) == expected
    requires forall i, j :: 0 <= i < j < |expected| ==> expected[i].id != expected[j].id
    ensures VectorsForChunks(expected, entries, dimension)
         == if ValidVectors(VectorsOf(entries), |expected|, dimension) then Some(VectorsOf(entries)) else None
  {
    forall i | 0 <= i < |expected|
      ensures Find(entries, expected[i].id) == Some(i)
    {
      assert ChunksOf(entries)[i] == expected[i];
      var f := Find(entries, expected[i].id);
      assert entries[i].chunk.id == expected[i].id;
      assert ChunksOf(entries)[f.value] == expected[f.value];
    }
    forall i | 0 <= i < |entries|
      ensures entries[i].chunk.id in Ids(expected)
    {
      assert ChunksOf(entries)[i] == expected[i];
      assert Ids(expected)[i] == entries[i].chunk.id;
    }
    assert DistinctIds(entries) by {
      forall i, j | 0 <= i < j < |entries|
        ensures entries[i].chunk.id != entries[j].chunk.id
      {
        assert ChunksOf(entries)[i] == expected[i] && ChunksOf(entries)[j] == expected[j];
      }
    }
    forall i | 0 <= i < |expected|
      ensures entries[Find(entries, expected[i].id).value].chunk == expected[i]
    {
      assert ChunksOf(entries)[i] == expected[i];
    }
    var vectors := seq(|expected|, i requires 0 <= i < |expected| => entries[Find(entries, expected[i].id).value].vector);
    assert vectors == VectorsOf(entries);
  }

  // ----- shards

  function Shards(chunks: seq<Chunk>, size: nat): (r: seq<seq<Chunk>>)
    requires size > 0
    ensures forall i :: 0 <= i < |r| ==> r[i] != []
  {
    if chunks == [] then []
    else if |chunks| <= size then [chunks]
    else [chunks[..size]] + Shards(chunks[size..], size)
  }

  function Flatten<T>(parts: seq<seq<T>>): seq<T> {
    if parts == [] then [] else parts[0] + Flatten(parts[1..])
  }

  lemma {:induction false} ShardsCover(chunks: seq<Chunk>, size: nat)
    requires size > 0
    ensures Flatten(Shards(chunks, size)) == chunks
  {
    if chunks == [] {
    } else if |chunks| <= size {
      var parts := Shards(chunks, size);
      assert Flatten(parts) == parts[0] + Flatten(parts[1..]);
    } else {
      ShardsCover(chunks[size..], size);
      assert Shards(chunks, size)[1..] == Shards(chunks[size..], size);
    }
  }

  /** The manifest's expected shard count, the chunk count divided by the shard size and rounded up. */
  lemma {:induction false} ShardCount(chunks: seq<Chunk>, size: nat)
    requires size > 0
    ensures |Shards(chunks, size)| == CeilDiv(|chunks|, size)
  {
    if |chunks| > size {
      ShardCount(chunks[size..], size);
    }
    CeilDivSteps(|chunks|, size);
  }

  function CeilDiv(n: nat, size: nat): nat
    requires size > 0
  {
    (n + size - 1) / size
  }

  lemma CeilDivSteps(n: nat, size: nat)
    requires size > 0
    ensures n == 0 ==> CeilDiv(n, size) == 0
    ensures 0 < n <= size ==> CeilDiv(n, size) == 1
    ensures n > size ==> CeilDiv(n, size) == CeilDiv(n - size, size) + 1
  {
    if n == 0 {
      QuotientIs(size - 1, size, 0);
    } else if n <= size {
      QuotientIs(n + size - 1, size, 1);
    } else {
      var m := n - 1;
      var q := m / size;
      assert q * size <= m < q * size + size;
      QuotientIs(m + size, size, q + 1);
    }
  }

  lemma QuotientIs(n: nat, d: nat, q: nat)
    requires d > 0 && q * d <= n < q * d + d
    ensures n / d == q
  {
    var e := n / d;
    assert e * d <= n < e * d + d;
    Monotone(e + 1, q, d);
    Monotone(q + 1, e, d);
  }

  lemma Monotone(a: nat, b: nat, d: nat)
    ensures a <= b ==> a * d <= b * d
  {
  }

  lemma {:induction false} FlattenAppend<T>(a: seq<seq<T>>, b: seq<T>)
    ensures Flatten(a + [b]) == Flatten(a) + b
  {
    if a == [] {
      assert a + [b] == [b];
      assert Flatten([b]) == b + Flatten([]);
    } else {
      FlattenAppend(a[1..], b);
      assert (a + [b])[1..] == a[1..] + [b];
    }
  }

  /** What `_write_shard` puts on disk for already converted vectors. */
  function ShardFile(chunks: seq<Chunk>, vectors: seq<Vector>, origins: seq<Option<Origin>>): File
    requires |chunks| == |vectors| == |origins|
  {
    Gzip(0, Records(chunks, vectors, origins))
  }

  /** The manifest entry that goes with it. */
  function ShardRecord(env: Surroundings, index: nat, chunks: seq<Chunk>, vectors: seq<Vector>,
                       origins: seq<Option<Origin>>): ShardManifest
    requires |chunks| == |vectors| == |origins| > 0
  {
    ShardManifest(index, index, Sha256(ShardFile(chunks, vectors, origins)), |chunks|, Sha256(Ids(chunks)),
                  Sha256(chunks), VectorsDigest(env, vectors), |vectors[0]|, Present(origins))
  }

  /** A resumed shard: every checksum must hold. */
  function VerifiedEntries(env: Surroundings, artifacts: map<nat, File>, shard: ShardManifest, expected: seq<Chunk>): Option<seq<Entry>> {
    if shard.artifactFile != shard.index || shard.artifactFile !in artifacts then None
    else
      var file := artifacts[shard.artifactFile];
      if Sha256(file) != shard.artifactSha || file.Undecodable? then None
      else
        var entries := EntriesOf(file.records);
        match VectorsForChunks(expected, entries, Some(shard.dimension))
        case None => None
        case Some(vectors) =>
          if VectorsDigest(env, vectors) != shard.vectorsSha then None
          else if Sha256(Ids(expected)) != shard.chunkIdsSha then None
          else if Sha256(expected) != shard.chunksSha then None
          else Some(entries)
  }

  /** A shard of another generation offered for reuse. */
  function VerifiedSourceShard(env: Surroundings, artifacts: map<nat, File>, shard: ShardManifest): Option<seq<Entry>> {
    if shard.artifactFile != shard.index || shard.artifactFile !in artifacts then None
    else
      var file := artifacts[shard.artifactFile];
      if Sha256(file) != shard.artifactSha || file.Undecodable? then None
      else
        var raw := EntriesOf(file.records);
        var entries := Pair(ChunksOf(raw), Float32All(env, VectorsOf(raw)));
        if |entries| != shard.chunkCount then None
        else if Sha256(Ids(ChunksOf(entries))) != shard.chunkIdsSha then None
        else if Sha256(ChunksOf(entries)) != shard.chunksSha then None
        else if VectorsDigest(env, VectorsOf(entries)) != shard.vectorsSha then None
        else if exists i :: 0 <= i < |entries| && |entries[i].vector| != shard.dimension then None
        else Some(entries)
  }

  // ----- what every recorded shard satisfies

  /** The records a shard entry vouches for. */
  function Vouched(s: ShardManifest): seq<Record> {
    if s.artifactSha.of.Gzip? then s.artifactSha.of.records else []
  }

  ghost predicate SoundShard(env: Surroundings, id: Identity, provenance: Provenance, s: ShardManifest)
    requires id.shardSize > 0
  {
    var parts := Shards(id.chunks, id.shardSize);
    && s.index < |parts|
    && var chunks := parts[s.index];
       var records := Vouched(s);
       var vectors := VectorsOf(EntriesOf(records));
       && ChunksOf(EntriesOf(records)) == chunks
       && ValidVectors(vectors, |chunks|, Some(s.dimension))
       && Float32All(env, vectors) == vectors
       && s == ShardRecord(env, s.index, chunks, vectors, OriginsOf(records))
       && (provenance.Embedded? ==> vectors == ReferenceVectors(env, id.model, chunks))
  }

  lemma SubsequenceIds(id: Identity, k: nat)
    requires id.Valid()
    requires k < |Shards(id.chunks, id.shardSize)|
    ensures forall i, j :: 0 <= i < j < |Shards(id.chunks, id.shardSize)[k]| ==>
              Shards(id.chunks, id.shardSize)[k][i].id != Shards(id.chunks, id.shardSize)[k][j].id
  {
    ShardsInside(id.chunks, id.shardSize, k);
  }

  lemma {:induction false} ShardsInside(chunks: seq<Chunk>, size: nat, k: nat)
    requires size > 0 && k < |Shards(chunks, size)|
    requires forall i, j :: 0 <= i < j < |chunks| ==> chunks[i].id != chunks[j].id
    ensures forall i, j :: 0 <= i < j < |Shards(chunks, size)[k]| ==> Shards(chunks, size)[k][i].id != Shards(chunks, size)[k][j].id
  {
    if |chunks| > size && k > 0 {
      ShardsInside(chunks[size..], size, k - 1);
      assert Shards(chunks, size)[k] == Shards(chunks[size..], size)[k - 1];
    }
  }

  /** A sound shard entry accepts the very file it was written with, and no other content. */
  lemma SoundShardVerifies(env: Surroundings, id: Identity, provenance: Provenance, artifacts: map<nat, File>, s: ShardManifest)
    requires id.Valid() && SoundShard(env, id, provenance, s)
    ensures VerifiedEntries(env, artifacts, s, Shards(id.chunks, id.shardSize)[s.index])
         == if s.index in artifacts && artifacts[s.index] == s.artifactSha.of then Some(EntriesOf(Vouched(s))) else None
  {
    var chunks := Shards(id.chunks, id.shardSize)[s.index];
    SubsequenceIds(id, s.index);
    if s.index in artifacts && artifacts[s.index] == s.artifactSha.of {
      InOrderVectors(chunks, EntriesOf(Vouched(s)), Some(s.dimension));
    }
  }

  lemma SoundSourceVerifies(env: Surroundings, id: Identity, provenance: Provenance, artifacts: map<nat, File>, s: ShardManifest)
    requires Lawful(env) && id.Valid() && SoundShard(env, id, provenance, s)
    ensures VerifiedSourceShard(env, artifacts, s)
         == if s.index in artifacts && artifacts[s.index] == s.artifactSha.of then Some(EntriesOf(Vouched(s))) else None
  {
    if s.index in artifacts && artifacts[s.index] == s.artifactSha.of {
      var raw := EntriesOf(Vouched(s));
      assert Pair(ChunksOf(raw), VectorsOf(raw)) == raw;
      assert forall i :: 0 <= i < |raw| ==> raw[i].vector == VectorsOf(raw)[i];
    }
  }

  // ----- the artifacts directory

  datatype Directory = Directory(manifest: Option<Manifest>, artifacts: map<nat, File>)

  type Disk = map<GenerationId, Directory>

  /** Reading a manifest back validates it: adopted vectors cannot claim to be reused. */
  predicate Readable(m: Manifest) {
    m.provenance.Adopted? ==> m.reusedCount == 0
  }

  /** What one shard file holds, whatever a manifest says of it. */
  function FileEntries(artifacts: map<nat, File>, i: nat): seq<Entry> {
    if i in artifacts && artifacts[i].Gzip? then EntriesOf(artifacts[i].records) else []
  }

  /** What the first `n` shard files hold. */
  function FilesBelow(artifacts: map<nat, File>, n: nat): seq<Entry> {
    if n == 0 then [] else FilesBelow(artifacts, n - 1) + FileEntries(artifacts, n - 1)
  }

  function CountBelow(shards: map<nat, ShardManifest>, n: nat): nat {
    if n == 0 then 0
    else CountBelow(shards, n - 1) + (if n - 1 in shards then shards[n - 1].chunkCount else 0)
  }

  function ReusedBelow(shards: map<nat, ShardManifest>, n: nat): nat {
    if n == 0 then 0
    else ReusedBelow(shards, n - 1) + (if n - 1 in shards then shards[n - 1].reusedCount else 0)
  }

  ghost predicate SoundManifest(env: Surroundings, gen: GenerationId, m: Manifest) {
    && m.identity.Valid()
    && gen == Sha256(m.identity)
    && m.contract.model == m.identity.model
    && (m.identity.dimension.Some? ==> m.contract.dimension == m.identity.dimension)
    && m.completedCount == CountBelow(m.shards, m.identity.ShardTotal())
    && m.reusedCount == ReusedBelow(m.shards, m.identity.ShardTotal())
    && (m.provenance.Embedded? && m.identity.dimension.None? && m.contract.dimension.Some? ==>
          exists t :: t in TextsOf(m.identity.chunks) && |env.embed(m.identity.model, t)| == m.contract.dimension.value)
    && (forall i :: i in m.shards ==>
          && m.shards[i].index == i
          && m.contract.dimension == Some(m.shards[i].dimension)
          && SoundShard(env, m.identity, m.provenance, m.shards[i]))
  }

  ghost predicate SoundDisk(env: Surroundings, disk: Disk) {
    forall g :: g in disk && disk[g].manifest.Some? ==> SoundManifest(env, g, disk[g].manifest.value)
  }
}
