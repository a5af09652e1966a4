/** Which vectors of earlier generations a build may take over (app/consumer/vector_reuse.py). */
module VectorReuse {
  import opened Common
  import opened Vectors
  import opened EmbeddingArtifacts

  datatype ReusedVector = ReusedVector(vector: Vector, generation: GenerationId, chunkId: string)

  /** Chunk text to a verified vector for it. The source keys by the digest of the text, which
      names the text. */
  type ReuseIndex = map<string, ReusedVector>

  predicate IsSource(m: Manifest, contract: Contract, exclude: GenerationId) {
    && Sha256(m.identity) != exclude
    && (m.status.Validated? || m.status.Active?)
    && m.provenance.Embedded?
    && m.contract.DocumentIdentity() == contract.DocumentIdentity()
  }

  predicate Candidate(d: Directory, contract: Contract, exclude: GenerationId) {
    d.manifest.Some? && Readable(d.manifest.value) && IsSource(d.manifest.value, contract, exclude)
  }

  function Texts(entries: seq<Entry>): set<string> {
    set i | 0 <= i < |entries| :: entries[i].chunk.text
  }

  /** The texts of one recorded shard whose checksums hold. */
  function ShardTexts(env: Surroundings, artifacts: map<nat, File>, shards: map<nat, ShardManifest>, i: nat): set<string> {
    if i !in shards then {}
    else
      match VerifiedSourceShard(env, artifacts, shards[i])
      case None => {}
      case Some(entries) => Texts(entries)
  }

  /** The texts of the verified shards among the first `n` of a manifest's shard list. */
  function TextsBelow(env: Surroundings, artifacts: map<nat, File>, shards: map<nat, ShardManifest>, n: nat): set<string> {
    if n == 0 then {}
    else TextsBelow(env, artifacts, shards, n - 1) + ShardTexts(env, artifacts, shards, n - 1)
  }

  function DirectoryTexts(env: Surroundings, d: Directory, contract: Contract, exclude: GenerationId): set<string> {
    if Candidate(d, contract, exclude) then
      TextsBelow(env, d.artifacts, d.manifest.value.shards, d.manifest.value.identity.ShardTotal())
    else {}
  }

  /** Every text for which some admissible generation among those listed still holds a verified vector. */
  function ReusableTexts(env: Surroundings, disk: Disk, listing: seq<GenerationId>, contract: Contract, exclude: GenerationId): set<string> {
    if listing == [] then {}
    else
      var g := listing[|listing| - 1];
      ReusableTexts(env, disk, listing[..|listing| - 1], contract, exclude)
      + (if g in disk then DirectoryTexts(env, disk[g], contract, exclude) else {})
  }

  /** The vector is the one the current model gives the text, and it came from another generation. */
  ghost predicate Faithful(env: Surroundings, contract: Contract, exclude: GenerationId, text: string, hit: ReusedVector) {
    && hit.vector == ReferenceVector(env, contract.model, text)
    && UnitLength(hit.vector)
    && contract.dimension == Some(|hit.vector|)
    && hit.vector != []
    && hit.generation != exclude
  }

  ghost predicate FaithfulIndex(env: Surroundings, contract: Contract, exclude: GenerationId, index: ReuseIndex) {
    forall text :: text in index ==> Faithful(env, contract, exclude, text, index[text])
  }

  /** Every entry of a sound embedded shard carries the current model's vector. */
  lemma SourceEntriesAreFaithful(env: Surroundings, gen: GenerationId, m: Manifest, artifacts: map<nat, File>,
                                 contract: Contract, exclude: GenerationId, i: nat)
    requires Lawful(env) && SoundManifest(env, gen, m) && i in m.shards
    requires IsSource(m, contract, exclude)
    requires VerifiedSourceShard(env, artifacts, m.shards[i]).Some?
    ensures forall k :: 0 <= k < |VerifiedSourceShard(env, artifacts, m.shards[i]).value| ==>
              var e := VerifiedSourceShard(env, artifacts, m.shards[i]).value[k];
              Faithful(env, contract, exclude, e.chunk.text, ReusedVector(e.vector, gen, e.chunk.id))
  {
    var s := m.shards[i];
    SoundSourceVerifies(env, m.identity, m.provenance, artifacts, s);
    var entries := EntriesOf(Vouched(s));
    var chunks := Shards(m.identity.chunks, m.identity.shardSize)[i];
    forall k | 0 <= k < |entries|
      ensures Faithful(env, contract, exclude, entries[k].chunk.text, ReusedVector(entries[k].vector, gen, entries[k].chunk.id))
    {
      assert ChunksOf(entries)[k] == chunks[k];
      assert VectorsOf(entries)[k] == ReferenceVectors(env, m.identity.model, chunks)[k];
    }
  }

  /** The directory scan. The source lists the candidates by status and age; the vectors are the
      same for every listing. */
  method FromArtifacts(env: Surroundings, disk: Disk, listing: seq<GenerationId>, contract: Contract, exclude: GenerationId)
    returns (index: ReuseIndex)
    requires Lawful(env) && SoundDisk(env, disk)
    ensures FaithfulIndex(env, contract, exclude, index)
    ensures index.Keys == if contract.dimension.None? then {} else ReusableTexts(env, disk, listing, contract, exclude)
  {
    index := map[];
    if contract.dimension.None? { return; }
    for k := 0 to |listing|
      invariant FaithfulIndex(env, contract, exclude, index)
      invariant index.Keys == ReusableTexts(env, disk, listing[..k], contract, exclude)
    {
      var g := listing[k];
      assert listing[..k + 1][..k] == listing[..k];
      if g in disk && Candidate(disk[g], contract, exclude) {
        index := AddGeneration(env, g, disk[g], contract, exclude, index);
      }
    }
    assert listing[..|listing|] == listing;
  }

  /** A shard that fails its checksums is skipped; a text already indexed keeps its vector. */
  method AddGeneration(env: Surroundings, gen: GenerationId, d: Directory, contract: Contract, exclude: GenerationId,
                       start: ReuseIndex) returns (index: ReuseIndex)
    requires Lawful(env) && FaithfulIndex(env, contract, exclude, start)
    requires Candidate(d, contract, exclude) && SoundManifest(env, gen, d.manifest.value)
    ensures FaithfulIndex(env, contract, exclude, index)
    ensures index.Keys == start.Keys + DirectoryTexts(env, d, contract, exclude)
  {
    index := start;
    var m := d.manifest.value;
    for i := 0 to m.identity.ShardTotal()
      invariant FaithfulIndex(env, contract, exclude, index)
      invariant index.Keys == start.Keys + TextsBelow(env, d.artifacts, m.shards, i)
    {
      index := AddShard(env, gen, m, d.artifacts, contract, exclude, i, index);
    }
  }

  method AddShard(env: Surroundings, gen: GenerationId, m: Manifest, artifacts: map<nat, File>, contract: Contract,
                  exclude: GenerationId, i: nat, start: ReuseIndex) returns (index: ReuseIndex)
    requires Lawful(env) && FaithfulIndex(env, contract, exclude, start)
    requires SoundManifest(env, gen, m) && IsSource(m, contract, exclude)
    ensures FaithfulIndex(env, contract, exclude, index)
    ensures index.Keys == start.Keys + ShardTexts(env, artifacts, m.shards, i)
  {
    if i !in m.shards { return start; }
    var entries := VerifiedSourceShard(env, artifacts, m.shards[i]);
    if entries.None? { return start; }
    SourceEntriesAreFaithful(env, gen, m, artifacts, contract, exclude, i);
    index := AddEntries(env, gen, entries.value, contract, exclude, start);
  }

  method AddEntries(env: Surroundings, gen: GenerationId, entries: seq<Entry>, contract: Contract, exclude: GenerationId,
                    start: ReuseIndex) returns (index: ReuseIndex)
    requires FaithfulIndex(env, contract, exclude, start)
    requires forall k :: 0 <= k < |entries| ==>
               Faithful(env, contract, exclude, entries[k].chunk.text, ReusedVector(entries[k].vector, gen, entries[k].chunk.id))
    ensures FaithfulIndex(env, contract, exclude, index)
    ensures index.Keys == start.Keys + Texts(entries)
  {
    index := start;
    for k := 0 to |entries|
      invariant FaithfulIndex(env, contract, exclude, index)
      invariant index.Keys == start.Keys + set i | 0 <= i < k :: entries[i].chunk.text
    {
      var e := entries[k];
      if e.chunk.text !in index {
        index := index[e.chunk.text := ReusedVector(e.vector, gen, e.chunk.id)];
      }
    }
  }

  /** Cosine similarity; vectors of different length never match. */
  function Cosine(env: Surroundings, a: Vector, b: Vector): real {
    if |a| != |b| then 0.0
    else
      var norm := env.sqrt(Dot(a, a)) * env.sqrt(Dot(b, b));
      if norm == 0.0 then 0.0 else Dot(a, b) / norm
  }

  /** A unit-length vector agrees fully with itself: the canary cannot refuse a faithful index. */
  lemma CosineWithItself(env: Surroundings, v: Vector)
    requires Lawful(env) && UnitLength(v)
    ensures Cosine(env, v, v) == 1.0
  {
    var d := Dot(v, v);
    assert d >= 0.0;
    Quotient(d, env.sqrt(d) * env.sqrt(d));
  }

  lemma Quotient(d: real, n: real)
    requires n == d != 0.0
    ensures d / n == 1.0
  {
  }
}
