/** The disk and the store that the runs of a generation build share, the invariant they keep at
    every durable write, and the facts about one shard that keep it
    (app/consumer/embedding_generation.py). */
module GenerationSteps {
  import opened Common
  import opened Vectors
  import opened EmbeddingArtifacts
  import opened VectorReuse

  type Slot = (string, string)

  datatype Fuse = Never | After(n: nat)

  datatype Error = Unreadable | Incompatible | ProviderFailed | InvalidVectors | CanaryRefused | Incomplete
                 | StoreMismatch | NotAttested

  datatype Halt = Running | Crashed | Raised(error: Error)

  const CANARY_SIZE := 2
  const CANARY_MIN_COSINE: real := 0.9999
  const REL_TOLERANCE: real := 0.0000002
  const ABS_TOLERANCE: real := 0.00000001

  // ----- the store's copy

  function Abs(x: real): real { if x < 0.0 then -x else x }

  function MaxReal(a: real, b: real): real { if a >= b then a else b }

  predicate IsClose(a: real, b: real) {
    Abs(a - b) <= MaxReal(REL_TOLERANCE * MaxReal(Abs(a), Abs(b)), ABS_TOLERANCE)
  }

  predicate CloseVectors(a: Vector, b: Vector) {
    |a| == |b| && forall i :: 0 <= i < |a| ==> IsClose(a[i], b[i])
  }

  predicate PersistedMatch(env: Surroundings, expected: seq<Vector>, persisted: seq<Vector>) {
    && |expected| == |persisted|
    && (VectorsDigest(env, expected) == VectorsDigest(env, persisted)
        || forall i :: 0 <= i < |expected| ==> CloseVectors(Float32(env, expected[i]), Float32(env, persisted[i])))
  }

  /** The comparison passes exactly when every number, once converted, is off by at most two parts in ten million of the
      larger or by a hundred-millionth. */
  lemma MatchIsClose(env: Surroundings, expected: seq<Vector>, persisted: seq<Vector>)
    ensures PersistedMatch(env, expected, persisted)
      <==> && |expected| == |persisted|
           && forall i :: 0 <= i < |expected| ==> CloseNumbers(Float32(env, expected[i]), Float32(env, persisted[i]))
  {
    if |expected| == |persisted| {
      forall i | 0 <= i < |expected|
        ensures CloseNumbers(Float32(env, expected[i]), Float32(env, persisted[i]))
                <==> CloseVectors(Float32(env, expected[i]), Float32(env, persisted[i]))
        ensures Float32All(env, expected)[i] == Float32(env, expected[i]) && Float32All(env, persisted)[i] == Float32(env, persisted[i])
      {
      }
    }
  }

  ghost predicate CloseNumbers(a: Vector, b: Vector) {
    && |a| == |b|
    && forall k :: 0 <= k < |a| ==>
         var off, larger := if a[k] >= b[k] then a[k] - b[k] else b[k] - a[k], MaxReal(Abs(a[k]), Abs(b[k]));
         off <= 0.0000002 * larger || off <= 0.00000001
  }

  function Persisted(env: Surroundings, vectors: seq<Vector>): (r: seq<Vector>)
    ensures |r| == |vectors|
  {
    seq(|vectors|, i requires 0 <= i < |vectors| => env.persist(vectors[i]))
  }

  /** The store holds the corpus under exactly the vectors that an import by a build without resume or reuse
      would leave there, and they pass the comparison behind an import. */
  ghost predicate Holds(env: Surroundings, entries: seq<Entry>, id: Identity) {
    entries == Pair(id.chunks, Persisted(env, ReferenceVectors(env, id.model, id.chunks))) && Comparable(env, id)
  }

  /** What the store keeps of the reference vectors passes the comparison behind an import. */
  ghost predicate Comparable(env: Surroundings, id: Identity) {
    var reference := ReferenceVectors(env, id.model, id.chunks);
    PersistedMatch(env, reference, Persisted(env, reference))
  }

  /** What the store keeps of a text under a model. */
  function StoredVector(env: Surroundings, model: string, text: string): Vector { env.persist(ReferenceVector(env, model, text)) }

  /** An import of one generation leaves what an import of the other would. */
  ghost predicate Agree(env: Surroundings, id: Identity, other: Identity) {
    && id.chunks == other.chunks
    && forall c :: c in id.chunks ==> StoredVector(env, id.model, c.text) == StoredVector(env, other.model, c.text)
  }

  // ----- what is true of the disk and the store whenever a process may die

  ghost predicate IsActive(disk: Disk, g: GenerationId) {
    g in disk && disk[g].manifest.Some? && disk[g].manifest.value.status.Active? && disk[g].manifest.value.provenance.Embedded?
  }

  ghost predicate SoundStore(env: Surroundings, disk: Disk, store: map<Slot, seq<Entry>>, importer: map<Slot, GenerationId>) {
    && (forall s :: s in importer ==> importer[s] in disk && importer[s].of.Slot() == s)
    && (forall g :: IsActive(disk, g) ==> g.of.Slot() in importer && Comparable(env, g.of))
    && (forall g :: IsActive(disk, g) && importer[g.of.Slot()] == g ==>
          g.of.Slot() in store && Holds(env, store[g.of.Slot()], g.of))
  }

  /** Adopted vectors are on disk only where an adoption put them. */
  ghost predicate Attributed(disk: Disk, adopted: set<GenerationId>) {
    forall g :: g in disk && disk[g].manifest.Some? && disk[g].manifest.value.provenance.Adopted? ==> g in adopted
  }

  /** Shards of a directory whose file is the one their entry vouches for. */
  function Intact(d: Directory): set<nat> {
    if d.manifest.None? then {}
    else set i | i in d.manifest.value.shards && i in d.artifacts && d.artifacts[i] == d.manifest.value.shards[i].artifactSha.of
  }

  function IntactAt(disk: Disk, g: GenerationId): set<nat> {
    if g in disk then Intact(disk[g]) else {}
  }

  /** For a sound manifest that is exactly what the checksum test of a resume accepts. */
  lemma IntactIsVerified(env: Surroundings, g: GenerationId, d: Directory, i: nat)
    requires d.manifest.Some? && SoundManifest(env, g, d.manifest.value)
    ensures i in Intact(d) <==>
              i in d.manifest.value.shards
              && VerifiedEntries(env, d.artifacts, d.manifest.value.shards[i], Shards(g.of.chunks, g.of.shardSize)[i]).Some?
  {
    var m := d.manifest.value;
    if i in m.shards {
      SoundShardVerifies(env, m.identity, m.provenance, d.artifacts, m.shards[i]);
    }
  }

  function DirectoryAt(disk: Disk, g: GenerationId): Directory {
    if g in disk then disk[g] else Directory(None, map[])
  }

  /** The machine the runs share: the artifacts directory, the vector store, and how much longer
      writes and embedding calls go through. */
  class Machine {
    const env: Surroundings
    var disk: Disk
    var store: map<Slot, seq<Entry>>
    var writesLeft: Fuse
    var callsLeft: Fuse
    /** What an import that is cut short leaves in its slot. */
    var torn: seq<Entry>
    /** The generation that imported last into each slot. */
    ghost var importer: map<Slot, GenerationId>
    /** The generations that an adoption has ever written. */
    ghost var adopted: set<GenerationId>

    constructor (env: Surroundings)
      requires Lawful(env)
      ensures this.env == env && disk == map[] && store == map[] && adopted == {} && Sound()
    {
      this.env := env;
      disk, store, importer, adopted := map[], map[], map[], {};
      writesLeft, callsLeft, torn := Never, Never, [];
    }

    ghost predicate Sound()
      reads this
    {
      Lawful(env) && SoundDisk(env, disk) && SoundStore(env, disk, store, importer) && Attributed(disk, adopted)
    }

    /** One durable write goes through, or the process is gone. */
    method Burn() returns (h: Halt)
      modifies this`writesLeft
      ensures h.Running? || h.Crashed?
      ensures old(writesLeft).Never? ==> h.Running? && writesLeft.Never?
    {
      match writesLeft
      case Never => h := Running;
      case After(n) =>
        if n == 0 { h := Crashed; } else { writesLeft := After(n - 1); h := Running; }
    }

    method Call() returns (h: Halt)
      modifies this`callsLeft
      ensures h.Running? || h == Raised(ProviderFailed)
      ensures old(callsLeft).Never? ==> h.Running? && callsLeft.Never?
    {
      match callsLeft
      case Never => h := Running;
      case After(n) =>
        if n == 0 { h := Raised(ProviderFailed); } else { callsLeft := After(n - 1); h := Running; }
    }

    /** `_save_manifest`: replaces the manifest file atomically. */
    method SaveManifest(g: GenerationId, m: Manifest) returns (h: Halt)
      requires Sound() && SoundManifest(env, g, m) && (m.provenance.Adopted? ==> g in adopted)
      requires m.status.Active? && m.provenance.Embedded? ==>
                 g.of.Slot() in importer && importer[g.of.Slot()] == g && g.of.Slot() in store && Holds(env, store[g.of.Slot()], g.of)
      modifies this`disk, this`writesLeft
      ensures Sound()
      ensures h.Running? ==> disk == Saved(old(disk), g, m)
      ensures OnlyAt(old(disk), disk, g)
      ensures !h.Running? ==> h.Crashed? && disk == old(disk)
      ensures old(writesLeft).Never? ==> h.Running? && writesLeft.Never?
    {
      h := Burn();
      if h.Running? {
        SavedIsSound(env, disk, store, importer, g, m);
        UpdatedOnlyAt(disk, g, Directory(Some(m), DirectoryAt(disk, g).artifacts));
        disk := Saved(disk, g, m);
      }
    }

    /** One shard file replaced atomically. */
    method WriteArtifact(g: GenerationId, i: nat, file: File) returns (h: Halt)
      requires Sound()
      modifies this`disk, this`writesLeft
      ensures Sound()
      ensures h.Running? ==> disk == Written(old(disk), g, i, file)
      ensures OnlyAt(old(disk), disk, g)
      ensures !h.Running? ==> h.Crashed? && disk == old(disk)
      ensures old(writesLeft).Never? ==> h.Running? && writesLeft.Never?
    {
      h := Burn();
      if h.Running? {
        WrittenIsSound(env, disk, store, importer, g, i, file);
        UpdatedOnlyAt(disk, g, Directory(DirectoryAt(disk, g).manifest, DirectoryAt(disk, g).artifacts[i := file]));
        disk := Written(disk, g, i, file);
      }
    }

    /** Replaces one document in the store. A process that dies in the middle leaves anything there. */
    method Import(g: GenerationId, entries: seq<Entry>) returns (h: Halt)
      requires Sound() && g in disk && !IsActive(disk, g)
      modifies this`store, this`importer, this`writesLeft
      ensures Sound()
      ensures importer == old(importer)[g.of.Slot() := g]
      ensures OnlySlot(old(store), store, g.of.Slot()) && OnlySlot(old(importer), importer, g.of.Slot())
      ensures store == old(store)[g.of.Slot() := if h.Running? then entries else torn]
      ensures !h.Running? ==> h.Crashed?
      ensures old(writesLeft).Never? ==> h.Running? && writesLeft.Never?
    {
      h := Burn();
      ImportedIsSound(env, disk, store, importer, g, if h.Running? then entries else torn);
      store := store[g.of.Slot() := if h.Running? then entries else torn];
      importer := importer[g.of.Slot() := g];
    }
  }

  function Saved(disk: Disk, g: GenerationId, m: Manifest): Disk {
    disk[g := Directory(Some(m), DirectoryAt(disk, g).artifacts)]
  }

  function Written(disk: Disk, g: GenerationId, i: nat, file: File): Disk {
    var d := DirectoryAt(disk, g);
    disk[g := Directory(d.manifest, d.artifacts[i := file])]
  }

  lemma SavedIsSound(env: Surroundings, disk: Disk, store: map<Slot, seq<Entry>>, importer: map<Slot, GenerationId>,
                     g: GenerationId, m: Manifest)
    requires SoundDisk(env, disk) && SoundStore(env, disk, store, importer) && SoundManifest(env, g, m)
    requires m.status.Active? && m.provenance.Embedded? ==>
               g.of.Slot() in importer && importer[g.of.Slot()] == g && g.of.Slot() in store && Holds(env, store[g.of.Slot()], g.of)
    ensures SoundDisk(env, Saved(disk, g, m)) && SoundStore(env, Saved(disk, g, m), store, importer)
  {
    var after := Saved(disk, g, m);
    assert forall k :: k != g ==> (IsActive(after, k) <==> IsActive(disk, k));
  }

  lemma WrittenIsSound(env: Surroundings, disk: Disk, store: map<Slot, seq<Entry>>, importer: map<Slot, GenerationId>,
                       g: GenerationId, i: nat, file: File)
    requires SoundDisk(env, disk) && SoundStore(env, disk, store, importer)
    ensures SoundDisk(env, Written(disk, g, i, file)) && SoundStore(env, Written(disk, g, i, file), store, importer)
  {
    var after := Written(disk, g, i, file);
    assert forall k :: IsActive(after, k) <==> IsActive(disk, k);
  }

  lemma ImportedIsSound(env: Surroundings, disk: Disk, store: map<Slot, seq<Entry>>, importer: map<Slot, GenerationId>,
                        g: GenerationId, entries: seq<Entry>)
    requires SoundDisk(env, disk) && SoundStore(env, disk, store, importer) && g in disk && !IsActive(disk, g)
    ensures SoundStore(env, disk, store[g.of.Slot() := entries], importer[g.of.Slot() := g])
  {
  }

  // ----- one shard

  /** The vector a shard stores for a text: an earlier generation's when there is one. */
  function Chosen(env: Surroundings, model: string, index: ReuseIndex, text: string): Vector {
    if text in index then index[text].vector else env.embed(model, text)
  }

  function ChosenVectors(env: Surroundings, model: string, index: ReuseIndex, chunks: seq<Chunk>): (r: seq<Vector>)
    ensures |r| == |chunks|
  {
    seq(|chunks|, i requires 0 <= i < |chunks| => Chosen(env, model, index, chunks[i].text))
  }

  function ChosenOrigins(index: ReuseIndex, chunks: seq<Chunk>): (r: seq<Option<Origin>>)
    ensures |r| == |chunks|
  {
    seq(|chunks|, i requires 0 <= i < |chunks| =>
      if chunks[i].text in index then Some(Origin(index[chunks[i].text].generation, index[chunks[i].text].chunkId)) else None)
  }

  /** Reuse changes no stored bit: after the float32 conversion both choices are the reference. */
  lemma ReuseIsInvisible(env: Surroundings, contract: Contract, exclude: GenerationId, index: ReuseIndex, chunks: seq<Chunk>)
    requires Lawful(env) && FaithfulIndex(env, contract, exclude, index)
    ensures Float32All(env, ChosenVectors(env, contract.model, index, chunks)) == ReferenceVectors(env, contract.model, chunks)
  {
    forall i | 0 <= i < |chunks|
      ensures Float32(env, Chosen(env, contract.model, index, chunks[i].text)) == ReferenceVector(env, contract.model, chunks[i].text)
    {
      var text := chunks[i].text;
      if text in index {
        Float32Twice(env, [env.embed(contract.model, text)]);
        assert Float32All(env, Float32All(env, [env.embed(contract.model, text)]))[0] == Float32All(env, [env.embed(contract.model, text)])[0];
      }
    }
  }

  lemma RoundTripRecords(chunks: seq<Chunk>, vectors: seq<Vector>, origins: seq<Option<Origin>>)
    requires |chunks| == |vectors| == |origins|
    ensures ChunksOf(EntriesOf(Records(chunks, vectors, origins))) == chunks
    ensures VectorsOf(EntriesOf(Records(chunks, vectors, origins))) == vectors
    ensures OriginsOf(Records(chunks, vectors, origins)) == origins
  {
  }

  /** What `_write_shard` records is sound. */
  lemma RecordIsSound(env: Surroundings, id: Identity, provenance: Provenance, i: nat, raw: seq<Vector>, origins: seq<Option<Origin>>)
    requires Lawful(env) && id.Valid() && i < id.ShardTotal()
    requires var chunks := Shards(id.chunks, id.shardSize)[i];
             && |raw| == |origins| == |chunks|
             && ValidVectors(Float32All(env, raw), |chunks|, id.dimension)
             && (provenance.Embedded? ==> Float32All(env, raw) == ReferenceVectors(env, id.model, chunks))
    ensures var chunks := Shards(id.chunks, id.shardSize)[i];
            SoundShard(env, id, provenance, ShardRecord(env, i, chunks, Float32All(env, raw), origins))
  {
    var chunks := Shards(id.chunks, id.shardSize)[i];
    RoundTripRecords(chunks, Float32All(env, raw), origins);
    Float32Twice(env, raw);
  }

  /** A manifest with one more shard, its counters recomputed. */
  function WithShard(m: Manifest, i: nat, s: ShardManifest): Manifest {
    var shards := m.shards[i := s];
    m.(shards := shards, contract := m.contract.(dimension := Some(s.dimension)),
       completedCount := CountBelow(shards, m.identity.ShardTotal()),
       reusedCount := ReusedBelow(shards, m.identity.ShardTotal()))
  }

  lemma WithShardIsSound(env: Surroundings, g: GenerationId, m: Manifest, i: nat, s: ShardManifest)
    requires SoundManifest(env, g, m)
    requires s.index == i && SoundShard(env, m.identity, m.provenance, s)
    requires m.contract.dimension.None? || m.contract.dimension == Some(s.dimension)
    requires m.identity.dimension.Some? ==> m.identity.dimension == Some(s.dimension)
    requires m.provenance.Embedded? && m.identity.dimension.None? ==>
               exists t :: t in TextsOf(m.identity.chunks) && |env.embed(m.identity.model, t)| == s.dimension
    ensures SoundManifest(env, g, WithShard(m, i, s))
  {
  }

  lemma IntactGrows(disk: Disk, g: GenerationId, m: Manifest, i: nat, file: File, after: Manifest)
    requires g in disk && disk[g].manifest == Some(m) && i !in Intact(disk[g])
    requires i in after.shards && after.shards[i].artifactSha.of == file
    requires after.shards == m.shards[i := after.shards[i]]
    ensures Intact(disk[g]) <= IntactAt(Written(disk, g, i, file), g)
    ensures IntactAt(Saved(Written(disk, g, i, file), g, after), g) == Intact(disk[g]) + {i}
  {
  }

  /** Two disks that differ at most in one generation's directory. */
  ghost predicate OnlyAt(before: Disk, after: Disk, g: GenerationId) {
    before - {g} == after - {g}
  }

  lemma UpdatedOnlyAt(disk: Disk, g: GenerationId, d: Directory)
    ensures OnlyAt(disk, disk[g := d], g)
  {
  }

  function RawVectors(env: Surroundings, model: string, texts: seq<string>): (r: seq<Vector>)
    ensures |r| == |texts|
  {
    seq(|texts|, i requires 0 <= i < |texts| => env.embed(model, texts[i]))
  }

  function ChunkTexts(chunks: seq<Chunk>): (r: seq<string>)
    ensures |r| == |chunks|
  {
    seq(|chunks|, i requires 0 <= i < |chunks| => chunks[i].text)
  }

  function Missing(index: ReuseIndex, chunks: seq<Chunk>): seq<string> {
    if chunks == [] then []
    else (if chunks[0].text in index then [] else [chunks[0].text]) + Missing(index, chunks[1..])
  }

  ghost predicate WellBehaved(env: Surroundings, id: Identity) {
    && ValidVectors(RawVectors(env, id.model, ChunkTexts(id.chunks)), |id.chunks|, id.dimension)
    && ValidVectors(ReferenceVectors(env, id.model, id.chunks), |id.chunks|, id.dimension)
  }

  /** The store gives back what it was given, up to the tolerated rounding. */
  ghost predicate FaithfulStore(env: Surroundings, id: Identity) {
    var reference := ReferenceVectors(env, id.model, id.chunks);
    && PersistedMatch(env, reference, Persisted(env, reference))
    && ValidVectors(Persisted(env, reference), |id.chunks|, id.dimension)
    && forall i :: 0 <= i < |reference| ==> |Persisted(env, reference)[i]| == |reference[i]|
  }

  /** Rounding keeps vectors of this length valid, and the store gives them back up to the tolerance. */
  ghost predicate Gentle(env: Surroundings, d: nat) {
    forall v: Vector {:trigger env.persist(v)} :: |v| == d > 0 && UnitLength(v) ==>
      && UnitLength(Float32(env, v))
      && |env.persist(v)| == d && UnitLength(env.persist(v)) && CloseVectors(Float32(env, v), Float32(env, env.persist(v)))
  }

  lemma GentleKeeps(env: Surroundings, d: nat, v: Vector)
    requires Gentle(env, d) && |v| == d > 0 && UnitLength(v)
    ensures UnitLength(Float32(env, v)) && |env.persist(v)| == d && UnitLength(env.persist(v))
    ensures CloseVectors(Float32(env, v), Float32(env, env.persist(v)))
  {
  }

  predicate Proper(v: Vector, d: nat) { |v| == d > 0 && UnitLength(v) }

  lemma EachValid(vectors: seq<Vector>, d: nat)
    requires forall i :: 0 <= i < |vectors| ==> Proper(vectors[i], d)
    ensures ValidVectors(vectors, |vectors|, Some(d))
  {
  }

  lemma GentleRounding(env: Surroundings, d: nat, vectors: seq<Vector>)
    requires Gentle(env, d) && ValidVectors(vectors, |vectors|, Some(d))
    ensures ValidVectors(Float32All(env, vectors), |vectors|, Some(d))
  {
    forall i | 0 <= i < |vectors|
      ensures Proper(Float32All(env, vectors)[i], d)
    {
      GentleKeeps(env, d, vectors[i]);
    }
    EachValid(Float32All(env, vectors), d);
  }

  lemma GentleStore(env: Surroundings, d: nat, vectors: seq<Vector>)
    requires Gentle(env, d) && ValidVectors(vectors, |vectors|, Some(d))
    ensures ValidVectors(Persisted(env, vectors), |vectors|, Some(d)) && PersistedMatch(env, vectors, Persisted(env, vectors))
  {
    var stored := Persisted(env, vectors);
    forall i | 0 <= i < |stored|
      ensures Proper(stored[i], d)
    {
      GentleKeeps(env, d, vectors[i]);
    }
    EachValid(stored, d);
    forall i | 0 <= i < |vectors|
      ensures CloseVectors(Float32(env, vectors[i]), Float32(env, stored[i]))
    {
      GentleKeeps(env, d, vectors[i]);
    }
  }

  /** A model whose vectors pass validation never makes a shard fail. */
  lemma ChosenAreValid(env: Surroundings, contract: Contract, g: GenerationId, m: Manifest, index: ReuseIndex, chunks: seq<Chunk>)
    requires Lawful(env) && SoundManifest(env, g, m) && WellBehaved(env, m.identity)
    requires m.provenance.Embedded? || m.identity.dimension.Some?
    requires contract.model == m.identity.model && contract.dimension == m.identity.dimension
    requires FaithfulIndex(env, contract, g, index) && (m.identity.dimension.None? ==> index == map[])
    requires chunks != [] && forall j :: 0 <= j < |chunks| ==> chunks[j] in m.identity.chunks
    ensures ValidVectors(ChosenVectors(env, m.identity.model, index, chunks), |chunks|, m.contract.dimension)
    ensures ValidVectors(Float32All(env, ChosenVectors(env, m.identity.model, index, chunks)), |chunks|, m.identity.dimension)
    ensures ValidVectors(RawVectors(env, m.identity.model, Missing(index, chunks)), |Missing(index, chunks)|, m.identity.dimension)
  {
    var id := m.identity;
    var raw := RawVectors(env, id.model, ChunkTexts(id.chunks));
    var reference := ReferenceVectors(env, id.model, id.chunks);
    var d := |raw[0]|;
    assert |reference[0]| == d;
    forall c | c in id.chunks
      ensures |env.embed(id.model, c.text)| == d && UnitLength(env.embed(id.model, c.text))
      ensures UnitLength(ReferenceVector(env, id.model, c.text))
    {
      var k :| 0 <= k < |id.chunks| && id.chunks[k] == c;
      assert raw[k] == env.embed(id.model, c.text) && reference[k] == ReferenceVector(env, id.model, c.text);
    }
    ReuseIsInvisible(env, contract, g, index, chunks);
    forall j | 0 <= j < |chunks|
      ensures |Chosen(env, id.model, index, chunks[j].text)| == d && UnitLength(Chosen(env, id.model, index, chunks[j].text))
      ensures UnitLength(ReferenceVectors(env, id.model, chunks)[j]) && |ReferenceVectors(env, id.model, chunks)[j]| == d
    {
      assert chunks[j] in id.chunks;
    }
    MissingAreTexts(index, chunks);
    forall j | 0 <= j < |Missing(index, chunks)|
      ensures |env.embed(id.model, Missing(index, chunks)[j])| == d && UnitLength(env.embed(id.model, Missing(index, chunks)[j]))
    {
      assert Missing(index, chunks)[j] in TextsOf(chunks);
    }
    assert m.contract.dimension.Some? ==> m.contract.dimension.value == d;
  }

  lemma {:induction false} MissingAreTexts(index: ReuseIndex, chunks: seq<Chunk>)
    ensures forall t :: t in Missing(index, chunks) <==> t in TextsOf(chunks) && t !in index
  {
    if chunks != [] {
      MissingAreTexts(index, chunks[1..]);
      assert chunks == [chunks[0]] + chunks[1..];
      assert TextsOf(chunks) == {chunks[0].text} + TextsOf(chunks[1..]);
    }
  }

  function NewManifest(id: Identity, contract: Contract, provenance: Provenance): Manifest {
    Manifest(id, provenance, Building, contract, map[], 0, 0, None)
  }

  lemma {:induction false} ShardMembers(chunks: seq<Chunk>, size: nat, k: nat)
    requires size > 0 && k < |Shards(chunks, size)|
    ensures forall j :: 0 <= j < |Shards(chunks, size)[k]| ==> Shards(chunks, size)[k][j] in chunks
  {
    if |chunks| > size && k > 0 {
      ShardMembers(chunks[size..], size, k - 1);
    }
  }

  /** Fixing the dimension at the first vector of the shard at hand. */
  lemma DimensionIsSound(env: Surroundings, g: GenerationId, m: Manifest, index: ReuseIndex, i: nat)
    requires SoundManifest(env, g, m) && i < m.identity.ShardTotal()
    requires m.identity.dimension.None? ==> index == map[]
    requires var chunks := Shards(m.identity.chunks, m.identity.shardSize)[i];
             ValidVectors(ChosenVectors(env, m.identity.model, index, chunks), |chunks|, m.contract.dimension)
    ensures var chunks := Shards(m.identity.chunks, m.identity.shardSize)[i];
            var d := |ChosenVectors(env, m.identity.model, index, chunks)[0]|;
            && SoundManifest(env, g, m.(contract := m.contract.(dimension := Some(d))))
            && (m.contract.dimension.None? || m.contract.dimension == Some(d))
            && (m.identity.dimension.None? ==> exists t :: t in TextsOf(m.identity.chunks) && |env.embed(m.identity.model, t)| == d)
  {
    var chunks := Shards(m.identity.chunks, m.identity.shardSize)[i];
    ShardMembers(m.identity.chunks, m.identity.shardSize, i);
    assert chunks[0] in m.identity.chunks;
    assert chunks[0].text in TextsOf(m.identity.chunks);
    if m.identity.dimension.None? {
      assert ChosenVectors(env, m.identity.model, index, chunks)[0] == env.embed(m.identity.model, chunks[0].text);
    }
  }

  /** The manifest after one more shard, whose vectors were validated twice, is sound. */
  lemma BuiltIsSound(env: Surroundings, contract: Contract, g: GenerationId, m: Manifest, index: ReuseIndex, i: nat,
                     origins: seq<Option<Origin>>)
    requires Lawful(env) && SoundManifest(env, g, m) && i < m.identity.ShardTotal() && contract.model == m.identity.model
    requires FaithfulIndex(env, contract, g, index)
    requires var chunks := Shards(m.identity.chunks, m.identity.shardSize)[i];
             var raw := ChosenVectors(env, m.identity.model, index, chunks);
             && |origins| == |chunks|
             && ValidVectors(Float32All(env, raw), |chunks|, m.identity.dimension)
             && m.contract.dimension == Some(|raw[0]|)
             && (m.identity.dimension.None? ==> exists t :: t in TextsOf(m.identity.chunks) && |env.embed(m.identity.model, t)| == |raw[0]|)
    ensures var chunks := Shards(m.identity.chunks, m.identity.shardSize)[i];
            var stored := Float32All(env, ChosenVectors(env, m.identity.model, index, chunks));
            SoundManifest(env, g, WithShard(m, i, ShardRecord(env, i, chunks, stored, origins)))
  {
    var chunks := Shards(m.identity.chunks, m.identity.shardSize)[i];
    var raw := ChosenVectors(env, m.identity.model, index, chunks);
    ReuseIsInvisible(env, contract, g, index, chunks);
    RecordIsSound(env, m.identity, m.provenance, i, raw, origins);
    WithShardIsSound(env, g, m, i, ShardRecord(env, i, chunks, Float32All(env, raw), origins));
  }

  function ReusedTexts(id: Identity, index: ReuseIndex, pending: seq<nat>): set<string>
    requires id.Valid() && forall k :: 0 <= k < |pending| ==> pending[k] < id.ShardTotal()
  {
    if |pending| == 0 then {}
    else
      assert pending[0] < id.ShardTotal();
      assert id.ShardTotal() == |Shards(id.chunks, id.shardSize)|;
      var part := Shards(id.chunks, id.shardSize)[pending[0]];
      (set t | t in TextsOf(part) && t in index) + ReusedTexts(id, index, pending[1..])
  }

  /** At most two distinct texts, at least one. The source takes those with the lowest digests. */
  method Probe(texts: set<string>) returns (probe: seq<string>)
    requires texts != {}
    ensures 0 < |probe| <= CANARY_SIZE && (forall t :: t in probe ==> t in texts)
    ensures |probe| < CANARY_SIZE ==> forall t :: t in texts ==> t in probe
  {
    probe := [];
    var left := texts;
    while |probe| < CANARY_SIZE && left != {}
      invariant |probe| <= CANARY_SIZE && left <= texts
      invariant forall t :: t in texts ==> t in left || t in probe
      invariant forall t :: t in probe ==> t in texts
      invariant probe == [] ==> left == texts
      decreases left
    {
      var t :| t in left;
      probe, left := probe + [t], left - {t};
    }
  }

  lemma {:induction false} ReusedTextsKnown(id: Identity, index: ReuseIndex, pending: seq<nat>)
    requires id.Valid() && forall k :: 0 <= k < |pending| ==> pending[k] < id.ShardTotal()
    ensures forall t :: t in ReusedTexts(id, index, pending) ==> t in index && t in TextsOf(id.chunks)
  {
    if pending != [] {
      var part := Shards(id.chunks, id.shardSize)[pending[0]];
      ShardMembers(id.chunks, id.shardSize, pending[0]);
      forall t | t in TextsOf(part)
        ensures t in TextsOf(id.chunks)
      {
        var j :| 0 <= j < |part| && part[j].text == t;
        assert part[j] in id.chunks;
      }
      ReusedTextsKnown(id, index, pending[1..]);
    }
  }

  lemma TextsAreWellBehaved(env: Surroundings, id: Identity, index: ReuseIndex, pending: seq<nat>, probe: seq<string>)
    requires id.Valid() && forall k :: 0 <= k < |pending| ==> pending[k] < id.ShardTotal()
    requires forall t :: t in probe ==> t in ReusedTexts(id, index, pending)
    ensures forall t :: t in probe ==> t in index
    ensures WellBehaved(env, id) ==> ValidVectors(RawVectors(env, id.model, probe), |probe|, id.dimension)
  {
    ReusedTextsKnown(id, index, pending);
    if WellBehaved(env, id) {
      var raw := RawVectors(env, id.model, ChunkTexts(id.chunks));
      forall j | 0 <= j < |probe|
        ensures |RawVectors(env, id.model, probe)[j]| == |raw[0]| && UnitLength(RawVectors(env, id.model, probe)[j])
      {
        assert probe[j] in probe;
        var k :| 0 <= k < |id.chunks| && id.chunks[k].text == probe[j];
        assert raw[k] == env.embed(id.model, probe[j]);
      }
    }
  }

  /** The least cosine over the probe reaches the threshold. */
  predicate CanaryVerdict(env: Surroundings, index: ReuseIndex, probe: seq<string>, vectors: seq<Vector>)
    requires |probe| == |vectors| && forall t :: t in probe ==> t in index
  {
    probe == []
    || (&& probe[0] in probe
        && Cosine(env, Float32(env, vectors[0]), index[probe[0]].vector) >= CANARY_MIN_COSINE
        && CanaryVerdict(env, index, probe[1..], vectors[1..]))
  }

  /** The verdict is that no probed text's vector is further off than the threshold. */
  lemma {:induction false} VerdictIsLeastCosine(env: Surroundings, index: ReuseIndex, probe: seq<string>, vectors: seq<Vector>)
    requires |probe| == |vectors| && forall t :: t in probe ==> t in index
    ensures CanaryVerdict(env, index, probe, vectors)
      <==> forall k :: 0 <= k < |probe| ==> probe[k] in index && Cosine(env, Float32(env, vectors[k]), index[probe[k]].vector) >= 0.9999
  {
    if probe != [] {
      assert probe[0] in probe;
      VerdictIsLeastCosine(env, index, probe[1..], vectors[1..]);
      forall k | 0 <= k < |probe| && CanaryVerdict(env, index, probe, vectors)
        ensures Cosine(env, Float32(env, vectors[k]), index[probe[k]].vector) >= 0.9999
      {
        if k > 0 {
          assert probe[1..][k - 1] == probe[k] && vectors[1..][k - 1] == vectors[k];
        }
      }
      forall k | 0 <= k < |probe[1..]|
        ensures probe[1..][k] == probe[k + 1] && vectors[1..][k] == vectors[k + 1]
      {
      }
    }
  }

  lemma ResavedIntact(disk: Disk, g: GenerationId, m: Manifest)
    requires RecordedShards(disk, g) == m.shards
    ensures IntactAt(Saved(disk, g, m), g) == IntactAt(disk, g)
  {
  }

  lemma {:induction false} CanaryPasses(env: Surroundings, contract: Contract, g: GenerationId, index: ReuseIndex, probe: seq<string>,
              vectors: seq<Vector>)
    requires Lawful(env) && FaithfulIndex(env, contract, g, index)
    requires forall t :: t in probe ==> t in index
    requires vectors == RawVectors(env, contract.model, probe)
    ensures CanaryVerdict(env, index, probe, vectors)
  {
    if probe != [] {
      assert probe[0] in probe;
      CosineWithItself(env, index[probe[0]].vector);
      CanaryPasses(env, contract, g, index, probe[1..], vectors[1..]);
    }
  }

  // ----- a complete generation

  function Below(n: nat): (r: set<nat>)
    ensures forall i: nat :: i in r <==> i < n
    ensures |r| == n
  {
    if n == 0 then {} else Below(n - 1) + {n - 1}
  }

  lemma RecordedCount(env: Surroundings, g: GenerationId, m: Manifest, i: nat)
    requires SoundManifest(env, g, m) && i in m.shards
    ensures i < m.identity.ShardTotal() && m.shards[i].chunkCount == |Shards(m.identity.chunks, m.identity.shardSize)[i]|
  {
    assert SoundShard(env, m.identity, m.provenance, m.shards[i]);
  }

  lemma {:induction false} CountCovers(shards: map<nat, ShardManifest>, parts: seq<seq<Chunk>>, n: nat)
    requires n <= |parts|
    requires forall i :: 0 <= i < n ==> i in shards && shards[i].chunkCount == |parts[i]|
    ensures CountBelow(shards, n) == |Flatten(parts[..n])|
  {
    if n > 0 {
      CountCovers(shards, parts, n - 1);
      assert parts[..n] == parts[..n - 1] + [parts[n - 1]];
      FlattenAppend(parts[..n - 1], parts[n - 1]);
    }
  }

  lemma RecordedIndices(env: Surroundings, g: GenerationId, m: Manifest)
    requires SoundManifest(env, g, m) && Below(m.identity.ShardTotal()) <= m.shards.Keys
    ensures m.shards.Keys == Below(m.identity.ShardTotal())
  {
    forall i | i in m.shards.Keys
      ensures i in Below(m.identity.ShardTotal())
    {
      RecordedCount(env, g, m, i);
    }
  }

  lemma RecordedSizes(env: Surroundings, g: GenerationId, m: Manifest, n: nat)
    requires SoundManifest(env, g, m) && n <= m.identity.ShardTotal() && Below(n) <= m.shards.Keys
    ensures CountBelow(m.shards, n) == |Flatten(Shards(m.identity.chunks, m.identity.shardSize)[..n])|
  {
    var parts := Shards(m.identity.chunks, m.identity.shardSize);
    forall i | 0 <= i < n
      ensures i in m.shards && m.shards[i].chunkCount == |parts[i]|
    {
      assert i in Below(n);
      RecordedCount(env, g, m, i);
    }
    CountCovers(m.shards, parts, n);
  }

  /** With every shard on record the three counts a load compares agree. */
  lemma CompleteCounts(env: Surroundings, g: GenerationId, m: Manifest)
    requires SoundManifest(env, g, m) && Below(m.identity.ShardTotal()) <= m.shards.Keys
    ensures |m.shards| == CeilDiv(|m.identity.chunks|, m.identity.shardSize)
    ensures m.completedCount == |m.identity.chunks|
  {
    RecordedIndices(env, g, m);
    assert |m.shards| == |m.shards.Keys|;
    ShardCount(m.identity.chunks, m.identity.shardSize);
    RecordedSizes(env, g, m, m.identity.ShardTotal());
    AllShards(m.identity.chunks, m.identity.shardSize);
  }

  lemma AllShards(chunks: seq<Chunk>, size: nat)
    requires size > 0
    ensures Flatten(Shards(chunks, size)[..|Shards(chunks, size)|]) == chunks
  {
    assert Shards(chunks, size)[..|Shards(chunks, size)|] == Shards(chunks, size);
    ShardsCover(chunks, size);
  }

  /** What a load has gathered from the first `n` shards. */
  ghost predicate Gathered(env: Surroundings, m: Manifest, n: nat, entries: seq<Entry>)
    requires m.identity.Valid() && n <= m.identity.ShardTotal()
  {
    var chunks := Flatten(Shards(m.identity.chunks, m.identity.shardSize)[..n]);
    && ChunksOf(entries) == chunks
    && Sized(entries, m.contract.dimension)
    && (m.provenance.Embedded? ==> VectorsOf(entries) == ReferenceVectors(env, m.identity.model, chunks))
  }

  ghost predicate Sized(entries: seq<Entry>, dimension: Option<nat>) {
    forall i :: 0 <= i < |entries| ==>
      UnitLength(entries[i].vector) && entries[i].vector != [] && dimension == Some(|entries[i].vector|)
  }

  lemma SoundShardIsSized(env: Surroundings, g: GenerationId, m: Manifest, n: nat)
    requires SoundManifest(env, g, m) && n in m.shards
    ensures Sized(EntriesOf(Vouched(m.shards[n])), m.contract.dimension)
  {
    var more := EntriesOf(Vouched(m.shards[n]));
    assert SoundShard(env, m.identity, m.provenance, m.shards[n]);
    assert forall i :: 0 <= i < |more| ==> VectorsOf(more)[i] == more[i].vector;
  }

  lemma GatherOne(env: Surroundings, g: GenerationId, m: Manifest, n: nat, entries: seq<Entry>)
    requires SoundManifest(env, g, m) && n < m.identity.ShardTotal() && n in m.shards
    requires Gathered(env, m, n, entries)
    ensures Gathered(env, m, n + 1, entries + EntriesOf(Vouched(m.shards[n])))
  {
    var parts := Shards(m.identity.chunks, m.identity.shardSize);
    var more := EntriesOf(Vouched(m.shards[n]));
    SoundShardIsSized(env, g, m, n);
    assert SoundShard(env, m.identity, m.provenance, m.shards[n]);
    assert parts[..n + 1] == parts[..n] + [parts[n]];
    FlattenAppend(parts[..n], parts[n]);
    AppendEntries(entries, more);
    ReferenceAppend(env, m.identity.model, Flatten(parts[..n]), parts[n]);
  }

  lemma AppendEntries(a: seq<Entry>, b: seq<Entry>)
    ensures ChunksOf(a + b) == ChunksOf(a) + ChunksOf(b)
    ensures VectorsOf(a + b) == VectorsOf(a) + VectorsOf(b)
  {
  }

  lemma ReferenceAppend(env: Surroundings, model: string, a: seq<Chunk>, b: seq<Chunk>)
    ensures ReferenceVectors(env, model, a + b) == ReferenceVectors(env, model, a) + ReferenceVectors(env, model, b)
  {
  }

  /** A full load is the corpus in order with vectors that pass validation. */
  lemma GatheredAll(env: Surroundings, g: GenerationId, m: Manifest, entries: seq<Entry>)
    requires SoundManifest(env, g, m) && Gathered(env, m, m.identity.ShardTotal(), entries)
    ensures ValidVectors(VectorsOf(entries), |m.identity.chunks|, m.contract.dimension)
    ensures VectorsForChunks(m.identity.chunks, entries, m.contract.dimension) == Some(VectorsOf(entries))
    ensures m.provenance.Embedded? ==> VectorsOf(entries) == ReferenceVectors(env, m.identity.model, m.identity.chunks)
  {
    var parts := Shards(m.identity.chunks, m.identity.shardSize);
    assert parts[..|parts|] == parts;
    ShardsCover(m.identity.chunks, m.identity.shardSize);
    InOrderVectors(m.identity.chunks, entries, m.contract.dimension);
  }

  /** What the first `n` shard entries vouch for. */
  function VouchedBelow(shards: map<nat, ShardManifest>, n: nat): seq<Entry> {
    if n == 0 then [] else VouchedBelow(shards, n - 1) + (if n - 1 in shards then EntriesOf(Vouched(shards[n - 1])) else [])
  }

  lemma {:induction false} FilesAreVouched(d: Directory, n: nat)
    requires d.manifest.Some? && Below(n) <= Intact(d)
    ensures FilesBelow(d.artifacts, n) == VouchedBelow(d.manifest.value.shards, n) && Below(n) <= d.manifest.value.shards.Keys
    decreases n
  {
    if n > 0 {
      BelowLess(n, Intact(d));
      FilesAreVouched(d, n - 1);
    }
  }

  lemma BelowLess(n: nat, s: set<nat>)
    requires n > 0 && Below(n) <= s
    ensures n - 1 in s && Below(n - 1) <= s
  {
    assert n - 1 in Below(n) && forall i :: i in Below(n - 1) ==> i in Below(n);
  }

  lemma {:induction false} VouchedGathered(env: Surroundings, g: GenerationId, m: Manifest, n: nat)
    requires SoundManifest(env, g, m) && n <= m.identity.ShardTotal() && Below(n) <= m.shards.Keys
    ensures Gathered(env, m, n, VouchedBelow(m.shards, n))
    decreases n
  {
    if n > 0 {
      BelowLess(n, m.shards.Keys);
      VouchedGathered(env, g, m, n - 1);
      GatherOne(env, g, m, n - 1, VouchedBelow(m.shards, n - 1));
    } else {
      NothingGathered(env, m);
    }
  }

  /** What the intact files of a generation hold is what its manifest vouches for. */
  lemma FilesGathered(env: Surroundings, g: GenerationId, d: Directory, m: Manifest, n: nat)
    requires d.manifest == Some(m) && SoundManifest(env, g, m) && n <= m.identity.ShardTotal() && Below(n) <= Intact(d)
    ensures Gathered(env, m, n, FilesBelow(d.artifacts, n))
  {
    FilesAreVouched(d, n);
    VouchedGathered(env, g, m, n);
  }

  lemma NothingGathered(env: Surroundings, m: Manifest)
    requires m.identity.Valid()
    ensures Gathered(env, m, 0, [])
  {
    assert Shards(m.identity.chunks, m.identity.shardSize)[..0] == [];
  }

  // ----- a generation that is ready

  /** What the store exports is complete, valid and as these vectors up to the tolerance. */
  ghost predicate Served(env: Surroundings, id: Identity, dimension: Option<nat>, entries: seq<Entry>, vectors: seq<Vector>) {
    var found := VectorsForChunks(id.chunks, entries, dimension);
    found.Some? && PersistedMatch(env, vectors, found.value)
  }

  /** The disk shows the generation as ACTIVE with every shard file as recorded, and the store serves what they hold. */
  ghost predicate Ready(env: Surroundings, disk: Disk, store: map<Slot, seq<Entry>>, g: GenerationId) {
    && g in disk && disk[g].manifest.Some?
    && var m := disk[g].manifest.value;
       && Readable(m) && m.status.Active? && Below(g.of.ShardTotal()) <= Intact(disk[g])
       && Served(env, g.of, m.contract.dimension, StoredEntries(store, g.of.Slot()), VectorsOf(FilesBelow(disk[g].artifacts, g.of.ShardTotal())))
  }

  /** A manifest saved as ACTIVE behind a comparison with what the files hold is ready exactly when it can be read. */
  lemma ReadyWhenReadable(env: Surroundings, disk: Disk, store: map<Slot, seq<Entry>>, g: GenerationId, m: Manifest, vectors: seq<Vector>)
    requires g in disk && disk[g].manifest == Some(m) && m.status.Active? && Below(g.of.ShardTotal()) <= IntactAt(disk, g)
    requires g.of.Slot() in store && PersistedMatchesFiles(env, disk[g].artifacts, g.of, vectors)
    requires Served(env, g.of, m.contract.dimension, store[g.of.Slot()], vectors)
    ensures Ready(env, disk, store, g) <==> Readable(m)
  {
  }

  /** Vectors that compare with the store's as those on file do. */
  ghost predicate PersistedMatchesFiles(env: Surroundings, artifacts: map<nat, File>, id: Identity, vectors: seq<Vector>) {
    forall persisted :: PersistedMatch(env, VectorsOf(FilesBelow(artifacts, id.ShardTotal())), persisted) <==> PersistedMatch(env, vectors, persisted)
  }

  /** Comparing with converted vectors is comparing with the vectors. */
  lemma ConvertedMatch(env: Surroundings, vectors: seq<Vector>, persisted: seq<Vector>)
    requires Lawful(env)
    ensures PersistedMatch(env, Float32All(env, vectors), persisted) <==> PersistedMatch(env, vectors, persisted)
  {
    Float32Twice(env, vectors);
    forall i | 0 <= i < |vectors|
      ensures Float32(env, Float32All(env, vectors)[i]) == Float32(env, vectors[i])
    {
      assert Float32All(env, Float32All(env, vectors))[i] == Float32All(env, vectors)[i];
    }
  }

  lemma ConvertedVectorsMatch(env: Surroundings, artifacts: map<nat, File>, id: Identity, vectors: seq<Vector>)
    requires Lawful(env) && VectorsOf(FilesBelow(artifacts, id.ShardTotal())) == Float32All(env, vectors)
    ensures PersistedMatchesFiles(env, artifacts, id, vectors)
  {
    forall persisted
      ensures PersistedMatch(env, Float32All(env, vectors), persisted) <==> PersistedMatch(env, vectors, persisted)
    {
      ConvertedMatch(env, vectors, persisted);
    }
  }

  ghost predicate OnlySlot<V>(before: map<Slot, V>, after: map<Slot, V>, slot: Slot) {
    before - {slot} == after - {slot}
  }

  /** An import read back from the store. */
  lemma ExportedVectors(id: Identity, vectors: seq<Vector>, dimension: Option<nat>)
    requires id.Valid() && |vectors| == |id.chunks|
    ensures VectorsForChunks(id.chunks, Pair(id.chunks, vectors), dimension)
         == if ValidVectors(vectors, |id.chunks|, dimension) then Some(vectors) else None
    ensures ChunksOf(Pair(id.chunks, vectors)) == id.chunks && VectorsOf(Pair(id.chunks, vectors)) == vectors
  {
    assert ChunksOf(Pair(id.chunks, vectors)) == id.chunks;
    assert VectorsOf(Pair(id.chunks, vectors)) == vectors;
    InOrderVectors(id.chunks, Pair(id.chunks, vectors), dimension);
  }

  /** What the store of a well-behaved machine gives back passes the same validation. */
  lemma PersistedAreValid(env: Surroundings, g: GenerationId, m: Manifest)
    requires SoundManifest(env, g, m) && WellBehaved(env, m.identity) && FaithfulStore(env, m.identity)
    requires ValidVectors(ReferenceVectors(env, m.identity.model, m.identity.chunks), |m.identity.chunks|, m.contract.dimension)
    ensures ValidVectors(Persisted(env, ReferenceVectors(env, m.identity.model, m.identity.chunks)), |m.identity.chunks|, m.contract.dimension)
  {
    var reference := ReferenceVectors(env, m.identity.model, m.identity.chunks);
    assert forall i :: 0 <= i < |reference| ==> |Persisted(env, reference)[i]| == |reference[i]|;
  }

  lemma NewManifestIsSound(env: Surroundings, id: Identity, contract: Contract, provenance: Provenance)
    requires id.Valid() && contract.model == id.model && contract.dimension == id.dimension
    ensures SoundManifest(env, Sha256(id), NewManifest(id, contract, provenance))
  {
    EmptyCounts(id.ShardTotal());
  }

  lemma {:induction false} EmptyCounts(n: nat)
    ensures CountBelow(map[], n) == 0 && ReusedBelow(map[], n) == 0
  {
    if n > 0 {
      EmptyCounts(n - 1);
    }
  }

  /** A manifest that the program wrote and refuses to read back. */
  ghost predicate Locked(disk: Disk, g: GenerationId) {
    g in disk && disk[g].manifest.Some? && !Readable(disk[g].manifest.value)
  }

  function StartingProvenance(disk: Disk, g: GenerationId, force: bool): Provenance {
    var existing := DirectoryAt(disk, g).manifest;
    if force || existing.None? then Embedded else existing.value.provenance
  }

  /** The indices below `n` outside a set, in order. */
  function Outstanding(intact: set<nat>, n: nat): (r: seq<nat>)
    ensures forall k :: 0 <= k < |r| ==> r[k] < n && r[k] !in intact
    ensures Awaits(intact, n, r)
  {
    if n == 0 then []
    else
      var rest := Outstanding(intact, n - 1);
      if n - 1 in intact then rest else AwaitsOneMore(intact, n, rest); rest + [n - 1]
  }

  /** Exactly these indices, each once, are missing from a set. */
  ghost predicate Awaits(intact: set<nat>, n: nat, waiting: seq<nat>) {
    && (forall i: nat :: i < n ==> i in intact || i in waiting)
    && (forall k :: 0 <= k < |waiting| ==> waiting[k] < n && waiting[k] !in intact)
    && (forall j, k :: 0 <= j < k < |waiting| ==> waiting[j] != waiting[k])
  }

  lemma AwaitsOneMore(intact: set<nat>, n: nat, rest: seq<nat>)
    requires n > 0 && n - 1 !in intact && Awaits(intact, n - 1, rest)
    ensures Awaits(intact, n, rest + [n - 1])
  {
    forall i: nat | i < n && i !in intact
      ensures i in rest + [n - 1]
    {
      assert i < n - 1 ==> i in rest;
    }
  }

  lemma NextAwaits(intact: set<nat>, n: nat, pending: seq<nat>, k: nat)
    requires k < |pending| && Awaits(intact, n, pending[k..])
    ensures pending[k] < n && pending[k] !in intact
    ensures Awaits(intact + {pending[k]}, n, pending[k + 1..])
  {
    var waiting := pending[k..];
    assert waiting[0] == pending[k] && pending[k + 1..] == waiting[1..];
    assert waiting == [waiting[0]] + waiting[1..];
  }

  function RecordedShards(disk: Disk, g: GenerationId): map<nat, ShardManifest> {
    var existing := DirectoryAt(disk, g).manifest;
    if existing.None? then map[] else existing.value.shards
  }

  // ----- how much a build reuses

  /** Chunks whose text is among those offered for reuse. */
  function HitCount(chunks: seq<Chunk>, texts: set<string>): nat {
    if chunks == [] then 0 else (if chunks[0].text in texts then 1 else 0) + HitCount(chunks[1..], texts)
  }

  lemma {:induction false} OriginsCountHits(index: ReuseIndex, chunks: seq<Chunk>)
    ensures Present(ChosenOrigins(index, chunks)) == HitCount(chunks, index.Keys)
  {
    if chunks != [] {
      OriginsCountHits(index, chunks[1..]);
      assert ChosenOrigins(index, chunks)[1..] == ChosenOrigins(index, chunks[1..]);
    }
  }

  /** The first `n` rebuilt shards reused exactly the texts on offer. */
  ghost predicate ReuseRecorded(id: Identity, shards: map<nat, ShardManifest>, rebuilt: seq<nat>, n: nat, texts: set<string>)
    requires id.Valid() && n <= |rebuilt|
  {
    forall k :: 0 <= k < n ==>
      rebuilt[k] < id.ShardTotal() && rebuilt[k] in shards
      && shards[rebuilt[k]].reusedCount == HitCount(Shards(id.chunks, id.shardSize)[rebuilt[k]], texts)
  }

  lemma RecordOneMore(id: Identity, start: map<nat, ShardManifest>, shards: map<nat, ShardManifest>, rebuilt: seq<nat>, n: nat,
                      s: ShardManifest, texts: set<string>)
    requires id.Valid() && n < |rebuilt| && rebuilt[n] < id.ShardTotal()
    requires forall j, k :: 0 <= j < k < |rebuilt| ==> rebuilt[j] != rebuilt[k]
    requires ReuseRecorded(id, shards, rebuilt, n, texts) && Kept(start, shards, rebuilt)
    requires s.reusedCount == HitCount(Shards(id.chunks, id.shardSize)[rebuilt[n]], texts)
    ensures ReuseRecorded(id, shards[rebuilt[n] := s], rebuilt, n + 1, texts) && Kept(start, shards[rebuilt[n] := s], rebuilt)
  {
    assert rebuilt[n] in rebuilt;
  }

  /** Shards that were not rebuilt keep their entries. */
  ghost predicate Kept(before: map<nat, ShardManifest>, after: map<nat, ShardManifest>, rebuilt: seq<nat>) {
    forall i :: i in before && i !in rebuilt ==> i in after && after[i] == before[i]
  }

  lemma {:induction false} ReusedBelowPositive(shards: map<nat, ShardManifest>, n: nat)
    ensures ReusedBelow(shards, n) > 0 <==> exists i :: 0 <= i < n && i in shards && shards[i].reusedCount > 0
  {
    if n > 0 {
      ReusedBelowPositive(shards, n - 1);
    }
  }

  /** A build never counts its own generation among the sources, so its writes do not change them. */
  lemma {:induction false} SourcesAreElsewhere(env: Surroundings, before: Disk, after: Disk, g: GenerationId, listing: seq<GenerationId>,
              contract: Contract)
    requires SoundDisk(env, before) && SoundDisk(env, after) && OnlyAt(before, after, g)
    ensures ReusableTexts(env, before, listing, contract, g) == ReusableTexts(env, after, listing, contract, g)
  {
    if listing != [] {
      SourcesAreElsewhere(env, before, after, g, listing[..|listing| - 1], contract);
      SourceIsElsewhere(env, before, after, g, listing[|listing| - 1], contract);
    }
  }

  lemma SourceIsElsewhere(env: Surroundings, before: Disk, after: Disk, g: GenerationId, k: GenerationId, contract: Contract)
    requires SoundDisk(env, before) && SoundDisk(env, after) && OnlyAt(before, after, g)
    ensures (if k in before then DirectoryTexts(env, before[k], contract, g) else {})
         == (if k in after then DirectoryTexts(env, after[k], contract, g) else {})
  {
    if k == g {
      NotItsOwnSource(env, before, g, contract);
      NotItsOwnSource(env, after, g, contract);
    } else {
      assert k in before <==> k in before - {g};
      assert k in after <==> k in after - {g};
    }
  }

  lemma NotItsOwnSource(env: Surroundings, disk: Disk, g: GenerationId, contract: Contract)
    requires SoundDisk(env, disk)
    ensures g in disk ==> DirectoryTexts(env, disk[g], contract, g) == {}
  {
    if g in disk && disk[g].manifest.Some? {
      assert SoundManifest(env, g, disk[g].manifest.value);
    }
  }

  /** The texts a run may take over: none when reuse is off or no dimension is pinned. */
  function OnOffer(env: Surroundings, disk: Disk, reuse: bool, listing: seq<GenerationId>, contract: Contract, g: GenerationId): set<string> {
    if reuse && contract.dimension.Some? then ReusableTexts(env, disk, listing, contract, g) else {}
  }

  /** Some shard that has to be rebuilt contains a text on offer. */
  ghost predicate WouldReuse(id: Identity, intact: set<nat>, texts: set<string>)
    requires id.Valid()
  {
    exists i: nat :: i < id.ShardTotal() && i !in intact && HitCount(Shards(id.chunks, id.shardSize)[i], texts) > 0
  }

  /** A rebuilt adopted generation reads back exactly when the rebuild reused nothing. */
  lemma AdoptedAfterRebuild(env: Surroundings, g: GenerationId, start: Manifest, m: Manifest, intact: set<nat>, texts: set<string>)
    requires SoundManifest(env, g, start) && SoundManifest(env, g, m)
    requires start.provenance.Adopted? && m.provenance.Adopted? && Readable(start)
    requires intact <= start.shards.Keys && m.identity == start.identity
    requires Kept(start.shards, m.shards, Outstanding(intact, m.identity.ShardTotal()))
    requires ReuseRecorded(m.identity, m.shards, Outstanding(intact, m.identity.ShardTotal()), |Outstanding(intact, m.identity.ShardTotal())|, texts)
    ensures Readable(m) <==> !WouldReuse(m.identity, intact, texts)
  {
    var id := m.identity;
    var total := id.ShardTotal();
    var rebuilt := Outstanding(intact, total);
    ReusedBelowPositive(m.shards, total);
    ReusedBelowPositive(start.shards, total);
    forall i: nat | i < total && i in m.shards
      ensures m.shards[i].reusedCount == if i in intact then 0 else HitCount(Shards(id.chunks, id.shardSize)[i], texts)
    {
      if i in intact {
        assert i !in rebuilt;
      } else {
        assert i in rebuilt;
        var k :| 0 <= k < |rebuilt| && rebuilt[k] == i;
      }
    }
    if WouldReuse(id, intact, texts) {
      var i: nat :| i < total && i !in intact && HitCount(Shards(id.chunks, id.shardSize)[i], texts) > 0;
      assert i in rebuilt;
      var k :| 0 <= k < |rebuilt| && rebuilt[k] == i;
      assert i in m.shards;
    }
  }

  /** What a build did to the shards: kept the intact ones, rebuilt the rest, reused all it could. */
  ghost predicate Rebuilt(id: Identity, after: map<nat, ShardManifest>, before: map<nat, ShardManifest>, intact: set<nat>, texts: set<string>)
    requires id.Valid()
  {
    var rebuilt := Outstanding(intact, id.ShardTotal());
    ReuseRecorded(id, after, rebuilt, |rebuilt|, texts) && Kept(before, after, rebuilt)
  }

  // ----- adoption

  function NoOrigins(n: nat): (r: seq<Option<Origin>>)
    ensures |r| == n && Present(r) == 0
  {
    if n == 0 then [] else [None] + NoOrigins(n - 1)
  }

  /** The raw vectors not yet written match the shards not yet written. */
  ghost predicate Remaining(parts: seq<seq<Chunk>>, i: nat, rest: seq<Vector>, dimension: nat)
    requires i <= |parts|
  {
    && |rest| == |Flatten(parts[i..])|
    && forall k :: 0 <= k < |rest| ==> Proper(rest[k], dimension)
  }

  lemma RemainingStep(parts: seq<seq<Chunk>>, i: nat, rest: seq<Vector>, dimension: nat)
    requires i < |parts| && Remaining(parts, i, rest, dimension)
    ensures |parts[i]| <= |rest| && Remaining(parts, i + 1, rest[|parts[i]|..], dimension)
    ensures ValidVectors(rest[..|parts[i]|], |parts[i]|, Some(dimension))
  {
    assert parts[i..][1..] == parts[i + 1..];
    var head := rest[..|parts[i]|];
    forall k | 0 <= k < |head|
      ensures Proper(head[k], dimension)
    {
      assert head[k] == rest[k];
    }
    EachValid(head, dimension);
  }

  /** The first `n` shard files are the ones their entries name. */
  ghost predicate OnFile(files: map<nat, File>, shards: map<nat, ShardManifest>, n: nat) {
    forall k: nat :: k < n ==> k in files && k in shards && files[k] == shards[k].artifactSha.of
  }

  lemma OnFileIsIntact(d: Directory, n: nat)
    requires d.manifest.Some? && OnFile(d.artifacts, d.manifest.value.shards, n)
    ensures Below(n) <= Intact(d)
  {
  }

  lemma {:induction false} LaterFileLeavesEarlier(files: map<nat, File>, i: nat, file: File, n: nat)
    requires n <= i
    ensures FilesBelow(files[i := file], n) == FilesBelow(files, n)
  {
    if n > 0 {
      LaterFileLeavesEarlier(files, i, file, n - 1);
    }
  }

  /** One adopted shard written behind those before it. */
  lemma OneMoreOnFile(env: Surroundings, files: map<nat, File>, i: nat, chunks: seq<Chunk>, earlier: seq<Vector>, raw: seq<Vector>)
    requires |raw| == |chunks| && VectorsOf(FilesBelow(files, i)) == Float32All(env, earlier)
    ensures var file := ShardFile(chunks, Float32All(env, raw), NoOrigins(|chunks|));
            VectorsOf(FilesBelow(files[i := file], i + 1)) == Float32All(env, earlier + raw)
  {
    var stored := Float32All(env, raw);
    var file := ShardFile(chunks, stored, NoOrigins(|chunks|));
    LaterFileLeavesEarlier(files, i, file, i);
    RoundTripRecords(chunks, stored, NoOrigins(|chunks|));
    AppendEntries(FilesBelow(files, i), FileEntries(files[i := file], i));
    assert Float32All(env, earlier + raw) == Float32All(env, earlier) + stored;
  }

  /** The shards adopted so far are on file and hold the vectors in front of the rest. */
  ghost predicate AdoptedSoFar(env: Surroundings, files: map<nat, File>, shards: map<nat, ShardManifest>, i: nat, vectors: seq<Vector>,
              rest: seq<Vector>) {
    && OnFile(files, shards, i)
    && |rest| <= |vectors| && rest == vectors[|vectors| - |rest|..]
    && VectorsOf(FilesBelow(files, i)) == Float32All(env, vectors[..|vectors| - |rest|])
  }

  /** What the adoption of one shard does to the files and the entries. */
  ghost predicate AdoptsOne(env: Surroundings, files: map<nat, File>, shards: map<nat, ShardManifest>, i: nat, chunks: seq<Chunk>, raw: seq<Vector>,
                            filesAfter: map<nat, File>, shardsAfter: map<nat, ShardManifest>)
    requires |raw| == |chunks|
  {
    var file := ShardFile(chunks, Float32All(env, raw), NoOrigins(|chunks|));
    && filesAfter == files[i := file]
    && i in shardsAfter && shardsAfter == shards[i := shardsAfter[i]] && shardsAfter[i].artifactSha == Sha256(file)
  }

  lemma AdoptedOneMore(env: Surroundings, files: map<nat, File>, shards: map<nat, ShardManifest>, i: nat, chunks: seq<Chunk>, vectors: seq<Vector>,
                       rest: seq<Vector>, filesAfter: map<nat, File>, shardsAfter: map<nat, ShardManifest>)
    requires AdoptedSoFar(env, files, shards, i, vectors, rest) && |chunks| <= |rest|
    requires AdoptsOne(env, files, shards, i, chunks, rest[..|chunks|], filesAfter, shardsAfter)
    ensures AdoptedSoFar(env, filesAfter, shardsAfter, i + 1, vectors, rest[|chunks|..])
  {
    var earlier := vectors[..|vectors| - |rest|];
    OneMoreOnFile(env, files, i, chunks, earlier, rest[..|chunks|]);
    assert earlier + rest[..|chunks|] == vectors[..|vectors| - |rest[|chunks|..]|];
  }

  lemma AdoptedAll(env: Surroundings, files: map<nat, File>, shards: map<nat, ShardManifest>, parts: seq<seq<Chunk>>, vectors: seq<Vector>,
                   rest: seq<Vector>, dimension: nat)
    requires AdoptedSoFar(env, files, shards, |parts|, vectors, rest) && Remaining(parts, |parts|, rest, dimension)
    ensures OnFile(files, shards, |parts|) && VectorsOf(FilesBelow(files, |parts|)) == Float32All(env, vectors)
  {
    assert parts[|parts|..] == [] && vectors[..|vectors|] == vectors;
  }

  /** One adopted shard recorded. */
  lemma AdoptedShardIsSound(env: Surroundings, g: GenerationId, m: Manifest, i: nat, raw: seq<Vector>)
    requires Lawful(env) && SoundManifest(env, g, m) && m.provenance.Adopted? && i < m.identity.ShardTotal()
    requires var chunks := Shards(m.identity.chunks, m.identity.shardSize)[i];
             && |raw| == |chunks| && ValidVectors(Float32All(env, raw), |chunks|, m.identity.dimension)
             && m.contract.dimension == Some(|raw[0]|)
    ensures var chunks := Shards(m.identity.chunks, m.identity.shardSize)[i];
            SoundManifest(env, g, WithShard(m, i, ShardRecord(env, i, chunks, Float32All(env, raw), NoOrigins(|chunks|))))
  {
    var chunks := Shards(m.identity.chunks, m.identity.shardSize)[i];
    RecordIsSound(env, m.identity, m.provenance, i, raw, NoOrigins(|chunks|));
    WithShardIsSound(env, g, m, i, ShardRecord(env, i, chunks, Float32All(env, raw), NoOrigins(|chunks|)));
  }

  /** Every shard so far was written without origins, so nothing counts as reused. */
  ghost predicate Unreused(shards: map<nat, ShardManifest>) {
    forall i :: i in shards ==> shards[i].reusedCount == 0
  }

  function StoredEntries(store: map<Slot, seq<Entry>>, slot: Slot): seq<Entry> {
    if slot in store then store[slot] else []
  }

  // ----- what the invariant says about every active generation

  /** No other generation on the disk has this one's index and document. */
  ghost predicate OwnSlot(disk: Disk, g: GenerationId) {
    forall k :: k in disk && k.of.Slot() == g.of.Slot() ==> k == g
  }

  /** A generation with a slot of its own is ACTIVE only while the store holds its reference vectors. */
  lemma ActiveMeansStored(env: Surroundings, disk: Disk, store: map<Slot, seq<Entry>>, importer: map<Slot, GenerationId>, g: GenerationId)
    requires SoundStore(env, disk, store, importer) && OwnSlot(disk, g)
    requires IsActive(disk, g)
    ensures g.of.Slot() in store && Holds(env, store[g.of.Slot()], g.of)
  {
    var last := importer[g.of.Slot()];
    assert last in disk && last.of.Slot() == g.of.Slot();
    assert last == g;
  }

  /** An ACTIVE generation with a slot of its own is ready exactly when its shard files are as recorded and what the
      store keeps of its reference vectors passes validation. */
  lemma ActiveIsReady(env: Surroundings, disk: Disk, store: map<Slot, seq<Entry>>, importer: map<Slot, GenerationId>, g: GenerationId)
    requires SoundDisk(env, disk) && SoundStore(env, disk, store, importer) && OwnSlot(disk, g) && IsActive(disk, g)
    ensures Ready(env, disk, store, g)
      <==> && Below(g.of.ShardTotal()) <= Intact(disk[g])
           && ValidVectors(Persisted(env, ReferenceVectors(env, g.of.model, g.of.chunks)), |g.of.chunks|, disk[g].manifest.value.contract.dimension)
  {
    var m := disk[g].manifest.value;
    ActiveMeansStored(env, disk, store, importer, g);
    ExportedVectors(g.of, Persisted(env, ReferenceVectors(env, g.of.model, g.of.chunks)), m.contract.dimension);
    if Below(g.of.ShardTotal()) <= Intact(disk[g]) {
      FilesGathered(env, g, disk[g], m, g.of.ShardTotal());
      GatheredAll(env, g, m, FilesBelow(disk[g].artifacts, g.of.ShardTotal()));
    }
  }

  /** What one generation's import leaves is what another one claims exactly when their chunks are the same and their
      models give every text one stored vector. */
  lemma SiblingsHold(env: Surroundings, id: Identity, last: Identity)
    requires Comparable(env, id)
    ensures Holds(env, Pair(last.chunks, Persisted(env, ReferenceVectors(env, last.model, last.chunks))), id) <==> Agree(env, id, last)
  {
    var ours, theirs := Persisted(env, ReferenceVectors(env, id.model, id.chunks)), Persisted(env, ReferenceVectors(env, last.model, last.chunks));
    assert forall i :: 0 <= i < |id.chunks| ==> ours[i] == StoredVector(env, id.model, id.chunks[i].text);
    assert forall i :: 0 <= i < |last.chunks| ==> theirs[i] == StoredVector(env, last.model, last.chunks[i].text);
    if Agree(env, id, last) {
      forall i | 0 <= i < |id.chunks|
        ensures ours[i] == theirs[i]
      {
        assert id.chunks[i] in id.chunks;
      }
      assert ours == theirs;
    }
    if Pair(last.chunks, theirs) == Pair(id.chunks, ours) {
      PairsApart(id.chunks, ours, last.chunks, theirs);
      forall c | c in id.chunks
        ensures StoredVector(env, id.model, c.text) == StoredVector(env, last.model, c.text)
      {
        var i :| 0 <= i < |id.chunks| && id.chunks[i] == c;
      }
    }
  }

  lemma PairsApart(a: seq<Chunk>, v: seq<Vector>, b: seq<Chunk>, w: seq<Vector>)
    requires |a| == |v| && |b| == |w| && Pair(b, w) == Pair(a, v)
    ensures a == b && v == w
  {
    assert forall i :: 0 <= i < |a| ==> Pair(a, v)[i].chunk == a[i] && Pair(a, v)[i].vector == v[i];
    assert forall i :: 0 <= i < |b| ==> Pair(b, w)[i].chunk == b[i] && Pair(b, w)[i].vector == w[i];
  }

  /** With the slot shared: while the last importer is ACTIVE, another ACTIVE generation of the slot is stored exactly
      when the two agree. */
  lemma ActiveHoldsExactly(env: Surroundings, disk: Disk, store: map<Slot, seq<Entry>>, importer: map<Slot, GenerationId>, g: GenerationId)
    requires SoundStore(env, disk, store, importer) && IsActive(disk, g) && IsActive(disk, importer[g.of.Slot()])
    ensures g.of.Slot() in store && (Holds(env, store[g.of.Slot()], g.of) <==> Agree(env, g.of, importer[g.of.Slot()].of))
  {
    SiblingsHold(env, g.of, importer[g.of.Slot()].of);
  }
}
