/** Whole histories of generations: builds, resumes, forced builds, adoptions, crashes at any durable
    write, failing models and damaged shard files, in any order. */
module GenerationHistory {
  import opened Common
  import opened Vectors
  import opened EmbeddingArtifacts
  import opened VectorReuse
  import opened GenerationSteps
  import opened EmbeddingGeneration

  datatype Command =
    | Build(identity: Identity, queryFormat: string, force: bool, reuse: bool, listing: seq<GenerationId>,
            writes: Fuse, calls: Fuse, torn: seq<Entry>)
    | Adopt(identity: Identity, queryFormat: string, entries: seq<Entry>, attestedModel: string, writes: Fuse, torn: seq<Entry>)
    | Damage(generation: GenerationId, artifacts: map<nat, File>)

  ghost predicate WellFormed(c: Command) {
    !c.Damage? ==> c.identity.Valid()
  }

  function ContractOf(id: Identity, queryFormat: string): Contract {
    Contract(id.model, id.dimension, queryFormat)
  }

  method Execute(machine: Machine, c: Command)
    requires machine.Sound() && WellFormed(c)
    modifies machine
    ensures machine.Sound()
    ensures machine.adopted <= old(machine.adopted) + (if c.Adopt? then {Sha256(c.identity)} else {})
    ensures c.Build? && !c.force ==> IntactAt(old(machine.disk), Sha256(c.identity)) <= IntactAt(machine.disk, Sha256(c.identity))
  {
    match c
    case Build(identity, queryFormat, force, reuse, listing, writes, calls, torn) =>
      var manager := new EmbeddingGenerationManager(machine, identity, ContractOf(identity, queryFormat));
      machine.writesLeft, machine.callsLeft, machine.torn := writes, calls, torn;
      var _ := manager.BuildAndActivate(force, reuse, listing);
    case Adopt(identity, queryFormat, entries, attestedModel, writes, torn) =>
      var manager := new EmbeddingGenerationManager(machine, identity, ContractOf(identity, queryFormat));
      machine.writesLeft, machine.torn := writes, torn;
      var _ := manager.AdoptAndActivate(entries, attestedModel);
    case Damage(generation, artifacts) =>
      if generation in machine.disk {
        DamageIsSound(machine.env, machine.disk, machine.store, machine.importer, generation, artifacts);
        machine.disk := machine.disk[generation := Directory(machine.disk[generation].manifest, artifacts)];
      }
  }

  lemma DamageIsSound(env: Surroundings, disk: Disk, store: map<Slot, seq<Entry>>, importer: map<Slot, GenerationId>,
                      g: GenerationId, artifacts: map<nat, File>)
    requires SoundDisk(env, disk) && SoundStore(env, disk, store, importer) && g in disk
    ensures var after := disk[g := Directory(disk[g].manifest, artifacts)];
            SoundDisk(env, after) && SoundStore(env, after, store, importer)
  {
    var after := disk[g := Directory(disk[g].manifest, artifacts)];
    assert forall k :: IsActive(after, k) <==> IsActive(disk, k);
  }

  /** What ACTIVE says of an embedded generation: with a slot of its own the store holds exactly what it keeps of its
      reference vectors, and so it does for the last importer of a slot; in a slot whose last importer is ACTIVE the
      store holds another generation's exactly when the two agree. */
  ghost predicate ActiveSays(env: Surroundings, disk: Disk, store: map<Slot, seq<Entry>>, importer: map<Slot, GenerationId>, g: GenerationId)
    requires g.of.Slot() in importer
  {
    var slot := g.of.Slot();
    && (OwnSlot(disk, g) || importer[slot] == g ==> slot in store && Holds(env, store[slot], g.of))
    && (IsActive(disk, importer[slot]) ==> slot in store && (Holds(env, store[slot], g.of) <==> Agree(env, g.of, importer[slot].of)))
  }

  /** Every history, from an empty disk. */
  method Replay(env: Surroundings, commands: seq<Command>) returns (machine: Machine)
    requires Lawful(env) && forall k :: 0 <= k < |commands| ==> WellFormed(commands[k])
    ensures machine.env == env && machine.Sound()
    ensures machine.adopted <= set k | 0 <= k < |commands| && commands[k].Adopt? :: Sha256(commands[k].identity)
    ensures forall g :: IsActive(machine.disk, g) ==>
              g.of.Slot() in machine.importer && ActiveSays(env, machine.disk, machine.store, machine.importer, g)
  {
    machine := new Machine(env);
    for k := 0 to |commands|
      invariant machine.env == env && machine.Sound() && fresh(machine)
      invariant machine.adopted <= set j | 0 <= j < k && commands[j].Adopt? :: Sha256(commands[j].identity)
    {
      Execute(machine, commands[k]);
    }
    forall g | IsActive(machine.disk, g)
      ensures g.of.Slot() in machine.importer && ActiveSays(env, machine.disk, machine.store, machine.importer, g)
    {
      SoundSays(env, machine.disk, machine.store, machine.importer, g);
    }
  }

  lemma SoundSays(env: Surroundings, disk: Disk, store: map<Slot, seq<Entry>>, importer: map<Slot, GenerationId>, g: GenerationId)
    requires SoundStore(env, disk, store, importer) && IsActive(disk, g)
    ensures g.of.Slot() in importer && ActiveSays(env, disk, store, importer, g)
  {
    if OwnSlot(disk, g) {
      ActiveMeansStored(env, disk, store, importer, g);
    }
    if IsActive(disk, importer[g.of.Slot()]) {
      ActiveHoldsExactly(env, disk, store, importer, g);
    }
  }

  /** After any history an unhindered run brings the store to the reference vectors. */
  method Recover(env: Surroundings, commands: seq<Command>, identity: Identity, queryFormat: string, force: bool, reuse: bool,
                 listing: seq<GenerationId>) returns (machine: Machine, ready: bool)
    requires Lawful(env) && identity.Valid() && forall k :: 0 <= k < |commands| ==> WellFormed(commands[k])
    requires WellBehaved(env, identity) && FaithfulStore(env, identity)
    requires force || forall k :: 0 <= k < |commands| && commands[k].Adopt? ==> commands[k].identity != identity
    ensures machine.Sound()
    ensures IsActive(machine.disk, Sha256(identity))
    ensures identity.Slot() in machine.store
    ensures machine.store[identity.Slot()] == Pair(identity.chunks, Persisted(env, ReferenceVectors(env, identity.model, identity.chunks)))
    ensures ready && Ready(env, machine.disk, machine.store, Sha256(identity))
  {
    machine := new Machine(env);
    for k := 0 to |commands|
      invariant machine.env == env && machine.Sound() && fresh(machine)
      invariant force || Sha256(identity) !in machine.adopted
    {
      Execute(machine, commands[k]);
    }
    var manager := new EmbeddingGenerationManager(machine, identity, ContractOf(identity, queryFormat));
    machine.writesLeft, machine.callsLeft := Never, Never;
    var h := manager.BuildAndActivate(force, reuse, listing);
    h, ready := manager.IsReady();
  }

  // ----- where the code falls short, and exactly when

  /** Two generations that share an index and a document: the later import leaves the earlier one ACTIVE, and its
      claim on the store survives exactly when the two agree. */
  method SiblingImports(machine: Machine, first: EmbeddingGenerationManager, second: EmbeddingGenerationManager)
    requires machine.Sound() && first.machine == machine == second.machine && first != second
    requires first.Wired() && second.Wired() && first.Gen() != second.Gen() && first.identity.Slot() == second.identity.Slot()
    requires first.Unhindered() && second.Unhindered()
    modifies machine, first, second
    ensures machine.Sound() && IsActive(machine.disk, first.Gen()) && first.identity.Slot() in machine.store
    ensures Holds(machine.env, machine.store[first.identity.Slot()], first.identity) <==> Agree(machine.env, first.identity, second.identity)
  {
    var h := first.BuildAndActivate(true, false, []);
    assert first.Shows(first.manifest);
    ghost var before := machine.disk;
    h := second.BuildAndActivate(true, false, []);
    assert first.Gen() in before - {second.Gen()};
    SiblingsHold(machine.env, first.identity, second.identity);
  }

  /** An adopted generation with damaged shards, rebuilt without force: the run reports success, but the
      manifest it leaves can be read back exactly when no rebuilt shard took over a vector. After that
      every unforced run fails. */
  method RebuildAdopted(manager: EmbeddingGenerationManager, reuse: bool, listing: seq<GenerationId>) returns (first: Halt, second: Halt)
    requires manager.machine.Sound() && manager.Wired() && manager.Loaded()
    requires manager.manifest.provenance.Adopted? && Readable(manager.manifest)
    modifies manager, manager.machine
    ensures manager.machine.Sound()
    ensures old(manager.Unhindered()) && manager.Smooth(Adopted) ==> first.Running?
    ensures first.Running? ==>
              (second == Raised(Unreadable) <==>
               WouldReuse(manager.identity, old(IntactAt(manager.machine.disk, manager.Gen())),
                          OnOffer(manager.machine.env, old(manager.machine.disk), reuse, listing, manager.contract, manager.Gen())))
  {
    var start := manager.manifest;
    first := manager.BuildAndActivate(false, reuse, listing);
    second := first;
    if first.Running? {
      AdoptedAfterRebuild(manager.machine.env, manager.Gen(), start, manager.manifest, old(IntactAt(manager.machine.disk, manager.Gen())),
                          OnOffer(manager.machine.env, old(manager.machine.disk), reuse, listing, manager.contract, manager.Gen()));
      second := manager.BuildAndActivate(false, reuse, listing);
    }
  }

  // ----- both happen

  /** One model, the same vector for every text, and a store that rounds nothing. Only the square root is left open. */
  function OneModel(sqrt: real -> real): Surroundings {
    Surroundings((model: string, text: string) => [1.0], (x: real) => x, (v: Vector) => v, sqrt)
  }

  /** One corpus under one index name, cut into these chunks. */
  function Chunked(chunks: seq<Chunk>, shardSize: nat): Identity {
    Identity("index", "release", "document", chunks, "model", Some(1), shardSize)
  }

  function OneChunk(shardSize: nat): Identity { Chunked([Chunk("chunk-1", "document", "text", "")], shardSize) }

  function TwoChunks(): Identity { Chunked([Chunk("chunk-1", "document", "te", ""), Chunk("chunk-2", "document", "xt", "")], 1) }

  lemma OneModelIsGentle(sqrt: real -> real)
    ensures Gentle(OneModel(sqrt), 1)
  {
    var env := OneModel(sqrt);
    forall v: Vector | |v| == 1 && UnitLength(v)
      ensures UnitLength(Float32(env, v)) && env.persist(v) == v && CloseVectors(Float32(env, v), Float32(env, env.persist(v)))
    {
      assert Float32(env, v) == v;
    }
  }

  lemma OneModelIsUnhindered(sqrt: real -> real, chunks: seq<Chunk>, shardSize: nat)
    ensures WellBehaved(OneModel(sqrt), Chunked(chunks, shardSize)) && FaithfulStore(OneModel(sqrt), Chunked(chunks, shardSize))
  {
    var env := OneModel(sqrt);
    var one: Vector := [1.0];
    assert Dot(one, one) == 1.0;
    assert Float32(env, one) == one;
    EachValid(RawVectors(env, "model", ChunkTexts(chunks)), 1);
    EachValid(ReferenceVectors(env, "model", chunks), 1);
    assert Persisted(env, ReferenceVectors(env, "model", chunks)) == ReferenceVectors(env, "model", chunks);
  }

  /** From an empty machine: one corpus and one model, built under one chunking and then under another. The first
      generation stays ACTIVE and the store no longer holds its vectors. */
  method SiblingsDiverge(sqrt: real -> real) returns (machine: Machine, gone: GenerationId)
    requires Lawful(OneModel(sqrt))
    ensures machine.Sound() && IsActive(machine.disk, gone) && gone.of.Slot() in machine.store
    ensures !Holds(machine.env, machine.store[gone.of.Slot()], gone.of)
  {
    var earlier, later := OneChunk(1), TwoChunks();
    machine := new Machine(OneModel(sqrt));
    machine.writesLeft, machine.callsLeft := Never, Never;
    var first := new EmbeddingGenerationManager(machine, earlier, ContractOf(earlier, ""));
    var second := new EmbeddingGenerationManager(machine, later, ContractOf(later, ""));
    OneModelIsUnhindered(sqrt, earlier.chunks, 1);
    OneModelIsUnhindered(sqrt, later.chunks, 1);
    assert |earlier.chunks| != |later.chunks|;
    SiblingImports(machine, first, second);
    gone := first.Gen();
  }

  /** A build, an adoption of the same text, a lost shard file and a rebuild: the rebuild reports success and
      the next run cannot read what it left. */
  method AdoptedIsLocked(sqrt: real -> real) returns (machine: Machine, first: Halt, second: Halt)
    requires Lawful(OneModel(sqrt))
    ensures machine.Sound() && first.Running? && second == Raised(Unreadable)
  {
    machine := new Machine(OneModel(sqrt));
    machine.writesLeft, machine.callsLeft := Never, Never;
    var built, adopted := OneChunk(1), OneChunk(2);
    var builder := new EmbeddingGenerationManager(machine, built, ContractOf(built, ""));
    var keeper := new EmbeddingGenerationManager(machine, adopted, ContractOf(adopted, ""));
    BuildAndAdopt(sqrt, builder, keeper);
    ghost var before := machine.disk;
    LoseShards(machine, keeper.Gen());
    assert builder.Gen() in before - {keeper.Gen()};
    first, second := RebuildLost(sqrt, keeper, builder.Gen());
  }

  method BuildAndAdopt(ghost sqrt: real -> real, builder: EmbeddingGenerationManager, keeper: EmbeddingGenerationManager)
    requires keeper != builder && keeper.machine == builder.machine && builder.machine.Sound() && builder.machine.env == OneModel(sqrt)
    requires builder.Wired() && builder.identity == OneChunk(1) && keeper.Wired() && keeper.identity == OneChunk(2)
    requires builder.machine.writesLeft.Never? && builder.machine.callsLeft.Never?
    modifies builder, keeper, keeper.machine
    ensures keeper.machine.Sound() && Offers(keeper.machine.disk, keeper.contract, builder.Gen(), keeper.Gen())
    ensures keeper.Loaded() && keeper.manifest.provenance.Adopted? && Readable(keeper.manifest)
    ensures keeper.machine.writesLeft.Never? && keeper.machine.callsLeft.Never?
  {
    OneModelIsUnhindered(sqrt, OneChunk(1).chunks, 1);
    OneModelIsGentle(sqrt);
    var h := builder.BuildAndActivate(true, false, []);
    ghost var before := builder.machine.disk;
    assert builder.Shows(builder.manifest);
    assert Offers(before, keeper.contract, builder.Gen(), keeper.Gen());
    var one: Vector := [1.0];
    assert Dot(one, one) == 1.0;
    ExportedVectors(keeper.identity, [one], Some(1));
    h := keeper.AdoptAndActivate(Pair(keeper.identity.chunks, [one]), "model");
    assert builder.Gen() in before - {keeper.Gen()};
  }

  /** Generation `g` offers its first shard for reuse. */
  ghost predicate Offers(disk: Disk, contract: Contract, g: GenerationId, exclude: GenerationId) {
    g in disk && 0 in Intact(disk[g]) && Candidate(disk[g], contract, exclude)
  }

  method LoseShards(machine: Machine, g: GenerationId)
    requires machine.Sound() && g in machine.disk
    modifies machine`disk
    ensures machine.Sound() && OnlyAt(old(machine.disk), machine.disk, g)
    ensures g in machine.disk && machine.disk[g].manifest == old(machine.disk)[g].manifest && IntactAt(machine.disk, g) == {}
  {
    DamageIsSound(machine.env, machine.disk, machine.store, machine.importer, g, map[]);
    machine.disk := machine.disk[g := Directory(machine.disk[g].manifest, map[])];
  }

  method RebuildLost(ghost sqrt: real -> real, keeper: EmbeddingGenerationManager, source: GenerationId) returns (first: Halt, second: Halt)
    requires keeper.machine.Sound() && keeper.machine.env == OneModel(sqrt) && source == Sha256(OneChunk(1))
    requires keeper.Wired() && keeper.identity == OneChunk(2) && keeper.Loaded()
    requires keeper.manifest.provenance.Adopted? && Readable(keeper.manifest)
    requires keeper.machine.writesLeft.Never? && keeper.machine.callsLeft.Never?
    requires Offers(keeper.machine.disk, keeper.contract, source, keeper.Gen()) && IntactAt(keeper.machine.disk, keeper.Gen()) == {}
    modifies keeper, keeper.machine
    ensures keeper.machine.Sound() && first.Running? && second == Raised(Unreadable)
  {
    OneModelIsUnhindered(sqrt, OneChunk(2).chunks, 2);
    OneModelIsGentle(sqrt);
    LostTextIsOnOffer(keeper.machine.env, keeper.machine.disk, source, keeper.contract, keeper.Gen());
    OneShard(keeper.identity, OnOffer(keeper.machine.env, keeper.machine.disk, true, [source], keeper.contract, keeper.Gen()));
    first, second := RebuildAdopted(keeper, true, [source]);
  }

  lemma LostTextIsOnOffer(env: Surroundings, disk: Disk, g: GenerationId, contract: Contract, exclude: GenerationId)
    requires Lawful(env) && SoundDisk(env, disk) && g == Sha256(OneChunk(1))
    requires Offers(disk, contract, g, exclude) && contract.dimension.Some?
    ensures "text" in OnOffer(env, disk, true, [g], contract, exclude)
  {
    var m := disk[g].manifest.value;
    assert SoundManifest(env, g, m);
    SoundSourceVerifies(env, m.identity, m.provenance, disk[g].artifacts, m.shards[0]);
    var entries := EntriesOf(Vouched(m.shards[0]));
    assert ChunksOf(entries) == Shards(g.of.chunks, 1)[0];
    assert ChunksOf(entries)[0] == entries[0].chunk;
    assert entries[0].chunk.text in Texts(entries);
    assert [g][..0] == [];
    assert TextsBelow(env, disk[g].artifacts, m.shards, 1) == {} + ShardTexts(env, disk[g].artifacts, m.shards, 0);
  }

  lemma OneShard(id: Identity, texts: set<string>)
    requires id == OneChunk(2) && "text" in texts
    ensures WouldReuse(id, {}, texts)
  {
    var chunks := Shards(id.chunks, 2)[0];
    assert chunks == id.chunks;
    assert HitCount(chunks, texts) == 1 + HitCount(chunks[1..], texts);
  }
}
