/** Building, resuming, validating and activating one generation of document vectors
    (app/consumer/embedding_generation.py). Every durable write may be the last thing a process
    does: a fuse counts them down, and when it runs out the process stops right there. */
module EmbeddingGeneration {
  import opened Common
  import opened Vectors
  import opened EmbeddingArtifacts
  import opened VectorReuse
  import opened GenerationSteps

  class EmbeddingGenerationManager {
    const machine: Machine
    const identity: Identity
    const contract: Contract
    /** The manifest object one run passes along. */
    var manifest: Manifest

    constructor (machine: Machine, identity: Identity, contract: Contract)
      requires identity.Valid() && contract.model == identity.model && contract.dimension == identity.dimension
      ensures this.machine == machine && this.identity == identity && this.contract == contract && Wired()
    {
      this.machine, this.identity, this.contract := machine, identity, contract;
      manifest := NewManifest(identity, contract, Embedded);
    }

    ghost predicate Wired() {
      identity.Valid() && contract.model == identity.model && contract.dimension == identity.dimension
    }

    function Gen(): GenerationId { Sha256(identity) }

    /** The disk shows the manifest at hand. */
    ghost predicate Loaded()
      reads this, machine
    {
      Shows(manifest) && SoundManifest(machine.env, Gen(), manifest)
    }

    /** The disk shows the manifest this run works on, and it is not claimed active. */
    ghost predicate Recorded()
      reads this, machine
    {
      Loaded() && !manifest.status.Active?
    }

    /** The disk lists the shards of the manifest at hand, which is fit to be saved. */
    ghost predicate Filed()
      reads this, machine
    {
      && Gen() in machine.disk
      && machine.disk[Gen()].manifest.Some?
      && machine.disk[Gen()].manifest.value.shards == manifest.shards
      && machine.disk[Gen()].manifest.value.provenance == manifest.provenance
      && SoundManifest(machine.env, Gen(), manifest)
      && !manifest.status.Active?
    }

    ghost predicate Shows(m: Manifest)
      reads machine
    {
      Gen() in machine.disk && machine.disk[Gen()].manifest == Some(m)
    }

    ghost predicate SameFiles(before: Disk, after: Disk) {
      Gen() in before && Gen() in after && before[Gen()].artifacts == after[Gen()].artifacts
    }

    /** What the shard files of the generation hold. */
    ghost function FileVectors(): seq<Vector>
      reads machine
    {
      VectorsOf(FilesBelow(DirectoryAt(machine.disk, Gen()).artifacts, identity.ShardTotal()))
    }

    /** The store holds the corpus under these vectors, and this generation put them there. */
    ghost predicate Stored(vectors: seq<Vector>)
      requires |vectors| == |identity.chunks|
      reads machine
    {
      && identity.Slot() in machine.store && machine.store[identity.Slot()] == Pair(identity.chunks, vectors)
      && identity.Slot() in machine.importer && machine.importer[identity.Slot()] == Gen()
    }

    /** Nothing outside the program fails from here on. */
    ghost predicate Unhindered()
      reads machine
    {
      machine.writesLeft.Never? && machine.callsLeft.Never? && WellBehaved(machine.env, identity) && FaithfulStore(machine.env, identity)
    }

    /** Nothing but a failing model or a rounding store can stop a run that goes on with this manifest. */
    ghost predicate Smooth(provenance: Provenance) {
      provenance.Embedded? || (identity.dimension.Some? && Gentle(machine.env, identity.dimension.value))
    }

    method EmbedDocumentBatch(texts: seq<string>) returns (h: Halt, vectors: seq<Vector>)
      modifies machine`callsLeft
      ensures h.Running? ==> vectors == RawVectors(machine.env, identity.model, texts)
                             && ValidVectors(vectors, |texts|, identity.dimension)
      ensures !h.Running? ==> h == Raised(ProviderFailed) || h == Raised(InvalidVectors)
      ensures old(machine.callsLeft).Never? && ValidVectors(RawVectors(machine.env, identity.model, texts), |texts|, identity.dimension)
              ==> h.Running? && machine.callsLeft.Never?
    {
      vectors := RawVectors(machine.env, identity.model, texts);
      h := machine.Call();
      if h.Running? && !ValidVectors(vectors, |texts|, identity.dimension) {
        h := Raised(InvalidVectors);
      }
    }

    /** No call is made when every text is reused. */
    method EmbedMissing(missing: seq<string>) returns (h: Halt)
      modifies machine`callsLeft
      ensures !h.Running? ==> h == Raised(ProviderFailed) || h == Raised(InvalidVectors)
      ensures old(machine.callsLeft).Never? && ValidVectors(RawVectors(machine.env, identity.model, missing), |missing|, identity.dimension)
              ==> h.Running? && machine.callsLeft.Never?
    {
      if missing == [] { return Running; }
      var batch;
      h, batch := EmbedDocumentBatch(missing);
    }

    /** A shard's vectors, reused or new, validated against the manifest's dimension. */
    method ShardVectors(i: nat, index: ReuseIndex) returns (h: Halt, vectors: seq<Vector>)
      requires Wired() && machine.Sound() && SoundManifest(machine.env, Gen(), manifest) && i < identity.ShardTotal()
      requires FaithfulIndex(machine.env, contract, Gen(), index) && (identity.dimension.None? ==> index == map[])
      modifies machine`callsLeft
      ensures !h.Running? ==> h == Raised(ProviderFailed) || h == Raised(InvalidVectors)
      ensures h.Running? ==>
                var chunks := Shards(identity.chunks, identity.shardSize)[i];
                vectors == ChosenVectors(machine.env, identity.model, index, chunks)
                && ValidVectors(vectors, |chunks|, manifest.contract.dimension)
      ensures old(Unhindered()) && Smooth(manifest.provenance) ==>
                h.Running? && Unhindered() && ValidVectors(Float32All(machine.env, vectors), |vectors|, identity.dimension)
    {
      var chunks := Shards(identity.chunks, identity.shardSize)[i];
      if Unhindered() && Smooth(manifest.provenance) {
        ShardMembers(identity.chunks, identity.shardSize, i);
        ChosenAreValid(machine.env, contract, Gen(), manifest, index, chunks);
      }
      vectors := ChosenVectors(machine.env, identity.model, index, chunks);
      h := EmbedMissing(Missing(index, chunks));
      if h.Running? && !ValidVectors(vectors, |chunks|, manifest.contract.dimension) { h := Raised(InvalidVectors); }
    }

    /** `_build_shard`: embeds what no earlier generation offers, writes the shard, records it. */
    method BuildShard(i: nat, index: ReuseIndex) returns (h: Halt)
      requires Wired() && machine.Sound() && Recorded() && i < identity.ShardTotal()
      requires i !in Intact(machine.disk[Gen()])
      requires FaithfulIndex(machine.env, contract, Gen(), index) && (identity.dimension.None? ==> index == map[])
      modifies this`manifest, machine`disk, machine`writesLeft, machine`callsLeft
      ensures machine.Sound() && OnlyAt(old(machine.disk), machine.disk, Gen())
      ensures IntactAt(old(machine.disk), Gen()) <= IntactAt(machine.disk, Gen())
      ensures h.Raised? ==> h.error.ProviderFailed? || h.error.InvalidVectors?
      ensures !h.Crashed? ==> Filed() && manifest.status == old(manifest.status) && manifest.provenance == old(manifest.provenance)
      ensures h.Running? ==> Recorded() && IntactAt(machine.disk, Gen()) == IntactAt(old(machine.disk), Gen()) + {i}
      ensures h.Running? ==> && i in manifest.shards && manifest.shards == old(manifest).shards[i := manifest.shards[i]]
                             && manifest.shards[i].reusedCount == HitCount(Shards(identity.chunks, identity.shardSize)[i], index.Keys)
      ensures old(Unhindered()) && Smooth(old(manifest).provenance) ==> h.Running? && Unhindered()
    {
      var env := machine.env;
      var chunks := Shards(identity.chunks, identity.shardSize)[i];
      var vectors;
      h, vectors := ShardVectors(i, index);
      if h.Raised? { return; }
      DimensionIsSound(env, Gen(), manifest, index, i);
      manifest := manifest.(contract := manifest.contract.(dimension := Some(|vectors[0]|)));
      var stored := Float32All(env, vectors);
      if !ValidVectors(stored, |chunks|, identity.dimension) { return Raised(InvalidVectors); }
      var origins := ChosenOrigins(index, chunks);
      OriginsCountHits(index, chunks);
      BuiltIsSound(env, contract, Gen(), manifest, index, i, origins);
      h := WriteShard(i, chunks, stored, origins);
    }

    /** The shard file first, then the manifest that vouches for it. */
    method WriteShard(i: nat, chunks: seq<Chunk>, stored: seq<Vector>, origins: seq<Option<Origin>>) returns (h: Halt)
      requires Wired() && machine.Sound() && Gen() in machine.disk && machine.disk[Gen()].manifest.Some?
      requires |chunks| == |stored| == |origins| > 0
      requires machine.disk[Gen()].manifest.value.shards == manifest.shards && !manifest.status.Active?
      requires machine.disk[Gen()].manifest.value.provenance == manifest.provenance
      requires i !in Intact(machine.disk[Gen()])
      requires SoundManifest(machine.env, Gen(), WithShard(manifest, i, ShardRecord(machine.env, i, chunks, stored, origins)))
      modifies this`manifest, machine`disk, machine`writesLeft
      ensures machine.Sound() && OnlyAt(old(machine.disk), machine.disk, Gen())
      ensures IntactAt(old(machine.disk), Gen()) <= IntactAt(machine.disk, Gen())
      ensures h.Running? || h.Crashed?
      ensures h.Running? ==> manifest == WithShard(old(manifest), i, ShardRecord(machine.env, i, chunks, stored, origins))
                             && Recorded() && IntactAt(machine.disk, Gen()) == IntactAt(old(machine.disk), Gen()) + {i}
      ensures old(machine.writesLeft).Never? ==> h.Running? && machine.writesLeft.Never?
    {
      var built := WithShard(manifest, i, ShardRecord(machine.env, i, chunks, stored, origins));
      IntactGrows(machine.disk, Gen(), machine.disk[Gen()].manifest.value, i, ShardFile(chunks, stored, origins), built);
      h := machine.WriteArtifact(Gen(), i, ShardFile(chunks, stored, origins));
      if h.Crashed? { return; }
      manifest := built;
      h := machine.SaveManifest(Gen(), manifest);
    }

    /** Shards still to build: those whose checksums do not hold. */
    method PendingShards() returns (pending: seq<nat>)
      requires Wired() && Recorded()
      ensures pending == Outstanding(IntactAt(machine.disk, Gen()), identity.ShardTotal())
    {
      pending := [];
      for i := 0 to identity.ShardTotal()
        invariant pending == Outstanding(IntactAt(machine.disk, Gen()), i)
      {
        var loaded := LoadShard(i);
        if loaded.None? {
          pending := pending + [i];
        }
      }
    }

    /** Re-embeds up to two reused texts. With a model that is a function of the text it always passes. */
    method CheckReuseCanary(index: ReuseIndex, pending: seq<nat>) returns (h: Halt)
      requires Wired() && machine.Sound() && Recorded()
      requires FaithfulIndex(machine.env, contract, Gen(), index)
      requires forall k :: 0 <= k < |pending| ==> pending[k] < identity.ShardTotal()
      modifies this`manifest, machine`disk, machine`writesLeft, machine`callsLeft
      ensures machine.Sound() && OnlyAt(old(machine.disk), machine.disk, Gen())
      ensures IntactAt(machine.disk, Gen()) == IntactAt(old(machine.disk), Gen())
      ensures !h.Crashed? ==> Recorded() && manifest == old(manifest).(canaryPassed := manifest.canaryPassed)
      ensures h.Raised? ==> h.error.ProviderFailed? || h.error.InvalidVectors?
      ensures h.Running? ==> manifest.canaryPassed == if ReusedTexts(identity, index, pending) == {} then old(manifest).canaryPassed else Some(true)
      ensures old(Unhindered()) ==> h.Running? && Unhindered()
    {
      h := Running;
      var texts := ReusedTexts(identity, index, pending);
      if texts == {} { return; }
      var probe := Probe(texts);
      TextsAreWellBehaved(machine.env, identity, index, pending, probe);
      var vectors;
      h, vectors := EmbedDocumentBatch(probe);
      if !h.Running? { return; }
      CanaryPasses(machine.env, contract, Gen(), index, probe, vectors);
      VerdictIsLeastCosine(machine.env, index, probe, vectors);
      h := JudgeCanary(index, probe, vectors);
    }

    /** Records how far the fresh vectors of the probe are off and, whatever index they are compared with, refuses
        exactly when one of them is further off than the threshold. */
    method JudgeCanary(index: ReuseIndex, probe: seq<string>, vectors: seq<Vector>) returns (h: Halt)
      requires Wired() && machine.Sound() && Recorded()
      requires |probe| == |vectors| && forall t :: t in probe ==> t in index
      modifies this`manifest, machine`disk, machine`writesLeft
      ensures machine.Sound() && OnlyAt(old(machine.disk), machine.disk, Gen())
      ensures IntactAt(machine.disk, Gen()) == IntactAt(old(machine.disk), Gen())
      ensures var close := forall k :: 0 <= k < |probe| ==> probe[k] in index && Cosine(machine.env, Float32(machine.env, vectors[k]), index[probe[k]].vector) >= 0.9999;
              manifest == old(manifest).(canaryPassed := Some(close)) && (h.Running? ==> close) && (h.Raised? ==> h.error.CanaryRefused? && !close)
      ensures !h.Crashed? ==> Recorded()
      ensures old(machine.writesLeft).Never? ==> !h.Crashed? && machine.writesLeft.Never?
    {
      var passed := CanaryVerdict(machine.env, index, probe, vectors);
      VerdictIsLeastCosine(machine.env, index, probe, vectors);
      manifest := manifest.(canaryPassed := Some(passed));
      h := Resave();
      if h.Running? && !passed { h := Raised(CanaryRefused); }
    }

    /** `_load_complete_generation`: every expected shard, each with its checksums. */
    method LoadCompleteGeneration() returns (h: Halt, vectors: seq<Vector>)
      requires Wired() && Loaded()
      ensures h.Running? || h == Raised(Incomplete)
      ensures h.Running? ==> ValidVectors(vectors, |identity.chunks|, manifest.contract.dimension)
      ensures h.Running? && manifest.provenance.Embedded? ==> vectors == ReferenceVectors(machine.env, identity.model, identity.chunks)
      ensures h.Running? ==> vectors == FileVectors()
      ensures h.Running? <==> Below(identity.ShardTotal()) <= IntactAt(machine.disk, Gen())
    {
      vectors := [];
      var total := identity.ShardTotal();
      if Below(total) <= manifest.shards.Keys {
        CompleteCounts(machine.env, Gen(), manifest);
      }
      if || |manifest.shards| != CeilDiv(|identity.chunks|, identity.shardSize)
         || manifest.completedCount != |identity.chunks|
         || CountBelow(manifest.shards, total) != |identity.chunks|
      {
        h := Raised(Incomplete);
        return;
      }
      var entries;
      h, entries := GatherShards();
      if h.Running? {
        FilesGathered(machine.env, Gen(), machine.disk[Gen()], manifest, identity.ShardTotal());
        GatheredAll(machine.env, Gen(), manifest, entries);
        vectors := VectorsForChunks(identity.chunks, entries, manifest.contract.dimension).value;
      }
    }

    method GatherShards() returns (h: Halt, entries: seq<Entry>)
      requires Wired() && Loaded()
      ensures h.Running? || h == Raised(Incomplete)
      ensures h.Running? ==> entries == FilesBelow(machine.disk[Gen()].artifacts, identity.ShardTotal())
      ensures h.Running? <==> Below(identity.ShardTotal()) <= IntactAt(machine.disk, Gen())
    {
      entries := [];
      for i := 0 to identity.ShardTotal()
        invariant entries == FilesBelow(machine.disk[Gen()].artifacts, i)
        invariant Below(i) <= IntactAt(machine.disk, Gen())
      {
        var loaded := LoadShard(i);
        if loaded.None? {
          assert i in Below(identity.ShardTotal());
          h := Raised(Incomplete);
          return;
        }
        entries := entries + loaded.value;
      }
      h := Running;
    }

    method LoadShard(i: nat) returns (loaded: Option<seq<Entry>>)
      requires Wired() && Loaded() && i < identity.ShardTotal()
      ensures loaded.Some? <==> i in IntactAt(machine.disk, Gen())
      ensures loaded.Some? ==> loaded.value == FileEntries(machine.disk[Gen()].artifacts, i)
    {
      if i !in manifest.shards { return None; }
      var artifacts := machine.disk[Gen()].artifacts;
      SoundShardVerifies(machine.env, identity, manifest.provenance, artifacts, manifest.shards[i]);
      loaded := VerifiedEntries(machine.env, artifacts, manifest.shards[i], Shards(identity.chunks, identity.shardSize)[i]);
    }

    /** Saves the manifest under another status. */
    method Mark(status: Status) returns (h: Halt)
      requires Wired() && machine.Sound() && Filed() && !status.Active?
      modifies this`manifest, machine`disk, machine`writesLeft
      ensures machine.Sound() && OnlyAt(old(machine.disk), machine.disk, Gen())
      ensures IntactAt(machine.disk, Gen()) == IntactAt(old(machine.disk), Gen())
      ensures manifest == old(manifest).(status := status)
      ensures h.Running? ==> Recorded() && SameFiles(old(machine.disk), machine.disk)
      ensures !h.Running? ==> h.Crashed? && machine.disk == old(machine.disk)
      ensures old(machine.writesLeft).Never? ==> h.Running? && machine.writesLeft.Never?
    {
      manifest := manifest.(status := status);
      h := Resave();
    }

    /** Saves a manifest that lists the same shards as the one on disk. */
    method Resave() returns (h: Halt)
      requires Wired() && machine.Sound() && Filed()
      modifies machine`disk, machine`writesLeft
      ensures machine.Sound() && OnlyAt(old(machine.disk), machine.disk, Gen())
      ensures IntactAt(machine.disk, Gen()) == IntactAt(old(machine.disk), Gen())
      ensures h.Running? ==> Recorded() && SameFiles(old(machine.disk), machine.disk)
      ensures !h.Running? ==> h.Crashed? && machine.disk == old(machine.disk)
      ensures old(machine.writesLeft).Never? ==> h.Running? && machine.writesLeft.Never?
    {
      ResavedIntact(machine.disk, Gen(), manifest);
      h := machine.SaveManifest(Gen(), manifest);
    }

    /** `_activate`: import, read the store back, compare, and only then claim the generation active. */
    method Activate(vectors: seq<Vector>) returns (h: Halt)
      requires Wired() && machine.Sound() && Recorded()
      requires ValidVectors(vectors, |identity.chunks|, manifest.contract.dimension)
      requires manifest.provenance.Embedded? ==> vectors == ReferenceVectors(machine.env, identity.model, identity.chunks)
      modifies this`manifest, machine`disk, machine`writesLeft, machine`store, machine`importer
      ensures machine.Sound() && OnlyAt(old(machine.disk), machine.disk, Gen())
      ensures IntactAt(machine.disk, Gen()) == IntactAt(old(machine.disk), Gen())
      ensures OnlySlot(old(machine.store), machine.store, identity.Slot()) && OnlySlot(old(machine.importer), machine.importer, identity.Slot())
      ensures h.Raised? ==> h.error.InvalidVectors? || h.error.StoreMismatch?
      ensures h.Running? ==> && manifest == old(manifest).(status := Active) && Shows(manifest)
                             && Stored(Persisted(machine.env, vectors))
      ensures h.Running? ==> && SameFiles(old(machine.disk), machine.disk)
                             && Served(machine.env, identity, manifest.contract.dimension, machine.store[identity.Slot()], vectors)
      ensures old(Unhindered()) && Smooth(old(manifest).provenance) ==> h.Running? && Unhindered()
      ensures old(machine.writesLeft).Never? && Smooth(old(manifest).provenance) && old(manifest).provenance.Adopted? ==> h.Running? && machine.writesLeft.Never?
    {
      h := ImportAndCompare(vectors);
      if !h.Running? { return; }
      h := Claim();
    }

    /** Marks the generation active, once the store has been read back. */
    method Claim() returns (h: Halt)
      requires Wired() && machine.Sound() && Recorded()
      requires identity.Slot() in machine.store && identity.Slot() in machine.importer && machine.importer[identity.Slot()] == Gen()
      requires manifest.provenance.Embedded? ==> Holds(machine.env, machine.store[identity.Slot()], identity)
      modifies this`manifest, machine`disk, machine`writesLeft
      ensures machine.Sound() && OnlyAt(old(machine.disk), machine.disk, Gen())
      ensures IntactAt(machine.disk, Gen()) == IntactAt(old(machine.disk), Gen())
      ensures manifest == old(manifest).(status := Active)
      ensures h.Running? || h.Crashed?
      ensures h.Running? ==> Shows(manifest) && SameFiles(old(machine.disk), machine.disk)
      ensures old(machine.writesLeft).Never? ==> h.Running? && machine.writesLeft.Never?
    {
      manifest := manifest.(status := Active);
      ResavedIntact(machine.disk, Gen(), manifest);
      h := machine.SaveManifest(Gen(), manifest);
    }

    method ImportAndCompare(vectors: seq<Vector>) returns (h: Halt)
      requires Wired() && machine.Sound() && Recorded()
      requires ValidVectors(vectors, |identity.chunks|, manifest.contract.dimension)
      requires manifest.provenance.Embedded? ==> vectors == ReferenceVectors(machine.env, identity.model, identity.chunks)
      modifies machine`writesLeft, machine`store, machine`importer
      ensures machine.Sound()
      ensures OnlySlot(old(machine.store), machine.store, identity.Slot()) && OnlySlot(old(machine.importer), machine.importer, identity.Slot())
      ensures h.Raised? ==> h.error.InvalidVectors? || h.error.StoreMismatch?
      ensures h.Running? ==> Stored(Persisted(machine.env, vectors))
                             && (manifest.provenance.Embedded? ==> Holds(machine.env, machine.store[identity.Slot()], identity))
                             && Served(machine.env, identity, manifest.contract.dimension, machine.store[identity.Slot()], vectors)
      ensures old(Unhindered()) && Smooth(manifest.provenance) ==> h.Running? && Unhindered()
      ensures old(machine.writesLeft).Never? && Smooth(manifest.provenance) && manifest.provenance.Adopted? ==> h.Running? && machine.writesLeft.Never?
    {
      if !ValidVectors(vectors, |identity.chunks|, identity.dimension) { return Raised(InvalidVectors); }
      h := machine.Import(Gen(), Pair(identity.chunks, Persisted(machine.env, vectors)));
      if h.Crashed? { return; }
      ExportedVectors(identity, Persisted(machine.env, vectors), manifest.contract.dimension);
      if Unhindered() && manifest.provenance.Embedded? {
        PersistedAreValid(machine.env, Gen(), manifest);
      } else if Smooth(manifest.provenance) && manifest.provenance.Adopted? {
        GentleStore(machine.env, identity.dimension.value, vectors);
      }
      var persisted := VectorsForChunks(identity.chunks, machine.store[identity.Slot()], manifest.contract.dimension);
      if persisted.None? { return Raised(InvalidVectors); }
      if !PersistedMatch(machine.env, vectors, persisted.value) { return Raised(StoreMismatch); }
    }

    /** The manifest a run starts from: a new one, or without force the one on disk. */
    method Begin(force: bool) returns (h: Halt)
      requires Wired() && machine.Sound()
      modifies this`manifest, machine`disk, machine`writesLeft
      ensures machine.Sound() && OnlyAt(old(machine.disk), machine.disk, Gen())
      ensures h == Raised(Unreadable) <==> !force && Locked(old(machine.disk), Gen())
      ensures !h.Running? ==> (h.Crashed? || h == Raised(Unreadable)) && machine.disk == old(machine.disk)
      ensures h.Running? ==> Recorded() && manifest.provenance == StartingProvenance(old(machine.disk), Gen(), force)
      ensures h.Running? ==> IntactAt(machine.disk, Gen()) == if force then {} else IntactAt(old(machine.disk), Gen())
      ensures h.Running? ==> manifest.shards == if force then map[] else RecordedShards(old(machine.disk), Gen())
      ensures old(machine.writesLeft).Never? ==> !h.Crashed? && machine.writesLeft.Never?
    {
      h := Starting(force);
      if h.Raised? { return; }
      if !force { ResavedIntact(machine.disk, Gen(), manifest); }
      h := machine.SaveManifest(Gen(), manifest);
    }

    method Starting(force: bool) returns (h: Halt)
      requires Wired() && machine.Sound()
      modifies this`manifest
      ensures h == Raised(Unreadable) <==> !force && Locked(machine.disk, Gen())
      ensures !h.Running? ==> h == Raised(Unreadable)
      ensures h.Running? ==> && SoundManifest(machine.env, Gen(), manifest) && manifest.status.Building?
                             && manifest.provenance == StartingProvenance(machine.disk, Gen(), force)
      ensures h.Running? ==> manifest.shards == if force then map[] else RecordedShards(machine.disk, Gen())
    {
      var existing := DirectoryAt(machine.disk, Gen()).manifest;
      if force || existing.None? {
        NewManifestIsSound(machine.env, identity, contract, Embedded);
        manifest := NewManifest(identity, contract, Embedded);
        return Running;
      }
      if !Readable(existing.value) { return Raised(Unreadable); }
      assert SoundManifest(machine.env, Gen(), existing.value);
      if existing.value.identity != identity || existing.value.contract.model != contract.model { return Raised(Incompatible); }
      h := Running;
      manifest := existing.value.(status := Building,
                                  canaryPassed := if existing.value.reusedCount == 0 then None else existing.value.canaryPassed);
    }

    /** The canary, then every pending shard. */
    method BuildPending(pending: seq<nat>, index: ReuseIndex) returns (h: Halt)
      requires Wired() && machine.Sound() && Recorded()
      requires FaithfulIndex(machine.env, contract, Gen(), index) && (identity.dimension.None? ==> index == map[])
      requires pending == Outstanding(IntactAt(machine.disk, Gen()), identity.ShardTotal())
      modifies this`manifest, machine`disk, machine`writesLeft, machine`callsLeft
      ensures machine.Sound() && OnlyAt(old(machine.disk), machine.disk, Gen())
      ensures IntactAt(old(machine.disk), Gen()) <= IntactAt(machine.disk, Gen())
      ensures h.Raised? ==> h.error.ProviderFailed? || h.error.InvalidVectors?
      ensures !h.Crashed? ==> Filed() && manifest.provenance == old(manifest).provenance
      ensures h.Running? ==> Recorded() && Below(identity.ShardTotal()) <= IntactAt(machine.disk, Gen())
      ensures h.Running? ==> ReuseRecorded(identity, manifest.shards, pending, |pending|, index.Keys) && Kept(old(manifest).shards, manifest.shards, pending)
      ensures old(Unhindered()) && Smooth(old(manifest).provenance) ==> h.Running? && Unhindered()
    {
      h := CheckReuseCanary(index, pending);
      if !h.Running? { return; }
      h := BuildShards(pending, index);
    }

    method BuildShards(pending: seq<nat>, index: ReuseIndex) returns (h: Halt)
      requires Wired() && machine.Sound() && Recorded()
      requires FaithfulIndex(machine.env, contract, Gen(), index) && (identity.dimension.None? ==> index == map[])
      requires pending == Outstanding(IntactAt(machine.disk, Gen()), identity.ShardTotal())
      modifies this`manifest, machine`disk, machine`writesLeft, machine`callsLeft
      ensures machine.Sound() && OnlyAt(old(machine.disk), machine.disk, Gen())
      ensures IntactAt(old(machine.disk), Gen()) <= IntactAt(machine.disk, Gen())
      ensures h.Raised? ==> h.error.ProviderFailed? || h.error.InvalidVectors?
      ensures !h.Crashed? ==> Filed() && manifest.provenance == old(manifest).provenance
      ensures h.Running? ==> Recorded() && Below(identity.ShardTotal()) <= IntactAt(machine.disk, Gen())
      ensures h.Running? ==> ReuseRecorded(identity, manifest.shards, pending, |pending|, index.Keys) && Kept(old(manifest).shards, manifest.shards, pending)
      ensures old(Unhindered()) && Smooth(old(manifest).provenance) ==> h.Running? && Unhindered()
    {
      h := Running;
      for k := 0 to |pending|
        invariant machine.Sound() && Recorded() && OnlyAt(old(machine.disk), machine.disk, Gen())
        invariant manifest.provenance == old(manifest).provenance && h.Running?
        invariant IntactAt(old(machine.disk), Gen()) <= IntactAt(machine.disk, Gen())
        invariant Awaits(IntactAt(machine.disk, Gen()), identity.ShardTotal(), pending[k..])
        invariant ReuseRecorded(identity, manifest.shards, pending, k, index.Keys)
        invariant Kept(old(manifest).shards, manifest.shards, pending)
        invariant old(Unhindered()) && Smooth(old(manifest).provenance) ==> Unhindered()
      {
        NextAwaits(IntactAt(machine.disk, Gen()), identity.ShardTotal(), pending, k);
        ghost var shards := manifest.shards;
        h := BuildShard(pending[k], index);
        if !h.Running? { return; }
        RecordOneMore(identity, old(manifest).shards, shards, pending, k, manifest.shards[pending[k]], index.Keys);
      }
    }

    /** `build_and_activate`. Whatever happens, the disk and the store stay sound; a run that returns
        has activated the generation. */
    method BuildAndActivate(force: bool, reuse: bool, listing: seq<GenerationId>) returns (h: Halt)
      requires Wired() && machine.Sound()
      modifies this`manifest, machine`disk, machine`writesLeft, machine`callsLeft, machine`store, machine`importer
      ensures machine.Sound() && OnlyAt(old(machine.disk), machine.disk, Gen())
      ensures OnlySlot(old(machine.store), machine.store, identity.Slot()) && OnlySlot(old(machine.importer), machine.importer, identity.Slot())
      ensures !force ==> IntactAt(old(machine.disk), Gen()) <= IntactAt(machine.disk, Gen())
      ensures h == Raised(Unreadable) <==> !force && Locked(old(machine.disk), Gen())
      ensures h == Raised(Unreadable) ==> machine.disk == old(machine.disk)
      ensures h.Raised? ==> !h.error.CanaryRefused? && !h.error.Incompatible? && !h.error.Incomplete?
      ensures h.Running? ==> && Shows(manifest) && manifest.status.Active?
                             && manifest.provenance == StartingProvenance(old(machine.disk), Gen(), force)
                             && Below(identity.ShardTotal()) <= IntactAt(machine.disk, Gen())
      ensures h.Running? && manifest.provenance.Embedded? ==>
                Stored(Persisted(machine.env, ReferenceVectors(machine.env, identity.model, identity.chunks)))
      ensures h.Running? ==> (Ready(machine.env, machine.disk, machine.store, Gen()) <==> Readable(manifest))
      ensures h.Running? ==> Rebuilt(identity, manifest.shards, if force then map[] else RecordedShards(old(machine.disk), Gen()),
                                     if force then {} else IntactAt(old(machine.disk), Gen()),
                                     OnOffer(machine.env, old(machine.disk), reuse && !force, listing, contract, Gen()))
      ensures old(Unhindered()) && Smooth(StartingProvenance(old(machine.disk), Gen(), force)) && (force || !Locked(old(machine.disk), Gen()))
              ==> h.Running? && Unhindered()
    {
      h := Begin(force);
      SourcesAreElsewhere(machine.env, old(machine.disk), machine.disk, Gen(), listing, contract);
      if !h.Running? { return; }
      var vectors;
      h, vectors := BuildAndValidate(reuse && !force, listing);
      if !h.Running? { return; }
      h := Activate(vectors);
      if h.Running? { ReadyWhenReadable(machine.env, machine.disk, machine.store, Gen(), manifest, vectors); }
    }

    method BuildAndValidate(reuse: bool, listing: seq<GenerationId>) returns (h: Halt, vectors: seq<Vector>)
      requires Wired() && machine.Sound() && Recorded()
      modifies this`manifest, machine`disk, machine`writesLeft, machine`callsLeft
      ensures machine.Sound() && OnlyAt(old(machine.disk), machine.disk, Gen())
      ensures IntactAt(old(machine.disk), Gen()) <= IntactAt(machine.disk, Gen())
      ensures h.Raised? ==> h.error.ProviderFailed? || h.error.InvalidVectors?
      ensures h.Running? ==> Recorded() && Below(identity.ShardTotal()) <= IntactAt(machine.disk, Gen())
      ensures h.Running? ==> manifest.provenance == old(manifest).provenance
      ensures h.Running? ==> ValidVectors(vectors, |identity.chunks|, manifest.contract.dimension)
      ensures h.Running? && manifest.provenance.Embedded? ==> vectors == ReferenceVectors(machine.env, identity.model, identity.chunks)
      ensures h.Running? ==> vectors == FileVectors()
      ensures h.Running? ==> Rebuilt(identity, manifest.shards, old(manifest).shards, IntactAt(old(machine.disk), Gen()), OnOffer(machine.env, old(machine.disk), reuse, listing, contract, Gen()))
      ensures old(Unhindered()) && Smooth(old(manifest).provenance) ==> h.Running? && Unhindered()
    {
      vectors := [];
      h := BuildMissing(reuse, listing);
      if !h.Running? { return; }
      h, vectors := Validate();
    }

    /** The `try` block and its handler: a failed build is recorded as failed and stays resumable. */
    method BuildMissing(reuse: bool, listing: seq<GenerationId>) returns (h: Halt)
      requires Wired() && machine.Sound() && Recorded()
      modifies this`manifest, machine`disk, machine`writesLeft, machine`callsLeft
      ensures machine.Sound() && OnlyAt(old(machine.disk), machine.disk, Gen())
      ensures IntactAt(old(machine.disk), Gen()) <= IntactAt(machine.disk, Gen())
      ensures h.Raised? ==> h.error.ProviderFailed? || h.error.InvalidVectors?
      ensures h.Raised? ==> Recorded() && manifest.status.Failed?
      ensures h.Running? ==> Recorded() && Below(identity.ShardTotal()) <= IntactAt(machine.disk, Gen())
      ensures h.Running? ==> manifest.provenance == old(manifest).provenance
      ensures h.Running? ==> Rebuilt(identity, manifest.shards, old(manifest).shards, IntactAt(old(machine.disk), Gen()), OnOffer(machine.env, old(machine.disk), reuse, listing, contract, Gen()))
      ensures old(Unhindered()) && Smooth(old(manifest).provenance) ==> h.Running? && Unhindered()
    {
      var pending := PendingShards();
      var index := SourcesFor(pending, reuse, listing);
      h := BuildPending(pending, index);
      if h.Raised? {
        var saved := Mark(Failed);
        if saved.Crashed? { h := saved; }
      }
    }

    method SourcesFor(pending: seq<nat>, reuse: bool, listing: seq<GenerationId>) returns (index: ReuseIndex)
      requires Wired() && machine.Sound()
      ensures FaithfulIndex(machine.env, contract, Gen(), index) && (identity.dimension.None? ==> index == map[])
      ensures pending != [] ==> index.Keys == OnOffer(machine.env, machine.disk, reuse, listing, contract, Gen())
    {
      index := map[];
      if reuse && pending != [] {
        index := FromArtifacts(machine.env, machine.disk, listing, contract, Gen());
      }
    }

    /** Loads the finished generation with all its checksums and records that it validated. */
    method Validate() returns (h: Halt, vectors: seq<Vector>)
      requires Wired() && machine.Sound() && Recorded() && Below(identity.ShardTotal()) <= IntactAt(machine.disk, Gen())
      modifies this`manifest, machine`disk, machine`writesLeft
      ensures machine.Sound() && OnlyAt(old(machine.disk), machine.disk, Gen())
      ensures IntactAt(machine.disk, Gen()) == IntactAt(old(machine.disk), Gen())
      ensures manifest == old(manifest).(status := Validated)
      ensures h.Running? || h.Crashed?
      ensures h.Running? ==> Recorded() && ValidVectors(vectors, |identity.chunks|, manifest.contract.dimension)
      ensures manifest.provenance.Embedded? ==> vectors == ReferenceVectors(machine.env, identity.model, identity.chunks)
      ensures h.Running? ==> vectors == FileVectors()
      ensures old(machine.writesLeft).Never? ==> h.Running? && machine.writesLeft.Never?
    {
      h, vectors := LoadCompleteGeneration();
      h := Mark(Validated);
    }

    /** `adopt_and_activate`: vectors of a legacy index, attested to come from the same model. */
    method AdoptAndActivate(entries: seq<Entry>, attestedModel: string) returns (h: Halt)
      requires Wired() && machine.Sound()
      modifies this`manifest, machine`disk, machine`writesLeft, machine`store, machine`importer, machine`adopted
      ensures machine.Sound() && OnlyAt(old(machine.disk), machine.disk, Gen())
      ensures machine.adopted <= old(machine.adopted) + {Gen()}
      ensures OnlySlot(old(machine.store), machine.store, identity.Slot()) && OnlySlot(old(machine.importer), machine.importer, identity.Slot())
      ensures h == Raised(NotAttested) <==> attestedModel != contract.model
      ensures h.Running? ==> && Shows(manifest) && manifest.status.Active? && manifest.provenance.Adopted? && Readable(manifest)
                             && VectorsForChunks(identity.chunks, entries, contract.dimension).Some?
                             && Stored(Persisted(machine.env, VectorsForChunks(identity.chunks, entries, contract.dimension).value))
      ensures h.Running? ==> && Below(identity.ShardTotal()) <= IntactAt(machine.disk, Gen())
                             && FileVectors() == Float32All(machine.env, VectorsForChunks(identity.chunks, entries, contract.dimension).value)
                             && Ready(machine.env, machine.disk, machine.store, Gen())
      ensures (attestedModel == contract.model && VectorsForChunks(identity.chunks, entries, contract.dimension).Some?
               && old(machine.writesLeft).Never? && Smooth(Adopted)) ==> h.Running? && machine.writesLeft.Never?
    {
      if attestedModel != contract.model { return Raised(NotAttested); }
      var found := VectorsForChunks(identity.chunks, entries, contract.dimension);
      if found.None? { return Raised(InvalidVectors); }
      NewManifestIsSound(machine.env, identity, contract, Adopted);
      machine.adopted := machine.adopted + {Gen()};
      manifest := NewManifest(identity, contract, Adopted);
      manifest := manifest.(contract := manifest.contract.(dimension := Some(|found.value[0]|)));
      h := AdoptShards(found.value);
      if !h.Running? { return; }
      h := ActivateAdopted(found.value);
    }

    /** The adopted shards are on file: the manifest is saved as validated and activated. */
    method ActivateAdopted(vectors: seq<Vector>) returns (h: Halt)
      requires Wired() && machine.Sound() && SoundManifest(machine.env, Gen(), manifest) && Gen() in machine.adopted
      requires manifest.provenance.Adopted? && !manifest.status.Active? && Readable(manifest)
      requires OnFile(DirectoryAt(machine.disk, Gen()).artifacts, manifest.shards, identity.ShardTotal())
      requires ValidVectors(vectors, |identity.chunks|, manifest.contract.dimension) && FileVectors() == Float32All(machine.env, vectors)
      modifies this`manifest, machine`disk, machine`writesLeft, machine`store, machine`importer
      ensures machine.Sound() && OnlyAt(old(machine.disk), machine.disk, Gen())
      ensures OnlySlot(old(machine.store), machine.store, identity.Slot()) && OnlySlot(old(machine.importer), machine.importer, identity.Slot())
      ensures h.Raised? ==> h.error.InvalidVectors? || h.error.StoreMismatch?
      ensures h.Running? ==> && Shows(manifest) && manifest.status.Active? && manifest.provenance.Adopted? && Readable(manifest)
                             && Stored(Persisted(machine.env, vectors))
      ensures h.Running? ==> && Below(identity.ShardTotal()) <= IntactAt(machine.disk, Gen()) && FileVectors() == old(FileVectors())
                             && Ready(machine.env, machine.disk, machine.store, Gen())
      ensures old(machine.writesLeft).Never? && Smooth(Adopted) ==> h.Running? && machine.writesLeft.Never?
    {
      manifest := manifest.(status := Validated);
      h := machine.SaveManifest(Gen(), manifest);
      if !h.Running? { return; }
      OnFileIsIntact(machine.disk[Gen()], identity.ShardTotal());
      h := Activate(vectors);
      if h.Running? {
        ConvertedVectorsMatch(machine.env, machine.disk[Gen()].artifacts, identity, vectors);
        ReadyWhenReadable(machine.env, machine.disk, machine.store, Gen(), manifest, vectors);
      }
    }

    method AdoptShards(vectors: seq<Vector>) returns (h: Halt)
      requires Wired() && machine.Sound() && SoundManifest(machine.env, Gen(), manifest) && manifest.provenance.Adopted? && !manifest.status.Active?
      requires ValidVectors(vectors, |identity.chunks|, manifest.contract.dimension)
      requires manifest.contract.dimension == Some(|vectors[0]|) && Unreused(manifest.shards)
      modifies this`manifest, machine`disk, machine`writesLeft
      ensures machine.Sound() && OnlyAt(old(machine.disk), machine.disk, Gen())
      ensures h.Raised? ==> h.error.InvalidVectors?
      ensures SoundManifest(machine.env, Gen(), manifest) && manifest.provenance.Adopted? && !manifest.status.Active?
      ensures manifest.contract.dimension == old(manifest).contract.dimension && Readable(manifest)
      ensures h.Running? ==> OnFile(DirectoryAt(machine.disk, Gen()).artifacts, manifest.shards, identity.ShardTotal())
      ensures h.Running? ==> FileVectors() == Float32All(machine.env, vectors)
      ensures old(machine.writesLeft).Never? && Smooth(Adopted) ==> h.Running? && machine.writesLeft.Never?
    {
      var rest := vectors;
      var parts := Shards(identity.chunks, identity.shardSize);
      ShardsCover(identity.chunks, identity.shardSize);
      assert parts[0..] == parts;
      h := Running;
      for i := 0 to |parts|
        invariant machine.Sound() && OnlyAt(old(machine.disk), machine.disk, Gen()) && h.Running?
        invariant SoundManifest(machine.env, Gen(), manifest) && manifest.provenance.Adopted? && !manifest.status.Active?
        invariant manifest.contract.dimension == old(manifest).contract.dimension && Unreused(manifest.shards)
        invariant Remaining(parts, i, rest, |vectors[0]|)
        invariant AdoptedSoFar(machine.env, DirectoryAt(machine.disk, Gen()).artifacts, manifest.shards, i, vectors, rest)
        invariant old(machine.writesLeft).Never? && Smooth(Adopted) ==> machine.writesLeft.Never?
      {
        RemainingStep(parts, i, rest, |vectors[0]|);
        ghost var files, shards := DirectoryAt(machine.disk, Gen()).artifacts, manifest.shards;
        h := AdoptShard(i, rest[..|parts[i]|]);
        if !h.Running? { break; }
        AdoptedOneMore(machine.env, files, shards, i, parts[i], vectors, rest, DirectoryAt(machine.disk, Gen()).artifacts, manifest.shards);
        rest := rest[|parts[i]|..];
      }
      ReusedBelowPositive(manifest.shards, identity.ShardTotal());
      if h.Running? {
        AdoptedAll(machine.env, DirectoryAt(machine.disk, Gen()).artifacts, manifest.shards, parts, vectors, rest, |vectors[0]|);
      }
    }

    method AdoptShard(i: nat, raw: seq<Vector>) returns (h: Halt)
      requires Wired() && machine.Sound() && SoundManifest(machine.env, Gen(), manifest) && manifest.provenance.Adopted? && i < identity.ShardTotal()
      requires ValidVectors(raw, |Shards(identity.chunks, identity.shardSize)[i]|, manifest.contract.dimension)
      requires manifest.contract.dimension == Some(|raw[0]|) && Unreused(manifest.shards)
      modifies this`manifest, machine`disk, machine`writesLeft
      ensures machine.Sound() && OnlyAt(old(machine.disk), machine.disk, Gen())
      ensures h.Raised? ==> h.error.InvalidVectors?
      ensures SoundManifest(machine.env, Gen(), manifest) && Unreused(manifest.shards)
      ensures manifest.provenance == old(manifest).provenance && manifest.status == old(manifest).status
      ensures manifest.contract.dimension == old(manifest).contract.dimension
      ensures h.Running? ==>
                AdoptsOne(machine.env, DirectoryAt(old(machine.disk), Gen()).artifacts, old(manifest).shards, i,
                          Shards(identity.chunks, identity.shardSize)[i], raw, DirectoryAt(machine.disk, Gen()).artifacts, manifest.shards)
      ensures old(machine.writesLeft).Never? && Smooth(Adopted) ==> h.Running? && machine.writesLeft.Never?
    {
      var chunks := Shards(identity.chunks, identity.shardSize)[i];
      var stored := Float32All(machine.env, raw);
      if Smooth(Adopted) {
        GentleRounding(machine.env, identity.dimension.value, raw);
      }
      if !ValidVectors(stored, |chunks|, identity.dimension) { return Raised(InvalidVectors); }
      h := machine.WriteArtifact(Gen(), i, ShardFile(chunks, stored, NoOrigins(|chunks|)));
      AdoptedShardIsSound(machine.env, Gen(), manifest, i, raw);
      manifest := WithShard(manifest, i, ShardRecord(machine.env, i, chunks, stored, NoOrigins(|chunks|)));
    }

    /** `is_ready`: the artifacts are complete and the store agrees with them. Nothing about who wrote
        the store is taken on trust. */
    method IsReady() returns (h: Halt, ready: bool)
      requires Wired() && machine.Sound()
      modifies this`manifest
      ensures h == Raised(Unreadable) <==> Locked(machine.disk, Gen())
      ensures h.Running? || h == Raised(Unreadable)
      ensures ready <==> Ready(machine.env, machine.disk, machine.store, Gen())
      ensures ready ==> h.Running? && Shows(manifest) && manifest.status.Active? && Below(identity.ShardTotal()) <= IntactAt(machine.disk, Gen())
      ensures ready && manifest.provenance.Embedded? ==>
                var found := VectorsForChunks(identity.chunks, StoredEntries(machine.store, identity.Slot()), manifest.contract.dimension);
                found.Some? && PersistedMatch(machine.env, ReferenceVectors(machine.env, identity.model, identity.chunks), found.value)
    {
      h, ready := Running, false;
      var existing := DirectoryAt(machine.disk, Gen()).manifest;
      if existing.None? { return; }
      if !Readable(existing.value) { return Raised(Unreadable), false; }
      if !existing.value.status.Active? { return; }
      assert SoundManifest(machine.env, Gen(), existing.value);
      manifest := existing.value;
      var loaded, vectors := LoadCompleteGeneration();
      if !loaded.Running? { return; }
      var persisted := VectorsForChunks(identity.chunks, StoredEntries(machine.store, identity.Slot()), manifest.contract.dimension);
      if persisted.None? { return; }
      ready := PersistedMatch(machine.env, vectors, persisted.value);
    }
  }
}
