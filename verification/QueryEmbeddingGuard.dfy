/** The guard itself, cut at its await points: each method is what runs between two of them
    (app/rag/resilience.py:36-198). The suspended calls and their tasks, which the event loop keeps,
    are fields beside the guard's own. */
module QueryEmbeddingGuards {
  import opened Common
  import opened Vectors
  import opened QueryCache
  import opened GuardProtocol

  class QueryEmbeddingGuard {
    const cfg: Config
    const embed: string -> Vector

    var cache: Cache
    var free: nat
    var consecutiveFailures: nat
    var circuitOpenUntil: real
    var expectedDimension: Option<nat>
    var backgroundTasks: set<nat>
    var calls: map<nat, Call>
    var tasks: map<nat, Task>

    ghost var clock: real
    ghost var attempts: seq<bool>
    ghost var lastFailure: real
    ghost var acquired: nat
    ghost var released: nat

    ghost function Snapshot(): State
      reads this
    {
      State(Slots(free, backgroundTasks, calls, tasks, acquired, released),
            Health(consecutiveFailures, circuitOpenUntil, attempts, lastFailure), cache, expectedDimension, clock)
    }

    ghost predicate Valid()
      reads this
    {
      Inv(cfg, embed, Snapshot())
    }

    constructor (cfg: Config, embed: string -> Vector, dimension: Option<nat>)
      ensures Valid() && this.cfg == cfg && this.embed == embed && Snapshot() == Start(cfg, dimension)
    {
      this.cfg, this.embed := cfg, embed;
      cache, free, consecutiveFailures, circuitOpenUntil, expectedDimension := [], cfg.maxConcurrency, 0, 0.0, dimension;
      backgroundTasks, calls, tasks := {}, map[], map[];
      clock, attempts, lastFailure, acquired, released := 0.0, [], 0.0, 0, 0;
      new;
      RunKeepsInv(cfg, embed, dimension, []);
    }

    method CachedVector(query: string, now: real) returns (vector: Option<Vector>)
      modifies this`cache
      ensures (cache, vector) == Lookup(cfg.policy, old(cache), query, now)
    {
      if cfg.policy.Off() { return None; }
      match Position(cache, query)
      case None => vector := None;
      case Some(i) =>
        var entry := cache[i];
        cache := Without(cache, query);
        if entry.expires <= now { return None; }
        cache := cache + [entry];
        vector := Some(entry.vector);
    }

    method StoreCache(query: string, vector: Vector, now: real)
      modifies this`cache
      ensures cache == Store(cfg.policy, old(cache), query, vector, now)
    {
      if cfg.policy.Off() { return; }
      cache := Without(cache, query) + [CacheEntry(query, now + cfg.policy.ttl, vector)];
      ghost var grown := cache;
      while |cache| > cfg.policy.maxEntries
        invariant |cache| <= |grown| && cache == grown[|grown| - |cache|..]
        invariant |cache| == |grown| || |cache| >= cfg.policy.maxEntries
      {
        cache := cache[1..];
      }
    }

    method RecordFailure(now: real)
      modifies this`consecutiveFailures, this`circuitOpenUntil, this`attempts, this`lastFailure
      ensures Health(consecutiveFailures, circuitOpenUntil, attempts, lastFailure)
           == Failing(cfg, old(Health(consecutiveFailures, circuitOpenUntil, attempts, lastFailure)), now)
    {
      consecutiveFailures := consecutiveFailures + 1;
      if consecutiveFailures >= cfg.threshold {
        circuitOpenUntil := now + cfg.resetSeconds;
      }
      attempts, lastFailure := attempts + [false], now;
    }

    /** `embed` up to the semaphore. */
    method Begin(call: nat, queries: seq<string>, now: real)
      requires Paired(Snapshot().slots) && Enabled(Snapshot(), embed, Event.Begin(call, queries, now))
      modifies this
      ensures Snapshot() == Next(cfg, embed, old(Snapshot()), Event.Begin(call, queries, now))
    {
      clock := now;
      if queries == [] {
        calls := calls[call := Done([], Answer([], 0))];
        return;
      }
      var found: seq<Option<Vector>> := [];
      for i := 0 to |queries|
        invariant (cache, found) == LookupAll(cfg.policy, old(cache), queries[..i], now)
        invariant Snapshot() == old(Snapshot()).(cache := cache, clock := now)
      {
        assert queries[..i + 1][..i] == queries[..i];
        var vector := CachedVector(queries[i], now);
        found := found + [vector];
      }
      assert queries[..|queries|] == queries;
      if Missing(queries, found) == [] {
        calls := calls[call := Done(queries, Answer(Fill(found, []), |queries|))];
      } else if now < circuitOpenUntil {
        calls := calls[call := Done(queries, Unavailable(CircuitOpen))];
      } else {
        calls := calls[call := Waiting(queries, found)];
      }
    }

    /** The semaphore admits a waiting call, which starts its embedding. */
    method Acquire(call: nat)
      requires Paired(Snapshot().slots) && Enabled(Snapshot(), embed, Event.Acquire(call))
      modifies this`free, this`calls, this`tasks, this`acquired
      ensures Snapshot() == Next(cfg, embed, old(Snapshot()), Event.Acquire(call))
    {
      var c := calls[call];
      free := free - 1;
      tasks := tasks[call := Task(Missing(c.queries, c.found), Active, false)];
      calls := calls[call := Embedding(c.queries, c.found)];
      acquired := acquired + 1;
    }

    /** The wait for a slot ends without one. */
    method LeaveQueue(call: nat, outcome: Outcome)
      requires Paired(Snapshot().slots) && Enabled(Snapshot(), embed, Event.LeaveQueue(call, outcome))
      modifies this`calls
      ensures Snapshot() == Next(cfg, embed, old(Snapshot()), Event.LeaveQueue(call, outcome))
    {
      calls := calls[call := Done(calls[call].queries, outcome)];
    }

    /** The shielded embedding ended before its caller gave up. */
    method Resume(call: nat, now: real)
      requires Paired(Snapshot().slots) && Enabled(Snapshot(), embed, Event.Resume(call, now))
      modifies this
      ensures Snapshot() == Next(cfg, embed, old(Snapshot()), Event.Resume(call, now))
    {
      var status := tasks[call].status;
      var missing := Missing(calls[call].queries, calls[call].found);
      if status.Returned? && ValidVectors(status.vectors, |missing|, expectedDimension) {
        Accept(call, missing, status.vectors, now);
      } else {
        Reject(call, now);
      }
    }

    method Accept(call: nat, missing: seq<string>, vectors: seq<Vector>, now: real)
      requires call in calls && calls[call].Embedding? && |missing| == |vectors|
      modifies this
      ensures var s := old(Snapshot());
              var c := s.slots.calls[call];
              Snapshot() == GuardProtocol.State.State(
                Returning(s.slots, call, Answer(Fill(c.found, vectors), |c.queries| - |missing|)),
                Succeeding(s.health),
                StoreAll(cfg.policy, s.cache, missing, vectors, now),
                if s.dimension.None? && missing != [] then Some(|vectors[0]|) else s.dimension,
                now)
    {
      var c := calls[call];
      clock := now;
      if expectedDimension.None? && missing != [] { expectedDimension := Some(|vectors[0]|); }
      free, released := free + 1, released + 1;
      consecutiveFailures, circuitOpenUntil := 0, 0.0;
      attempts := attempts + [true];
      StoreFresh(missing, vectors, now);
      calls := calls[call := Done(c.queries, Answer(Fill(c.found, vectors), |c.queries| - |missing|))];
    }

    method Reject(call: nat, now: real)
      requires call in calls
      modifies this
      ensures var s := old(Snapshot());
              Snapshot() == s.(slots := Returning(s.slots, call, Unavailable(EmbeddingFailed)), health := Failing(cfg, s.health, now), clock := now)
    {
      clock := now;
      free, released := free + 1, released + 1;
      RecordFailure(now);
      calls := calls[call := Done(calls[call].queries, Unavailable(EmbeddingFailed))];
    }

    method StoreFresh(queries: seq<string>, vectors: seq<Vector>, now: real)
      requires |queries| == |vectors|
      modifies this`cache
      ensures cache == StoreAll(cfg.policy, old(cache), queries, vectors, now)
    {
      for i := 0 to |queries|
        invariant cache == StoreAll(cfg.policy, old(cache), queries[..i], vectors[..i], now)
      {
        assert queries[..i + 1][..i] == queries[..i] && vectors[..i + 1][..i] == vectors[..i];
        StoreCache(queries[i], vectors[i], now);
      }
      assert queries[..|queries|] == queries && vectors[..|vectors|] == vectors;
    }

    method TrackBackgroundTask(call: nat)
      requires call in tasks
      modifies this`tasks, this`backgroundTasks
      ensures tasks == if |old(backgroundTasks)| >= cfg.maxBackground then old(tasks)[call := old(tasks)[call].(cancelRequested := true)] else old(tasks)
      ensures backgroundTasks == old(backgroundTasks) + {call}
    {
      if |backgroundTasks| >= cfg.maxBackground {
        tasks := tasks[call := tasks[call].(cancelRequested := true)];
      }
      backgroundTasks := backgroundTasks + {call};
    }

    /** The caller's timeout fires; the embedding keeps its slot. */
    method TimeOut(call: nat, now: real)
      requires Paired(Snapshot().slots) && Enabled(Snapshot(), embed, Event.TimeOut(call, now))
      modifies this
      ensures Snapshot() == Next(cfg, embed, old(Snapshot()), Event.TimeOut(call, now))
    {
      clock := now;
      TrackBackgroundTask(call);
      RecordFailure(now);
      calls := calls[call := Done(calls[call].queries, Unavailable(TimedOut))];
    }

    /** The caller is cancelled; the embedding keeps its slot. */
    method Abandon(call: nat)
      requires Paired(Snapshot().slots) && Enabled(Snapshot(), embed, Event.Abandon(call))
      modifies this`tasks, this`backgroundTasks, this`calls
      ensures Snapshot() == Next(cfg, embed, old(Snapshot()), Event.Abandon(call))
    {
      TrackBackgroundTask(call);
      calls := calls[call := Done(calls[call].queries, Cancelled)];
    }

    /** The done callback of a background embedding. */
    method Completed(call: nat)
      requires Paired(Snapshot().slots) && Enabled(Snapshot(), embed, Event.Completed(call))
      modifies this`backgroundTasks, this`free, this`released
      ensures Snapshot() == Next(cfg, embed, old(Snapshot()), Event.Completed(call))
    {
      backgroundTasks := backgroundTasks - {call};
      free, released := free + 1, released + 1;
    }

    /** The event loop ran a model call to its end. */
    method TaskEnds(call: nat, status: TaskStatus)
      requires Paired(Snapshot().slots) && Enabled(Snapshot(), embed, Event.TaskEnds(call, status))
      modifies this`tasks
      ensures Snapshot() == Next(cfg, embed, old(Snapshot()), Event.TaskEnds(call, status))
    {
      tasks := tasks[call := tasks[call].(status := status)];
    }

    /** Whatever happens next, the guard stays valid. */
    method Advance(e: Event)
      requires Valid() && Enabled(Snapshot(), embed, e)
      modifies this
      ensures Valid() && Snapshot() == Next(cfg, embed, old(Snapshot()), e)
    {
      StepKeepsInv(cfg, embed, Snapshot(), e);
      match e
      case Begin(call, queries, now) => Begin(call, queries, now);
      case Acquire(call) => Acquire(call);
      case LeaveQueue(call, outcome) => LeaveQueue(call, outcome);
      case TaskEnds(call, status) => TaskEnds(call, status);
      case Resume(call, now) => Resume(call, now);
      case TimeOut(call, now) => TimeOut(call, now);
      case Abandon(call) => Abandon(call);
      case Completed(call) => Completed(call);
    }
  }
}
