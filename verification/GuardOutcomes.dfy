/** What a call of the guard gets and what it leaves on record (app/rag/resilience.py:68-198), read off the
    history of attempts and the entries of the cache. */
module GuardOutcomes {
  import opened Common
  import opened Vectors
  import opened QueryCache
  import opened GuardProtocol

  // ----- how a call begins

  /** Some query of the call cannot be answered from the cache. */
  ghost predicate Misses(policy: CachePolicy, cache: Cache, queries: seq<string>, now: real) {
    exists i :: 0 <= i < |queries| && !Alive(policy, cache, queries[i], now)
  }

  /** The last `threshold` completed attempts failed, the latest of them less than the reset time ago. */
  ghost predicate ShutOut(cfg: Config, s: State, queries: seq<string>, now: real) {
    && Misses(cfg.policy, s.cache, queries, now)
    && LastFailed(s.health.attempts, cfg.threshold) && now < s.health.lastFailure + cfg.resetSeconds
  }

  lemma {:induction false} NothingMissing(queries: seq<string>, found: seq<Option<Vector>>)
    requires |queries| == |found|
    ensures Missing(queries, found) == [] <==> forall i :: 0 <= i < |found| ==> found[i].Some?
  {
    if queries != [] {
      NothingMissing(queries[1..], found[1..]);
      assert forall i :: 0 < i < |found| ==> found[i] == found[1..][i - 1];
      assert forall i :: 0 <= i < |found[1..]| ==> found[1..][i] == found[i + 1];
    }
  }

  /** A call whose queries are all cached is answered; one with a miss is refused exactly while the circuit is open
      and else waits for a slot. Nothing else changes. */
  lemma BeginsExactly(cfg: Config, embed: string -> Vector, s: State, call: nat, queries: seq<string>, now: real)
    requires Inv(cfg, embed, s) && Enabled(s, embed, Begin(call, queries, now)) && cfg.threshold >= 1
    ensures var after := Next(cfg, embed, s, Begin(call, queries, now));
            && call in after.slots.calls && after.slots == s.slots.(calls := s.slots.calls[call := after.slots.calls[call]])
            && after.health == s.health && after.clock == now && after.dimension == s.dimension
            && var c := after.slots.calls[call];
               if !Misses(cfg.policy, s.cache, queries, now) then c == Done(queries, Answer(EmbedAll(embed, queries), |queries|))
               else if ShutOut(cfg, s, queries, now) then c == Done(queries, Unavailable(CircuitOpen))
               else c.Waiting? && c.queries == queries && |c.found| == |queries|
                    && forall i :: 0 <= i < |queries| ==>
                         c.found[i] == if Alive(cfg.policy, s.cache, queries[i], now) then Some(embed(queries[i])) else None
  {
    var (cache, found) := LookupAll(cfg.policy, s.cache, queries, now);
    LookupAllServesAlive(cfg.policy, embed, s.cache, s.clock, queries, now);
    LookupAllKeeps(cfg.policy, embed, s.cache, s.clock, queries, now);
    NothingMissing(queries, found);
    FillCompletes(embed, queries, found);
    CircuitOpensExactly(cfg, s.health, s.clock, now);
    assert Missing(queries, found) == [] ==> EmbedAll(embed, Missing(queries, found)) == [];
  }

  // ----- over every run

  ghost predicate Refused(s: Slots, c: nat) { c in s.calls && s.calls[c].Done? && s.calls[c].outcome == Unavailable(CircuitOpen) }

  /** The event begins this call in a state that shuts it out. */
  ghost predicate ShutsOut(cfg: Config, embed: string -> Vector, s: State, e: Event, c: nat) {
    e.Begin? && e.call == c && Enabled(s, embed, e) && ShutOut(cfg, s, e.queries, e.now)
  }

  lemma StepRefuses(cfg: Config, embed: string -> Vector, s: State, e: Event, c: nat)
    requires Inv(cfg, embed, s) && Enabled(s, embed, e) && cfg.threshold >= 1
    ensures Refused(Next(cfg, embed, s, e).slots, c) <==> Refused(s.slots, c) || ShutsOut(cfg, embed, s, e, c)
    ensures (Refused(s.slots, c) ==> c !in s.slots.tasks)
            ==> Refused(Next(cfg, embed, s, e).slots, c) ==> c !in Next(cfg, embed, s, e).slots.tasks
  {
    match e
    case Begin(call, queries, now) => BeginsExactly(cfg, embed, s, call, queries, now);
    case _ =>
  }

  /** The `n`-th event of a run does so. */
  ghost predicate ShutsOutAt(cfg: Config, embed: string -> Vector, start: State, events: seq<Event>, n: nat, c: nat) {
    n < |events| && ShutsOut(cfg, embed, Run(cfg, embed, start, events[..n]), events[n], c)
  }

  /** In every run: a call ends refused exactly when it began with a miss while the circuit was open, and then no
      embedding was ever started for it. */
  lemma {:induction false} RefusedExactly(cfg: Config, embed: string -> Vector, dimension: Option<nat>, events: seq<Event>, c: nat)
    requires cfg.threshold >= 1
    ensures var end := Run(cfg, embed, Start(cfg, dimension), events).slots;
            && (Refused(end, c) <==> exists n: nat :: ShutsOutAt(cfg, embed, Start(cfg, dimension), events, n, c))
            && (Refused(end, c) ==> c !in end.tasks)
  {
    if events != [] {
      var start, last, earlier := Start(cfg, dimension), |events| - 1, events[..|events| - 1];
      var before := Run(cfg, embed, start, earlier);
      RefusedExactly(cfg, embed, dimension, earlier, c);
      RunKeepsInv(cfg, embed, dimension, earlier);
      if Enabled(before, embed, events[last]) {
        StepRefuses(cfg, embed, before, events[last], c);
      }
      ShutsOutBefore(cfg, embed, start, events, c);
    }
  }

  lemma ShutsOutBefore(cfg: Config, embed: string -> Vector, start: State, events: seq<Event>, c: nat)
    requires events != []
    ensures var last := |events| - 1;
            (exists n: nat :: ShutsOutAt(cfg, embed, start, events, n, c))
            <==> (exists n: nat :: ShutsOutAt(cfg, embed, start, events[..last], n, c)) || ShutsOut(cfg, embed, Run(cfg, embed, start, events[..last]), events[last], c)
  {
    var last := |events| - 1;
    forall n: nat | n < last
      ensures ShutsOutAt(cfg, embed, start, events, n, c) <==> ShutsOutAt(cfg, embed, start, events[..last], n, c)
    {
      assert events[..last][..n] == events[..n] && events[..last][n] == events[n];
    }
    if ShutsOut(cfg, embed, Run(cfg, embed, start, events[..last]), events[last], c) {
      assert ShutsOutAt(cfg, embed, start, events, last, c);
    }
    if n: nat :| ShutsOutAt(cfg, embed, start, events[..last], n, c) {
      assert ShutsOutAt(cfg, embed, start, events, n, c);
    }
  }

  // ----- what counts as an attempt

  /** The embedding of a waiting caller came back with vectors that pass validation. */
  predicate Succeeds(s: State, call: nat)
    requires IsEmbedding(s.slots, call) && Paired(s.slots)
  {
    var status := s.slots.tasks[call].status;
    status.Returned? && ValidVectors(status.vectors, |Missing(s.slots.calls[call].queries, s.slots.calls[call].found)|, s.dimension)
  }

  /** A timeout counts as a failure, the end of an awaited embedding as what it is, and nothing else counts. */
  lemma AttemptOfStep(cfg: Config, embed: string -> Vector, s: State, e: Event)
    requires Inv(cfg, embed, s) && Enabled(s, embed, e)
    ensures var was, after := s.health, Next(cfg, embed, s, e).health;
            && after.attempts == was.attempts + (if e.TimeOut? then [false] else if e.Resume? then [Succeeds(s, e.call)] else [])
            && after.lastFailure == if e.TimeOut? || (e.Resume? && !Succeeds(s, e.call)) then e.now else was.lastFailure
    ensures e.TimeOut? || e.Resume? ==>
              var was, after := s.slots.calls[e.call], Next(cfg, embed, s, e).slots.calls;
              && e.call in after && after[e.call].Done? && after[e.call].queries == was.queries
              && after[e.call].outcome == if e.TimeOut? then Unavailable(TimedOut)
                                       else if Succeeds(s, e.call) then Answer(EmbedAll(embed, was.queries), |was.queries| - |Missing(was.queries, was.found)|)
                                       else Unavailable(EmbeddingFailed)
  {
    match e
    case Resume(call, now) =>
      FillCompletes(embed, s.slots.calls[call].queries, s.slots.calls[call].found);
    case _ =>
  }

  /** What an answered call embedded is served from then on until its time to live ends, when the cache has room for
      all of it, and fixes the dimension. */
  lemma AnsweredIsCached(cfg: Config, embed: string -> Vector, s: State, call: nat, now: real, i: nat, later: real)
    requires Inv(cfg, embed, s) && Enabled(s, embed, Resume(call, now)) && Succeeds(s, call)
    requires var missing := Missing(s.slots.calls[call].queries, s.slots.calls[call].found);
             i < |missing| <= cfg.policy.maxEntries && later < now + cfg.policy.ttl && !cfg.policy.Off()
    ensures var missing, after := Missing(s.slots.calls[call].queries, s.slots.calls[call].found), Next(cfg, embed, s, Resume(call, now));
            Alive(cfg.policy, after.cache, missing[i], later) && after.dimension == Some(|embed(missing[0])|)
  {
    var missing := Missing(s.slots.calls[call].queries, s.slots.calls[call].found);
    StoredAreAlive(cfg.policy, embed, s.cache, s.clock, missing, EmbedAll(embed, missing), now, i, later);
  }

  ghost predicate FailedCall(s: Slots, c: nat) {
    c in s.calls && s.calls[c].Done? && (s.calls[c].outcome == Unavailable(TimedOut) || s.calls[c].outcome == Unavailable(EmbeddingFailed))
  }

  /** A call that was answered with the help of an embedding. */
  ghost predicate EmbeddedCall(s: Slots, c: nat) { c in s.calls && c in s.tasks && s.calls[c].Done? && s.calls[c].outcome.Answer? }

  ghost function FailedCalls(s: Slots): set<nat> { set c | c in s.calls && FailedCall(s, c) }

  ghost function EmbeddedCalls(s: Slots): set<nat> { set c | c in s.calls && EmbeddedCall(s, c) }

  /** The history of attempts holds one failure for every call that failed or timed out and one success for every call
      that an embedding answered. */
  ghost predicate Recorded(s: State) {
    && multiset(s.health.attempts)[false] == |FailedCalls(s.slots)|
    && multiset(s.health.attempts)[true] == |EmbeddedCalls(s.slots)|
  }

  predicate Fails(s: State, e: Event)
    requires Paired(s.slots) && (e.Resume? ==> IsEmbedding(s.slots, e.call))
  {
    e.TimeOut? || (e.Resume? && !Succeeds(s, e.call))
  }

  /** A step moves one call at most, and none that is over. */
  lemma StepMovesOne(cfg: Config, embed: string -> Vector, s: State, e: Event)
    requires Paired(s.slots) && Enabled(s, embed, e)
    ensures var before, after := s.slots.calls, Next(cfg, embed, s, e).slots.calls;
            if e.TaskEnds? || e.Completed? then after == before
            else e.call in after && after == before[e.call := after[e.call]] && (e.call in before ==> !before[e.call].Done?)
  {
  }

  /** A task is started only for a waiting call. */
  lemma StepStartsOne(cfg: Config, embed: string -> Vector, s: State, e: Event)
    requires Owned(s.slots) && Enabled(s, embed, e)
    ensures Next(cfg, embed, s, e).slots.tasks.Keys == s.slots.tasks.Keys + (if e.Acquire? then {e.call} else {})
    ensures e.Begin? || e.LeaveQueue? ==> e.call !in s.slots.tasks
    ensures e.TimeOut? || e.Resume? ==> e.call in s.slots.tasks
  {
  }

  lemma FailedOfStep(cfg: Config, embed: string -> Vector, s: State, e: Event)
    requires Inv(cfg, embed, s) && Enabled(s, embed, e)
    ensures FailedCalls(Next(cfg, embed, s, e).slots) == FailedCalls(s.slots) + (if Fails(s, e) then {e.call} else {})
    ensures e.TimeOut? || e.Resume? ==> !FailedCall(s.slots, e.call)
  {
    StepMovesOne(cfg, embed, s, e);
    AttemptOfStep(cfg, embed, s, e);
    var before, after := s.slots, Next(cfg, embed, s, e).slots;
    if !e.TaskEnds? && !e.Completed? {
      assert FailedCall(after, e.call) <==> Fails(s, e);
    }
    FailedElsewhere(before, after, e.call, if Fails(s, e) then {e.call} else {});
  }

  lemma FailedElsewhere(before: Slots, after: Slots, call: nat, more: set<nat>)
    requires after.calls == before.calls || (call in after.calls && after.calls == before.calls[call := after.calls[call]])
    requires after.calls != before.calls ==> !FailedCall(before, call) && more == if FailedCall(after, call) then {call} else {}
    requires after.calls == before.calls ==> more == {}
    ensures FailedCalls(after) == FailedCalls(before) + more
  {
  }

  lemma EmbeddedOfStep(cfg: Config, embed: string -> Vector, s: State, e: Event)
    requires Inv(cfg, embed, s) && Enabled(s, embed, e)
    ensures EmbeddedCalls(Next(cfg, embed, s, e).slots) == EmbeddedCalls(s.slots) + (if e.Resume? && !Fails(s, e) then {e.call} else {})
    ensures e.TimeOut? || e.Resume? ==> !EmbeddedCall(s.slots, e.call)
  {
    StepMovesOne(cfg, embed, s, e);
    StepStartsOne(cfg, embed, s, e);
    AttemptOfStep(cfg, embed, s, e);
    var before, after := s.slots, Next(cfg, embed, s, e).slots;
    var more := if e.Resume? && !Fails(s, e) then {e.call} else {};
    forall c
      ensures c in EmbeddedCalls(after) <==> c in EmbeddedCalls(before) + more
    {
      assert c != e.call && c in before.calls ==> after.calls[c] == before.calls[c];
    }
  }

  lemma StepKeepsRecorded(cfg: Config, embed: string -> Vector, s: State, e: Event)
    requires Inv(cfg, embed, s) && Recorded(s) && Enabled(s, embed, e)
    ensures Recorded(Next(cfg, embed, s, e))
  {
    AttemptOfStep(cfg, embed, s, e);
    FailedOfStep(cfg, embed, s, e);
    EmbeddedOfStep(cfg, embed, s, e);
    var done := if e.TimeOut? then [false] else if e.Resume? then [Succeeds(s, e.call)] else [];
    OneMoreAttempt(s, Next(cfg, embed, s, e), done, e.call);
  }

  lemma OneMoreAttempt(before: State, after: State, done: seq<bool>, call: nat)
    requires Recorded(before) && after.health.attempts == before.health.attempts + done && |done| <= 1
    requires done != [] ==> call !in FailedCalls(before.slots) && call !in EmbeddedCalls(before.slots)
    requires FailedCalls(after.slots) == FailedCalls(before.slots) + (if done == [false] then {call} else {})
    requires EmbeddedCalls(after.slots) == EmbeddedCalls(before.slots) + (if done == [true] then {call} else {})
    ensures Recorded(after)
  {
    if |done| == 1 {
      assert done == [done[0]];
    }
  }

  lemma {:induction false} EveryAttemptIsRecorded(cfg: Config, embed: string -> Vector, dimension: Option<nat>, events: seq<Event>)
    ensures Recorded(Run(cfg, embed, Start(cfg, dimension), events))
  {
    if events != [] {
      var earlier, e := events[..|events| - 1], events[|events| - 1];
      var before := Run(cfg, embed, Start(cfg, dimension), earlier);
      EveryAttemptIsRecorded(cfg, embed, dimension, earlier);
      RunKeepsInv(cfg, embed, dimension, earlier);
      if Enabled(before, embed, e) {
        StepKeepsRecorded(cfg, embed, before, e);
      }
    } else {
      var s := Start(cfg, dimension).slots;
      assert FailedCalls(s) == {} && EmbeddedCalls(s) == {};
    }
  }
}
