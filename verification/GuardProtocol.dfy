/** The protocol of the query-embedding guard as steps between await points
    (app/rag/resilience.py:68-176): a slot semaphore, shielded embeddings that outlive their caller in
    the background, a circuit breaker and the cache. Any step may be the next one. */
module GuardProtocol {
  import opened Common
  import opened Vectors
  import opened QueryCache

  datatype Config = Config(
    maxConcurrency: nat,
    maxBackground: nat,
    threshold: int,
    resetSeconds: real,
    policy: CachePolicy)

  datatype Reason = CircuitOpen | QueueFull | TimedOut | EmbeddingFailed

  datatype Outcome = Answer(vectors: seq<Vector>, hits: int) | Unavailable(reason: Reason) | Cancelled

  /** Where a call of `embed` is suspended, or what it returned. */
  datatype Call =
    | Waiting(queries: seq<string>, found: seq<Option<Vector>>)
    | Embedding(queries: seq<string>, found: seq<Option<Vector>>)
    | Done(queries: seq<string>, outcome: Outcome)

  datatype TaskStatus = Active | Returned(vectors: seq<Vector>) | Raised | Stopped

  datatype Task = Task(queries: seq<string>, status: TaskStatus, cancelRequested: bool)

  /** The semaphore, the suspended calls and the embeddings they started. A task is named after the call
      that created it. `acquired` and `released` are history. */
  datatype Slots = Slots(
    free: nat,
    background: set<nat>,
    calls: map<nat, Call>,
    tasks: map<nat, Task>,
    acquired: nat,
    released: nat)

  /** The circuit breaker. `attempts` and `lastFailure` are history. */
  datatype Health = Health(failures: nat, openUntil: real, attempts: seq<bool>, lastFailure: real)

  datatype State = State(slots: Slots, health: Health, cache: Cache, dimension: Option<nat>, clock: real)

  function Start(cfg: Config, dimension: Option<nat>): State {
    State(Slots(cfg.maxConcurrency, {}, map[], map[], 0, 0), Health(0, 0.0, [], 0.0), [], dimension, 0.0)
  }

  /** What may happen next. The caller's queries, the clock readings and the outcome of a model call
      come from outside. */
  datatype Event =
    | Begin(call: nat, queries: seq<string>, now: real)
    | Acquire(call: nat)
    | LeaveQueue(call: nat, outcome: Outcome)
    | TaskEnds(call: nat, status: TaskStatus)
    | Resume(call: nat, now: real)
    | TimeOut(call: nat, now: real)
    | Abandon(call: nat)
    | Completed(call: nat)

  // ----- cache hits and misses of one call

  function Missing(queries: seq<string>, found: seq<Option<Vector>>): (r: seq<string>)
    requires |queries| == |found|
    ensures |r| <= |queries|
  {
    if queries == [] then []
    else (if found[0].None? then [queries[0]] else []) + Missing(queries[1..], found[1..])
  }

  /** The hits with the new vectors filled in, in order. */
  function Fill(found: seq<Option<Vector>>, vectors: seq<Vector>): seq<Vector> {
    if found == [] then []
    else if found[0].Some? then [found[0].value] + Fill(found[1..], vectors)
    else if vectors == [] then Fill(found[1..], [])
    else [vectors[0]] + Fill(found[1..], vectors[1..])
  }

  function EmbedAll(embed: string -> Vector, queries: seq<string>): (r: seq<Vector>)
    ensures |r| == |queries|
  {
    seq(|queries|, i requires 0 <= i < |queries| => embed(queries[i]))
  }

  // ----- slots

  predicate IsWaiting(s: Slots, call: nat) { call in s.calls && s.calls[call].Waiting? }

  predicate IsEmbedding(s: Slots, call: nat) { call in s.calls && s.calls[call].Embedding? && call in s.tasks }

  function Moved(s: Slots, call: nat, c: Call): Slots {
    s.(calls := s.calls[call := c])
  }

  function Taken(s: Slots, call: nat, queries: seq<string>, found: seq<Option<Vector>>): Slots
    requires s.free > 0 && |queries| == |found|
  {
    Slots(s.free - 1, s.background, s.calls[call := Embedding(queries, found)],
          s.tasks[call := Task(Missing(queries, found), Active, false)], s.acquired + 1, s.released)
  }

  function Ended(s: Slots, call: nat, status: TaskStatus): Slots
    requires call in s.tasks
  {
    s.(tasks := s.tasks[call := s.tasks[call].(status := status)])
  }

  /** The caller returns and its slot with it. */
  function Returning(s: Slots, call: nat, outcome: Outcome): Slots
    requires call in s.calls
  {
    s.(calls := s.calls[call := Done(s.calls[call].queries, outcome)], free := s.free + 1, released := s.released + 1)
  }

  /** The caller returns, its embedding stays behind with the slot. Over the bound it is also asked to stop. */
  function LeftBehind(cfg: Config, s: Slots, call: nat, outcome: Outcome): Slots
    requires IsEmbedding(s, call)
  {
    s.(calls := s.calls[call := Done(s.calls[call].queries, outcome)],
       tasks := if |s.background| >= cfg.maxBackground then s.tasks[call := s.tasks[call].(cancelRequested := true)] else s.tasks,
       background := s.background + {call})
  }

  function Collected(s: Slots, call: nat): Slots {
    s.(background := s.background - {call}, free := s.free + 1, released := s.released + 1)
  }

  /** The calls whose embedding still runs on their behalf. */
  function Held(calls: map<nat, Call>): set<nat> {
    set c | c in calls && calls[c].Embedding?
  }

  /** Conservation: every slot is free, held by a caller or kept by a background task. */
  predicate Counted(cfg: Config, s: Slots) {
    && s.free + |Held(s.calls)| + |s.background| == cfg.maxConcurrency
    && s.released + |Held(s.calls)| + |s.background| == s.acquired
  }

  predicate Paired(s: Slots) {
    forall c :: c in s.calls && !s.calls[c].Done? ==> |s.calls[c].queries| == |s.calls[c].found|
  }

  /** Who owns which task. A running task is held or in the background; a task in the background has no
      waiting caller. */
  predicate Owned(s: Slots) {
    && Paired(s)
    && (forall c :: c in s.calls && s.calls[c].Embedding? ==>
          && c in s.tasks && c !in s.background && !s.tasks[c].cancelRequested
          && s.tasks[c].queries == Missing(s.calls[c].queries, s.calls[c].found))
    && (forall c :: c in s.calls && s.calls[c].Waiting? ==> c !in s.tasks)
    && s.background <= s.tasks.Keys <= s.calls.Keys
    && (forall c :: c in s.tasks && s.tasks[c].status.Active? ==> c in s.background || s.calls[c].Embedding?)
  }

  /** Only a task that was asked to stop ends by being stopped, so no waiting caller sees that. */
  predicate StopsOnRequest(s: Slots) {
    forall c :: c in s.tasks && s.tasks[c].status.Stopped? ==> s.tasks[c].cancelRequested
  }

  /** A task is asked to stop only where the bounds allow that at all. */
  predicate Polite(cfg: Config, s: Slots) {
    forall c :: c in s.tasks && s.tasks[c].cancelRequested ==> cfg.maxBackground < cfg.maxConcurrency
  }

  predicate SlotInv(cfg: Config, s: Slots) {
    Counted(cfg, s) && Owned(s) && StopsOnRequest(s) && Polite(cfg, s)
  }

  lemma HeldAfter(calls: map<nat, Call>, call: nat, c: Call)
    ensures Held(calls[call := c]) == if c.Embedding? then Held(calls) + {call} else Held(calls) - {call}
  {
  }

  lemma MovingKeepsSlots(cfg: Config, s: Slots, call: nat, c: Call)
    requires SlotInv(cfg, s) && !c.Embedding? && (call in s.calls ==> s.calls[call].Waiting?)
    requires c.Waiting? ==> |c.queries| == |c.found|
    ensures SlotInv(cfg, Moved(s, call, c))
  {
    HeldAfter(s.calls, call, c);
    assert Held(s.calls) - {call} == Held(s.calls);
  }

  lemma TakingKeepsSlots(cfg: Config, s: Slots, call: nat)
    requires SlotInv(cfg, s) && IsWaiting(s, call) && s.free > 0
    ensures SlotInv(cfg, Taken(s, call, s.calls[call].queries, s.calls[call].found))
  {
    HeldAfter(s.calls, call, Embedding(s.calls[call].queries, s.calls[call].found));
  }

  lemma ReturningKeepsSlots(cfg: Config, s: Slots, call: nat, outcome: Outcome)
    requires SlotInv(cfg, s) && IsEmbedding(s, call) && !s.tasks[call].status.Active?
    ensures SlotInv(cfg, Returning(s, call, outcome))
  {
    HeldAfter(s.calls, call, Done(s.calls[call].queries, outcome));
    assert call in Held(s.calls);
  }

  lemma LeavingBehindKeepsSlots(cfg: Config, s: Slots, call: nat, outcome: Outcome)
    requires SlotInv(cfg, s) && IsEmbedding(s, call)
    ensures SlotInv(cfg, LeftBehind(cfg, s, call, outcome))
  {
    HeldAfter(s.calls, call, Done(s.calls[call].queries, outcome));
    assert call in Held(s.calls);
  }

  lemma CollectingKeepsSlots(cfg: Config, s: Slots, call: nat)
    requires SlotInv(cfg, s) && call in s.background && !s.tasks[call].status.Active?
    ensures SlotInv(cfg, Collected(s, call))
  {
  }

  lemma EndingKeepsSlots(cfg: Config, s: Slots, call: nat, status: TaskStatus)
    requires SlotInv(cfg, s) && call in s.tasks && !status.Active? && (status.Stopped? ==> s.tasks[call].cancelRequested)
    ensures SlotInv(cfg, Ended(s, call, status))
  {
    var after := Ended(s, call, status);
    assert after.tasks.Keys == s.tasks.Keys;
    assert forall c :: c in s.tasks && c != call ==> after.tasks[c] == s.tasks[c];
    assert after.calls == s.calls && after.background == s.background;
  }

  function Embeddings(tasks: map<nat, Task>): set<nat> {
    set c | c in tasks && tasks[c].status.Active?
  }

  /** At most `maxConcurrency` embeddings run at any moment. */
  lemma ConcurrencyIsBounded(cfg: Config, s: Slots)
    requires SlotInv(cfg, s)
    ensures |Embeddings(s.tasks)| <= cfg.maxConcurrency
  {
    var slots := s.background + Held(s.calls);
    SubsetSize(Embeddings(s.tasks), slots);
    assert s.background * Held(s.calls) == {};
    assert |slots| == |s.background| + |Held(s.calls)|;
  }

  // ----- the breaker

  function Failing(cfg: Config, h: Health, now: real): Health {
    Health(h.failures + 1, if h.failures + 1 >= cfg.threshold then now + cfg.resetSeconds else h.openUntil, h.attempts + [false], now)
  }

  function Succeeding(h: Health): Health {
    Health(0, 0.0, h.attempts + [true], h.lastFailure)
  }

  /** Completed attempts that failed since the last success. */
  function Trailing(attempts: seq<bool>): nat {
    if attempts == [] || attempts[|attempts| - 1] then 0 else 1 + Trailing(attempts[..|attempts| - 1])
  }

  /** The counter and the deadline are functions of the history. */
  predicate HealthInv(cfg: Config, h: Health, clock: real) {
    && h.failures == Trailing(h.attempts)
    && h.openUntil == (if h.failures > 0 && h.failures >= cfg.threshold then h.lastFailure + cfg.resetSeconds else 0.0)
    && 0.0 <= h.lastFailure <= clock
  }

  lemma FailingKeepsHealth(cfg: Config, h: Health, clock: real, now: real)
    requires HealthInv(cfg, h, clock) && now >= clock
    ensures HealthInv(cfg, Failing(cfg, h, now), now)
  {
    var after := h.attempts + [false];
    assert after[..|after| - 1] == h.attempts;
  }

  lemma {:induction false} TrailingAllFailed(attempts: seq<bool>)
    ensures Trailing(attempts) <= |attempts|
    ensures forall i :: |attempts| - Trailing(attempts) <= i < |attempts| ==> !attempts[i]
    ensures Trailing(attempts) < |attempts| ==> attempts[|attempts| - Trailing(attempts) - 1]
  {
    if attempts != [] && !attempts[|attempts| - 1] {
      TrailingAllFailed(attempts[..|attempts| - 1]);
    }
  }

  predicate LastFailed(attempts: seq<bool>, n: int) {
    0 < n <= |attempts| && forall i :: |attempts| - n <= i < |attempts| ==> !attempts[i]
  }

  /** The circuit is open exactly while the last `threshold` completed attempts all failed and the reset
      time since the latest of them has not passed. */
  lemma CircuitOpensExactly(cfg: Config, h: Health, clock: real, now: real)
    requires HealthInv(cfg, h, clock) && now >= clock && cfg.threshold >= 1
    ensures now < h.openUntil <==> LastFailed(h.attempts, cfg.threshold) && now < h.lastFailure + cfg.resetSeconds
  {
    TrailingAllFailed(h.attempts);
    if h.failures < |h.attempts| {
      assert h.attempts[|h.attempts| - h.failures - 1];
    }
  }

  // ----- the whole guard

  function Filled(s: Slots, call: nat): seq<string>
    requires IsEmbedding(s, call) && Paired(s)
  {
    Missing(s.calls[call].queries, s.calls[call].found)
  }

  predicate Enabled(s: State, embed: string -> Vector, e: Event) {
    match e
    case Begin(call, queries, now) => call !in s.slots.calls && now >= s.clock
    case Acquire(call) => IsWaiting(s.slots, call) && s.slots.free > 0
    case LeaveQueue(call, outcome) => IsWaiting(s.slots, call) && (outcome == Unavailable(QueueFull) || outcome == Cancelled)
    case TaskEnds(call, status) =>
      && call in s.slots.tasks && s.slots.tasks[call].status.Active? && !status.Active?
      && (status.Returned? ==> status.vectors == EmbedAll(embed, s.slots.tasks[call].queries))
      && (status.Stopped? ==> s.slots.tasks[call].cancelRequested)
    case Resume(call, now) =>
      IsEmbedding(s.slots, call) && now >= s.clock && (s.slots.tasks[call].status.Returned? || s.slots.tasks[call].status.Raised?)
    case TimeOut(call, now) => IsEmbedding(s.slots, call) && now >= s.clock
    case Abandon(call) => IsEmbedding(s.slots, call)
    case Completed(call) => call in s.slots.background && call in s.slots.tasks && !s.slots.tasks[call].status.Active?
  }

  /** The synchronous part of `embed` before the first await. */
  function Begun(cfg: Config, s: State, call: nat, queries: seq<string>, now: real): State {
    if queries == [] then s.(slots := Moved(s.slots, call, Done([], Answer([], 0))), clock := now)
    else
      var (cache, found) := LookupAll(cfg.policy, s.cache, queries, now);
      var looked := s.(cache := cache, clock := now);
      if Missing(queries, found) == [] then
        looked.(slots := Moved(s.slots, call, Done(queries, Answer(Fill(found, []), |queries|))))
      else if now < s.health.openUntil then looked.(slots := Moved(s.slots, call, Done(queries, Unavailable(CircuitOpen))))
      else looked.(slots := Moved(s.slots, call, Waiting(queries, found)))
  }

  /** The caller wakes up because its embedding ended. */
  function Resumed(cfg: Config, s: State, call: nat, now: real): State
    requires IsEmbedding(s.slots, call) && Paired(s.slots)
  {
    var c := s.slots.calls[call];
    var missing := Filled(s.slots, call);
    var status := s.slots.tasks[call].status;
    if status.Returned? && ValidVectors(status.vectors, |missing|, s.dimension) then
      State(Returning(s.slots, call, Answer(Fill(c.found, status.vectors), |c.queries| - |missing|)),
            Succeeding(s.health),
            StoreAll(cfg.policy, s.cache, missing, status.vectors, now),
            if s.dimension.None? && missing != [] then Some(|status.vectors[0]|) else s.dimension,
            now)
    else
      s.(slots := Returning(s.slots, call, Unavailable(EmbeddingFailed)), health := Failing(cfg, s.health, now), clock := now)
  }

  function Next(cfg: Config, embed: string -> Vector, s: State, e: Event): State
    requires Paired(s.slots) && Enabled(s, embed, e)
  {
    match e
    case Begin(call, queries, now) => Begun(cfg, s, call, queries, now)
    case Acquire(call) => s.(slots := Taken(s.slots, call, s.slots.calls[call].queries, s.slots.calls[call].found))
    case LeaveQueue(call, outcome) => s.(slots := Moved(s.slots, call, Done(s.slots.calls[call].queries, outcome)))
    case TaskEnds(call, status) => s.(slots := Ended(s.slots, call, status))
    case Resume(call, now) => Resumed(cfg, s, call, now)
    case TimeOut(call, now) =>
      s.(slots := LeftBehind(cfg, s.slots, call, Unavailable(TimedOut)), health := Failing(cfg, s.health, now), clock := now)
    case Abandon(call) => s.(slots := LeftBehind(cfg, s.slots, call, Cancelled))
    case Completed(call) => s.(slots := Collected(s.slots, call))
  }

  /** No step creates, loses or doubles a slot. */
  lemma StepKeepsSlots(cfg: Config, embed: string -> Vector, s: State, e: Event)
    requires SlotInv(cfg, s.slots) && Enabled(s, embed, e)
    ensures SlotInv(cfg, Next(cfg, embed, s, e).slots)
  {
    match e
    case Begin(call, queries, now) => MovingKeepsSlots(cfg, s.slots, call, Next(cfg, embed, s, e).slots.calls[call]);
    case Acquire(call) => TakingKeepsSlots(cfg, s.slots, call);
    case LeaveQueue(call, outcome) => MovingKeepsSlots(cfg, s.slots, call, Done(s.slots.calls[call].queries, outcome));
    case TaskEnds(call, status) => EndingKeepsSlots(cfg, s.slots, call, status);
    case Resume(call, now) => ReturningKeepsSlots(cfg, s.slots, call, Next(cfg, embed, s, e).slots.calls[call].outcome);
    case TimeOut(call, now) => LeavingBehindKeepsSlots(cfg, s.slots, call, Unavailable(TimedOut));
    case Abandon(call) => LeavingBehindKeepsSlots(cfg, s.slots, call, Cancelled);
    case Completed(call) => CollectingKeepsSlots(cfg, s.slots, call);
  }

  lemma StepKeepsHealth(cfg: Config, embed: string -> Vector, s: State, e: Event)
    requires Paired(s.slots) && HealthInv(cfg, s.health, s.clock) && Enabled(s, embed, e)
    ensures HealthInv(cfg, Next(cfg, embed, s, e).health, Next(cfg, embed, s, e).clock)
  {
    match e
    case Resume(call, now) => FailingKeepsHealth(cfg, s.health, s.clock, now);
    case TimeOut(call, now) => FailingKeepsHealth(cfg, s.health, s.clock, now);
    case _ =>
  }

  // ----- answers

  ghost predicate Hits(embed: string -> Vector, queries: seq<string>, found: seq<Option<Vector>>) {
    |queries| == |found| && forall i :: 0 <= i < |found| && found[i].Some? ==> found[i].value == embed(queries[i])
  }

  ghost predicate CallInv(embed: string -> Vector, c: Call) {
    match c
    case Done(queries, Answer(vectors, hits)) => vectors == EmbedAll(embed, queries) && 0 <= hits <= |queries|
    case Done(_, _) => true
    case _ => Hits(embed, c.queries, c.found)
  }

  /** Every answer ever given is the embedder's, whatever the cache held. */
  ghost predicate AnswerInv(embed: string -> Vector, s: Slots) {
    && (forall c :: c in s.calls ==> CallInv(embed, s.calls[c]))
    && (forall c :: c in s.tasks && s.tasks[c].status.Returned? ==> s.tasks[c].status.vectors == EmbedAll(embed, s.tasks[c].queries))
  }

  lemma {:induction false} FillCompletes(embed: string -> Vector, queries: seq<string>, found: seq<Option<Vector>>)
    requires Hits(embed, queries, found)
    ensures Fill(found, EmbedAll(embed, Missing(queries, found))) == EmbedAll(embed, queries)
  {
    if found != [] {
      FillCompletes(embed, queries[1..], found[1..]);
      var rest := EmbedAll(embed, Missing(queries[1..], found[1..]));
      assert EmbedAll(embed, queries) == [embed(queries[0])] + EmbedAll(embed, queries[1..]);
      if found[0].None? {
        assert Missing(queries, found) == [queries[0]] + Missing(queries[1..], found[1..]);
        assert EmbedAll(embed, Missing(queries, found)) == [embed(queries[0])] + rest;
      } else {
        assert Missing(queries, found) == Missing(queries[1..], found[1..]);
      }
    }
  }

  ghost predicate Inv(cfg: Config, embed: string -> Vector, s: State) {
    && SlotInv(cfg, s.slots)
    && HealthInv(cfg, s.health, s.clock)
    && AnswerInv(embed, s.slots)
    && CacheInv(cfg.policy, embed, s.cache, s.clock)
  }

  lemma BeginKeepsAnswers(cfg: Config, embed: string -> Vector, s: State, call: nat, queries: seq<string>, now: real)
    requires AnswerInv(embed, s.slots) && CacheInv(cfg.policy, embed, s.cache, s.clock) && now >= s.clock
    ensures AnswerInv(embed, Begun(cfg, s, call, queries, now).slots)
    ensures CacheInv(cfg.policy, embed, Begun(cfg, s, call, queries, now).cache, now)
  {
    LookupAllKeeps(cfg.policy, embed, s.cache, s.clock, queries, now);
    var (cache, found) := LookupAll(cfg.policy, s.cache, queries, now);
    assert Hits(embed, queries, found);
    FillCompletes(embed, queries, found);
    assert Missing(queries, found) == [] ==> EmbedAll(embed, Missing(queries, found)) == [];
    assert CacheInv(cfg.policy, embed, cache, now);
  }

  lemma ResumeKeepsAnswers(cfg: Config, embed: string -> Vector, s: State, call: nat, now: real)
    requires Owned(s.slots) && AnswerInv(embed, s.slots) && CacheInv(cfg.policy, embed, s.cache, s.clock)
    requires IsEmbedding(s.slots, call) && now >= s.clock
    ensures AnswerInv(embed, Resumed(cfg, s, call, now).slots)
    ensures CacheInv(cfg.policy, embed, Resumed(cfg, s, call, now).cache, now)
  {
    var c := s.slots.calls[call];
    var missing := Filled(s.slots, call);
    var status := s.slots.tasks[call].status;
    assert CacheInv(cfg.policy, embed, s.cache, now);
    if status.Returned? && ValidVectors(status.vectors, |missing|, s.dimension) {
      FillCompletes(embed, c.queries, c.found);
      StoreAllKeeps(cfg.policy, embed, s.cache, s.clock, missing, status.vectors, now);
    }
  }

  lemma StepKeepsAnswers(cfg: Config, embed: string -> Vector, s: State, e: Event)
    requires Inv(cfg, embed, s) && Enabled(s, embed, e)
    ensures AnswerInv(embed, Next(cfg, embed, s, e).slots)
    ensures CacheInv(cfg.policy, embed, Next(cfg, embed, s, e).cache, Next(cfg, embed, s, e).clock)
  {
    match e
    case Begin(call, queries, now) => BeginKeepsAnswers(cfg, embed, s, call, queries, now);
    case Resume(call, now) => ResumeKeepsAnswers(cfg, embed, s, call, now);
    case _ =>
  }

  /** One step of any kind keeps everything. */
  lemma StepKeepsInv(cfg: Config, embed: string -> Vector, s: State, e: Event)
    requires Inv(cfg, embed, s) && Enabled(s, embed, e)
    ensures Inv(cfg, embed, Next(cfg, embed, s, e))
  {
    StepKeepsSlots(cfg, embed, s, e);
    StepKeepsHealth(cfg, embed, s, e);
    StepKeepsAnswers(cfg, embed, s, e);
  }

  /** An event that is not possible changes nothing. */
  ghost function Step(cfg: Config, embed: string -> Vector, s: State, e: Event): State {
    if Paired(s.slots) && Enabled(s, embed, e) then Next(cfg, embed, s, e) else s
  }

  ghost function Run(cfg: Config, embed: string -> Vector, s: State, events: seq<Event>): State
  {
    if events == [] then s
    else
      Step(cfg, embed, Run(cfg, embed, s, events[..|events| - 1]), events[|events| - 1])
  }

  /** Every interleaving of calls, timeouts, cancellations and late completions. */
  lemma {:induction false} RunKeepsInv(cfg: Config, embed: string -> Vector, dimension: Option<nat>, events: seq<Event>)
    ensures Inv(cfg, embed, Run(cfg, embed, Start(cfg, dimension), events))
  {
    if events != [] {
      RunKeepsInv(cfg, embed, dimension, events[..|events| - 1]);
      var before := Run(cfg, embed, Start(cfg, dimension), events[..|events| - 1]);
      var e := events[|events| - 1];
      if Enabled(before, embed, e) {
        StepKeepsInv(cfg, embed, before, e);
      }
    } else {
      assert Held(map[]) == {};
    }
  }

  // ----- what follows for every run

  /** The caller of an embedding always gets to resume once it ended: nobody stops it before. */
  lemma ForegroundIsNeverStopped(cfg: Config, s: Slots, call: nat)
    requires SlotInv(cfg, s) && IsEmbedding(s, call)
    ensures !s.tasks[call].status.Stopped?
  {
  }

  /** A caller that gives up hands its slot to the background, where exactly its own task is asked to stop, and only
      when the background is full. */
  lemma GivingUpHandsOver(cfg: Config, embed: string -> Vector, s: State, e: Event)
    requires SlotInv(cfg, s.slots) && Enabled(s, embed, e) && (e.TimeOut? || e.Abandon?)
    ensures var before, after := s.slots, Next(cfg, embed, s, e).slots;
            && after.free == before.free && |after.background| == |before.background| + 1
            && |Held(after.calls)| == |Held(before.calls)| - 1 && after.released == before.released
            && forall c :: c in after.tasks ==>
                 (after.tasks[c].cancelRequested <==> before.tasks[c].cancelRequested || (c == e.call && |before.background| >= cfg.maxBackground))
  {
    HeldAfter(s.slots.calls, e.call, Done(s.slots.calls[e.call].queries, if e.TimeOut? then Unavailable(TimedOut) else Cancelled));
    assert e.call in Held(s.slots.calls);
  }

  /** A collected task leaves the background and its slot becomes free, once. */
  lemma CollectingFreesOneSlot(cfg: Config, embed: string -> Vector, s: State, call: nat)
    requires SlotInv(cfg, s.slots) && Enabled(s, embed, Completed(call))
    ensures var before, after := s.slots, Next(cfg, embed, s, Completed(call)).slots;
            && after.free == before.free + 1 && |after.background| == |before.background| - 1
            && after.released == before.released + 1 && !Enabled(Next(cfg, embed, s, Completed(call)), embed, Completed(call))
  {
  }

  /** When every embedding has ended and been collected, every slot taken has been given back once. */
  lemma QuiescenceReturnsEverySlot(cfg: Config, s: Slots)
    requires SlotInv(cfg, s)
    ensures Held(s.calls) == {} && s.background == {} <==> s.free == cfg.maxConcurrency
    ensures s.free == cfg.maxConcurrency ==> s.released == s.acquired
  {
  }

  /** Calls 0 to n - 1 each start an embedding and are abandoned. */
  function Overload(n: nat): seq<Event> {
    if n == 0 then [] else Overload(n - 1) + [Begin(n - 1, [""], 0.0), Acquire(n - 1), Abandon(n - 1)]
  }

  ghost predicate Overloaded(cfg: Config, s: State, n: nat) {
    && s.slots.free == cfg.maxConcurrency - n
    && |s.slots.background| == n
    && (forall c :: c in s.slots.calls ==> c < n && s.slots.calls[c].Done?)
    && s.slots.background <= s.slots.calls.Keys == s.slots.tasks.Keys
    && s.health.openUntil == 0.0 && s.clock == 0.0 && s.cache == []
    && (n > cfg.maxBackground ==> exists c :: c in s.slots.tasks && s.slots.tasks[c].cancelRequested)
  }

  lemma RunSnoc(cfg: Config, embed: string -> Vector, s: State, events: seq<Event>, e: Event)
    ensures Run(cfg, embed, s, events + [e]) == Step(cfg, embed, Run(cfg, embed, s, events), e)
  {
    assert (events + [e])[..|events|] == events;
  }

  /** The slots after one more abandoned call. */
  function OneMore(cfg: Config, s: Slots, n: nat): Slots
    requires s.free > 0
  {
    LeftBehind(cfg, Taken(s, n, [""], [None]), n, Cancelled)
  }

  lemma OverloadedOneMore(cfg: Config, s: State, n: nat)
    requires Overloaded(cfg, s, n) && n < cfg.maxConcurrency
    ensures Overloaded(cfg, s.(slots := OneMore(cfg, s.slots, n)), n + 1)
  {
    var after := OneMore(cfg, s.slots, n);
    assert n !in s.slots.background;
    assert after.background == s.slots.background + {n};
    if n >= cfg.maxBackground {
      assert after.tasks[n].cancelRequested;
    }
  }

  lemma StepsOfOneMore(cfg: Config, embed: string -> Vector, s: State, n: nat)
    requires Overloaded(cfg, s, n) && n < cfg.maxConcurrency
    ensures Step(cfg, embed, Step(cfg, embed, Step(cfg, embed, s, Begin(n, [""], 0.0)), Acquire(n)), Abandon(n))
         == s.(slots := OneMore(cfg, s.slots, n))
  {
    assert LookupAll(cfg.policy, [], [""], 0.0) == ([], [None]) by {
      assert [""][..0] == [];
      var none: seq<Option<Vector>> := [];
      assert none + [None] == [None];
    }
    var one := s.(slots := Moved(s.slots, n, Waiting([""], [None])));
    assert Step(cfg, embed, s, Begin(n, [""], 0.0)) == one;
    var two := one.(slots := Taken(one.slots, n, [""], [None]));
    assert Step(cfg, embed, one, Acquire(n)) == two;
    assert two.slots.calls == s.slots.calls[n := Embedding([""], [None])];
    assert two == s.(slots := Taken(s.slots, n, [""], [None]));
  }

  lemma {:induction false} OverloadReaches(cfg: Config, embed: string -> Vector, n: nat)
    requires n <= cfg.maxConcurrency
    ensures Overloaded(cfg, Run(cfg, embed, Start(cfg, None), Overload(n)), n)
  {
    if n > 0 {
      OverloadReaches(cfg, embed, n - 1);
      var s := Run(cfg, embed, Start(cfg, None), Overload(n - 1));
      var before, a, b, c := Overload(n - 1), Begin(n - 1, [""], 0.0), Acquire(n - 1), Abandon(n - 1);
      assert Overload(n) == before + [a] + [b] + [c];
      RunSnoc(cfg, embed, Start(cfg, None), before, a);
      RunSnoc(cfg, embed, Start(cfg, None), before + [a], b);
      RunSnoc(cfg, embed, Start(cfg, None), before + [a] + [b], c);
      StepsOfOneMore(cfg, embed, s, n - 1);
      OverloadedOneMore(cfg, s, n - 1);
    }
  }

  /** After this run some embedding has been asked to stop. */
  ghost predicate Cancels(cfg: Config, embed: string -> Vector, events: seq<Event>) {
    var s := Run(cfg, embed, Start(cfg, None), events).slots;
    exists c :: c in s.tasks && s.tasks[c].cancelRequested
  }

  /** Some run asks an embedding to stop exactly when the background bound is the smaller one. */
  lemma BackgroundIsCancelledIff(cfg: Config, embed: string -> Vector)
    ensures (exists events :: Cancels(cfg, embed, events)) <==> cfg.maxBackground < cfg.maxConcurrency
  {
    forall events | Cancels(cfg, embed, events)
      ensures cfg.maxBackground < cfg.maxConcurrency
    {
      RunKeepsInv(cfg, embed, None, events);
    }
    if cfg.maxBackground < cfg.maxConcurrency {
      OverloadReaches(cfg, embed, cfg.maxBackground + 1);
      assert Cancels(cfg, embed, Overload(cfg.maxBackground + 1));
    }
  }
}
