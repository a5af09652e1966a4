/** The per-client sliding window (app/api/security.py:132-190) against the full history of admissions. */
module RateLimiting {
  import opened Common

  datatype Policy = Policy(limit: int, window: real, maxKeys: int)

  /** Admission times per tracked client, oldest first. */
  type Buckets = map<string, seq<real>>

  /** The last instant that has left the window at `now`. */
  function Cutoff(p: Policy, now: real): real { now - p.window }

  function Pruned(cutoff: real, bucket: seq<real>): seq<real> {
    if bucket == [] || bucket[0] > cutoff then bucket else Pruned(cutoff, bucket[1..])
  }

  lemma {:induction false} PrunedIsSuffix(cutoff: real, bucket: seq<real>)
    ensures var r := Pruned(cutoff, bucket);
            && |r| <= |bucket| && r == bucket[|bucket| - |r|..]
            && forall i :: 0 <= i < |bucket| - |r| ==> bucket[i] <= cutoff
  {
    if bucket != [] && bucket[0] <= cutoff {
      PrunedIsSuffix(cutoff, bucket[1..]);
    }
  }

  // ----- the specification: what the whole history says

  /** The admissions still inside the window. */
  function Live(cutoff: real, times: seq<real>): seq<real> {
    if times == [] then []
    else
      var n := |times| - 1;
      Live(cutoff, times[..n]) + (if times[n] > cutoff then [times[n]] else [])
  }

  /** The admissions in the half-open window that ends at `t`. */
  function InWindow(cutoff: real, t: real, times: seq<real>): seq<real> {
    if times == [] then []
    else
      var n := |times| - 1;
      InWindow(cutoff, t, times[..n]) + (if cutoff < times[n] <= t then [times[n]] else [])
  }

  ghost predicate Sorted(times: seq<real>) {
    forall i, j :: 0 <= i < j < |times| ==> times[i] <= times[j]
  }

  /** Admissions `limit` apart are at least a window apart. */
  ghost predicate Spaced(p: Policy, times: seq<real>) {
    forall i, j :: 0 <= i < j < |times| && j - i >= p.limit ==> times[j] - times[i] >= p.window
  }

  /** The admissions in the window that ends at `now`, counted one by one. */
  lemma {:induction false} LiveCounts(p: Policy, now: real, times: seq<real>)
    ensures |Live(Cutoff(p, now), times)| == |set i: nat | i < |times| && now - times[i] < p.window|
  {
    if times != [] {
      var n := |times| - 1;
      LiveCounts(p, now, times[..n]);
      var before := set i: nat | i < |times[..n]| && now - times[..n][i] < p.window;
      var all := set i: nat | i < |times| && now - times[i] < p.window;
      assert all == if now - times[n] < p.window then before + {n} else before;
    }
  }

  lemma {:induction false} InWindowCounts(p: Policy, t: real, times: seq<real>)
    ensures |InWindow(Cutoff(p, t), t, times)| == |set i: nat | i < |times| && t - p.window < times[i] <= t|
  {
    if times != [] {
      var n := |times| - 1;
      InWindowCounts(p, t, times[..n]);
      var before := set i: nat | i < |times[..n]| && t - p.window < times[..n][i] <= t;
      var all := set i: nat | i < |times| && t - p.window < times[i] <= t;
      assert all == if t - p.window < times[n] <= t then before + {n} else before;
    }
  }

  lemma {:induction false} LiveAtLeast(cutoff: real, times: seq<real>, j: nat)
    requires j <= |times| && forall i :: j <= i < |times| ==> times[i] > cutoff
    ensures |Live(cutoff, times)| >= |times| - j
  {
    if j < |times| {
      LiveAtLeast(cutoff, times[..|times| - 1], j);
    }
  }

  lemma {:induction false} LiveAtMost(cutoff: real, times: seq<real>, j: nat)
    requires j <= |times| && forall i :: 0 <= i < j ==> times[i] <= cutoff
    ensures |Live(cutoff, times)| <= |times| - j
  {
    if times != [] {
      LiveAtMost(cutoff, times[..|times| - 1], if j < |times| then j else j - 1);
    }
  }

  lemma {:induction false} LiveAfterDropped(cutoff: real, dropped: seq<real>, bucket: seq<real>)
    requires forall i :: 0 <= i < |dropped| ==> dropped[i] <= cutoff
    ensures Live(cutoff, dropped + bucket) == Live(cutoff, bucket)
  {
    var whole := dropped + bucket;
    if bucket != [] {
      var n := |bucket| - 1;
      assert whole[..|whole| - 1] == dropped + bucket[..n];
      LiveAfterDropped(cutoff, dropped, bucket[..n]);
    } else {
      assert whole == dropped;
      LiveAtMost(cutoff, dropped, |dropped|);
    }
  }

  lemma {:induction false} AllLive(cutoff: real, times: seq<real>)
    requires forall i :: 0 <= i < |times| ==> times[i] > cutoff
    ensures Live(cutoff, times) == times
  {
    if times != [] {
      AllLive(cutoff, times[..|times| - 1]);
    }
  }

  lemma {:induction false} PrunedIsLive(cutoff: real, bucket: seq<real>)
    requires Sorted(bucket)
    ensures Pruned(cutoff, bucket) == Live(cutoff, bucket)
  {
    if bucket == [] {
    } else if bucket[0] <= cutoff {
      PrunedIsLive(cutoff, bucket[1..]);
      assert bucket == [bucket[0]] + bucket[1..];
      LiveAfterDropped(cutoff, [bucket[0]], bucket[1..]);
    } else {
      AllLive(cutoff, bucket);
    }
  }

  /** An admission below the limit keeps admissions spaced. */
  lemma AdmissionKeepsSpaced(p: Policy, now: real, times: seq<real>)
    requires p.limit >= 1 && Spaced(p, times) && Sorted(times)
    requires |Live(Cutoff(p, now), times)| < p.limit
    ensures Spaced(p, times + [now])
  {
    var all := times + [now];
    forall i, j | 0 <= i < j < |all| && j - i >= p.limit
      ensures all[j] - all[i] >= p.window
    {
      if j == |times| {
        LiveFrom(Cutoff(p, now), times, i);
      } else {
        assert times[j] - times[i] >= p.window;
      }
    }
  }

  lemma LiveFrom(cutoff: real, times: seq<real>, i: nat)
    requires Sorted(times) && i < |times| && |Live(cutoff, times)| < |times| - i
    ensures times[i] <= cutoff
  {
    if times[i] > cutoff {
      forall k | i <= k < |times|
        ensures times[k] > cutoff
      {
        assert k == i || times[i] <= times[k];
      }
      LiveAtLeast(cutoff, times, i);
      assert false;
    }
  }

  /** No half-open window of the history ever holds more than `limit` admissions. */
  lemma WindowHoldsAtMostLimit(p: Policy, t: real, times: seq<real>)
    requires p.limit >= 1 && Sorted(times) && Spaced(p, times)
    ensures |set i: nat | i < |times| && t - p.window < times[i] <= t| <= p.limit
  {
    InWindowAtMostLimit(p, t, times);
    InWindowCounts(p, t, times);
  }

  lemma {:induction false} InWindowAtMostLimit(p: Policy, t: real, times: seq<real>)
    requires p.limit >= 1 && Sorted(times) && Spaced(p, times)
    ensures |InWindow(Cutoff(p, t), t, times)| <= p.limit
  {
    if times != [] {
      var n := |times| - 1;
      if times[n] > t {
        InWindowAtMostLimit(p, t, times[..n]);
      } else {
        LastWindowHoldsAtMostLimit(p, t, times);
      }
    }
  }

  lemma LastWindowHoldsAtMostLimit(p: Policy, t: real, times: seq<real>)
    requires p.limit >= 1 && Sorted(times) && Spaced(p, times) && times != [] && times[|times| - 1] <= t
    ensures |InWindow(Cutoff(p, t), t, times)| <= p.limit
  {
    var n := |times| - 1;
    forall i | 0 <= i < |times|
      ensures times[i] <= t
    {
      assert i == n || times[i] <= times[n];
    }
    InWindowIsLive(Cutoff(p, t), t, times);
    var cut := Max(0, |times| - p.limit);
    forall i | 0 <= i < cut
      ensures times[i] <= Cutoff(p, t)
    {
      assert times[n] - times[i] >= p.window;
    }
    LiveAtMost(Cutoff(p, t), times, cut);
  }

  lemma {:induction false} InWindowIsLive(cutoff: real, t: real, times: seq<real>)
    requires forall i :: 0 <= i < |times| ==> times[i] <= t
    ensures InWindow(cutoff, t, times) == Live(cutoff, times)
  {
    if times != [] {
      InWindowIsLive(cutoff, t, times[..|times| - 1]);
    }
  }

  // ----- buckets against history

  function Of(buckets: Buckets, key: string): seq<real> { if key in buckets then buckets[key] else [] }

  /** What a client's history lacks in its bucket has left the window. */
  ghost predicate EndOf(cutoff: real, history: seq<real>, bucket: seq<real>) {
    && |bucket| <= |history| && bucket == history[|history| - |bucket|..]
    && (forall i :: 0 <= i < |history| - |bucket| ==> history[i] <= cutoff)
  }

  ghost predicate Faithful(p: Policy, now: real, history: seq<real>, bucket: seq<real>) {
    && EndOf(Cutoff(p, now), history, bucket)
    && Sorted(history) && Spaced(p, history)
    && (forall i :: 0 <= i < |history| ==> history[i] <= now)
  }

  ghost predicate Inv(p: Policy, now: real, history: Buckets, buckets: Buckets) {
    && (forall key :: key in history || key in buckets ==> Faithful(p, now, Of(history, key), Of(buckets, key)))
    && (forall key :: key in buckets ==> buckets[key] != [])
  }

  lemma FaithfulLive(p: Policy, now: real, history: seq<real>, bucket: seq<real>)
    requires Faithful(p, now, history, bucket)
    ensures Live(Cutoff(p, now), history) == Pruned(Cutoff(p, now), bucket)
  {
    var n := |history| - |bucket|;
    assert history == history[..n] + bucket;
    LiveAfterDropped(Cutoff(p, now), history[..n], bucket);
    SortedEnd(history, n);
    PrunedIsLive(Cutoff(p, now), bucket);
  }

  lemma SortedEnd(times: seq<real>, n: nat)
    requires Sorted(times) && n <= |times|
    ensures Sorted(times[n..])
  {
  }

  lemma EndOfPruned(cutoff: real, history: seq<real>, bucket: seq<real>)
    requires EndOf(cutoff, history, bucket)
    ensures EndOf(cutoff, history, Pruned(cutoff, bucket))
  {
    PrunedIsSuffix(cutoff, bucket);
    var kept, n := Pruned(cutoff, bucket), |history| - |bucket|;
    forall i | 0 <= i < |history| - |kept|
      ensures history[i] <= cutoff
    {
      if i >= n {
        assert history[i] == bucket[i - n];
      }
    }
  }

  /** Time passes. */
  lemma FaithfulLater(p: Policy, was: real, now: real, history: seq<real>, bucket: seq<real>)
    requires Faithful(p, was, history, bucket) && was <= now
    ensures Faithful(p, now, history, bucket)
  {
  }

  lemma FaithfulPruned(p: Policy, now: real, history: seq<real>, bucket: seq<real>)
    requires Faithful(p, now, history, bucket)
    ensures Faithful(p, now, history, Pruned(Cutoff(p, now), bucket))
  {
    EndOfPruned(Cutoff(p, now), history, bucket);
  }

  lemma NewClient(p: Policy, now: real)
    ensures Faithful(p, now, [], [])
  {
  }

  lemma FaithfulAdmission(p: Policy, now: real, history: seq<real>, bucket: seq<real>)
    requires p.limit >= 1 && Faithful(p, now, history, bucket) && |Live(Cutoff(p, now), history)| < p.limit
    ensures Faithful(p, now, history + [now], bucket + [now])
  {
    AdmissionKeepsSpaced(p, now, history);
  }

  /** A refusal comes exactly when the window that ends now already holds `limit` admissions. */
  lemma RefusedExactlyWhenFull(p: Policy, now: real, history: seq<real>, bucket: seq<real>)
    requires p.limit >= 1 && Faithful(p, now, history, bucket)
    ensures |Pruned(Cutoff(p, now), bucket)| >= p.limit
            <==> |set i: nat | i < |history| && now - p.window < history[i] <= now| == p.limit
    ensures |Pruned(Cutoff(p, now), bucket)| == |set i: nat | i < |history| && now - history[i] < p.window|
  {
    FaithfulLive(p, now, history, bucket);
    InWindowIsLive(Cutoff(p, now), now, history);
    InWindowAtMostLimit(p, now, history);
    InWindowCounts(p, now, history);
    LiveCounts(p, now, history);
  }

  // ----- eviction

  predicate Throttled(p: Policy, bucket: seq<real>) { |bucket| >= p.limit }

  /** The sort key: under the limit first, then the longest idle. */
  predicate NotAfter(p: Policy, a: seq<real>, b: seq<real>)
    requires a != [] && b != []
  {
    (!Throttled(p, a) && Throttled(p, b)) || (Throttled(p, a) == Throttled(p, b) && a[|a| - 1] <= b[|b| - 1])
  }

  predicate First(p: Policy, buckets: Buckets, key: string)
    requires forall k :: k in buckets ==> buckets[k] != []
  {
    key in buckets && forall other :: other in buckets ==> NotAfter(p, buckets[key], buckets[other])
  }

  lemma {:induction false} FirstExists(p: Policy, buckets: Buckets)
    requires buckets != map[] && forall k :: k in buckets ==> buckets[k] != []
    ensures exists key :: First(p, buckets, key)
    decreases |buckets|
  {
    var any :| any in buckets;
    var rest := buckets - {any};
    if rest == map[] {
      assert forall k :: k in buckets ==> k == any by {
        assert forall k :: k in buckets && k != any ==> k in rest;
      }
      assert First(p, buckets, any);
    } else {
      FirstExists(p, rest);
      var best :| First(p, rest, best);
      assert forall k :: k in buckets ==> k == any || k in rest;
      assert First(p, buckets, if NotAfter(p, buckets[best], buckets[any]) then best else any);
    }
  }

  /** What eviction may do to the tracked clients: `swept` holds those still inside their window, and when
      they fill the map, those of `evicted` go, none of which sorts behind a client that stays. */
  ghost predicate Evicts(p: Policy, swept: Buckets, evicted: set<string>, after: Buckets)
    requires forall k :: k in swept ==> swept[k] != []
  {
    && evicted <= swept.Keys && after == swept - evicted
    && (|swept| < p.maxKeys ==> evicted == {})
    && (|swept| >= p.maxKeys ==> |evicted| == Min(|swept|, |swept| - p.maxKeys + 1))
    && forall gone, kept :: gone in evicted && kept in after ==> NotAfter(p, swept[gone], swept[kept])
  }

  ghost function Swept(p: Policy, now: real, buckets: Buckets): (r: Buckets)
    ensures forall k :: k in r ==> r[k] != []
  {
    map key | key in buckets && Pruned(Cutoff(p, now), buckets[key]) != [] :: Pruned(Cutoff(p, now), buckets[key])
  }

  /** What a call does before it tracks a new client. */
  ghost predicate MadeRoom(p: Policy, now: real, before: Buckets, evicted: set<string>, after: Buckets) {
    && (if |before| < p.maxKeys then after == before && evicted == {} else Evicts(p, Swept(p, now, before), evicted, after))
    && |after| < Max(p.maxKeys, 1)
  }

  function Admit(times: seq<real>, allowed: bool, now: real): seq<real> { if allowed then times + [now] else times }

  /** A call leaves at least one client tracked, so a cap below one is never met; every other cap is. */
  lemma CapHolds(p: Policy, now: real, before: Buckets, evicted: set<string>, room: Buckets, key: string, bucket: seq<real>)
    requires |before| <= Max(p.maxKeys, 1)
    requires if key in before then room == before else MadeRoom(p, now, before, evicted, room)
    ensures |room[key := bucket]| <= Max(p.maxKeys, 1)
    ensures |room[key := bucket]| <= p.maxKeys <==> p.maxKeys >= 1
  {
    var after := room[key := bucket];
    assert after.Keys == room.Keys + {key};
    assert |after.Keys| >= 1 by {
      assert key in after.Keys;
    }
  }

  /** A throttled client is evicted only when every tracked client is throttled, and among clients that are alike in
      that the one idle for longer goes first. */
  lemma ThrottledGoLast(p: Policy, swept: Buckets, evicted: set<string>, after: Buckets, gone: string, kept: string)
    requires forall k :: k in swept ==> swept[k] != []
    requires Evicts(p, swept, evicted, after) && gone in evicted && kept in after
    ensures |swept[gone]| >= p.limit ==> |swept[kept]| >= p.limit
    ensures (|swept[gone]| >= p.limit <==> |swept[kept]| >= p.limit) ==> swept[gone][|swept[gone]| - 1] <= swept[kept][|swept[kept]| - 1]
  {
    assert NotAfter(p, swept[gone], swept[kept]);
  }

  lemma LaterKeepsInv(p: Policy, was: real, now: real, history: Buckets, buckets: Buckets)
    requires Inv(p, was, history, buckets) && was <= now
    ensures Inv(p, now, history, buckets)
  {
    forall key | key in history || key in buckets
      ensures Faithful(p, now, Of(history, key), Of(buckets, key))
    {
      FaithfulLater(p, was, now, Of(history, key), Of(buckets, key));
    }
  }

  lemma SweepKeepsInv(p: Policy, now: real, history: Buckets, buckets: Buckets)
    requires Inv(p, now, history, buckets)
    ensures Inv(p, now, history, Swept(p, now, buckets))
  {
    forall key | key in history || key in Swept(p, now, buckets)
      ensures Faithful(p, now, Of(history, key), Of(Swept(p, now, buckets), key))
    {
      FaithfulPruned(p, now, Of(history, key), Of(buckets, key));
    }
  }

  /** Dropping clients whose window has passed forgets nothing; the others lose their history. */
  lemma EvictionKeepsInv(p: Policy, was: real, now: real, history: Buckets, buckets: Buckets, evicted: set<string>, after: Buckets)
    requires Inv(p, was, history, buckets) && was <= now
    requires (after == buckets && evicted == {}) || Evicts(p, Swept(p, now, buckets), evicted, after)
    ensures Inv(p, now, history - evicted, after)
  {
    LaterKeepsInv(p, was, now, history, buckets);
    if after == buckets && evicted == {} {
      assert history - evicted == history;
    } else {
      var swept := Swept(p, now, buckets);
      SweepKeepsInv(p, now, history, buckets);
      forall key | key in history - evicted || key in after
        ensures Faithful(p, now, Of(history - evicted, key), Of(after, key))
      {
        assert key !in evicted && Of(history - evicted, key) == Of(history, key) && Of(after, key) == Of(swept, key);
      }
    }
  }

  lemma AnswerKeepsInv(p: Policy, now: real, history: Buckets, buckets: Buckets, key: string, bucket: seq<real>)
    requires p.limit >= 1 && Inv(p, now, history, buckets) && bucket == Pruned(Cutoff(p, now), Of(buckets, key))
    ensures Inv(p, now, history[key := Admit(Of(history, key), |bucket| < p.limit, now)], buckets[key := Admit(bucket, |bucket| < p.limit, now)])
  {
    var h := Of(history, key);
    if key !in history && key !in buckets {
      NewClient(p, now);
    }
    AnswerIsFaithful(p, now, h, Of(buckets, key), bucket);
  }

  lemma HistoryDecides(p: Policy, now: real, history: Buckets, buckets: Buckets, key: string)
    requires Inv(p, now, history, buckets)
    ensures Live(Cutoff(p, now), Of(history, key)) == Pruned(Cutoff(p, now), Of(buckets, key))
  {
    if key in history || key in buckets {
      FaithfulLive(p, now, Of(history, key), Of(buckets, key));
    }
  }

  lemma AnswerIsFaithful(p: Policy, now: real, history: seq<real>, was: seq<real>, bucket: seq<real>)
    requires p.limit >= 1 && Faithful(p, now, history, was) && bucket == Pruned(Cutoff(p, now), was)
    ensures Faithful(p, now, Admit(history, |bucket| < p.limit, now), Admit(bucket, |bucket| < p.limit, now))
    ensures Admit(bucket, |bucket| < p.limit, now) != []
  {
    FaithfulLive(p, now, history, was);
    FaithfulPruned(p, now, history, was);
    if |bucket| < p.limit {
      FaithfulAdmission(p, now, history, bucket);
    }
  }

  class SlidingWindowRateLimiter {
    const policy: Policy
    var events: Buckets
    /** Every admission since the client was last evicted while still inside its window. */
    ghost var history: Buckets
    ghost var clock: real

    constructor (policy: Policy)
      ensures this.policy == policy && events == map[] && history == map[] && Valid()
    {
      this.policy, events, history, clock := policy, map[], map[], 0.0;
    }

    /** The tracked clients never number more than the cap, or than one when the cap allows none. */
    ghost predicate Valid()
      reads this
    {
      Inv(policy, clock, history, events) && |events| <= Max(policy.maxKeys, 1)
    }

    method PruneBucket(bucket: seq<real>, now: real) returns (kept: seq<real>)
      ensures kept == Pruned(Cutoff(policy, now), bucket)
    {
      kept := bucket;
      while kept != [] && now - kept[0] >= policy.window
        invariant Pruned(Cutoff(policy, now), kept) == Pruned(Cutoff(policy, now), bucket)
      {
        kept := kept[1..];
      }
    }

    method Sweep(now: real)
      modifies this`events
      ensures events == Swept(policy, now, old(events))
    {
      var pending := events.Keys;
      var stale: set<string> := {};
      while pending != {}
        invariant pending <= events.Keys && events.Keys == old(events).Keys && stale <= events.Keys
        invariant forall key :: key in pending ==> events[key] == old(events)[key] && key !in stale
        invariant forall key :: key in events && key !in pending ==>
                    events[key] == Pruned(Cutoff(policy, now), old(events)[key]) && (key in stale <==> events[key] == [])
      {
        var key :| key in pending;
        var kept := PruneBucket(events[key], now);
        events := events[key := kept];
        if kept == [] {
          stale := stale + {key};
        }
        pending := pending - {key};
      }
      events := events - stale;
    }

    method EvictExpired(now: real) returns (ghost evicted: set<string>)
      requires forall key :: key in events ==> events[key] != []
      modifies this`events
      ensures |old(events)| < policy.maxKeys ==> events == old(events) && evicted == {}
      ensures |old(events)| >= policy.maxKeys ==> Evicts(policy, Swept(policy, now, old(events)), evicted, events)
      ensures |events| < Max(policy.maxKeys, 1)
    {
      evicted := {};
      if |events| < policy.maxKeys {
        return;
      }
      Sweep(now);
      if |events| < policy.maxKeys {
        assert events == events - evicted;
        return;
      }
      evicted := EvictFirst(Min(|events|, |events| - policy.maxKeys + 1));
    }

    /** The first `count` of the tracked clients in sorted order. */
    method EvictFirst(count: nat) returns (ghost evicted: set<string>)
      requires count <= |events| && forall key :: key in events ==> events[key] != []
      modifies this`events
      ensures evicted <= old(events).Keys && |evicted| == count && events == old(events) - evicted
      ensures |events| == |old(events)| - count
      ensures forall gone, kept :: gone in evicted && kept in events ==> NotAfter(policy, old(events)[gone], old(events)[kept])
    {
      evicted := {};
      var n := 0;
      while n < count
        invariant n <= count && |evicted| == n && |events| == |old(events)| - n
        invariant evicted <= old(events).Keys && events == old(events) - evicted
        invariant forall gone, kept :: gone in evicted && kept in events ==> NotAfter(policy, old(events)[gone], old(events)[kept])
      {
        FirstExists(policy, events);
        var key :| First(policy, events, key);
        ghost var before := events;
        assert (events - {key}).Keys == events.Keys - {key};
        evicted := evicted + {key};
        events := events - {key};
        assert events == old(events) - evicted;
        n := n + 1;
      }
    }

    /** Room for a client that is not tracked yet. */
    method MakeRoom(key: string, now: real) returns (ghost evicted: set<string>)
      requires Valid() && clock <= now
      modifies this
      ensures clock == now && Valid() && history == old(history) - evicted
      ensures key !in evicted && (key in old(events) <==> key in events)
      ensures if key in old(events) then evicted == {} && events == old(events)
              else MadeRoom(policy, now, old(events), evicted, events)
    {
      evicted := {};
      if key !in events {
        evicted := EvictExpired(now);
        EvictionKeepsInv(policy, clock, now, history, old(events), evicted, events);
      } else {
        LaterKeepsInv(policy, clock, now, history, events);
      }
      history := history - evicted;
      clock := now;
    }

    /** A call is refused exactly when the client's history holds `limit` admissions inside the window that
        ends now. `room` is what the eviction left. */
    method Allow(key: string, now: real) returns (allowed: bool, ghost evicted: set<string>, ghost room: Buckets)
      requires Valid() && clock <= now
      modifies this
      ensures policy.limit < 1 ==> allowed && events == old(events) && history == old(history)
      ensures Valid()
      ensures policy.limit >= 1 ==> clock == now && (|events| <= policy.maxKeys <==> policy.maxKeys >= 1)
      ensures policy.limit >= 1 ==>
                var times := Of(old(history), key);
                allowed <==> |set i: nat | i < |times| && now - times[i] < policy.window| < policy.limit
      ensures policy.limit >= 1 ==> key !in evicted
      ensures policy.limit >= 1 ==> history == (old(history) - evicted)[key := Admit(Of(old(history), key), allowed, now)]
      ensures policy.limit >= 1 ==> events == room[key := Admit(Pruned(Cutoff(policy, now), Of(old(events), key)), allowed, now)]
      ensures policy.limit >= 1 ==>
                if key in old(events) then evicted == {} && room == old(events)
                else MadeRoom(policy, now, old(events), evicted, room)
    {
      if policy.limit < 1 {
        return true, {}, events;
      }
      ghost var times := Of(history, key);
      evicted := MakeRoom(key, now);
      room := events;
      assert Of(history, key) == times;
      allowed := Answer(key, now);
      CapHolds(policy, now, old(events), evicted, room, key, events[key]);
      LiveCounts(policy, now, times);
    }

    /** The answer to a client there is room for. */
    method Answer(key: string, now: real) returns (allowed: bool)
      requires Inv(policy, now, history, events) && policy.limit >= 1
      modifies this`events, this`history
      ensures Inv(policy, now, history, events)
      ensures allowed <==> |Live(Cutoff(policy, now), Of(old(history), key))| < policy.limit
      ensures history == old(history)[key := Admit(Of(old(history), key), allowed, now)]
      ensures events == old(events)[key := Admit(Pruned(Cutoff(policy, now), Of(old(events), key)), allowed, now)]
    {
      var bucket := PruneBucket(if key in events then events[key] else [], now);
      AnswerKeepsInv(policy, now, history, events, key, bucket);
      HistoryDecides(policy, now, history, events, key);
      allowed := |bucket| < policy.limit;
      events := events[key := Admit(bucket, allowed, now)];
      history := history[key := Admit(Of(history, key), allowed, now)];
    }
  }
}
