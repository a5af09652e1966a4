/** Which retrieved chunks may be cited: the retrieval-agreement gate, the window of grounds and the anchor
    rule (app/consumer/legal_policy.py:83-130, 181-332). */
module LegalPolicy {
  import opened Common
  import opened Text

  datatype Source = Constitution | ConsumerCode | DataProtection | CivilCode

  predicate Complementary(s: Source) { s == DataProtection || s == CivilCode }

  predicate NeedsAnchor(s: Source) { s == CivilCode }

  const MAX_COMPLEMENTARY := 3
  const AGREEMENT_MAX_RANK := 10
  const ALIAS_SUPPORT_CAP := 3
  const CORROBORATION_RANK := 3

  /** A result of one traced query; channels that did not return the chunk have no rank. */
  datatype Item = Item(rank: nat, chunk: string, dense: Option<nat>, lexical: Option<nat>)

  /** `query` is the normalised text; `items` are in rank order. */
  datatype Trace = Trace(failed: bool, hybrid: bool, degraded: bool, query: string, items: seq<Item>)

  // ----- agreement between the channels of one query

  predicate Agrees(item: Item, maxRank: nat) {
    item.dense.Some? && item.dense.value <= maxRank && item.lexical.Some? && item.lexical.value <= maxRank
  }

  /** The agreeing chunks of the first `n` items, aliases only up to the cap. */
  function Agreeing(items: seq<Item>, alias: string -> bool, maxRank: nat, cap: nat, n: nat): seq<string>
    requires n <= |items|
    decreases n
  {
    if n == 0 then []
    else
      var earlier, item := Agreeing(items, alias, maxRank, cap, n - 1), items[n - 1];
      if !Agrees(item, maxRank) then earlier
      else if alias(item.chunk) && AliasCount(items, alias, maxRank, cap, n - 1) == cap then earlier
      else earlier + [item.chunk]
  }

  function AliasCount(items: seq<Item>, alias: string -> bool, maxRank: nat, cap: nat, n: nat): (r: nat)
    requires n <= |items|
    ensures r <= cap
    decreases n
  {
    if n == 0 then 0
    else
      var earlier, item := AliasCount(items, alias, maxRank, cap, n - 1), items[n - 1];
      if Agrees(item, maxRank) && alias(item.chunk) && earlier < cap then earlier + 1 else earlier
  }

  function Aliases(chunks: seq<string>, alias: string -> bool): nat {
    if chunks == [] then 0 else Aliases(chunks[..|chunks| - 1], alias) + (if alias(chunks[|chunks| - 1]) then 1 else 0)
  }

  /** A query contributes at most `cap` aliases. */
  lemma {:induction false} AliasesAreCapped(items: seq<Item>, alias: string -> bool, maxRank: nat, cap: nat, n: nat)
    requires n <= |items|
    ensures Aliases(Agreeing(items, alias, maxRank, cap, n), alias) == AliasCount(items, alias, maxRank, cap, n) <= cap
    decreases n
  {
    if n > 0 {
      AliasesAreCapped(items, alias, maxRank, cap, n - 1);
      var earlier := Agreeing(items, alias, maxRank, cap, n - 1);
      assert (earlier + [items[n - 1].chunk])[..|earlier|] == earlier;
    }
  }

  /** The items in front of the `n`-th that agree on an alias. */
  ghost function AgreeingAliases(items: seq<Item>, alias: string -> bool, maxRank: nat, n: nat): set<nat>
    requires n <= |items|
  {
    set j: nat | j < n && Agrees(items[j], maxRank) && alias(items[j].chunk)
  }

  lemma {:induction false} AliasesCounted(items: seq<Item>, alias: string -> bool, maxRank: nat, cap: nat, n: nat)
    requires n <= |items|
    ensures AliasCount(items, alias, maxRank, cap, n) == Min(cap, |AgreeingAliases(items, alias, maxRank, n)|)
    decreases n
  {
    if n > 0 {
      AliasesCounted(items, alias, maxRank, cap, n - 1);
      var earlier := AgreeingAliases(items, alias, maxRank, n - 1);
      assert AgreeingAliases(items, alias, maxRank, n)
          == if Agrees(items[n - 1], maxRank) && alias(items[n - 1].chunk) then earlier + {n - 1} else earlier;
    } else {
      assert AgreeingAliases(items, alias, maxRank, 0) == {};
    }
  }

  /** An alias is among them exactly when it agrees with fewer than `cap` agreeing aliases ranked before it. */
  lemma {:induction false} AliasAgreesExactly(items: seq<Item>, alias: string -> bool, maxRank: nat, cap: nat, n: nat, chunk: string)
    requires n <= |items| && alias(chunk)
    ensures chunk in Agreeing(items, alias, maxRank, cap, n)
      <==> exists i :: 0 <= i < n && items[i].chunk == chunk && Agrees(items[i], maxRank) && |AgreeingAliases(items, alias, maxRank, i)| < cap
    decreases n
  {
    if n > 0 {
      AliasAgreesExactly(items, alias, maxRank, cap, n - 1, chunk);
      AliasesCounted(items, alias, maxRank, cap, n - 1);
    }
  }

  /** An official chunk is among them exactly when both channels ranked it high enough. */
  lemma {:induction false} OfficialAgreesExactly(items: seq<Item>, alias: string -> bool, maxRank: nat, cap: nat, n: nat, chunk: string)
    requires n <= |items| && !alias(chunk)
    ensures chunk in Agreeing(items, alias, maxRank, cap, n) <==> exists i :: 0 <= i < n && items[i].chunk == chunk && Agrees(items[i], maxRank)
    decreases n
  {
    if n > 0 {
      OfficialAgreesExactly(items, alias, maxRank, cap, n - 1, chunk);
    }
  }

  // ----- corroboration across queries

  predicate Hybrid(t: Trace) { !t.failed && t.hybrid && !t.degraded }

  predicate SingleChannel(t: Trace) { !t.failed && !Hybrid(t) }

  /** The queries without both channels that ranked the chunk near the top. */
  function Queries(traces: seq<Trace>, chunk: string, n: nat): (r: set<string>)
    requires n <= |traces|
    decreases n
  {
    if n == 0 then {}
    else Queries(traces, chunk, n - 1) + (if Corroborates(traces[n - 1], chunk) then {traces[n - 1].query} else {})
  }

  predicate Corroborates(t: Trace, chunk: string) {
    SingleChannel(t) && exists i :: 0 <= i < |t.items| && t.items[i].chunk == chunk && t.items[i].rank <= CORROBORATION_RANK
  }

  predicate Independent(a: string, b: string) { Find(a, b, 0).None? && Find(b, a, 0).None? }

  predicate IndependentPair(queries: set<string>) { exists a, b :: a in queries && b in queries && Independent(a, b) }

  // ----- the gate

  /** What supports a chunk: agreement in one query, or two independent queries. */
  predicate Supported(traces: seq<Trace>, alias: string -> bool, chunk: string) {
    || (exists i :: 0 <= i < |traces| && Hybrid(traces[i])
          && chunk in Agreeing(traces[i].items, alias, AGREEMENT_MAX_RANK, ALIAS_SUPPORT_CAP, |traces[i].items|))
    || IndependentPair(Queries(traces, chunk, |traces|))
  }

  /** A query that did not fail, searched without both channels in full, and ranked the chunk third or better. */
  ghost predicate NearTop(t: Trace, chunk: string) {
    !t.failed && (!t.hybrid || t.degraded) && exists i :: 0 <= i < |t.items| && t.items[i].chunk == chunk && t.items[i].rank <= 3
  }

  lemma IndependentExactly(a: string, b: string)
    ensures Independent(a, b) <==> !Occurs(a, b) && !Occurs(b, a)
  {
    FindFinds(a, b);
    FindFinds(b, a);
  }

  lemma {:induction false} QueriesCorroborate(traces: seq<Trace>, chunk: string, n: nat, query: string)
    requires n <= |traces|
    ensures query in Queries(traces, chunk, n) <==> exists i :: 0 <= i < n && Corroborates(traces[i], chunk) && traces[i].query == query
    decreases n
  {
    if n > 0 {
      QueriesCorroborate(traces, chunk, n - 1, query);
    }
  }

  /** An official chunk is supported exactly when some query's two channels agree on it, or two independent
      queries without both channels rank it near the top. */
  lemma OfficialSupportedExactly(traces: seq<Trace>, alias: string -> bool, chunk: string)
    requires !alias(chunk)
    ensures Supported(traces, alias, chunk)
      <==> || (exists i, j :: 0 <= i < |traces| && !traces[i].failed && traces[i].hybrid && !traces[i].degraded
                 && 0 <= j < |traces[i].items| && traces[i].items[j].chunk == chunk
                 && var item := traces[i].items[j];
                    item.dense.Some? && item.dense.value <= 10 && item.lexical.Some? && item.lexical.value <= 10)
           || (exists i, j :: 0 <= i < |traces| && 0 <= j < |traces| && NearTop(traces[i], chunk) && NearTop(traces[j], chunk)
                 && !Occurs(traces[i].query, traces[j].query) && !Occurs(traces[j].query, traces[i].query))
  {
    forall i | 0 <= i < |traces|
      ensures chunk in Agreeing(traces[i].items, alias, AGREEMENT_MAX_RANK, ALIAS_SUPPORT_CAP, |traces[i].items|)
        <==> exists j :: 0 <= j < |traces[i].items| && traces[i].items[j].chunk == chunk && Agrees(traces[i].items[j], AGREEMENT_MAX_RANK)
    {
      OfficialAgreesExactly(traces[i].items, alias, AGREEMENT_MAX_RANK, ALIAS_SUPPORT_CAP, |traces[i].items|, chunk);
    }
    forall query
      ensures query in Queries(traces, chunk, |traces|) <==> exists i :: 0 <= i < |traces| && Corroborates(traces[i], chunk) && traces[i].query == query
    {
      QueriesCorroborate(traces, chunk, |traces|, query);
    }
    forall a, b
      ensures Independent(a, b) <==> !Occurs(a, b) && !Occurs(b, a)
    {
      IndependentExactly(a, b);
    }
    assert forall i :: 0 <= i < |traces| ==> (Corroborates(traces[i], chunk) <==> NearTop(traces[i], chunk));
  }

  /** Every item of a query without both channels, for the chunk it names. */
  function Noted(queries: map<string, set<string>>, item: Item, query: string): map<string, set<string>> {
    if item.rank > CORROBORATION_RANK then queries
    else queries[item.chunk := (if item.chunk in queries then queries[item.chunk] else {}) + {query}]
  }

  function QueriesOf(queries: map<string, set<string>>, chunk: string): set<string> {
    if chunk in queries then queries[chunk] else {}
  }

  method NoteItems(queries0: map<string, set<string>>, t: Trace) returns (queries: map<string, set<string>>)
    requires SingleChannel(t)
    ensures forall chunk :: QueriesOf(queries, chunk) == QueriesOf(queries0, chunk) + (if Corroborates(t, chunk) then {t.query} else {})
  {
    queries := queries0;
    for i := 0 to |t.items|
      invariant forall chunk :: QueriesOf(queries, chunk) == QueriesOf(queries0, chunk)
                  + (if exists j :: 0 <= j < i && t.items[j].chunk == chunk && t.items[j].rank <= CORROBORATION_RANK then {t.query} else {})
    {
      queries := Noted(queries, t.items[i], t.query);
    }
  }

  method AgreeingChunkIds(t: Trace, alias: string -> bool) returns (agreeing: seq<string>)
    ensures agreeing == Agreeing(t.items, alias, AGREEMENT_MAX_RANK, ALIAS_SUPPORT_CAP, |t.items|)
  {
    agreeing := [];
    var aliases := 0;
    for i := 0 to |t.items|
      invariant agreeing == Agreeing(t.items, alias, AGREEMENT_MAX_RANK, ALIAS_SUPPORT_CAP, i)
      invariant aliases == AliasCount(t.items, alias, AGREEMENT_MAX_RANK, ALIAS_SUPPORT_CAP, i)
    {
      if !Agrees(t.items[i], AGREEMENT_MAX_RANK) {
        continue;
      }
      if alias(t.items[i].chunk) {
        if aliases == ALIAS_SUPPORT_CAP {
          continue;
        }
        aliases := aliases + 1;
      }
      agreeing := agreeing + [t.items[i].chunk];
    }
  }

  /** A chunk clears the gate exactly when it is supported. */
  method StronglySupportedChunkIds(traces: seq<Trace>, alias: string -> bool) returns (supported: set<string>)
    ensures forall chunk :: chunk in supported <==> Supported(traces, alias, chunk)
  {
    supported := {};
    var queries: map<string, set<string>> := map[];
    for i := 0 to |traces|
      invariant forall chunk :: chunk in supported <==> AgreedBefore(traces, alias, i, chunk)
      invariant forall chunk :: QueriesOf(queries, chunk) == Queries(traces, chunk, i)
    {
      if traces[i].failed {
        continue;
      }
      if Hybrid(traces[i]) {
        var agreeing := AgreeingChunkIds(traces[i], alias);
        supported := supported + set chunk | chunk in agreeing;
        continue;
      }
      queries := NoteItems(queries, traces[i]);
    }
    supported := supported + set chunk | chunk in queries && IndependentPair(queries[chunk]);
    forall chunk
      ensures chunk in supported <==> Supported(traces, alias, chunk)
    {
      assert QueriesOf(queries, chunk) == Queries(traces, chunk, |traces|);
    }
  }

  predicate AgreedBefore(traces: seq<Trace>, alias: string -> bool, n: nat, chunk: string)
    requires n <= |traces|
  {
    exists i :: 0 <= i < n && Hybrid(traces[i])
      && chunk in Agreeing(traces[i].items, alias, AGREEMENT_MAX_RANK, ALIAS_SUPPORT_CAP, |traces[i].items|)
  }

  // ----- the window of grounds and the anchor rule

  /** `citable` says in force and of a division a notice may cite. */
  datatype Provision = Provision(id: string, source: Source, citable: bool)

  datatype Candidate<T> = Candidate(provision: Provision, item: T)

  function Complements<T>(list: seq<Candidate<T>>): nat {
    if list == [] then 0 else Complements(list[..|list| - 1]) + (if Complementary(list[|list| - 1].provision.source) then 1 else 0)
  }

  /** Different provisions. */
  ghost predicate OnePerProvision<T(!new)>(list: seq<Candidate<T>>) {
    forall i, j :: 0 <= i < j < |list| ==> list[i].provision.id != list[j].provision.id
  }

  /** The candidates that fit the window, best first. */
  method PrecedenceWindow<T(!new)>(candidates: seq<Candidate<T>>, window: nat, lexicalOnly: bool) returns (admitted: seq<Candidate<T>>)
    requires window >= 1
    ensures |admitted| <= window && Complements(admitted) <= MAX_COMPLEMENTARY
    ensures lexicalOnly ==> Complements(admitted) == 0
    ensures Picked(admitted, candidates)
    ensures forall i :: 0 <= i < |candidates| ==> Excused(admitted, candidates, i, lexicalOnly) || (|admitted| == window && Front(admitted, candidates, i))
  {
    admitted := [];
    PickedNothing(candidates[..0]);
    var complementary := 0;
    var i := 0;
    while i < |candidates|
      invariant i <= |candidates| && |admitted| < window && complementary == Complements(admitted) <= MAX_COMPLEMENTARY
      invariant lexicalOnly ==> complementary == 0
      invariant Picked(admitted, candidates[..i])
      invariant Front(admitted, candidates, i) && forall k :: 0 <= k < i ==> Excused(admitted, candidates, k, lexicalOnly)
    {
      PickedMore(admitted, candidates, i);
      var candidate := candidates[i];
      StillExcused(admitted, candidates, i, lexicalOnly);
      i := i + 1;
      if Complementary(candidate.provision.source) {
        if lexicalOnly || complementary >= MAX_COMPLEMENTARY {
          continue;
        }
        complementary := complementary + 1;
      }
      assert (admitted + [candidate])[..|admitted|] == admitted;
      admitted := admitted + [candidate];
      if |admitted| == window {
        PickedAll(admitted, candidates, i);
        FrontFrom(admitted, candidates, i);
        return;
      }
    }
    assert candidates[..i] == candidates;
  }

  /** All admitted candidates stand before the `i`-th. */
  ghost predicate Front<T(!new)>(admitted: seq<Candidate<T>>, candidates: seq<Candidate<T>>, i: nat)
    requires i <= |candidates|
  {
    forall x :: x in admitted ==> x in candidates[..i]
  }

  lemma FrontFrom<T(!new)>(admitted: seq<Candidate<T>>, candidates: seq<Candidate<T>>, i: nat)
    requires i <= |candidates| && Front(admitted, candidates, i)
    ensures forall k :: i <= k < |candidates| ==> Front(admitted, candidates, k)
  {
    forall k, x | i <= k < |candidates| && x in admitted
      ensures x in candidates[..k]
    {
      assert candidates[..k] == candidates[..i] + candidates[i..k];
    }
  }

  /** The `i`-th candidate is admitted, or it is complementary and either no complement is wanted or three before it are
      admitted. */
  ghost predicate Excused<T(!new)>(admitted: seq<Candidate<T>>, candidates: seq<Candidate<T>>, i: nat, lexicalOnly: bool)
    requires i < |candidates|
  {
    || candidates[i] in admitted
    || (&& Complementary(candidates[i].provision.source)
        && (lexicalOnly || (&& Complements(admitted) == MAX_COMPLEMENTARY
                            && forall x :: x in admitted && Complementary(x.provision.source) ==> x in candidates[..i])))
  }

  lemma StillExcused<T(!new)>(admitted: seq<Candidate<T>>, candidates: seq<Candidate<T>>, i: nat, lexicalOnly: bool)
    requires i < |candidates| && Complements(admitted) <= MAX_COMPLEMENTARY && Front(admitted, candidates, i)
    requires forall k :: 0 <= k < i ==> Excused(admitted, candidates, k, lexicalOnly)
    ensures Front(admitted, candidates, i + 1) && Front(admitted + [candidates[i]], candidates, i + 1)
    ensures var complements := Complementary(candidates[i].provision.source);
            if complements && (lexicalOnly || Complements(admitted) == MAX_COMPLEMENTARY)
            then forall k :: 0 <= k < i + 1 ==> Excused(admitted, candidates, k, lexicalOnly)
            else forall k :: 0 <= k < i + 1 ==> Excused(admitted + [candidates[i]], candidates, k, lexicalOnly)
  {
    var x, more := candidates[i], admitted + [candidates[i]];
    TakeOneMore(candidates, i);
    assert more[..|admitted|] == admitted && more[|admitted|] == x;
    assert Complements(more) == Complements(admitted) + if Complementary(x.provision.source) then 1 else 0;
    if !(Complementary(x.provision.source) && (lexicalOnly || Complements(admitted) == MAX_COMPLEMENTARY)) {
      forall k | 0 <= k < i
        ensures Excused(more, candidates, k, lexicalOnly)
      {
        assert Excused(admitted, candidates, k, lexicalOnly);
        if candidates[k] !in admitted && !lexicalOnly {
          assert !Complementary(x.provision.source);
        }
      }
    }
  }

  /** A choice of the candidates in their order: those at rising positions. */
  ghost predicate Picked<T(!new)>(some: seq<Candidate<T>>, all: seq<Candidate<T>>) { exists at: seq<nat> :: PickedAt(some, all, at) }

  ghost predicate PickedAt<T(!new)>(some: seq<Candidate<T>>, all: seq<Candidate<T>>, at: seq<nat>) {
    && |at| == |some| && (forall i, j :: 0 <= i < j < |at| ==> at[i] < at[j])
    && forall i :: 0 <= i < |at| ==> at[i] < |all| && some[i] == all[at[i]]
  }

  lemma PickedFacts<T(!new)>(some: seq<Candidate<T>>, all: seq<Candidate<T>>)
    requires Picked(some, all)
    ensures forall i :: 0 <= i < |some| ==> some[i] in all
    ensures OnePerProvision(all) ==> OnePerProvision(some)
  {
    var at :| PickedAt(some, all, at);
  }

  lemma PickedStep<T(!new)>(some: seq<Candidate<T>>, before: seq<Candidate<T>>, x: Candidate<T>, after: seq<Candidate<T>>)
    requires Picked(some, before) && after == before + [x]
    ensures Picked(some, after) && Picked(some + [x], after)
  {
    var at: seq<nat> :| PickedAt(some, before, at);
    assert PickedAt(some, after, at);
    assert PickedAt(some + [x], after, at + [|before|]);
  }

  lemma PickedMore<T(!new)>(some: seq<Candidate<T>>, all: seq<Candidate<T>>, n: nat)
    requires n < |all| && Picked(some, all[..n])
    ensures Picked(some, all[..n + 1]) && Picked(some + [all[n]], all[..n + 1])
  {
    TakeOneMore(all, n);
    PickedStep(some, all[..n], all[n], all[..n + 1]);
  }

  lemma PickedAll<T(!new)>(some: seq<Candidate<T>>, all: seq<Candidate<T>>, n: nat)
    requires n <= |all| && Picked(some, all[..n])
    ensures Picked(some, all)
  {
    var at :| PickedAt(some, all[..n], at);
    assert PickedAt(some, all, at);
  }

  lemma PickedNothing<T(!new)>(all: seq<Candidate<T>>)
    ensures Picked([], all)
  {
    assert PickedAt([], all, []);
  }

  lemma PickedItself<T(!new)>(all: seq<Candidate<T>>)
    ensures Picked(all, all)
  {
    assert PickedAt(all, all, seq(|all|, i => i));
  }

  /** A choice from a choice is a choice. */
  lemma PickedTwice<T(!new)>(a: seq<Candidate<T>>, b: seq<Candidate<T>>, all: seq<Candidate<T>>)
    requires Picked(a, b) && Picked(b, all)
    ensures Picked(a, all)
  {
    var inner: seq<nat> :| PickedAt(a, b, inner);
    var outer: seq<nat> :| PickedAt(b, all, outer);
    assert PickedAt(a, all, seq(|a|, i requires 0 <= i < |a| => outer[inner[i]]));
  }

  predicate HasAnchor<T>(list: seq<Candidate<T>>) { exists i :: 0 <= i < |list| && list[i].provision.source == ConsumerCode }

  function WithoutAnchored<T>(list: seq<Candidate<T>>): seq<Candidate<T>> {
    if list == [] then []
    else
      WithoutAnchored(list[..|list| - 1]) + (if NeedsAnchor(list[|list| - 1].provision.source) then [] else [list[|list| - 1]])
  }

  function Anchored<T>(list: seq<Candidate<T>>): seq<Candidate<T>> { if HasAnchor(list) then list else WithoutAnchored(list) }

  lemma {:induction false} WithoutAnchoredSizes<T>(list: seq<Candidate<T>>)
    ensures |WithoutAnchored(list)| <= |list| && Complements(WithoutAnchored(list)) <= Complements(list)
    decreases |list|
  {
    if list != [] {
      var n := |list| - 1;
      var earlier := WithoutAnchored(list[..n]);
      WithoutAnchoredSizes(list[..n]);
      assert (earlier + [list[n]])[..|earlier|] == earlier && earlier + [] == earlier;
    }
  }

  lemma {:induction false} WithoutAnchoredPicked<T(!new)>(list: seq<Candidate<T>>)
    ensures Picked(WithoutAnchored(list), list)
    decreases |list|
  {
    if list != [] {
      var n := |list| - 1;
      assert list[..n + 1] == list;
      WithoutAnchoredPicked(list[..n]);
      PickedMore(WithoutAnchored(list[..n]), list, n);
      assert WithoutAnchored(list[..n]) + [] == WithoutAnchored(list[..n]);
    } else {
      PickedNothing(list);
    }
  }

  lemma {:induction false} WithoutAnchoredKeeps<T(!new)>(list: seq<Candidate<T>>, x: Candidate<T>)
    ensures x in WithoutAnchored(list) <==> x in list && !NeedsAnchor(x.provision.source)
    decreases |list|
  {
    if list != [] {
      var n := |list| - 1;
      WithoutAnchoredKeeps(list[..n], x);
      assert list == list[..n] + [list[n]];
    }
  }

  lemma AnchoredIsPicked<T(!new)>(list: seq<Candidate<T>>)
    ensures |Anchored(list)| <= |list| && Complements(Anchored(list)) <= Complements(list) && Picked(Anchored(list), list)
  {
    if HasAnchor(list) {
      PickedItself(list);
    } else {
      WithoutAnchoredSizes(list);
      WithoutAnchoredPicked(list);
    }
  }

  lemma AnchoredHasAnchor<T(!new)>(list: seq<Candidate<T>>, i: nat)
    requires i < |Anchored(list)| && NeedsAnchor(Anchored(list)[i].provision.source)
    ensures HasAnchor(Anchored(list))
  {
    if !HasAnchor(list) {
      WithoutAnchoredKeeps(list, Anchored(list)[i]);
      assert false;
    }
  }

  lemma AnchoredKeeps<T(!new)>(list: seq<Candidate<T>>, i: nat)
    requires i < |list| && (HasAnchor(list) || !NeedsAnchor(list[i].provision.source))
    ensures list[i] in Anchored(list)
  {
    WithoutAnchoredKeeps(list, list[i]);
  }

  /** The anchor rule keeps the order, drops only what needs an anchor, and only when there is none. */
  lemma AnchoredFacts<T(!new)>(list: seq<Candidate<T>>)
    ensures |Anchored(list)| <= |list| && Complements(Anchored(list)) <= Complements(list) && Picked(Anchored(list), list)
    ensures (exists i :: 0 <= i < |Anchored(list)| && NeedsAnchor(Anchored(list)[i].provision.source)) ==> HasAnchor(Anchored(list))
    ensures forall i :: 0 <= i < |list| && (HasAnchor(list) || !NeedsAnchor(list[i].provision.source)) ==> list[i] in Anchored(list)
  {
    AnchoredIsPicked(list);
    if i :| 0 <= i < |Anchored(list)| && NeedsAnchor(Anchored(list)[i].provision.source) {
      AnchoredHasAnchor(list, i);
    }
    forall i | 0 <= i < |list| && (HasAnchor(list) || !NeedsAnchor(list[i].provision.source))
      ensures list[i] in Anchored(list)
    {
      AnchoredKeeps(list, i);
    }
  }
}
