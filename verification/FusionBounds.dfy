/** What fused scores imply about agreement between two channels (app/consumer/ground_selection.py:32-43,
    128-145; app/rag/pipeline.py:823-838). */
module FusionBounds {
  import opened Common
  import opened RankedLists
  import opened RankFusion

  datatype Policy = Policy(constant: nat, depth: nat, dense: real, lexical: real) {
    predicate Valid() { constant >= 1 && depth >= 1 && dense > 0.0 && lexical > 0.0 }
  }

  /** One query: two rankings no deeper than the candidate depth. */
  datatype Query = Query(dense: seq<string>, lexical: seq<string>) {
    predicate Within(p: Policy) { |dense| <= p.depth && |lexical| <= p.depth }

    function Channels(p: Policy): seq<Channel> { [Channel("dense", p.dense, dense), Channel("lexical", p.lexical, lexical)] }

    predicate Both(id: string) { id in dense && id in lexical }

    predicate One(id: string) { (id in dense) != (id in lexical) }
  }

  function FusedScore(p: Policy, q: Query, id: string): real
    requires p.Valid()
  {
    Contribution(p.constant, q.Channels(p)[0], id) + Contribution(p.constant, q.Channels(p)[1], id)
  }

  lemma FusedScoreIsScore(p: Policy, q: Query, id: string)
    requires p.Valid()
    ensures Score(p.constant, q.Channels(p), id) == FusedScore(p, q, id)
  {
    var channels := q.Channels(p);
    assert channels[..1] == [channels[0]] && [channels[0]][..0] == [];
    assert Score(p.constant, [channels[0]], id) == Score(p.constant, [], id) + Contribution(p.constant, channels[0], id);
  }

  // ----- the arithmetic

  lemma ShareFalls(constant: nat, weight: real, early: nat, late: nat)
    requires constant >= 1 && weight > 0.0 && early <= late
    ensures 0.0 < Share(constant, weight, late) <= Share(constant, weight, early)
  {
    Quotients(weight, (constant + early) as real, (constant + late) as real);
  }

  lemma Quotients(weight: real, small: real, large: real)
    requires weight > 0.0 && 0.0 < small <= large
    ensures 0.0 < weight / large <= weight / small
    ensures small < large ==> weight / large < weight / small
  {
  }

  lemma ContributionBounds(p: Policy, channel: Channel, id: string)
    requires p.Valid() && channel.weight > 0.0 && |channel.ranking| <= p.depth
    ensures 0.0 <= Contribution(p.constant, channel, id) <= Share(p.constant, channel.weight, 1)
    ensures id in channel.ranking ==> Contribution(p.constant, channel, id) >= Share(p.constant, channel.weight, p.depth)
  {
    match RankIn(channel.ranking, id)
    case None =>
      ShareFalls(p.constant, channel.weight, 1, 1);
    case Some(rank) =>
      ShareFalls(p.constant, channel.weight, 1, rank);
      ShareFalls(p.constant, channel.weight, rank, p.depth);
  }

  /** Sharing one denominator. */
  lemma ShareAdds(p: Policy, rank: nat)
    requires p.Valid()
    ensures Share(p.constant, p.dense, rank) + Share(p.constant, p.lexical, rank) == Share(p.constant, p.dense + p.lexical, rank)
  {
  }

  /** Half the share at rank one against the share at the full depth. */
  lemma HalfShare(constant: nat, depth: nat, weight: real)
    requires constant >= 1 && weight > 0.0
    ensures depth <= constant + 2 ==> Share(constant, weight, depth) >= Share(constant, weight, 1) / 2.0
    ensures depth > constant + 2 ==> Share(constant, weight, depth) < Share(constant, weight, 1) / 2.0
  {
    var half, deep := (2 * constant + 2) as real, (constant + depth) as real;
    assert weight / half == weight / (constant + 1) as real / 2.0 by {
      HalfQuotient(weight, (constant + 1) as real);
      assert half == 2.0 * (constant + 1) as real;
    }
    if depth <= constant + 2 {
      Quotients(weight, deep, half);
    } else {
      Quotients(weight, half, deep);
    }
  }

  lemma HalfQuotient(weight: real, x: real)
    requires x > 0.0
    ensures weight / (2.0 * x) == weight / x / 2.0
  {
  }

  // ----- a relative floor cannot remove a chunk both channels found

  /** Half the best score of any query is no more than the score of a chunk both channels found. */
  ghost predicate FloorSpares(p: Policy, q: Query, id: string, other: Query, best: string)
    requires p.Valid()
  {
    q.Within(p) && q.Both(id) && other.Within(p) ==> FusedScore(p, q, id) >= FusedScore(p, other, best) / 2.0
  }

  lemma FloorSparesWithinDepth(p: Policy, q: Query, id: string, other: Query, best: string)
    requires p.Valid() && p.depth <= p.constant + 2
    ensures FloorSpares(p, q, id, other, best)
  {
    if q.Within(p) && q.Both(id) && other.Within(p) {
      var mine, theirs := q.Channels(p), other.Channels(p);
      ContributionBounds(p, mine[0], id);
      ContributionBounds(p, mine[1], id);
      ContributionBounds(p, theirs[0], best);
      ContributionBounds(p, theirs[1], best);
      ShareAdds(p, 1);
      ShareAdds(p, p.depth);
      HalfShare(p.constant, p.depth, p.dense + p.lexical);
    }
  }

  /** Distinct ids to fill a ranking with. */
  function Fill(n: nat): (r: seq<string>)
    ensures |r| == n && forall i :: 0 <= i < n ==> |r[i]| == i
  {
    if n == 0 then [] else Fill(n - 1) + [seq(n - 1, _ => 'a')]
  }

  lemma RankOfLast(ranking: seq<string>)
    requires ranking != [] && forall i :: 0 <= i < |ranking| - 1 ==> ranking[i] != ranking[|ranking| - 1]
    ensures RankIn(ranking, ranking[|ranking| - 1]) == Some(|ranking|)
  {
    assert ranking[|ranking| - 1] !in ranking[..|ranking| - 1];
  }

  /** Two full rankings that agree on their last id and not on their first. */
  lemma FullRankings(n: nat) returns (a: seq<string>, b: seq<string>)
    requires n >= 1
    ensures |a| == n && |b| == n && RankIn(a, a[0]) == Some(1) && RankIn(a, a[n - 1]) == Some(n) && RankIn(a[..1], a[0]) == Some(1)
    ensures n >= 2 ==> RankIn(b, a[n - 1]) == Some(n) && a[0] !in b
  {
    a := Fill(n);
    RankOfLast(a);
    RankOfFirst(a);
    RankOfLast(a[..1]);
    b := OtherRanking(a);
  }

  lemma OtherRanking(a: seq<string>) returns (b: seq<string>)
    requires a != [] && forall i :: 0 <= i < |a| ==> |a[i]| == i
    ensures |b| == |a| && (|a| >= 2 ==> RankIn(b, a[|a| - 1]) == Some(|a|) && a[0] !in b)
  {
    var z := seq(|a|, _ => 'z');
    b := a[0 := z];
    assert forall i :: 0 <= i < |a| ==> |b[i]| == if i == 0 then |a| else i;
    if |a| >= 2 {
      RankOfLast(b);
    }
  }

  lemma SameInBoth(p: Policy, ranking: seq<string>, id: string, rank: nat)
    requires p.Valid() && RankIn(ranking, id) == Some(rank)
    ensures FusedScore(p, Query(ranking, ranking), id) == Share(p.constant, p.dense + p.lexical, rank)
  {
    ShareAdds(p, rank);
  }

  /** Beyond that depth a floor of half the best score can remove a chunk both channels found. */
  lemma FloorBitesBeyondDepth(p: Policy)
    requires p.Valid() && p.depth > p.constant + 2
    ensures exists q: Query, id: string, other: Query, best: string :: !FloorSpares(p, q, id, other, best)
  {
    var ids, _ := FullRankings(p.depth);
    var best, id := ids[0], ids[p.depth - 1];
    SameInBoth(p, ids, id, p.depth);
    SameInBoth(p, ids[..1], best, 1);
    HalfShare(p.constant, p.depth, p.dense + p.lexical);
    Bites(p, Query(ids, ids), id, Query(ids[..1], ids[..1]), best);
  }

  lemma Bites(p: Policy, q: Query, id: string, other: Query, best: string)
    requires p.Valid() && q.Within(p) && q.Both(id) && other.Within(p)
    requires FusedScore(p, q, id) < FusedScore(p, other, best) / 2.0
    ensures exists q: Query, id: string, other: Query, best: string :: !FloorSpares(p, q, id, other, best)
  {
    assert !FloorSpares(p, q, id, other, best);
  }

  /** The floor never binds exactly when the depth is at most the constant plus two. */
  lemma FloorNeverBindsExactly(p: Policy)
    requires p.Valid()
    ensures (forall q: Query, id: string, other: Query, best: string :: FloorSpares(p, q, id, other, best)) <==> p.depth <= p.constant + 2
  {
    if p.depth <= p.constant + 2 {
      forall q: Query, id: string, other: Query, best: string
        ensures FloorSpares(p, q, id, other, best)
      {
        FloorSparesWithinDepth(p, q, id, other, best);
      }
    } else {
      FloorBitesBeyondDepth(p);
    }
  }

  // ----- agreement tiers

  /** A chunk both channels found scores above any chunk only one found. */
  ghost predicate BothAbove(p: Policy, q: Query, both: string, one: string)
    requires p.Valid()
  {
    q.Within(p) && q.Both(both) && q.One(one) ==> FusedScore(p, q, both) > FusedScore(p, q, one)
  }

  lemma BothAboveWithinDepth(p: Policy, q: Query, both: string, one: string)
    requires p.Valid() && p.dense == p.lexical && p.depth <= p.constant + 1
    ensures BothAbove(p, q, both, one)
  {
    if q.Within(p) && q.Both(both) && q.One(one) {
      var channels := q.Channels(p);
      ContributionBounds(p, channels[0], both);
      ContributionBounds(p, channels[1], both);
      ContributionBounds(p, channels[0], one);
      ContributionBounds(p, channels[1], one);
      TwiceDeep(p);
    }
  }

  lemma TwiceDeep(p: Policy)
    requires p.Valid()
    ensures p.depth <= p.constant + 1 ==> 2.0 * Share(p.constant, p.dense, p.depth) > Share(p.constant, p.dense, 1)
    ensures p.depth >= p.constant + 2 ==> 2.0 * Share(p.constant, p.dense, p.depth) <= Share(p.constant, p.dense, 1)
  {
    var half, deep := (2 * p.constant + 2) as real, (p.constant + p.depth) as real;
    HalfQuotient(p.dense, (p.constant + 1) as real);
    assert half == 2.0 * (p.constant + 1) as real;
    if p.depth <= p.constant + 1 {
      Quotients(p.dense, deep, half);
    } else {
      Quotients(p.dense, half, deep);
    }
  }

  /** One rank deeper the two can tie, and the order of ids decides. */
  lemma BothTiesBeyondDepth(p: Policy)
    requires p.Valid() && p.dense == p.lexical && p.depth >= p.constant + 2
    ensures exists q: Query, both: string, one: string :: !BothAbove(p, q, both, one)
  {
    var ids, others := FullRankings(p.depth);
    var one, both := ids[0], ids[p.depth - 1];
    SameInBothLists(p, ids, others, both, p.depth);
    InDenseOnly(p, ids, others, one, 1);
    TwiceDeep(p);
    Ties(p, Query(ids, others), both, one);
  }

  lemma Ties(p: Policy, q: Query, both: string, one: string)
    requires p.Valid() && q.Within(p) && q.Both(both) && q.One(one) && FusedScore(p, q, both) <= FusedScore(p, q, one)
    ensures exists q: Query, both: string, one: string :: !BothAbove(p, q, both, one)
  {
    assert !BothAbove(p, q, both, one);
  }

  lemma SameInBothLists(p: Policy, a: seq<string>, b: seq<string>, id: string, rank: nat)
    requires p.Valid() && p.dense == p.lexical && RankIn(a, id) == Some(rank) && RankIn(b, id) == Some(rank)
    ensures FusedScore(p, Query(a, b), id) == 2.0 * Share(p.constant, p.dense, rank)
  {
  }

  lemma InDenseOnly(p: Policy, a: seq<string>, b: seq<string>, id: string, rank: nat)
    requires p.Valid() && RankIn(a, id) == Some(rank) && id !in b
    ensures FusedScore(p, Query(a, b), id) == Share(p.constant, p.dense, rank)
  {
  }

  lemma {:induction false} RankOfFirst(ranking: seq<string>)
    requires ranking != []
    ensures RankIn(ranking, ranking[0]) == Some(1)
    decreases |ranking|
  {
    if |ranking| > 1 {
      RankOfFirst(ranking[..|ranking| - 1]);
    } else {
      assert ranking[..0] == [];
    }
  }

  /** With equal weights agreement outranks any single channel exactly when the depth is at most the constant
      plus one. */
  lemma AgreementOutranksExactly(p: Policy)
    requires p.Valid() && p.dense == p.lexical
    ensures (forall q: Query, both: string, one: string :: BothAbove(p, q, both, one)) <==> p.depth <= p.constant + 1
  {
    if p.depth <= p.constant + 1 {
      forall q: Query, both: string, one: string
        ensures BothAbove(p, q, both, one)
      {
        BothAboveWithinDepth(p, q, both, one);
      }
    } else {
      BothTiesBeyondDepth(p);
    }
  }

  /** The items two, one or no channel found, in their order. */
  function OfTier(list: seq<Ranked<Ranks>>, n: nat): seq<Ranked<Ranks>> {
    if list == [] then [] else (if |list[0].item| == n then [list[0]] else []) + OfTier(list[1..], n)
  }

  /** `sorted(list, key=lambda item: -len(item.channel_ranks))`, which is stable. */
  function Tiered(list: seq<Ranked<Ranks>>, most: nat): seq<Ranked<Ranks>>
    decreases most
  {
    OfTier(list, most) + if most == 0 then [] else Tiered(list, most - 1)
  }

  ghost predicate TierSorted(list: seq<Ranked<Ranks>>) {
    forall i, j :: 0 <= i < j < |list| ==> |list[i].item| >= |list[j].item|
  }

  lemma {:induction false} NoneOfTier(list: seq<Ranked<Ranks>>, n: nat)
    requires forall i :: 0 <= i < |list| ==> |list[i].item| != n
    ensures OfTier(list, n) == []
  {
    if list != [] {
      NoneOfTier(list[1..], n);
    }
  }

  lemma {:induction false} TieredFromTop(list: seq<Ranked<Ranks>>, top: nat, most: nat)
    requires top <= most && forall i :: 0 <= i < |list| ==> |list[i].item| <= top
    ensures Tiered(list, most) == Tiered(list, top)
    decreases most
  {
    if top < most {
      NoneOfTier(list, most);
      TieredFromTop(list, top, most - 1);
    }
  }

  lemma {:induction false} TieredBelow(list: seq<Ranked<Ranks>>, most: nat)
    requires list != [] && |list[0].item| > most
    ensures Tiered(list, most) == Tiered(list[1..], most)
    decreases most
  {
    if most > 0 {
      TieredBelow(list, most - 1);
    }
  }

  lemma {:induction false} TieredIsIdentity(list: seq<Ranked<Ranks>>, most: nat)
    requires TierSorted(list) && forall i :: 0 <= i < |list| ==> |list[i].item| <= most
    ensures Tiered(list, most) == list
    decreases |list|
  {
    if list == [] {
      TieredOfNone(most);
    } else {
      var top, rest := |list[0].item|, list[1..];
      TieredIsIdentity(rest, top);
      TieredFromTop(list, top, most);
      TieredHead(list, rest);
    }
  }

  lemma TieredHead(list: seq<Ranked<Ranks>>, rest: seq<Ranked<Ranks>>)
    requires list != [] && rest == list[1..]
    ensures Tiered(list, |list[0].item|) == [list[0]] + Tiered(rest, |list[0].item|)
  {
    var top := |list[0].item|;
    assert OfTier(list, top) == [list[0]] + OfTier(rest, top);
    if top > 0 {
      TieredBelow(list, top - 1);
      Regroup([list[0]], OfTier(rest, top), Tiered(rest, top - 1));
    } else {
      assert OfTier(list, 0) + [] == OfTier(list, 0) && OfTier(rest, 0) + [] == OfTier(rest, 0);
    }
  }

  lemma {:induction false} TieredOfNone(most: nat)
    ensures Tiered([], most) == []
  {
    if most > 0 {
      TieredOfNone(most - 1);
    }
  }

  lemma RanksCount(p: Policy, q: Query, id: string)
    requires p.Valid()
    ensures var ranks := RanksOf(q.Channels(p), id);
            |ranks| == (if id in q.dense then 1 else 0) + (if id in q.lexical then 1 else 0)
  {
    var channels := q.Channels(p);
    assert channels[..1] == [channels[0]] && [channels[0]][..0] == [];
    assert RanksOf([channels[0]], id) == if id in q.dense then map["dense" := RankIn(q.dense, id).value] else map[];
  }

  /** Ordering a fused list by agreement leaves it as it is: with equal weights and a depth of at most the
      constant plus one, the chunks both channels found already come first. */
  lemma TieringChangesNothing(p: Policy, q: Query, before: Order, list: seq<Ranked<Ranks>>)
    requires p.Valid() && p.dense == p.lexical && p.depth <= p.constant + 1 && q.Within(p) && InOrder(before, list)
    requires forall i :: 0 <= i < |list| ==> list[i] in AllFused(p.constant, q.Channels(p))
    ensures Tiered(list, 2) == list
  {
    forall i | 0 <= i < |list|
      ensures |list[i].item| <= 2
    {
      ItemFacts(p, q, list[i]);
    }
    forall i, j | 0 <= i < j < |list|
      ensures |list[i].item| >= |list[j].item|
    {
      assert Precedes(before, list[i], list[j]);
      LaterIsNoHigher(p, q, before, list[i], list[j]);
    }
    TieredIsIdentity(list, 2);
  }

  lemma ItemFacts(p: Policy, q: Query, item: Ranked<Ranks>)
    requires p.Valid() && item in AllFused(p.constant, q.Channels(p))
    ensures item.score == FusedScore(p, q, item.id) && 1 <= |item.item| <= 2
    ensures |item.item| == 2 <==> q.Both(item.id)
    ensures |item.item| == 1 <==> q.One(item.id)
  {
    FusedScoreIsScore(p, q, item.id);
    RanksCount(p, q, item.id);
    IdsOfQuery(p, q);
  }

  lemma LaterIsNoHigher(p: Policy, q: Query, before: Order, a: Ranked<Ranks>, b: Ranked<Ranks>)
    requires p.Valid() && p.dense == p.lexical && p.depth <= p.constant + 1 && q.Within(p) && Precedes(before, a, b)
    requires a in AllFused(p.constant, q.Channels(p)) && b in AllFused(p.constant, q.Channels(p))
    ensures |a.item| >= |b.item|
  {
    ItemFacts(p, q, a);
    ItemFacts(p, q, b);
    BothAboveWithinDepth(p, q, b.id, a.id);
  }

  lemma IdsOfQuery(p: Policy, q: Query)
    ensures forall id :: id in Ids(q.Channels(p)) <==> id in q.dense || id in q.lexical
  {
    var channels := q.Channels(p);
    assert channels[..1] == [channels[0]] && [channels[0]][..0] == [];
    assert Ids([channels[0]]) == Ids([]) + Elements(q.dense);
  }
}
