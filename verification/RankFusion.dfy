/** Reciprocal-rank fusion of the search channels and the agreement tiers
    (app/rag/pipeline.py:769-838), and why a relative floor never binds on fused scores
    (app/consumer/ground_selection.py:32-43, 128-145). */
module RankFusion {
  import opened Common
  import opened RankedLists

  /** One search channel: its name, its weight and the chunk ids it returned, best first. */
  datatype Channel = Channel(name: string, weight: real, ranking: seq<string>)

  type Ranks = map<string, nat>

  // ----- the specification

  /** The rank of a chunk in a ranking, counted from one; only its first place counts. */
  function RankIn(ranking: seq<string>, id: string): (r: Option<nat>)
    ensures r.Some? ==> 1 <= r.value <= |ranking| && ranking[r.value - 1] == id
    ensures r.None? <==> id !in ranking
  {
    if ranking == [] then None
    else
      var earlier := RankIn(ranking[..|ranking| - 1], id);
      assert ranking == ranking[..|ranking| - 1] + [ranking[|ranking| - 1]];
      if earlier.Some? then earlier else if ranking[|ranking| - 1] == id then Some(|ranking|) else None
  }

  function Share(constant: nat, weight: real, rank: nat): real
    requires constant >= 1
  {
    weight / (constant + rank) as real
  }

  function Contribution(constant: nat, channel: Channel, id: string): real
    requires constant >= 1
  {
    match RankIn(channel.ranking, id)
    case None => 0.0
    case Some(rank) => Share(constant, channel.weight, rank)
  }

  function Score(constant: nat, channels: seq<Channel>, id: string): real
    requires constant >= 1
    decreases |channels|
  {
    if channels == [] then 0.0
    else Score(constant, channels[..|channels| - 1], id) + Contribution(constant, channels[|channels| - 1], id)
  }

  function RanksOf(channels: seq<Channel>, id: string): Ranks
    decreases |channels|
  {
    if channels == [] then map[]
    else
      var earlier, last := RanksOf(channels[..|channels| - 1], id), channels[|channels| - 1];
      match RankIn(last.ranking, id)
      case None => earlier
      case Some(rank) => earlier[last.name := rank]
  }

  ghost function Ids(channels: seq<Channel>): set<string>
    decreases |channels|
  {
    if channels == [] then {}
    else Ids(channels[..|channels| - 1]) + Elements(channels[|channels| - 1].ranking)
  }

  function FusedItem(constant: nat, channels: seq<Channel>, id: string): Ranked<Ranks>
    requires constant >= 1
  {
    Ranked(id, Score(constant, channels, id), RanksOf(channels, id))
  }

  ghost function AllFused(constant: nat, channels: seq<Channel>): set<Ranked<Ranks>>
    requires constant >= 1
  {
    set id | id in Ids(channels) :: FusedItem(constant, channels, id)
  }

  // ----- the loop

  ghost predicate DistinctNames(channels: seq<Channel>) {
    forall i, j :: 0 <= i < j < |channels| ==> channels[i].name != channels[j].name
  }

  /** The scores and ranks of every chunk seen in `channels`. */
  ghost predicate Tallied(constant: nat, channels: seq<Channel>, scores: map<string, real>, ranks: map<string, Ranks>)
    requires constant >= 1
  {
    && scores.Keys == Ids(channels) && ranks.Keys == Ids(channels)
    && (forall id :: id in scores ==> scores[id] == Score(constant, channels, id))
    && (forall id :: id in ranks ==> ranks[id] == RanksOf(channels, id))
  }

  lemma {:induction false} Absent(constant: nat, channels: seq<Channel>, id: string)
    requires constant >= 1 && id !in Ids(channels)
    ensures Score(constant, channels, id) == 0.0 && RanksOf(channels, id) == map[]
    decreases |channels|
  {
    if channels != [] {
      Absent(constant, channels[..|channels| - 1], id);
    }
  }

  lemma {:induction false} NamesOfRanks(channels: seq<Channel>, id: string, name: string)
    requires name in RanksOf(channels, id)
    ensures exists i :: 0 <= i < |channels| && channels[i].name == name
    decreases |channels|
  {
    var n := |channels| - 1;
    if name != channels[n].name {
      NamesOfRanks(channels[..n], id, name);
      var i :| 0 <= i < n && channels[..n][i].name == name;
      assert channels[i].name == name;
    }
  }

  /** The channels read so far, the last one up to some rank. */
  function Read(channels: seq<Channel>, i: nat, rank: nat): seq<Channel>
    requires i < |channels| && rank <= |channels[i].ranking|
  {
    channels[..i] + [channels[i].(ranking := channels[i].ranking[..rank])]
  }

  lemma ReadFacts(constant: nat, channels: seq<Channel>, i: nat, rank: nat, id: string)
    requires constant >= 1 && i < |channels| && rank <= |channels[i].ranking|
    ensures var last := channels[i].(ranking := channels[i].ranking[..rank]);
            && Score(constant, Read(channels, i, rank), id) == Score(constant, channels[..i], id) + Contribution(constant, last, id)
            && RanksOf(Read(channels, i, rank), id)
               == (match RankIn(last.ranking, id) case None => RanksOf(channels[..i], id) case Some(r) => RanksOf(channels[..i], id)[last.name := r])
            && Ids(Read(channels, i, rank)) == Ids(channels[..i]) + Elements(last.ranking)
  {
    var read := Read(channels, i, rank);
    assert read[..|read| - 1] == channels[..i];
  }

  /** Whether a chunk already has a rank in the channel being read. */
  lemma RankedAlready(channels: seq<Channel>, i: nat, rank: nat, id: string)
    requires DistinctNames(channels) && i < |channels| && rank <= |channels[i].ranking|
    ensures channels[i].name in RanksOf(Read(channels, i, rank), id) <==> id in channels[i].ranking[..rank]
  {
    ReadFacts(1, channels, i, rank, id);
    if channels[i].name in RanksOf(channels[..i], id) {
      NamesOfRanks(channels[..i], id, channels[i].name);
      var j :| 0 <= j < i && channels[..i][j].name == channels[i].name;
      assert channels[j].name == channels[i].name;
    }
  }

  lemma RankOneMore(ranking: seq<string>, n: nat, id: string)
    requires n < |ranking|
    ensures RankIn(ranking[..n + 1], id)
            == if RankIn(ranking[..n], id).Some? then RankIn(ranking[..n], id) else if ranking[n] == id then Some(n + 1) else None
  {
    assert ranking[..n + 1][..n] == ranking[..n];
  }

  /** What reading one more chunk changes for any chunk. */
  lemma ReadNext(constant: nat, channels: seq<Channel>, i: nat, rank: nat, id: string)
    requires constant >= 1 && i < |channels| && rank < |channels[i].ranking|
    ensures var now, next := Read(channels, i, rank), Read(channels, i, rank + 1);
            var first := id == channels[i].ranking[rank] && id !in channels[i].ranking[..rank];
            && Score(constant, next, id) == Score(constant, now, id) + (if first then Share(constant, channels[i].weight, rank + 1) else 0.0)
            && RanksOf(next, id) == (if first then RanksOf(now, id)[channels[i].name := rank + 1] else RanksOf(now, id))
  {
    ReadFacts(constant, channels, i, rank, id);
    ReadFacts(constant, channels, i, rank + 1, id);
    RankOneMore(channels[i].ranking, rank, id);
  }

  lemma ReadIds(channels: seq<Channel>, i: nat, rank: nat)
    requires i < |channels| && rank < |channels[i].ranking|
    ensures Ids(Read(channels, i, rank + 1)) == Ids(Read(channels, i, rank)) + {channels[i].ranking[rank]}
  {
    var ranking := channels[i].ranking;
    ReadFacts(1, channels, i, rank, ranking[rank]);
    ReadFacts(1, channels, i, rank + 1, ranking[rank]);
    TakeOneMore(ranking, rank);
    assert Elements(ranking[..rank + 1]) == Elements(ranking[..rank]) + {ranking[rank]};
  }

  function RanksKnown(ranks: map<string, Ranks>, id: string): Ranks { if id in ranks then ranks[id] else map[] }

  function ScoreKnown(scores: map<string, real>, id: string): real { if id in scores then scores[id] else 0.0 }

  /** What one more chunk must do to scores and ranks. */
  lemma ReadOneMore(constant: nat, channels: seq<Channel>, i: nat, rank: nat, scores: map<string, real>, ranks: map<string, Ranks>)
    requires constant >= 1 && DistinctNames(channels) && i < |channels| && rank < |channels[i].ranking|
    requires Tallied(constant, Read(channels, i, rank), scores, ranks)
    ensures var id, next, name := channels[i].ranking[rank], Read(channels, i, rank + 1), channels[i].name;
            if name in RanksKnown(ranks, id) then Tallied(constant, next, scores, ranks)
            else Tallied(constant, next, scores[id := ScoreKnown(scores, id) + Share(constant, channels[i].weight, rank + 1)],
                         ranks[id := RanksKnown(ranks, id)[name := rank + 1]])
  {
    RankedAlready(channels, i, rank, channels[i].ranking[rank]);
    KnownIs(constant, Read(channels, i, rank), scores, ranks, channels[i].ranking[rank]);
    if channels[i].ranking[rank] in channels[i].ranking[..rank] {
      ReadAgain(constant, channels, i, rank, scores, ranks);
    } else {
      ReadNew(constant, channels, i, rank, scores, ranks);
    }
  }

  lemma ReadAgain(constant: nat, channels: seq<Channel>, i: nat, rank: nat, scores: map<string, real>, ranks: map<string, Ranks>)
    requires constant >= 1 && DistinctNames(channels) && i < |channels| && rank < |channels[i].ranking|
    requires Tallied(constant, Read(channels, i, rank), scores, ranks) && channels[i].ranking[rank] in channels[i].ranking[..rank]
    ensures Tallied(constant, Read(channels, i, rank + 1), scores, ranks)
  {
    var now, next := Read(channels, i, rank), Read(channels, i, rank + 1);
    forall other
      ensures SameFor(constant, now, next, other)
    {
      ReadNext(constant, channels, i, rank, other);
    }
    RankedAlready(channels, i, rank, channels[i].ranking[rank]);
    ReadIds(channels, i, rank);
    TallySame(constant, now, next, channels[i].ranking[rank], scores, ranks);
  }

  lemma ReadNew(constant: nat, channels: seq<Channel>, i: nat, rank: nat, scores: map<string, real>, ranks: map<string, Ranks>)
    requires constant >= 1 && i < |channels| && rank < |channels[i].ranking|
    requires Tallied(constant, Read(channels, i, rank), scores, ranks) && channels[i].ranking[rank] !in channels[i].ranking[..rank]
    ensures var id, now := channels[i].ranking[rank], Read(channels, i, rank);
            Tallied(constant, Read(channels, i, rank + 1), scores[id := Score(constant, now, id) + Share(constant, channels[i].weight, rank + 1)],
                    ranks[id := RanksOf(now, id)[channels[i].name := rank + 1]])
  {
    var id, now, next := channels[i].ranking[rank], Read(channels, i, rank), Read(channels, i, rank + 1);
    ReadNext(constant, channels, i, rank, id);
    forall other | other != id
      ensures SameFor(constant, now, next, other)
    {
      ReadNext(constant, channels, i, rank, other);
    }
    ReadIds(channels, i, rank);
    TallyNew(constant, now, next, id, scores, ranks);
  }

  lemma KnownIs(constant: nat, now: seq<Channel>, scores: map<string, real>, ranks: map<string, Ranks>, id: string)
    requires constant >= 1 && Tallied(constant, now, scores, ranks)
    ensures ScoreKnown(scores, id) == Score(constant, now, id) && RanksKnown(ranks, id) == RanksOf(now, id)
  {
    if id !in Ids(now) {
      Absent(constant, now, id);
    }
  }

  ghost predicate SameFor(constant: nat, now: seq<Channel>, next: seq<Channel>, id: string)
    requires constant >= 1
  {
    Score(constant, next, id) == Score(constant, now, id) && RanksOf(next, id) == RanksOf(now, id)
  }

  lemma TallySame(constant: nat, now: seq<Channel>, next: seq<Channel>, id: string, scores: map<string, real>, ranks: map<string, Ranks>)
    requires constant >= 1 && Tallied(constant, now, scores, ranks) && Ids(next) == Ids(now) + {id}
    requires forall other :: SameFor(constant, now, next, other)
    requires RanksOf(now, id) != map[]
    ensures Tallied(constant, next, scores, ranks)
  {
    if id !in Ids(now) {
      Absent(constant, now, id);
    }
    assert Ids(next) == Ids(now);
    forall other | other in Ids(now)
      ensures scores[other] == Score(constant, next, other) && ranks[other] == RanksOf(next, other)
    {
      assert SameFor(constant, now, next, other);
    }
  }

  lemma TallyNew(constant: nat, now: seq<Channel>, next: seq<Channel>, id: string, scores: map<string, real>, ranks: map<string, Ranks>)
    requires constant >= 1 && Tallied(constant, now, scores, ranks) && Ids(next) == Ids(now) + {id}
    requires forall other :: other != id ==> SameFor(constant, now, next, other)
    ensures Tallied(constant, next, scores[id := Score(constant, next, id)], ranks[id := RanksOf(next, id)])
  {
    forall other | other in Ids(now) && other != id
      ensures scores[other] == Score(constant, next, other) && ranks[other] == RanksOf(next, other)
    {
      assert SameFor(constant, now, next, other);
    }
  }

  // ----- the program

  datatype Outcome = Fused(items: seq<Ranked<Ranks>>) | Invalid

  method ReadChannel(constant: nat, channels: seq<Channel>, i: nat, scores0: map<string, real>, ranks0: map<string, Ranks>)
    returns (scores: map<string, real>, ranks: map<string, Ranks>)
    requires constant >= 1 && DistinctNames(channels) && i < |channels| && Tallied(constant, channels[..i], scores0, ranks0)
    ensures Tallied(constant, channels[..i + 1], scores, ranks)
  {
    scores, ranks := scores0, ranks0;
    var channel := channels[i];
    StartChannel(constant, channels, i, scores, ranks);
    for n := 0 to |channel.ranking|
      invariant Tallied(constant, Read(channels, i, n), scores, ranks)
    {
      var id := channel.ranking[n];
      ReadOneMore(constant, channels, i, n, scores, ranks);
      if channel.name in RanksKnown(ranks, id) {
        continue;
      }
      ranks := ranks[id := RanksKnown(ranks, id)[channel.name := n + 1]];
      scores := scores[id := ScoreKnown(scores, id) + Share(constant, channel.weight, n + 1)];
    }
    WholeChannel(channels, i);
  }

  lemma WholeChannel(channels: seq<Channel>, i: nat)
    requires i < |channels|
    ensures Read(channels, i, |channels[i].ranking|) == channels[..i + 1]
  {
    assert channels[i].ranking[..|channels[i].ranking|] == channels[i].ranking;
    TakeOneMore(channels, i);
  }

  lemma StartChannel(constant: nat, channels: seq<Channel>, i: nat, scores: map<string, real>, ranks: map<string, Ranks>)
    requires constant >= 1 && i < |channels| && Tallied(constant, channels[..i], scores, ranks)
    ensures Tallied(constant, Read(channels, i, 0), scores, ranks)
  {
    forall id
      ensures Score(constant, Read(channels, i, 0), id) == Score(constant, channels[..i], id)
      ensures RanksOf(Read(channels, i, 0), id) == RanksOf(channels[..i], id)
      ensures Ids(Read(channels, i, 0)) == Ids(channels[..i])
    {
      ReadFacts(constant, channels, i, 0, id);
      assert Elements(channels[i].ranking[..0]) == {};
    }
  }

  /** The fused list: every chunk of any channel by its fused score, with its rank in each channel. */
  method ReciprocalRankFusion(before: Order, channels: seq<Channel>, k: int, constant: int) returns (outcome: Outcome)
    requires TotalOrder(before)
    ensures k < 1 ==> outcome == Fused([])
    ensures k >= 1 ==> (outcome.Invalid? <==> constant < 1 || !DistinctNames(channels) || exists i :: 0 <= i < |channels| && channels[i].weight <= 0.0)
    ensures k >= 1 && outcome.Fused? ==> IsTop(before, outcome.items, AllFused(constant, channels), k)
  {
    if k < 1 {
      return Fused([]);
    }
    if constant < 1 || (exists i :: 0 <= i < |channels| && channels[i].weight <= 0.0)
       || exists i, j :: 0 <= i < j < |channels| && channels[i].name == channels[j].name {
      return Invalid;
    }
    var scores: map<string, real>, ranks: map<string, Ranks> := map[], map[];
    for i := 0 to |channels|
      invariant Tallied(constant, channels[..i], scores, ranks)
    {
      scores, ranks := ReadChannel(constant, channels, i, scores, ranks);
    }
    assert channels[..|channels|] == channels;
    var fused := Items(scores, ranks);
    SortedInOrder(before, fused);
    assert Elements(fused) == AllFused(constant, channels);
    return Fused(Take(Sorted(before, fused), k));
  }

  method Items(scores: map<string, real>, ranks: map<string, Ranks>) returns (items: seq<Ranked<Ranks>>)
    requires scores.Keys == ranks.Keys
    ensures DistinctlyRanked(items) && Elements(items) == set id | id in scores :: Ranked(id, scores[id], ranks[id])
  {
    items := [];
    var pending := scores.Keys;
    while pending != {}
      invariant pending <= scores.Keys && Listed(scores, ranks, scores.Keys - pending, items)
    {
      var id :| id in pending;
      ListedOneMore(scores, ranks, scores.Keys - pending, items, id);
      items := items + [Ranked(id, scores[id], ranks[id])];
      pending := pending - {id};
      assert scores.Keys - pending == scores.Keys - (pending + {id}) + {id};
    }
  }

  ghost predicate Listed(scores: map<string, real>, ranks: map<string, Ranks>, ids: set<string>, items: seq<Ranked<Ranks>>) {
    && ids <= scores.Keys && ids <= ranks.Keys && DistinctlyRanked(items)
    && Elements(items) == set id | id in ids :: Ranked(id, scores[id], ranks[id])
  }

  lemma ListedOneMore(scores: map<string, real>, ranks: map<string, Ranks>, ids: set<string>, items: seq<Ranked<Ranks>>, id: string)
    requires Listed(scores, ranks, ids, items) && id in scores && id in ranks && id !in ids
    ensures Listed(scores, ranks, ids + {id}, items + [Ranked(id, scores[id], ranks[id])])
  {
    var item := Ranked(id, scores[id], ranks[id]);
    assert Elements(items + [item]) == Elements(items) + {item};
    forall i | 0 <= i < |items|
      ensures items[i].id != id
    {
      assert items[i] in Elements(items);
    }
  }
}
