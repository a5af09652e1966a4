/** The ranking metrics of the legal retrieval evaluation (app/evaluation/consumer_runner.py:202-345). */
module RetrievalMetrics {
  import opened Common

  datatype Hit = Hit(provision: string, unit: Option<string>) {
    function Id(): string { if unit.Some? then unit.value else provision }
  }

  /** A graded judgment on an article, or on one of its units. */
  datatype Judgment = Judgment(article: string, unit: Option<string>, grade: nat) {
    predicate Matches(hit: Hit) { if unit.Some? then hit.Id() == unit.value else hit.provision == article }
  }

  function Gain(grade: nat): nat { Power(grade) - 1 }

  function Power(n: nat): (r: nat)
    ensures r >= 1 && (n > 0 ==> r >= 2)
  {
    if n == 0 then 1 else 2 * Power(n - 1)
  }

  /** What a gain is worth at a rank. */
  type Worth = (nat, nat) -> real

  ghost predicate AddsUp(w: Worth, a: nat, b: nat, rank: nat) { w(a + b, rank) == w(a, rank) + w(b, rank) }

  /** Gains add up, are worth something, and are worth no more at a later rank. */
  ghost predicate Discounting(w: Worth) {
    && (forall a: nat, b: nat, rank: nat :: AddsUp(w, a, b, rank))
    && (forall gain: nat, rank: nat :: w(gain, rank) >= 0.0 && (gain > 0 ==> w(gain, rank) > 0.0))
    && (forall gain: nat, early: nat, late: nat :: early <= late ==> w(gain, late) <= w(gain, early))
  }

  /** A gain times a positive discount that never rises, such as 1 / log2(rank + 1). */
  function Discounted(d: nat -> real): Worth { (gain: nat, rank: nat) => gain as real * d(rank) }

  lemma DiscountedDiscounts(d: nat -> real)
    requires forall rank: nat :: d(rank) > 0.0
    requires forall early: nat, late: nat :: early <= late ==> d(late) <= d(early)
    ensures Discounting(Discounted(d))
  {
    var w := Discounted(d);
    forall a: nat, b: nat, rank: nat
      ensures AddsUp(w, a, b, rank)
    {
      Products(a as real, b as real, d(rank), d(rank));
    }
    forall gain: nat, rank: nat
      ensures w(gain, rank) >= 0.0 && (gain > 0 ==> w(gain, rank) > 0.0)
    {
      Products(gain as real, 0.0, d(rank), d(rank));
    }
    forall gain: nat, early: nat, late: nat | early <= late
      ensures w(gain, late) <= w(gain, early)
    {
      assert d(late) <= d(early);
      Products(gain as real, 0.0, d(late), d(early));
    }
  }

  lemma Products(a: real, b: real, low: real, high: real)
    requires a >= 0.0 && 0.0 < low <= high
    ensures (a + b) * low == a * low + b * low
    ensures 0.0 <= a * low <= a * high && (a > 0.0 ==> a * low > 0.0)
  {
  }

  // ----- which hits count

  datatype Ranked = Ranked(rank: nat, hit: Hit)

  predicate Seen(ranked: seq<Ranked>, id: string) { exists i :: 0 <= i < |ranked| && ranked[i].hit.Id() == id }

  /** The first hit of every id, with its rank. */
  function Unique(hits: seq<Hit>): (r: seq<Ranked>)
    ensures |r| <= |hits|
  {
    if hits == [] then []
    else
      var n := |hits| - 1;
      var earlier := Unique(hits[..n]);
      if Seen(earlier, hits[n].Id()) then earlier else earlier + [Ranked(|hits|, hits[n])]
  }

  predicate FirstOfItsId(hits: seq<Hit>, i: nat)
    requires i < |hits|
  {
    forall j :: 0 <= j < i ==> hits[j].Id() != hits[i].Id()
  }

  lemma {:induction false} SeenExactly(hits: seq<Hit>, id: string)
    ensures Seen(Unique(hits), id) <==> exists i :: 0 <= i < |hits| && hits[i].Id() == id
  {
    if hits != [] {
      var n := |hits| - 1;
      SeenExactly(hits[..n], id);
      SeenOneMore(Unique(hits[..n]), Ranked(|hits|, hits[n]));
      if i :| 0 <= i < |hits| && hits[i].Id() == id {
        assert i < n ==> hits[..n][i] == hits[i];
      }
      if i :| 0 <= i < |hits[..n]| && hits[..n][i].Id() == id {
        assert hits[i].Id() == id;
      }
    }
  }

  /** A hit counts when it is the first of its id, under the rank it was returned at. */
  lemma {:induction false} CountedIsFirst(hits: seq<Hit>, x: Ranked)
    ensures x in Unique(hits) <==> 1 <= x.rank <= |hits| && x.hit == hits[x.rank - 1] && FirstOfItsId(hits, x.rank - 1)
  {
    if hits != [] {
      var n := |hits| - 1;
      var earlier := Unique(hits[..n]);
      CountedIsFirst(hits[..n], x);
      SeenExactly(hits[..n], hits[n].Id());
      FirstInFront(hits, n);
      if 1 <= x.rank <= n {
        assert hits[..n][x.rank - 1] == hits[x.rank - 1];
        assert FirstOfItsId(hits[..n], x.rank - 1) <==> FirstOfItsId(hits, x.rank - 1);
      }
      assert x in Unique(hits) <==> x in earlier || (!Seen(earlier, hits[n].Id()) && x == Ranked(|hits|, hits[n]));
    }
  }

  lemma FirstInFront(hits: seq<Hit>, n: nat)
    requires n < |hits|
    ensures FirstOfItsId(hits, n) <==> !exists i :: 0 <= i < |hits[..n]| && hits[..n][i].Id() == hits[n].Id()
  {
    forall i | 0 <= i < n
      ensures hits[..n][i] == hits[i]
    {
    }
  }

  function Top(hits: seq<Hit>, k: nat): seq<Hit> { if k < |hits| then hits[..k] else hits }

  // ----- what they earn

  /** The judgments below `n` that a hit matches. */
  function Matched(judgments: seq<Judgment>, hit: Hit, n: nat): (r: set<nat>)
    requires n <= |judgments|
    ensures forall i :: i in r <==> 0 <= i < n && judgments[i].Matches(hit)
  {
    if n == 0 then {}
    else if judgments[n - 1].Matches(hit) then Matched(judgments, hit, n - 1) + {n - 1}
    else Matched(judgments, hit, n - 1)
  }

  function Judged(judgments: seq<Judgment>, ranked: seq<Ranked>): (r: set<nat>)
    ensures forall i :: i in r ==> i < |judgments|
  {
    if ranked == [] then {}
    else Judged(judgments, ranked[..|ranked| - 1]) + Matched(judgments, ranked[|ranked| - 1].hit, |judgments|)
  }

  /** Judged are the judgments that some counted hit matches. */
  lemma {:induction false} JudgedMeansMatched(judgments: seq<Judgment>, ranked: seq<Ranked>, i: nat)
    requires i < |judgments|
    ensures i in Judged(judgments, ranked) <==> exists j :: 0 <= j < |ranked| && judgments[i].Matches(ranked[j].hit)
  {
    if ranked != [] {
      var n := |ranked| - 1;
      JudgedMeansMatched(judgments, ranked[..n], i);
      if i in Judged(judgments, ranked[..n]) {
        var j :| 0 <= j < n && judgments[i].Matches(ranked[..n][j].hit);
        assert judgments[i].Matches(ranked[j].hit);
      }
      if j :| 0 <= j < |ranked| && judgments[i].Matches(ranked[j].hit) {
        assert j < n ==> ranked[..n][j] == ranked[j];
      }
    }
  }

  /** The highest grade among some of the judgments below `n`. */
  function MaxGrade(judgments: seq<Judgment>, some: set<nat>, n: nat): (r: nat)
    requires n <= |judgments|
    ensures forall i :: 0 <= i < n && i in some ==> judgments[i].grade <= r
    ensures r == 0 || exists i :: 0 <= i < n && i in some && judgments[i].grade == r
  {
    if n == 0 then 0
    else if n - 1 in some then Max(MaxGrade(judgments, some, n - 1), judgments[n - 1].grade)
    else MaxGrade(judgments, some, n - 1)
  }

  function NewMatches(judgments: seq<Judgment>, ranked: seq<Ranked>, hit: Hit): set<nat> {
    Matched(judgments, hit, |judgments|) - Judged(judgments, ranked)
  }

  datatype Earned = Earned(rank: nat, gain: nat)

  /** Every hit earns the best of the judgments that no earlier hit matched. */
  function Earnings(judgments: seq<Judgment>, ranked: seq<Ranked>): seq<Earned> {
    if ranked == [] then []
    else
      var n := |ranked| - 1;
      var added := NewMatches(judgments, ranked[..n], ranked[n].hit);
      if added == {} then Earnings(judgments, ranked[..n])
      else Earnings(judgments, ranked[..n]) + [Earned(ranked[n].rank, Gain(MaxGrade(judgments, added, |judgments|)))]
  }

  function Dcg(w: Worth, earned: seq<Earned>): real {
    if earned == [] then 0.0
    else Dcg(w, earned[..|earned| - 1]) + w(earned[|earned| - 1].gain, earned[|earned| - 1].rank)
  }

  // ----- the ideal

  function InsertDown(x: nat, s: seq<nat>): seq<nat> {
    if s == [] || x >= s[0] then [x] + s else [s[0]] + InsertDown(x, s[1..])
  }

  /** `sorted(..., reverse=True)`. */
  function SortedDown(s: seq<nat>): seq<nat> {
    if s == [] then [] else InsertDown(s[|s| - 1], SortedDown(s[..|s| - 1]))
  }

  function Gains(judgments: seq<Judgment>): (r: seq<nat>)
    ensures |r| == |judgments| && forall i :: 0 <= i < |r| ==> r[i] == Gain(judgments[i].grade)
  {
    if judgments == [] then [] else Gains(judgments[..|judgments| - 1]) + [Gain(judgments[|judgments| - 1].grade)]
  }

  /** The discounted sum of gains at ranks 1, 2, ... */
  function Weighted(w: Worth, gains: seq<nat>): real {
    if gains == [] then 0.0 else Weighted(w, gains[..|gains| - 1]) + w(gains[|gains| - 1], |gains|)
  }

  function Best(ideal: seq<nat>, k: nat): seq<nat> { if k < |ideal| then ideal[..k] else ideal }

  function Idcg(w: Worth, judgments: seq<Judgment>, k: nat): real {
    Weighted(w, Best(SortedDown(Gains(judgments)), k))
  }

  // ----- the ideal really is the best

  ghost predicate Descending(s: seq<nat>) {
    forall i, j :: 0 <= i < j < |s| ==> s[i] >= s[j]
  }

  lemma {:induction false} InsertDownKeeps(x: nat, s: seq<nat>)
    ensures multiset(InsertDown(x, s)) == multiset(s) + multiset{x}
  {
    if s != [] && x < s[0] {
      InsertDownKeeps(x, s[1..]);
      assert s == [s[0]] + s[1..];
    }
  }

  lemma {:induction false} InsertDownSorts(x: nat, s: seq<nat>)
    requires Descending(s)
    ensures Descending(InsertDown(x, s)) && multiset(InsertDown(x, s)) == multiset(s) + multiset{x}
  {
    InsertDownKeeps(x, s);
    if s != [] && x < s[0] {
      InsertDownSorts(x, s[1..]);
      var rest := InsertDown(x, s[1..]);
      forall i | 0 <= i < |rest|
        ensures s[0] >= rest[i]
      {
        InsertedFrom(x, s[1..], rest, i);
      }
      InFrontOfSmaller(s[0], rest);
    }
  }

  lemma InFrontOfSmaller(x: nat, rest: seq<nat>)
    requires Descending(rest) && forall i :: 0 <= i < |rest| ==> x >= rest[i]
    ensures Descending([x] + rest)
  {
  }

  lemma InsertedFrom(x: nat, s: seq<nat>, rest: seq<nat>, i: nat)
    requires multiset(rest) == multiset(s) + multiset{x} && i < |rest|
    ensures rest[i] == x || exists j :: 0 <= j < |s| && s[j] == rest[i]
  {
    assert rest[i] in multiset(rest);
  }

  lemma {:induction false} SortedDownSorts(s: seq<nat>)
    ensures Descending(SortedDown(s)) && multiset(SortedDown(s)) == multiset(s) && |SortedDown(s)| == |s|
  {
    if s != [] {
      var n := |s| - 1;
      SortedDownSorts(s[..n]);
      InsertDownSorts(s[n], SortedDown(s[..n]));
      assert s == s[..n] + [s[n]];
      assert |multiset(SortedDown(s))| == |multiset(s)|;
    }
  }

  function Total(s: seq<nat>): nat {
    if s == [] then 0 else Total(s[..|s| - 1]) + s[|s| - 1]
  }

  lemma {:induction false} TotalWithout(s: seq<nat>, i: nat)
    requires i < |s|
    ensures Total(s) == Total(s[..i] + s[i + 1..]) + s[i]
    ensures multiset(s) == multiset(s[..i] + s[i + 1..]) + multiset{s[i]}
  {
    var n := |s| - 1;
    assert s == s[..n] + [s[n]];
    if i == n {
      assert s[..i] + s[i + 1..] == s[..n];
    } else {
      TotalWithout(s[..n], i);
      var rest := s[..i] + s[i + 1..];
      assert rest[..|rest| - 1] == s[..n][..i] + s[..n][i + 1..];
      assert rest == rest[..|rest| - 1] + [s[n]];
    }
  }

  /** No choice of elements sums to more than as many of the largest. */
  lemma {:induction false} LargestSumMost(x: seq<nat>, s: seq<nat>)
    requires Descending(s) && multiset(x) <= multiset(s)
    ensures |x| <= |s| && Total(x) <= Total(s[..|x|])
    decreases |s|
  {
    if s == [] {
      NoElements(x);
    } else {
      var n := |s| - 1;
      if s[n] in x {
        var i :| 0 <= i < |x| && x[i] == s[n];
        var rest := x[..i] + x[i + 1..];
        TotalWithout(x, i);
        SmallestDropped(x, s, i);
        LargestSumMost(rest, s[..n]);
        assert s[..n][..|rest|] == s[..|rest|];
        assert s[..|x|][..|rest|] == s[..|rest|];
        assert s[|rest|] >= s[n];
      } else {
        SmallestUnused(x, s);
        LargestSumMost(x, s[..n]);
        assert s[..n][..|x|] == s[..|x|];
      }
    }
  }

  lemma SmallestDropped(x: seq<nat>, s: seq<nat>, i: nat)
    requires s != [] && multiset(x) <= multiset(s) && i < |x| && x[i] == s[|s| - 1]
    ensures multiset(x[..i] + x[i + 1..]) <= multiset(s[..|s| - 1])
  {
    var n := |s| - 1;
    assert s == s[..n] + [s[n]];
    TotalWithout(x, i);
    OneLess(multiset(x[..i] + x[i + 1..]), multiset(s[..n]), s[n]);
  }

  lemma OneLess(a: multiset<nat>, b: multiset<nat>, m: nat)
    requires a + multiset{m} <= b + multiset{m}
    ensures a <= b
  {
    forall y
      ensures a[y] <= b[y]
    {
      assert (a + multiset{m})[y] <= (b + multiset{m})[y];
    }
  }

  lemma NoElements(x: seq<nat>)
    requires multiset(x) <= multiset([])
    ensures x == []
  {
    assert multiset(x) == multiset{};
    assert |multiset(x)| == |x|;
  }

  lemma SmallestUnused(x: seq<nat>, s: seq<nat>)
    requires s != [] && multiset(x) <= multiset(s) && s[|s| - 1] !in x
    ensures multiset(x) <= multiset(s[..|s| - 1])
  {
    var n := |s| - 1;
    assert s == s[..n] + [s[n]];
    forall y
      ensures multiset(x)[y] <= multiset(s[..n])[y]
    {
      if y == s[n] {
        assert y !in multiset(x);
      }
    }
  }

  /** Every prefix sums to at most that of `h`. */
  ghost predicate Dominated(g: seq<nat>, h: seq<nat>) {
    |g| == |h| && Total(g) <= Total(h) && (g != [] ==> Dominated(g[..|g| - 1], h[..|h| - 1]))
  }

  /** When every prefix sum is at most that of `h`, so is the discounted sum (summation by parts). */
  lemma {:induction false} PrefixesDominate(w: Worth, g: seq<nat>, h: seq<nat>)
    requires Discounting(w) && Dominated(g, h)
    ensures Weighted(w, h) - Weighted(w, g) >= w(Total(h) - Total(g), |g|)
  {
    if g == [] {
      assert AddsUp(w, 0, 0, 0);
    } else {
      var n := |g| - 1;
      PrefixesDominate(w, g[..n], h[..n]);
      var surplus, next := Total(h[..n]) - Total(g[..n]), Total(h) - Total(g);
      assert AddsUp(w, surplus, h[n], n + 1) && AddsUp(w, next, g[n], n + 1);
      assert w(surplus, n + 1) <= w(surplus, n);
    }
  }

  // ----- what the hits earn is a choice of the judgments' gains

  ghost predicate RanksClimb(ranked: seq<Ranked>, n: nat) {
    && (forall i :: 0 <= i < |ranked| ==> i + 1 <= ranked[i].rank <= n)
    && (forall i, j :: 0 <= i < j < |ranked| ==> ranked[i].rank < ranked[j].rank)
  }

  lemma {:induction false} UniqueClimbs(hits: seq<Hit>)
    ensures RanksClimb(Unique(hits), |hits|)
  {
    if hits != [] {
      UniqueClimbs(hits[..|hits| - 1]);
    }
  }

  lemma {:induction false} EarningsClimb(judgments: seq<Judgment>, ranked: seq<Ranked>, n: nat)
    requires RanksClimb(ranked, n)
    ensures |Earnings(judgments, ranked)| <= |ranked|
    ensures forall i :: 0 <= i < |Earnings(judgments, ranked)| ==> i + 1 <= Earnings(judgments, ranked)[i].rank <= n
  {
    if ranked != [] {
      EarningsClimb(judgments, ranked[..|ranked| - 1], n);
    }
  }

  /** Every gain is that of a judgment of its own. */
  lemma {:induction false} EarnedOnce(judgments: seq<Judgment>, ranked: seq<Ranked>) returns (credited: seq<nat>)
    ensures |credited| == |Earnings(judgments, ranked)| && Distinct(credited)
    ensures forall i :: 0 <= i < |credited| ==> credited[i] in Judged(judgments, ranked) && credited[i] < |judgments|
    ensures forall i :: 0 <= i < |credited| ==> Earnings(judgments, ranked)[i].gain == Gain(judgments[credited[i]].grade)
  {
    if ranked == [] {
      return [];
    }
    var n := |ranked| - 1;
    credited := EarnedOnce(judgments, ranked[..n]);
    var added := NewMatches(judgments, ranked[..n], ranked[n].hit);
    if added != {} {
      var best := MaxGrade(judgments, added, |judgments|);
      var any :| any in added;
      var index :| index in added && judgments[index].grade == best;
      credited := credited + [index];
    }
  }

  lemma {:induction false} PickedAreSome(all: seq<nat>, indexes: seq<nat>, picked: seq<nat>)
    requires Distinct(indexes) && |picked| == |indexes|
    requires forall i :: 0 <= i < |indexes| ==> indexes[i] < |all| && picked[i] == all[indexes[i]]
    ensures multiset(picked) <= multiset(all)
    decreases |all|
  {
    if all == [] {
      assert picked == [];
    } else {
      var n := |all| - 1;
      assert all == all[..n] + [all[n]];
      if n in indexes {
        var p :| 0 <= p < |indexes| && indexes[p] == n;
        PickedAreSome(all[..n], indexes[..p] + indexes[p + 1..], picked[..p] + picked[p + 1..]);
        TotalWithout(picked, p);
      } else {
        forall i | 0 <= i < |indexes|
          ensures indexes[i] < n
        {
          assert indexes[i] in indexes;
        }
        PickedAreSome(all[..n], indexes, picked);
      }
    }
  }

  function GainsOf(earned: seq<Earned>): (r: seq<nat>)
    ensures |r| == |earned| && forall i :: 0 <= i < |r| ==> r[i] == earned[i].gain
  {
    if earned == [] then [] else GainsOf(earned[..|earned| - 1]) + [earned[|earned| - 1].gain]
  }

  lemma EarnedAreSome(judgments: seq<Judgment>, ranked: seq<Ranked>)
    ensures multiset(GainsOf(Earnings(judgments, ranked))) <= multiset(Gains(judgments))
  {
    var credited := EarnedOnce(judgments, ranked);
    var earned := Earnings(judgments, ranked);
    var gains, all := GainsOf(earned), Gains(judgments);
    forall i | 0 <= i < |credited|
      ensures gains[i] == all[credited[i]]
    {
      assert earned[i].gain == Gain(judgments[credited[i]].grade);
    }
    PickedAreSome(all, credited, gains);
  }

  /** The i-th gain comes at rank i or later, where it is worth no more. */
  lemma {:induction false} DcgAtMostWeighted(w: Worth, earned: seq<Earned>)
    requires Discounting(w) && forall i :: 0 <= i < |earned| ==> i + 1 <= earned[i].rank
    ensures 0.0 <= Dcg(w, earned) <= Weighted(w, GainsOf(earned))
  {
    if earned != [] {
      var n := |earned| - 1;
      DcgAtMostWeighted(w, earned[..n]);
      assert w(earned[n].gain, earned[n].rank) <= w(earned[n].gain, n + 1);
    }
  }

  lemma {:induction false} WeightedGrows(w: Worth, gains: seq<nat>, m: nat)
    requires Discounting(w) && m <= |gains|
    ensures 0.0 <= Weighted(w, gains[..m]) <= Weighted(w, gains)
  {
    if m == |gains| {
      assert gains[..m] == gains;
      if m > 0 {
        WeightedGrows(w, gains[..m - 1], m - 1);
        assert gains[..m - 1][..m - 1] == gains[..m - 1];
      }
    } else {
      var n := |gains| - 1;
      WeightedGrows(w, gains[..n], m);
      assert gains[..n][..m] == gains[..m];
    }
  }

  lemma ChoiceAtMostIdeal(w: Worth, chosen: seq<nat>, ideal: seq<nat>)
    requires Discounting(w) && Descending(ideal) && multiset(chosen) <= multiset(ideal)
    ensures |chosen| <= |ideal| && Weighted(w, chosen) <= Weighted(w, ideal[..|chosen|])
  {
    LargestSumMost(chosen, ideal);
    var best := ideal[..|chosen|];
    ChoiceDominated(chosen, ideal);
    PrefixesDominate(w, chosen, best);
    assert w(Total(best) - Total(chosen), |chosen|) >= 0.0;
  }

  lemma {:induction false} ChoiceDominated(chosen: seq<nat>, ideal: seq<nat>)
    requires Descending(ideal) && multiset(chosen) <= multiset(ideal) && |chosen| <= |ideal|
    ensures Dominated(chosen, ideal[..|chosen|])
  {
    LargestSumMost(chosen, ideal);
    if chosen != [] {
      var n := |chosen| - 1;
      assert chosen == chosen[..n] + [chosen[n]];
      ChoiceDominated(chosen[..n], ideal);
      assert ideal[..n + 1][..n] == ideal[..n];
    }
  }

  /** The discounted gain of a ranking never exceeds the ideal one, so NDCG lies between 0 and 1. */
  lemma DcgAtMostIdcg(w: Worth, judgments: seq<Judgment>, hits: seq<Hit>, k: nat)
    requires Discounting(w)
    ensures 0.0 <= Dcg(w, Earnings(judgments, Unique(Top(hits, k)))) <= Idcg(w, judgments, k)
  {
    var ranked := Unique(Top(hits, k));
    UniqueClimbs(Top(hits, k));
    EarningsClimb(judgments, ranked, |Top(hits, k)|);
    EarnedAreSome(judgments, ranked);
    EarnedAtMostIdeal(w, Earnings(judgments, ranked), Gains(judgments), k);
  }

  lemma EarnedAtMostIdeal(w: Worth, earned: seq<Earned>, all: seq<nat>, k: nat)
    requires Discounting(w) && multiset(GainsOf(earned)) <= multiset(all) && |earned| <= k
    requires forall i :: 0 <= i < |earned| ==> i + 1 <= earned[i].rank
    ensures 0.0 <= Dcg(w, earned) <= Weighted(w, Best(SortedDown(all), k))
  {
    var ideal := SortedDown(all);
    SortedDownSorts(all);
    DcgAtMostWeighted(w, earned);
    ChoiceAtMostIdeal(w, GainsOf(earned), ideal);
    WeightedGrows(w, Best(ideal, k), |earned|);
    assert Best(ideal, k)[..|earned|] == ideal[..|earned|];
  }

  // ----- recall

  lemma {:induction false} UniquePrefix(hits: seq<Hit>, n: nat)
    requires n <= |hits|
    ensures Unique(hits[..n]) <= Unique(hits)
  {
    if n == |hits| {
      assert hits[..n] == hits;
    } else {
      UniquePrefix(hits[..|hits| - 1], n);
      assert hits[..|hits| - 1][..n] == hits[..n];
    }
  }

  /** A longer list never judges less, so recall does not fall as k grows. */
  lemma RecallGrows(judgments: seq<Judgment>, hits: seq<Hit>, k: nat, l: nat)
    requires k <= l
    ensures Judged(judgments, Unique(Top(hits, k))) <= Judged(judgments, Unique(Top(hits, l)))
    ensures |Judged(judgments, Unique(Top(hits, k)))| <= |Judged(judgments, Unique(Top(hits, l)))| <= |judgments|
  {
    var short, long := Top(hits, k), Top(hits, l);
    assert long[..|short|] == short;
    UniquePrefix(long, |short|);
    JudgedPrefix(judgments, Unique(long), |Unique(short)|);
    assert Unique(long)[..|Unique(short)|] == Unique(short);
    SubsetSize(Judged(judgments, Unique(short)), Judged(judgments, Unique(long)));
    BelowSize(Judged(judgments, Unique(long)), |judgments|);
  }

  lemma {:induction false} JudgedPrefix(judgments: seq<Judgment>, ranked: seq<Ranked>, n: nat)
    requires n <= |ranked|
    ensures Judged(judgments, ranked[..n]) <= Judged(judgments, ranked)
  {
    if n < |ranked| {
      JudgedPrefix(judgments, ranked[..|ranked| - 1], n);
      assert ranked[..|ranked| - 1][..n] == ranked[..n];
    } else {
      assert ranked[..n] == ranked;
    }
  }

  lemma {:induction false} BelowSize(a: set<nat>, n: nat)
    requires forall i :: i in a ==> i < n
    ensures |a| <= n
  {
    if n > 0 {
      BelowSize(a - {n - 1}, n - 1);
    } else {
      assert a == {};
    }
  }

  lemma {:induction false} EarningsMeanJudged(judgments: seq<Judgment>, ranked: seq<Ranked>)
    requires forall i :: 0 <= i < |judgments| ==> judgments[i].grade >= 1
    ensures Judged(judgments, ranked) == {} ==> Earnings(judgments, ranked) == []
    ensures Judged(judgments, ranked) != {} ==> Earnings(judgments, ranked) != []
    ensures forall i :: 0 <= i < |Earnings(judgments, ranked)| ==> Earnings(judgments, ranked)[i].gain >= 1
  {
    if ranked != [] {
      var n := |ranked| - 1;
      EarningsMeanJudged(judgments, ranked[..n]);
      var added := NewMatches(judgments, ranked[..n], ranked[n].hit);
      assert Judged(judgments, ranked) == Judged(judgments, ranked[..n]) + added;
      if added != {} {
        var index :| index in added;
        assert judgments[index].grade <= MaxGrade(judgments, added, |judgments|);
      }
    }
  }

  lemma {:induction false} DcgPositive(w: Worth, earned: seq<Earned>)
    requires Discounting(w) && forall i :: 0 <= i < |earned| ==> earned[i].gain >= 1
    ensures Dcg(w, earned) >= 0.0 && (earned != [] ==> Dcg(w, earned) > 0.0)
  {
    if earned != [] {
      var last := earned[|earned| - 1];
      DcgPositive(w, earned[..|earned| - 1]);
    }
  }

  lemma IdealPositive(w: Worth, judgments: seq<Judgment>, k: nat)
    requires Discounting(w) && judgments != [] && k >= 1
    requires forall i :: 0 <= i < |judgments| ==> judgments[i].grade >= 1
    ensures Idcg(w, judgments, k) > 0.0
  {
    var gains := Gains(judgments);
    var ideal := SortedDown(gains);
    SortedDownSorts(gains);
    assert ideal[0] in multiset(gains);
    var i :| 0 <= i < |gains| && gains[i] == ideal[0];
    WeightedGrows(w, Best(ideal, k), 1);
    var first := Best(ideal, k)[..1];
    assert first == [ideal[0]] && first[..0] == [];
    assert Weighted(w, first) == Weighted(w, []) + w(ideal[0], 1);
  }

  // ----- the program

  datatype Outcome =
    | InvalidCutoff
    | Abstention(score: real)
    | Scores(recall: real, reciprocalRank: real, ndcg: real, subdivisionPrecision: real)

  method UniqueHits(hits: seq<Hit>) returns (ranked: seq<Ranked>)
    ensures ranked == Unique(hits)
  {
    ranked := [];
    var seen: set<string> := {};
    for i := 0 to |hits|
      invariant ranked == Unique(hits[..i])
      invariant forall id :: id in seen <==> Seen(ranked, id)
    {
      assert hits[..i + 1][..i] == hits[..i];
      if hits[i].Id() in seen {
        continue;
      }
      seen := seen + {hits[i].Id()};
      SeenOneMore(ranked, Ranked(i + 1, hits[i]));
      ranked := ranked + [Ranked(i + 1, hits[i])];
    }
    assert hits[..|hits|] == hits;
  }

  lemma SeenOneMore(ranked: seq<Ranked>, next: Ranked)
    ensures forall id :: Seen(ranked + [next], id) <==> Seen(ranked, id) || id == next.hit.Id()
  {
    forall id
      ensures Seen(ranked + [next], id) <==> Seen(ranked, id) || id == next.hit.Id()
    {
      if Seen(ranked, id) {
        var i :| 0 <= i < |ranked| && ranked[i].hit.Id() == id;
        assert (ranked + [next])[i].hit.Id() == id;
      }
      assert (ranked + [next])[|ranked|] == next;
    }
  }

  method MatchingJudgmentIndexes(judgments: seq<Judgment>, hit: Hit) returns (matches: set<nat>)
    ensures matches == Matched(judgments, hit, |judgments|)
  {
    matches := {};
    for index := 0 to |judgments|
      invariant matches == Matched(judgments, hit, index)
    {
      if judgments[index].Matches(hit) {
        matches := matches + {index};
      }
    }
  }

  method Credit(judgments: seq<Judgment>, ranked: seq<Ranked>) returns (judged: set<nat>, earned: seq<Earned>)
    ensures judged == Judged(judgments, ranked) && earned == Earnings(judgments, ranked)
  {
    judged, earned := {}, [];
    for i := 0 to |ranked|
      invariant judged == Judged(judgments, ranked[..i]) && earned == Earnings(judgments, ranked[..i])
    {
      assert ranked[..i + 1][..i] == ranked[..i];
      var matched := MatchingJudgmentIndexes(judgments, ranked[i].hit);
      var added := matched - judged;
      if added != {} {
        earned := earned + [Earned(ranked[i].rank, Gain(MaxGrade(judgments, added, |judgments|)))];
      }
      judged := judged + added;
    }
    assert ranked[..|ranked|] == ranked;
  }

  function Summary(judged: nat, total: nat, earned: seq<Earned>, dcg: real, idcg: real, k: nat): Outcome
    requires total > 0 && idcg > 0.0 && k > 0 && (earned != [] ==> earned[0].rank > 0)
  {
    Scores(judged as real / total as real, if earned == [] then 0.0 else 1.0 / earned[0].rank as real,
           dcg / idcg, |earned| as real / k as real)
  }

  /** Recall over the judgments, the first earning rank, the share of the cutoff that earned, and NDCG against the
      best order of all judgments: each between 0 and 1, the first, second and last positive together. */
  ghost predicate Sane(o: Outcome, judged: nat, total: nat, earned: seq<Earned>, dcg: real, idcg: real, k: nat) {
    && o.Scores?
    && o.recall * total as real == judged as real && o.ndcg * idcg == dcg
    && (if earned == [] then o.reciprocalRank == 0.0 else o.reciprocalRank * earned[0].rank as real == 1.0)
    && o.subdivisionPrecision * k as real == |earned| as real
    && 0.0 <= o.recall <= 1.0 && 0.0 <= o.ndcg <= 1.0 && 0.0 <= o.reciprocalRank <= 1.0 && 0.0 <= o.subdivisionPrecision <= 1.0
    && (o.ndcg > 0.0 <==> o.recall > 0.0) && (o.ndcg > 0.0 <==> o.reciprocalRank > 0.0)
  }

  lemma SummaryIsSane(judged: nat, total: nat, earned: seq<Earned>, dcg: real, idcg: real, k: nat)
    requires judged <= total && |earned| <= k && 0.0 <= dcg <= idcg && total > 0 && idcg > 0.0 && k > 0
    requires earned != [] ==> earned[0].rank > 0
    requires (judged > 0 <==> earned != []) && (dcg > 0.0 <==> earned != [])
    ensures Sane(Summary(judged, total, earned, dcg, idcg, k), judged, total, earned, dcg, idcg, k)
  {
    RatioBounds(judged as real, total as real);
    RatioBounds(dcg, idcg);
    RatioBounds(|earned| as real, k as real);
    if earned != [] {
      RatioBounds(1.0, earned[0].rank as real);
    }
  }

  lemma RatioBounds(part: real, whole: real)
    requires 0.0 <= part <= whole && whole > 0.0
    ensures 0.0 <= part / whole <= 1.0 && (part / whole > 0.0 <==> part > 0.0) && part / whole * whole == part
  {
  }

  lemma CreditFacts(w: Worth, judgments: seq<Judgment>, hits: seq<Hit>, k: nat)
    requires Discounting(w) && forall i :: 0 <= i < |judgments| ==> judgments[i].grade >= 1
    ensures var ranked := Unique(Top(hits, k));
            var judged, earned := Judged(judgments, ranked), Earnings(judgments, ranked);
            && |judged| <= |judgments| && |earned| <= k && (earned != [] ==> earned[0].rank > 0)
            && 0.0 <= Dcg(w, earned) <= Idcg(w, judgments, k)
            && (|judged| > 0 <==> earned != []) && (Dcg(w, earned) > 0.0 <==> earned != [])
  {
    var ranked := Unique(Top(hits, k));
    var judged, earned := Judged(judgments, ranked), Earnings(judgments, ranked);
    DcgAtMostIdcg(w, judgments, hits, k);
    EarningsMeanJudged(judgments, ranked);
    DcgPositive(w, earned);
    UniqueClimbs(Top(hits, k));
    EarningsClimb(judgments, ranked, |Top(hits, k)|);
    BelowSize(judged, |judgments|);
    assert |judged| > 0 <==> judged != {};
  }

  method ConsumerLegalMetricsAtK(d: nat -> real, hits: seq<Hit>, judgments: seq<Judgment>, noApplicableGround: bool, k: int)
    returns (outcome: Outcome)
    requires forall rank: nat :: d(rank) > 0.0
    requires forall early: nat, late: nat :: early <= late ==> d(late) <= d(early)
    requires noApplicableGround <==> judgments == []
    requires forall i :: 0 <= i < |judgments| ==> judgments[i].grade >= 1
    ensures outcome.InvalidCutoff? <==> k < 1
    ensures k >= 1 && noApplicableGround ==> outcome == Abstention(if hits == [] then 1.0 else 0.0)
    ensures k >= 1 && !noApplicableGround ==>
              var ranked, w := Unique(Top(hits, k)), Discounted(d);
              var earned := Earnings(judgments, ranked);
              Sane(outcome, |Judged(judgments, ranked)|, |judgments|, earned, Dcg(w, earned), Idcg(w, judgments, k), k)
  {
    if k < 1 {
      return InvalidCutoff;
    }
    var topHits := Top(hits, k);
    var ranked := UniqueHits(topHits);
    if noApplicableGround {
      return Abstention(if topHits == [] then 1.0 else 0.0);
    }
    var judged, earned := Credit(judgments, ranked);
    var w := Discounted(d);
    DiscountedDiscounts(d);
    IdealPositive(w, judgments, k);
    CreditFacts(w, judgments, hits, k);
    var dcg, idcg := Dcg(w, earned), Idcg(w, judgments, k);
    SummaryIsSane(|judged|, |judgments|, earned, dcg, idcg, k);
    return Summary(|judged|, |judgments|, earned, dcg, idcg, k);
  }
}
