/** Selecting the legal grounds a notice may cite and dropping those a verifier rejects
    (app/consumer/ground_selection.py:58-300, app/consumer/ground_verifier.py:143-200). */
module GroundSelection {
  import opened Common
  import opened RankedLists
  import opened LegalPolicy

  const MAX_GROUND_CANDIDATES := 8
  const MAX_LEGAL_GROUNDS := 8
  const ART_42 := "br-cdc-art-42"
  const ART_42_CAPUT := "br-cdc-art-42-caput"
  const ART_42_SOLE_PARAGRAPH := "br-cdc-art-42-paragrafo-unico"

  datatype Unit = Unit(id: string, active: bool)

  /** The provision and the unit a chunk id belongs to. */
  datatype Corpus = Corpus(provisionOf: string -> Provision, unitOf: string -> Option<Unit>) {
    /** A provision has one id, and the caput of article 42 is a unit of article 42. */
    ghost predicate Lawful() {
      && (forall a: string, b: string :: provisionOf(a).id == provisionOf(b).id ==> provisionOf(a) == provisionOf(b))
      && (forall a: string :: unitOf(a).Some? && unitOf(a).value.id == ART_42_CAPUT ==> provisionOf(a).id == ART_42)
    }
  }

  datatype Hit = Hit(chunk: string, score: real)

  /** A hit with its place among the merged hits. */
  datatype Placed = Placed(rank: nat, hit: Hit)

  /** A provision's best rank and score and the hit to quote. */
  datatype Choice = Choice(rank: nat, score: real, quoted: Placed)

  type Groups = map<string, seq<Placed>>

  // ----- merging the results of the queries

  /** Every chunk seen so far with its best score. */
  ghost predicate BestOf(best: map<string, real>, hits: set<Hit>) {
    && (forall hit :: hit in hits ==> hit.chunk in best && best[hit.chunk] >= hit.score)
    && (forall chunk :: chunk in best ==> Hit(chunk, best[chunk]) in hits)
  }

  ghost function AllHits(sets: seq<seq<Hit>>, n: nat): set<Hit>
    requires n <= |sets|
  {
    if n == 0 then {} else AllHits(sets, n - 1) + Elements(sets[n - 1])
  }

  method BestScores(sets: seq<seq<Hit>>) returns (best: map<string, real>)
    ensures BestOf(best, AllHits(sets, |sets|))
  {
    best := map[];
    for i := 0 to |sets|
      invariant BestOf(best, AllHits(sets, i))
    {
      for k := 0 to |sets[i]|
        invariant BestOf(best, AllHits(sets, i) + Elements(sets[i][..k]))
      {
        var hit := sets[i][k];
        TakeOneMore(sets[i], k);
        assert Elements(sets[i][..k + 1]) == Elements(sets[i][..k]) + {hit};
        if hit.chunk !in best || hit.score > best[hit.chunk] {
          best := best[hit.chunk := hit.score];
        }
      }
      assert sets[i][..|sets[i]|] == sets[i];
    }
  }

  /** Every chunk once, with its best score, best first. */
  method MergeResults(before: Order, sets: seq<seq<Hit>>) returns (merged: seq<Hit>)
    requires TotalOrder(before)
    ensures forall i, j :: 0 <= i < j < |merged| ==> merged[i].chunk != merged[j].chunk && merged[i].score >= merged[j].score
    ensures forall i :: 0 <= i < |merged| ==> merged[i] in AllHits(sets, |sets|)
    ensures forall hit :: hit in AllHits(sets, |sets|) ==> exists i :: 0 <= i < |merged| && merged[i].chunk == hit.chunk && merged[i].score >= hit.score
  {
    var best := BestScores(sets);
    var items := ItemsOf(best);
    SortedInOrder(before, items);
    var sorted := Sorted(before, items);
    merged := HitsOf(sorted);
    MergedFacts(before, best, items, sorted, merged, AllHits(sets, |sets|));
  }

  function HitsOf(items: seq<Ranked<()>>): (r: seq<Hit>)
    ensures |r| == |items| && forall i :: 0 <= i < |r| ==> r[i] == Hit(items[i].id, items[i].score)
  {
    if items == [] then [] else HitsOf(items[..|items| - 1]) + [Hit(items[|items| - 1].id, items[|items| - 1].score)]
  }

  method ItemsOf(best: map<string, real>) returns (items: seq<Ranked<()>>)
    ensures DistinctlyRanked(items) && Elements(items) == set chunk | chunk in best :: Ranked(chunk, best[chunk], ())
  {
    items := [];
    var pending := best.Keys;
    while pending != {}
      invariant pending <= best.Keys && DistinctlyRanked(items)
      invariant Elements(items) == set chunk | chunk in best.Keys - pending :: Ranked(chunk, best[chunk], ())
    {
      var chunk :| chunk in pending;
      var item := Ranked(chunk, best[chunk], ());
      forall i | 0 <= i < |items|
        ensures items[i].id != chunk
      {
        assert items[i] in Elements(items);
      }
      assert Elements(items + [item]) == Elements(items) + {item};
      items := items + [item];
      pending := pending - {chunk};
    }
  }

  lemma MergedFacts(before: Order, best: map<string, real>, items: seq<Ranked<()>>, sorted: seq<Ranked<()>>, merged: seq<Hit>, hits: set<Hit>)
    requires TotalOrder(before) && BestOf(best, hits) && InOrder(before, sorted) && Elements(sorted) == Elements(items) && merged == HitsOf(sorted)
    requires Elements(items) == set chunk | chunk in best :: Ranked(chunk, best[chunk], ())
    ensures forall i, j :: 0 <= i < j < |merged| ==> merged[i].chunk != merged[j].chunk && merged[i].score >= merged[j].score
    ensures forall i :: 0 <= i < |merged| ==> merged[i] in hits
    ensures forall hit :: hit in hits ==> exists i :: 0 <= i < |merged| && merged[i].chunk == hit.chunk && merged[i].score >= hit.score
  {
    forall i | 0 <= i < |merged|
      ensures merged[i] in hits && merged[i].chunk in best && merged[i].score == best[merged[i].chunk]
    {
      assert sorted[i] in Elements(items);
    }
    MergedOrder(before, best, sorted, merged);
    forall hit | hit in hits
      ensures exists i :: 0 <= i < |merged| && merged[i].chunk == hit.chunk && merged[i].score >= hit.score
    {
      assert Ranked(hit.chunk, best[hit.chunk], ()) in Elements(sorted);
      var i :| 0 <= i < |sorted| && sorted[i] == Ranked(hit.chunk, best[hit.chunk], ());
      assert merged[i].chunk == hit.chunk;
    }
  }

  lemma MergedOrder(before: Order, best: map<string, real>, sorted: seq<Ranked<()>>, merged: seq<Hit>)
    requires TotalOrder(before) && InOrder(before, sorted) && merged == HitsOf(sorted)
    requires forall i :: 0 <= i < |merged| ==> merged[i].chunk in best && merged[i].score == best[merged[i].chunk]
    ensures forall i, j :: 0 <= i < j < |merged| ==> merged[i].chunk != merged[j].chunk && merged[i].score >= merged[j].score
  {
    forall i, j | 0 <= i < j < |merged|
      ensures merged[i].chunk != merged[j].chunk && merged[i].score >= merged[j].score
    {
      assert Precedes(before, sorted[i], sorted[j]);
      SameIdNeverPrecedes(before, sorted[i], sorted[j]);
    }
  }

  lemma SameIdNeverPrecedes(before: Order, a: Ranked<()>, b: Ranked<()>)
    requires TotalOrder(before) && Precedes(before, a, b)
    ensures a.score >= b.score && (a.id == b.id ==> a.score != b.score)
  {
  }

  // ----- what every stage keeps

  /** A hit whose provision may be cited and has a chunk that cleared the gate. */
  ghost predicate Backed(c: Corpus, supported: set<string>, id: string, hit: Hit) {
    && c.provisionOf(hit.chunk).id == id && c.provisionOf(hit.chunk).citable
    && exists chunk :: chunk in supported && c.provisionOf(chunk).id == id
  }

  ghost predicate GroupsBacked(c: Corpus, supported: set<string>, groups: Groups) {
    forall id :: id in groups ==> groups[id] != [] && forall i :: 0 <= i < |groups[id]| ==> Backed(c, supported, id, groups[id][i].hit)
  }

  ghost predicate CandidatesBacked(c: Corpus, supported: set<string>, list: seq<Candidate<Choice>>) {
    forall i :: 0 <= i < |list| ==>
      list[i].provision == c.provisionOf(list[i].item.quoted.hit.chunk)
      && Backed(c, supported, list[i].provision.id, list[i].item.quoted.hit)
  }

  /** What a notice promises of its grounds. */
  ghost predicate PolicyHolds(c: Corpus, supported: set<string>, lexicalOnly: bool, grounds: seq<Candidate<Choice>>) {
    && |grounds| <= MAX_LEGAL_GROUNDS && OnePerProvision(grounds)
    && Complements(grounds) <= MAX_COMPLEMENTARY && (lexicalOnly ==> Complements(grounds) == 0)
    && ((exists i :: 0 <= i < |grounds| && NeedsAnchor(grounds[i].provision.source)) ==> HasAnchor(grounds))
    && CandidatesBacked(c, supported, grounds)
  }

  // ----- grouping by provision

  predicate Eligible(c: Corpus, supported: set<string>, hit: Hit) {
    && hit.chunk in supported && c.provisionOf(hit.chunk).citable
    && (c.unitOf(hit.chunk).Some? ==> c.unitOf(hit.chunk).value.active)
  }

  /** The groups hold exactly the eligible hits, each under its provision and with its rank. */
  ghost predicate Grouped(c: Corpus, supported: set<string>, merged: seq<Hit>, groups: Groups) {
    && (forall id :: id in groups ==> forall i :: 0 <= i < |groups[id]| ==>
          && 1 <= groups[id][i].rank <= |merged| && merged[groups[id][i].rank - 1] == groups[id][i].hit
          && Eligible(c, supported, groups[id][i].hit) && c.provisionOf(groups[id][i].hit.chunk).id == id)
    && (forall k :: 0 <= k < |merged| && Eligible(c, supported, merged[k]) ==>
          c.provisionOf(merged[k].chunk).id in groups && Placed(k + 1, merged[k]) in groups[c.provisionOf(merged[k].chunk).id])
  }

  method EligibleCandidates(c: Corpus, merged: seq<Hit>, supported: set<string>) returns (groups: Groups)
    ensures GroupsBacked(c, supported, groups) && Grouped(c, supported, merged, groups)
  {
    groups := map[];
    for k := 0 to |merged|
      invariant GroupsBacked(c, supported, groups)
      invariant forall id :: id in groups ==> forall i :: 0 <= i < |groups[id]| ==>
                  1 <= groups[id][i].rank <= k && merged[groups[id][i].rank - 1] == groups[id][i].hit && Eligible(c, supported, groups[id][i].hit)
      invariant forall j :: 0 <= j < k && Eligible(c, supported, merged[j]) ==>
                  c.provisionOf(merged[j].chunk).id in groups && Placed(j + 1, merged[j]) in groups[c.provisionOf(merged[j].chunk).id]
    {
      var hit := merged[k];
      if !Eligible(c, supported, hit) {
        continue;
      }
      var id := c.provisionOf(hit.chunk).id;
      assert Backed(c, supported, id, hit);
      groups := groups[id := (if id in groups then groups[id] else []) + [Placed(k + 1, hit)]];
    }
  }

  // ----- article 42: threats over an unpaid debt, or double repayment

  function NotSoleParagraph(c: Corpus, group: seq<Placed>): seq<Placed> {
    if group == [] then []
    else
      var last := group[|group| - 1];
      NotSoleParagraph(c, group[..|group| - 1])
      + (if c.unitOf(last.hit.chunk).Some? && c.unitOf(last.hit.chunk).value.id == ART_42_SOLE_PARAGRAPH then [] else [last])
  }

  function LeastRank(group: seq<Placed>): nat
    requires group != []
  {
    if |group| == 1 then group[0].rank else Min(LeastRank(group[..|group| - 1]), group[|group| - 1].rank)
  }

  function BestScore(group: seq<Placed>): real
    requires group != []
  {
    if |group| == 1 then group[0].hit.score
    else
      var earlier, last := BestScore(group[..|group| - 1]), group[|group| - 1].hit.score;
      if earlier >= last then earlier else last
  }

  /** The caput of article 42 where it was retrieved, in the place of the group. */
  function FallbackCaput(c: Corpus, merged: seq<Hit>, group: seq<Placed>): seq<Placed>
    requires group != []
  {
    if merged == [] then []
    else if c.unitOf(merged[0].chunk).Some? && c.unitOf(merged[0].chunk).value.id == ART_42_CAPUT then
      [Placed(LeastRank(group), Hit(merged[0].chunk, if merged[0].score >= BestScore(group) then merged[0].score else BestScore(group)))]
    else FallbackCaput(c, merged[1..], group)
  }

  /** Harassment over an unpaid debt takes the caput; without it the article drops out. */
  function Disambiguated(c: Corpus, harassment: bool, merged: seq<Hit>, groups: Groups): Groups {
    if ART_42 !in groups || groups[ART_42] == [] || !harassment then groups
    else
      var kept := NotSoleParagraph(c, groups[ART_42]);
      var taken := if kept != [] then kept else FallbackCaput(c, merged, groups[ART_42]);
      if taken != [] then groups[ART_42 := taken] else groups - {ART_42}
  }

  lemma {:induction false} NotSoleParagraphKeeps(c: Corpus, supported: set<string>, group: seq<Placed>)
    requires forall i :: 0 <= i < |group| ==> Backed(c, supported, ART_42, group[i].hit)
    ensures forall i :: 0 <= i < |NotSoleParagraph(c, group)| ==> Backed(c, supported, ART_42, NotSoleParagraph(c, group)[i].hit)
    ensures forall i :: 0 <= i < |NotSoleParagraph(c, group)| ==>
              !(c.unitOf(NotSoleParagraph(c, group)[i].hit.chunk).Some? && c.unitOf(NotSoleParagraph(c, group)[i].hit.chunk).value.id == ART_42_SOLE_PARAGRAPH)
  {
    if group != [] {
      NotSoleParagraphKeeps(c, supported, group[..|group| - 1]);
    }
  }

  lemma {:induction false} FallbackIsCaput(c: Corpus, merged: seq<Hit>, group: seq<Placed>)
    requires group != []
    ensures |FallbackCaput(c, merged, group)| <= 1
    ensures forall i :: 0 <= i < |FallbackCaput(c, merged, group)| ==>
              c.unitOf(FallbackCaput(c, merged, group)[i].hit.chunk).Some? && c.unitOf(FallbackCaput(c, merged, group)[i].hit.chunk).value.id == ART_42_CAPUT
  {
    if merged != [] {
      FallbackIsCaput(c, merged[1..], group);
    }
  }

  /** Article 42 keeps its support through the disambiguation, even when the caput itself was not supported. */
  lemma DisambiguatedBacked(c: Corpus, supported: set<string>, harassment: bool, merged: seq<Hit>, groups: Groups)
    requires c.Lawful() && GroupsBacked(c, supported, groups)
    ensures GroupsBacked(c, supported, Disambiguated(c, harassment, merged, groups))
  {
    if ART_42 in groups && harassment {
      var group := groups[ART_42];
      NotSoleParagraphKeeps(c, supported, group);
      FallbackIsCaput(c, merged, group);
      assert Backed(c, supported, ART_42, group[0].hit);
    }
  }

  /** Under harassment no candidate of article 42 is its sole paragraph. */
  lemma SoleParagraphNeverCited(c: Corpus, supported: set<string>, merged: seq<Hit>, groups: Groups, i: nat)
    requires c.Lawful() && GroupsBacked(c, supported, groups)
    requires ART_42 in Disambiguated(c, true, merged, groups) && i < |Disambiguated(c, true, merged, groups)[ART_42]|
    ensures var chunk := Disambiguated(c, true, merged, groups)[ART_42][i].hit.chunk;
            !(c.unitOf(chunk).Some? && c.unitOf(chunk).value.id == ART_42_SOLE_PARAGRAPH)
  {
    var group := groups[ART_42];
    NotSoleParagraphKeeps(c, supported, group);
    FallbackIsCaput(c, merged, group);
    assert ART_42_CAPUT != ART_42_SOLE_PARAGRAPH by {
      assert |ART_42_CAPUT| != |ART_42_SOLE_PARAGRAPH|;
    }
  }

  predicate IsSoleParagraph(c: Corpus, hit: Hit) {
    c.unitOf(hit.chunk).Some? && c.unitOf(hit.chunk).value.id == ART_42_SOLE_PARAGRAPH
  }

  /** Every eligible hit of article 42 is its sole paragraph. */
  ghost predicate OnlySoleParagraph(c: Corpus, supported: set<string>, merged: seq<Hit>) {
    forall k :: 0 <= k < |merged| && Eligible(c, supported, merged[k]) && c.provisionOf(merged[k].chunk).id == ART_42 ==> IsSoleParagraph(c, merged[k])
  }

  /** No chunk belongs to a caput of article 42 that is out of force. */
  ghost predicate CaputInForce(c: Corpus) {
    forall chunk :: c.unitOf(chunk).Some? && c.unitOf(chunk).value.id == ART_42_CAPUT ==> c.unitOf(chunk).value.active
  }

  /** The chunk to quote cleared the gate itself, but for one case: under harassment, when every eligible hit of
      article 42 is its sole paragraph, the caput is quoted on their support. With the caput in force that case is
      exactly when the quoted chunk did not clear the gate. */
  lemma QuotedIsSupported(c: Corpus, supported: set<string>, harassment: bool, merged: seq<Hit>, groups: Groups, id: string, i: nat)
    requires c.Lawful() && GroupsBacked(c, supported, groups) && Grouped(c, supported, merged, groups)
    requires id in Disambiguated(c, harassment, merged, groups) && i < |Disambiguated(c, harassment, merged, groups)[id]|
    ensures var fallsBack := harassment && id == ART_42 && OnlySoleParagraph(c, supported, merged);
            var quoted := Disambiguated(c, harassment, merged, groups)[id][i].hit.chunk;
            && (!fallsBack ==> quoted in supported)
            && (CaputInForce(c) ==> (quoted in supported <==> !fallsBack))
  {
    if id == ART_42 && harassment {
      var group := groups[ART_42];
      KeptAreMembers(c, group);
      NothingKept(c, supported, merged, groups);
      if NotSoleParagraph(c, group) == [] && CaputInForce(c) {
        FallbackUnsupported(c, supported, merged, groups, i);
      }
    }
  }

  lemma NothingKept(c: Corpus, supported: set<string>, merged: seq<Hit>, groups: Groups)
    requires Grouped(c, supported, merged, groups) && ART_42 in groups
    ensures NotSoleParagraph(c, groups[ART_42]) == [] <==> OnlySoleParagraph(c, supported, merged)
  {
    var group := groups[ART_42];
    KeptAreMembers(c, group);
    if NotSoleParagraph(c, group) == [] {
      forall k | 0 <= k < |merged| && Eligible(c, supported, merged[k]) && c.provisionOf(merged[k].chunk).id == ART_42
        ensures IsSoleParagraph(c, merged[k])
      {
        assert Placed(k + 1, merged[k]) in group;
      }
    } else {
      var kept := NotSoleParagraph(c, group)[0];
      assert kept in group && !IsSoleParagraph(c, kept.hit);
      assert merged[kept.rank - 1] == kept.hit && Eligible(c, supported, kept.hit) && c.provisionOf(kept.hit.chunk).id == ART_42;
    }
  }

  lemma FallbackUnsupported(c: Corpus, supported: set<string>, merged: seq<Hit>, groups: Groups, i: nat)
    requires c.Lawful() && CaputInForce(c) && Grouped(c, supported, merged, groups)
    requires ART_42 in groups && groups[ART_42] != [] && OnlySoleParagraph(c, supported, merged)
    requires i < |FallbackCaput(c, merged, groups[ART_42])|
    ensures FallbackCaput(c, merged, groups[ART_42])[i].hit.chunk !in supported
  {
    var group := groups[ART_42];
    FallbackIsCaput(c, merged, group);
    FallbackIsMerged(c, merged, group);
    var k :| 0 <= k < |merged| && merged[k].chunk == FallbackCaput(c, merged, group)[0].hit.chunk;
    assert |ART_42_CAPUT| != |ART_42_SOLE_PARAGRAPH|;
    assert !IsSoleParagraph(c, merged[k]);
    assert c.provisionOf(merged[k].chunk) == c.provisionOf(group[0].hit.chunk);
    assert Eligible(c, supported, group[0].hit);
    assert !Eligible(c, supported, merged[k]);
  }

  lemma {:induction false} FallbackIsMerged(c: Corpus, merged: seq<Hit>, group: seq<Placed>)
    requires group != []
    ensures FallbackCaput(c, merged, group) != [] ==> exists k :: 0 <= k < |merged| && merged[k].chunk == FallbackCaput(c, merged, group)[0].hit.chunk
  {
    if merged != [] {
      FallbackIsMerged(c, merged[1..], group);
      if FallbackCaput(c, merged[1..], group) != [] {
        var k :| 0 <= k < |merged[1..]| && merged[1..][k].chunk == FallbackCaput(c, merged[1..], group)[0].hit.chunk;
        assert merged[k + 1].chunk == merged[1..][k].chunk;
      }
      if FallbackCaput(c, merged, group) != FallbackCaput(c, merged[1..], group) {
        assert merged[0].chunk == FallbackCaput(c, merged, group)[0].hit.chunk;
      }
    }
  }

  lemma {:induction false} KeptAreMembers(c: Corpus, group: seq<Placed>)
    ensures forall i :: 0 <= i < |NotSoleParagraph(c, group)| ==> NotSoleParagraph(c, group)[i] in group && !IsSoleParagraph(c, NotSoleParagraph(c, group)[i].hit)
    ensures forall placed :: placed in group && !IsSoleParagraph(c, placed.hit) ==> placed in NotSoleParagraph(c, group)
  {
    if group != [] {
      KeptAreMembers(c, group[..|group| - 1]);
    }
  }

  /** Article 42 in two chunks, its sole paragraph `p` and its caput `c`. */
  function TwoUnits(): Corpus {
    Corpus((chunk: string) => Provision(ART_42, ConsumerCode, true),
           (chunk: string) => Some(Unit(if chunk == "c" then ART_42_CAPUT else ART_42_SOLE_PARAGRAPH, true)))
  }

  /** That case occurs: the gate supports the sole paragraph alone, and the caput, which it does not support, is quoted. */
  lemma CaputQuotedUnsupported()
    ensures var c, supported, merged := TwoUnits(), {"p"}, [Hit("p", 2.0), Hit("c", 1.0)];
            var groups := map[ART_42 := [Placed(1, Hit("p", 2.0))]];
            && c.Lawful() && GroupsBacked(c, supported, groups) && Grouped(c, supported, merged, groups)
            && Disambiguated(c, true, merged, groups) == groups[ART_42 := [Placed(1, Hit("c", 2.0))]] && "c" !in supported
  {
    var c, supported, merged, group := TwoUnits(), {"p"}, [Hit("p", 2.0), Hit("c", 1.0)], [Placed(1, Hit("p", 2.0))];
    assert |ART_42_CAPUT| != |ART_42_SOLE_PARAGRAPH|;
    assert group[..0] == [] && NotSoleParagraph(c, group) == [];
    assert merged[1..] == [Hit("c", 1.0)];
    assert FallbackCaput(c, merged, group) == FallbackCaput(c, merged[1..], group);
    assert "p" in supported && c.provisionOf("p").id == ART_42;
    assert Backed(c, supported, ART_42, group[0].hit);
  }

  // ----- one candidate per provision

  /** Corroborated by most queries, then a unit over a whole article, then the score, then the id. */
  predicate Better(c: Corpus, before: Order, occurrences: map<string, nat>, a: Hit, b: Hit) {
    var ca, cb := if a.chunk in occurrences then occurrences[a.chunk] else 0, if b.chunk in occurrences then occurrences[b.chunk] else 0;
    var ua, ub := c.unitOf(a.chunk).Some?, c.unitOf(b.chunk).Some?;
    || ca > cb
    || (ca == cb && ua && !ub)
    || (ca == cb && ua == ub && a.score > b.score)
    || (ca == cb && ua == ub && a.score == b.score && before(a.chunk, b.chunk))
  }

  function MostCorroborated(c: Corpus, before: Order, occurrences: map<string, nat>, group: seq<Placed>): (r: Placed)
    requires group != []
    ensures r in group
  {
    if |group| == 1 then group[0]
    else
      var earlier, last := MostCorroborated(c, before, occurrences, group[..|group| - 1]), group[|group| - 1];
      if Better(c, before, occurrences, last.hit, earlier.hit) then last else earlier
  }

  /** The hit to quote is one no other hit of the provision is better than. */
  lemma {:induction false} NoneIsBetter(c: Corpus, before: Order, occurrences: map<string, nat>, group: seq<Placed>, i: nat)
    requires TotalOrder(before) && i < |group|
    ensures !Better(c, before, occurrences, group[i].hit, MostCorroborated(c, before, occurrences, group).hit)
    decreases |group|
  {
    if |group| > 1 {
      var n := |group| - 1;
      var earlier := MostCorroborated(c, before, occurrences, group[..n]);
      if i < n {
        NoneIsBetter(c, before, occurrences, group[..n], i);
        if Better(c, before, occurrences, group[i].hit, group[n].hit) && Better(c, before, occurrences, group[n].hit, earlier.hit) {
          BetterIsTransitive(c, before, occurrences, group[i].hit, group[n].hit, earlier.hit);
        }
      } else {
        BetterOneWay(c, before, occurrences, group[n].hit, group[n].hit);
      }
    } else {
      BetterOneWay(c, before, occurrences, group[0].hit, group[0].hit);
    }
  }

  lemma BetterIsTransitive(c: Corpus, before: Order, occurrences: map<string, nat>, x: Hit, y: Hit, z: Hit)
    requires TotalOrder(before) && Better(c, before, occurrences, x, y) && Better(c, before, occurrences, y, z)
    ensures Better(c, before, occurrences, x, z)
  {
  }

  lemma BetterOneWay(c: Corpus, before: Order, occurrences: map<string, nat>, x: Hit, y: Hit)
    requires TotalOrder(before) && x == y
    ensures !Better(c, before, occurrences, x, y)
  {
  }

  /** The candidate of a group: its best rank and score, and the hit to quote. */
  function CandidateOf(c: Corpus, before: Order, occurrences: map<string, nat>, group: seq<Placed>): Candidate<Choice>
    requires group != []
  {
    var quoted := MostCorroborated(c, before, occurrences, group);
    Candidate(c.provisionOf(quoted.hit.chunk), Choice(LeastRank(group), BestScore(group), quoted))
  }

  ghost predicate CandidatesOf(c: Corpus, before: Order, occurrences: map<string, nat>, groups: Groups, ids: set<string>,
              list: seq<Candidate<Choice>>) {
    && ids <= groups.Keys
    && (forall i :: 0 <= i < |list| ==>
          list[i].provision.id in ids && groups[list[i].provision.id] != []
          && list[i] == CandidateOf(c, before, occurrences, groups[list[i].provision.id]))
    && (forall id :: id in ids ==> Listed(list, id))
  }

  ghost predicate Listed(list: seq<Candidate<Choice>>, id: string) { exists i :: 0 <= i < |list| && list[i].provision.id == id }

  lemma CandidateBacked(c: Corpus, before: Order, occurrences: map<string, nat>, groups: Groups, supported: set<string>, id: string)
    requires GroupsBacked(c, supported, groups) && id in groups
    ensures var x := CandidateOf(c, before, occurrences, groups[id]);
            x.provision.id == id && x.provision == c.provisionOf(x.item.quoted.hit.chunk) && Backed(c, supported, id, x.item.quoted.hit)
  {
    var quoted := MostCorroborated(c, before, occurrences, groups[id]);
    var i :| 0 <= i < |groups[id]| && groups[id][i] == quoted;
  }

  lemma CandidatesOneMore(c: Corpus, before: Order, occurrences: map<string, nat>, groups: Groups, supported: set<string>,
                          ids: set<string>, list: seq<Candidate<Choice>>, id: string)
    requires GroupsBacked(c, supported, groups) && id in groups && id !in ids
    requires CandidatesOf(c, before, occurrences, groups, ids, list) && CandidatesBacked(c, supported, list) && OnePerProvision(list)
    ensures var more := list + [CandidateOf(c, before, occurrences, groups[id])];
            && CandidatesOf(c, before, occurrences, groups, ids + {id}, more)
            && CandidatesBacked(c, supported, more) && OnePerProvision(more)
  {
    CandidateBacked(c, before, occurrences, groups, supported, id);
    var more := list + [CandidateOf(c, before, occurrences, groups[id])];
    assert more[|list|].provision.id == id;
    forall other | other in ids + {id}
      ensures Listed(more, other)
    {
      if other in ids {
        assert Listed(list, other);
        var i :| 0 <= i < |list| && list[i].provision.id == other;
        assert more[i].provision.id == other;
      }
    }
  }

  method ProvisionCandidates(c: Corpus, before: Order, groups: Groups, occurrences: map<string, nat>, ghost supported: set<string>)
    returns (list: seq<Candidate<Choice>>)
    requires GroupsBacked(c, supported, groups)
    ensures CandidatesBacked(c, supported, list) && OnePerProvision(list)
    ensures CandidatesOf(c, before, occurrences, groups, groups.Keys, list)
  {
    list := [];
    var pending := groups.Keys;
    while pending != {}
      invariant pending <= groups.Keys && CandidatesBacked(c, supported, list) && OnePerProvision(list)
      invariant CandidatesOf(c, before, occurrences, groups, groups.Keys - pending, list)
    {
      var id :| id in pending;
      CandidatesOneMore(c, before, occurrences, groups, supported, groups.Keys - pending, list, id);
      list := list + [CandidateOf(c, before, occurrences, groups[id])];
      assert groups.Keys - (pending - {id}) == groups.Keys - pending + {id};
      pending := pending - {id};
    }
  }

  // ----- what a candidate stands for, read off the merged hits

  /** The hit at this place counts for the provision: it is eligible and, under harassment, no sole paragraph of
      article 42. */
  ghost predicate Counts(c: Corpus, supported: set<string>, harassment: bool, merged: seq<Hit>, id: string, k: nat) {
    && k < |merged| && Eligible(c, supported, merged[k]) && c.provisionOf(merged[k].chunk).id == id
    && !(harassment && id == ART_42 && IsSoleParagraph(c, merged[k]))
  }

  ghost predicate Counted(c: Corpus, supported: set<string>, harassment: bool, merged: seq<Hit>, id: string) {
    exists k: nat :: Counts(c, supported, harassment, merged, id, k)
  }

  /** The group holds exactly the hits that count, each with its rank. */
  ghost predicate Holds(c: Corpus, supported: set<string>, harassment: bool, merged: seq<Hit>, id: string, group: seq<Placed>) {
    && (forall k: nat :: Counts(c, supported, harassment, merged, id, k) ==> Placed(k + 1, merged[k]) in group)
    && (forall placed :: placed in group ==>
          placed.rank >= 1 && Counts(c, supported, harassment, merged, id, placed.rank - 1) && placed.hit == merged[placed.rank - 1])
  }

  /** A candidate carries the best rank and the best score of the hits that count and quotes one that none of them beats. */
  ghost predicate Represents(c: Corpus, before: Order, supported: set<string>, harassment: bool, merged: seq<Hit>, occurrences: map<string, nat>,
                             x: Candidate<Choice>)
  {
    var id, q := x.provision.id, x.item.quoted;
    && (exists k: nat :: Counts(c, supported, harassment, merged, id, k) && x.item.rank == k + 1)
    && (exists k: nat :: Counts(c, supported, harassment, merged, id, k) && x.item.score == merged[k].score)
    && q.rank >= 1 && Counts(c, supported, harassment, merged, id, q.rank - 1) && q.hit == merged[q.rank - 1] && x.provision == c.provisionOf(q.hit.chunk)
    && forall k: nat :: Counts(c, supported, harassment, merged, id, k) ==>
         k + 1 >= x.item.rank && merged[k].score <= x.item.score && !Better(c, before, occurrences, merged[k], q.hit)
  }

  /** Where no hit of article 42 counts under harassment, its candidate quotes the first caput among the merged hits. */
  ghost predicate FallsBack(c: Corpus, supported: set<string>, merged: seq<Hit>, x: Candidate<Choice>) {
    && x.provision.id == ART_42
    && (exists k: nat :: Counts(c, supported, false, merged, ART_42, k) && x.item.rank == k + 1)
    && (forall k: nat :: Counts(c, supported, false, merged, ART_42, k) ==>
          IsSoleParagraph(c, merged[k]) && k + 1 >= x.item.rank && merged[k].score <= x.item.score)
    && exists k: nat :: IsFirstCaput(c, merged, k) && x.item.quoted.hit.chunk == merged[k].chunk && merged[k].score <= x.item.score
  }

  ghost predicate IsFirstCaput(c: Corpus, merged: seq<Hit>, k: nat) {
    && k < |merged| && IsCaput(c, merged[k]) && forall j: nat :: j < k ==> !IsCaput(c, merged[j])
  }

  predicate IsCaput(c: Corpus, hit: Hit) { c.unitOf(hit.chunk).Some? && c.unitOf(hit.chunk).value.id == ART_42_CAPUT }

  lemma {:induction false} LeastRankIsLeast(group: seq<Placed>)
    requires group != []
    ensures exists placed :: placed in group && placed.rank == LeastRank(group)
    ensures forall placed :: placed in group ==> placed.rank >= LeastRank(group)
  {
    if |group| > 1 {
      var n := |group| - 1;
      LeastRankIsLeast(group[..n]);
      assert group == group[..n] + [group[n]];
    } else {
      assert group[0] in group;
    }
  }

  lemma {:induction false} BestScoreIsBest(group: seq<Placed>)
    requires group != []
    ensures exists placed :: placed in group && placed.hit.score == BestScore(group)
    ensures forall placed :: placed in group ==> placed.hit.score <= BestScore(group)
  {
    if |group| > 1 {
      var n := |group| - 1;
      BestScoreIsBest(group[..n]);
      assert group == group[..n] + [group[n]];
    } else {
      assert group[0] in group;
    }
  }

  lemma GroupHolds(c: Corpus, supported: set<string>, merged: seq<Hit>, groups: Groups, id: string)
    requires Grouped(c, supported, merged, groups) && id in groups
    ensures Holds(c, supported, false, merged, id, groups[id])
  {
  }

  lemma DisambiguatedHolds(c: Corpus, supported: set<string>, harassment: bool, merged: seq<Hit>, groups: Groups, id: string)
    requires Grouped(c, supported, merged, groups) && Counted(c, supported, harassment, merged, id)
    ensures id in Disambiguated(c, harassment, merged, groups)
    ensures Holds(c, supported, harassment, merged, id, Disambiguated(c, harassment, merged, groups)[id])
  {
    var k: nat :| Counts(c, supported, harassment, merged, id, k);
    assert Placed(k + 1, merged[k]) in groups[id];
    GroupHolds(c, supported, merged, groups, id);
    if harassment && id == ART_42 {
      KeptAreMembers(c, groups[id]);
      assert Placed(k + 1, merged[k]) in NotSoleParagraph(c, groups[id]);
      KeptHolds(c, supported, merged, groups[id]);
    } else {
      assert Disambiguated(c, harassment, merged, groups)[id] == groups[id];
    }
  }

  lemma KeptHolds(c: Corpus, supported: set<string>, merged: seq<Hit>, group: seq<Placed>)
    requires Holds(c, supported, false, merged, ART_42, group)
    ensures Holds(c, supported, true, merged, ART_42, NotSoleParagraph(c, group))
  {
    KeptAreMembers(c, group);
  }

  lemma HeldRepresents(c: Corpus, before: Order, supported: set<string>, harassment: bool, merged: seq<Hit>,
              occurrences: map<string, nat>, id: string, group: seq<Placed>)
    requires TotalOrder(before) && group != [] && Holds(c, supported, harassment, merged, id, group)
    ensures CandidateOf(c, before, occurrences, group).provision.id == id
    ensures Represents(c, before, supported, harassment, merged, occurrences, CandidateOf(c, before, occurrences, group))
  {
    var quoted := MostCorroborated(c, before, occurrences, group);
    LeastRankIsLeast(group);
    BestScoreIsBest(group);
    assert quoted in group;
    var first :| first in group && first.rank == LeastRank(group);
    var best :| best in group && best.hit.score == BestScore(group);
    assert Counts(c, supported, harassment, merged, id, first.rank - 1) && Counts(c, supported, harassment, merged, id, best.rank - 1);
    forall k: nat | Counts(c, supported, harassment, merged, id, k)
      ensures k + 1 >= LeastRank(group) && merged[k].score <= BestScore(group) && !Better(c, before, occurrences, merged[k], quoted.hit)
    {
      var i :| 0 <= i < |group| && group[i] == Placed(k + 1, merged[k]);
      NoneIsBetter(c, before, occurrences, group, i);
    }
  }

  lemma {:induction false} FallbackIsFirst(c: Corpus, merged: seq<Hit>, group: seq<Placed>)
    requires group != [] && FallbackCaput(c, merged, group) != []
    ensures exists k: nat :: IsFirstCaput(c, merged, k) && FallbackCaput(c, merged, group) ==
              [Placed(LeastRank(group), Hit(merged[k].chunk, if merged[k].score >= BestScore(group) then merged[k].score else BestScore(group)))]
  {
    if IsCaput(c, merged[0]) {
      assert IsFirstCaput(c, merged, 0);
    } else {
      FallbackIsFirst(c, merged[1..], group);
      var k: nat :| IsFirstCaput(c, merged[1..], k) && FallbackCaput(c, merged[1..], group) ==
              [Placed(LeastRank(group), Hit(merged[1..][k].chunk, if merged[1..][k].score >= BestScore(group) then merged[1..][k].score else BestScore(group)))];
      assert merged[1..][k] == merged[k + 1];
      forall j: nat | j < k + 1
        ensures !IsCaput(c, merged[j])
      {
        assert j > 0 ==> merged[j] == merged[1..][j - 1];
      }
      assert IsFirstCaput(c, merged, k + 1);
    }
  }

  lemma FallbackFallsBack(c: Corpus, before: Order, supported: set<string>, merged: seq<Hit>, occurrences: map<string, nat>, group: seq<Placed>)
    requires c.Lawful() && group != [] && Holds(c, supported, false, merged, ART_42, group)
    requires NotSoleParagraph(c, group) == [] && FallbackCaput(c, merged, group) != []
    ensures FallsBack(c, supported, merged, CandidateOf(c, before, occurrences, FallbackCaput(c, merged, group)))
  {
    var fallback := FallbackCaput(c, merged, group);
    FallbackIsFirst(c, merged, group);
    LeastRankIsLeast(group);
    BestScoreIsBest(group);
    KeptAreMembers(c, group);
    var first :| first in group && first.rank == LeastRank(group);
    assert Counts(c, supported, false, merged, ART_42, first.rank - 1);
    assert MostCorroborated(c, before, occurrences, fallback) == fallback[0];
    forall k: nat | Counts(c, supported, false, merged, ART_42, k)
      ensures IsSoleParagraph(c, merged[k]) && k + 1 >= LeastRank(group) && merged[k].score <= BestScore(group)
    {
      assert Placed(k + 1, merged[k]) in group;
    }
  }

  /** A candidate stands for the hits that count for its provision, or is the caput article 42 falls back on. */
  ghost predicate Stands(c: Corpus, before: Order, supported: set<string>, harassment: bool, merged: seq<Hit>,
              occurrences: map<string, nat>, x: Candidate<Choice>) {
    if Counted(c, supported, harassment, merged, x.provision.id) then Represents(c, before, supported, harassment, merged, occurrences, x)
    else harassment && FallsBack(c, supported, merged, x)
  }

  /** A hit counts for the provision, or it is article 42 under harassment with a caput to fall back on. */
  ghost predicate HasCandidate(c: Corpus, supported: set<string>, harassment: bool, merged: seq<Hit>, id: string) {
    || Counted(c, supported, harassment, merged, id)
    || (harassment && id == ART_42 && Counted(c, supported, false, merged, id) && exists k: nat :: k < |merged| && IsCaput(c, merged[k]))
  }

  lemma {:induction false} FallbackExists(c: Corpus, merged: seq<Hit>, group: seq<Placed>, k: nat)
    requires group != [] && k < |merged| && IsCaput(c, merged[k])
    ensures FallbackCaput(c, merged, group) != []
    decreases |merged|
  {
    if !IsCaput(c, merged[0]) {
      assert merged[1..][k - 1] == merged[k];
      FallbackExists(c, merged[1..], group, k - 1);
    }
  }

  lemma CandidateExists(c: Corpus, supported: set<string>, harassment: bool, merged: seq<Hit>, groups: Groups, id: string)
    requires Grouped(c, supported, merged, groups) && HasCandidate(c, supported, harassment, merged, id)
    ensures id in Disambiguated(c, harassment, merged, groups)
  {
    if Counted(c, supported, harassment, merged, id) {
      DisambiguatedHolds(c, supported, harassment, merged, groups, id);
    } else {
      var j: nat :| Counts(c, supported, false, merged, id, j);
      assert Placed(j + 1, merged[j]) in groups[id];
      var k: nat :| k < |merged| && IsCaput(c, merged[k]);
      FallbackExists(c, merged, groups[id], k);
    }
  }

  lemma CandidateStands(c: Corpus, before: Order, supported: set<string>, harassment: bool, merged: seq<Hit>,
              occurrences: map<string, nat>, groups: Groups, id: string)
    requires c.Lawful() && TotalOrder(before) && Grouped(c, supported, merged, groups) && GroupsBacked(c, supported, groups)
    requires id in Disambiguated(c, harassment, merged, groups)
    ensures var x := CandidateOf(c, before, occurrences, Disambiguated(c, harassment, merged, groups)[id]);
            x.provision.id == id ==> Stands(c, before, supported, harassment, merged, occurrences, x)
  {
    var group := Disambiguated(c, harassment, merged, groups)[id];
    if Counted(c, supported, harassment, merged, id) {
      DisambiguatedHolds(c, supported, harassment, merged, groups, id);
      HeldRepresents(c, before, supported, harassment, merged, occurrences, id, group);
    } else {
      NotCountedFallsBack(c, supported, harassment, merged, groups, id);
      FallbackFallsBack(c, before, supported, merged, occurrences, groups[ART_42]);
    }
  }

  lemma NotCountedFallsBack(c: Corpus, supported: set<string>, harassment: bool, merged: seq<Hit>, groups: Groups, id: string)
    requires Grouped(c, supported, merged, groups) && GroupsBacked(c, supported, groups)
    requires id in Disambiguated(c, harassment, merged, groups) && !Counted(c, supported, harassment, merged, id)
    ensures harassment && id == ART_42 && id in groups && Holds(c, supported, false, merged, ART_42, groups[ART_42])
    ensures NotSoleParagraph(c, groups[ART_42]) == [] && Disambiguated(c, harassment, merged, groups)[id] == FallbackCaput(c, merged, groups[ART_42]) != []
  {
    GroupHolds(c, supported, merged, groups, id);
    var first := groups[id][0];
    assert first in groups[id];
    var k: nat := first.rank - 1;
    assert Counts(c, supported, false, merged, id, k);
    assert !(harassment && id == ART_42) ==> Counts(c, supported, harassment, merged, id, k);
    KeptAreMembers(c, groups[id]);
    if NotSoleParagraph(c, groups[id]) != [] {
      var kept := NotSoleParagraph(c, groups[id])[0];
      assert kept in groups[id] && !IsSoleParagraph(c, kept.hit);
      assert Counts(c, supported, harassment, merged, id, kept.rank - 1);
    }
  }

  // ----- sorting and selecting

  /** `sort(key=(rank, chunk id))`. */
  function SortKey(x: Candidate<Choice>): Ranked<Candidate<Choice>> {
    Ranked(x.item.quoted.hit.chunk, -(x.item.rank as real), x)
  }

  function Keyed(list: seq<Candidate<Choice>>): (r: seq<Ranked<Candidate<Choice>>>)
    ensures |r| == |list| && forall i :: 0 <= i < |r| ==> r[i] == SortKey(list[i])
  {
    if list == [] then [] else Keyed(list[..|list| - 1]) + [SortKey(list[|list| - 1])]
  }

  function Unkeyed(list: seq<Ranked<Candidate<Choice>>>): (r: seq<Candidate<Choice>>)
    ensures |r| == |list| && forall i :: 0 <= i < |r| ==> r[i] == list[i].item
  {
    if list == [] then [] else Unkeyed(list[..|list| - 1]) + [list[|list| - 1].item]
  }

  function ByRank(before: Order, list: seq<Candidate<Choice>>): seq<Candidate<Choice>> { Unkeyed(Sorted(before, Keyed(list))) }

  /** Different provisions are quoted from different chunks, so the order is total and nothing is lost. */
  lemma ByRankSorts(c: Corpus, before: Order, supported: set<string>, list: seq<Candidate<Choice>>)
    requires TotalOrder(before) && CandidatesBacked(c, supported, list) && OnePerProvision(list)
    ensures CandidatesBacked(c, supported, ByRank(before, list)) && OnePerProvision(ByRank(before, list))
    ensures forall x :: x in ByRank(before, list) <==> x in list
    ensures forall i, j :: 0 <= i < j < |ByRank(before, list)| ==> ByRank(before, list)[i].item.rank <= ByRank(before, list)[j].item.rank
  {
    var keyed, sorted, result := Keyed(list), Sorted(before, Keyed(list)), ByRank(before, list);
    KeysDiffer(c, supported, list);
    SortedInOrder(before, keyed);
    SortedItems(list, keyed, sorted, result);
    forall i, j | 0 <= i < j < |result|
      ensures result[i].item.rank <= result[j].item.rank && result[i].provision.id != result[j].provision.id
    {
      assert Precedes(before, sorted[i], sorted[j]);
      PrecedesOneWay(before, sorted[i], sorted[j]);
      InListApart(list, result[i], result[j]);
    }
    SameBacked(c, supported, list, result);
  }

  lemma KeysDiffer(c: Corpus, supported: set<string>, list: seq<Candidate<Choice>>)
    requires CandidatesBacked(c, supported, list) && OnePerProvision(list)
    ensures DistinctlyRanked(Keyed(list))
  {
    var keyed := Keyed(list);
    forall i, j | 0 <= i < j < |keyed|
      ensures keyed[i].id != keyed[j].id
    {
      assert list[i].provision == c.provisionOf(keyed[i].id) && list[j].provision == c.provisionOf(keyed[j].id);
    }
  }

  lemma InListApart(list: seq<Candidate<Choice>>, x: Candidate<Choice>, y: Candidate<Choice>)
    requires OnePerProvision(list) && x in list && y in list && x != y
    ensures x.provision.id != y.provision.id
  {
    var a :| 0 <= a < |list| && list[a] == x;
    var b :| 0 <= b < |list| && list[b] == y;
    assert a < b || b < a;
  }

  lemma SameBacked(c: Corpus, supported: set<string>, list: seq<Candidate<Choice>>, result: seq<Candidate<Choice>>)
    requires CandidatesBacked(c, supported, list) && forall x :: x in result <==> x in list
    ensures CandidatesBacked(c, supported, result)
  {
    forall i | 0 <= i < |result|
      ensures result[i].provision == c.provisionOf(result[i].item.quoted.hit.chunk)
      ensures Backed(c, supported, result[i].provision.id, result[i].item.quoted.hit)
    {
      assert result[i] in list;
      var k :| 0 <= k < |list| && list[k] == result[i];
    }
  }

  lemma SortedItems(list: seq<Candidate<Choice>>, keyed: seq<Ranked<Candidate<Choice>>>, sorted: seq<Ranked<Candidate<Choice>>>,
              result: seq<Candidate<Choice>>)
    requires keyed == Keyed(list) && Elements(sorted) == Elements(keyed) && result == Unkeyed(sorted)
    ensures forall x :: x in result <==> x in list
    ensures forall i :: 0 <= i < |result| ==> sorted[i] == SortKey(result[i])
  {
    forall i | 0 <= i < |sorted|
      ensures result[i] in list && sorted[i] == SortKey(result[i])
    {
      assert sorted[i] in Elements(keyed);
      var k :| 0 <= k < |keyed| && keyed[k] == sorted[i];
      assert list[k] == result[i];
    }
    forall k | 0 <= k < |list|
      ensures list[k] in result
    {
      assert keyed[k] in Elements(sorted);
      var i :| 0 <= i < |sorted| && sorted[i] == keyed[k];
      assert result[i] == list[k];
    }
  }

  /** Half a positive best score, and no floor on fused scores or without a positive best. */
  function ScoreFloor(fused: bool, best: real): Option<real> { if fused || best <= 0.0 then None else Some(best * 0.5) }

  ghost predicate TakenOrLow(selected: seq<Candidate<Choice>>, x: Candidate<Choice>, floor: Option<real>) {
    x in selected || (floor.Some? && x.item.score < floor.value)
  }

  /** What is selected of the first `n` provisions of the window: those above the floor, in their order. */
  ghost predicate Sifted(selected: seq<Candidate<Choice>>, window: seq<Candidate<Choice>>, n: nat, floor: Option<real>) {
    && n <= |window| && Picked(selected, window[..n]) && Complements(selected) <= Complements(window[..n])
    && (forall k :: 0 <= k < |selected| ==> floor == None || selected[k].item.score >= floor.value)
    && forall k :: 0 <= k < n ==> TakenOrLow(selected, window[k], floor)
  }

  lemma SiftedSkip(selected: seq<Candidate<Choice>>, window: seq<Candidate<Choice>>, n: nat, floor: Option<real>)
    requires n < |window| && Sifted(selected, window, n, floor) && floor.Some? && window[n].item.score < floor.value
    ensures Sifted(selected, window, n + 1, floor)
  {
    PickedMore(selected, window, n);
    TakeOneMore(window, n);
    ComplementsOneMore(window[..n], window[n]);
  }

  lemma SiftedTake(selected: seq<Candidate<Choice>>, window: seq<Candidate<Choice>>, n: nat, floor: Option<real>)
    requires n < |window| && Sifted(selected, window, n, floor) && !(floor.Some? && window[n].item.score < floor.value)
    ensures Sifted(selected + [window[n]], window, n + 1, floor)
  {
    var more := selected + [window[n]];
    PickedMore(selected, window, n);
    TakeOneMore(window, n);
    ComplementsOneMore(window[..n], window[n]);
    ComplementsOneMore(selected, window[n]);
    StillTaken(selected, window, n, floor, more);
  }

  lemma StillTaken(selected: seq<Candidate<Choice>>, window: seq<Candidate<Choice>>, n: nat, floor: Option<real>, more: seq<Candidate<Choice>>)
    requires n < |window| && more == selected + [window[n]] && forall k :: 0 <= k < n ==> TakenOrLow(selected, window[k], floor)
    ensures forall k :: 0 <= k < n + 1 ==> TakenOrLow(more, window[k], floor)
  {
    assert more[|selected|] == window[n];
    forall k | 0 <= k < n
      ensures TakenOrLow(more, window[k], floor)
    {
      assert TakenOrLow(selected, window[k], floor);
    }
  }

  lemma SiftedEnds(selected: seq<Candidate<Choice>>, window: seq<Candidate<Choice>>, n: nat, floor: Option<real>)
    requires Sifted(selected, window, n, floor) && (n == |window| || |selected| == MAX_LEGAL_GROUNDS)
    ensures Picked(selected, window) && Complements(selected) <= Complements(window)
    ensures forall i :: 0 <= i < |window| ==> TakenOrLow(selected, window[i], floor) || (|selected| == MAX_LEGAL_GROUNDS && Picked(selected, window[..i]))
  {
    PickedAll(selected, window, n);
    PickedFrom(selected, window, n);
    ComplementsGrow(window, n);
  }

  /** The provisions of the window above the floor, at most eight. */
  method AboveFloor(window: seq<Candidate<Choice>>, floor: Option<real>) returns (selected: seq<Candidate<Choice>>)
    ensures |selected| <= MAX_LEGAL_GROUNDS && Picked(selected, window) && Complements(selected) <= Complements(window)
    ensures forall i :: 0 <= i < |selected| ==> floor == None || selected[i].item.score >= floor.value
    ensures forall i :: 0 <= i < |window| ==> TakenOrLow(selected, window[i], floor) || (|selected| == MAX_LEGAL_GROUNDS && Picked(selected, window[..i]))
  {
    selected := [];
    PickedNothing(window[..0]);
    var i := 0;
    while i < |window|
      invariant i <= |window| && |selected| < MAX_LEGAL_GROUNDS && Sifted(selected, window, i, floor)
    {
      var candidate := window[i];
      i := i + 1;
      if floor.Some? && candidate.item.score < floor.value {
        SiftedSkip(selected, window, i - 1, floor);
        continue;
      }
      SiftedTake(selected, window, i - 1, floor);
      selected := selected + [candidate];
      if |selected| >= MAX_LEGAL_GROUNDS {
        SiftedEnds(selected, window, i, floor);
        return;
      }
    }
    SiftedEnds(selected, window, i, floor);
  }

  lemma PickedFrom(some: seq<Candidate<Choice>>, all: seq<Candidate<Choice>>, n: nat)
    requires n <= |all| && Picked(some, all[..n])
    ensures forall k :: n <= k < |all| ==> Picked(some, all[..k])
  {
    forall k | n <= k < |all|
      ensures Picked(some, all[..k])
    {
      assert all[..k][..n] == all[..n];
      PickedAll(some, all[..k], n);
    }
  }

  lemma PickedIsShorter(some: seq<Candidate<Choice>>, all: seq<Candidate<Choice>>)
    requires Picked(some, all)
    ensures |some| <= |all|
  {
    var at: seq<nat> :| PickedAt(some, all, at);
    RisingIsShorter(at, |all|);
  }

  lemma {:induction false} RisingIsShorter(at: seq<nat>, n: nat)
    requires (forall i, j :: 0 <= i < j < |at| ==> at[i] < at[j]) && forall i :: 0 <= i < |at| ==> at[i] < n
    ensures |at| <= n
    decreases |at|
  {
    if at != [] {
      RisingIsShorter(at[..|at| - 1], at[|at| - 1]);
    }
  }

  lemma {:induction false} ComplementsGrow(list: seq<Candidate<Choice>>, n: nat)
    requires n <= |list|
    ensures Complements(list[..n]) <= Complements(list)
    decreases |list|
  {
    if n < |list| {
      ComplementsGrow(list[..|list| - 1], n);
      assert list[..|list| - 1][..n] == list[..n];
    } else {
      assert list[..n] == list;
    }
  }

  lemma PickedBacked(c: Corpus, supported: set<string>, some: seq<Candidate<Choice>>, all: seq<Candidate<Choice>>)
    requires Picked(some, all) && CandidatesBacked(c, supported, all)
    ensures CandidatesBacked(c, supported, some) && (OnePerProvision(all) ==> OnePerProvision(some))
  {
    PickedFacts(some, all);
    forall i | 0 <= i < |some|
      ensures some[i].provision == c.provisionOf(some[i].item.quoted.hit.chunk)
      ensures Backed(c, supported, some[i].provision.id, some[i].item.quoted.hit)
    {
      var k :| 0 <= k < |all| && all[k] == some[i];
    }
  }

  lemma PickedByRank(some: seq<Candidate<Choice>>, all: seq<Candidate<Choice>>)
    requires Picked(some, all) && forall i, j :: 0 <= i < j < |all| ==> all[i].item.rank <= all[j].item.rank
    ensures forall i, j :: 0 <= i < j < |some| ==> some[i].item.rank <= some[j].item.rank
  {
    var at :| PickedAt(some, all, at);
  }

  /** What the query results say besides the hits. */
  datatype Search = Search(occurrences: map<string, nat>, fused: bool, lexicalOnly: bool)

  /** Why a candidate is no ground: its score is below half a positive best one, eight candidates ranked no later fill the
      window, it is complementary and lexical-only or behind three complementary ones, or its anchor is missing. */
  ghost predicate LeftOut(merged: seq<Hit>, s: Search, window: seq<Candidate<Choice>>, grounds: seq<Candidate<Choice>>, x: Candidate<Choice>) {
    || (!s.fused && merged != [] && merged[0].score > 0.0 && x.item.score < merged[0].score * 0.5)
    || (|window| == MAX_GROUND_CANDIDATES && x !in window && forall w :: w in window ==> w.item.rank <= x.item.rank)
    || (&& Complementary(x.provision.source)
        && (s.lexicalOnly || (&& Complements(window) == MAX_COMPLEMENTARY && x !in window
                              && forall w :: w in window && Complementary(w.provision.source) ==> w.item.rank <= x.item.rank)))
    || (NeedsAnchor(x.provision.source) && !HasAnchor(grounds))
  }

  /** Each candidate stands for the hits that count for its provision. */
  ghost predicate AllStand(c: Corpus, before: Order, supported: set<string>, harassment: bool, merged: seq<Hit>, s: Search,
              list: seq<Candidate<Choice>>) {
    forall x :: x in list ==> Stands(c, before, supported, harassment, merged, s.occurrences, x)
  }

  /** The window the candidates compete for: real candidates, one a provision, and every one not among them or not among
      the grounds has a reason. */
  ghost predicate Competes(c: Corpus, before: Order, supported: set<string>, harassment: bool, merged: seq<Hit>, s: Search,
                           window: seq<Candidate<Choice>>, grounds: seq<Candidate<Choice>>) {
    && AllStand(c, before, supported, harassment, merged, s, window) && OnePerProvision(window) && |window| <= MAX_GROUND_CANDIDATES
    && (forall x :: x in grounds ==> x in window)
    && (forall x :: x in window ==> x in grounds || LeftOut(merged, s, window, grounds, x))
    && forall id :: HasCandidate(c, supported, harassment, merged, id) ==> Considered(c, before, supported, harassment, merged, s, window, grounds, id)
  }

  /** The provision's candidate is a ground or left out for a reason. */
  ghost predicate Considered(c: Corpus, before: Order, supported: set<string>, harassment: bool, merged: seq<Hit>, s: Search,
                             window: seq<Candidate<Choice>>, grounds: seq<Candidate<Choice>>, id: string) {
    exists x: Candidate<Choice> :: && x.provision.id == id && Stands(c, before, supported, harassment, merged, s.occurrences, x)
                && (x in grounds || LeftOut(merged, s, window, grounds, x))
  }

  lemma RankedStand(c: Corpus, before: Order, supported: set<string>, harassment: bool, merged: seq<Hit>, s: Search, groups: Groups,
                    candidates: seq<Candidate<Choice>>, ranked: seq<Candidate<Choice>>)
    requires c.Lawful() && TotalOrder(before) && Grouped(c, supported, merged, groups) && GroupsBacked(c, supported, groups)
    requires var kept := Disambiguated(c, harassment, merged, groups); CandidatesOf(c, before, s.occurrences, kept, kept.Keys, candidates)
    requires forall x :: x in ranked <==> x in candidates
    ensures AllStand(c, before, supported, harassment, merged, s, ranked)
    ensures forall id :: HasCandidate(c, supported, harassment, merged, id) ==> exists x :: x in ranked && x.provision.id == id
  {
    var kept := Disambiguated(c, harassment, merged, groups);
    forall x | x in ranked
      ensures Stands(c, before, supported, harassment, merged, s.occurrences, x)
    {
      var i :| 0 <= i < |candidates| && candidates[i] == x;
      CandidateStands(c, before, supported, harassment, merged, s.occurrences, groups, x.provision.id);
    }
    forall id | HasCandidate(c, supported, harassment, merged, id)
      ensures exists x :: x in ranked && x.provision.id == id
    {
      CandidateExists(c, supported, harassment, merged, groups, id);
      assert Listed(candidates, id);
      var i :| 0 <= i < |candidates| && candidates[i].provision.id == id;
      assert candidates[i] in ranked;
    }
  }

  lemma WindowLeavesOut(merged: seq<Hit>, s: Search, ranked: seq<Candidate<Choice>>, window: seq<Candidate<Choice>>,
              grounds: seq<Candidate<Choice>>, i: nat)
    requires i < |ranked| && ranked[i] !in window
    requires forall a, b :: 0 <= a < b < |ranked| ==> ranked[a].item.rank <= ranked[b].item.rank
    requires Excused(window, ranked, i, s.lexicalOnly) || (|window| == MAX_GROUND_CANDIDATES && Front(window, ranked, i))
    ensures LeftOut(merged, s, window, grounds, ranked[i])
  {
    forall w | w in ranked[..i]
      ensures w.item.rank <= ranked[i].item.rank
    {
      var a :| 0 <= a < i && ranked[a] == w;
    }
  }

  lemma FloorLeavesOut(merged: seq<Hit>, s: Search, window: seq<Candidate<Choice>>, selected: seq<Candidate<Choice>>,
              grounds: seq<Candidate<Choice>>, i: nat)
    requires i < |window| <= MAX_GROUND_CANDIDATES && merged != [] && grounds == Anchored(selected)
    requires TakenOrLow(selected, window[i], ScoreFloor(s.fused, merged[0].score)) || (|selected| == MAX_LEGAL_GROUNDS && Picked(selected, window[..i]))
    ensures window[i] in grounds || LeftOut(merged, s, window, grounds, window[i])
  {
    if |selected| == MAX_LEGAL_GROUNDS && Picked(selected, window[..i]) {
      PickedIsShorter(selected, window[..i]);
    }
    if window[i] in selected && (HasAnchor(grounds) || !NeedsAnchor(window[i].provision.source)) {
      MemberKept(selected, window[i]);
    }
  }

  lemma AllConsidered(c: Corpus, before: Order, supported: set<string>, harassment: bool, merged: seq<Hit>, s: Search,
                      ranked: seq<Candidate<Choice>>, window: seq<Candidate<Choice>>, selected: seq<Candidate<Choice>>, grounds: seq<Candidate<Choice>>)
    requires AllStand(c, before, supported, harassment, merged, s, ranked) && merged != []
    requires forall id :: HasCandidate(c, supported, harassment, merged, id) ==> exists x :: x in ranked && x.provision.id == id
    requires forall a, b :: 0 <= a < b < |ranked| ==> ranked[a].item.rank <= ranked[b].item.rank
    requires OnePerProvision(window) && |window| <= MAX_GROUND_CANDIDATES && Picked(window, ranked) && grounds == Anchored(selected) && Picked(grounds, window)
    requires forall i :: 0 <= i < |ranked| ==>
               Excused(window, ranked, i, s.lexicalOnly) || (|window| == MAX_GROUND_CANDIDATES && Front(window, ranked, i))
    requires forall i :: 0 <= i < |window| ==>
               TakenOrLow(selected, window[i], ScoreFloor(s.fused, merged[0].score)) || (|selected| == MAX_LEGAL_GROUNDS && Picked(selected, window[..i]))
    ensures Competes(c, before, supported, harassment, merged, s, window, grounds)
  {
    PickedFacts(window, ranked);
    PickedFacts(grounds, window);
    forall x | x in window
      ensures x in ranked && (x in grounds || LeftOut(merged, s, window, grounds, x))
    {
      var i :| 0 <= i < |window| && window[i] == x;
      FloorLeavesOut(merged, s, window, selected, grounds, i);
    }
    forall id | HasCandidate(c, supported, harassment, merged, id)
      ensures Considered(c, before, supported, harassment, merged, s, window, grounds, id)
    {
      var x :| x in ranked && x.provision.id == id;
      var i :| 0 <= i < |ranked| && ranked[i] == x;
      if x !in window {
        WindowLeavesOut(merged, s, ranked, window, grounds, i);
      }
    }
  }

  /** The grounds meet the policy in rank order, and every provision with a hit that counts, and the article 42 that falls
      back on its caput, has a candidate that is a ground or left out for one of the stated reasons. */
  method SelectLegalGrounds(c: Corpus, before: Order, inScope: bool, harassment: bool, merged: seq<Hit>, supported: set<string>, s: Search)
    returns (grounds: seq<Candidate<Choice>>, ghost window: seq<Candidate<Choice>>)
    requires c.Lawful() && TotalOrder(before)
    ensures PolicyHolds(c, supported, s.lexicalOnly, grounds)
    ensures forall i, j :: 0 <= i < j < |grounds| ==> grounds[i].item.rank <= grounds[j].item.rank
    ensures !inScope || supported == {} || merged == [] ==> grounds == []
    ensures inScope ==> Competes(c, before, supported, harassment, merged, s, window, grounds)
  {
    window := [];
    if !inScope || supported == {} || merged == [] {
      return [], [];
    }
    var eligible := EligibleCandidates(c, merged, supported);
    DisambiguatedBacked(c, supported, harassment, merged, eligible);
    var candidates := ProvisionCandidates(c, before, Disambiguated(c, harassment, merged, eligible), s.occurrences, supported);
    ByRankSorts(c, before, supported, candidates);
    var ranked := ByRank(before, candidates);
    RankedStand(c, before, supported, harassment, merged, s, eligible, candidates, ranked);
    grounds, window := GroundsOfRanked(c, before, harassment, merged, supported, s, ranked);
  }

  method GroundsOfRanked(c: Corpus, before: Order, ghost harassment: bool, merged: seq<Hit>, ghost supported: set<string>, s: Search,
              ranked: seq<Candidate<Choice>>)
    returns (grounds: seq<Candidate<Choice>>, ghost window: seq<Candidate<Choice>>)
    requires merged != [] && CandidatesBacked(c, supported, ranked) && OnePerProvision(ranked)
    requires forall a, b :: 0 <= a < b < |ranked| ==> ranked[a].item.rank <= ranked[b].item.rank
    requires AllStand(c, before, supported, harassment, merged, s, ranked)
    requires forall id :: HasCandidate(c, supported, harassment, merged, id) ==> exists x :: x in ranked && x.provision.id == id
    ensures PolicyHolds(c, supported, s.lexicalOnly, grounds)
    ensures forall i, j :: 0 <= i < j < |grounds| ==> grounds[i].item.rank <= grounds[j].item.rank
    ensures Competes(c, before, supported, harassment, merged, s, window, grounds)
  {
    var admitted := PrecedenceWindow(ranked, MAX_GROUND_CANDIDATES, s.lexicalOnly);
    window := admitted;
    PickedBacked(c, supported, window, ranked);
    var selected := AboveFloor(admitted, ScoreFloor(s.fused, merged[0].score));
    PickedBacked(c, supported, selected, window);
    AnchoredFacts(selected);
    PickedBacked(c, supported, Anchored(selected), selected);
    PickedTwice(Anchored(selected), selected, window);
    PickedTwice(Anchored(selected), window, ranked);
    PickedByRank(Anchored(selected), ranked);
    grounds := Anchored(selected);
    AllConsidered(c, before, supported, harassment, merged, s, ranked, window, selected, grounds);
  }

  // ----- the verifier

  datatype Judgment = Applies | DoesNotApply | Uncertain

  /** A verdict of the model with its two quotes. */
  datatype Verdict = Verdict(index: int, judgment: Judgment, factQuote: string, provisionQuote: string)

  /** `verified` only with both quotes found in their sources. */
  datatype Record = Record(judgment: Judgment, verified: bool)

  /** Whether a quote stands in the consumer's account or in the official text. */
  datatype Sources = Sources(inFacts: string -> bool, inOfficial: (string, string) -> bool)

  /** The last verdict on a ground. */
  function VerdictOn(verdicts: seq<Verdict>, index: nat): (r: Option<Verdict>)
    ensures r.None? ==> forall i :: 0 <= i < |verdicts| ==> verdicts[i].index != index
    ensures r.Some? ==> exists i :: 0 <= i < |verdicts| && verdicts[i] == r.value && r.value.index == index
                                    && forall j :: i < j < |verdicts| ==> verdicts[j].index != index
  {
    if verdicts == [] then None
    else if verdicts[|verdicts| - 1].index == index then Some(verdicts[|verdicts| - 1])
    else VerdictOn(verdicts[..|verdicts| - 1], index)
  }

  function CheckedRecord(s: Sources, chunk: string, verdict: Option<Verdict>): (r: Record)
    ensures r.judgment == DoesNotApply <==> verdict.Some? && verdict.value.judgment == DoesNotApply
    ensures r.verified <==> verdict.Some? && verdict.value.judgment == Applies
                            && s.inFacts(verdict.value.factQuote) && s.inOfficial(chunk, verdict.value.provisionQuote)
  {
    match verdict
    case None => Record(Uncertain, false)
    case Some(v) =>
      if v.judgment == DoesNotApply then Record(DoesNotApply, false)
      else if v.judgment == Applies && s.inFacts(v.factQuote) && s.inOfficial(chunk, v.provisionQuote) then Record(Applies, true)
      else Record(Uncertain, false)
  }

  /** Dropping the grounds the verifier rejects keeps the policy: only an explicit rejection removes a ground,
      and a Civil Code ground that loses its anchor goes too. */
  method ApplyVerdicts(c: Corpus, s: Sources, supported: set<string>, lexicalOnly: bool, grounds: seq<Candidate<Choice>>, verdicts: seq<Verdict>)
    returns (kept: seq<Candidate<Choice>>)
    requires PolicyHolds(c, supported, lexicalOnly, grounds)
    ensures PolicyHolds(c, supported, lexicalOnly, kept) && Picked(kept, grounds)
    ensures forall i :: 0 <= i < |grounds| && !Rejected(verdicts, i) && (HasAnchor(kept) || !NeedsAnchor(grounds[i].provision.source)) ==> grounds[i] in kept
  {
    var unrejected := KeepUnrejected(s, grounds, verdicts);
    UnrejectedFacts(grounds, verdicts);
    kept := Anchored(unrejected);
    AnchoredFacts(unrejected);
    PickedTwice(kept, unrejected, grounds);
    PickedBacked(c, supported, kept, grounds);
    forall i | 0 <= i < |grounds| && !Rejected(verdicts, i) && (HasAnchor(kept) || !NeedsAnchor(grounds[i].provision.source))
      ensures grounds[i] in kept
    {
      KeptThroughout(grounds, verdicts, i, unrejected);
    }
  }

  lemma UnrejectedFacts(grounds: seq<Candidate<Choice>>, verdicts: seq<Verdict>)
    ensures var unrejected := Unrejected(grounds, verdicts, |grounds|);
            Picked(unrejected, grounds) && |unrejected| <= |grounds| && Complements(unrejected) <= Complements(grounds)
  {
    assert grounds[..|grounds|] == grounds;
    UnrejectedPicked(grounds, verdicts, |grounds|, grounds, Unrejected(grounds, verdicts, |grounds|));
    UnrejectedSizes(grounds, verdicts, |grounds|);
  }

  lemma KeptThroughout(grounds: seq<Candidate<Choice>>, verdicts: seq<Verdict>, i: nat, unrejected: seq<Candidate<Choice>>)
    requires i < |grounds| && !Rejected(verdicts, i) && unrejected == Unrejected(grounds, verdicts, |grounds|)
    requires HasAnchor(Anchored(unrejected)) || !NeedsAnchor(grounds[i].provision.source)
    ensures grounds[i] in Anchored(unrejected)
  {
    UnrejectedKeeps(grounds, verdicts, |grounds|, i);
    MemberKept(unrejected, grounds[i]);
  }

  lemma MemberKept(list: seq<Candidate<Choice>>, x: Candidate<Choice>)
    requires x in list && (HasAnchor(Anchored(list)) || !NeedsAnchor(x.provision.source))
    ensures x in Anchored(list)
  {
    var k :| 0 <= k < |list| && list[k] == x;
    if HasAnchor(Anchored(list)) {
      AnchorWasThere(list);
    }
    AnchoredKeeps(list, k);
  }

  lemma AnchorWasThere(list: seq<Candidate<Choice>>)
    requires HasAnchor(Anchored(list))
    ensures HasAnchor(list)
  {
    var i :| 0 <= i < |Anchored(list)| && Anchored(list)[i].provision.source == ConsumerCode;
    WithoutAnchoredKeeps(list, Anchored(list)[i]);
    assert Anchored(list)[i] in list;
  }

  method KeepUnrejected(s: Sources, grounds: seq<Candidate<Choice>>, verdicts: seq<Verdict>) returns (kept: seq<Candidate<Choice>>)
    ensures kept == Unrejected(grounds, verdicts, |grounds|)
  {
    kept := [];
    for i := 0 to |grounds|
      invariant kept == Unrejected(grounds, verdicts, i)
    {
      var record := CheckedRecord(s, grounds[i].item.quoted.hit.chunk, VerdictOn(verdicts, i));
      if record.judgment != DoesNotApply {
        kept := kept + [grounds[i]];
      }
    }
  }

  function Unrejected(grounds: seq<Candidate<Choice>>, verdicts: seq<Verdict>, n: nat): seq<Candidate<Choice>>
    requires n <= |grounds|
    decreases n
  {
    if n == 0 then [] else Unrejected(grounds, verdicts, n - 1) + (if Rejected(verdicts, n - 1) then [] else [grounds[n - 1]])
  }

  lemma {:induction false} UnrejectedPicked(grounds: seq<Candidate<Choice>>, verdicts: seq<Verdict>, n: nat,
                                            taken: seq<Candidate<Choice>>, some: seq<Candidate<Choice>>)
    requires n <= |grounds| && taken == grounds[..n] && some == Unrejected(grounds, verdicts, n)
    ensures Picked(some, taken)
    decreases n
  {
    if n == 0 {
      PickedNothing(taken);
    } else {
      var earlier, before := Unrejected(grounds, verdicts, n - 1), grounds[..n - 1];
      UnrejectedPicked(grounds, verdicts, n - 1, before, earlier);
      TakeOneMore(grounds, n - 1);
      PickedStep(earlier, before, grounds[n - 1], taken);
      assert earlier + [] == earlier;
    }
  }

  lemma {:induction false} UnrejectedSizes(grounds: seq<Candidate<Choice>>, verdicts: seq<Verdict>, n: nat)
    requires n <= |grounds|
    ensures |Unrejected(grounds, verdicts, n)| <= n && Complements(Unrejected(grounds, verdicts, n)) <= Complements(grounds[..n])
    decreases n
  {
    if n > 0 {
      var earlier := Unrejected(grounds, verdicts, n - 1);
      UnrejectedSizes(grounds, verdicts, n - 1);
      ComplementsOneMore(earlier, grounds[n - 1]);
      TakeOneMore(grounds, n - 1);
      ComplementsOneMore(grounds[..n - 1], grounds[n - 1]);
    }
  }

  lemma ComplementsOneMore(list: seq<Candidate<Choice>>, x: Candidate<Choice>)
    ensures Complements(list + [x]) == Complements(list) + (if Complementary(x.provision.source) then 1 else 0)
    ensures list + [] == list
  {
    assert (list + [x])[..|list|] == list;
  }

  lemma {:induction false} UnrejectedKeeps(grounds: seq<Candidate<Choice>>, verdicts: seq<Verdict>, n: nat, i: nat)
    requires i < n <= |grounds| && !Rejected(verdicts, i)
    ensures grounds[i] in Unrejected(grounds, verdicts, n)
    decreases n
  {
    if i < n - 1 {
      UnrejectedKeeps(grounds, verdicts, n - 1, i);
    }
  }

  predicate Rejected(verdicts: seq<Verdict>, i: nat) { VerdictOn(verdicts, i).Some? && VerdictOn(verdicts, i).value.judgment == DoesNotApply }
}
