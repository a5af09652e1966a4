/** Whole normative units packed into article-level chunks (app/consumer/legal_corpus.py:1222-1253). */
module LegalPacking {
  import opened Common
  import Chunking

  /** What one packed text was made of. */
  datatype Block = Together(units: seq<string>) | Fragment(text: string)

  function Joined(units: seq<string>): string {
    if units == [] then []
    else if |units| == 1 then units[0]
    else Joined(units[..|units| - 1]) + "\n" + units[|units| - 1]
  }

  function TextOf(block: Block): string { if block.Together? then Joined(block.units) else block.text }

  function Fragments(texts: seq<string>): (r: seq<Block>)
    ensures |r| == |texts| && forall i :: 0 <= i < |r| ==> r[i] == Fragment(texts[i])
  {
    if texts == [] then [] else Fragments(texts[..|texts| - 1]) + [Fragment(texts[|texts| - 1])]
  }

  /** The size of a chunk and how a unit beyond it is split. */
  datatype Budget = Budget(max: nat, split: string -> seq<string>)

  function BudgetOf(max: nat): Budget
    requires max >= 1
  {
    Budget(max, (unit: string) => Chunking.Pieces(unit, max))
  }

  function Flushed(blocks: seq<Block>, buffer: seq<string>): seq<Block> {
    if buffer == [] then blocks else blocks + [Together(buffer)]
  }

  datatype Packing = Packing(blocks: seq<Block>, buffer: seq<string>, size: nat)

  function Add(s: Packing, unit: string, b: Budget): Packing
  {
    if |unit| > b.max then Packing(Flushed(s.blocks, s.buffer) + Fragments(b.split(unit)), [], 0)
    else if s.buffer != [] && s.size + |unit| + 1 > b.max then Packing(s.blocks + [Together(s.buffer)], [unit], |unit| + 1)
    else Packing(s.blocks, s.buffer + [unit], s.size + |unit| + 1)
  }

  function Packed(units: seq<string>, b: Budget, n: nat): Packing
    requires n <= |units|
    decreases n
  {
    if n == 0 then Packing([], [], 0) else Add(Packed(units, b, n - 1), units[n - 1], b)
  }

  function Blocks(units: seq<string>, b: Budget): seq<Block> {
    Flushed(Packed(units, b, |units|).blocks, Packed(units, b, |units|).buffer)
  }

  // ----- no unit that fits is cut, and nothing is lost

  function Flat(blocks: seq<Block>): seq<string> {
    if blocks == [] then []
    else
      var last := blocks[|blocks| - 1];
      Flat(blocks[..|blocks| - 1]) + (if last.Together? then last.units else [last.text])
  }

  /** The units in order, those longer than the budget as their pieces. */
  function Expected(units: seq<string>, b: Budget, n: nat): seq<string>
    requires n <= |units|
    decreases n
  {
    if n == 0 then []
    else Expected(units, b, n - 1) + (if |units[n - 1]| > b.max then b.split(units[n - 1]) else [units[n - 1]])
  }

  lemma {:induction false} FlatConcat(a: seq<Block>, b: seq<Block>)
    ensures Flat(a + b) == Flat(a) + Flat(b)
    decreases |b|
  {
    if b == [] {
      assert a + b == a;
    } else {
      var n := |b| - 1;
      assert (a + b)[..|a + b| - 1] == a + b[..n] && (a + b)[|a + b| - 1] == b[n];
      FlatConcat(a, b[..n]);
      Regroup(Flat(a), Flat(b[..n]), if b[n].Together? then b[n].units else [b[n].text]);
    }
  }

  lemma {:induction false} FlatFragments(texts: seq<string>)
    ensures Flat(Fragments(texts)) == texts
  {
    if texts != [] {
      var n := |texts| - 1;
      FlatFragments(texts[..n]);
      assert Fragments(texts)[..n] == Fragments(texts[..n]);
    }
  }

  lemma FlatFlushed(blocks: seq<Block>, buffer: seq<string>)
    ensures Flat(Flushed(blocks, buffer)) == Flat(blocks) + buffer
  {
    if buffer != [] {
      assert (blocks + [Together(buffer)])[..|blocks|] == blocks;
    }
  }

  ghost predicate InOrder(s: Packing, units: seq<string>) { Flat(s.blocks) + s.buffer == units }

  lemma AddKeepsOrder(s: Packing, t: Packing, unit: string, b: Budget, before: seq<string>, after: seq<string>)
    requires t == Add(s, unit, b) && InOrder(s, before)
    requires after == before + (if |unit| > b.max then b.split(unit) else [unit])
    ensures InOrder(t, after)
  {
    if |unit| > b.max {
      var pieces := b.split(unit);
      FlatConcat(Flushed(s.blocks, s.buffer), Fragments(pieces));
      FlatFlushed(s.blocks, s.buffer);
      FlatFragments(pieces);
    } else if s.buffer != [] && s.size + |unit| + 1 > b.max {
      FlatFlushed(s.blocks, s.buffer);
    } else {
      Regroup(Flat(s.blocks), s.buffer, [unit]);
    }
  }

  lemma {:induction false} PackedKeepsOrder(units: seq<string>, b: Budget, n: nat)
    requires n <= |units|
    ensures InOrder(Packed(units, b, n), Expected(units, b, n))
    decreases n
  {
    if n > 0 {
      PackedKeepsOrder(units, b, n - 1);
      AddKeepsOrder(Packed(units, b, n - 1), Packed(units, b, n), units[n - 1], b, Expected(units, b, n - 1), Expected(units, b, n));
    }
  }

  /** The blocks hold every unit once and in order, and only a unit longer than the budget in pieces. */
  lemma BlocksHoldUnits(units: seq<string>, b: Budget)
    ensures Flat(Blocks(units, b)) == Expected(units, b, |units|)
  {
    var s := Packed(units, b, |units|);
    PackedKeepsOrder(units, b, |units|);
    FlatFlushed(s.blocks, s.buffer);
  }

  // ----- every text fits the budget

  /** The length the program counts: one more than every unit. */
  function Counted(units: seq<string>): nat {
    if units == [] then 0 else Counted(units[..|units| - 1]) + |units[|units| - 1]| + 1
  }

  lemma {:induction false} CountedIsOneMore(units: seq<string>)
    requires units != []
    ensures Counted(units) == |Joined(units)| + 1
  {
    if |units| > 1 {
      CountedIsOneMore(units[..|units| - 1]);
    } else {
      assert units[..0] == [];
    }
  }

  ghost predicate AllFit(blocks: seq<Block>, b: Budget) { forall i :: 0 <= i < |blocks| ==> |TextOf(blocks[i])| <= b.max }

  ghost predicate Sound(s: Packing, b: Budget) {
    AllFit(s.blocks, b) && s.size == Counted(s.buffer) && |Joined(s.buffer)| <= b.max
  }

  /** Pieces of a unit fit. */
  ghost predicate Splits(b: Budget) { forall unit :: AllFit(Fragments(b.split(unit)), b) }

  lemma BudgetSplits(max: nat)
    requires max >= 1
    ensures Splits(BudgetOf(max))
  {
    forall unit
      ensures AllFit(Fragments(BudgetOf(max).split(unit)), BudgetOf(max))
    {
      Chunking.PiecesFit(unit, max);
    }
  }

  lemma AddIsSound(s: Packing, unit: string, b: Budget)
    requires Sound(s, b) && Splits(b)
    ensures Sound(Add(s, unit, b), b)
  {
    if |unit| > b.max {
      assert AllFit(Fragments(b.split(unit)), b);
    } else if s.buffer != [] && s.size + |unit| + 1 > b.max {
      OneUnit(unit);
    } else {
      BufferFits(s.buffer, unit, b);
    }
  }

  lemma BufferFits(buffer: seq<string>, unit: string, b: Budget)
    requires |unit| <= b.max && (buffer != [] ==> Counted(buffer) + |unit| + 1 <= b.max)
    ensures Counted(buffer + [unit]) == Counted(buffer) + |unit| + 1 && |Joined(buffer + [unit])| <= b.max
  {
    if buffer == [] {
      OneUnit(unit);
      assert buffer + [unit] == [unit];
    } else {
      assert (buffer + [unit])[..|buffer|] == buffer;
      CountedIsOneMore(buffer + [unit]);
    }
  }

  lemma OneUnit(unit: string)
    ensures Counted([unit]) == |unit| + 1 && Joined([unit]) == unit
  {
    assert [unit][..0] == [];
  }

  lemma {:induction false} PackedIsSound(units: seq<string>, b: Budget, n: nat)
    requires n <= |units| && Splits(b)
    ensures Sound(Packed(units, b, n), b)
    decreases n
  {
    if n > 0 {
      PackedIsSound(units, b, n - 1);
      AddIsSound(Packed(units, b, n - 1), units[n - 1], b);
    }
  }

  lemma BlocksFit(units: seq<string>, max: nat)
    requires max >= 1
    ensures AllFit(Blocks(units, BudgetOf(max)), BudgetOf(max))
  {
    BudgetSplits(max);
    PackedIsSound(units, BudgetOf(max), |units|);
  }

  // ----- units stay together as long as they fit

  /** Between two blocks of whole units the next unit would have passed the budget. */
  ghost predicate FullBefore(b: Budget, block: Block, next: seq<string>) {
    block.Together? ==> next != [] && Counted(block.units) + |next[0]| + 1 > b.max
  }

  ghost predicate Greedy(s: Packing, b: Budget) {
    && (forall i :: 0 <= i && i + 1 < |s.blocks| && s.blocks[i + 1].Together? ==> FullBefore(b, s.blocks[i], s.blocks[i + 1].units))
    && (s.buffer != [] && s.blocks != [] ==> FullBefore(b, s.blocks[|s.blocks| - 1], s.buffer))
    && (s.buffer == [] && s.blocks != [] ==> s.blocks[|s.blocks| - 1].Fragment?)
    && s.size == Counted(s.buffer)
  }

  lemma AddIsGreedy(s: Packing, unit: string, b: Budget, t: Packing)
    requires Greedy(s, b) && (|unit| > b.max ==> b.split(unit) != []) && t == Add(s, unit, b)
    ensures Greedy(t, b)
  {
    OneUnit(unit);
    assert (s.buffer + [unit])[..|s.buffer|] == s.buffer;
  }

  lemma {:induction false} PackedIsGreedy(units: seq<string>, b: Budget, n: nat)
    requires n <= |units| && forall unit: string :: |unit| > b.max ==> b.split(unit) != []
    ensures Greedy(Packed(units, b, n), b)
    decreases n
  {
    if n > 0 {
      PackedIsGreedy(units, b, n - 1);
      AddIsGreedy(Packed(units, b, n - 1), units[n - 1], b, Packed(units, b, n));
    }
  }

  /** A block of whole units ends only in front of a unit that it has no room for. */
  lemma BlocksAreFull(units: seq<string>, max: nat, i: nat)
    requires max >= 1 && i + 1 < |Blocks(units, BudgetOf(max))|
    requires Blocks(units, BudgetOf(max))[i].Together? && Blocks(units, BudgetOf(max))[i + 1].Together?
    ensures var block, next := Blocks(units, BudgetOf(max))[i], Blocks(units, BudgetOf(max))[i + 1];
            next.units != [] && Counted(block.units) + |next.units[0]| + 1 > max
  {
    PackedIsGreedy(units, BudgetOf(max), |units|);
    assert FullBefore(BudgetOf(max), Blocks(units, BudgetOf(max))[i], Blocks(units, BudgetOf(max))[i + 1].units);
  }

  // ----- no text is empty

  ghost predicate NoneEmpty(texts: seq<string>) { forall i :: 0 <= i < |texts| ==> texts[i] != [] }

  ghost predicate Filled(s: Packing) { (forall i :: 0 <= i < |s.blocks| ==> TextOf(s.blocks[i]) != []) && NoneEmpty(s.buffer) }

  lemma JoinedNotEmpty(units: seq<string>)
    requires units != [] && NoneEmpty(units)
    ensures Joined(units) != []
  {
  }

  lemma AddIsFilled(s: Packing, unit: string, b: Budget, t: Packing)
    requires Filled(s) && unit != [] && (|unit| > b.max ==> NoneEmpty(b.split(unit))) && t == Add(s, unit, b)
    ensures Filled(t)
  {
    if s.buffer != [] {
      JoinedNotEmpty(s.buffer);
    }
  }

  lemma {:induction false} PackedIsFilled(units: seq<string>, b: Budget, n: nat, s: Packing)
    requires n <= |units| && NoneEmpty(units) && s == Packed(units, b, n)
    requires forall i :: 0 <= i < |units| && |units[i]| > b.max ==> NoneEmpty(b.split(units[i]))
    ensures Filled(s)
    decreases n
  {
    if n > 0 {
      var earlier := Packed(units, b, n - 1);
      PackedIsFilled(units, b, n - 1, earlier);
      AddIsFilled(earlier, units[n - 1], b, s);
    }
  }

  lemma BlocksAreFilled(units: seq<string>, b: Budget)
    requires NoneEmpty(units) && forall i :: 0 <= i < |units| && |units[i]| > b.max ==> NoneEmpty(b.split(units[i]))
    ensures forall i :: 0 <= i < |Blocks(units, b)| ==> TextOf(Blocks(units, b)[i]) != []
  {
    var s := Packed(units, b, |units|);
    PackedIsFilled(units, b, |units|, s);
    if s.buffer != [] {
      JoinedNotEmpty(s.buffer);
    }
  }

  // ----- the program

  method PackUnit(s: Packing, unit: string, max: nat) returns (t: Packing)
    requires max >= 1 && (s.buffer == [] ==> s.size == 0)
    ensures t == Add(s, unit, BudgetOf(max)) && (t.buffer == [] ==> t.size == 0)
  {
    var blocks, buffer, size := s.blocks, s.buffer, s.size;
    if |unit| > max {
      if buffer != [] {
        blocks := blocks + [Together(buffer)];
        buffer, size := [], 0;
      }
      var pieces := Chunking.SplitAtBoundaries(unit, max);
      return Packing(blocks + Fragments(pieces), buffer, size);
    }
    if buffer != [] && size + |unit| + 1 > max {
      blocks := blocks + [Together(buffer)];
      buffer, size := [], 0;
    }
    assert [] + [unit] == [unit];
    return Packing(blocks, buffer + [unit], size + |unit| + 1);
  }

  method PackUnits(units: seq<string>, max: nat) returns (blocks: seq<Block>)
    requires max >= 1
    ensures blocks == Blocks(units, BudgetOf(max))
  {
    var s := Packing([], [], 0);
    for i := 0 to |units|
      invariant s == Packed(units, BudgetOf(max), i) && (s.buffer == [] ==> s.size == 0)
    {
      s := PackUnit(s, units[i], max);
    }
    blocks := s.blocks;
    if s.buffer != [] {
      blocks := blocks + [Together(s.buffer)];
    }
  }
}
