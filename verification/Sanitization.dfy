/** Masking flagged text through its canonical projection (app/security/sanitization.py). The search
    runs in the folded text, the cut in the source text, through a map of positions. */
module Sanitization {
  import opened Common
  import opened Text

  const MASK_WORDS := "TRECHO SINALIZADO E REMOVIDO PELO CONTROLE DE SEGURANCA"
  const SECURITY_MASK := "[" + MASK_WORDS + "]"

  /** What the text tables do to one source character: format characters are dropped, homoglyphs translated
      and the result decomposed into any number of characters. Combining marks are then left out and the
      others put in lower case. */
  datatype Folding = Folding(ignorable: char -> bool, decompose: char -> string, combining: char -> bool,
                             space: char -> bool, lower: char -> char) {
    function Fold(c: char): string { if ignorable(c) then [] else decompose(c) }

    ghost predicate Fixed(c: char) {
      Fold(c) == [c] && !combining(c) && !space(c) && lower(c) == c
    }

    /** Brackets stand for themselves and a blank is white space. */
    ghost predicate Lawful() { Fixed('[') && Fixed(']') && space(' ') }
  }

  // ----- the canonical text and its positions

  /** The characters one source character contributes; a run of white space counts once. */
  function Emitted(f: Folding, chars: string, afterSpace: bool): string {
    if chars == [] then []
    else if f.combining(chars[0]) then Emitted(f, chars[1..], afterSpace)
    else if f.space(chars[0]) then (if afterSpace then [] else [' ']) + Emitted(f, chars[1..], true)
    else [f.lower(chars[0])] + Emitted(f, chars[1..], false)
  }

  function AfterSpace(f: Folding, chars: string, afterSpace: bool): bool {
    if chars == [] then afterSpace
    else if f.combining(chars[0]) then AfterSpace(f, chars[1..], afterSpace)
    else AfterSpace(f, chars[1..], f.space(chars[0]))
  }

  function Canonical(f: Folding, text: string, afterSpace: bool): string {
    if text == [] then []
    else Emitted(f, f.Fold(text[0]), afterSpace) + Canonical(f, text[1..], AfterSpace(f, f.Fold(text[0]), afterSpace))
  }

  function EndsInSpace(f: Folding, text: string, afterSpace: bool): bool {
    if text == [] then afterSpace else EndsInSpace(f, text[1..], AfterSpace(f, f.Fold(text[0]), afterSpace))
  }

  function Repeat(index: nat, n: nat): (r: seq<nat>)
    ensures |r| == n
  {
    seq(n, _ => index)
  }

  /** For each canonical character the index of its source character. */
  function Positions(f: Folding, text: string, afterSpace: bool, base: nat): seq<nat> {
    if text == [] then []
    else
      Repeat(base, |Emitted(f, f.Fold(text[0]), afterSpace)|)
      + Positions(f, text[1..], AfterSpace(f, f.Fold(text[0]), afterSpace), base + 1)
  }

  lemma {:induction false} PositionsLength(f: Folding, text: string, p: bool, base: nat)
    ensures |Positions(f, text, p, base)| == |Canonical(f, text, p)|
  {
    if text != [] {
      PositionsLength(f, text[1..], AfterSpace(f, f.Fold(text[0]), p), base + 1);
    }
  }

  lemma {:induction false} CanonicalConcat(f: Folding, a: string, b: string, p: bool)
    ensures Canonical(f, a + b, p) == Canonical(f, a, p) + Canonical(f, b, EndsInSpace(f, a, p))
    ensures EndsInSpace(f, a + b, p) == EndsInSpace(f, b, EndsInSpace(f, a, p))
  {
    if a == [] {
      assert a + b == b;
    } else {
      assert (a + b)[0] == a[0] && (a + b)[1..] == a[1..] + b;
      var emitted, q := Emitted(f, f.Fold(a[0]), p), AfterSpace(f, f.Fold(a[0]), p);
      CanonicalConcat(f, a[1..], b, q);
      Regroup(emitted, Canonical(f, a[1..], q), Canonical(f, b, EndsInSpace(f, a, p)));
    }
  }

  lemma {:induction false} PositionsConcat(f: Folding, a: string, b: string, p: bool, base: nat)
    ensures Positions(f, a + b, p, base) == Positions(f, a, p, base) + Positions(f, b, EndsInSpace(f, a, p), base + |a|)
  {
    if a == [] {
      assert a + b == b;
    } else {
      assert (a + b)[0] == a[0] && (a + b)[1..] == a[1..] + b;
      var q := AfterSpace(f, f.Fold(a[0]), p);
      PositionsConcat(f, a[1..], b, q, base + 1);
      var first := Repeat(base, |Emitted(f, f.Fold(a[0]), p)|);
      var rest, last := Positions(f, a[1..], q, base + 1), Positions(f, b, EndsInSpace(f, a, p), base + |a|);
      Regroup(first, rest, last);
    }
  }

  lemma {:induction false} PositionsOrdered(f: Folding, text: string, p: bool, base: nat)
    ensures forall k :: 0 <= k < |Positions(f, text, p, base)| ==> base <= Positions(f, text, p, base)[k] < base + |text|
    ensures forall j, k :: 0 <= j < k < |Positions(f, text, p, base)| ==> Positions(f, text, p, base)[j] <= Positions(f, text, p, base)[k]
  {
    if text != [] {
      PositionsOrdered(f, text[1..], AfterSpace(f, f.Fold(text[0]), p), base + 1);
    }
  }

  /** Cutting the source at `i` cuts the canonical text where the positions reach `i`. */
  lemma PositionsCut(f: Folding, text: string, i: nat)
    requires i <= |text|
    ensures |Positions(f, text, false, 0)| == |Canonical(f, text, false)|
    ensures var c := |Canonical(f, text[..i], false)|;
            && c <= |Canonical(f, text, false)|
            && Canonical(f, text, false)[..c] == Canonical(f, text[..i], false)
            && forall k :: 0 <= k < |Canonical(f, text, false)| ==> (Positions(f, text, false, 0)[k] < i <==> k < c)
  {
    assert text == text[..i] + text[i..];
    CanonicalConcat(f, text[..i], text[i..], false);
    PositionsConcat(f, text[..i], text[i..], false, 0);
    PositionsLength(f, text, false, 0);
    PositionsLength(f, text[..i], false, 0);
    PositionsOrdered(f, text[..i], false, 0);
    PositionsOrdered(f, text[i..], EndsInSpace(f, text[..i], false), i);
  }

  /** A slice of the source gives a slice of the canonical text, up to one leading blank. */
  lemma SliceCanonical(f: Folding, text: string, i: nat, j: nat)
    requires i <= j <= |text|
    ensures var a, b := |Canonical(f, text[..i], false)|, |Canonical(f, text[..j], false)|;
            && a <= b <= |Canonical(f, text, false)|
            && var slice := Canonical(f, text, false)[a..b];
               Canonical(f, text[i..j], false) == slice || Canonical(f, text[i..j], false) == " " + slice
  {
    PositionsCut(f, text, j);
    assert text[..j] == text[..i] + text[i..j];
    CanonicalConcat(f, text[..i], text[i..j], false);
    Restart(f, text[i..j]);
  }

  lemma {:induction false} EmittedRestart(f: Folding, chars: string)
    ensures Emitted(f, chars, false) == Emitted(f, chars, true) || Emitted(f, chars, false) == " " + Emitted(f, chars, true)
    ensures || AfterSpace(f, chars, false) == AfterSpace(f, chars, true)
            || (Emitted(f, chars, false) == [] == Emitted(f, chars, true) && !AfterSpace(f, chars, false) && AfterSpace(f, chars, true))
  {
    if chars != [] && f.combining(chars[0]) {
      EmittedRestart(f, chars[1..]);
    }
  }

  lemma {:induction false} Restart(f: Folding, text: string)
    ensures Canonical(f, text, false) == Canonical(f, text, true) || Canonical(f, text, false) == " " + Canonical(f, text, true)
  {
    if text != [] {
      var chars := f.Fold(text[0]);
      EmittedRestart(f, chars);
      if AfterSpace(f, chars, false) != AfterSpace(f, chars, true) {
        Restart(f, text[1..]);
        assert Canonical(f, text, false) == Canonical(f, text[1..], false);
        assert Canonical(f, text, true) == Canonical(f, text[1..], true);
      }
    }
  }

  // ----- searching

  lemma OccursInside(text: string, target: string, at: int, inner: string, shift: int)
    requires OccursAt(text, target, at) && shift <= at && at + |target| <= shift + |inner|
    requires 0 <= shift && shift + |inner| <= |text| && text[shift..shift + |inner|] == inner
    ensures OccursAt(inner, target, at - shift)
  {
    forall k | 0 <= k < |target|
      ensures inner[at - shift + k] == target[k]
    {
      WindowChar(text, target, at, at + k);
      assert text[shift..shift + |inner|][at - shift + k] == text[at + k];
    }
    assert inner[at - shift..at - shift + |target|] == target;
  }

  lemma DropBlank(text: string, target: string)
    requires target != [] && target[0] != ' ' && Occurs(" " + text, target)
    ensures Occurs(text, target)
  {
    var whole := " " + text;
    var at :| OccursAt(whole, target, at);
    WindowChar(whole, target, at, at);
    assert whole[1..1 + |text|] == text;
    OccursInside(whole, target, at, text, 1);
  }

  lemma InSlice(text: string, a: nat, b: nat, target: string)
    requires a <= b <= |text| && Occurs(text[a..b], target)
    ensures exists at :: a <= at && at + |target| <= b && OccursAt(text, target, at)
  {
    var at :| OccursAt(text[a..b], target, at);
    forall k | 0 <= k < |target|
      ensures text[a + at + k] == target[k]
    {
      WindowChar(text[a..b], target, at, at + k);
    }
    assert text[a + at..a + at + |target|] == target;
    assert OccursAt(text, target, a + at);
  }

  // ----- the spans one pass replaces

  /** The source span a match in the canonical text stands for. */
  datatype Hit = Hit(start: nat, end: nat)

  function Hits(canonical: string, positions: seq<nat>, target: string, offset: nat): seq<Hit>
    requires |positions| == |canonical| && target != []
    decreases |canonical| - offset
  {
    match Find(canonical, target, offset)
    case None => []
    case Some(at) =>
      [Hit(positions[at], positions[at + |target| - 1] + 1)] + Hits(canonical, positions, target, at + |target|)
  }

  /** Spans in order. Two of them share at most the one source character that ends the first. */
  ghost predicate Chained(hits: seq<Hit>, from: nat, length: nat) {
    && from <= length
    && (hits != [] ==> from <= hits[0].start + 1 && hits[0].start < hits[0].end <= length && Chained(hits[1..], hits[0].end, length))
  }

  /** The offsets a pass goes through: the start, or just behind a match. */
  ghost predicate Reached(positions: seq<nat>, offset: nat, from: nat) {
    offset <= |positions| && (if offset == 0 then from == 0 else from == positions[offset - 1] + 1)
  }

  ghost predicate Ordered(positions: seq<nat>, length: nat) {
    && (forall k :: 0 <= k < |positions| ==> positions[k] < length)
    && (forall j, k :: 0 <= j <= k < |positions| ==> positions[j] <= positions[k])
  }

  lemma {:induction false} HitsChained(canonical: string, positions: seq<nat>, target: string, offset: nat, from: nat, length: nat)
    requires target != [] && |positions| == |canonical| && Ordered(positions, length)
    requires Reached(positions, offset, from)
    ensures Chained(Hits(canonical, positions, target, offset), from, length)
    decreases |canonical| - offset
  {
    match Find(canonical, target, offset)
    case None =>
    case Some(at) =>
      var last := at + |target| - 1;
      HitsChained(canonical, positions, target, last + 1, positions[last] + 1, length);
      assert positions[at] <= positions[last] < length;
      assert offset > 0 ==> positions[offset - 1] <= positions[at];
  }

  lemma PassIsChained(f: Folding, text: string, target: string)
    requires target != []
    ensures |Positions(f, text, false, 0)| == |Canonical(f, text, false)|
    ensures Chained(Hits(Canonical(f, text, false), Positions(f, text, false, 0), target, 0), 0, |text|)
  {
    PositionsLength(f, text, false, 0);
    PositionsOrdered(f, text, false, 0);
    HitsChained(Canonical(f, text, false), Positions(f, text, false, 0), target, 0, 0, |text|);
  }

  // ----- one pass

  /** The text with every span replaced. When two spans share a character, the second replacement has
      eaten the first bracket of the mask behind it. */
  function Weave(text: string, hits: seq<Hit>, from: nat): string
    requires Chained(hits, from, |text|)
  {
    if hits == [] then text[from..]
    else
      (if from <= hits[0].start then text[from..hits[0].start] + SECURITY_MASK else SECURITY_MASK[1..])
      + Weave(text, hits[1..], hits[0].end)
  }

  function MaskPass(f: Folding, text: string, target: string): string
    requires target != []
  {
    PassIsChained(f, text, target);
    Weave(text, Hits(Canonical(f, text, false), Positions(f, text, false, 0), target, 0), 0)
  }

  lemma MaskCanonical(f: Folding, rest: string, p: bool)
    requires f.Lawful()
    ensures Canonical(f, SECURITY_MASK + rest, p) == ['['] + (Canonical(f, MASK_WORDS, false) + ([']'] + Canonical(f, rest, false)))
    ensures Canonical(f, SECURITY_MASK[1..] + rest, false) == Canonical(f, MASK_WORDS, false) + ([']'] + Canonical(f, rest, false))
  {
    var closing := [']'] + rest;
    MaskShape(rest);
    Bracket(f, '[', MASK_WORDS + closing, p);
    CanonicalConcat(f, MASK_WORDS, closing, false);
    Bracket(f, ']', rest, EndsInSpace(f, MASK_WORDS, false));
  }

  lemma MaskShape(rest: string)
    ensures SECURITY_MASK[1..] + rest == MASK_WORDS + ([']'] + rest)
    ensures SECURITY_MASK + rest == ['['] + (MASK_WORDS + ([']'] + rest))
  {
    assert SECURITY_MASK[1..] == MASK_WORDS + [']'];
    Regroup(MASK_WORDS, [']'], rest);
    Regroup(['['], MASK_WORDS + [']'], rest);
  }

  lemma Bracket(f: Folding, c: char, rest: string, p: bool)
    requires f.Fixed(c)
    ensures Canonical(f, [c] + rest, p) == [c] + Canonical(f, rest, false)
    ensures forall base :: Positions(f, [c] + rest, p, base) == [base] + Positions(f, rest, false, base + 1)
  {
    assert ([c] + rest)[1..] == rest;
    assert Emitted(f, [c], p) == [c] && AfterSpace(f, [c], p) == false;
  }

  // ----- a pass removes its target and brings back no other

  /** The mask in the canonical text. */
  function CanonicalMask(f: Folding): string { ['['] + (Canonical(f, MASK_WORDS, false) + [']']) }

  /** Laid over the mask with its first character at `d`, the target agrees with it wherever the two overlap. */
  ghost predicate Meets(mask: string, target: string, d: int) {
    -|target| < d < |mask| && forall i :: 0 <= i < |target| && 0 <= d + i < |mask| ==> target[i] == mask[d + i]
  }

  /** What the guarantee covers: a trimmed target that lies nowhere over the mask, neither inside it, nor across one of
      its ends, nor around it. */
  ghost predicate Coverable(f: Folding, target: string) {
    target != [] && target[0] != ' ' && forall d :: !Meets(CanonicalMask(f), target, d)
  }

  /** A target without brackets only has to stay out of the mask's words. */
  lemma BracketFreeIsCoverable(f: Folding, target: string)
    requires target != [] && target[0] != ' ' && '[' !in target && ']' !in target && !Occurs(Canonical(f, MASK_WORDS, false), target)
    ensures Coverable(f, target)
  {
    var words, mask := Canonical(f, MASK_WORDS, false), CanonicalMask(f);
    forall d
      ensures !Meets(mask, target, d)
    {
      if -|target| < d <= 0 {
        assert target[-d] in target && mask[d + -d] == '[';
      } else if 0 < d < |mask| <= d + |target| {
        var i := |mask| - 1 - d;
        assert target[i] in target && mask[d + i] == ']';
      } else if 0 < d < |mask| {
        MetInside(words, target, d);
      }
    }
  }

  lemma MetInside(words: string, target: string, d: nat)
    requires 0 < d && d + |target| <= |words| + 1
    ensures Meets(['['] + (words + [']']), target, d) && target != [] ==> OccursAt(words, target, d - 1)
  {
    var mask := ['['] + (words + [']']);
    if Meets(mask, target, d) && target != [] {
      forall i | 0 <= i < |target|
        ensures words[d - 1 + i] == target[i]
      {
        assert target[i] == mask[d + i];
      }
      assert words[d - 1..d - 1 + |target|] == target;
    }
  }

  /** The stretch of source between two matches holds no occurrence of a covered target. */
  lemma GapIsClean(f: Folding, text: string, from: nat, to: nat, low: nat, target: string)
    requires Coverable(f, target) && from <= to <= |text|
    requires |Positions(f, text, false, 0)| == |Canonical(f, text, false)|
    requires Reached(Positions(f, text, false, 0), low, from)
    requires forall at :: low <= at && at + |target| <= |Canonical(f, text[..to], false)| ==> !OccursAt(Canonical(f, text, false), target, at)
    ensures !Occurs(Canonical(f, text[from..to], false), target)
  {
    PositionsCut(f, text, from);
    SliceCanonical(f, text, from, to);
    var a, b := |Canonical(f, text[..from], false)|, |Canonical(f, text[..to], false)|;
    assert low <= a;
    var slice := Canonical(f, text, false)[a..b];
    if Occurs(Canonical(f, text[from..to], false), target) {
      if Canonical(f, text[from..to], false) == " " + slice {
        DropBlank(slice, target);
      }
      InSlice(Canonical(f, text, false), a, b, target);
    }
  }

  lemma OccursInTail(a: string, b: string, target: string, at: int)
    requires OccursAt(a + b, target, at) && at >= |a|
    ensures OccursAt(b, target, at - |a|)
  {
    assert (a + b)[at..at + |target|] == b[at - |a|..at - |a| + |target|];
  }

  lemma OccursInHead(a: string, b: string, target: string, at: int)
    requires OccursAt(a + b, target, at) && at + |target| <= |a|
    ensures OccursAt(a, target, at)
  {
    assert (a + b)[at..at + |target|] == a[at..at + |target|];
  }

  lemma CleanAroundString(gap: string, mask: string, rest: string, target: string)
    requires target != [] && mask != [] && forall d :: !Meets(mask, target, d)
    requires !Occurs(gap, target) && !Occurs(rest, target)
    ensures !Occurs(gap + (mask + rest), target)
  {
    if at :| OccursAt(gap + (mask + rest), target, at) {
      if at + |target| <= |gap| {
        OccursInHead(gap, mask + rest, target, at);
      } else if at >= |gap| + |mask| {
        OccursInTail(gap, mask + rest, target, at);
        OccursInTail(mask, rest, target, at - |gap|);
      } else {
        OverMask(gap, mask, rest, target, at);
      }
    }
  }

  lemma CleanBehindBracket(mask: string, rest: string, target: string)
    requires target != [] && mask != [] && (forall d :: !Meets(mask, target, d)) && !Occurs(rest, target)
    ensures !Occurs(mask[1..] + rest, target)
  {
    if at :| OccursAt(mask[1..] + rest, target, at) {
      var whole := [] + (mask + rest);
      assert whole[at + 1..at + 1 + |target|] == (mask[1..] + rest)[at..at + |target|];
      if at >= |mask| - 1 {
        OccursInTail(mask[1..], rest, target, at);
      } else {
        OverMask([], mask, rest, target, at + 1);
      }
    }
  }

  lemma OverMask(gap: string, mask: string, rest: string, target: string, at: int)
    requires OccursAt(gap + (mask + rest), target, at) && |gap| - |target| < at < |gap| + |mask|
    ensures Meets(mask, target, at - |gap|)
  {
    forall i | 0 <= i < |target| && 0 <= at - |gap| + i < |mask|
      ensures target[i] == mask[at - |gap| + i]
    {
      WindowChar(gap + (mask + rest), target, at, at + i);
    }
  }

  lemma CleanAroundMask(f: Folding, gap: string, rest: string, target: string)
    requires f.Lawful() && Coverable(f, target)
    requires !Occurs(Canonical(f, gap, false), target) && !Occurs(Canonical(f, rest, false), target)
    ensures !Occurs(Canonical(f, gap + SECURITY_MASK + rest, false), target)
    ensures !Occurs(Canonical(f, SECURITY_MASK[1..] + rest, false), target)
  {
    CanonicalAroundMask(f, gap, rest);
    CleanAroundString(Canonical(f, gap, false), CanonicalMask(f), Canonical(f, rest, false), target);
    CleanBehindBracket(CanonicalMask(f), Canonical(f, rest, false), target);
  }

  lemma CanonicalAroundMask(f: Folding, gap: string, rest: string)
    requires f.Lawful()
    ensures Canonical(f, gap + SECURITY_MASK + rest, false) == Canonical(f, gap, false) + (CanonicalMask(f) + Canonical(f, rest, false))
    ensures Canonical(f, SECURITY_MASK[1..] + rest, false) == CanonicalMask(f)[1..] + Canonical(f, rest, false)
  {
    var words, after := Canonical(f, MASK_WORDS, false), Canonical(f, rest, false);
    MaskCanonical(f, rest, EndsInSpace(f, gap, false));
    Regroup(gap, SECURITY_MASK, rest);
    CanonicalConcat(f, gap, SECURITY_MASK + rest, false);
    Regroup(words, [']'], after);
    Regroup(['['], words + [']'], after);
    assert CanonicalMask(f)[1..] == words + [']'];
  }

  lemma {:induction false} WeaveIsClean(f: Folding, text: string, target: string, offset: nat, from: nat, other: string,
                                        canonical: string, positions: seq<nat>, hits: seq<Hit>)
    requires f.Lawful() && target != [] && Coverable(f, other)
    requires canonical == Canonical(f, text, false) && positions == Positions(f, text, false, 0) && |positions| == |canonical|
    requires other == target || !Occurs(canonical, other)
    requires Reached(positions, offset, from)
    requires hits == Hits(canonical, positions, target, offset) && Chained(hits, from, |text|)
    ensures !Occurs(Canonical(f, Weave(text, hits, from), false), other)
    decreases |canonical| - offset
  {
    match Find(canonical, target, offset)
    case None =>
      assert text[..|text|] == text && text[from..|text|] == text[from..];
      GapIsClean(f, text, from, |text|, offset, other);
    case Some(at) =>
      WeaveIsClean(f, text, target, at + |target|, hits[0].end, other, canonical, positions, hits[1..]);
      if from <= hits[0].start {
        GapBeforeMatch(f, text, target, offset, from, at, other);
      }
      WeaveStep(f, text, hits, from, other);
  }

  lemma GapBeforeMatch(f: Folding, text: string, target: string, offset: nat, from: nat, at: nat, other: string)
    requires Coverable(f, other) && target != []
    requires other == target || !Occurs(Canonical(f, text, false), other)
    requires |Positions(f, text, false, 0)| == |Canonical(f, text, false)|
    requires Reached(Positions(f, text, false, 0), offset, from)
    requires Find(Canonical(f, text, false), target, offset) == Some(at)
    requires from <= Positions(f, text, false, 0)[at] <= |text|
    ensures !Occurs(Canonical(f, text[from..Positions(f, text, false, 0)[at]], false), other)
  {
    var start := Positions(f, text, false, 0)[at];
    PositionsCut(f, text, start);
    assert |Canonical(f, text[..start], false)| <= at;
    GapIsClean(f, text, from, start, offset, other);
  }

  lemma WeaveStep(f: Folding, text: string, hits: seq<Hit>, from: nat, other: string)
    requires f.Lawful() && Coverable(f, other)
    requires hits != [] && Chained(hits, from, |text|)
    requires from <= hits[0].start ==> !Occurs(Canonical(f, text[from..hits[0].start], false), other)
    requires !Occurs(Canonical(f, Weave(text, hits[1..], hits[0].end), false), other)
    ensures !Occurs(Canonical(f, Weave(text, hits, from), false), other)
  {
    var rest := Weave(text, hits[1..], hits[0].end);
    if from <= hits[0].start {
      CleanAroundMask(f, text[from..hits[0].start], rest, other);
    } else {
      assert Canonical(f, [], false) == [];
      CleanAroundMask(f, [], rest, other);
    }
  }

  lemma PassIsClean(f: Folding, text: string, target: string, other: string)
    requires f.Lawful() && target != [] && Coverable(f, other)
    requires other == target || !Occurs(Canonical(f, text, false), other)
    ensures !Occurs(Canonical(f, MaskPass(f, text, target), false), other)
  {
    PassIsChained(f, text, target);
    var canonical, positions := Canonical(f, text, false), Positions(f, text, false, 0);
    WeaveIsClean(f, text, target, 0, 0, other, canonical, positions, Hits(canonical, positions, target, 0));
  }

  /** A match survives its own pass exactly when the mask's own words contain it. */
  lemma MaskWordsComeBack(f: Folding, text: string, target: string)
    requires f.Lawful() && target != [] && target[0] != ' ' && '[' !in target && ']' !in target
    ensures Occurs(Canonical(f, MaskPass(f, text, target), false), target)
            <==> Occurs(Canonical(f, MASK_WORDS, false), target) && Occurs(Canonical(f, text, false), target)
  {
    PassIsChained(f, text, target);
    if !Occurs(Canonical(f, MASK_WORDS, false), target) {
      BracketFreeIsCoverable(f, target);
      PassIsClean(f, text, target, target);
    } else if Occurs(Canonical(f, text, false), target) {
      var at :| OccursAt(Canonical(f, text, false), target, at);
      var first := Find(Canonical(f, text, false), target, 0).value;
      var hits := Hits(Canonical(f, text, false), Positions(f, text, false, 0), target, 0);
      var gap, rest := text[0..hits[0].start], Weave(text, hits[1..], hits[0].end);
      CanonicalOfWeave(f, gap, rest);
      ShiftedOccurs(Canonical(f, gap, false) + ['['], Canonical(f, MASK_WORDS, false), [']'] + Canonical(f, rest, false), target);
    }
  }

  lemma CanonicalOfWeave(f: Folding, gap: string, rest: string)
    requires f.Lawful()
    ensures Canonical(f, gap + SECURITY_MASK + rest, false)
            == (Canonical(f, gap, false) + ['[']) + (Canonical(f, MASK_WORDS, false) + ([']'] + Canonical(f, rest, false)))
  {
    MaskCanonical(f, rest, EndsInSpace(f, gap, false));
    Regroup(gap, SECURITY_MASK, rest);
    CanonicalConcat(f, gap, SECURITY_MASK + rest, false);
    Regroup(Canonical(f, gap, false), ['['], Canonical(f, MASK_WORDS, false) + ([']'] + Canonical(f, rest, false)));
  }

  lemma ShiftedOccurs(a: string, b: string, c: string, target: string)
    requires Occurs(b, target)
    ensures Occurs(a + (b + c), target)
  {
    var at :| OccursAt(b, target, at);
    assert (a + (b + c))[|a| + at..|a| + at + |target|] == b[at..at + |target|];
    assert OccursAt(a + (b + c), target, |a| + at);
  }

  // ----- exactly what a pass can bring back

  /** Characters that stand for themselves, with single blanks between them. */
  ghost predicate Plain(f: Folding, s: string) { forall i :: 0 <= i < |s| ==> PlainAt(f, s, i) }

  ghost predicate PlainAt(f: Folding, s: string, i: nat)
    requires i < |s|
  {
    f.Fixed(s[i]) || (s[i] == ' ' && f.Fold(' ') == " " && !f.combining(' ') && (i > 0 ==> s[i - 1] != ' '))
  }

  lemma {:induction false} PlainIsCanonical(f: Folding, s: string, p: bool, base: nat)
    requires f.Lawful() && Plain(f, s) && (p && s != [] ==> s[0] != ' ')
    ensures Canonical(f, s, p) == s
    ensures Positions(f, s, p, base) == seq(|s|, i => base + i)
  {
    if s != [] {
      var rest, q := s[1..], s[0] == ' ';
      assert PlainAt(f, s, 0);
      PlainCharIsEmitted(f, s[0], p);
      forall i | 0 <= i < |rest|
        ensures PlainAt(f, rest, i)
      {
        assert PlainAt(f, s, i + 1);
      }
      if rest != [] {
        assert PlainAt(f, s, 1);
      }
      PlainIsCanonical(f, rest, q, base + 1);
      assert s == [s[0]] + rest;
      assert Repeat(base, 1) == [base];
      assert [base] + seq(|rest|, i => base + 1 + i) == seq(|s|, i => base + i);
    }
  }

  lemma PlainCharIsEmitted(f: Folding, c: char, p: bool)
    requires f.Lawful() && (f.Fixed(c) || (c == ' ' && f.Fold(' ') == " " && !f.combining(' ') && !p))
    ensures Emitted(f, f.Fold(c), p) == [c] && AfterSpace(f, f.Fold(c), p) == (c == ' ')
  {
    var one := f.Fold(c);
    assert one == [c] && one[1..] == [];
  }

  /** The part of the target in front of the mask and the part behind it. */
  function Before(target: string, d: int): string
    requires -|target| < d
  {
    if d < 0 then target[..-d] else []
  }

  function Behind(target: string, mask: string, d: int): string
    requires -|target| < d < |mask|
  {
    if d + |target| > |mask| then target[|mask| - d..] else []
  }

  lemma MetTargetOccurs(mask: string, target: string, d: int)
    requires target != [] && Meets(mask, target, d)
    ensures Occurs(Before(target, d) + (mask + Behind(target, mask, d)), target)
  {
    var before, behind := Before(target, d), Behind(target, mask, d);
    var whole := before + (mask + behind);
    var at := if d < 0 then 0 else d;
    assert |before| + d == at;
    forall i | 0 <= i < |target|
      ensures whole[at + i] == target[i]
    {
      if 0 <= d + i < |mask| {
        assert whole[|before| + d + i] == mask[d + i];
      }
    }
    assert whole[at..at + |target|] == target;
    assert OccursAt(whole, target, at);
  }

  /** Masking another quote, here the character `y`, between two parts of a target. */
  lemma MaskBetween(f: Folding, before: string, y: char, behind: string)
    requires f.Lawful() && Plain(f, before) && Plain(f, behind) && f.Fixed(y) && y !in before && y !in behind
    ensures Canonical(f, before + ([y] + behind), false) == before + ([y] + behind)
    ensures Canonical(f, MaskPass(f, before + ([y] + behind), [y]), false) == before + (CanonicalMask(f) + behind)
  {
    PlainAround(f, before, y, behind);
    PlainIsCanonical(f, before + ([y] + behind), false, 0);
    assert seq(|before + ([y] + behind)|, i => 0 + i) == seq(|before + ([y] + behind)|, i => i);
    OneHit(before, y, behind);
    PlainIsCanonical(f, before, false, 0);
    PlainIsCanonical(f, behind, false, 0);
    CanonicalAroundMask(f, before, behind);
  }

  lemma PlainAround(f: Folding, before: string, y: char, behind: string)
    requires f.Lawful() && Plain(f, before) && Plain(f, behind) && f.Fixed(y)
    ensures Plain(f, before + ([y] + behind))
  {
    var text := before + ([y] + behind);
    forall i | 0 <= i < |text|
      ensures PlainAt(f, text, i)
    {
      if i < |before| {
        assert PlainAt(f, before, i);
      } else if i > |before| {
        assert PlainAt(f, behind, i - |before| - 1);
      }
    }
  }

  lemma OneHit(before: string, y: char, behind: string)
    requires y !in before && y !in behind
    ensures var text, start := before + ([y] + behind), |before|;
            var positions: seq<nat> := seq(|text|, i => i);
            && Hits(text, positions, [y], 0) == [Hit(start, start + 1)] && Chained([Hit(start, start + 1)], 0, |text|)
            && Weave(text, [Hit(start, start + 1)], 0) == before + SECURITY_MASK + behind
  {
    var text, start := before + ([y] + behind), |before|;
    var positions: seq<nat> := seq(|text|, i => i);
    assert text[start..start + 1] == [y] && OccursAt(text, [y], start);
    forall at | at != start
      ensures !OccursAt(text, [y], at)
    {
      if OccursAt(text, [y], at) {
        WindowChar(text, [y], at, at);
        assert false;
      }
    }
    assert Find(text, [y], 0) == Some(start);
    assert Find(text, [y], start + 1) == None;
    assert Hits(text, positions, [y], start + 1) == [];
    assert text[0..start] == before && text[start + 1..] == behind;
  }

  /** A pass with any quote brings the target into a text that did not hold it. */
  ghost predicate ComesBack(f: Folding, target: string) {
    exists text, quote :: quote != [] && (quote == target || !Occurs(Canonical(f, text, false), target))
                          && Occurs(Canonical(f, MaskPass(f, text, quote), false), target)
  }

  /** A trimmed target of plain characters never comes back, whatever the text and whatever is masked, exactly when it
      lies nowhere over the mask. */
  lemma ComesBackExactly(f: Folding, target: string, y: char)
    requires f.Lawful() && target != [] && target[0] != ' ' && Plain(f, target) && f.Fixed(y) && y !in target
    ensures !ComesBack(f, target) <==> Coverable(f, target)
  {
    if Coverable(f, target) {
      forall text, quote | quote != [] && (quote == target || !Occurs(Canonical(f, text, false), target))
        ensures !Occurs(Canonical(f, MaskPass(f, text, quote), false), target)
      {
        PassIsClean(f, text, quote, target);
      }
    } else {
      var mask := CanonicalMask(f);
      var d :| Meets(mask, target, d);
      ReturnsBetween(f, target, y, d);
    }
  }

  lemma ReturnsBetween(f: Folding, target: string, y: char, d: int)
    requires f.Lawful() && target != [] && Plain(f, target) && f.Fixed(y) && y !in target && Meets(CanonicalMask(f), target, d)
    ensures ComesBack(f, target)
  {
    var mask := CanonicalMask(f);
    var before, behind := Before(target, d), Behind(target, mask, d);
    var text := before + ([y] + behind);
    PartsArePlain(f, target, mask, d);
    MaskBetween(f, before, y, behind);
    MetTargetOccurs(mask, target, d);
    NotAcross(before, y, behind, target);
    assert [y] != [] && !Occurs(Canonical(f, text, false), target);
    assert Occurs(Canonical(f, MaskPass(f, text, [y]), false), target);
  }

  lemma PartsArePlain(f: Folding, target: string, mask: string, d: int)
    requires target != [] && Plain(f, target) && Meets(mask, target, d)
    ensures Plain(f, Before(target, d)) && Plain(f, Behind(target, mask, d))
    ensures |Before(target, d)| < |target| && |Behind(target, mask, d)| < |target|
    ensures forall c :: c in Before(target, d) || c in Behind(target, mask, d) ==> c in target
  {
    var before, behind := Before(target, d), Behind(target, mask, d);
    forall i | 0 <= i < |before|
      ensures PlainAt(f, before, i)
    {
      assert PlainAt(f, target, i);
    }
    forall i | 0 <= i < |behind|
      ensures PlainAt(f, behind, i)
    {
      assert PlainAt(f, target, |mask| - d + i);
    }
  }

  lemma NotAcross(before: string, y: char, behind: string, target: string)
    requires target != [] && y !in target && |before| < |target| && |behind| < |target|
    ensures !Occurs(before + ([y] + behind), target)
  {
    var text := before + ([y] + behind);
    if at :| OccursAt(text, target, at) {
      if at <= |before| < at + |target| {
        WindowChar(text, target, at, |before|);
      }
      assert false;
    }
  }

  /** `]x` lies across the end of the mask, and removed from `]xx` it comes back at once. */
  lemma BracketComesBack(f: Folding)
    requires f.Lawful() && f.Fixed('x')
    ensures MaskPass(f, "]xx", "]x") == SECURITY_MASK + "x"
    ensures Occurs(Canonical(f, MaskPass(f, "]xx", "]x"), false), "]x")
    ensures !Coverable(f, "]x")
  {
    var target := "]x";
    BracketMeets(f);
    BracketText(f);
    BracketHit();
    MaskCanonical(f, "x", false);
    var words := ['['] + Canonical(f, MASK_WORDS, false);
    Regroup(['['], Canonical(f, MASK_WORDS, false), [']'] + "x");
    assert OccursAt(words + ([']'] + "x"), target, |words|);
  }

  lemma BracketMeets(f: Folding)
    ensures !Coverable(f, "]x")
  {
    var mask := CanonicalMask(f);
    assert mask[|mask| - 1] == ']' && Meets(mask, "]x", |mask| - 1);
  }

  lemma BracketText(f: Folding)
    requires f.Lawful() && f.Fixed('x')
    ensures Canonical(f, "x", false) == "x"
    ensures Canonical(f, "]xx", false) == "]xx" && Positions(f, "]xx", false, 0) == [0, 1, 2]
  {
    assert "x" == ['x'] + [];
    Bracket(f, 'x', [], false);
    assert "xx" == ['x'] + "x";
    Bracket(f, 'x', "x", false);
    assert "]xx" == [']'] + "xx";
    Bracket(f, ']', "xx", false);
  }

  lemma BracketHit()
    ensures Hits("]xx", [0, 1, 2], "]x", 0) == [Hit(0, 2)]
    ensures Weave("]xx", [Hit(0, 2)], 0) == SECURITY_MASK + "x"
  {
    var text, target := "]xx", "]x";
    assert text[0..2] == target;
    assert Find(text, target, 0) == Some(0);
    assert Hits(text, [0, 1, 2], target, 0) == [Hit(0, 2)];
    assert text[2..] == "x" && text[0..0] == [];
  }

  // ----- what a pass leaves alone

  /** The source text outside the spans, in order. */
  function Outside(text: string, hits: seq<Hit>, from: nat): string
    requires Chained(hits, from, |text|)
  {
    if hits == [] then text[from..]
    else (if from <= hits[0].start then text[from..hits[0].start] else []) + Outside(text, hits[1..], hits[0].end)
  }

  /** What a masked text is made of: source text and masks, where a mask behind a shared character has lost its
      first bracket. */
  datatype Piece = Kept(source: string) | Mask(whole: bool) {
    function Shown(): string { if Kept? then source else if whole then SECURITY_MASK else SECURITY_MASK[1..] }

    function Source(): string { if Kept? then source else [] }
  }

  function Shown(pieces: seq<Piece>): string { if pieces == [] then [] else pieces[0].Shown() + Shown(pieces[1..]) }

  function Source(pieces: seq<Piece>): string { if pieces == [] then [] else pieces[0].Source() + Source(pieces[1..]) }

  function Masks(pieces: seq<Piece>): nat { if pieces == [] then 0 else (if pieces[0].Mask? then 1 else 0) + Masks(pieces[1..]) }

  lemma PieceInFront(p: Piece, pieces: seq<Piece>)
    ensures Shown([p] + pieces) == p.Shown() + Shown(pieces) && Source([p] + pieces) == p.Source() + Source(pieces)
    ensures Masks([p] + pieces) == (if p.Mask? then 1 else 0) + Masks(pieces)
  {
    assert ([p] + pieces)[1..] == pieces;
  }

  /** A masked text is the source outside the spans, in order and unchanged, with one mask for every span. */
  lemma {:induction false} OutsideSurvives(text: string, hits: seq<Hit>, from: nat) returns (pieces: seq<Piece>)
    requires Chained(hits, from, |text|)
    ensures Shown(pieces) == Weave(text, hits, from) && Source(pieces) == Outside(text, hits, from) && Masks(pieces) == |hits|
    decreases |hits|
  {
    if hits == [] {
      pieces := [Kept(text[from..])];
      PieceInFront(pieces[0], []);
    } else {
      var rest := OutsideSurvives(text, hits[1..], hits[0].end);
      pieces := OneMoreSpan(text, hits, from, rest);
    }
  }

  lemma OneMoreSpan(text: string, hits: seq<Hit>, from: nat, rest: seq<Piece>) returns (pieces: seq<Piece>)
    requires hits != [] && Chained(hits, from, |text|) && Masks(rest) == |hits| - 1
    requires Shown(rest) == Weave(text, hits[1..], hits[0].end) && Source(rest) == Outside(text, hits[1..], hits[0].end)
    ensures Shown(pieces) == Weave(text, hits, from) && Source(pieces) == Outside(text, hits, from) && Masks(pieces) == |hits|
  {
    if from <= hits[0].start {
      pieces := GapAndMask(text[from..hits[0].start], rest);
    } else {
      pieces := [Mask(false)] + rest;
      PieceInFront(Mask(false), rest);
    }
  }

  lemma GapAndMask(gap: string, rest: seq<Piece>) returns (pieces: seq<Piece>)
    ensures Shown(pieces) == (gap + SECURITY_MASK) + Shown(rest) && Source(pieces) == gap + Source(rest) && Masks(pieces) == Masks(rest) + 1
  {
    var behind := [Mask(true)] + rest;
    PieceInFront(Mask(true), rest);
    PieceInFront(Kept(gap), behind);
    pieces := [Kept(gap)] + behind;
    Regroup(gap, SECURITY_MASK, Shown(rest));
    assert [] + Source(rest) == Source(rest);
  }

  // ----- where the characters of a masked text come from

  function Stretch(from: nat, to: nat): (r: seq<Option<nat>>)
    requires from <= to
    ensures |r| == to - from
  {
    seq(to - from, i requires 0 <= i < to - from => Some(from + i))
  }

  function Nowhere(n: nat): (r: seq<Option<nat>>)
    ensures |r| == n
  {
    seq(n, _ => None)
  }

  /** For each character of the woven text its place in the text before, and none for a character of a mask. */
  function Places(hits: seq<Hit>, from: nat, length: nat): seq<Option<nat>>
    requires Chained(hits, from, length)
  {
    if hits == [] then Stretch(from, length)
    else
      (if from <= hits[0].start then Stretch(from, hits[0].start) + Nowhere(|SECURITY_MASK|) else Nowhere(|SECURITY_MASK| - 1))
      + Places(hits[1..], hits[0].end, length)
  }

  /** Every character is the source's at its place or one of a mask. */
  ghost predicate Placed(text: string, shown: string, places: seq<Option<nat>>) {
    && |places| == |shown|
    && forall k :: 0 <= k < |places| ==> PlacedAt(text, shown[k], places[k])
  }

  ghost predicate PlacedAt(text: string, c: char, place: Option<nat>) {
    if place.Some? then place.value < |text| && c == text[place.value] else c in SECURITY_MASK
  }

  /** Places in order, all of them from `from` on. */
  ghost predicate Rising(places: seq<Option<nat>>, from: nat) {
    && (forall k :: 0 <= k < |places| && places[k].Some? ==> from <= places[k].value)
    && (forall j, k :: 0 <= j < k < |places| && places[j].Some? && places[k].Some? ==> places[j].value < places[k].value)
  }

  lemma PlacedInTwo(text: string, a: string, p: seq<Option<nat>>, b: string, q: seq<Option<nat>>)
    requires Placed(text, a, p) && Placed(text, b, q)
    ensures Placed(text, a + b, p + q)
  {
  }

  lemma {:induction false} PlacesShown(text: string, hits: seq<Hit>, from: nat)
    requires Chained(hits, from, |text|)
    ensures Placed(text, Weave(text, hits, from), Places(hits, from, |text|))
    decreases |hits|
  {
    if hits != [] {
      PlacesShown(text, hits[1..], hits[0].end);
      var head, places := if from <= hits[0].start then text[from..hits[0].start] else [], if from <= hits[0].start then Stretch(from, hits[0].start) else [];
      var mask, none := if from <= hits[0].start then SECURITY_MASK else SECURITY_MASK[1..], if from <= hits[0].start then Nowhere(|SECURITY_MASK|) else Nowhere(|SECURITY_MASK| - 1);
      PlacedInTwo(text, head, places, mask, none);
      assert from > hits[0].start ==> head + mask == mask && places + none == none;
      PlacedInTwo(text, head + mask, places + none, Weave(text, hits[1..], hits[0].end), Places(hits[1..], hits[0].end, |text|));
    }
  }

  lemma {:induction false} PlacesRise(hits: seq<Hit>, from: nat, length: nat)
    requires Chained(hits, from, length)
    ensures Rising(Places(hits, from, length), from)
    decreases |hits|
  {
    if hits != [] {
      PlacesRise(hits[1..], hits[0].end, length);
      var head := if from <= hits[0].start then Stretch(from, hits[0].start) + Nowhere(|SECURITY_MASK|) else Nowhere(|SECURITY_MASK| - 1);
      RisingInTwo(head, Places(hits[1..], hits[0].end, length), from, hits[0].end);
    }
  }

  lemma RisingInTwo(a: seq<Option<nat>>, b: seq<Option<nat>>, from: nat, to: nat)
    requires Rising(a, from) && Rising(b, to) && from <= to + 1
    requires forall k :: 0 <= k < |a| && a[k].Some? ==> a[k].value < to
    requires from <= to || forall k :: 0 <= k < |a| ==> a[k].None?
    requires from <= to || forall k :: 0 <= k < |b| && b[k].Some? ==> from <= b[k].value
    ensures Rising(a + b, from)
  {
  }

  ghost predicate InSpan(hits: seq<Hit>, p: nat) { exists h :: 0 <= h < |hits| && hits[h].start <= p < hits[h].end }

  /** Only what lies in a span is left out. */
  lemma {:induction false} PlacesComplete(hits: seq<Hit>, from: nat, length: nat, p: nat)
    requires Chained(hits, from, length) && from <= p < length
    ensures Some(p) in Places(hits, from, length) || InSpan(hits, p)
    decreases |hits|
  {
    if hits == [] {
      assert Places(hits, from, length)[p - from] == Some(p);
    } else if p < hits[0].start {
      assert Places(hits, from, length)[p - from] == Some(p);
    } else if p < hits[0].end {
      assert InSpan(hits, p);
    } else {
      PlacesComplete(hits[1..], hits[0].end, length, p);
      if InSpan(hits[1..], p) {
        var h :| 0 <= h < |hits[1..]| && hits[1..][h].start <= p < hits[1..][h].end;
        assert hits[h + 1] == hits[1..][h];
      }
    }
  }

  /** A match of the target in the canonical text covers this source character. */
  ghost predicate InMatch(f: Folding, text: string, target: string, p: nat) {
    var canonical, positions := Canonical(f, text, false), Positions(f, text, false, 0);
    target != [] && |positions| == |canonical|
    && exists at :: OccursAt(canonical, target, at) && positions[at] <= p <= positions[at + |target| - 1]
  }

  lemma {:induction false} SpanIsMatch(canonical: string, positions: seq<nat>, target: string, offset: nat, p: nat)
    requires target != [] && |positions| == |canonical| && InSpan(Hits(canonical, positions, target, offset), p)
    ensures exists at :: OccursAt(canonical, target, at) && positions[at] <= p <= positions[at + |target| - 1]
    decreases |canonical| - offset
  {
    var hits := Hits(canonical, positions, target, offset);
    var h :| 0 <= h < |hits| && hits[h].start <= p < hits[h].end;
    var at := Find(canonical, target, offset).value;
    if h > 0 {
      assert hits[1..][h - 1] == hits[h];
      SpanIsMatch(canonical, positions, target, at + |target|, p);
    }
  }

  // ----- pass behind pass

  function Trimmed(f: Folding, s: string): (r: string)
    ensures r != [] ==> !f.space(r[0])
  {
    if s == [] then []
    else if f.space(s[0]) then Trimmed(f, s[1..])
    else if f.space(s[|s| - 1]) then Trimmed(f, s[..|s| - 1])
    else s
  }

  /** Nothing but white space at the two ends goes, and all of that. */
  lemma {:induction false} TrimmedAtEnds(f: Folding, s: string) returns (a: nat, b: nat)
    ensures a <= b <= |s| && Trimmed(f, s) == s[a..b]
    ensures forall k :: 0 <= k < a || b <= k < |s| ==> f.space(s[k])
    ensures a < b ==> !f.space(s[a]) && !f.space(s[b - 1])
    decreases |s|
  {
    if s == [] {
      a, b := 0, 0;
    } else if f.space(s[0]) {
      a, b := TrimmedAtEnds(f, s[1..]);
      a, b := a + 1, b + 1;
      assert s[1..][a - 1..b - 1] == s[a..b];
    } else if f.space(s[|s| - 1]) {
      a, b := TrimmedAtEnds(f, s[..|s| - 1]);
      assert s[..|s| - 1][a..b] == s[a..b];
    } else {
      a, b := 0, |s|;
    }
  }

  function Target(f: Folding, quote: string): string { Trimmed(f, Canonical(f, quote, false)) }

  /** One quote's pass; a quote without a target leaves the text alone. */
  function QuotePass(f: Folding, text: string, quote: string): string {
    if Target(f, quote) == [] then text else MaskPass(f, text, Target(f, quote))
  }

  function Passes(f: Folding, text: string, order: seq<string>): string {
    if order == [] then text else QuotePass(f, Passes(f, text, order[..|order| - 1]), order[|order| - 1])
  }

  ghost function QuotePlaces(f: Folding, text: string, quote: string): (r: seq<Option<nat>>)
    ensures Placed(text, QuotePass(f, text, quote), r) && Rising(r, 0)
    ensures forall p: nat :: p < |text| ==> Some(p) in r || InMatch(f, text, Target(f, quote), p)
  {
    var target := Target(f, quote);
    if target == [] then
      assert forall p: nat :: p < |text| ==> Stretch(0, |text|)[p] == Some(p);
      Stretch(0, |text|)
    else
      PassPlaces(f, text, target);
      Places(Hits(Canonical(f, text, false), Positions(f, text, false, 0), target, 0), 0, |text|)
  }

  lemma PassPlaces(f: Folding, text: string, target: string)
    requires target != []
    ensures |Positions(f, text, false, 0)| == |Canonical(f, text, false)|
    ensures var hits := Hits(Canonical(f, text, false), Positions(f, text, false, 0), target, 0);
            && Chained(hits, 0, |text|) && Placed(text, MaskPass(f, text, target), Places(hits, 0, |text|)) && Rising(Places(hits, 0, |text|), 0)
            && forall p: nat :: p < |text| ==> Some(p) in Places(hits, 0, |text|) || InMatch(f, text, target, p)
  {
    PassIsChained(f, text, target);
    var canonical, positions := Canonical(f, text, false), Positions(f, text, false, 0);
    var hits := Hits(canonical, positions, target, 0);
    PlacesShown(text, hits, 0);
    PlacesRise(hits, 0, |text|);
    forall p: nat | p < |text|
      ensures Some(p) in Places(hits, 0, |text|) || InMatch(f, text, target, p)
    {
      PlacesComplete(hits, 0, |text|, p);
      if InSpan(hits, p) {
        SpanIsMatch(canonical, positions, target, 0, p);
      }
    }
  }

  /** The places behind two passes, in the text before both. */
  ghost function Through(first: seq<Option<nat>>, second: seq<Option<nat>>): (r: seq<Option<nat>>)
    requires forall k :: 0 <= k < |second| && second[k].Some? ==> second[k].value < |first|
    ensures |r| == |second|
  {
    seq(|second|, k requires 0 <= k < |second| => if second[k].Some? then first[second[k].value] else None)
  }

  lemma ThroughPlaced(text: string, middle: string, shown: string, first: seq<Option<nat>>, second: seq<Option<nat>>)
    requires Placed(text, middle, first) && Rising(first, 0) && Placed(middle, shown, second) && Rising(second, 0)
    requires forall k :: 0 <= k < |second| && second[k].Some? ==> second[k].value < |first|
    ensures Placed(text, shown, Through(first, second)) && Rising(Through(first, second), 0)
  {
    forall k | 0 <= k < |second|
      ensures PlacedAt(text, shown[k], Through(first, second)[k])
    {
      assert PlacedAt(middle, shown[k], second[k]);
      if second[k].Some? {
        assert PlacedAt(text, middle[second[k].value], first[second[k].value]);
      }
    }
  }

  /** For each character of the text behind these passes its place in the source. */
  ghost function Origins(f: Folding, text: string, order: seq<string>): (r: seq<Option<nat>>)
    ensures Placed(text, Passes(f, text, order), r) && Rising(r, 0)
  {
    if order == [] then Stretch(0, |text|)
    else
      var earlier := order[..|order| - 1];
      var first, second := Origins(f, text, earlier), QuotePlaces(f, Passes(f, text, earlier), order[|order| - 1]);
      assert forall k :: 0 <= k < |second| && second[k].Some? ==> PlacedAt(Passes(f, text, earlier), Passes(f, text, order)[k], second[k]);
      ThroughPlaced(text, Passes(f, text, earlier), Passes(f, text, order), first, second);
      Through(first, second)
  }

  /** Where the source character was in the text that the `n`-th pass found, a match of that pass covers it. */
  ghost predicate LostTo(f: Folding, text: string, order: seq<string>, n: nat, i: nat) {
    n < |order| && exists p: nat :: p < |Origins(f, text, order[..n])| && Origins(f, text, order[..n])[p] == Some(i)
                                    && InMatch(f, Passes(f, text, order[..n]), Target(f, order[n]), p)
  }

  /** A source character goes only with a match of some quote's target in the text its pass found. */
  lemma {:induction false} LostInAMatch(f: Folding, text: string, order: seq<string>, i: nat)
    requires i < |text| && Some(i) !in Origins(f, text, order)
    ensures exists n: nat :: LostTo(f, text, order, n, i)
    decreases |order|
  {
    if order == [] {
      StretchHolds(|text|, i);
    } else {
      var last, earlier := |order| - 1, order[..|order| - 1];
      if Some(i) in Origins(f, text, earlier) {
        LostToLast(f, text, order, i);
      } else {
        LostInAMatch(f, text, earlier, i);
        var n: nat :| LostTo(f, text, earlier, n, i);
        LostBefore(f, text, earlier, order, n, i);
      }
    }
  }

  lemma StretchHolds(n: nat, i: nat)
    requires i < n
    ensures Some(i) in Stretch(0, n)
  {
    assert Stretch(0, n)[i] == Some(i);
  }

  lemma LostBefore(f: Folding, text: string, earlier: seq<string>, order: seq<string>, n: nat, i: nat)
    requires earlier <= order && LostTo(f, text, earlier, n, i)
    ensures LostTo(f, text, order, n, i)
  {
    assert earlier[..n] == order[..n];
  }

  lemma LostToLast(f: Folding, text: string, order: seq<string>, i: nat)
    requires order != [] && i < |text| && Some(i) !in Origins(f, text, order) && Some(i) in Origins(f, text, order[..|order| - 1])
    ensures LostTo(f, text, order, |order| - 1, i)
  {
    var last, earlier := |order| - 1, order[..|order| - 1];
    var first, second := Origins(f, text, earlier), QuotePlaces(f, Passes(f, text, earlier), order[last]);
    var p: nat :| p < |first| && first[p] == Some(i);
    if Some(p) in second {
      KeptThrough(f, text, order, p);
    }
  }

  lemma KeptThrough(f: Folding, text: string, order: seq<string>, p: nat)
    requires order != []
    requires var earlier := order[..|order| - 1];
             p < |Origins(f, text, earlier)| && Some(p) in QuotePlaces(f, Passes(f, text, earlier), order[|order| - 1])
    ensures Origins(f, text, order[..|order| - 1])[p] in Origins(f, text, order)
  {
    var earlier := order[..|order| - 1];
    var second := QuotePlaces(f, Passes(f, text, earlier), order[|order| - 1]);
    var k :| 0 <= k < |second| && second[k] == Some(p);
    assert Origins(f, text, order)[k] == Origins(f, text, earlier)[p];
  }

  /** A text in which no quote's target occurs comes back as it was. */
  lemma {:induction false} NothingToMask(f: Folding, text: string, order: seq<string>)
    requires forall k :: 0 <= k < |order| ==> Target(f, order[k]) == [] || !Occurs(Canonical(f, text, false), Target(f, order[k]))
    ensures Passes(f, text, order) == text
  {
    if order != [] {
      var last := |order| - 1;
      NothingToMask(f, text, order[..last]);
      if Target(f, order[last]) != [] {
        FindFinds(Canonical(f, text, false), Target(f, order[last]));
        PassIsChained(f, text, Target(f, order[last]));
      }
    }
  }

  // ----- the program

  method EmitChar(f: Folding, chars: string, index: nat, canonical: string, positions: seq<nat>, afterSpace: bool)
    returns (c: string, p: seq<nat>, s: bool)
    requires |canonical| == |positions|
    ensures c == canonical + Emitted(f, chars, afterSpace)
    ensures p == positions + Repeat(index, |Emitted(f, chars, afterSpace)|)
    ensures s == AfterSpace(f, chars, afterSpace)
  {
    c, p, s := canonical, positions, afterSpace;
    var k := 0;
    while k < |chars|
      invariant k <= |chars|
      invariant c + Emitted(f, chars[k..], s) == canonical + Emitted(f, chars, afterSpace)
      invariant p + Repeat(index, |Emitted(f, chars[k..], s)|) == positions + Repeat(index, |Emitted(f, chars, afterSpace)|)
      invariant AfterSpace(f, chars[k..], s) == AfterSpace(f, chars, afterSpace)
    {
      var next := chars[k];
      assert chars[k..][1..] == chars[k + 1..];
      k := k + 1;
      if f.combining(next) {
        continue;
      }
      if f.space(next) {
        if !s {
          Regroup(c, [' '], Emitted(f, chars[k..], true));
          Regroup(p, [index], Repeat(index, |Emitted(f, chars[k..], true)|));
          c, p := c + [' '], p + [index];
        }
        s := true;
        continue;
      }
      Regroup(c, [f.lower(next)], Emitted(f, chars[k..], false));
      Regroup(p, [index], Repeat(index, |Emitted(f, chars[k..], false)|));
      s := false;
      c, p := c + [f.lower(next)], p + [index];
    }
  }

  method CanonicalWithPositions(f: Folding, text: string) returns (canonical: string, positions: seq<nat>)
    ensures canonical == Canonical(f, text, false) && positions == Positions(f, text, false, 0)
    ensures |canonical| == |positions|
  {
    canonical, positions := [], [];
    var previousWasSpace, index := false, 0;
    while index < |text|
      invariant index <= |text| && |canonical| == |positions|
      invariant canonical + Canonical(f, text[index..], previousWasSpace) == Canonical(f, text, false)
      invariant positions + Positions(f, text[index..], previousWasSpace, index) == Positions(f, text, false, 0)
    {
      ghost var c, p, s := canonical, positions, previousWasSpace;
      canonical, positions, previousWasSpace := EmitChar(f, f.Fold(text[index]), index, canonical, positions, previousWasSpace);
      assert text[index..][0] == text[index] && text[index..][1..] == text[index + 1..];
      Regroup(c, Emitted(f, f.Fold(text[index]), s), Canonical(f, text[index + 1..], previousWasSpace));
      Regroup(p, Repeat(index, |Emitted(f, f.Fold(text[index]), s)|), Positions(f, text[index + 1..], previousWasSpace, index + 1));
      index := index + 1;
    }
  }

  lemma HitsUnfold(canonical: string, positions: seq<nat>, target: string, offset: nat, at: nat)
    requires |positions| == |canonical| && target != [] && Find(canonical, target, offset) == Some(at)
    ensures Hits(canonical, positions, target, offset)
         == [Hit(positions[at], positions[at + |target| - 1] + 1)] + Hits(canonical, positions, target, at + |target|)
  {
  }

  method FindSpans(canonical: string, positions: seq<nat>, target: string) returns (spans: seq<Hit>)
    requires |positions| == |canonical| && target != []
    ensures spans == Hits(canonical, positions, target, 0)
  {
    spans := [];
    var offset := 0;
    var start := Find(canonical, target, offset);
    while start.Some?
      invariant offset <= |canonical| && start == Find(canonical, target, offset)
      invariant spans + Hits(canonical, positions, target, offset) == Hits(canonical, positions, target, 0)
      decreases |canonical| - offset
    {
      var end := start.value + |target|;
      HitsUnfold(canonical, positions, target, offset, start.value);
      Regroup(spans, [Hit(positions[start.value], positions[end - 1] + 1)], Hits(canonical, positions, target, end));
      spans := spans + [Hit(positions[start.value], positions[end - 1] + 1)];
      offset := end;
      start := Find(canonical, target, offset);
    }
  }

  ghost function From(spans: seq<Hit>, i: nat): nat
    requires i <= |spans|
  {
    if i == 0 then 0 else spans[i - 1].end
  }

  lemma {:induction false} ChainedFrom(spans: seq<Hit>, from: nat, length: nat, i: nat)
    requires Chained(spans, from, length) && i <= |spans|
    ensures Chained(spans[i..], if i == 0 then from else spans[i - 1].end, length)
    ensures i < |spans| ==> spans[i].start < spans[i].end
  {
    if i == 0 {
      assert spans[0..] == spans;
    } else {
      ChainedFrom(spans[1..], spans[0].end, length, i - 1);
      assert spans[1..][i - 1..] == spans[i..];
    }
  }

  /** How far the replacements from the last span down to the `i`-th have come: the text behind the span
      before is final, and the text up to its last character still the source. */
  ghost predicate Replaced(text: string, spans: seq<Hit>, i: nat, masked: string) {
    && i <= |spans| && Chained(spans[i..], From(spans, i), |text|)
    && From(spans, i) <= |masked| && masked[From(spans, i)..] == Weave(text, spans[i..], From(spans, i))
    && From(spans, i) <= |text|
    && (From(spans, i) > 0 ==> masked[..From(spans, i) - 1] == text[..From(spans, i) - 1])
  }

  /** Replacing from the last span to the first leaves the earlier offsets valid. */
  method ReplaceSpans(text: string, spans: seq<Hit>) returns (masked: string)
    requires Chained(spans, 0, |text|)
    ensures masked == Weave(text, spans, 0)
  {
    masked := text;
    var i: nat := |spans|;
    ChainedFrom(spans, 0, |text|, i);
    while i > 0
      invariant Replaced(text, spans, i, masked)
    {
      i := i - 1;
      ChainedFrom(spans, 0, |text|, i);
      ghost var before := masked;
      masked := masked[..spans[i].start] + SECURITY_MASK + masked[spans[i].end..];
      ReplacedStep(text, spans, i, before, masked);
    }
    assert spans[0..] == spans && masked[0..] == masked;
  }

  lemma ReplacedStep(text: string, spans: seq<Hit>, i: nat, before: string, after: string)
    requires i < |spans| && Chained(spans[i..], From(spans, i), |text|)
    requires Replaced(text, spans, i + 1, before) && spans[i].start < spans[i].end
    requires after == before[..spans[i].start] + SECURITY_MASK + before[spans[i].end..]
    ensures Replaced(text, spans, i, after)
  {
    var rest := ReplacedHead(text, spans, i, before, after);
    ReplacedAfter(text, spans[i..], From(spans, i), rest, after);
  }

  lemma ReplacedHead(text: string, spans: seq<Hit>, i: nat, before: string, after: string) returns (rest: string)
    requires i < |spans| && Chained(spans[i..], From(spans, i), |text|)
    requires Replaced(text, spans, i + 1, before) && spans[i].start < spans[i].end
    requires after == before[..spans[i].start] + SECURITY_MASK + before[spans[i].end..]
    ensures rest == Weave(text, spans[i..][1..], spans[i..][0].end) && after == text[..spans[i..][0].start] + SECURITY_MASK + rest
  {
    rest := before[spans[i].end..];
    SameHead(before, text, spans[i].end - 1, spans[i].start);
    assert spans[i..][0] == spans[i] && spans[i..][1..] == spans[i + 1..];
  }

  lemma ReplacedAfter(text: string, spans: seq<Hit>, from: nat, rest: string, after: string)
    requires spans != [] && Chained(spans, from, |text|) && rest == Weave(text, spans[1..], spans[0].end)
    requires after == text[..spans[0].start] + SECURITY_MASK + rest
    ensures from <= |after| && after[from..] == Weave(text, spans, from)
    ensures from > 0 ==> after[..from - 1] == text[..from - 1]
  {
    Spliced(text, after, spans, from, rest);
    if from > 0 {
      SplicedHead(text, after, spans[0].start, rest, from - 1);
    }
  }

  lemma Spliced(text: string, after: string, spans: seq<Hit>, from: nat, rest: string)
    requires spans != [] && Chained(spans, from, |text|) && rest == Weave(text, spans[1..], spans[0].end)
    requires after == text[..spans[0].start] + SECURITY_MASK + rest
    ensures from <= |after| && after[from..] == Weave(text, spans, from)
  {
    if from <= spans[0].start {
      SplicedGap(text, spans[0].start, rest, from);
    } else {
      SplicedOverlap(text, spans[0].start, rest);
    }
  }

  lemma SameHead(a: string, b: string, n: nat, k: nat)
    requires k <= n <= |a| && n <= |b| && a[..n] == b[..n]
    ensures a[..k] == b[..k]
  {
    assert a[..k] == a[..n][..k] && b[..k] == b[..n][..k];
  }

  lemma SplicedHead(text: string, after: string, start: nat, rest: string, k: int)
    requires start <= |text| && 0 <= k <= start
    requires after == text[..start] + SECURITY_MASK + rest
    ensures after[..k] == text[..k]
  {
  }

  lemma SplicedGap(text: string, start: nat, rest: string, from: nat)
    requires from <= start <= |text|
    ensures (text[..start] + SECURITY_MASK + rest)[from..] == text[from..start] + SECURITY_MASK + rest
  {
  }

  lemma SplicedOverlap(text: string, start: nat, rest: string)
    requires start <= |text|
    ensures (text[..start] + SECURITY_MASK + rest)[start + 1..] == SECURITY_MASK[1..] + rest
  {
  }

  method MaskQuote(f: Folding, text: string, quote: string) returns (masked: string)
    ensures masked == QuotePass(f, text, quote)
  {
    var canonicalQuote, _ := CanonicalWithPositions(f, quote);
    var target := Trimmed(f, canonicalQuote);
    if target == [] {
      return text;
    }
    var canonical, positions := CanonicalWithPositions(f, text);
    var spans := FindSpans(canonical, positions, target);
    PassIsChained(f, text, target);
    masked := ReplaceSpans(text, spans);
  }

  lemma {:induction false} LongestExists(f: Folding, quotes: set<string>)
    requires quotes != {}
    ensures exists quote :: Longest(f, quotes, quote)
  {
    var any :| any in quotes;
    if quotes == {any} {
      assert Longest(f, quotes, any);
    } else {
      LongestExists(f, quotes - {any});
      var best :| Longest(f, quotes - {any}, best);
      assert Longest(f, quotes, if |Canonical(f, any, false)| > |Canonical(f, best, false)| then any else best);
    }
  }

  predicate Longest(f: Folding, quotes: set<string>, quote: string) {
    quote in quotes && forall other :: other in quotes ==> |Canonical(f, other, false)| <= |Canonical(f, quote, false)|
  }

  ghost predicate Clean(f: Folding, text: string, quotes: set<string>) {
    forall quote :: quote in quotes && Coverable(f, Target(f, quote)) ==> !Occurs(Canonical(f, text, false), Target(f, quote))
  }

  lemma PassKeepsClean(f: Folding, text: string, masked: string, done: set<string>, quote: string)
    requires f.Lawful() && Clean(f, text, done)
    requires masked == QuotePass(f, text, quote)
    ensures Clean(f, masked, done + {quote})
  {
    if Target(f, quote) != [] {
      forall other | other in done + {quote} && Coverable(f, Target(f, other))
        ensures !Occurs(Canonical(f, masked, false), Target(f, other))
      {
        PassIsClean(f, text, Target(f, quote), Target(f, other));
      }
    }
  }

  /** Every quote once, those with the longer canonical text first. */
  ghost predicate LongestFirst(f: Folding, quotes: set<string>, order: seq<string>) {
    && (forall quote :: quote in order <==> quote in quotes) && Distinct(order)
    && forall i, j :: 0 <= i < j < |order| ==> |Canonical(f, order[i], false)| >= |Canonical(f, order[j], false)|
  }

  /** The quotes done so far are masked in this order, and none of those left is longer. */
  ghost predicate Underway(f: Folding, text: string, masked: string, order: seq<string>, done: set<string>, pending: set<string>) {
    && Clean(f, masked, done) && LongestFirst(f, done, order) && masked == Passes(f, text, order) && done !! pending
    && forall i, quote :: 0 <= i < |order| && quote in pending ==> |Canonical(f, order[i], false)| >= |Canonical(f, quote, false)|
  }

  lemma UnderwayStep(f: Folding, text: string, before: string, order: seq<string>, done: set<string>, pending: set<string>, quote: string,
              masked: string)
    requires f.Lawful() && Underway(f, text, before, order, done, pending)
    requires Longest(f, pending, quote) && masked == QuotePass(f, before, quote)
    ensures Underway(f, text, masked, order + [quote], done + {quote}, pending - {quote})
    ensures done + pending == done + {quote} + (pending - {quote})
  {
    PassKeepsClean(f, before, masked, done, quote);
    PassesOneMore(f, text, order, quote);
    NextLongest(f, done, order, pending, quote);
  }

  method MaskInOrder(f: Folding, text: string, quotes: set<string>) returns (masked: string, ghost order: seq<string>)
    requires f.Lawful()
    ensures Clean(f, masked, quotes) && LongestFirst(f, quotes, order) && masked == Passes(f, text, order)
  {
    masked, order := text, [];
    var pending := quotes;
    ghost var done: set<string> := {};
    while pending != {}
      invariant Underway(f, text, masked, order, done, pending) && done + pending == quotes
    {
      LongestExists(f, pending);
      var quote :| Longest(f, pending, quote);
      ghost var before := masked;
      masked := MaskQuote(f, masked, quote);
      UnderwayStep(f, text, before, order, done, pending, quote, masked);
      order, done := order + [quote], done + {quote};
      pending := pending - {quote};
    }
    assert done == quotes;
  }

  lemma PassesOneMore(f: Folding, text: string, order: seq<string>, quote: string)
    ensures Passes(f, text, order + [quote]) == QuotePass(f, Passes(f, text, order), quote)
  {
    assert (order + [quote])[..|order|] == order;
  }

  lemma NextLongest(f: Folding, done: set<string>, order: seq<string>, pending: set<string>, quote: string)
    requires LongestFirst(f, done, order) && done !! pending && Longest(f, pending, quote)
    requires forall i, other :: 0 <= i < |order| && other in pending ==> |Canonical(f, order[i], false)| >= |Canonical(f, other, false)|
    ensures LongestFirst(f, done + {quote}, order + [quote])
    ensures forall i, other :: 0 <= i < |order + [quote]| && other in pending - {quote} ==>
              |Canonical(f, (order + [quote])[i], false)| >= |Canonical(f, other, false)|
  {
  }

  /** One pass for every quote, the longest first. Every flagged target the guarantee covers is gone from the canonical
      form of the result; what is left is source text in order and mask text; a source character is gone only where a
      match covered it in the text a pass found; and without a match the text comes back as it was. */
  method MaskFlaggedText(f: Folding, text: string, quotes: set<string>) returns (masked: string, ghost order: seq<string>,
              ghost origins: seq<Option<nat>>)
    requires f.Lawful()
    ensures Clean(f, masked, quotes)
    ensures LongestFirst(f, quotes, order) && masked == Passes(f, text, order)
    ensures Placed(text, masked, origins) && Rising(origins, 0)
    ensures forall i: nat :: i < |text| && Some(i) !in origins ==> exists n: nat :: LostTo(f, text, order, n, i)
    ensures (forall quote :: quote in quotes ==> Target(f, quote) == [] || !Occurs(Canonical(f, text, false), Target(f, quote))) ==> masked == text
  {
    masked, order := MaskInOrder(f, text, quotes);
    origins := Origins(f, text, order);
    OnlyMatchesGo(f, text, order, origins);
    if forall quote :: quote in quotes ==> Target(f, quote) == [] || !Occurs(Canonical(f, text, false), Target(f, quote)) {
      NothingToMask(f, text, order);
    }
  }

  lemma OnlyMatchesGo(f: Folding, text: string, order: seq<string>, origins: seq<Option<nat>>)
    requires origins == Origins(f, text, order)
    ensures forall i: nat :: i < |text| && Some(i) !in origins ==> exists n: nat :: LostTo(f, text, order, n, i)
  {
    forall i: nat | i < |text| && Some(i) !in origins
      ensures exists n: nat :: LostTo(f, text, order, n, i)
    {
      LostInAMatch(f, text, order, i);
    }
  }
}
