/** Section-aware chunking (app/rag/chunking.py:76-84, 87-217): long paragraphs are split at boundaries, pieces
    packed greedily, and every chunk after the first of a section starts with the tail of the one before. */
module Chunking {
  import opened Common

  // ----- text

  predicate Space(c: char) { c == ' ' || c == '\t' || c == '\n' || c == '\r' }

  /** The first index from `i` on that is not white space. */
  function Skip(text: string, i: nat): (r: nat)
    requires i <= |text|
    ensures i <= r <= |text| && (r < |text| ==> !Space(text[r]))
    decreases |text| - i
  {
    if i < |text| && Space(text[i]) then Skip(text, i + 1) else i
  }

  /** The end of the text before `j` without trailing white space. */
  function Back(text: string, j: nat): (r: nat)
    requires j <= |text|
    ensures r <= j && (r > 0 ==> !Space(text[r - 1]))
  {
    if j > 0 && Space(text[j - 1]) then Back(text, j - 1) else j
  }

  lemma {:induction false} BackOverSpace(text: string, j: nat)
    requires j <= |text|
    ensures forall k :: Back(text, j) <= k < j ==> Space(text[k])
  {
    if j > 0 && Space(text[j - 1]) {
      BackOverSpace(text, j - 1);
    }
  }

  /** `text[i:j].strip()`. */
  function Strip(text: string, i: nat, j: nat): string
    requires i <= j <= |text|
  {
    var start := Skip(text, i);
    if start >= j then [] else text[start..Max(start, Back(text, j))]
  }

  predicate Trimmed(text: string) { text != [] ==> !Space(text[0]) && !Space(text[|text| - 1]) }

  /** `text.rfind(" ", 0, end)`, -1 when there is none. */
  function LastBlank(text: string, end: nat): (r: int)
    requires end <= |text|
    ensures -1 <= r < end || r == -1
  {
    if end == 0 then -1 else if text[end - 1] == ' ' then end - 1 else LastBlank(text, end - 1)
  }

  /** `text.rfind(mark + " ", 0, end)`. */
  function LastMark(text: string, mark: char, end: nat): (r: int)
    requires end <= |text|
    ensures -1 <= r && (r >= 0 ==> r + 2 <= end)
  {
    if end < 2 then -1
    else if text[end - 2] == mark && text[end - 1] == ' ' then end - 2
    else LastMark(text, mark, end - 1)
  }

  /** Every currency symbol (`R$`, `US$`, `$`, and the euro sign) ends in one of two characters. */
  predicate CurrencyEndsAt(text: string, k: nat)
    requires 0 < k <= |text|
  {
    text[k - 1] == '$' || text[k - 1] == '\U{20AC}'
  }

  // ----- where a long text is cut

  /** The last blank before `end` that does not separate a currency symbol from its amount. */
  function WordBreak(text: string, end: nat): (r: int)
    requires end <= |text|
    ensures -1 <= r < end || r == -1
  {
    var blank := LastBlank(text, end);
    if blank > 0 && CurrencyEndsAt(text, blank) then WordBreak(text, blank) else blank
  }

  function SentenceBreak(text: string, end: nat): (r: int)
    requires end <= |text|
    ensures -1 <= r && (r >= 0 ==> r + 2 <= end)
  {
    Max(LastMark(text, '.', end), LastMark(text, ';', end))
  }

  /** How much of a text longer than `max` goes into the next piece. */
  function Cut(text: string, max: nat): (r: nat)
    requires |text| > max >= 1
    ensures 1 <= r <= max
  {
    var sentence := SentenceBreak(text, max);
    var boundary := if sentence < max / 2 then WordBreak(text, max) else sentence;
    if boundary < max / 2 then max else boundary + 1
  }

  /** A cut falls behind a blank that follows no currency symbol or behind a sentence or clause end; only when the
      second half of the budget holds neither does it fall where the budget ends. */
  lemma CutRespectsWords(text: string, max: nat)
    requires |text| > max >= 1
    ensures var cut := Cut(text, max);
            || (text[cut - 1] == ' ' && (cut > 1 ==> !CurrencyEndsAt(text, cut - 1)))
            || ((text[cut - 1] == '.' || text[cut - 1] == ';') && text[cut] == ' ')
            || (cut == max && NoSentenceEnds(text, max) && forall k: nat :: max / 2 <= k < max ==> !BreaksAt(text, k))
  {
    SentenceBreakFound(text, max);
    WordBreakIsLast(text, max);
  }

  /** A word of at most half the budget is cut exactly when it is an amount behind a currency symbol and a blank, the
      budget ends inside it, and the second half of the budget holds no other place to cut. */
  lemma WordIsCutExactly(text: string, max: nat, a: nat, b: nat)
    requires |text| > max >= 1 && WordAt(text, a, b) && b - a <= max / 2
    ensures a < Cut(text, max) < b <==>
              && a < max < b && a >= 2 && CurrencyEndsAt(text, a - 1)
              && NoSentenceEnds(text, max) && forall k: nat :: max / 2 <= k < max ==> !BreaksAt(text, k)
  {
    SentenceBreakFound(text, max);
    WordBreakIsLast(text, max);
    var cut, blank := Cut(text, max), WordBreak(text, max);
    assert blank >= 0 ==> BreaksAt(text, blank);
    if a < cut < b {
      CutRespectsWords(text, max);
      assert text[cut - 1] != ' ' && text[cut] != ' ';
      assert cut == max && max / 2 <= a - 1;
      assert !BreaksAt(text, a - 1);
    }
  }

  /** A word with a blank before it and a blank or the end behind it. */
  ghost predicate WordAt(text: string, a: nat, b: nat) {
    && 0 < a < b <= |text| && text[a - 1] == ' ' && (b < |text| ==> text[b] == ' ')
    && forall k :: a <= k < b ==> text[k] != ' '
  }

  /** That happens to an amount of four characters. */
  lemma AmountIsCut()
    ensures var text := "abcd R$ 1234 xyz";
            WordAt(text, 8, 12) && Cut(text, 10) == 10 && Pieces(text, 10) == ["abcd R$ 12", "34 xyz"]
  {
    var text := "abcd R$ 1234 xyz";
    assert text[0] == 'a' && text[9] == '2' && text[10] == '3' && text[15] == 'z';
    BudgetEndsInAmount(text);
    PiecesInTwo(text, 10);
    assert text[..10] == "abcd R$ 12" && text[10..] == "34 xyz";
  }

  lemma BudgetEndsInAmount(text: string)
    requires |text| > 12 && text[4] == ' ' && text[6] == '$' && text[7] == ' ' && WordAt(text, 8, 12)
    requires forall k :: 5 <= k < 7 ==> text[k] != ' ' && text[k] != '.' && text[k] != ';'
    requires forall k :: 8 <= k < 12 ==> text[k] != ' '
    ensures Cut(text, 10) == 10
  {
    assert CurrencyEndsAt(text, 7);
    assert forall k: nat :: 5 <= k < 10 ==> !BreaksAt(text, k);
    assert NoSentenceEnds(text, 10);
    WordIsCutExactly(text, 10, 8, 12);
    CutRespectsWords(text, 10);
  }

  /** A cut between characters that are not white space gives the two parts as they are. */
  lemma PiecesInTwo(text: string, max: nat)
    requires max >= 1 && max < |text| <= 2 * max && Trimmed(text)
    requires Cut(text, max) == max && !Space(text[max - 1]) && !Space(text[max])
    ensures Pieces(text, max) == [text[..max], text[max..]]
  {
    assert Skip(text, 0) == 0 && Skip(text, max) == max && Back(text, max) == max && Back(text, |text|) == |text|;
    assert text[0..max] == text[..max] && text[max..|text|] == text[max..];
    PiecesUnfold(text, max, max, text[..max], text[max..]);
    assert Pieces(text[max..], max) == [text[max..]];
  }

  /** A blank the program may break at. */
  predicate BreaksAt(text: string, k: nat)
    requires k < |text|
  {
    text[k] == ' ' && (k > 0 ==> !CurrencyEndsAt(text, k))
  }

  predicate EndsSentenceAt(text: string, k: nat)
    requires k + 1 < |text|
  {
    (text[k] == '.' || text[k] == ';') && text[k + 1] == ' '
  }

  ghost predicate NoSentenceEnds(text: string, max: nat)
    requires max <= |text|
  {
    forall k: nat :: max / 2 <= k && k + 1 < max ==> !EndsSentenceAt(text, k)
  }

  /** The cut lies in the blanks between a currency symbol and its amount. */
  ghost predicate Parts(text: string, cut: nat)
    requires cut <= |text|
  {
    exists s: nat :: 0 < s <= cut && s < |text| && CurrencyEndsAt(text, s) && text[s] == ' ' && forall k :: s <= k < cut ==> text[k] == ' '
  }

  /** Symbol and amount are separated exactly when the second half of the budget holds no sentence or clause end and
      either no blank to break at, and the budget ends behind the symbol, or the last such blank is one of several
      behind the symbol. */
  lemma CutPartsExactly(text: string, max: nat)
    requires |text| > max >= 1
    ensures Parts(text, Cut(text, max)) <==>
              && NoSentenceEnds(text, max)
              && if exists k: nat :: max / 2 <= k < max && BreaksAt(text, k)
                 then exists k: nat :: LastBreak(text, max, k) && Parts(text, k + 1)
                 else Parts(text, max)
  {
    SentenceBreakFound(text, max);
    WordBreakIsLast(text, max);
    var cut, sentence, blank := Cut(text, max), SentenceBreak(text, max), WordBreak(text, max);
    if sentence >= max / 2 {
      assert EndsSentenceAt(text, sentence);
      assert text[cut - 1] == '.' || text[cut - 1] == ';';
      assert !Parts(text, cut);
    } else if blank >= max / 2 {
      assert LastBreak(text, max, blank);
      assert forall k: nat :: LastBreak(text, max, k) ==> k == blank;
    } else {
      assert forall k: nat :: max / 2 <= k < max ==> !BreaksAt(text, k);
    }
  }

  /** The last blank to break at in the second half of the budget. */
  ghost predicate LastBreak(text: string, max: nat, k: nat)
    requires max <= |text|
  {
    max / 2 <= k < max && BreaksAt(text, k) && forall j: nat :: k < j < max ==> !BreaksAt(text, j)
  }

  /** Where no two blanks meet, that is when the budget ends just behind a currency symbol, or behind the blank that
      follows it, and nothing in its second half can be broken at. */
  lemma CutPartsSingleBlanks(text: string, max: nat)
    requires |text| > max >= 1 && forall k: nat :: 0 < k < |text| && text[k] == ' ' ==> text[k - 1] != ' '
    ensures Parts(text, Cut(text, max)) <==>
              && NoSentenceEnds(text, max) && (forall k: nat :: max / 2 <= k < max ==> !BreaksAt(text, k))
              && ((CurrencyEndsAt(text, max) && text[max] == ' ') || (max >= 2 && CurrencyEndsAt(text, max - 1) && text[max - 1] == ' '))
  {
    CutPartsExactly(text, max);
    forall k: nat | LastBreak(text, max, k)
      ensures !Parts(text, k + 1)
    {
      BreakNeverParts(text, k);
    }
    if Parts(text, max) {
      var s: nat :| 0 < s <= max && s < |text| && CurrencyEndsAt(text, s) && text[s] == ' ' && forall j :: s <= j < max ==> text[j] == ' ';
      assert s < max - 1 ==> text[s + 1] == ' ';
    }
  }

  lemma BreakNeverParts(text: string, k: nat)
    requires k < |text| && BreaksAt(text, k) && (k > 0 ==> text[k - 1] != ' ')
    ensures !Parts(text, k + 1)
  {
    forall s: nat | 0 < s <= k + 1 && s < |text| && CurrencyEndsAt(text, s) && text[s] == ' '
      ensures exists j :: s <= j < k + 1 && text[j] != ' '
    {
      assert s != k + 1 && s != k;
      assert text[k - 1] != ' ';
    }
  }

  /** That happens: a word longer than half the budget ends in the symbol. */
  lemma AmountIsParted()
    ensures Cut("aaaaaaaR$ 100", 10) == 10 && Parts("aaaaaaaR$ 100", 10)
    ensures Strip("aaaaaaaR$ 100", 0, 10) == "aaaaaaaR$" && Strip("aaaaaaaR$ 100", 10, 13) == "100"
  {
    var text := "aaaaaaaR$ 100";
    SentenceBreakFound(text, 10);
    WordBreakIsLast(text, 10);
    assert CurrencyEndsAt(text, 9) && text[9] == ' ';
    assert forall k: nat :: 5 <= k < 10 ==> !BreaksAt(text, k);
    assert Skip(text, 0) == 0 && Skip(text, 10) == 10;
    assert Back(text, 9) == 9 && Back(text, 10) == 9 && Back(text, 13) == 13;
    assert text[0..9] == "aaaaaaaR$" && text[10..13] == "100";
  }

  lemma SentenceBreakFound(text: string, max: nat)
    requires max <= |text|
    ensures SentenceBreak(text, max) >= 0 ==> EndsSentenceAt(text, SentenceBreak(text, max))
    ensures SentenceBreak(text, max) < max / 2 <==> NoSentenceEnds(text, max)
  {
    LastMarkIsMark(text, '.', max);
    LastMarkIsMark(text, ';', max);
    var last := SentenceBreak(text, max);
    if last >= 0 {
      assert EndsSentenceAt(text, last);
    }
    forall k: nat | last < k && k + 1 < max
      ensures !EndsSentenceAt(text, k)
    {
      assert !(text[k] == '.' && text[k + 1] == ' ') && !(text[k] == ';' && text[k + 1] == ' ');
    }
  }

  lemma {:induction false} LastMarkIsMark(text: string, mark: char, end: nat)
    requires end <= |text|
    ensures var r := LastMark(text, mark, end); r >= 0 ==> text[r] == mark && text[r + 1] == ' '
    ensures forall k: nat :: LastMark(text, mark, end) < k && k + 2 <= end ==> !(text[k] == mark && text[k + 1] == ' ')
  {
    if end >= 2 {
      LastMarkIsMark(text, mark, end - 1);
    }
  }

  lemma {:induction false} LastBlankIsLast(text: string, end: nat)
    requires end <= |text|
    ensures var r := LastBlank(text, end);
            (r >= 0 ==> text[r] == ' ') && forall k: nat :: r < k < end ==> text[k] != ' '
  {
    if end > 0 {
      LastBlankIsLast(text, end - 1);
    }
  }

  lemma {:induction false} WordBreakIsLast(text: string, end: nat)
    requires end <= |text|
    ensures var r := WordBreak(text, end);
            && (r >= 0 ==> text[r] == ' ') && (r > 0 ==> !CurrencyEndsAt(text, r))
            && forall k: nat :: r < k < end && 0 < k ==> text[k] != ' ' || CurrencyEndsAt(text, k)
  {
    var blank := LastBlank(text, end);
    LastBlankIsLast(text, end);
    if blank > 0 && CurrencyEndsAt(text, blank) {
      WordBreakIsLast(text, blank);
    }
  }

  /** The pieces of a text, `split_at_boundaries`. */
  function Pieces(text: string, max: nat): seq<string>
    requires max >= 1
    decreases |text|
  {
    if |text| <= max then (if text == [] then [] else [text])
    else
      var cut := Cut(text, max);
      [Strip(text, 0, cut)] + Pieces(Strip(text, cut, |text|), max)
  }

  /** `pieces` cover the text from `from` on, in order, with nothing but white space between them. */
  ghost predicate Tiles(text: string, from: nat, pieces: seq<string>)
    requires from <= |text|
    decreases |pieces|
  {
    var start := Skip(text, from);
    if pieces == [] then start == |text|
    else
      var end := start + |pieces[0]|;
      start < end <= |text| && text[start..end] == pieces[0] && Tiles(text, end, pieces[1..])
  }

  /** White space in front changes nothing. */
  lemma TilesSkip(text: string, a: nat, b: nat, pieces: seq<string>)
    requires a <= |text| && b <= |text| && Skip(text, a) == Skip(text, b)
    ensures Tiles(text, a, pieces) == Tiles(text, b, pieces)
  {
  }

  lemma {:induction false} SkipAcross(text: string, a: nat, b: nat)
    requires a <= b <= |text| && forall k :: a <= k < b ==> Space(text[k])
    ensures Skip(text, a) == Skip(text, b)
    decreases b - a
  {
    if a < b {
      SkipAcross(text, a + 1, b);
    }
  }

  lemma {:induction false} RestTiles(text: string, from: nat, remaining: string, max: nat)
    requires max >= 1 && Trimmed(text) && from <= |text| && (from < |text| ==> !Space(text[from])) && remaining == text[from..]
    ensures Tiles(text, from, Pieces(remaining, max))
    decreases |text| - from
  {
    if |remaining| <= max {
      if from < |text| {
        LastPiece(text, from, remaining);
      }
    } else {
      var cut := Cut(remaining, max);
      var next := Skip(text, from + cut);
      RestTiles(text, next, text[next..], max);
      CutTiles(text, from, remaining, max, cut, next, Pieces(text[next..], max));
    }
  }

  lemma CutTiles(text: string, from: nat, remaining: string, max: nat, cut: nat, next: nat, pieces: seq<string>)
    requires max >= 1 && Trimmed(text) && from < |text| && !Space(text[from]) && remaining == text[from..] && |remaining| > max
    requires cut == Cut(remaining, max) && next == Skip(text, from + cut)
    requires pieces == Pieces(text[next..], max) && Tiles(text, next, pieces)
    ensures Tiles(text, from, Pieces(remaining, max))
  {
    var piece := Strip(remaining, 0, cut);
    HeadPiece(text, from, cut);
    TailPiece(text, from, cut);
    PiecesUnfold(remaining, max, cut, piece, text[next..]);
    TilesAcross(text, from, cut, next, piece, pieces);
  }

  lemma PiecesUnfold(text: string, max: nat, cut: nat, piece: string, rest: string)
    requires max >= 1 && |text| > max && cut == Cut(text, max)
    requires piece == Strip(text, 0, cut) && rest == Strip(text, cut, |text|)
    ensures Pieces(text, max) == [piece] + Pieces(rest, max)
  {
  }

  /** Splitting a trimmed text loses nothing but white space. */
  lemma PiecesTile(text: string, max: nat)
    requires max >= 1 && Trimmed(text)
    ensures Tiles(text, 0, Pieces(text, max))
  {
    assert text[0..] == text;
    RestTiles(text, 0, text, max);
  }

  lemma LastPiece(text: string, from: nat, remaining: string)
    requires from < |text| && !Space(text[from]) && remaining == text[from..|text|]
    ensures Tiles(text, from, [remaining])
  {
    assert [remaining][1..] == [];
  }

  lemma TilesAcross(text: string, from: nat, cut: nat, next: nat, piece: string, rest: seq<string>)
    requires from < |text| && !Space(text[from]) && cut <= |text| - from && next == Skip(text, from + cut)
    requires 0 < |piece| <= cut && text[from..from + |piece|] == piece
    requires forall k :: from + |piece| <= k < from + cut ==> Space(text[k])
    requires Tiles(text, next, rest)
    ensures Tiles(text, from, [piece] + rest)
  {
    SkipAcross(text, from + |piece|, from + cut);
    TilesSkip(text, next, from + |piece|, rest);
    TilesStep(text, from, piece, rest);
  }

  lemma TilesStep(text: string, from: nat, piece: string, rest: seq<string>)
    requires from < |text| && !Space(text[from]) && 0 < |piece| <= |text| - from && text[from..from + |piece|] == piece
    requires Tiles(text, from + |piece|, rest)
    ensures Tiles(text, from, [piece] + rest)
  {
    assert ([piece] + rest)[1..] == rest;
  }

  lemma {:induction false} SkipShift(text: string, from: nat, i: nat)
    requires from + i <= |text|
    ensures Skip(text[from..], i) + from == Skip(text, from + i)
    decreases |text| - i
  {
    if from + i < |text| {
      assert text[from..][i] == text[from + i];
      if Space(text[from + i]) {
        SkipShift(text, from, i + 1);
      }
    }
  }

  /** The first piece starts where the text does; what is left of the head behind it is white space. */
  lemma HeadPiece(text: string, from: nat, cut: nat)
    requires from < |text| && !Space(text[from]) && 1 <= cut <= |text| - from
    ensures var piece := Strip(text[from..], 0, cut);
            0 < |piece| <= cut && text[from..from + |piece|] == piece
            && forall k :: from + |piece| <= k < from + cut ==> Space(text[k])
  {
    var remaining := text[from..];
    var end := Back(remaining, cut);
    BackOverSpace(remaining, cut);
    assert remaining[0] == text[from];
    assert Skip(remaining, 0) == 0;
    assert end > 0;
    forall k | from + end <= k < from + cut
      ensures Space(text[k])
    {
      assert remaining[k - from] == text[k];
    }
  }

  /** What is left of a trimmed text is the text from its next character on. */
  lemma TailPiece(text: string, from: nat, cut: nat)
    requires Trimmed(text) && cut <= |text| - from && from <= |text|
    ensures Strip(text[from..], cut, |text| - from) == text[Skip(text, from + cut)..]
  {
    var remaining := text[from..];
    SkipShift(text, from, cut);
    var start := Skip(remaining, cut);
    if start < |remaining| {
      assert remaining[|remaining| - 1] == text[|text| - 1];
      assert Back(remaining, |remaining|) == |remaining|;
      assert remaining[start..] == text[from + start..];
    }
  }

  lemma {:induction false} PiecesFit(text: string, max: nat)
    requires max >= 1
    ensures forall i :: 0 <= i < |Pieces(text, max)| ==> |Pieces(text, max)[i]| <= max
    decreases |text|
  {
    if |text| > max {
      PiecesFit(Strip(text, Cut(text, max), |text|), max);
    }
  }

  method SplitAtBoundaries(text: string, max: nat) returns (pieces: seq<string>)
    requires max >= 1
    ensures pieces == Pieces(text, max)
  {
    pieces := [];
    var remaining := text;
    while |remaining| > max
      invariant pieces + Pieces(remaining, max) == Pieces(text, max)
      decreases |remaining|
    {
      var boundary := Cut(remaining, max);
      var piece, rest := Strip(remaining, 0, boundary), Strip(remaining, boundary, |remaining|);
      PiecesUnfold(remaining, max, boundary, piece, rest);
      Regroup(pieces, [piece], Pieces(rest, max));
      pieces := pieces + [piece];
      remaining := rest;
    }
    if remaining != [] {
      pieces := pieces + [remaining];
    }
  }
}
