/** The passage of a chunk quoted as evidence (app/consumer/evidence_support.py:88-171): a two-pointer pass
    over the words finds the heaviest window, and the quote is cut at sentence and word breaks. */
module EvidenceQuotes {
  import opened Common
  import opened Text

  datatype Word = Word(start: nat, end: nat, weight: nat)

  // ----- the words of a text

  function WordEnd(text: string, i: nat): (r: nat)
    requires i <= |text|
    ensures i <= r <= |text| && forall k :: i <= k < r ==> text[k] != ' '
    ensures r < |text| ==> text[r] == ' '
    decreases |text| - i
  {
    if i == |text| || text[i] == ' ' then i else WordEnd(text, i + 1)
  }

  /** The words with the weight of their terms, from an offset where no word is cut. */
  function Words(text: string, from: nat, weigh: string -> nat): (r: seq<Word>)
    requires from <= |text|
    ensures forall k :: 0 <= k < |r| ==> from <= r[k].start
    decreases |text| - from
  {
    if from == |text| then []
    else if text[from] == ' ' then Words(text, from + 1, weigh)
    else
      var end := WordEnd(text, from);
      [Word(from, end, weigh(text[from..end]))] + Words(text, end, weigh)
  }

  ghost predicate Whole(text: string, w: Word) {
    && w.start < w.end <= |text|
    && (forall k :: w.start <= k < w.end ==> text[k] != ' ')
    && (w.end < |text| ==> text[w.end] == ' ')
  }

  ghost predicate Ascending(words: seq<Word>) {
    && (forall i :: 0 <= i < |words| ==> words[i].start < words[i].end)
    && (forall i, j :: 0 <= i < j < |words| ==> words[i].end <= words[j].start)
  }

  lemma {:induction false} WordsAscend(text: string, from: nat, weigh: string -> nat)
    requires from <= |text|
    ensures Ascending(Words(text, from, weigh))
    ensures forall k :: 0 <= k < |Words(text, from, weigh)| ==> Whole(text, Words(text, from, weigh)[k])
    decreases |text| - from
  {
    if from < |text| {
      if text[from] == ' ' {
        WordsAscend(text, from + 1, weigh);
      } else {
        WordsAscend(text, WordEnd(text, from), weigh);
      }
    }
  }

  /** A stretch without blanks between blanks or ends of the text, with the weight of what it spells. */
  ghost predicate IsWord(text: string, weigh: string -> nat, w: Word) {
    Whole(text, w) && (w.start == 0 || text[w.start - 1] == ' ') && w.weight == weigh(text[w.start..w.end])
  }

  /** The list holds exactly the words of the text. */
  lemma WordsAreExactly(text: string, weigh: string -> nat, w: Word)
    ensures w in Words(text, 0, weigh) <==> IsWord(text, weigh, w)
  {
    if w in Words(text, 0, weigh) {
      ListedIsWord(text, 0, weigh, w);
    }
    if IsWord(text, weigh, w) {
      WordIsListed(text, 0, weigh, w);
    }
  }

  lemma {:induction false} WordIsListed(text: string, from: nat, weigh: string -> nat, w: Word)
    requires from <= w.start && IsWord(text, weigh, w)
    ensures w in Words(text, from, weigh)
    decreases |text| - from
  {
    if text[from] == ' ' {
      WordIsListed(text, from + 1, weigh, w);
    } else {
      var end := WordEnd(text, from);
      if from < w.start {
        assert text[w.start - 1] == ' ' && end <= w.start - 1;
        WordIsListed(text, end, weigh, w);
      } else {
        assert end == w.end;
      }
    }
  }

  lemma {:induction false} ListedIsWord(text: string, from: nat, weigh: string -> nat, w: Word)
    requires from <= |text| && w in Words(text, from, weigh) && (0 < from < |text| ==> text[from - 1] == ' ' || text[from] == ' ')
    ensures IsWord(text, weigh, w)
    decreases |text| - from
  {
    if from < |text| {
      if text[from] == ' ' {
        ListedIsWord(text, from + 1, weigh, w);
      } else {
        var end := WordEnd(text, from);
        if w != Word(from, end, weigh(text[from..end])) {
          ListedIsWord(text, end, weigh, w);
        }
      }
    }
  }

  // ----- windows over the words, by brute force

  /** The weight of the first `n` words. */
  function Prefix(words: seq<Word>, n: nat): nat
    requires n <= |words|
  {
    if n == 0 then 0 else Prefix(words, n - 1) + words[n - 1].weight
  }

  /** Where the window that starts with word `i` and has reached `j` ends. */
  function Reach(words: seq<Word>, i: nat, max: nat, j: nat): (r: nat)
    requires i < |words| && j <= |words|
    ensures j <= r <= |words|
    ensures forall k :: j <= k < r ==> words[k].end - words[i].start <= max
    ensures r < |words| ==> words[r].end - words[i].start > max
    decreases |words| - j
  {
    if j < |words| && words[j].end - words[i].start <= max then Reach(words, i, max, j + 1) else j
  }

  function Score(words: seq<Word>, i: nat, max: nat): int
    requires i < |words|
  {
    Prefix(words, Reach(words, i, max, i)) - Prefix(words, i)
  }

  lemma {:induction false} PrefixGrows(words: seq<Word>, i: nat, j: nat)
    requires i <= j <= |words|
    ensures Prefix(words, i) <= Prefix(words, j)
    ensures (forall k :: i <= k < j ==> words[k].weight == 0) ==> Prefix(words, i) == Prefix(words, j)
    ensures (exists k :: i <= k < j && words[k].weight > 0) ==> Prefix(words, i) < Prefix(words, j)
  {
    if i < j {
      PrefixGrows(words, i, j - 1);
    }
  }

  /** The earliest of the heaviest windows. */
  ghost predicate Best(words: seq<Word>, max: nat, b: nat) {
    && b < |words| && Score(words, b, max) > 0
    && (forall i: nat :: i < |words| ==> Score(words, i, max) <= Score(words, b, max))
    && (forall i: nat :: i < b ==> Score(words, i, max) < Score(words, b, max))
  }

  /** No run of words that fits is heavier. */
  lemma NoRunIsHeavier(words: seq<Word>, max: nat, b: nat, i: nat, j: nat)
    requires Ascending(words) && Best(words, max, b)
    requires i < j <= |words| && words[j - 1].end - words[i].start <= max
    ensures Prefix(words, j) - Prefix(words, i) <= Score(words, b, max)
  {
    ReachCovers(words, i, max, j);
    PrefixGrows(words, j, Reach(words, i, max, i));
    assert Score(words, i, max) <= Score(words, b, max);
  }

  lemma ReachCovers(words: seq<Word>, i: nat, max: nat, j: nat)
    requires Ascending(words) && i < j <= |words| && words[j - 1].end - words[i].start <= max
    ensures j <= Reach(words, i, max, i)
  {
    forall k | i <= k < j
      ensures words[k].end <= words[j - 1].end
    {
      assert k == j - 1 || words[k].end <= words[j - 1].start;
    }
  }

  function FirstMatch(words: seq<Word>, from: nat): (r: nat)
    requires from <= |words|
    ensures from <= r <= |words| && forall k :: from <= k < r ==> words[k].weight == 0
    ensures r < |words| ==> words[r].weight > 0
    decreases |words| - from
  {
    if from == |words| || words[from].weight > 0 then from else FirstMatch(words, from + 1)
  }

  lemma MatchInWindow(words: seq<Word>, max: nat, b: nat)
    requires b < |words| && Score(words, b, max) > 0
    ensures FirstMatch(words, b) < Reach(words, b, max, b)
  {
    if Reach(words, b, max, b) <= FirstMatch(words, b) {
      PrefixGrows(words, b, Reach(words, b, max, b));
      assert false;
    }
  }

  /** Starting at the first match of the best window keeps every match: that window is as heavy. */
  lemma FirstMatchKeepsEveryMatch(words: seq<Word>, max: nat, b: nat)
    requires Ascending(words) && Best(words, max, b)
    ensures FirstMatch(words, b) < |words|
    ensures Score(words, FirstMatch(words, b), max) == Score(words, b, max)
  {
    MatchInWindow(words, max, b);
    var m, r := FirstMatch(words, b), Reach(words, b, max, b);
    PrefixGrows(words, b, m);
    assert m == b || words[b].end <= words[m].start;
    ReachCovers(words, m, max, r);
    PrefixGrows(words, r, Reach(words, m, max, m));
  }

  // ----- the two-pointer pass

  /** What the pass knows before word `index`. Behind a word longer than a window `end` lags by one word
      and `score` is negative. */
  ghost predicate Passed(words: seq<Word>, max: nat, index: nat, end: nat, score: int) {
    && index <= |words| && end <= |words|
    && score == Prefix(words, end) - Prefix(words, index)
    && (index < |words| ==> forall k :: 0 <= k < end ==> words[k].end - words[index].start <= max)
  }

  ghost predicate BestSoFar(words: seq<Word>, max: nat, index: nat, bestIndex: nat, bestScore: int) {
    && bestScore >= 0 && index <= |words|
    && (forall i: nat :: i < index ==> Score(words, i, max) <= bestScore)
    && (bestScore == 0 ==> bestIndex == 0)
    && (bestScore > 0 ==> bestIndex < index && Score(words, bestIndex, max) == bestScore
                          && forall i: nat :: i < bestIndex ==> Score(words, i, max) < bestScore)
  }

  lemma WindowReached(words: seq<Word>, max: nat, index: nat, end: nat, score: int)
    requires Ascending(words) && index < |words| && Passed(words, max, index, end, score)
    requires end == |words| || words[end].end - words[index].start > max
    ensures index <= end && score == Score(words, index, max)
  {
    assert forall k :: 0 <= k < index ==> words[k].end <= words[index].start;
    assert Reach(words, index, max, index) == end;
  }

  method ExtendWindow(words: seq<Word>, max: nat, index: nat, end0: nat, score0: int) returns (score: int, end: nat)
    requires Ascending(words) && index < |words| && Passed(words, max, index, end0, score0)
    ensures Passed(words, max, index, end, score) && index <= end && score == Score(words, index, max)
  {
    score, end := score0, end0;
    while end < |words| && words[end].end - words[index].start <= max
      invariant Passed(words, max, index, end, score)
    {
      score := score + words[end].weight;
      end := end + 1;
    }
    WindowReached(words, max, index, end, score);
  }

  lemma BestStep(words: seq<Word>, max: nat, index: nat, bestIndex: nat, bestScore: int, score: int)
    requires index < |words| && BestSoFar(words, max, index, bestIndex, bestScore) && score == Score(words, index, max)
    ensures if score > bestScore then BestSoFar(words, max, index + 1, index, score)
            else BestSoFar(words, max, index + 1, bestIndex, bestScore)
  {
  }

  lemma BestFound(words: seq<Word>, max: nat, bestIndex: nat, bestScore: int)
    requires BestSoFar(words, max, |words|, bestIndex, bestScore) && bestScore > 0
    ensures Best(words, max, bestIndex) && FirstMatch(words, bestIndex) < |words|
  {
    MatchInWindow(words, max, bestIndex);
  }

  lemma MoveOn(words: seq<Word>, max: nat, index: nat, end: nat, score: int)
    requires Ascending(words) && 0 < index <= |words| && Passed(words, max, index - 1, end, score + words[index - 1].weight)
    ensures Passed(words, max, index, end, score)
  {
    if index < |words| {
      assert words[index - 1].end <= words[index].start;
    }
  }

  /** The offset of the first matching word in the earliest heaviest window, or 0 when no window matches. */
  ghost predicate StartsBest(words: seq<Word>, max: nat, start: nat) {
    if exists i: nat :: i < |words| && Score(words, i, max) > 0
    then exists b: nat :: Best(words, max, b) && FirstMatch(words, b) < |words| && start == words[FirstMatch(words, b)].start
    else start == 0
  }

  lemma OneBest(words: seq<Word>, max: nat, a: nat, b: nat)
    requires Best(words, max, a) && Best(words, max, b)
    ensures a == b
  {
  }

  method BestWindowStart(words: seq<Word>, max: nat) returns (start: nat)
    requires Ascending(words)
    ensures StartsBest(words, max, start)
  {
    var bestIndex, bestScore, score, end, index := 0, 0, 0, 0, 0;
    while index < |words|
      invariant Passed(words, max, index, end, score) && BestSoFar(words, max, index, bestIndex, bestScore)
    {
      score, end := ExtendWindow(words, max, index, end, score);
      BestStep(words, max, index, bestIndex, bestScore, score);
      if score > bestScore {
        bestIndex, bestScore := index, score;
      }
      score := score - words[index].weight;
      index := index + 1;
      MoveOn(words, max, index, end, score);
    }
    if bestScore == 0 {
      return 0;
    }
    BestFound(words, max, bestIndex, bestScore);
    return words[FirstMatch(words, bestIndex)].start;
  }

  // ----- where the quote starts and ends

  predicate SentenceBreak(text: string, at: int) {
    2 <= at <= |text| && text[at - 2] in ".!?;" && text[at - 1] == ' '
  }

  /** The end of the last sentence break inside `text[floor..start]`. */
  function LastBreak(text: string, floor: nat, start: nat): (r: Option<nat>)
    requires floor <= start <= |text|
    ensures r.Some? ==> floor + 2 <= r.value <= start && SentenceBreak(text, r.value)
    ensures forall k :: (if r.Some? then r.value else floor + 1) < k <= start ==> !SentenceBreak(text, k)
    decreases start
  {
    if start < floor + 2 then None
    else if SentenceBreak(text, start) then Some(start)
    else LastBreak(text, floor, start - 1)
  }

  /** Back to the start of the sentence when that costs a quarter of the quote at most. */
  function SentenceStart(text: string, start: nat, max: nat): (r: nat)
    requires start <= |text|
    ensures r <= start <= r + max / 4
    ensures r == 0 || r == start || SentenceBreak(text, r)
    ensures r < start && r > 0 ==> forall k :: r < k <= start ==> !SentenceBreak(text, k)
  {
    match LastBreak(text, Max(0, start - max / 4), start)
    case Some(at) => at
    case None => if start <= max / 4 then 0 else start
  }

  /** `str.rfind`, -1 when there is none. */
  function RFind(text: string, pattern: string, last: int): (r: int)
    ensures -1 <= r
    ensures r >= 0 ==> r <= last && OccursAt(text, pattern, r)
    ensures forall k :: r < k <= last ==> !OccursAt(text, pattern, k)
    decreases last + 1
  {
    if last < 0 then -1
    else if OccursAt(text, pattern, last) then last
    else RFind(text, pattern, last - 1)
  }

  /** The bounds left by `str.strip`. */
  function Stripped(text: string, from: nat, upTo: nat): (r: (nat, nat))
    requires from <= upTo <= |text|
    ensures from <= r.0 <= r.1 <= upTo
    ensures forall k :: from <= k < r.0 || r.1 <= k < upTo ==> text[k] == ' '
    ensures r.0 < r.1 ==> text[r.0] != ' ' && text[r.1 - 1] != ' '
    decreases upTo - from
  {
    if from == upTo then (from, upTo)
    else if text[from] == ' ' then Stripped(text, from + 1, upTo)
    else if text[upTo - 1] == ' ' then Stripped(text, from, upTo - 1)
    else (from, upTo)
  }

  /** How many characters of the window stay. */
  function Kept(window: string, max: nat): (r: nat)
    ensures r <= |window|
  {
    var sentenceEnd := Max(RFind(window, ". ", |window|), RFind(window, "; ", |window|));
    var space := RFind(window, " ", |window|);
    if sentenceEnd >= max / 2 then sentenceEnd + 1 else if space > 0 then space else |window|
  }

  function Bounded(text: string, start: nat, max: nat): (r: (nat, nat))
    requires start <= |text|
    ensures start <= r.0 <= r.1 <= |text| && r.1 - r.0 <= max
  {
    if start + max >= |text| then Stripped(text, start, |text|)
    else Stripped(text, start, start + Kept(text[start..start + max], max))
  }

  /** A word that begins in the first quarter of the window and is at most a quarter long is not cut off. */
  lemma BoundedKeepsWord(text: string, start: nat, max: nat, w: Word)
    requires start <= |text| && Whole(text, w)
    requires start <= w.start <= start + max / 4 && w.end - w.start <= max / 4
    ensures Bounded(text, start, max).0 <= w.start && w.end <= Bounded(text, start, max).1
  {
    if start + max < |text| {
      KeptHoldsWord(text, start, max, w);
      StrippedKeepsWord(text, start, start + Kept(text[start..start + max], max), w);
    } else {
      StrippedKeepsWord(text, start, |text|, w);
    }
  }

  lemma StrippedKeepsWord(text: string, from: nat, upTo: nat, w: Word)
    requires Whole(text, w) && from <= w.start && w.end <= upTo <= |text|
    ensures Stripped(text, from, upTo).0 <= w.start && w.end <= Stripped(text, from, upTo).1
  {
    var r := Stripped(text, from, upTo);
    assert text[w.start] != ' ' && text[w.end - 1] != ' ';
  }

  lemma KeptHoldsWord(text: string, start: nat, max: nat, w: Word)
    requires start + max < |text| && Whole(text, w)
    requires start <= w.start <= start + max / 4 && w.end - w.start <= max / 4
    ensures w.end <= start + Kept(text[start..start + max], max)
  {
    var window := text[start..start + max];
    var space := RFind(window, " ", |window|);
    var at := w.end - start;
    assert window[at] == text[w.end] == ' ';
    assert window[at..at + 1] == " ";
    assert OccursAt(window, " ", at);
  }

  // ----- the quote

  /** From `at` to `end` the first match of window `b` stands whole if that word is at most a quarter of a quote long. */
  ghost predicate HoldsMatch(words: seq<Word>, max: nat, at: int, end: int, b: nat)
    requires b <= |words|
  {
    && FirstMatch(words, b) < |words|
    && var word := words[FirstMatch(words, b)];
       (word.end - word.start <= max / 4 ==> at <= word.start && word.end <= end)
  }

  /** The quote stands at `at` and, when it had to be cut, holds the first match of the heaviest window. */
  ghost predicate QuotesAt(text: string, words: seq<Word>, max: nat, quote: string, at: int) {
    && OccursAt(text, quote, at)
    && (|text| > max ==> forall b: nat :: Best(words, max, b) ==> HoldsMatch(words, max, at, at + |quote|, b))
  }

  /** The quote is what is left of the window behind the sentence start when it is cut at a break and stripped. */
  ghost predicate IsCut(text: string, max: nat, start: nat, quote: string) {
    start <= |text| && var bounds := Bounded(text, SentenceStart(text, start, max), max); quote == text[bounds.0..bounds.1]
  }

  lemma LastMark(window: string, c: char)
    ensures var r := RFind(window, [c, ' '], |window|); r >= 0 ==> r + 1 < |window| && window[r] == c && window[r + 1] == ' '
    ensures forall k: nat :: RFind(window, [c, ' '], |window|) < k && k + 1 < |window| ==> !(window[k] == c && window[k + 1] == ' ')
  {
    var r := RFind(window, [c, ' '], |window|);
    if r >= 0 {
      TwoCharacters(window, c, r);
    }
    forall k: nat | r < k && k + 1 < |window|
      ensures !(window[k] == c && window[k + 1] == ' ')
    {
      TwoCharacters(window, c, k);
    }
  }

  lemma TwoCharacters(window: string, c: char, k: nat)
    ensures OccursAt(window, [c, ' '], k) <==> k + 1 < |window| && window[k] == c && window[k + 1] == ' '
  {
    if k + 1 < |window| {
      assert window[k..k + 2] == [window[k], window[k + 1]];
    }
  }

  lemma OneCharacter(window: string, c: char, k: nat)
    ensures OccursAt(window, [c], k) <==> k < |window| && window[k] == c
  {
    if k < |window| {
      assert window[k..k + 1] == [window[k]];
    }
  }

  lemma LastBlankOf(window: string)
    ensures var r := RFind(window, " ", |window|); (r >= 0 ==> r < |window| && window[r] == ' ') && forall k: nat :: r < k < |window| ==> window[k] != ' '
  {
    var r := RFind(window, " ", |window|);
    if r >= 0 {
      OneCharacter(window, ' ', r);
    }
    forall k: nat | r < k < |window|
      ensures window[k] != ' '
    {
      OneCharacter(window, ' ', k);
      assert !OccursAt(window, " ", k);
    }
  }

  /** The last sentence or clause end and the last blank. */
  lemma LastEnds(window: string) returns (end: int, blank: int)
    ensures end == Max(RFind(window, ". ", |window|), RFind(window, "; ", |window|)) && blank == RFind(window, " ", |window|)
    ensures -1 <= end && (end >= 0 ==> ClauseEnd(window, end)) && forall k: nat :: end < k ==> !ClauseEnd(window, k)
    ensures -1 <= blank < |window| && (blank >= 0 ==> window[blank] == ' ') && forall k: nat :: blank < k < |window| ==> window[k] != ' '
  {
    end, blank := Max(RFind(window, ". ", |window|), RFind(window, "; ", |window|)), RFind(window, " ", |window|);
    LastMark(window, '.');
    LastMark(window, ';');
    LastBlankOf(window);
  }

  /** A window is cut behind its last sentence or clause end when that keeps half of it, or else at its last blank. */
  lemma KeptBreaks(window: string, max: nat)
    ensures var r := Kept(window, max);
            if exists k: nat :: max / 2 <= k && ClauseEnd(window, k)
            then 0 < r && ClauseEnd(window, r - 1) && forall k: nat :: r <= k ==> !ClauseEnd(window, k)
            else if exists k: nat :: 0 < k < |window| && window[k] == ' '
            then 0 < r < |window| && window[r] == ' ' && forall k: nat :: r < k < |window| ==> window[k] != ' '
            else r == |window|
  {
    var end, blank := LastEnds(window);
    if end >= max / 2 {
      assert max / 2 <= end && ClauseEnd(window, end);
    }
  }

  predicate ClauseEnd(window: string, k: nat) { k + 1 < |window| && (window[k] == '.' || window[k] == ';') && window[k + 1] == ' ' }

  /** The contiguous passage of `text` that best matches the weighted terms. */
  method SupportingQuote(text: string, weigh: string -> nat, max: nat) returns (quote: string)
    ensures |quote| <= max && (|text| <= max ==> quote == text)
    ensures exists at :: QuotesAt(text, Words(text, 0, weigh), max, quote, at)
    ensures |text| > max ==> exists start :: StartsBest(Words(text, 0, weigh), max, start) && IsCut(text, max, start, quote)
  {
    var words := Words(text, 0, weigh);
    if |text| <= max {
      assert QuotesAt(text, words, max, text, 0);
      return text;
    }
    WordsAscend(text, 0, weigh);
    var start := BestWindowStart(words, max);
    StartIsInside(text, words, max, start);
    ghost var at;
    quote, at := CutQuote(text, words, max, start);
  }

  lemma StartIsInside(text: string, words: seq<Word>, max: nat, start: nat)
    requires (forall k :: 0 <= k < |words| ==> Whole(text, words[k])) && StartsBest(words, max, start)
    ensures start <= |text|
  {
  }

  method CutQuote(text: string, ghost words: seq<Word>, max: nat, start: nat) returns (quote: string, ghost at: int)
    requires |text| > max && start <= |text| && StartsBest(words, max, start)
    requires Ascending(words) && (forall k :: 0 <= k < |words| ==> Whole(text, words[k]))
    ensures |quote| <= max && QuotesAt(text, words, max, quote, at) && IsCut(text, max, start, quote)
  {
    var bounds := Bounded(text, SentenceStart(text, start, max), max);
    quote, at := text[bounds.0..bounds.1], bounds.0;
    SliceOccurs(text, bounds.0, bounds.1);
    HoldsEveryFirstMatch(text, words, max, start, bounds.0, bounds.1);
  }

  lemma SliceOccurs(text: string, at: nat, end: nat)
    requires at <= end <= |text|
    ensures OccursAt(text, text[at..end], at)
  {
  }

  lemma HoldsEveryFirstMatch(text: string, words: seq<Word>, max: nat, start: nat, at: nat, end: nat)
    requires start <= |text| && StartsBest(words, max, start)
    requires Ascending(words) && (forall k :: 0 <= k < |words| ==> Whole(text, words[k]))
    requires Bounded(text, SentenceStart(text, start, max), max) == (at, end)
    ensures forall b: nat :: Best(words, max, b) ==> HoldsMatch(words, max, at, end, b)
  {
    forall b: nat | Best(words, max, b)
      ensures HoldsMatch(words, max, at, end, b)
    {
      HoldsFirstMatch(text, words, max, start, b);
    }
  }

  lemma HoldsFirstMatch(text: string, words: seq<Word>, max: nat, start: nat, b: nat)
    requires Ascending(words) && (forall k :: 0 <= k < |words| ==> Whole(text, words[k]))
    requires start <= |text| && StartsBest(words, max, start) && Best(words, max, b)
    ensures var bounds := Bounded(text, SentenceStart(text, start, max), max); HoldsMatch(words, max, bounds.0, bounds.1, b)
  {
    var best: nat :| Best(words, max, best) && FirstMatch(words, best) < |words| && start == words[FirstMatch(words, best)].start;
    OneBest(words, max, best, b);
    var word := words[FirstMatch(words, b)];
    if word.end - word.start <= max / 4 {
      BoundedKeepsWord(text, SentenceStart(text, start, max), max, word);
    }
  }
}
