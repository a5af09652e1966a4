/** Packing split paragraphs into chunks that overlap (app/rag/chunking.py:87-178, 211-217). */
module SectionChunking {
  import opened Common
  import Chunking

  datatype Piece = Piece(page: int, text: string)

  datatype Section = Section(title: Option<string>, paragraphs: seq<Piece>)

  datatype Chunk = Chunk(index: nat, text: string, title: Option<string>, pageStart: int, pageEnd: int)

  /** The constructor refuses an overlap that is not below the target. */
  datatype Policy = Policy(target: nat, overlap: nat) {
    predicate Valid() { overlap < target }
  }

  // ----- the tail carried into the next chunk

  function FirstBlank(text: string): nat {
    if text == [] || text[0] == ' ' then 0 else 1 + FirstBlank(text[1..])
  }

  /** `_word_aligned_tail`. A zero overlap slices the whole paragraph. */
  function Tail(paragraph: string, overlap: nat): string {
    var tail := LongTail(paragraph, overlap);
    var blank := FirstBlank(tail);
    if blank < |tail| - 1 then tail[blank + 1..] else tail
  }

  function LongTail(paragraph: string, overlap: nat): string {
    if overlap == 0 || overlap >= |paragraph| then paragraph else paragraph[|paragraph| - overlap..]
  }

  predicate Suffix(tail: string, text: string) { |tail| <= |text| && tail == text[|text| - |tail|..] }

  /** The tail is the longest end of the paragraph of at most an overlap, or what of it is behind its first blank; a zero
      overlap takes the whole paragraph. */
  lemma TailIsTheEnd(paragraph: string, overlap: nat)
    requires paragraph != []
    ensures var tail, longest := Tail(paragraph, overlap), if overlap == 0 then |paragraph| else Min(overlap, |paragraph|);
            && tail != [] && Suffix(tail, paragraph) && |tail| <= longest
            && (|tail| < longest ==> paragraph[|paragraph| - |tail| - 1] == ' ')
            && forall k :: |paragraph| - longest <= k < |paragraph| - |tail| - 1 ==> paragraph[k] != ' '
  {
    var long := LongTail(paragraph, overlap);
    var blank := FirstBlank(long);
    FirstBlankIsBlank(long);
    assert Suffix(long, paragraph);
    if blank < |long| - 1 {
      assert long[blank + 1..] == paragraph[|paragraph| - |long| + blank + 1..];
    }
  }

  lemma {:induction false} FirstBlankIsBlank(text: string)
    ensures FirstBlank(text) <= |text| && (FirstBlank(text) < |text| ==> text[FirstBlank(text)] == ' ')
    ensures forall k :: 0 <= k < FirstBlank(text) ==> text[k] != ' '
  {
    if text != [] && text[0] != ' ' {
      FirstBlankIsBlank(text[1..]);
    }
  }

  function Carried(p: Policy, buffer: seq<Piece>): seq<Piece> {
    if buffer == [] then []
    else
      var last := buffer[|buffer| - 1];
      if |last.text| > p.overlap then [Piece(last.page, Tail(last.text, p.overlap))] else []
  }

  /** When a piece no longer fits a chunk, and what a finished chunk hands on to the next. */
  datatype Packer = Packer(full: (seq<Piece>, Piece) -> bool, carry: seq<Piece> -> seq<Piece>)

  function PackerOf(p: Policy): Packer {
    Packer((buffer: seq<Piece>, piece: Piece) => Size(buffer) + |piece.text| > p.target, (buffer: seq<Piece>) => Carried(p, buffer))
  }

  // ----- packing, one piece after another

  function Size(buffer: seq<Piece>): nat {
    if buffer == [] then 0 else Size(buffer[..|buffer| - 1]) + |buffer[|buffer| - 1].text|
  }

  function Split(p: Policy, paragraph: Piece): seq<Piece>
    requires p.Valid()
  {
    if |paragraph.text| <= p.target then [paragraph]
    else OnPage(paragraph.page, Chunking.Pieces(paragraph.text, p.target - p.overlap))
  }

  function OnPage(page: int, texts: seq<string>): (r: seq<Piece>)
    ensures |r| == |texts| && forall i :: 0 <= i < |r| ==> r[i] == Piece(page, texts[i])
  {
    if texts == [] then [] else OnPage(page, texts[..|texts| - 1]) + [Piece(page, texts[|texts| - 1])]
  }

  function AllPieces(p: Policy, paragraphs: seq<Piece>): seq<Piece>
    requires p.Valid()
  {
    if paragraphs == [] then []
    else AllPieces(p, paragraphs[..|paragraphs| - 1]) + Split(p, paragraphs[|paragraphs| - 1])
  }

  /** Finished chunks and the buffer being filled. */
  datatype Packing = Packing(done: seq<seq<Piece>>, buffer: seq<Piece>)

  function Add(k: Packer, s: Packing, piece: Piece): Packing {
    if k.full(s.buffer, piece) && s.buffer != [] then
      Packing(s.done + [s.buffer], k.carry(s.buffer) + [piece])
    else Packing(s.done, s.buffer + [piece])
  }

  /** The packing after the first `n` pieces. */
  function Packed(k: Packer, pieces: seq<Piece>, n: nat): Packing
    requires n <= |pieces|
    decreases n
  {
    if n == 0 then Packing([], []) else Add(k, Packed(k, pieces, n - 1), pieces[n - 1])
  }

  function Closed(s: Packing): seq<seq<Piece>> { if s.buffer == [] then s.done else s.done + [s.buffer] }

  /** The pieces of a section's chunks. */
  function SectionChunks(p: Policy, paragraphs: seq<Piece>): seq<seq<Piece>>
    requires p.Valid()
  {
    Closed(Packed(PackerOf(p), AllPieces(p, paragraphs), |AllPieces(p, paragraphs)|))
  }

  // ----- what the chunks hold

  function CarriedFrom(k: Packer, chunks: seq<seq<Piece>>): (r: seq<Piece>) {
    if chunks == [] then [] else k.carry(chunks[|chunks| - 1])
  }

  /** The chunks without what each carries over from the one before. */
  function AllOwn(k: Packer, chunks: seq<seq<Piece>>): seq<Piece> {
    if chunks == [] then []
    else
      var n := |chunks| - 1;
      AllOwn(k, chunks[..n]) + Own(CarriedFrom(k, chunks[..n]), chunks[n])
  }

  function Own(carried: seq<Piece>, chunk: seq<Piece>): seq<Piece> { if carried <= chunk then chunk[|carried|..] else [] }

  /** Every chunk starts with what the one before carries over and holds something of its own. */
  ghost predicate Overlapping(k: Packer, chunks: seq<seq<Piece>>) {
    chunks != [] ==>
      var n := |chunks| - 1;
      CarriedFrom(k, chunks[..n]) < chunks[n] && Overlapping(k, chunks[..n])
  }

  lemma OneMoreChunk(k: Packer, done: seq<seq<Piece>>, chunk: seq<Piece>)
    ensures AllOwn(k, done + [chunk]) == AllOwn(k, done) + Own(CarriedFrom(k, done), chunk)
    ensures Overlapping(k, done + [chunk]) <==> CarriedFrom(k, done) < chunk && Overlapping(k, done)
  {
    assert (done + [chunk])[..|done|] == done;
  }

  /** Dropping the carried tails yields every piece once and in order, and no chunk is only a carried tail. */
  lemma PackedHoldsPieces(k: Packer, pieces: seq<Piece>, n: nat)
    requires n <= |pieces|
    ensures Holds(k, Packed(k, pieces, n), pieces[..n])
  {
    PackingHolds(k, pieces, n, Packed(k, pieces, n), pieces[..n]);
  }

  lemma {:induction false} PackingHolds(k: Packer, pieces: seq<Piece>, n: nat, s: Packing, taken: seq<Piece>)
    requires n <= |pieces| && s == Packed(k, pieces, n) && taken == pieces[..n]
    ensures Holds(k, s, taken)
    decreases n
  {
    if n == 0 {
      assert s == Packing([], []) && Closed(s) == [];
    } else {
      var earlier, before := Packed(k, pieces, n - 1), pieces[..n - 1];
      TakeOneMore(pieces, n - 1);
      PackingHolds(k, pieces, n - 1, earlier, before);
      AddHolds(k, earlier, s, pieces[n - 1], before, taken);
    }
  }

  ghost predicate Holds(k: Packer, s: Packing, pieces: seq<Piece>) {
    && Overlapping(k, Closed(s)) && AllOwn(k, Closed(s)) == pieces
    && (s.buffer == [] ==> s.done == [])
  }

  lemma AddHolds(k: Packer, s: Packing, t: Packing, piece: Piece, before: seq<Piece>, after: seq<Piece>)
    requires Holds(k, s, before) && t == Add(k, s, piece) && after == before + [piece]
    ensures Holds(k, t, after)
  {
    if s.buffer == [] {
      assert s.buffer + [piece] == [piece];
      OneMoreChunk(k, [], [piece]);
      assert AllOwn(k, []) == [] && Overlapping(k, []);
    } else if k.full(s.buffer, piece) {
      OneMoreChunk(k, s.done + [s.buffer], k.carry(s.buffer) + [piece]);
      assert CarriedFrom(k, s.done + [s.buffer]) == k.carry(s.buffer);
      assert (k.carry(s.buffer) + [piece])[|k.carry(s.buffer)|..] == [piece];
    } else {
      AddToBuffer(k, s.done, s.buffer, piece);
    }
  }

  lemma AddToBuffer(k: Packer, done: seq<seq<Piece>>, buffer: seq<Piece>, piece: Piece)
    requires Overlapping(k, done + [buffer])
    ensures Overlapping(k, done + [buffer + [piece]])
    ensures AllOwn(k, done + [buffer + [piece]]) == AllOwn(k, done + [buffer]) + [piece]
  {
    var carried := CarriedFrom(k, done);
    OneMoreChunk(k, done, buffer);
    OneMoreChunk(k, done, buffer + [piece]);
    assert (buffer + [piece])[|carried|..] == buffer[|carried|..] + [piece];
    Regroup(AllOwn(k, done), buffer[|carried|..], [piece]);
  }

  // ----- the chunks cover the section

  function Concat(groups: seq<seq<Piece>>): seq<Piece> {
    if groups == [] then [] else Concat(groups[..|groups| - 1]) + groups[|groups| - 1]
  }

  function Texts(pieces: seq<Piece>): (r: seq<string>)
    ensures |r| == |pieces| && forall i :: 0 <= i < |r| ==> r[i] == pieces[i].text
  {
    seq(|pieces|, i requires 0 <= i < |pieces| => pieces[i].text)
  }

  /** The pieces lie on the paragraph's page and cover its text in order with only white space between them. */
  ghost predicate Cover(paragraph: Piece, pieces: seq<Piece>) {
    OnOnePage(pieces, paragraph.page) && Chunking.Tiles(paragraph.text, 0, Texts(pieces))
  }

  lemma SplitCovers(p: Policy, paragraph: Piece)
    requires p.Valid() && paragraph.text != [] && Chunking.Trimmed(paragraph.text)
    ensures Cover(paragraph, Split(p, paragraph))
  {
    var text := paragraph.text;
    if |text| <= p.target {
      assert text[0..|text|] == text;
      Chunking.LastPiece(text, 0, text);
      assert Texts([paragraph]) == [text];
    } else {
      var pieces := Chunking.Pieces(text, p.target - p.overlap);
      Chunking.PiecesTile(text, p.target - p.overlap);
      assert Texts(OnPage(paragraph.page, pieces)) == pieces;
    }
  }

  lemma {:induction false} AllPiecesAre(p: Policy, paragraphs: seq<Piece>, groups: seq<seq<Piece>>)
    requires p.Valid() && |groups| == |paragraphs| && forall i :: 0 <= i < |groups| ==> groups[i] == Split(p, paragraphs[i])
    ensures AllPieces(p, paragraphs) == Concat(groups)
    decreases |paragraphs|
  {
    if paragraphs != [] {
      AllPiecesAre(p, paragraphs[..|paragraphs| - 1], groups[..|groups| - 1]);
    }
  }

  /** Without their carried tails the chunks of a section cover its text: cut into one group for every paragraph, each
      group covers that paragraph in order up to white space. */
  lemma ChunksCoverSection(p: Policy, paragraphs: seq<Piece>) returns (groups: seq<seq<Piece>>)
    requires p.Valid() && forall i :: 0 <= i < |paragraphs| ==> paragraphs[i].text != [] && Chunking.Trimmed(paragraphs[i].text)
    ensures AllOwn(PackerOf(p), SectionChunks(p, paragraphs)) == Concat(groups)
    ensures |groups| == |paragraphs| && forall i :: 0 <= i < |groups| ==> Cover(paragraphs[i], groups[i])
  {
    groups := seq(|paragraphs|, i requires 0 <= i < |paragraphs| => Split(p, paragraphs[i]));
    var pieces := AllPieces(p, paragraphs);
    PackedHoldsPieces(PackerOf(p), pieces, |pieces|);
    assert pieces[..|pieces|] == pieces;
    AllPiecesAre(p, paragraphs, groups);
    forall i | 0 <= i < |groups|
      ensures Cover(paragraphs[i], groups[i])
    {
      SplitCovers(p, paragraphs[i]);
    }
  }

  lemma {:induction false} OverlappingAt(k: Packer, chunks: seq<seq<Piece>>, i: nat)
    requires Overlapping(k, chunks) && i + 1 < |chunks|
    ensures k.carry(chunks[i]) < chunks[i + 1]
    decreases |chunks|
  {
    var n := |chunks| - 1;
    if i + 1 < n {
      OverlappingAt(k, chunks[..n], i);
    } else {
      assert chunks[..n][|chunks[..n]| - 1] == chunks[i];
    }
  }

  /** A chunk behind another starts with the end of that one's last piece, or anew when that piece is no longer than an
      overlap. */
  lemma ChunksOverlap(p: Policy, paragraphs: seq<Piece>, i: nat)
    requires p.Valid() && i + 1 < |SectionChunks(p, paragraphs)| && SectionChunks(p, paragraphs)[i] != []
    ensures var chunk, next := SectionChunks(p, paragraphs)[i], SectionChunks(p, paragraphs)[i + 1];
            var last := chunk[|chunk| - 1];
            && next != []
            && (|last.text| > p.overlap ==>
                  |next| >= 2 && next[0].page == last.page && next[0].text != [] && Suffix(next[0].text, last.text)
                  && (p.overlap >= 1 ==> |next[0].text| <= p.overlap))
  {
    var k, pieces := PackerOf(p), AllPieces(p, paragraphs);
    PackedHoldsPieces(k, pieces, |pieces|);
    var chunk, next := SectionChunks(p, paragraphs)[i], SectionChunks(p, paragraphs)[i + 1];
    OverlappingAt(k, SectionChunks(p, paragraphs), i);
    CarriedIsTail(p, chunk, next);
  }

  lemma CarriedIsTail(p: Policy, chunk: seq<Piece>, next: seq<Piece>)
    requires chunk != [] && Carried(p, chunk) < next
    ensures var last := chunk[|chunk| - 1];
            && next != []
            && (|last.text| > p.overlap ==>
                  |next| >= 2 && next[0].page == last.page && next[0].text != [] && Suffix(next[0].text, last.text)
                  && (p.overlap >= 1 ==> |next[0].text| <= p.overlap))
  {
    var last := chunk[|chunk| - 1];
    if |last.text| > p.overlap {
      TailIsTheEnd(last.text, p.overlap);
    }
  }

  // ----- a chunk ends only where the next piece would not fit

  ghost predicate FullBefore(k: Packer, chunk: seq<Piece>, next: seq<Piece>) { |k.carry(chunk)| < |next| && k.full(chunk, next[|k.carry(chunk)|]) }

  ghost predicate Greedy(k: Packer, s: Packing) {
    && (forall i :: 0 <= i && i + 1 < |s.done| ==> FullBefore(k, s.done[i], s.done[i + 1]))
    && (s.done != [] ==> s.buffer != [] && FullBefore(k, s.done[|s.done| - 1], s.buffer))
  }

  lemma AddIsGreedy(k: Packer, s: Packing, piece: Piece)
    requires Greedy(k, s)
    ensures Greedy(k, Add(k, s, piece))
  {
  }

  lemma {:induction false} PackedIsGreedy(k: Packer, pieces: seq<Piece>, n: nat)
    requires n <= |pieces|
    ensures Greedy(k, Packed(k, pieces, n))
    decreases n
  {
    if n > 0 {
      PackedIsGreedy(k, pieces, n - 1);
      AddIsGreedy(k, Packed(k, pieces, n - 1), pieces[n - 1]);
    }
  }

  lemma ClosedIsGreedy(k: Packer, s: Packing, i: nat)
    requires Greedy(k, s) && i + 1 < |Closed(s)|
    ensures FullBefore(k, Closed(s)[i], Closed(s)[i + 1])
  {
  }

  lemma NeighboursAreFull(p: Policy, chunk: seq<Piece>, next: seq<Piece>)
    requires FullBefore(PackerOf(p), chunk, next)
    ensures |Carried(p, chunk)| < |next| && Size(chunk) + |next[|Carried(p, chunk)|].text| > p.target
  {
  }

  /** The first piece of a chunk that is not carried over would have taken the chunk before past the target. */
  lemma ChunksAreFull(p: Policy, paragraphs: seq<Piece>, i: nat)
    requires p.Valid() && i + 1 < |SectionChunks(p, paragraphs)|
    ensures var chunk, next := SectionChunks(p, paragraphs)[i], SectionChunks(p, paragraphs)[i + 1];
            |Carried(p, chunk)| < |next| && Size(chunk) + |next[|Carried(p, chunk)|].text| > p.target
  {
    var k, pieces := PackerOf(p), AllPieces(p, paragraphs);
    var s := Packed(k, pieces, |pieces|);
    PackedIsGreedy(k, pieces, |pieces|);
    ClosedIsGreedy(k, s, i);
    NeighboursAreFull(p, Closed(s)[i], Closed(s)[i + 1]);
  }

  // ----- how long the chunks are

  lemma {:induction false} SizeAdds(buffer: seq<Piece>, piece: Piece)
    ensures Size(buffer + [piece]) == Size(buffer) + |piece.text|
  {
    assert (buffer + [piece])[..|buffer|] == buffer;
  }

  ghost predicate Fits(p: Policy, chunk: seq<Piece>) { Size(chunk) <= p.target + p.overlap }

  ghost predicate PackingFits(p: Policy, s: Packing) {
    (forall i :: 0 <= i < |s.done| ==> Fits(p, s.done[i])) && Fits(p, s.buffer)
  }

  /** A piece is kept out when the target would be passed, and what is carried is short. */
  ghost predicate Fitting(p: Policy, k: Packer) {
    && (forall buffer, piece :: !k.full(buffer, piece) ==> Size(buffer) + |piece.text| <= p.target)
    && (forall buffer :: Size(k.carry(buffer)) <= p.overlap)
  }

  lemma PackerFits(p: Policy)
    requires p.overlap >= 1
    ensures Fitting(p, PackerOf(p))
  {
    forall buffer
      ensures Size(PackerOf(p).carry(buffer)) <= p.overlap
    {
      CarriedIsShort(p, buffer);
    }
  }

  lemma AddFits(p: Policy, k: Packer, s: Packing, piece: Piece, t: Packing)
    requires Fitting(p, k) && |piece.text| <= p.target && PackingFits(p, s) && t == Add(k, s, piece)
    ensures PackingFits(p, t)
  {
    var full, carried := k.full(s.buffer, piece), k.carry(s.buffer);
    assert Size(carried) <= p.overlap && (!full ==> Size(s.buffer) + |piece.text| <= p.target);
    OneAddedFits(p, s, piece, full, carried, t);
  }

  lemma OneAddedFits(p: Policy, s: Packing, piece: Piece, full: bool, carried: seq<Piece>, t: Packing)
    requires |piece.text| <= p.target && PackingFits(p, s) && Size(carried) <= p.overlap
    requires !full ==> Size(s.buffer) + |piece.text| <= p.target
    requires t == if full && s.buffer != [] then Packing(s.done + [s.buffer], carried + [piece]) else Packing(s.done, s.buffer + [piece])
    ensures PackingFits(p, t)
  {
    if full && s.buffer != [] {
      SizeAdds(carried, piece);
    } else {
      SizeAdds(s.buffer, piece);
    }
  }

  ghost predicate Short(p: Policy, pieces: seq<Piece>) { forall i :: 0 <= i < |pieces| ==> |pieces[i].text| <= p.target }

  lemma {:induction false} PackedFits(p: Policy, k: Packer, pieces: seq<Piece>, n: nat, s: Packing)
    requires Fitting(p, k) && Short(p, pieces) && n <= |pieces| && s == Packed(k, pieces, n)
    ensures PackingFits(p, s)
    decreases n
  {
    if n == 0 {
      assert s == Packing([], []);
    } else {
      var earlier := Packed(k, pieces, n - 1);
      PackedFits(p, k, pieces, n - 1, earlier);
      AddFits(p, k, earlier, pieces[n - 1], s);
    }
  }

  lemma CarriedIsShort(p: Policy, buffer: seq<Piece>)
    requires p.overlap >= 1
    ensures Size(Carried(p, buffer)) <= p.overlap
  {
    var carried := Carried(p, buffer);
    if carried != [] {
      TailIsTheEnd(buffer[|buffer| - 1].text, p.overlap);
      assert carried == [] + [carried[0]];
      SizeAdds([], carried[0]);
    }
  }

  lemma SplitIsShort(p: Policy, paragraph: Piece)
    requires p.Valid()
    ensures Short(p, Split(p, paragraph))
  {
    if |paragraph.text| > p.target {
      Chunking.PiecesFit(paragraph.text, p.target - p.overlap);
    }
  }

  lemma {:induction false} PiecesAreShort(p: Policy, paragraphs: seq<Piece>)
    requires p.Valid()
    ensures Short(p, AllPieces(p, paragraphs))
  {
    if paragraphs != [] {
      var last := paragraphs[|paragraphs| - 1];
      PiecesAreShort(p, paragraphs[..|paragraphs| - 1]);
      SplitIsShort(p, last);
    }
  }

  ghost predicate AllFit(p: Policy, paragraphs: seq<Piece>)
    requires p.Valid()
  {
    forall i :: 0 <= i < |SectionChunks(p, paragraphs)| ==> Fits(p, SectionChunks(p, paragraphs)[i])
  }

  /** Chunks stay within the target and one overlap for every section exactly when the overlap is not zero:
      a zero overlap carries the whole last piece. */
  lemma ChunksFitExactlyWithOverlap(p: Policy)
    requires p.Valid()
    ensures (forall paragraphs :: AllFit(p, paragraphs)) <==> p.overlap >= 1
  {
    if p.overlap >= 1 {
      forall paragraphs
        ensures AllFit(p, paragraphs)
      {
        PiecesAreShort(p, paragraphs);
        PackerFits(p);
        var pieces := AllPieces(p, paragraphs);
        PackedFits(p, PackerOf(p), pieces, |pieces|, Packed(PackerOf(p), pieces, |pieces|));
      }
    } else {
      ZeroOverlapDoubles(p);
    }
  }

  function Letters(n: nat): (r: string)
    ensures |r| == n && forall i :: 0 <= i < n ==> r[i] == 'a'
  {
    seq(n, _ => 'a')
  }

  lemma ZeroOverlapDoubles(p: Policy)
    requires p.Valid() && p.overlap == 0
    ensures exists paragraphs :: !AllFit(p, paragraphs)
  {
    var word := Piece(1, Letters(p.target));
    var two := [word, word];
    assert [] + [word] == [word];
    SizeAdds([], word);
    SizeAdds([word], word);
    PiecesOfTwo(p, word);
    PackTwo(PackerOf(p), word);
    NoBlank(word.text);
    assert Carried(p, [word]) == [word];
    assert SectionChunks(p, two)[1] == [word] + [word];
    assert !Fits(p, SectionChunks(p, two)[1]);
    assert !AllFit(p, two);
  }

  lemma PiecesOfTwo(p: Policy, word: Piece)
    requires p.Valid() && |word.text| <= p.target
    ensures AllPieces(p, [word, word]) == [word, word]
  {
    assert [word, word][..1] == [word] && [word][..0] == [];
    assert AllPieces(p, [word]) == [] + [word];
  }

  lemma PackTwo(k: Packer, word: Piece)
    requires k.full([word], word)
    ensures Closed(Packed(k, [word, word], 2)) == [[word], k.carry([word]) + [word]]
  {
    assert [] + [word] == [word];
    assert Packed(k, [word, word], 1) == Packing([], [word]);
    assert [] + [[word]] == [[word]];
  }

  lemma {:induction false} NoBlank(text: string)
    requires forall i :: 0 <= i < |text| ==> text[i] != ' '
    ensures FirstBlank(text) == |text|
  {
    if text != [] {
      NoBlank(text[1..]);
    }
  }

  // ----- sections of a document

  datatype Page = Page(number: int, paragraphs: seq<string>)

  function Flat(pages: seq<Page>): seq<Piece> {
    if pages == [] then [] else Flat(pages[..|pages| - 1]) + OnPage(pages[|pages| - 1].number, pages[|pages| - 1].paragraphs)
  }

  /** Page-preserving mode: every page with text is one untitled section. */
  function PageSections(pages: seq<Page>): seq<Section> {
    if pages == [] then []
    else
      var last := pages[|pages| - 1];
      PageSections(pages[..|pages| - 1]) + (if last.paragraphs == [] then [] else [Section(None, OnPage(last.number, last.paragraphs))])
  }

  /** Heading mode, before sections without text are dropped. */
  function Sectioned(heading: string -> bool, flat: seq<Piece>): (r: seq<Section>)
    ensures r != []
  {
    if flat == [] then [Section(None, [])]
    else
      var last, earlier := flat[|flat| - 1], Sectioned(heading, flat[..|flat| - 1]);
      if heading(last.text) then earlier + [Section(Some(last.text), [])]
      else
        var open := earlier[|earlier| - 1];
        earlier[..|earlier| - 1] + [Section(open.title, open.paragraphs + [last])]
  }

  function WithText(sections: seq<Section>): seq<Section> {
    if sections == [] then []
    else WithText(sections[..|sections| - 1]) + (if sections[|sections| - 1].paragraphs == [] then [] else [sections[|sections| - 1]])
  }

  function Body(heading: string -> bool, flat: seq<Piece>): seq<Piece> {
    if flat == [] then []
    else Body(heading, flat[..|flat| - 1]) + (if heading(flat[|flat| - 1].text) then [] else [flat[|flat| - 1]])
  }

  function AllParagraphs(sections: seq<Section>): seq<Piece> {
    if sections == [] then [] else AllParagraphs(sections[..|sections| - 1]) + sections[|sections| - 1].paragraphs
  }

  lemma {:induction false} WithTextKeepsText(sections: seq<Section>)
    ensures AllParagraphs(WithText(sections)) == AllParagraphs(sections)
  {
    if sections != [] {
      var n := |sections| - 1;
      WithTextKeepsText(sections[..n]);
      assert (WithText(sections[..n]) + [sections[n]])[..|WithText(sections[..n])|] == WithText(sections[..n]);
      assert AllParagraphs(sections[..n]) + [] == AllParagraphs(sections[..n]);
      assert WithText(sections[..n]) + [] == WithText(sections[..n]);
    }
  }

  /** Sections hold every paragraph that is no heading, in order. */
  lemma {:induction false} SectionedKeepsBody(heading: string -> bool, flat: seq<Piece>)
    ensures AllParagraphs(Sectioned(heading, flat)) == Body(heading, flat)
  {
    if flat == [] {
      assert [Section(None, [])][..0] == [];
    } else {
      var n := |flat| - 1;
      var earlier := Sectioned(heading, flat[..n]);
      SectionedKeepsBody(heading, flat[..n]);
      if heading(flat[n].text) {
        assert (earlier + [Section(Some(flat[n].text), [])])[..|earlier|] == earlier;
      } else {
        var open := earlier[|earlier| - 1];
        var now := earlier[..|earlier| - 1] + [Section(open.title, open.paragraphs + [flat[n]])];
        assert now[..|now| - 1] == earlier[..|earlier| - 1];
        Regroup(AllParagraphs(earlier[..|earlier| - 1]), open.paragraphs, [flat[n]]);
      }
    }
  }

  lemma {:induction false} PageSectionsKeepAll(pages: seq<Page>)
    ensures AllParagraphs(PageSections(pages)) == Flat(pages)
  {
    if pages != [] {
      var n := |pages| - 1;
      PageSectionsKeepAll(pages[..n]);
      var earlier := PageSections(pages[..n]);
      assert forall s: Section :: (earlier + [s])[..|earlier|] == earlier;
      assert earlier + [] == earlier && Flat(pages[..n]) + [] == Flat(pages[..n]);
    }
  }

  method SplitSections(heading: string -> bool, pages: seq<Page>) returns (sections: seq<Section>)
    ensures sections == WithText(Sectioned(heading, Flat(pages)))
    ensures AllParagraphs(sections) == Body(heading, Flat(pages))
  {
    var flat := Flat(pages);
    var all := [Section(None, [])];
    for i := 0 to |flat|
      invariant all == Sectioned(heading, flat[..i])
    {
      TakeOneMore(flat, i);
      var open := all[|all| - 1];
      if heading(flat[i].text) {
        all := all + [Section(Some(flat[i].text), [])];
      } else {
        all := all[..|all| - 1] + [Section(open.title, open.paragraphs + [flat[i]])];
      }
    }
    assert flat[..|flat|] == flat;
    SectionedKeepsBody(heading, flat);
    WithTextKeepsText(all);
    sections := WithText(all);
  }

  // ----- the chunks of a document

  function Joined(pieces: seq<Piece>): string {
    if pieces == [] then []
    else if |pieces| == 1 then pieces[0].text
    else Joined(pieces[..|pieces| - 1]) + "\n" + pieces[|pieces| - 1].text
  }

  function FirstPage(pieces: seq<Piece>): int
    requires pieces != []
  {
    if |pieces| == 1 then pieces[0].page else Min(FirstPage(pieces[..|pieces| - 1]), pieces[|pieces| - 1].page)
  }

  function LastPage(pieces: seq<Piece>): int
    requires pieces != []
  {
    if |pieces| == 1 then pieces[0].page else Max(LastPage(pieces[..|pieces| - 1]), pieces[|pieces| - 1].page)
  }

  function Made(title: Option<string>, index: nat, pieces: seq<Piece>): Chunk {
    var text := Joined(pieces);
    Chunk(index, if title == None then text else "[" + title.value + "]\n" + text, title,
          if pieces == [] then 0 else FirstPage(pieces), if pieces == [] then 0 else LastPage(pieces))
  }

  function MadeAll(title: Option<string>, start: nat, chunks: seq<seq<Piece>>): (r: seq<Chunk>)
    ensures |r| == |chunks| && forall i :: 0 <= i < |r| ==> r[i] == Made(title, start + i, chunks[i])
  {
    if chunks == [] then []
    else MadeAll(title, start, chunks[..|chunks| - 1]) + [Made(title, start + |chunks| - 1, chunks[|chunks| - 1])]
  }

  /** Where a piece stands in the text of its chunk. */
  function At(pieces: seq<Piece>, i: nat): nat
    requires i < |pieces|
  {
    Size(pieces[..i]) + i
  }

  lemma {:induction false} JoinedHolds(pieces: seq<Piece>, i: nat)
    requires i < |pieces|
    ensures |Joined(pieces)| == Size(pieces) + |pieces| - 1
    ensures At(pieces, i) + |pieces[i].text| <= |Joined(pieces)|
    ensures Joined(pieces)[At(pieces, i)..At(pieces, i) + |pieces[i].text|] == pieces[i].text
    decreases |pieces|
  {
    var n := |pieces| - 1;
    if n > 0 {
      var earlier := pieces[..n];
      JoinedHolds(earlier, if i < n then i else 0);
      if i < n {
        assert earlier[..i] == pieces[..i];
        assert Joined(pieces)[At(pieces, i)..At(pieces, i) + |pieces[i].text|] == Joined(earlier)[At(pieces, i)..At(pieces, i) + |pieces[i].text|];
      }
    } else {
      assert pieces[..0] == [];
    }
  }

  lemma {:induction false} PagesBetween(pieces: seq<Piece>, i: nat)
    requires i < |pieces|
    ensures FirstPage(pieces) <= pieces[i].page <= LastPage(pieces)
    ensures exists a :: 0 <= a < |pieces| && pieces[a].page == FirstPage(pieces)
    ensures exists b :: 0 <= b < |pieces| && pieces[b].page == LastPage(pieces)
    decreases |pieces|
  {
    var n := |pieces| - 1;
    if n > 0 {
      PagesBetween(pieces[..n], if i < n then i else 0);
    }
  }

  /** The text of a chunk is its pieces, one a line, behind its title. */
  lemma MadeHolds(title: Option<string>, index: nat, pieces: seq<Piece>, i: nat)
    requires i < |pieces|
    ensures var text, start := Made(title, index, pieces).text, if title == None then 0 else |title.value| + 3;
            && |text| == start + Size(pieces) + |pieces| - 1 && start + At(pieces, i) + |pieces[i].text| <= |text|
            && text[start + At(pieces, i)..start + At(pieces, i) + |pieces[i].text|] == pieces[i].text
            && (i > 0 ==> text[start + At(pieces, i) - 1] == '\n')
  {
    JoinedHolds(pieces, i);
    var text, whole := Joined(pieces), Made(title, index, pieces).text;
    var start := if title == None then 0 else |title.value| + 3;
    BehindTitle(title, index, pieces, start);
    Inside(whole, start, text, At(pieces, i), |pieces[i].text|);
    if i > 0 {
      LineBefore(pieces, i);
      assert whole[start..][At(pieces, i) - 1] == text[At(pieces, i) - 1];
    }
  }

  lemma BehindTitle(title: Option<string>, index: nat, pieces: seq<Piece>, start: nat)
    requires start == if title == None then 0 else |title.value| + 3
    ensures var whole := Made(title, index, pieces).text; start <= |whole| && whole[start..] == Joined(pieces)
  {
  }

  lemma Inside(whole: string, start: nat, text: string, at: nat, length: nat)
    requires start <= |whole| && whole[start..] == text && at + length <= |text|
    ensures |whole| == start + |text| && whole[start + at..start + at + length] == text[at..at + length]
  {
    assert whole[start..][at..at + length] == whole[start + at..start + at + length];
  }

  /** Its pages run from the first to the last of its pieces. */
  lemma MadeSpans(title: Option<string>, index: nat, pieces: seq<Piece>, i: nat)
    requires i < |pieces|
    ensures var chunk := Made(title, index, pieces);
            && chunk.pageStart <= pieces[i].page <= chunk.pageEnd
            && (exists a :: 0 <= a < |pieces| && pieces[a].page == chunk.pageStart) && exists b :: 0 <= b < |pieces| && pieces[b].page == chunk.pageEnd
  {
    PagesBetween(pieces, i);
  }

  lemma {:induction false} LineBefore(pieces: seq<Piece>, i: nat)
    requires 0 < i < |pieces|
    ensures At(pieces, i) <= |Joined(pieces)| && Joined(pieces)[At(pieces, i) - 1] == '\n'
    decreases |pieces|
  {
    var n := |pieces| - 1;
    JoinedHolds(pieces, i);
    JoinedHolds(pieces[..n], 0);
    if i < n {
      LineBefore(pieces[..n], i);
      assert pieces[..n][..i] == pieces[..i];
    }
  }

  function DocumentChunks(p: Policy, sections: seq<Section>): seq<Chunk>
    requires p.Valid()
  {
    if sections == [] then []
    else
      var earlier, last := DocumentChunks(p, sections[..|sections| - 1]), sections[|sections| - 1];
      earlier + MadeAll(last.title, |earlier|, SectionChunks(p, last.paragraphs))
  }

  /** Ids number the chunks of a document 0, 1, ... across its sections. */
  lemma {:induction false} IdsNumberChunks(p: Policy, sections: seq<Section>)
    requires p.Valid()
    ensures forall i :: 0 <= i < |DocumentChunks(p, sections)| ==> DocumentChunks(p, sections)[i].index == i
  {
    if sections != [] {
      IdsNumberChunks(p, sections[..|sections| - 1]);
    }
  }

  ghost predicate OnOnePage(pieces: seq<Piece>, page: int) { forall i :: 0 <= i < |pieces| ==> pieces[i].page == page }

  lemma {:induction false} SplitStaysOnPage(p: Policy, paragraphs: seq<Piece>, page: int)
    requires p.Valid() && OnOnePage(paragraphs, page)
    ensures OnOnePage(AllPieces(p, paragraphs), page)
  {
    if paragraphs != [] {
      SplitStaysOnPage(p, paragraphs[..|paragraphs| - 1], page);
      assert OnOnePage(Split(p, paragraphs[|paragraphs| - 1]), page);
    }
  }

  ghost predicate PackingOnPage(s: Packing, page: int) {
    (forall i :: 0 <= i < |s.done| ==> OnOnePage(s.done[i], page)) && OnOnePage(s.buffer, page)
  }

  lemma AddStaysOnPage(p: Policy, s: Packing, piece: Piece, page: int)
    requires PackingOnPage(s, page) && piece.page == page
    ensures PackingOnPage(Add(PackerOf(p), s, piece), page)
  {
  }

  lemma {:induction false} PackedOnPage(p: Policy, k: Packer, pieces: seq<Piece>, page: int, n: nat)
    requires OnOnePage(pieces, page) && n <= |pieces| && k == PackerOf(p)
    ensures PackingOnPage(Packed(k, pieces, n), page)
    decreases n
  {
    if n > 0 {
      PackedOnPage(p, k, pieces, page, n - 1);
      AddStaysOnPage(p, Packed(k, pieces, n - 1), pieces[n - 1], page);
    }
  }

  lemma {:induction false} PagesOfOnePage(pieces: seq<Piece>, page: int)
    requires pieces != [] && OnOnePage(pieces, page)
    ensures FirstPage(pieces) == page == LastPage(pieces)
  {
    if |pieces| > 1 {
      PagesOfOnePage(pieces[..|pieces| - 1], page);
    }
  }

  /** In page-preserving mode a chunk spans the one page of its section. */
  lemma ChunksStayOnPage(p: Policy, paragraphs: seq<Piece>, page: int, i: nat)
    requires p.Valid() && OnOnePage(paragraphs, page) && i < |SectionChunks(p, paragraphs)|
    ensures SectionChunks(p, paragraphs)[i] != []
    ensures FirstPage(SectionChunks(p, paragraphs)[i]) == page == LastPage(SectionChunks(p, paragraphs)[i])
  {
    var pieces := AllPieces(p, paragraphs);
    SplitStaysOnPage(p, paragraphs, page);
    PackedOnPage(p, PackerOf(p), pieces, page, |pieces|);
    PackedHoldsPieces(PackerOf(p), pieces, |pieces|);
    OverlappingNotEmpty(PackerOf(p), SectionChunks(p, paragraphs), i);
    PagesOfOnePage(SectionChunks(p, paragraphs)[i], page);
  }

  lemma {:induction false} OverlappingNotEmpty(k: Packer, chunks: seq<seq<Piece>>, i: nat)
    requires Overlapping(k, chunks) && i < |chunks|
    ensures chunks[i] != []
  {
    if i < |chunks| - 1 {
      OverlappingNotEmpty(k, chunks[..|chunks| - 1], i);
    }
  }

  // ----- the program

  method Flush(p: Policy, buffer: seq<Piece>) returns (next: seq<Piece>, size: nat)
    ensures next == Carried(p, buffer) && size == Size(next)
  {
    next := Carried(p, buffer);
    size := Size(next);
  }

  method PackPieces(p: Policy, pieces: seq<Piece>, s: Packing) returns (t: Packing)
    ensures t == AddAll(PackerOf(p), s, pieces)
  {
    t := s;
    var size := Size(s.buffer);
    for i := 0 to |pieces|
      invariant t == AddAll(PackerOf(p), s, pieces[..i]) && size == Size(t.buffer)
    {
      TakeOneMore(pieces, i);
      assert pieces[..i + 1][..i] == pieces[..i];
      var done, buffer := t.done, t.buffer;
      if size + |pieces[i].text| > p.target && buffer != [] {
        done := done + [buffer];
        buffer, size := Flush(p, buffer);
      }
      SizeAdds(buffer, pieces[i]);
      size := size + |pieces[i].text|;
      t := Packing(done, buffer + [pieces[i]]);
    }
    assert pieces[..|pieces|] == pieces;
  }

  function AddAll(k: Packer, s: Packing, pieces: seq<Piece>): Packing {
    if pieces == [] then s else Add(k, AddAll(k, s, pieces[..|pieces| - 1]), pieces[|pieces| - 1])
  }

  lemma {:induction false} AddAllIsPacked(k: Packer, before: seq<Piece>, pieces: seq<Piece>)
    ensures AddAll(k, Packed(k, before, |before|), pieces) == Packed(k, before + pieces, |before + pieces|)
    decreases |pieces|
  {
    if pieces == [] {
      assert before + pieces == before;
    } else {
      var n := |pieces| - 1;
      AddAllIsPacked(k, before, pieces[..n]);
      assert (before + pieces)[..|before| + n] == before + pieces[..n];
      PackedOfPrefix(k, before + pieces, before + pieces[..n], |before| + n);
    }
  }

  lemma {:induction false} PackedOfPrefix(k: Packer, all: seq<Piece>, prefix: seq<Piece>, n: nat)
    requires n <= |prefix| <= |all| && prefix == all[..|prefix|]
    ensures Packed(k, all, n) == Packed(k, prefix, n)
    decreases n
  {
    if n > 0 {
      PackedOfPrefix(k, all, prefix, n - 1);
      assert prefix[n - 1] == all[n - 1];
    }
  }

  method ChunkSection(p: Policy, section: Section, start: nat) returns (chunks: seq<Chunk>)
    requires p.Valid()
    ensures chunks == MadeAll(section.title, start, SectionChunks(p, section.paragraphs))
  {
    var packing := Packing([], []);
    ghost var pieces: seq<Piece> := [];
    for i := 0 to |section.paragraphs|
      invariant pieces == AllPieces(p, section.paragraphs[..i])
      invariant packing == Packed(PackerOf(p), pieces, |pieces|)
    {
      var paragraph := section.paragraphs[i];
      TakeOneMore(section.paragraphs, i);
      assert section.paragraphs[..i + 1][..i] == section.paragraphs[..i];
      var split := [paragraph];
      if |paragraph.text| > p.target {
        var texts := Chunking.SplitAtBoundaries(paragraph.text, p.target - p.overlap);
        split := OnPage(paragraph.page, texts);
      }
      packing := PackPieces(p, split, packing);
      AddAllIsPacked(PackerOf(p), pieces, split);
      pieces := pieces + split;
    }
    assert section.paragraphs[..|section.paragraphs|] == section.paragraphs;
    chunks := MadeAll(section.title, start, Closed(packing));
  }

  method ChunkDocument(p: Policy, sections: seq<Section>) returns (chunks: seq<Chunk>)
    requires p.Valid()
    ensures chunks == DocumentChunks(p, sections)
  {
    chunks := [];
    for i := 0 to |sections|
      invariant chunks == DocumentChunks(p, sections[..i])
    {
      TakeOneMore(sections, i);
      assert sections[..i + 1][..i] == sections[..i];
      var more := ChunkSection(p, sections[i], |chunks|);
      chunks := chunks + more;
    }
    assert sections[..|sections|] == sections;
  }

  /** The chunks of a document, by page or by heading: every paragraph is in a section, but for headings in the
      second mode. */
  method ChunkPages(p: Policy, pagePreserving: bool, heading: string -> bool, pages: seq<Page>) returns (chunks: seq<Chunk>)
    requires p.Valid()
    ensures var sections := if pagePreserving then PageSections(pages) else WithText(Sectioned(heading, Flat(pages)));
            && chunks == DocumentChunks(p, sections)
            && AllParagraphs(sections) == if pagePreserving then Flat(pages) else Body(heading, Flat(pages))
    ensures forall i :: 0 <= i < |chunks| ==> chunks[i].index == i
  {
    var sections;
    if pagePreserving {
      sections := PageSections(pages);
      PageSectionsKeepAll(pages);
    } else {
      sections := SplitSections(heading, pages);
    }
    chunks := ChunkDocument(p, sections);
    IdsNumberChunks(p, sections);
  }
}
