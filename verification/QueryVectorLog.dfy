/** The append-only file of query vectors and its recovery after a torn append
    (app/evaluation/query_vectors.py:95-186, 228-238, 355-356). */
module QueryVectorLog {
  import opened Common
  import opened Vectors

  type Key = Sha256<string>

  datatype Entry = Entry(key: Key, vector: Vector)

  /** The JSON rendering of an entry, its parser, what counts as white space and which numbers are doubles. */
  datatype Codec = Codec(render: Entry -> string, parse: string -> Option<Entry>, space: char -> bool, double: real -> bool) {
    /** Every number of the vector is a floating-point number. */
    predicate Doubles(e: Entry) { forall i :: 0 <= i < |e.vector| ==> double(e.vector[i]) }

    predicate Blank(line: string) { forall i :: 0 <= i < |line| ==> space(line[i]) }

    /** A rendering is one line that starts with a mark, reads back, and no shorter beginning of it reads as anything. */
    ghost predicate Lawful() {
      forall e: Entry :: Doubles(e) ==>
        && '\n' !in render(e) && !Blank(render(e)) && parse(render(e)) == Some(e)
        && forall n: nat :: n < |render(e)| ==> parse(render(e)[..n]) == None && (n > 0 ==> !Blank(render(e)[..n]))
    }
  }

  // ----- the file as text

  function Record(c: Codec, e: Entry): string { c.render(e) + "\n" }

  function Render(c: Codec, entries: seq<Entry>): string {
    if entries == [] then [] else Render(c, entries[..|entries| - 1]) + Record(c, entries[|entries| - 1])
  }

  /** `str.split("\n")`: the lines and what follows the last newline. */
  function Split(text: string): (seq<string>, string) {
    if text == [] then ([], [])
    else
      Added(Split(text[..|text| - 1]), text[|text| - 1])
  }

  /** `dict.setdefault` on a dictionary in insertion order. */
  function SetDefault(vectors: seq<Entry>, e: Entry): seq<Entry> { if Has(vectors, e.key) then vectors else vectors + [e] }

  predicate Has(vectors: seq<Entry>, key: Key) { exists i :: 0 <= i < |vectors| && vectors[i].key == key }

  ghost predicate DistinctKeys(vectors: seq<Entry>) {
    forall i, j :: 0 <= i < j < |vectors| ==> vectors[i].key != vectors[j].key
  }

  // ----- loading

  /** A line is refused when it does not parse or its vector fails validation. */
  function Read(c: Codec, dimension: Option<nat>, line: string): (r: Option<Entry>) {
    match c.parse(line)
    case None => None
    case Some(e) => if ValidVectors([e.vector], 1, dimension) then Some(e) else None
  }

  function ReadLines(c: Codec, dimension: Option<nat>, lines: seq<string>): Option<seq<Entry>> {
    if lines == [] then Some([])
    else
      var line := lines[|lines| - 1];
      match ReadLines(c, dimension, lines[..|lines| - 1])
      case None => None
      case Some(vectors) =>
        if c.Blank(line) then Some(vectors)
        else
          match Read(c, dimension, line)
          case None => None
          case Some(e) => Some(SetDefault(vectors, e))
  }

  /** What a start makes of the file: the vectors and the file it leaves; None when it refuses a line. */
  function Load(c: Codec, dimension: Option<nat>, file: string): Option<(seq<Entry>, string)> {
    var (lines, tail) := Split(file);
    match ReadLines(c, dimension, lines)
    case None => None
    case Some(vectors) =>
      if c.Blank(tail) then Some((vectors, file))
      else if c.parse(tail) == None then Some((vectors, Render(c, vectors)))
      else
        match Read(c, dimension, tail)
        case None => None
        case Some(e) => Some((SetDefault(vectors, e), Render(c, SetDefault(vectors, e))))
  }

  // ----- splitting what was rendered

  lemma {:induction false} SplitConcat(a: string, b: string)
    ensures Split(a + b) == Joined(Split(a), Split(b))
  {
    if b == [] {
      assert a + b == a;
      assert Split(a).1 + [] == Split(a).1;
    } else {
      var n := |b| - 1;
      SplitConcat(a, b[..n]);
      assert (a + b)[..|a + b| - 1] == a + b[..n] && (a + b)[|a + b| - 1] == b[n];
      SplitStep(Split(a), Split(b[..n]), b[n]);
    }
  }

  /** Joining two split texts and then adding a character is adding it to the second. */
  lemma SplitStep(a: (seq<string>, string), b: (seq<string>, string), x: char)
    ensures Joined(a, Added(b, x)) == Added(Joined(a, b), x)
  {
    if b.0 == [] {
      assert (b.0 + [b.1])[1..] == [] && a.1 + (b.1 + [x]) == (a.1 + b.1) + [x];
      assert a.0 + [a.1 + b.1] + [] == a.0 + [a.1 + b.1];
    } else {
      assert (b.0 + [b.1])[1..] == b.0[1..] + [b.1];
      Regroup(a.0 + [a.1 + b.0[0]], b.0[1..], [b.1]);
    }
  }

  function Joined(a: (seq<string>, string), b: (seq<string>, string)): (seq<string>, string) {
    if b.0 == [] then (a.0, a.1 + b.1) else (a.0 + [a.1 + b.0[0]] + b.0[1..], b.1)
  }

  function Added(a: (seq<string>, string), x: char): (seq<string>, string) {
    if x == '\n' then (a.0 + [a.1], []) else (a.0, a.1 + [x])
  }

  lemma {:induction false} SplitLine(line: string)
    requires '\n' !in line
    ensures Split(line) == ([], line)
  {
    if line != [] {
      var n := |line| - 1;
      assert line == line[..n] + [line[n]];
      SplitLine(line[..n]);
    }
  }

  function Renderings(c: Codec, entries: seq<Entry>): (r: seq<string>)
    ensures |r| == |entries|
  {
    if entries == [] then [] else Renderings(c, entries[..|entries| - 1]) + [c.render(entries[|entries| - 1])]
  }

  lemma SplitRecord(line: string)
    requires '\n' !in line
    ensures Split(line + "\n") == ([line], [])
  {
    SplitLine(line);
    assert (line + "\n")[..|line|] == line && (line + "\n")[|line|] == '\n';
    assert [] + [line] == [line];
  }

  lemma JoinedLine(lines: seq<string>, line: string)
    ensures Joined((lines, []), ([line], [])) == (lines + [line], [])
  {
    assert [] + line == line && [line][1..] == [];
    assert lines + [line] + [] == lines + [line];
  }

  lemma {:induction false} SplitRecords(c: Codec, entries: seq<Entry>)
    requires c.Lawful() && forall i :: 0 <= i < |entries| ==> c.Doubles(entries[i])
    ensures Split(Render(c, entries)) == (Renderings(c, entries), [])
  {
    if entries == [] {
    } else {
      var n := |entries| - 1;
      var line := c.render(entries[n]);
      SplitRecords(c, entries[..n]);
      SplitConcat(Render(c, entries[..n]), Record(c, entries[n]));
      SplitRecord(line);
      JoinedLine(Renderings(c, entries[..n]), line);
    }
  }

  lemma SplitRendered(c: Codec, entries: seq<Entry>, tail: string)
    requires c.Lawful() && '\n' !in tail && forall i :: 0 <= i < |entries| ==> c.Doubles(entries[i])
    ensures Split(Render(c, entries) + tail) == (Renderings(c, entries), tail)
  {
    SplitConcat(Render(c, entries), tail);
    SplitLine(tail);
    SplitRecords(c, entries);
    assert [] + tail == tail;
  }

  // ----- reading back

  ghost predicate Sound(c: Codec, dimension: Option<nat>, vectors: seq<Entry>) {
    && DistinctKeys(vectors)
    && forall i :: 0 <= i < |vectors| ==> c.Doubles(vectors[i]) && ValidVectors([vectors[i].vector], 1, dimension)
  }

  lemma SoundPrefix(c: Codec, dimension: Option<nat>, vectors: seq<Entry>, n: nat)
    requires Sound(c, dimension, vectors) && n <= |vectors|
    ensures Sound(c, dimension, vectors[..n])
  {
  }

  lemma {:induction false} ReadRendered(c: Codec, dimension: Option<nat>, entries: seq<Entry>)
    requires c.Lawful() && Sound(c, dimension, entries)
    ensures ReadLines(c, dimension, Renderings(c, entries)) == Some(entries)
  {
    if entries != [] {
      var n := |entries| - 1;
      SoundPrefix(c, dimension, entries, n);
      ReadRendered(c, dimension, entries[..n]);
      assert Renderings(c, entries)[..n] == Renderings(c, entries[..n]);
      assert entries == entries[..n] + [entries[n]];
    }
  }

  lemma {:induction false} RenderConcat(c: Codec, a: seq<Entry>, b: seq<Entry>)
    ensures Render(c, a + b) == Render(c, a) + Render(c, b)
  {
    if b == [] {
      assert a + b == a;
    } else {
      var n := |b| - 1;
      RenderConcat(c, a, b[..n]);
      assert (a + b)[..|a + b| - 1] == a + b[..n];
      Regroup(Render(c, a), Render(c, b[..n]), Record(c, b[n]));
    }
  }

  // ----- a torn append

  /** How many whole lines the first `cut` characters of an append hold, and how much of the next line. */
  function Torn(c: Codec, batch: seq<Entry>, cut: nat): (r: (nat, nat))
    requires cut <= |Render(c, batch)|
    ensures r.0 <= |batch| && (if r.0 < |batch| then r.1 <= |c.render(batch[r.0])| else r.1 == 0)
  {
    if batch == [] then (0, 0)
    else
      var n := |batch| - 1;
      var head := |Render(c, batch[..n])|;
      if cut < head then Torn(c, batch[..n], cut)
      else if cut - head <= |c.render(batch[n])| then (n, cut - head)
      else (n + 1, 0)
  }

  function Tail(c: Codec, batch: seq<Entry>, cut: nat): string
    requires cut <= |Render(c, batch)|
  {
    var (whole, more) := Torn(c, batch, cut);
    if whole < |batch| then c.render(batch[whole])[..more] else []
  }

  lemma {:induction false} TornShape(c: Codec, batch: seq<Entry>, cut: nat)
    requires cut <= |Render(c, batch)|
    ensures Render(c, batch)[..cut] == Render(c, batch[..Torn(c, batch, cut).0]) + Tail(c, batch, cut)
  {
    if batch != [] {
      var n := |batch| - 1;
      var head := Render(c, batch[..n]);
      var record := Record(c, batch[n]);
      if cut < |head| {
        TornShape(c, batch[..n], cut);
        assert Render(c, batch)[..cut] == head[..cut];
        var whole := Torn(c, batch[..n], cut).0;
        assert batch[..n][..whole] == batch[..whole];
        LastTornIsWhole(c, batch[..n], cut);
      } else if cut - |head| <= |c.render(batch[n])| {
        assert (head + record)[..cut] == head + record[..cut - |head|];
      } else {
        assert batch[..n + 1] == batch && Render(c, batch)[..cut] == Render(c, batch) + [];
      }
    }
  }

  /** Short of the end some line is missing its newline. */
  lemma {:induction false} LastTornIsWhole(c: Codec, batch: seq<Entry>, cut: nat)
    requires cut < |Render(c, batch)|
    ensures Torn(c, batch, cut).0 < |batch|
  {
  }

  /** The records that come back: the whole lines, and a last record that only lacks its newline. */
  function Recovered(c: Codec, batch: seq<Entry>, cut: nat): (r: nat)
    requires cut <= |Render(c, batch)|
    ensures r <= |batch|
  {
    var (whole, more) := Torn(c, batch, cut);
    if whole < |batch| && more == |c.render(batch[whole])| then whole + 1 else whole
  }

  /** After a crash at any character of an append a start finds every earlier record and a prefix of the
      batch, and leaves a file of whole lines that says exactly that. */
  lemma TornAppendRecovers(c: Codec, dimension: Option<nat>, vectors: seq<Entry>, batch: seq<Entry>, cut: nat)
    requires c.Lawful() && Sound(c, dimension, vectors + batch) && cut <= |Render(c, batch)|
    ensures var kept := vectors + batch[..Recovered(c, batch, cut)];
            Load(c, dimension, Render(c, vectors) + Render(c, batch)[..cut]) == Some((kept, Render(c, kept)))
  {
    var (whole, more) := Torn(c, batch, cut);
    TornFile(c, vectors, batch, cut);
    if whole < |batch| {
      LoadInBatch(c, dimension, vectors, batch, whole, more);
    } else {
      assert batch[..whole] == batch;
      LoadWhole(c, dimension, vectors + batch);
    }
  }

  lemma LoadInBatch(c: Codec, dimension: Option<nat>, vectors: seq<Entry>, batch: seq<Entry>, whole: nat, more: nat)
    requires c.Lawful() && Sound(c, dimension, vectors + batch) && whole < |batch| && more <= |c.render(batch[whole])|
    ensures var kept := vectors + batch[..if more == |c.render(batch[whole])| then whole + 1 else whole];
            Load(c, dimension, Render(c, vectors + batch[..whole]) + c.render(batch[whole])[..more]) == Some((kept, Render(c, kept)))
  {
    var lines, n := vectors + batch[..whole], |vectors| + whole;
    assert lines + [batch[whole]] == (vectors + batch)[..n + 1];
    assert lines + [batch[whole]] == vectors + batch[..whole + 1];
    SoundPrefix(c, dimension, vectors + batch, n + 1);
    LoadTorn(c, dimension, lines, batch[whole], more);
  }

  lemma TornFile(c: Codec, vectors: seq<Entry>, batch: seq<Entry>, cut: nat)
    requires cut <= |Render(c, batch)|
    ensures Render(c, vectors) + Render(c, batch)[..cut]
            == Render(c, vectors + batch[..Torn(c, batch, cut).0]) + Tail(c, batch, cut)
  {
    var whole := batch[..Torn(c, batch, cut).0];
    TornShape(c, batch, cut);
    RenderConcat(c, vectors, whole);
    Regroup(Render(c, vectors), Render(c, whole), Tail(c, batch, cut));
  }

  lemma LoadWhole(c: Codec, dimension: Option<nat>, lines: seq<Entry>)
    requires c.Lawful() && Sound(c, dimension, lines)
    ensures Load(c, dimension, Render(c, lines) + []) == Some((lines, Render(c, lines)))
  {
    SplitRendered(c, lines, []);
    ReadRendered(c, dimension, lines);
    assert Render(c, lines) + [] == Render(c, lines);
  }

  /** The beginning of a record reads as nothing unless it is the whole record. */
  lemma LoadTorn(c: Codec, dimension: Option<nat>, lines: seq<Entry>, e: Entry, more: nat)
    requires c.Lawful() && Sound(c, dimension, lines + [e]) && more <= |c.render(e)|
    ensures var kept := if more == |c.render(e)| then lines + [e] else lines;
            Load(c, dimension, Render(c, lines) + c.render(e)[..more]) == Some((kept, Render(c, kept)))
  {
    var tail := c.render(e)[..more];
    assert (lines + [e])[..|lines|] == lines && (lines + [e])[|lines|] == e;
    assert c.parse(c.render(e)) == Some(e) && '\n' !in c.render(e);
    SoundPrefix(c, dimension, lines + [e], |lines|);
    ReadRendered(c, dimension, lines);
    assert '\n' !in tail;
    SplitRendered(c, lines, tail);
    if more == |c.render(e)| {
      assert tail == c.render(e);
    } else if more == 0 {
      assert Render(c, lines) + [] == Render(c, lines);
    } else {
      LoadPart(c, dimension, lines, tail);
    }
  }

  /** An unreadable tail is dropped. */
  lemma LoadPart(c: Codec, dimension: Option<nat>, lines: seq<Entry>, tail: string)
    requires ReadLines(c, dimension, Renderings(c, lines)) == Some(lines) && c.parse(tail) == None && !c.Blank(tail)
    requires Split(Render(c, lines) + tail) == (Renderings(c, lines), tail)
    ensures Load(c, dimension, Render(c, lines) + tail) == Some((lines, Render(c, lines)))
  {
  }

  // ----- every history of appends, crashes and starts

  /** The entries of a batch that are new, the first of each key. */
  function Fresh(vectors: seq<Entry>, batch: seq<Entry>): seq<Entry> {
    if batch == [] then []
    else
      var earlier, e := Fresh(vectors, batch[..|batch| - 1]), batch[|batch| - 1];
      if Has(vectors, e.key) || Has(earlier, e.key) then earlier else earlier + [e]
  }

  predicate Valid(dimension: Option<nat>, batch: seq<Entry>) {
    ValidVectors(seq(|batch|, i requires 0 <= i < |batch| => batch[i].vector), |batch|, dimension)
  }

  lemma {:induction false} FreshIsSound(c: Codec, dimension: Option<nat>, vectors: seq<Entry>, batch: seq<Entry>)
    requires Sound(c, dimension, vectors) && forall i :: 0 <= i < |batch| ==> c.Doubles(batch[i]) && ValidVectors([batch[i].vector], 1, dimension)
    ensures Sound(c, dimension, vectors + Fresh(vectors, batch))
  {
    if batch == [] {
      assert vectors + Fresh(vectors, batch) == vectors;
    } else {
      var earlier, e := Fresh(vectors, batch[..|batch| - 1]), batch[|batch| - 1];
      FreshIsSound(c, dimension, vectors, batch[..|batch| - 1]);
      if !Has(vectors, e.key) && !Has(earlier, e.key) {
        SoundWithOneMore(c, dimension, vectors, earlier, e);
        Regroup(vectors, earlier, [e]);
      }
    }
  }

  lemma SoundWithOneMore(c: Codec, dimension: Option<nat>, vectors: seq<Entry>, earlier: seq<Entry>, e: Entry)
    requires Sound(c, dimension, vectors + earlier) && c.Doubles(e) && ValidVectors([e.vector], 1, dimension)
    requires !Has(vectors, e.key) && !Has(earlier, e.key)
    ensures Sound(c, dimension, vectors + earlier + [e])
  {
    var all := vectors + earlier;
    forall i | 0 <= i < |all|
      ensures all[i].key != e.key
    {
      assert i < |vectors| ==> all[i] == vectors[i];
      assert i >= |vectors| ==> all[i] == earlier[i - |vectors|];
    }
  }

  lemma ValidEach(dimension: Option<nat>, batch: seq<Entry>)
    requires Valid(dimension, batch)
    ensures forall i :: 0 <= i < |batch| ==> ValidVectors([batch[i].vector], 1, dimension)
  {
    var vectors := seq(|batch|, i requires 0 <= i < |batch| => batch[i].vector);
    forall i | 0 <= i < |batch|
      ensures ValidVectors([batch[i].vector], 1, dimension)
    {
      assert vectors[i] == batch[i].vector;
    }
  }

  datatype State = Running(file: string, vectors: seq<Entry>) | Refused(file: string)

  datatype Event =
    | Add(batch: seq<Entry>)
    | CrashDuringAdd(batch: seq<Entry>, cut: nat)
    | Restart

  function Started(c: Codec, dimension: Option<nat>, file: string): State {
    match Load(c, dimension, file)
    case None => Refused(file)
    case Some(loaded) => Running(loaded.1, loaded.0)
  }

  /** A batch that fails validation is refused before anything is written. */
  function Step(c: Codec, dimension: Option<nat>, s: State, e: Event): State {
    if s.Refused? then s
    else
      match e
      case Restart => Started(c, dimension, s.file)
      case Add(batch) =>
        if Valid(dimension, batch) then
          Running(s.file + Render(c, Fresh(s.vectors, batch)), s.vectors + Fresh(s.vectors, batch))
        else s
      case CrashDuringAdd(batch, cut) =>
        var text := if Valid(dimension, batch) then Render(c, Fresh(s.vectors, batch)) else [];
        Started(c, dimension, s.file + if cut < |text| then text[..cut] else text)
  }

  /** The file is the rendering of the vectors in memory. */
  ghost predicate Inv(c: Codec, dimension: Option<nat>, s: State) {
    s.Running? && Sound(c, dimension, s.vectors) && s.file == Render(c, s.vectors)
  }

  /** The program writes doubles: `add` converts every number with `float`. */
  ghost predicate Written(c: Codec, e: Event) {
    e.Restart? || forall i :: 0 <= i < |e.batch| ==> c.Doubles(e.batch[i])
  }

  lemma StepKeepsInv(c: Codec, dimension: Option<nat>, s: State, e: Event)
    requires c.Lawful() && Inv(c, dimension, s) && Written(c, e)
    ensures Inv(c, dimension, Step(c, dimension, s, e)) && s.vectors <= Step(c, dimension, s, e).vectors
    ensures e.Restart? ==> Step(c, dimension, s, e) == s
  {
    match e
    case Restart =>
      StartFindsAll(c, dimension, s.vectors);
    case Add(batch) =>
      if Valid(dimension, batch) {
        ValidEach(dimension, batch);
        FreshIsSound(c, dimension, s.vectors, batch);
        RenderConcat(c, s.vectors, Fresh(s.vectors, batch));
      }
    case CrashDuringAdd(batch, cut) =>
      if Valid(dimension, batch) {
        ValidEach(dimension, batch);
        FreshIsSound(c, dimension, s.vectors, batch);
        CrashRecovers(c, dimension, s.vectors, Fresh(s.vectors, batch), cut);
      } else {
        StartFindsAll(c, dimension, s.vectors);
        assert s.file + [] == s.file;
      }
  }

  lemma StartFindsAll(c: Codec, dimension: Option<nat>, vectors: seq<Entry>)
    requires c.Lawful() && Sound(c, dimension, vectors)
    ensures Started(c, dimension, Render(c, vectors)) == Running(Render(c, vectors), vectors)
  {
    assert vectors + [] == vectors && Render(c, vectors) + Render(c, [])[..0] == Render(c, vectors);
    TornAppendRecovers(c, dimension, vectors, [], 0);
  }

  lemma CrashRecovers(c: Codec, dimension: Option<nat>, vectors: seq<Entry>, batch: seq<Entry>, cut: nat)
    requires c.Lawful() && Sound(c, dimension, vectors + batch)
    ensures var text := Render(c, batch);
            var written := if cut < |text| then text[..cut] else text;
            var kept := vectors + batch[..Recovered(c, batch, Min(cut, |text|))];
            Started(c, dimension, Render(c, vectors) + written) == Running(Render(c, kept), kept) && Sound(c, dimension, kept)
  {
    var text := Render(c, batch);
    var n := Min(cut, |text|);
    assert text[..|text|] == text;
    TornAppendRecovers(c, dimension, vectors, batch, n);
    var k := Recovered(c, batch, n);
    assert vectors + batch[..k] == (vectors + batch)[..|vectors| + k];
    SoundPrefix(c, dimension, vectors + batch, |vectors| + k);
  }

  function Run(c: Codec, dimension: Option<nat>, s: State, events: seq<Event>): State {
    if events == [] then s else Step(c, dimension, Run(c, dimension, s, events[..|events| - 1]), events[|events| - 1])
  }

  /** Whatever happens, the file stays readable and no record that once was durable is lost or changed. */
  lemma {:induction false} NothingDurableIsLost(c: Codec, dimension: Option<nat>, s: State, events: seq<Event>)
    requires c.Lawful() && Inv(c, dimension, s) && forall e :: e in events ==> Written(c, e)
    ensures Inv(c, dimension, Run(c, dimension, s, events))
    ensures s.vectors <= Run(c, dimension, s, events).vectors
  {
    if events != [] {
      var n := |events| - 1;
      NothingDurableIsLost(c, dimension, s, events[..n]);
      StepKeepsInv(c, dimension, Run(c, dimension, s, events[..n]), events[n]);
    }
  }

  /** From an empty file on, every history ends running, and what any earlier moment of it held is held at its end. */
  lemma EveryHistoryIsSound(c: Codec, dimension: Option<nat>, events: seq<Event>, n: nat)
    requires c.Lawful() && n <= |events| && forall e :: e in events ==> Written(c, e)
    ensures var start := Started(c, dimension, []);
            && Inv(c, dimension, Run(c, dimension, start, events))
            && Inv(c, dimension, Run(c, dimension, start, events[..n]))
            && Run(c, dimension, start, events[..n]).vectors <= Run(c, dimension, start, events).vectors
  {
    var start := Started(c, dimension, []);
    StartFindsAll(c, dimension, []);
    NothingDurableIsLost(c, dimension, start, events[..n]);
    NothingDurableIsLost(c, dimension, Run(c, dimension, start, events[..n]), events[n..]);
    RunInTwo(c, dimension, start, events, n);
  }

  lemma {:induction false} RunInTwo(c: Codec, dimension: Option<nat>, s: State, events: seq<Event>, n: nat)
    requires n <= |events|
    ensures Run(c, dimension, s, events) == Run(c, dimension, Run(c, dimension, s, events[..n]), events[n..])
    decreases |events|
  {
    if n < |events| {
      var last := |events| - 1;
      RunInTwo(c, dimension, s, events[..last], n);
      assert events[..last][..n] == events[..n] && events[..last][n..] == events[n..][..last - n];
    } else {
      assert events[..n] == events;
    }
  }

  // ----- the program

  /** The file on disk, which outlives the process. */
  class Disk {
    var text: string

    constructor (text: string)
      ensures this.text == text
    {
      this.text := text;
    }
  }

  lemma {:induction false} RefusedForGood(c: Codec, dimension: Option<nat>, lines: seq<string>, n: nat)
    requires n <= |lines| && ReadLines(c, dimension, lines[..n]) == None
    ensures ReadLines(c, dimension, lines) == None
    decreases |lines| - n
  {
    if n < |lines| {
      assert lines[..n + 1][..n] == lines[..n];
      RefusedForGood(c, dimension, lines, n + 1);
    } else {
      assert lines[..n] == lines;
    }
  }

  class QueryVectorCache {
    const codec: Codec
    const dimension: Option<nat>
    const disk: Disk
    var vectors: seq<Entry>

    ghost function Value(): State
      reads this, disk
    {
      Running(disk.text, vectors)
    }

    constructor (codec: Codec, dimension: Option<nat>, disk: Disk)
      ensures this.codec == codec && this.dimension == dimension && this.disk == disk && vectors == []
    {
      this.codec, this.dimension, this.disk, vectors := codec, dimension, disk, [];
    }

    method ReadAll(lines: seq<string>) returns (read: Option<seq<Entry>>)
      ensures read == ReadLines(codec, dimension, lines)
    {
      var found: seq<Entry> := [];
      for i := 0 to |lines|
        invariant ReadLines(codec, dimension, lines[..i]) == Some(found)
      {
        assert lines[..i + 1][..i] == lines[..i];
        if codec.Blank(lines[i]) {
          continue;
        }
        var parsed := Read(codec, dimension, lines[i]);
        if parsed == None {
          RefusedForGood(codec, dimension, lines, i + 1);
          return None;
        }
        found := SetDefault(found, parsed.value);
      }
      assert lines[..|lines|] == lines;
      return Some(found);
    }

    /** False when the file holds a line that is no query vector; nothing changes then. */
    method Start() returns (ok: bool)
      modifies this, disk
      ensures if ok then Value() == Started(codec, dimension, old(disk.text))
              else Started(codec, dimension, old(disk.text)).Refused? && disk.text == old(disk.text)
    {
      var (lines, tail) := Split(disk.text);
      var read := ReadAll(lines);
      if read == None {
        return false;
      }
      var found := read.value;
      if !codec.Blank(tail) {
        if codec.parse(tail).Some? {
          var parsed := Read(codec, dimension, tail);
          if parsed == None {
            return false;
          }
          found := SetDefault(found, parsed.value);
        }
        disk.text := Render(codec, found);
      }
      vectors := found;
      return true;
    }

    method NewEntries(batch: seq<Entry>) returns (found: seq<Entry>)
      ensures found == Fresh(vectors, batch)
    {
      found := [];
      for i := 0 to |batch|
        invariant found == Fresh(vectors, batch[..i])
      {
        assert batch[..i + 1][..i] == batch[..i];
        if !Has(vectors, batch[i].key) && !Has(found, batch[i].key) {
          found := found + [batch[i]];
        }
      }
      assert batch[..|batch|] == batch;
    }

    /** False for a batch that fails validation. */
    method Add(batch: seq<Entry>) returns (ok: bool)
      modifies this, disk
      ensures ok == Valid(dimension, batch)
      ensures Value() == Step(codec, dimension, old(Value()), Event.Add(batch))
    {
      if !Valid(dimension, batch) {
        return false;
      }
      var added := NewEntries(batch);
      if added != [] {
        disk.text := disk.text + Render(codec, added);
        vectors := vectors + added;
      } else {
        assert disk.text + Render(codec, added) == disk.text && vectors + added == vectors;
      }
      return true;
    }

    /** The process dies after `cut` characters of the append and is started again. */
    method CrashDuringAdd(batch: seq<Entry>, cut: nat)
      requires codec.Lawful() && Inv(codec, dimension, Value()) && Written(codec, Event.CrashDuringAdd(batch, cut))
      modifies this, disk
      ensures Value() == Step(codec, dimension, old(Value()), Event.CrashDuringAdd(batch, cut))
    {
      StepKeepsInv(codec, dimension, Value(), Event.CrashDuringAdd(batch, cut));
      var text := [];
      if Valid(dimension, batch) {
        var added := NewEntries(batch);
        text := Render(codec, added);
      }
      disk.text := disk.text + if cut < |text| then text[..cut] else text;
      var ok := Start();
      assert ok;
    }

    function Get(query: string): (r: Option<Vector>)
      reads this
      ensures r.Some? <==> Has(vectors, Sha256(query))
    {
      VectorOf(vectors, Sha256(query))
    }

    /** The queries that are not cached, each once, in order. */
    method Missing(texts: seq<string>) returns (missing: seq<string>)
      ensures missing == MissingOf(vectors, texts)
    {
      missing := [];
      for i := 0 to |texts|
        invariant missing == MissingOf(vectors, texts[..i])
      {
        assert texts[..i + 1][..i] == texts[..i];
        if Get(texts[i]).None? && texts[i] !in missing {
          missing := missing + [texts[i]];
        }
      }
      assert texts[..|texts|] == texts;
    }

    /** Answers from the cache; the embedder is asked only for what is missing. With a cache filled by the
        same embedder the answer is the embedder's own. */
    method EmbedQueries(embed: string -> Vector, texts: seq<string>, requireCached: bool) returns (answer: Answer)
      requires FilledBy(embed, vectors)
      modifies this, disk
      ensures FilledBy(embed, vectors) && old(vectors) <= vectors
      ensures answer.Vectors? ==> |answer.vectors| == |texts| && forall i :: 0 <= i < |texts| ==> answer.vectors[i] == embed(texts[i])
      ensures answer == (if MissingOf(old(vectors), texts) == [] then Vectors(Mapped(embed, texts))
                         else if requireCached then CacheMiss(|MissingOf(old(vectors), texts)|)
                         else if Valid(dimension, Embedded(embed, MissingOf(old(vectors), texts))) then Vectors(Mapped(embed, texts))
                         else Invalid)
      ensures (forall q :: q in texts ==> Has(old(vectors), Sha256(q))) ==> answer.Vectors? && Value() == old(Value())
      ensures requireCached ==> Value() == old(Value())
    {
      var missing := Missing(texts);
      MissingExactly(vectors, texts);
      if missing != [] {
        assert missing[0] in missing;
        if requireCached {
          return CacheMiss(|missing|);
        }
        var ok := Fill(embed, missing);
        if !ok {
          return Invalid;
        }
      }
      forall q | q in texts
        ensures Has(vectors, Sha256(q))
      {
        if Has(old(vectors), Sha256(q)) {
          HasMore(old(vectors), vectors, Sha256(q));
        }
      }
      AllAnswered(embed, vectors, texts);
      assert Answers(vectors, texts) == Mapped(embed, texts);
      return Vectors(Answers(vectors, texts));
    }

    method Fill(embed: string -> Vector, missing: seq<string>) returns (ok: bool)
      requires FilledBy(embed, vectors)
      modifies this, disk
      ensures FilledBy(embed, vectors) && old(vectors) <= vectors
      ensures ok ==> forall q :: q in missing ==> Has(vectors, Sha256(q))
      ensures !ok ==> Value() == old(Value())
      ensures ok <==> Valid(dimension, Embedded(embed, missing))
    {
      var batch := Embedded(embed, missing);
      ok := Add(batch);
      if ok {
        FreshFilledBy(embed, old(vectors), batch);
        forall q | q in missing
          ensures Has(vectors, Sha256(q))
        {
          var i :| 0 <= i < |missing| && missing[i] == q;
          FreshHas(old(vectors), batch, i);
        }
      }
    }
  }

  datatype Answer = Vectors(vectors: seq<Vector>) | CacheMiss(missing: nat) | Invalid

  function VectorOf(vectors: seq<Entry>, key: Key): (r: Option<Vector>)
    ensures r.Some? <==> Has(vectors, key)
    ensures r.Some? ==> exists i :: 0 <= i < |vectors| && vectors[i] == Entry(key, r.value)
  {
    if vectors == [] then None
    else if vectors[|vectors| - 1].key == key then Some(vectors[|vectors| - 1].vector)
    else VectorOf(vectors[..|vectors| - 1], key)
  }

  /** The texts that have no vector, each once, in order. */
  function MissingOf(vectors: seq<Entry>, texts: seq<string>): seq<string> {
    if texts == [] then []
    else
      var earlier, last := MissingOf(vectors, texts[..|texts| - 1]), texts[|texts| - 1];
      if VectorOf(vectors, Sha256(last)).None? && last !in earlier then earlier + [last] else earlier
  }

  lemma {:induction false} MissingExactly(vectors: seq<Entry>, texts: seq<string>)
    ensures forall q :: q in MissingOf(vectors, texts) <==> q in texts && !Has(vectors, Sha256(q))
    ensures Distinct(MissingOf(vectors, texts))
  {
    if texts != [] {
      MissingExactly(vectors, texts[..|texts| - 1]);
      assert texts == texts[..|texts| - 1] + [texts[|texts| - 1]];
    }
  }

  function Mapped(embed: string -> Vector, texts: seq<string>): seq<Vector> { seq(|texts|, i requires 0 <= i < |texts| => embed(texts[i])) }

  function Embedded(embed: string -> Vector, texts: seq<string>): (r: seq<Entry>)
    ensures |r| == |texts| && forall i :: 0 <= i < |r| ==> r[i] == Entry(Sha256(texts[i]), embed(texts[i]))
  {
    seq(|texts|, i requires 0 <= i < |texts| => Entry(Sha256(texts[i]), embed(texts[i])))
  }

  ghost predicate FilledBy(embed: string -> Vector, vectors: seq<Entry>) {
    forall i :: 0 <= i < |vectors| ==> vectors[i].vector == embed(vectors[i].key.of)
  }

  lemma {:induction false} FreshFilledBy(embed: string -> Vector, vectors: seq<Entry>, batch: seq<Entry>)
    requires FilledBy(embed, vectors) && FilledBy(embed, batch)
    ensures FilledBy(embed, vectors + Fresh(vectors, batch)) && FilledBy(embed, Fresh(vectors, batch))
  {
    if batch != [] {
      FreshFilledBy(embed, vectors, batch[..|batch| - 1]);
    }
  }

  lemma {:induction false} FreshHas(vectors: seq<Entry>, batch: seq<Entry>, i: nat)
    requires i < |batch|
    ensures Has(vectors + Fresh(vectors, batch), batch[i].key)
  {
    var n := |batch| - 1;
    if i < n {
      FreshHas(vectors, batch[..n], i);
      HasMore(vectors + Fresh(vectors, batch[..n]), vectors + Fresh(vectors, batch), batch[i].key);
    } else {
      var all, earlier, key := vectors + Fresh(vectors, batch), Fresh(vectors, batch[..n]), batch[n].key;
      if Has(vectors, key) {
        HasMore(vectors, all, key);
      } else if Has(earlier, key) {
        var j :| 0 <= j < |earlier| && earlier[j].key == key;
        assert all[|vectors| + j].key == key;
      } else {
        assert all[|all| - 1].key == key;
      }
    }
  }

  lemma HasMore(a: seq<Entry>, b: seq<Entry>, key: Key)
    requires a <= b && Has(a, key)
    ensures Has(b, key)
  {
    var i :| 0 <= i < |a| && a[i].key == key;
    assert b[i].key == key;
  }

  /** The cached vectors of the queries that have one. */
  function Answers(vectors: seq<Entry>, texts: seq<string>): seq<Vector> {
    if texts == [] then []
    else
      var last := VectorOf(vectors, Sha256(texts[|texts| - 1]));
      Answers(vectors, texts[..|texts| - 1]) + (if last.Some? then [last.value] else [])
  }

  lemma {:induction false} AllAnswered(embed: string -> Vector, vectors: seq<Entry>, texts: seq<string>)
    requires FilledBy(embed, vectors) && forall q :: q in texts ==> Has(vectors, Sha256(q))
    ensures |Answers(vectors, texts)| == |texts| && forall i :: 0 <= i < |texts| ==> Answers(vectors, texts)[i] == embed(texts[i])
  {
    if texts != [] {
      var n := |texts| - 1;
      assert texts[n] in texts && forall q :: q in texts[..n] ==> q in texts;
      AllAnswered(embed, vectors, texts[..n]);
    }
  }
}
