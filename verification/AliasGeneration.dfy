/** The resumable generation of lay-language aliases (app/consumer/alias_generation.py:146-355). */
module AliasGeneration {
  import opened Common

  datatype Status = Generated | Declined | Reviewed | Rejected

  datatype Entry = Entry(key: string, provision: string, source: Sha256<string>, aliases: seq<string>, status: Status, prompt: Option<string>)

  /** Generated and declined entries are the generator's own; the others belong to a person. */
  predicate Owned(e: Entry) { e.status == Generated || e.status == Declined }

  type Entries = map<string, Entry>

  datatype AliasSet = AliasSet(model: string, generatedOn: nat, entries: Entries)

  /** One article: its prompt and the keys of the units it sends. */
  datatype Request = Request(provision: string, user: string, keys: seq<string>)

  datatype Answer = Answer(key: string, aliases: seq<string>)

  /** The requests for the whole corpus, the source block of each unit, and the units that could carry aliases. */
  datatype Corpus = Corpus(requests: seq<Request>, source: string -> string, aliasable: set<string>) {
    /** A unit belongs to one article. */
    ghost predicate Valid() {
      && (forall i :: 0 <= i < |requests| ==> Distinct(requests[i].keys))
      && forall i, j, k :: 0 <= i < |requests| && 0 <= j < |requests| && k in requests[i].keys && k in requests[j].keys ==> i == j
    }

    predicate Requestable(key: string) { exists i :: 0 <= i < |requests| && key in requests[i].keys }
  }

  /** How alias texts are checked. */
  datatype Texts = Texts(normalize: string -> string, problem: string -> bool, fold: string -> string)

  /** What decides the entries of a run: the corpus, the text rules, the prompt version, what the model answers to
      each article, and whether every entry is regenerated. */
  datatype Job = Job(corpus: Corpus, texts: Texts, prompt: string, answers: Request -> seq<Answer>, force: bool)

  const MIN_ALIASES := 2
  const MAX_ALIASES := 4

  function Get(entries: Entries, key: string): Option<Entry> { if key in entries then Some(entries[key]) else None }

  // ----- what one unit gets

  predicate Stale(j: Job, key: string, e: Entry) { e.prompt != Some(j.prompt) || e.source != Sha256(j.corpus.source(key)) }

  predicate NeedsGeneration(j: Job, key: string, e: Option<Entry>) {
    e == None || j.force || (Owned(e.value) && Stale(j, key, e.value))
  }

  /** The first answer for the unit. */
  function AnswerFor(answers: seq<Answer>, key: string): Option<seq<string>> {
    if answers == [] then None
    else
      var earlier := AnswerFor(answers[..|answers| - 1], key);
      if earlier == None && answers[|answers| - 1].key == key then Some(answers[|answers| - 1].aliases) else earlier
  }

  /** `_valid_aliases`. */
  function Kept(t: Texts, raw: seq<string>): seq<string> {
    if raw == [] then []
    else
      var earlier, text := Kept(t, raw[..|raw| - 1]), t.normalize(raw[|raw| - 1]);
      if t.problem(text) || Folded(t, earlier, text) then earlier else earlier + [text]
  }

  predicate Folded(t: Texts, kept: seq<string>, text: string) { exists i :: 0 <= i < |kept| && t.fold(kept[i]) == t.fold(text) }

  function NewEntry(j: Job, r: Request, key: string): Option<Entry> {
    match AnswerFor(j.answers(r), key)
    case None => None
    case Some(raw) =>
      var aliases := Kept(j.texts, raw);
      var declined := |aliases| < MIN_ALIASES;
      Some(Entry(key, r.provision, Sha256(j.corpus.source(key)),
                 if declined then [] else aliases[..Min(MAX_ALIASES, |aliases|)],
                 if declined then Declined else Generated, Some(j.prompt)))
  }

  /** `_replace` for one unit. */
  function Replaced(existing: Option<Entry>, replacement: Option<Entry>): Option<Entry> {
    var owned := existing == None || Owned(existing.value);
    if replacement != None && (owned || replacement.value.status != Declined) then replacement
    else if replacement == None && owned then None
    else existing
  }

  function Settled(j: Job, r: Request, key: string, e: Option<Entry>): Option<Entry> {
    if key in r.keys && NeedsGeneration(j, key, e) then Replaced(e, NewEntry(j, r, key)) else e
  }

  // ----- what one article changes

  function Pending(j: Job, keys: seq<string>, entries: Entries): seq<string> {
    if keys == [] then []
    else
      var key := keys[|keys| - 1];
      Pending(j, keys[..|keys| - 1], entries) + (if NeedsGeneration(j, key, Get(entries, key)) then [key] else [])
  }

  /** Whether the model answered a unit that was asked about. */
  predicate Answered(j: Job, r: Request, entries: Entries) {
    exists i :: 0 <= i < |r.keys| && NeedsGeneration(j, r.keys[i], Get(entries, r.keys[i])) && AnswerFor(j.answers(r), r.keys[i]) != None
  }

  /** An article whose answer names no unit asked about leaves every entry as it is. */
  function Step(j: Job, r: Request, entries: Entries): Entries {
    if Answered(j, r, entries) then
      map k | k in entries.Keys + AsSet(r.keys) && Settled(j, r, k, Get(entries, k)) != None :: Settled(j, r, k, Get(entries, k)).value
    else entries
  }

  function AsSet(keys: seq<string>): set<string> { set k | k in keys }

  /** `_prune`: the generator's entries for units it no longer requests are removed. */
  function Prune(c: Corpus, entries: Entries): Entries {
    map k | k in entries && (c.Requestable(k) || !Owned(entries[k])) :: entries[k]
  }

  function Apply(j: Job, n: nat, entries: Entries): Entries
    requires n <= |j.corpus.requests|
    decreases n
  {
    if n == 0 then entries else Step(j, j.corpus.requests[n - 1], Apply(j, n - 1, entries))
  }

  /** The entries an uninterrupted run over the whole corpus leaves. */
  function Full(j: Job, entries: Entries): Entries { Apply(j, |j.corpus.requests|, Prune(j.corpus, entries)) }

  // ----- a run

  /** The chosen articles, what the manifest of a save says, and how many calls the client answers before one raises. */
  datatype Visit = Visit(articles: seq<Request>, model: string, today: nat, calls: nat)

  datatype Run = Run(file: AliasSet, entries: Entries, dirty: bool, asked: seq<Request>, stopped: bool)

  function Saved(v: Visit, s: Run): Run { Run(AliasSet(v.model, v.today, s.entries), s.entries, false, s.asked, s.stopped) }

  function Begin(j: Job, file: AliasSet): Run {
    var entries := Prune(j.corpus, file.entries);
    Run(file, entries, entries != file.entries, [], false)
  }

  /** A run saves after each article that changed an entry. */
  function Advance(j: Job, v: Visit, s: Run, r: Request): Run {
    if s.stopped || Pending(j, r.keys, s.entries) == [] then s
    else if |s.asked| == v.calls then s.(stopped := true)
    else
      var t := s.(entries := Step(j, r, s.entries), asked := s.asked + [r]);
      if Answered(j, r, s.entries) && (s.dirty || t.entries != s.entries) then Saved(v, t) else t
  }

  function Running(j: Job, v: Visit, file: AliasSet, n: nat): Run
    requires n <= |v.articles|
    decreases n
  {
    if n == 0 then Begin(j, file) else Advance(j, v, Running(j, v, file, n - 1), v.articles[n - 1])
  }

  function Ended(v: Visit, s: Run): Run { if s.dirty && !s.stopped then Saved(v, s) else s }

  function Attempt(j: Job, v: Visit, file: AliasSet): Run { Ended(v, Running(j, v, file, |v.articles|)) }

  /** Every article chosen is one the corpus requests. */
  ghost predicate Covered(j: Job, v: Visit) { forall i :: 0 <= i < |v.articles| ==> v.articles[i] in j.corpus.requests }

  // ----- one article, unit by unit

  lemma PendingIsNeeded(j: Job, keys: seq<string>, entries: Entries, key: string)
    ensures key in Pending(j, keys, entries) <==> key in keys && NeedsGeneration(j, key, Get(entries, key))
  {
  }

  lemma StepAt(j: Job, r: Request, x: Entries, k: string)
    ensures Get(Step(j, r, x), k) == if Answered(j, r, x) then Settled(j, r, k, Get(x, k)) else Get(x, k)
  {
  }

  ghost predicate Agree(x: Entries, y: Entries, keys: seq<string>) { forall k :: k in keys ==> Get(x, k) == Get(y, k) }

  lemma AnsweredAgrees(j: Job, r: Request, x: Entries, y: Entries)
    requires Agree(x, y, r.keys)
    ensures Answered(j, r, x) ==> Answered(j, r, y)
  {
    if Answered(j, r, x) {
      var i :| 0 <= i < |r.keys| && NeedsGeneration(j, r.keys[i], Get(x, r.keys[i])) && AnswerFor(j.answers(r), r.keys[i]) != None;
      assert r.keys[i] in r.keys;
      assert NeedsGeneration(j, r.keys[i], Get(y, r.keys[i]));
    }
  }

  /** What an article changes depends on the entries of its own units. */
  lemma StepIsLocal(j: Job, r: Request, x: Entries, y: Entries, k: string)
    requires Agree(x, y, r.keys) && k in r.keys
    ensures Get(Step(j, r, x), k) == Get(Step(j, r, y), k)
  {
    AnsweredAgrees(j, r, x, y);
    AnsweredAgrees(j, r, y, x);
    StepAt(j, r, x, k);
    StepAt(j, r, y, k);
  }

  lemma SettledTwice(j: Job, r: Request, k: string, e: Option<Entry>)
    ensures Settled(j, r, k, Settled(j, r, k, e)) == Settled(j, r, k, e)
  {
  }

  /** Asking about the same article again changes nothing more, whether or not the run is forced. */
  lemma StepTwice(j: Job, r: Request, x: Entries)
    ensures Step(j, r, Step(j, r, x)) == Step(j, r, x)
  {
    var y := Step(j, r, x);
    forall k
      ensures Get(Step(j, r, y), k) == Get(y, k)
    {
      StepAt(j, r, x, k);
      StepAt(j, r, y, k);
      SettledTwice(j, r, k, Get(x, k));
    }
    SameEntries(Step(j, r, y), y);
  }

  lemma SameEntries(x: Entries, y: Entries)
    requires forall k :: Get(x, k) == Get(y, k)
    ensures x == y
  {
    forall k
      ensures k in x <==> k in y
      ensures k in x ==> x[k] == y[k]
    {
      assert Get(x, k) == Get(y, k);
    }
  }

  // ----- all articles

  lemma {:induction false} ApplyAt(j: Job, n: nat, x: Entries, i: nat, k: string)
    requires j.corpus.Valid() && n <= |j.corpus.requests| && i < |j.corpus.requests| && k in j.corpus.requests[i].keys
    ensures Get(Apply(j, n, x), k) == if i < n then Get(Step(j, j.corpus.requests[i], x), k) else Get(x, k)
    decreases n
  {
    if n > 0 {
      var r := j.corpus.requests[n - 1];
      if i == n - 1 {
        forall key | key in r.keys
          ensures Get(Apply(j, n - 1, x), key) == Get(x, key)
        {
          ApplyAt(j, n - 1, x, i, key);
        }
        StepIsLocal(j, r, Apply(j, n - 1, x), x, k);
      } else {
        ApplyAt(j, n - 1, x, i, k);
        StepAt(j, r, Apply(j, n - 1, x), k);
        assert k !in r.keys;
      }
    }
  }

  lemma {:induction false} ApplyOutside(j: Job, n: nat, x: Entries, k: string)
    requires n <= |j.corpus.requests| && !j.corpus.Requestable(k)
    ensures Get(Apply(j, n, x), k) == Get(x, k)
    decreases n
  {
    if n > 0 {
      ApplyOutside(j, n - 1, x, k);
      StepAt(j, j.corpus.requests[n - 1], Apply(j, n - 1, x), k);
    }
  }

  /** Whatever an article was already asked, a run over all articles ends with the same entries. */
  lemma ApplyAbsorbs(j: Job, x: Entries, m: nat)
    requires j.corpus.Valid() && m < |j.corpus.requests|
    ensures Apply(j, |j.corpus.requests|, Step(j, j.corpus.requests[m], x)) == Apply(j, |j.corpus.requests|, x)
  {
    var y := Step(j, j.corpus.requests[m], x);
    forall k
      ensures Get(Apply(j, |j.corpus.requests|, y), k) == Get(Apply(j, |j.corpus.requests|, x), k)
    {
      ApplyAbsorbsAt(j, x, m, k);
    }
    SameEntries(Apply(j, |j.corpus.requests|, y), Apply(j, |j.corpus.requests|, x));
  }

  lemma ApplyAbsorbsAt(j: Job, x: Entries, m: nat, k: string)
    requires j.corpus.Valid() && m < |j.corpus.requests|
    ensures Get(Apply(j, |j.corpus.requests|, Step(j, j.corpus.requests[m], x)), k) == Get(Apply(j, |j.corpus.requests|, x), k)
  {
    var r := j.corpus.requests[m];
    var y := Step(j, r, x);
    if j.corpus.Requestable(k) {
      var i :| 0 <= i < |j.corpus.requests| && k in j.corpus.requests[i].keys;
      ApplyAt(j, |j.corpus.requests|, x, i, k);
      ApplyAt(j, |j.corpus.requests|, y, i, k);
      if i == m {
        StepTwice(j, r, x);
      } else {
        forall key | key in j.corpus.requests[i].keys
          ensures Get(y, key) == Get(x, key)
        {
          assert key !in r.keys;
          StepAt(j, r, x, key);
        }
        StepIsLocal(j, j.corpus.requests[i], y, x, k);
      }
    } else {
      ApplyOutside(j, |j.corpus.requests|, x, k);
      ApplyOutside(j, |j.corpus.requests|, y, k);
      StepAt(j, r, x, k);
    }
  }

  lemma StepKeepsPruned(j: Job, x: Entries, r: Request)
    requires r in j.corpus.requests && Prune(j.corpus, x) == x
    ensures Prune(j.corpus, Step(j, r, x)) == Step(j, r, x)
  {
    var y := Step(j, r, x);
    forall k | k in y
      ensures j.corpus.Requestable(k) || !Owned(y[k])
    {
      StepAt(j, r, x, k);
      if !j.corpus.Requestable(k) {
        assert k !in r.keys;
        assert Get(y, k) == Get(x, k);
        assert k in Prune(j.corpus, x);
      }
    }
  }

  // ----- a run and its crashes

  /** The file is what the entries in memory were when they last changed, up to entries that were only pruned. */
  ghost predicate Sound(j: Job, x: Entries, s: Run) {
    && Prune(j.corpus, s.entries) == s.entries && Prune(j.corpus, s.file.entries) == s.entries
    && (!s.dirty ==> s.file.entries == s.entries)
    && Full(j, s.entries) == Full(j, x)
  }

  lemma BeginIsSound(j: Job, file: AliasSet)
    ensures Sound(j, file.entries, Begin(j, file))
  {
    assert Prune(j.corpus, Prune(j.corpus, file.entries)) == Prune(j.corpus, file.entries);
  }

  lemma AdvanceIsSound(j: Job, v: Visit, x: Entries, s: Run, r: Request)
    requires j.corpus.Valid() && Sound(j, x, s) && r in j.corpus.requests
    ensures Sound(j, x, Advance(j, v, s, r))
  {
    StepKeepsOutcome(j, s.entries, r, Step(j, r, s.entries));
    SavingIsSound(j, v, x, s, r, Step(j, r, s.entries));
  }

  lemma StepKeepsOutcome(j: Job, x: Entries, r: Request, y: Entries)
    requires j.corpus.Valid() && Prune(j.corpus, x) == x && r in j.corpus.requests && y == Step(j, r, x)
    ensures Prune(j.corpus, y) == y && Full(j, y) == Full(j, x)
  {
    var m :| 0 <= m < |j.corpus.requests| && j.corpus.requests[m] == r;
    StepKeepsPruned(j, x, r);
    ApplyAbsorbs(j, x, m);
  }

  lemma SavingIsSound(j: Job, v: Visit, x: Entries, s: Run, r: Request, y: Entries)
    requires Sound(j, x, s) && y == Step(j, r, s.entries) && Prune(j.corpus, y) == y && Full(j, y) == Full(j, s.entries)
    ensures Sound(j, x, Advance(j, v, s, r))
  {
    assert !Answered(j, r, s.entries) ==> y == s.entries;
  }

  lemma {:induction false} RunningIsSound(j: Job, v: Visit, file: AliasSet, n: nat)
    requires j.corpus.Valid() && Covered(j, v) && n <= |v.articles|
    ensures Sound(j, file.entries, Running(j, v, file, n))
    decreases n
  {
    if n == 0 {
      BeginIsSound(j, file);
    } else {
      RunningIsSound(j, v, file, n - 1);
      AdvanceIsSound(j, v, file.entries, Running(j, v, file, n - 1), v.articles[n - 1]);
    }
  }

  /** However far an attempt got, over whichever articles, it does not change what a complete run would leave. */
  lemma AttemptChangesNoOutcome(j: Job, v: Visit, file: AliasSet)
    requires j.corpus.Valid() && Covered(j, v)
    ensures Full(j, Attempt(j, v, file).file.entries) == Full(j, file.entries)
  {
    RunningIsSound(j, v, file, |v.articles|);
  }

  lemma {:induction false} RunningApplies(j: Job, v: Visit, file: AliasSet, n: nat)
    requires n <= |v.articles| && v.articles == j.corpus.requests && !Running(j, v, file, n).stopped
    ensures Running(j, v, file, n).entries == Apply(j, n, Prune(j.corpus, file.entries))
    decreases n
  {
    if n > 0 {
      RunningApplies(j, v, file, n - 1);
      var s := Running(j, v, file, n - 1);
      NothingPendingNothingAnswered(j, v.articles[n - 1], s.entries);
    }
  }

  /** Wherever an attempt stops, the file holds every entry it has written: only the removal of entries that are no longer
      requested can be unsaved, and only as long as no answer came. */
  lemma {:induction false} ProgressIsSaved(j: Job, v: Visit, file: AliasSet, n: nat)
    requires n <= |v.articles|
    ensures var s := Running(j, v, file, n);
            s.file.entries == s.entries || (s.file == file && s.entries == Prune(j.corpus, file.entries))
    ensures Running(j, v, file, n).file.entries != Running(j, v, file, n).entries ==> Running(j, v, file, n).dirty
    decreases n
  {
    if n > 0 {
      ProgressIsSaved(j, v, file, n - 1);
    }
  }

  lemma NothingPendingNothingAnswered(j: Job, r: Request, x: Entries)
    ensures Pending(j, r.keys, x) == [] ==> !Answered(j, r, x)
  {
    if Answered(j, r, x) {
      var i :| 0 <= i < |r.keys| && NeedsGeneration(j, r.keys[i], Get(x, r.keys[i])) && AnswerFor(j.answers(r), r.keys[i]) != None;
      PendingIsNeeded(j, r.keys, x, r.keys[i]);
    }
  }

  /** A run that is not stopped leaves in the file what the whole corpus gives. */
  lemma CompleteRunLeavesFull(j: Job, v: Visit, file: AliasSet)
    requires j.corpus.Valid() && v.articles == j.corpus.requests && !Attempt(j, v, file).stopped
    ensures Attempt(j, v, file).file.entries == Full(j, file.entries)
  {
    RunningApplies(j, v, file, |v.articles|);
    RunningIsSound(j, v, file, |v.articles|);
  }

  function AfterAll(j: Job, visits: seq<Visit>, n: nat, file: AliasSet): AliasSet
    requires n <= |visits|
    decreases n
  {
    if n == 0 then file else Attempt(j, visits[n - 1], AfterAll(j, visits, n - 1, file)).file
  }

  lemma {:induction false} AttemptsChangeNoOutcome(j: Job, visits: seq<Visit>, n: nat, file: AliasSet)
    requires j.corpus.Valid() && n <= |visits| && forall i :: 0 <= i < |visits| ==> Covered(j, visits[i])
    ensures Full(j, AfterAll(j, visits, n, file).entries) == Full(j, file.entries)
    decreases n
  {
    if n > 0 {
      AttemptsChangeNoOutcome(j, visits, n - 1, file);
      AttemptChangesNoOutcome(j, visits[n - 1], AfterAll(j, visits, n - 1, file));
    }
  }

  /** After any history of interrupted and partial runs, a complete run leaves the entries one complete run leaves. */
  lemma ResumedEqualsUninterrupted(j: Job, visits: seq<Visit>, once: Visit, last: Visit, file: AliasSet)
    requires j.corpus.Valid() && forall i :: 0 <= i < |visits| ==> Covered(j, visits[i])
    requires once.articles == j.corpus.requests == last.articles
    requires !Attempt(j, once, file).stopped && !Attempt(j, last, AfterAll(j, visits, |visits|, file)).stopped
    ensures Attempt(j, last, AfterAll(j, visits, |visits|, file)).file.entries == Attempt(j, once, file).file.entries
  {
    AttemptsChangeNoOutcome(j, visits, |visits|, file);
    CompleteRunLeavesFull(j, once, file);
    CompleteRunLeavesFull(j, last, AfterAll(j, visits, |visits|, file));
  }

  // ----- the second run

  lemma FullAt(j: Job, x: Entries, r: Request, k: string)
    requires j.corpus.Valid() && r in j.corpus.requests && k in r.keys
    ensures Get(Full(j, x), k) == Get(Step(j, r, x), k)
  {
    var i :| 0 <= i < |j.corpus.requests| && j.corpus.requests[i] == r;
    ApplyAt(j, |j.corpus.requests|, Prune(j.corpus, x), i, k);
    forall key | key in r.keys
      ensures Get(Prune(j.corpus, x), key) == Get(x, key)
    {
      assert j.corpus.Requestable(key);
    }
    StepIsLocal(j, r, Prune(j.corpus, x), x, k);
  }

  /** After a complete unforced run a unit is asked about again exactly when it was asked about and got no answer. */
  lemma AskedAgainExactlyUnanswered(j: Job, x: Entries, r: Request, k: string)
    requires j.corpus.Valid() && !j.force && r in j.corpus.requests && k in r.keys
    ensures NeedsGeneration(j, k, Get(Full(j, x), k)) <==> NeedsGeneration(j, k, Get(x, k)) && AnswerFor(j.answers(r), k) == None
  {
    FullAt(j, x, r, k);
    StepAt(j, r, x, k);
    if NeedsGeneration(j, k, Get(x, k)) && AnswerFor(j.answers(r), k) != None {
      var i :| 0 <= i < |r.keys| && r.keys[i] == k;
      assert Answered(j, r, x);
    }
  }

  /** Every unit that had to be asked about was answered. */
  ghost predicate AllAnswered(j: Job, x: Entries) {
    forall r, k :: r in j.corpus.requests && k in r.keys && NeedsGeneration(j, k, Get(x, k)) ==> AnswerFor(j.answers(r), k) != None
  }

  ghost predicate NothingNeeded(j: Job, x: Entries) {
    forall r, k :: r in j.corpus.requests && k in r.keys ==> !NeedsGeneration(j, k, Get(x, k))
  }

  lemma NothingNeededExactlyWhenAnswered(j: Job, x: Entries)
    requires j.corpus.Valid() && !j.force
    ensures NothingNeeded(j, Full(j, x)) <==> AllAnswered(j, x)
  {
    forall r, k | r in j.corpus.requests && k in r.keys
      ensures NeedsGeneration(j, k, Get(Full(j, x), k)) <==> NeedsGeneration(j, k, Get(x, k)) && AnswerFor(j.answers(r), k) == None
    {
      AskedAgainExactlyUnanswered(j, x, r, k);
    }
  }

  lemma {:induction false} QuietRun(j: Job, v: Visit, file: AliasSet, n: nat)
    requires Covered(j, v) && n <= |v.articles| && Prune(j.corpus, file.entries) == file.entries && NothingNeeded(j, file.entries)
    ensures Running(j, v, file, n) == Run(file, file.entries, false, [], false)
    decreases n
  {
    if n > 0 {
      QuietRun(j, v, file, n - 1);
      var r := v.articles[n - 1];
      var pending := Pending(j, r.keys, file.entries);
      if pending != [] {
        PendingIsNeeded(j, r.keys, file.entries, pending[0]);
        assert false;
      }
    }
  }

  /** A second unforced run over an unchanged corpus asks nothing and saves nothing when every unit was answered. */
  lemma SecondRunIsQuiet(j: Job, first: Visit, second: Visit, file: AliasSet)
    requires j.corpus.Valid() && !j.force && first.articles == j.corpus.requests && Covered(j, second)
    requires !Attempt(j, first, file).stopped && AllAnswered(j, file.entries)
    ensures var left := Attempt(j, first, file).file; Attempt(j, second, left) == Run(left, left.entries, false, [], false)
  {
    var left := Attempt(j, first, file).file;
    CompleteRunLeavesFull(j, first, file);
    NothingNeededExactlyWhenAnswered(j, file.entries);
    RunningIsSound(j, first, file, |first.articles|);
    QuietRun(j, second, left, |second.articles|);
  }

  // ----- what becomes of an entry

  /** A person's entry outlives every run that is not forced; a forced one replaces it only by written aliases. */
  lemma PersonsEntrySurvives(j: Job, x: Entries, k: string)
    requires j.corpus.Valid() && k in x && !Owned(x[k])
    ensures k in Full(j, x)
    ensures Full(j, x)[k] == x[k] || (j.force && Full(j, x)[k].status == Generated && !Stale(j, k, Full(j, x)[k]))
  {
    if j.corpus.Requestable(k) {
      var i :| 0 <= i < |j.corpus.requests| && k in j.corpus.requests[i].keys;
      FullAt(j, x, j.corpus.requests[i], k);
      StepAt(j, j.corpus.requests[i], x, k);
    } else {
      ApplyOutside(j, |j.corpus.requests|, Prune(j.corpus, x), k);
    }
  }

  /** A stale entry of the generator's outlives a run exactly when the answer to its article named no unit asked about. */
  lemma StaleEntryOutlivesExactly(j: Job, x: Entries, r: Request, k: string)
    requires j.corpus.Valid() && r in j.corpus.requests && k in r.keys
    ensures (k in Full(j, x) && Owned(Full(j, x)[k]) && Stale(j, k, Full(j, x)[k]))
            <==> (k in x && Owned(x[k]) && Stale(j, k, x[k]) && !Answered(j, r, x))
  {
    FullAt(j, x, r, k);
    StepAt(j, r, x, k);
  }

  /** No entry of the generator's is left for a unit it does not request. */
  lemma UnrequestedEntriesGo(j: Job, x: Entries, k: string)
    requires k in Full(j, x) && !j.corpus.Requestable(k)
    ensures k in x && Full(j, x)[k] == x[k] && !Owned(x[k])
  {
    ApplyOutside(j, |j.corpus.requests|, Prune(j.corpus, x), k);
  }

  // ----- what is written

  ghost predicate Clean(t: Texts, aliases: seq<string>) {
    && (forall i :: 0 <= i < |aliases| ==> !t.problem(aliases[i]))
    && forall a, b :: 0 <= a < b < |aliases| ==> t.fold(aliases[a]) != t.fold(aliases[b])
  }

  /** What the entry's own validation asks of its aliases. */
  ghost predicate Accepted(t: Texts, e: Entry) {
    && Clean(t, e.aliases)
    && if e.status == Declined then e.aliases == [] else MIN_ALIASES <= |e.aliases| <= MAX_ALIASES
  }

  lemma {:induction false} KeptIsClean(t: Texts, raw: seq<string>)
    ensures Clean(t, Kept(t, raw))
  {
    if raw != [] {
      KeptIsClean(t, raw[..|raw| - 1]);
    }
  }

  /** What is kept is a normalised answer without a problem. */
  lemma {:induction false} KeptIsAnswer(t: Texts, raw: seq<string>, x: string)
    requires x in Kept(t, raw)
    ensures !t.problem(x) && exists i :: 0 <= i < |raw| && t.normalize(raw[i]) == x
  {
    var n := |raw| - 1;
    if x in Kept(t, raw[..n]) {
      KeptIsAnswer(t, raw[..n], x);
      var i :| 0 <= i < n && t.normalize(raw[..n][i]) == x;
      assert t.normalize(raw[i]) == x;
    } else {
      assert t.normalize(raw[n]) == x;
    }
  }

  lemma StillFolded(t: Texts, kept: seq<string>, more: seq<string>, text: string)
    requires kept <= more && Folded(t, kept, text)
    ensures Folded(t, more, text)
  {
    var m :| 0 <= m < |kept| && t.fold(kept[m]) == t.fold(text);
    assert more[m] == kept[m];
  }

  /** Every normalised answer without a problem is kept up to its folding. */
  lemma {:induction false} AnswerIsKept(t: Texts, raw: seq<string>, i: nat)
    requires i < |raw| && !t.problem(t.normalize(raw[i]))
    ensures Folded(t, Kept(t, raw), t.normalize(raw[i]))
  {
    var n := |raw| - 1;
    var earlier := Kept(t, raw[..n]);
    if i < n {
      AnswerIsKept(t, raw[..n], i);
      StillFolded(t, earlier, Kept(t, raw), t.normalize(raw[i]));
    } else if !Folded(t, earlier, t.normalize(raw[n])) {
      assert Kept(t, raw)[|earlier|] == t.normalize(raw[n]);
    }
  }

  /** After a run over all articles a unit that was asked about and answered with enough aliases carries the first of
      them; with too few, a unit of the generator's own is declined and a person's keeps its entry. */
  lemma AnswersAreWritten(j: Job, x: Entries, i: nat, k: string)
    requires j.corpus.Valid() && i < |j.corpus.requests| && k in j.corpus.requests[i].keys
    requires var e := Get(x, k);
             || e == None || j.force
             || ((e.value.status == Generated || e.value.status == Declined)
                 && (e.value.prompt != Some(j.prompt) || e.value.source != Sha256(j.corpus.source(k))))
    requires AnswerFor(j.answers(j.corpus.requests[i]), k) != None
    ensures var r, e := j.corpus.requests[i], Get(x, k);
            var kept := Kept(j.texts, AnswerFor(j.answers(r), k).value);
            Get(Full(j, x), k) ==
              if |kept| >= 2 then Some(Entry(k, r.provision, Sha256(j.corpus.source(k)), kept[..Min(4, |kept|)], Generated, Some(j.prompt)))
              else if e == None || e.value.status == Generated || e.value.status == Declined then Some(Entry(k, r.provision, Sha256(j.corpus.source(k)), [], Declined, Some(j.prompt)))
              else e
  {
    var r, pruned := j.corpus.requests[i], Prune(j.corpus, x);
    assert j.corpus.Requestable(k);
    assert Get(pruned, k) == Get(x, k);
    ApplyAt(j, |j.corpus.requests|, pruned, i, k);
    var at :| 0 <= at < |r.keys| && r.keys[at] == k;
    assert Answered(j, r, pruned);
    StepAt(j, r, pruned, k);
  }

  /** An entry the generator writes is never refused. */
  lemma WrittenIsAccepted(j: Job, r: Request, k: string)
    requires NewEntry(j, r, k) != None
    ensures Accepted(j.texts, NewEntry(j, r, k).value) && Owned(NewEntry(j, r, k).value) && !Stale(j, k, NewEntry(j, r, k).value)
  {
    KeptIsClean(j.texts, AnswerFor(j.answers(r), k).value);
  }

  // ----- the program

  method ValidAliases(t: Texts, raw: seq<string>) returns (kept: seq<string>)
    ensures kept == Kept(t, raw) && Clean(t, kept)
  {
    kept := [];
    for i := 0 to |raw|
      invariant kept == Kept(t, raw[..i])
    {
      TakeOneMore(raw, i);
      var text := t.normalize(raw[i]);
      if !t.problem(text) && !Folded(t, kept, text) {
        kept := kept + [text];
      }
    }
    assert raw[..|raw|] == raw;
    KeptIsClean(t, raw);
  }

  method NewEntries(j: Job, r: Request, pending: seq<string>) returns (entries: Entries)
    ensures forall k :: Get(entries, k) == if k in pending then NewEntry(j, r, k) else None
  {
    entries := map[];
    for i := 0 to |pending|
      invariant forall k :: Get(entries, k) == if k in pending[..i] then NewEntry(j, r, k) else None
    {
      TakeOneMore(pending, i);
      var key := pending[i];
      var raw := AnswerFor(j.answers(r), key);
      if raw != None {
        var aliases := ValidAliases(j.texts, raw.value);
        var declined := |aliases| < MIN_ALIASES;
        entries := entries[key := Entry(key, r.provision, Sha256(j.corpus.source(key)),
                                        if declined then [] else aliases[..Min(MAX_ALIASES, |aliases|)],
                                        if declined then Declined else Generated, Some(j.prompt))];
      }
    }
    assert pending[..|pending|] == pending;
  }

  /** The entries a run holds in memory and the alias file it rewrites. */
  class AliasGenerator {
    var entries: Entries
    var file: AliasSet

    constructor (file: AliasSet)
      ensures this.file == file && entries == file.entries
    {
      this.file := file;
      entries := file.entries;
    }

    method PruneEntries(c: Corpus) returns (removed: bool)
      modifies this`entries
      ensures entries == Prune(c, old(entries))
      ensures removed <==> entries != old(entries)
    {
      var left := entries.Keys;
      removed := false;
      while left != {}
        invariant left <= old(entries).Keys
        invariant forall k :: Get(entries, k) == if k in left then Get(old(entries), k) else Get(Prune(c, old(entries)), k)
        invariant removed <==> exists k :: k in old(entries) && k !in left && k !in entries
      {
        var key :| key in left;
        assert Get(entries, key) == Get(old(entries), key);
        if !c.Requestable(key) && Owned(entries[key]) {
          entries := entries - {key};
          removed := true;
        }
        left := left - {key};
      }
      SameEntries(entries, Prune(c, old(entries)));
    }

    /** Installs the new entries of the units asked about. */
    method Replace(ghost j: Job, ghost r: Request, pending: seq<string>, made: Entries)
      requires forall k :: Get(made, k) == if k in pending then NewEntry(j, r, k) else None
      requires Distinct(pending)
      modifies this`entries
      ensures forall k :: Get(entries, k) == if k in pending then Replaced(Get(old(entries), k), NewEntry(j, r, k)) else Get(old(entries), k)
    {
      for i := 0 to |pending|
        invariant forall k :: Get(entries, k) == if k in pending[..i] then Replaced(Get(old(entries), k), NewEntry(j, r, k)) else Get(old(entries), k)
      {
        TakeOneMore(pending, i);
        var key := pending[i];
        assert key !in pending[..i];
        assert Get(entries, key) == Get(old(entries), key) && Get(made, key) == NewEntry(j, r, key);
        var owned := key !in entries || Owned(entries[key]);
        if key in made && (owned || made[key].status != Declined) {
          entries := entries[key := made[key]];
        } else if key !in made && key in entries && owned {
          entries := entries - {key};
        }
      }
      assert pending[..|pending|] == pending;
    }

    method PendingUnits(j: Job, r: Request) returns (pending: seq<string>)
      ensures pending == Pending(j, r.keys, entries)
    {
      pending := [];
      for i := 0 to |r.keys|
        invariant pending == Pending(j, r.keys[..i], entries)
      {
        TakeOneMore(r.keys, i);
        assert r.keys[..i + 1][..i] == r.keys[..i];
        if NeedsGeneration(j, r.keys[i], Get(entries, r.keys[i])) {
          pending := pending + [r.keys[i]];
        }
      }
      assert r.keys[..|r.keys|] == r.keys;
    }

    method TakeAnswer(j: Job, r: Request, pending: seq<string>)
      requires Distinct(r.keys) && pending == Pending(j, r.keys, entries)
      modifies this`entries
      ensures entries == Step(j, r, old(entries))
    {
      if !Answered(j, r, entries) {
        return;
      }
      PendingIsDistinct(j, r.keys, entries);
      var made := NewEntries(j, r, pending);
      Replace(j, r, pending, made);
      forall k
        ensures Get(entries, k) == Get(Step(j, r, old(entries)), k)
      {
        PendingIsNeeded(j, r.keys, old(entries), k);
        StepAt(j, r, old(entries), k);
      }
      SameEntries(entries, Step(j, r, old(entries)));
    }

    /** One run: `stopped` when the client raised. */
    method GenerateAliases(j: Job, v: Visit) returns (asked: seq<Request>, stopped: bool)
      requires forall i :: 0 <= i < |v.articles| ==> Distinct(v.articles[i].keys)
      modifies this
      ensures Run(file, entries, Attempt(j, v, old(file)).dirty, asked, stopped) == Attempt(j, v, old(file))
    {
      entries := file.entries;
      var dirty := PruneEntries(j.corpus);
      asked, stopped := [], false;
      for i := 0 to |v.articles|
        invariant Run(file, entries, dirty, asked, false) == Running(j, v, old(file), i)
      {
        var r := v.articles[i];
        ghost var before := Run(file, entries, dirty, asked, false);
        var pending := PendingUnits(j, r);
        if pending != [] {
          if |asked| == v.calls {
            stopped := true;
            StoppedForGood(j, v, old(file), i + 1, |v.articles|);
            return;
          }
          asked := asked + [r];
          var earlier, answered := entries, Answered(j, r, entries);
          TakeAnswer(j, r, pending);
          if answered && (dirty || entries != earlier) {
            file := AliasSet(v.model, v.today, entries);
            dirty := false;
          }
        }
        assert Run(file, entries, dirty, asked, false) == Advance(j, v, before, r);
      }
      if dirty {
        file := AliasSet(v.model, v.today, entries);
      }
    }
  }

  lemma {:induction false} PendingIsDistinct(j: Job, keys: seq<string>, x: Entries)
    requires Distinct(keys)
    ensures Distinct(Pending(j, keys, x))
  {
    if keys != [] {
      var n := |keys| - 1;
      PendingIsDistinct(j, keys[..n], x);
      PendingIsNeeded(j, keys[..n], x, keys[n]);
    }
  }

  lemma {:induction false} StoppedForGood(j: Job, v: Visit, file: AliasSet, i: nat, n: nat)
    requires i <= n <= |v.articles| && Running(j, v, file, i).stopped
    ensures Running(j, v, file, n) == Running(j, v, file, i)
    decreases n
  {
    if i < n {
      StoppedForGood(j, v, file, i, n - 1);
    }
  }
}
