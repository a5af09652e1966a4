/** Tokens kept between lexical searches while searches and writes interleave
    (app/rag/vector_store.py:163-183, 221-257, 835-883). A search runs in three steps and a write in
    two or more; the steps of different operations may come in any order. */
module LexicalTokenCaches {
  import opened Common
  import opened LexicalRanking
  import opened RankedLists

  type Tokens = map<string, seq<Term>>

  datatype Tokenizer = Tokenizer(cached: Tokens, writes: nat)

  /** `_LexicalTokenCache`: tokens by document and chunk text, and the writes counted so far. */
  datatype Cache = Cache(documents: map<string, Tokens>, writes: nat) {
    function Of(doc: string): Tokens { if doc in documents then documents[doc] else map[] }

    function Remember(doc: string, used: Tokens, seen: nat): Cache {
      if used != map[] && seen == writes then Cache(documents[doc := used], writes) else this
    }

    function Forget(docs: set<string>): Cache { Cache(documents - docs, writes + 1) }
  }

  /** A search after it took its tokenizer and, in the second case, after it read and ranked. */
  datatype Search =
    | Started(doc: string, tokenizer: Tokenizer)
    | Finished(doc: string, tokenizer: Tokenizer, used: Tokens)

  /** `rows` by chunk id. `pending` holds the writes that changed rows and have not yet called `forget`. */
  datatype State = State(rows: map<string, Chunk>, cache: Cache, searches: map<nat, Search>, pending: map<nat, set<string>>)

  /** Ranking reads the rows and, unless the query or the document is empty or `k` is below one, tokenizes them. */
  datatype Event =
    | StartSearch(search: nat, doc: string)
    | ReadAndRank(search: nat, tokenizes: bool)
    | RememberTokens(search: nat)
    | Upsert(write: nat, chunks: seq<Chunk>)
    | DeleteIds(write: nat, doc: string, ids: set<string>)
    | DeleteDocument(write: nat, doc: string)
    | ForgetDocuments(write: nat)

  // ----- the steps

  function Put(rows: map<string, Chunk>, chunks: seq<Chunk>): map<string, Chunk> {
    if chunks == [] then rows
    else Put(rows, chunks[..|chunks| - 1])[chunks[|chunks| - 1].id := chunks[|chunks| - 1]]
  }

  function Documents(chunks: seq<Chunk>): set<string> { set c | c in chunks :: c.doc }

  function OfDocument(rows: map<string, Chunk>, doc: string): set<string> { set id | id in rows && rows[id].doc == doc }

  function Texts(rows: map<string, Chunk>, doc: string): set<string> { set id | id in OfDocument(rows, doc) :: rows[id].text }

  function TokensOf(tokens: string -> seq<Term>, cached: Tokens, text: string): seq<Term> {
    if text in cached then cached[text] else tokens(text)
  }

  /** What the tokenizer has used once every chunk of the document went through it. */
  function Used(tokens: string -> seq<Term>, cached: Tokens, texts: set<string>): Tokens {
    map text | text in texts :: TokensOf(tokens, cached, text)
  }

  function Touched(pending: map<nat, set<string>>, write: nat, docs: set<string>): map<nat, set<string>> {
    pending[write := docs + (if write in pending then pending[write] else {})]
  }

  function Step(tokens: string -> seq<Term>, s: State, e: Event): State {
    match e
    case StartSearch(n, doc) => s.(searches := s.searches[n := Started(doc, Tokenizer(s.cache.Of(doc), s.cache.writes))])
    case ReadAndRank(n, tokenizes) =>
      if n in s.searches && s.searches[n].Started? then
        var search := s.searches[n];
        var used := if tokenizes then Used(tokens, search.tokenizer.cached, Texts(s.rows, search.doc)) else map[];
        s.(searches := s.searches[n := Finished(search.doc, search.tokenizer, used)])
      else s
    case RememberTokens(n) =>
      if n in s.searches && s.searches[n].Finished? then
        var search := s.searches[n];
        s.(cache := s.cache.Remember(search.doc, search.used, search.tokenizer.writes), searches := s.searches - {n})
      else s
    case Upsert(w, chunks) => s.(rows := Put(s.rows, chunks), pending := Touched(s.pending, w, Documents(chunks)))
    case DeleteIds(w, doc, ids) => s.(rows := s.rows - ids, pending := Touched(s.pending, w, {doc}))
    case DeleteDocument(w, doc) => s.(rows := s.rows - OfDocument(s.rows, doc), pending := Touched(s.pending, w, {doc}))
    case ForgetDocuments(w) =>
      if w in s.pending then s.(cache := s.cache.Forget(s.pending[w]), pending := s.pending - {w}) else s
  }

  function Run(tokens: string -> seq<Term>, s: State, events: seq<Event>): State {
    if events == [] then s else Step(tokens, Run(tokens, s, events[..|events| - 1]), events[|events| - 1])
  }

  // ----- tokens are those of the text

  ghost predicate Right(tokens: string -> seq<Term>, cached: Tokens) {
    forall text :: text in cached ==> cached[text] == tokens(text)
  }

  ghost predicate TokensRight(tokens: string -> seq<Term>, s: State) {
    && (forall doc :: doc in s.cache.documents ==> Right(tokens, s.cache.documents[doc]))
    && (forall n :: n in s.searches ==> Right(tokens, s.searches[n].tokenizer.cached))
    && (forall n :: n in s.searches && s.searches[n].Finished? ==> Right(tokens, s.searches[n].used))
  }

  // ----- nothing outlives its text

  ghost predicate Covered(s: State, doc: string, text: string) {
    text in Texts(s.rows, doc) || exists w :: w in s.pending && doc in s.pending[w]
  }

  ghost predicate AllCovered(s: State, doc: string, texts: Tokens) {
    forall text :: text in texts ==> Covered(s, doc, text)
  }

  /** Every cached text of a document is still stored, or a write that touched the document has yet to
      forget it. A search that no `forget` has overtaken would leave the cache so. */
  ghost predicate NothingOutlives(s: State) {
    && (forall doc :: doc in s.cache.documents ==> AllCovered(s, doc, s.cache.documents[doc]))
    && (forall n :: n in s.searches && s.searches[n].tokenizer.writes == s.cache.writes && s.searches[n].Finished? ==>
          AllCovered(s, s.searches[n].doc, s.searches[n].used))
    && (forall n :: n in s.searches ==> s.searches[n].tokenizer.writes <= s.cache.writes)
  }

  /** Every id has one document it may ever belong to, as in the ids `{doc_id}:{index}`. */
  ghost predicate AtHome(home: string -> string, s: State) {
    forall id :: id in s.rows ==> s.rows[id].id == id && s.rows[id].doc == home(id)
  }

  ghost predicate Homely(home: string -> string, e: Event) {
    && (e.Upsert? ==> forall c :: c in e.chunks ==> c.doc == home(c.id))
    && (e.DeleteIds? ==> forall id :: id in e.ids ==> home(id) == e.doc)
  }

  lemma {:induction false} PutFacts(home: string -> string, rows: map<string, Chunk>, chunks: seq<Chunk>)
    requires forall c :: c in chunks ==> c.doc == home(c.id)
    requires forall id :: id in rows ==> rows[id].id == id && rows[id].doc == home(id)
    ensures forall id :: id in Put(rows, chunks) ==> Put(rows, chunks)[id].id == id && Put(rows, chunks)[id].doc == home(id)
    ensures forall id :: id in rows ==> id in Put(rows, chunks)
    ensures forall id :: id in rows && Put(rows, chunks)[id] != rows[id] ==> home(id) in Documents(chunks)
  {
    if chunks != [] {
      var n := |chunks| - 1;
      PutFacts(home, rows, chunks[..n]);
      assert chunks == chunks[..n] + [chunks[n]];
      assert chunks[n] in chunks;
    }
  }

  /** A document outside a write keeps its texts. */
  lemma TextsKept(home: string -> string, before: map<string, Chunk>, after: map<string, Chunk>, doc: string)
    requires forall id :: id in before ==> before[id].doc == home(id)
    requires forall id :: id in before && home(id) == doc ==> id in after && after[id] == before[id]
    ensures Texts(before, doc) <= Texts(after, doc)
  {
    forall text | text in Texts(before, doc)
      ensures text in Texts(after, doc)
    {
      var id :| id in OfDocument(before, doc) && before[id].text == text;
      assert id in OfDocument(after, doc);
    }
  }

  /** A step of a write covers whatever it removes. */
  lemma WriteCovers(home: string -> string, s: State, t: State, w: nat, docs: set<string>)
    requires AtHome(home, s) && t.cache == s.cache && t.searches == s.searches && t.pending == Touched(s.pending, w, docs)
    requires forall id :: id in s.rows && home(id) !in docs ==> id in t.rows && t.rows[id] == s.rows[id]
    ensures forall doc, text :: Covered(s, doc, text) ==> Covered(t, doc, text)
  {
    forall doc, text | Covered(s, doc, text)
      ensures Covered(t, doc, text)
    {
      if doc in docs {
        assert w in t.pending && doc in t.pending[w];
      } else if text in Texts(s.rows, doc) {
        TextsKept(home, s.rows, t.rows, doc);
      } else {
        var v :| v in s.pending && doc in s.pending[v];
        assert v in t.pending && doc in t.pending[v];
      }
    }
  }

  lemma StepKeepsTokens(tokens: string -> seq<Term>, s: State, e: Event)
    requires TokensRight(tokens, s)
    ensures TokensRight(tokens, Step(tokens, s, e))
  {
  }

  lemma StepKeepsHome(tokens: string -> seq<Term>, home: string -> string, s: State, e: Event)
    requires AtHome(home, s) && Homely(home, e)
    ensures AtHome(home, Step(tokens, s, e))
  {
    if e.Upsert? {
      PutFacts(home, s.rows, e.chunks);
    }
  }

  lemma StepKeepsCovered(tokens: string -> seq<Term>, home: string -> string, s: State, e: Event)
    requires AtHome(home, s) && Homely(home, e) && NothingOutlives(s)
    ensures NothingOutlives(Step(tokens, s, e))
  {
    var t := Step(tokens, s, e);
    match e
    case StartSearch(n, doc) =>
      SameCover(s, t);
    case ReadAndRank(n, tokenizes) =>
      SameCover(s, t);
    case RememberTokens(n) =>
      SameCover(s, t);
    case Upsert(w, chunks) =>
      PutFacts(home, s.rows, chunks);
      WriteCovers(home, s, t, w, Documents(chunks));
    case DeleteIds(w, doc, ids) =>
      WriteCovers(home, s, t, w, {doc});
    case DeleteDocument(w, doc) =>
      WriteCovers(home, s, t, w, {doc});
    case ForgetDocuments(w) =>
      if w in s.pending {
        ForgetKeepsCovered(s, w);
      }
  }

  lemma SameCover(s: State, t: State)
    requires t.rows == s.rows && t.pending == s.pending
    ensures forall doc, text :: Covered(s, doc, text) <==> Covered(t, doc, text)
  {
  }

  lemma ForgetKeepsCovered(s: State, w: nat)
    requires NothingOutlives(s) && w in s.pending
    ensures NothingOutlives(s.(cache := s.cache.Forget(s.pending[w]), pending := s.pending - {w}))
  {
    var t := s.(cache := s.cache.Forget(s.pending[w]), pending := s.pending - {w});
    forall doc, text | doc in t.cache.documents && text in t.cache.documents[doc]
      ensures Covered(t, doc, text)
    {
      assert Covered(s, doc, text);
      if text !in Texts(s.rows, doc) {
        var v :| v in s.pending && doc in s.pending[v];
        assert v in t.pending;
      }
    }
  }

  ghost predicate Inv(tokens: string -> seq<Term>, home: string -> string, s: State) {
    TokensRight(tokens, s) && AtHome(home, s) && NothingOutlives(s)
  }

  lemma {:induction false} RunKeepsInv(tokens: string -> seq<Term>, home: string -> string, s: State, events: seq<Event>)
    requires Inv(tokens, home, s) && forall e :: e in events ==> Homely(home, e)
    ensures Inv(tokens, home, Run(tokens, s, events))
  {
    if events != [] {
      var n := |events| - 1;
      RunKeepsInv(tokens, home, s, events[..n]);
      var t := Run(tokens, s, events[..n]);
      StepKeepsTokens(tokens, t, events[n]);
      StepKeepsHome(tokens, home, t, events[n]);
      StepKeepsCovered(tokens, home, t, events[n]);
    }
  }

  /** Once every write has called `forget`, the cache holds only texts the store still holds. */
  lemma QuietCacheHoldsStoredText(tokens: string -> seq<Term>, home: string -> string, s: State, events: seq<Event>, doc: string, text: string)
    requires Inv(tokens, home, s) && forall e :: e in events ==> Homely(home, e)
    requires Run(tokens, s, events).pending == map[]
    requires text in Run(tokens, s, events).cache.Of(doc)
    ensures text in Texts(Run(tokens, s, events).rows, doc)
  {
    RunKeepsInv(tokens, home, s, events);
    assert Covered(Run(tokens, s, events), doc, text);
  }

  /** A search that no write comes between leaves the tokens of exactly the stored texts cached. */
  lemma SearchFillsCache(tokens: string -> seq<Term>, s: State, n: nat, doc: string)
    requires TokensRight(tokens, s) && Texts(s.rows, doc) != {}
    ensures var cached := Run(tokens, s, [StartSearch(n, doc), ReadAndRank(n, true), RememberTokens(n)]).cache.Of(doc);
            cached.Keys == Texts(s.rows, doc) && forall text :: text in cached ==> cached[text] == tokens(text)
  {
    var a, b, c := StartSearch(n, doc), ReadAndRank(n, true), RememberTokens(n);
    assert [a, b, c][..2] == [a, b] && [a, b][..1] == [a] && [a][..0] == [];
    var one := Step(tokens, s, a);
    var two := Step(tokens, one, b);
    var three := Step(tokens, two, c);
    assert Run(tokens, s, [a]) == one;
    assert Run(tokens, s, [a, b]) == two;
    assert Run(tokens, s, [a, b, c]) == three;
    StepKeepsTokens(tokens, s, a);
    StepKeepsTokens(tokens, one, b);
    StepKeepsTokens(tokens, two, c);
    var text :| text in Texts(s.rows, doc);
    assert text in two.searches[n].used;
  }

  // ----- the cache cannot be seen in an answer

  /** The rows a search ranks when it lists the chunks in this order. */
  function Entries(tokens: string -> seq<Term>, cached: Tokens, chunks: seq<Chunk>): seq<Row> {
    seq(|chunks|, i requires 0 <= i < |chunks| => Row(chunks[i], TokensOf(tokens, cached, chunks[i].text)))
  }

  lemma CachedSearchRanksAsUncached(tokens: string -> seq<Term>, home: string -> string, s: State, events: seq<Event>,
                                    n: nat, chunks: seq<Chunk>)
    requires Inv(tokens, home, s) && forall e :: e in events ==> Homely(home, e)
    requires n in Run(tokens, s, events).searches
    ensures Entries(tokens, Run(tokens, s, events).searches[n].tokenizer.cached, chunks) == Entries(tokens, map[], chunks)
  {
    RunKeepsInv(tokens, home, s, events);
    var cached := Run(tokens, s, events).searches[n].tokenizer.cached;
    assert Right(tokens, cached);
    forall i | 0 <= i < |chunks|
      ensures TokensOf(tokens, cached, chunks[i].text) == tokens(chunks[i].text)
    {
    }
  }

  /** An upsert that gives a chunk id to another document leaves the old document's text in the cache. */
  lemma MovedChunkOutlives(tokens: string -> seq<Term>)
    ensures var start := State(map["c" := Chunk("c", "a", "old")], Cache(map[], 0), map[], map[]);
            var events := [StartSearch(0, "a"), ReadAndRank(0, true), RememberTokens(0),
                           Upsert(1, [Chunk("c", "b", "new")]), ForgetDocuments(1)];
            var end := Run(tokens, start, events);
            NothingOutlives(start) && end.pending == map[] && "old" in end.cache.Of("a") && "old" !in Texts(end.rows, "a")
  {
    var rows := map["c" := Chunk("c", "a", "old")];
    var start := State(rows, Cache(map[], 0), map[], map[]);
    var moved := [Chunk("c", "b", "new")];
    var used := map["old" := tokens("old")];
    assert OfDocument(rows, "a") == {"c"} && Texts(rows, "a") == {"old"};
    assert Used(tokens, map[], Texts(rows, "a")) == used;
    var s3 := State(rows, Cache(map["a" := used], 0), map[], map[]);
    ThreeSteps(tokens, start, StartSearch(0, "a"), ReadAndRank(0, true), RememberTokens(0));
    var taken := Tokenizer(map[], 0);
    var s1, s2 := start.(searches := map[0 := Started("a", taken)]), start.(searches := map[0 := Finished("a", taken, used)]);
    assert Step(tokens, start, StartSearch(0, "a")) == s1 && Step(tokens, s1, ReadAndRank(0, true)) == s2;
    assert "old" in used && used != map[];
    assert s2.cache.Remember("a", used, 0) == s3.cache;
    assert s2.searches - {0} == map[] && Step(tokens, s2, RememberTokens(0)) == s3;
    MovedAway(tokens, s3, moved);
    TwoMore(tokens, start, StartSearch(0, "a"), ReadAndRank(0, true), RememberTokens(0), Upsert(1, moved), ForgetDocuments(1));
  }

  lemma MovedAway(tokens: string -> seq<Term>, s: State, moved: seq<Chunk>)
    requires moved == [Chunk("c", "b", "new")] && s.pending == map[] && s.rows == map["c" := Chunk("c", "a", "old")]
    ensures var t := Step(tokens, Step(tokens, s, Upsert(1, moved)), ForgetDocuments(1));
            t.rows == map["c" := moved[0]] && t.pending == map[] && t.cache.documents == s.cache.documents - {"b"}
  {
    assert moved[..0] == [];
    assert Put(s.rows, moved) == s.rows["c" := moved[0]] == map["c" := moved[0]];
    assert moved[0] in moved && Documents(moved) == {"b"};
  }

  /** Some write that changed the document has yet to forget it. */
  ghost predicate Awaited(s: State, doc: string) { exists w :: w in s.pending && doc in s.pending[w] }

  function Ids(chunks: seq<Chunk>): set<string> { set c | c in chunks :: c.id }

  /** Some chunk of the document holds the text and its id is not given away. */
  ghost predicate KeepsText(s: State, chunks: seq<Chunk>, doc: string, text: string) {
    exists id :: id in OfDocument(s.rows, doc) && s.rows[id].text == text && id !in Ids(chunks)
  }

  /** Nothing is lost of these tokens of a document: it is forgotten anyway, or every text keeps a chunk. */
  ghost predicate Spares(s: State, chunks: seq<Chunk>, doc: string, texts: Tokens) {
    doc in Documents(chunks) || Awaited(s, doc) || forall text :: text in texts ==> KeepsText(s, chunks, doc, text)
  }

  ghost predicate SparesCache(s: State, chunks: seq<Chunk>) {
    forall doc :: doc in s.cache.documents ==> Spares(s, chunks, doc, s.cache.documents[doc])
  }

  ghost predicate SparesSearches(s: State, chunks: seq<Chunk>) {
    forall n :: n in s.searches && s.searches[n].tokenizer.writes == s.cache.writes && s.searches[n].Finished? ==>
      Spares(s, chunks, s.searches[n].doc, s.searches[n].used)
  }

  lemma {:induction false} PutElsewhere(rows: map<string, Chunk>, chunks: seq<Chunk>, id: string)
    ensures id in Ids(chunks) ==> id in Put(rows, chunks) && Put(rows, chunks)[id].doc in Documents(chunks)
    ensures id !in Ids(chunks) ==> (id in Put(rows, chunks) <==> id in rows) && (id in rows ==> Put(rows, chunks)[id] == rows[id])
  {
    if chunks != [] {
      var n := |chunks| - 1;
      PutElsewhere(rows, chunks[..n], id);
      assert chunks == chunks[..n] + [chunks[n]];
      assert chunks[n] in chunks;
    }
  }

  lemma CoveredAfterUpsert(tokens: string -> seq<Term>, s: State, w: nat, chunks: seq<Chunk>, doc: string, text: string)
    ensures Covered(Step(tokens, s, Upsert(w, chunks)), doc, text)
            <==> doc in Documents(chunks) || Awaited(s, doc) || KeepsText(s, chunks, doc, text)
  {
    var t := Step(tokens, s, Upsert(w, chunks));
    AwaitedAfterUpsert(tokens, s, w, chunks, doc);
    if text in Texts(t.rows, doc) && doc !in Documents(chunks) {
      var id :| id in OfDocument(t.rows, doc) && t.rows[id].text == text;
      PutElsewhere(s.rows, chunks, id);
      assert id in OfDocument(s.rows, doc) && id !in Ids(chunks);
    }
    if KeepsText(s, chunks, doc, text) {
      var id :| id in OfDocument(s.rows, doc) && s.rows[id].text == text && id !in Ids(chunks);
      PutElsewhere(s.rows, chunks, id);
      assert id in OfDocument(t.rows, doc);
    }
  }

  lemma AwaitedAfterUpsert(tokens: string -> seq<Term>, s: State, w: nat, chunks: seq<Chunk>, doc: string)
    ensures Awaited(Step(tokens, s, Upsert(w, chunks)), doc) <==> doc in Documents(chunks) || Awaited(s, doc)
  {
    var t := Step(tokens, s, Upsert(w, chunks));
    assert t.pending[w] == Documents(chunks) + (if w in s.pending then s.pending[w] else {});
    if Awaited(s, doc) {
      var v :| v in s.pending && doc in s.pending[v];
      assert v in t.pending && doc in t.pending[v];
    }
    if Awaited(t, doc) && doc !in Documents(chunks) {
      var v :| v in t.pending && doc in t.pending[v];
      assert v in s.pending && doc in s.pending[v];
    }
  }

  lemma AllCoveredAfterUpsert(tokens: string -> seq<Term>, s: State, w: nat, chunks: seq<Chunk>, doc: string, texts: Tokens)
    ensures AllCovered(Step(tokens, s, Upsert(w, chunks)), doc, texts) <==> Spares(s, chunks, doc, texts)
  {
    forall text
      ensures Covered(Step(tokens, s, Upsert(w, chunks)), doc, text)
              <==> doc in Documents(chunks) || Awaited(s, doc) || KeepsText(s, chunks, doc, text)
    {
      CoveredAfterUpsert(tokens, s, w, chunks, doc, text);
    }
  }

  /** Whatever searches and writes are in flight, an upsert keeps the invariant exactly when every text that is cached,
      or about to be, of a document it does not touch keeps a chunk whose id it does not give away. */
  lemma UpsertIsSafeExactly(tokens: string -> seq<Term>, s: State, w: nat, chunks: seq<Chunk>)
    requires NothingOutlives(s)
    ensures NothingOutlives(Step(tokens, s, Upsert(w, chunks))) <==> SparesCache(s, chunks) && SparesSearches(s, chunks)
  {
    forall doc, texts
      ensures AllCovered(Step(tokens, s, Upsert(w, chunks)), doc, texts) <==> Spares(s, chunks, doc, texts)
    {
      AllCoveredAfterUpsert(tokens, s, w, chunks, doc, texts);
    }
  }

  /** Once its own `forget` followed, the searches in flight no longer matter. */
  lemma ForgottenUpsertIsSafeExactly(tokens: string -> seq<Term>, s: State, w: nat, chunks: seq<Chunk>)
    requires NothingOutlives(s)
    ensures NothingOutlives(Run(tokens, s, [Upsert(w, chunks), ForgetDocuments(w)])) <==> SparesCache(s, chunks)
  {
    var t := Step(tokens, s, Upsert(w, chunks));
    var u := Step(tokens, t, ForgetDocuments(w));
    TwoSteps(tokens, s, Upsert(w, chunks), ForgetDocuments(w));
    assert u.cache.documents == s.cache.documents - t.pending[w];
    forall doc | doc in s.cache.documents
      ensures (doc in u.cache.documents ==> AllCovered(u, doc, u.cache.documents[doc])) <==> Spares(s, chunks, doc, s.cache.documents[doc])
    {
      AllCoveredAfterUpsert(tokens, s, w, chunks, doc, s.cache.documents[doc]);
      AwaitedAfterUpsert(tokens, s, w, chunks, doc);
      if doc in t.pending[w] {
        assert Awaited(t, doc);
      } else {
        ForgetUncovers(t, u, w, doc, s.cache.documents[doc]);
      }
    }
  }

  lemma ForgetUncovers(t: State, u: State, w: nat, doc: string, texts: Tokens)
    requires w in t.pending && u == t.(cache := t.cache.Forget(t.pending[w]), pending := t.pending - {w}) && doc !in t.pending[w]
    ensures AllCovered(u, doc, texts) <==> AllCovered(t, doc, texts)
  {
    forall text
      ensures Covered(u, doc, text) <==> Covered(t, doc, text)
    {
      if v :| v in t.pending && doc in t.pending[v] {
        assert v in u.pending && doc in u.pending[v];
      }
    }
  }

  // ----- what a write's `forget` guarantees

  /** The search took its tokenizer before the last write. */
  ghost predicate Outdated(s: State, n: nat) { n in s.searches ==> s.searches[n].tokenizer.writes < s.cache.writes }

  /** After a `forget` no tokens of the written documents remain, and every search in flight is outdated. */
  lemma ForgetLeavesNothing(tokens: string -> seq<Term>, s: State, w: nat)
    requires NothingOutlives(s) && w in s.pending
    ensures var t := Step(tokens, s, ForgetDocuments(w));
            && (forall doc :: doc in s.pending[w] ==> t.cache.Of(doc) == map[])
            && (forall n :: n in t.searches ==> Outdated(t, n))
  {
  }

  /** An outdated search changes the cache at no later point, whatever happens before it remembers. */
  lemma {:induction false} LateSearchIsIgnored(tokens: string -> seq<Term>, s: State, events: seq<Event>, n: nat)
    requires Outdated(s, n) && forall e :: e in events ==> !(e.StartSearch? && e.search == n)
    ensures Outdated(Run(tokens, s, events), n)
    ensures Step(tokens, Run(tokens, s, events), RememberTokens(n)).cache == Run(tokens, s, events).cache
  {
    if events != [] {
      LateSearchIsIgnored(tokens, s, events[..|events| - 1], n);
      assert events[|events| - 1] in events;
    }
  }

  lemma TwoMore(tokens: string -> seq<Term>, s: State, a: Event, b: Event, c: Event, d: Event, e: Event)
    ensures Run(tokens, s, [a, b, c, d, e]) == Step(tokens, Step(tokens, Run(tokens, s, [a, b, c]), d), e)
  {
    assert [a, b, c, d, e][..4] == [a, b, c, d] && [a, b, c, d][..3] == [a, b, c];
    assert Run(tokens, s, [a, b, c, d]) == Step(tokens, Run(tokens, s, [a, b, c]), d);
  }

  // ----- the program

  /** `_SearchTokenizer`. */
  class SearchTokenizer {
    const cached: Tokens
    const writes: nat
    var used: Tokens

    constructor (cached: Tokens, writes: nat)
      ensures this.cached == cached && this.writes == writes && used == map[]
    {
      this.cached, this.writes, used := cached, writes, map[];
    }

    method TokensAndCounts(tokens: string -> seq<Term>, chunk: Chunk) returns (entry: seq<Term>)
      modifies this
      ensures entry == TokensOf(tokens, cached, chunk.text) && used == old(used)[chunk.text := entry]
    {
      if chunk.text in cached {
        entry := cached[chunk.text];
      } else {
        entry := tokens(chunk.text);
      }
      used := used[chunk.text := entry];
    }
  }

  /** `_LexicalTokenCache`. */
  class LexicalTokenCache {
    var documents: map<string, Tokens>
    var writes: nat

    ghost function Value(): Cache
      reads this
    {
      Cache(documents, writes)
    }

    constructor ()
      ensures Value() == Cache(map[], 0)
    {
      documents, writes := map[], 0;
    }

    method Tokenizer(doc: string) returns (tokenizer: SearchTokenizer)
      ensures fresh(tokenizer) && tokenizer.cached == Value().Of(doc) && tokenizer.writes == writes && tokenizer.used == map[]
    {
      tokenizer := new SearchTokenizer(if doc in documents then documents[doc] else map[], writes);
    }

    method Remember(doc: string, tokenizer: SearchTokenizer)
      modifies this
      ensures Value() == old(Value()).Remember(doc, tokenizer.used, tokenizer.writes)
    {
      if tokenizer.used != map[] && tokenizer.writes == writes {
        documents := documents[doc := tokenizer.used];
      }
    }

    method Forget(docs: set<string>)
      modifies this
      ensures Value() == old(Value()).Forget(docs)
    {
      writes := writes + 1;
      documents := documents - docs;
    }
  }

  ghost function RowsOf(tokens: string -> seq<Term>, rows: map<string, Chunk>, doc: string): set<Row> {
    set id | id in OfDocument(rows, doc) :: Row(rows[id], tokens(rows[id].text))
  }

  /** The rows and tokens of the in-process store; each of its operations runs without interruption. */
  class InMemoryVectorStore {
    var rows: map<string, Chunk>
    const tokenCache: LexicalTokenCache

    constructor ()
      ensures rows == map[] && fresh(tokenCache) && tokenCache.Value() == Cache(map[], 0)
    {
      rows := map[];
      tokenCache := new LexicalTokenCache();
    }

    ghost predicate Valid(tokens: string -> seq<Term>)
      reads this, tokenCache
    {
      && (forall id :: id in rows ==> rows[id].id == id)
      && (forall doc :: doc in tokenCache.documents ==> Right(tokens, tokenCache.documents[doc]))
    }

    /** The store as a state with nothing in flight. */
    ghost function Quiet(): State
      reads this, tokenCache
    {
      State(rows, tokenCache.Value(), map[], map[])
    }

    method Upsert(ghost tokens: string -> seq<Term>, chunks: seq<Chunk>)
      requires Valid(tokens)
      modifies this, tokenCache
      ensures Valid(tokens) && Quiet() == Run(tokens, old(Quiet()), [Event.Upsert(0, chunks), ForgetDocuments(0)])
    {
      ghost var before := Quiet();
      rows := Put(rows, chunks);
      PutIds(old(rows), chunks);
      tokenCache.Forget(Documents(chunks));
      TwoSteps(tokens, before, Event.Upsert(0, chunks), ForgetDocuments(0));
    }

    method DeleteDocument(ghost tokens: string -> seq<Term>, doc: string)
      requires Valid(tokens)
      modifies this, tokenCache
      ensures Valid(tokens) && Quiet() == Run(tokens, old(Quiet()), [Event.DeleteDocument(0, doc), ForgetDocuments(0)])
    {
      ghost var before := Quiet();
      rows := rows - OfDocument(rows, doc);
      tokenCache.Forget({doc});
      TwoSteps(tokens, before, Event.DeleteDocument(0, doc), ForgetDocuments(0));
    }

    /** False for chunks of several documents, which are refused. */
    method ReplaceDocument(ghost tokens: string -> seq<Term>, chunks: seq<Chunk>) returns (ok: bool)
      requires Valid(tokens)
      modifies this, tokenCache
      ensures Valid(tokens) && ok == (|Documents(chunks)| <= 1)
      ensures !ok || chunks == [] ==> Quiet() == old(Quiet())
      ensures ok && chunks != [] ==>
        Quiet() == Run(tokens, old(Quiet()), [Event.DeleteDocument(0, chunks[0].doc), Event.Upsert(0, chunks), ForgetDocuments(0)])
    {
      if chunks == [] {
        return true;
      }
      if |Documents(chunks)| != 1 {
        assert chunks[0].doc in Documents(chunks);
        return false;
      }
      ghost var before := Quiet();
      var doc := chunks[0].doc;
      OnlyDocument(chunks);
      var retained := rows - OfDocument(rows, doc);
      PutIds(retained, chunks);
      rows := Put(retained, chunks);
      tokenCache.Forget({doc});
      ThreeSteps(tokens, before, Event.DeleteDocument(0, doc), Event.Upsert(0, chunks), ForgetDocuments(0));
      return true;
    }

    /** The answer over cached tokens is the staged query's over the stored text. */
    method LexicalQuery(env: Surroundings, tokens: string -> seq<Term>, query: string, doc: string, k: int)
      returns (ranked: seq<Ranked<Chunk>>)
      requires TotalOrder(env.before) && Valid(tokens)
      modifies tokenCache
      ensures Valid(tokens) && SqlAnswer(env, tokens(query), RowsOf(tokens, rows, doc), k, ranked)
      ensures tokenCache.writes == old(tokenCache.writes)
      ensures tokenCache.documents == old(tokenCache.documents)
              || tokenCache.documents == old(tokenCache.documents)[doc := Used(tokens, map[], Texts(rows, doc))]
    {
      var tokenizer := tokenCache.Tokenizer(doc);
      var entries := [];
      if k >= 1 && tokens(query) != [] {
        entries := ListEntries(tokens, tokenizer, doc);
        ranked := Bm25Rank(env, tokens(query), entries, k);
      } else {
        ranked := [];
      }
      tokenCache.Remember(doc, tokenizer);
    }

    method ListEntries(tokens: string -> seq<Term>, tokenizer: SearchTokenizer, doc: string) returns (entries: seq<Row>)
      requires Valid(tokens) && Right(tokens, tokenizer.cached) && tokenizer.used == map[]
      modifies tokenizer
      ensures DistinctEntries(entries) && Elements(entries) == RowsOf(tokens, rows, doc)
      ensures tokenizer.used == Used(tokens, map[], Texts(rows, doc))
    {
      entries := [];
      var pending := OfDocument(rows, doc);
      while pending != {}
        invariant pending <= OfDocument(rows, doc) && Listed(tokens, rows, OfDocument(rows, doc) - pending, entries, tokenizer.used)
      {
        var id :| id in pending;
        ghost var used := tokenizer.used;
        var entry := tokenizer.TokensAndCounts(tokens, rows[id]);
        ListedOneMore(tokens, rows, OfDocument(rows, doc) - pending, entries, used, id);
        assert OfDocument(rows, doc) - (pending - {id}) == OfDocument(rows, doc) - pending + {id};
        entries := entries + [Row(rows[id], entry)];
        pending := pending - {id};
      }
    }
  }

  ghost predicate Listed(tokens: string -> seq<Term>, rows: map<string, Chunk>, ids: set<string>, entries: seq<Row>, used: Tokens) {
    && ids <= rows.Keys && DistinctEntries(entries)
    && Elements(entries) == (set id | id in ids :: Row(rows[id], tokens(rows[id].text)))
    && used == Used(tokens, map[], set id | id in ids :: rows[id].text)
  }

  lemma ListedOneMore(tokens: string -> seq<Term>, rows: map<string, Chunk>, ids: set<string>, entries: seq<Row>, used: Tokens, id: string)
    requires Listed(tokens, rows, ids, entries, used) && id in rows && id !in ids
    requires forall i :: i in rows ==> rows[i].id == i
    ensures Listed(tokens, rows, ids + {id}, entries + [Row(rows[id], tokens(rows[id].text))], used[rows[id].text := tokens(rows[id].text)])
  {
    var row := Row(rows[id], tokens(rows[id].text));
    forall i | 0 <= i < |entries|
      ensures entries[i].chunk.id != id
    {
      assert entries[i] in Elements(entries);
    }
    assert Elements(entries + [row]) == Elements(entries) + {row};
  }

  lemma {:induction false} PutIds(rows: map<string, Chunk>, chunks: seq<Chunk>)
    requires forall id :: id in rows ==> rows[id].id == id
    ensures forall id :: id in Put(rows, chunks) ==> Put(rows, chunks)[id].id == id
  {
    if chunks != [] {
      PutIds(rows, chunks[..|chunks| - 1]);
    }
  }

  lemma OnlyDocument(chunks: seq<Chunk>)
    requires chunks != [] && |Documents(chunks)| == 1
    ensures Documents(chunks) == {chunks[0].doc}
  {
    var doc := chunks[0].doc;
    assert doc in Documents(chunks);
    assert |Documents(chunks) - {doc}| == 0;
    assert Documents(chunks) == Documents(chunks) - {doc} + {doc};
  }

  lemma ThreeSteps(tokens: string -> seq<Term>, s: State, a: Event, b: Event, c: Event)
    ensures Run(tokens, s, [a, b, c]) == Step(tokens, Step(tokens, Step(tokens, s, a), b), c)
  {
    TwoSteps(tokens, s, a, b);
    assert [a, b, c][..2] == [a, b];
  }

  lemma TwoSteps(tokens: string -> seq<Term>, s: State, a: Event, b: Event)
    ensures Run(tokens, s, [a, b]) == Step(tokens, Step(tokens, s, a), b)
  {
    assert [a, b][..1] == [a] && [a][..0] == [];
    assert Run(tokens, s, [a]) == Step(tokens, s, a);
  }
}
