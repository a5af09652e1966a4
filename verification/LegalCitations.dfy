/** Citing undoes chunking (app/consumer/legal_corpus.py:905-919, 979-1074; app/consumer/schemas.py:443-444):
    a canonical chunk is found by its id, its unit read back from the id, and its prefix taken off again. */
module LegalCitations {
  import opened Common
  import opened Text
  import opened LegalChunkIds
  import opened LegalCorpora
  import Chunking
  import LegalPacking

  // ----- ids are distinct

  ghost predicate AllLegal(keys: Keys) {
    forall key :: key in keys.parts || key in keys.aliases || key in keys.articles ==> LegalId(key)
  }

  ghost predicate LegalIds(c: Corpus) {
    && ColonFree(c.doc)
    && (forall k :: 0 <= k < |c.provisions| ==> LegalId(c.provisions[k].id))
    && (forall k, j :: 0 <= k < |c.provisions| && 0 <= j < |c.provisions[k].units| ==> LegalId(c.provisions[k].units[j].id))
  }

  lemma {:induction false} SlotsAreUnits(units: seq<Unit>, i: nat)
    requires i < |Slots(units)|
    ensures Slots(units)[i].Some? && Slots(units)[i].value in units && Slots(units)[i].value.indexed
    decreases |units|
  {
    if i < |Slots(units[..|units| - 1])| {
      SlotsAreUnits(units[..|units| - 1], i);
    }
  }

  lemma SlotKeyIsLegal(c: Corpus, k: nat, i: nat)
    requires LegalIds(c) && k < |c.provisions| && i < |SlotsOf(c.provisions[k])|
    ensures LegalId(Key(c.provisions[k], SlotsOf(c.provisions[k])[i]))
  {
    if c.provisions[k].units != [] {
      SlotsAreUnits(c.provisions[k].units, i);
    }
  }

  lemma {:induction false} KeysAreLegal(c: Corpus, n: nat)
    requires LegalIds(c) && n <= |c.provisions|
    ensures AllLegal(KeysUpTo(c, n))
    decreases n
  {
    if n > 0 {
      KeysAreLegal(c, n - 1);
      var p := c.provisions[n - 1];
      SlotKeysAre(p, SlotsOf(p));
      forall key | key in SlotKeys(p, SlotsOf(p))
        ensures LegalId(key)
      {
        var i :| 0 <= i < |SlotsOf(p)| && Key(p, SlotsOf(p)[i]) == key;
        SlotKeyIsLegal(c, n - 1, i);
      }
    }
  }

  /** Ids are written as this system writes them. */
  ghost predicate WritesIds(c: Corpus) { forall name: Name :: c.write(name) == name.In(c.doc) }

  ghost predicate UniqueIds(drafts: seq<Draft>, write: Name -> string) {
    forall i, j :: 0 <= i < j < |drafts| ==> write(drafts[i].name) != write(drafts[j].name)
  }

  lemma NamedIsUnique(c: Corpus, drafts: seq<Draft>, keys: Keys)
    requires ColonFree(c.doc) && WritesIds(c) && Named(drafts, keys) && AllLegal(keys)
    ensures UniqueIds(drafts, c.write)
  {
    var names := NamesOf(drafts);
    forall i, j | 0 <= i < j < |drafts|
      ensures c.write(drafts[i].name) != c.write(drafts[j].name)
    {
      NameIsLegal(names, keys, i);
      NameIsLegal(names, keys, j);
      assert names[i] != names[j];
      if c.write(drafts[i].name) == c.write(drafts[j].name) {
        IdIsInjective(c.doc, names[i], names[j]);
      }
    }
  }

  /** No two chunks of a corpus with unique keys have one id. */
  lemma ChunkIdsDistinct(c: Corpus, target: nat)
    requires LegalIds(c) && DistinctKeys(c) && WritesIds(c)
    ensures UniqueIds(AllDrafts(c, target), c.write)
  {
    AllDraftsNamed(c, target);
    KeysAreLegal(c, |c.provisions|);
    NamedIsUnique(c, AllDrafts(c, target), KeysUpTo(c, |c.provisions|));
  }

  lemma NameIsLegal(names: seq<Name>, keys: Keys, i: nat)
    requires Within(names, keys) && AllLegal(keys) && i < |names|
    ensures LegalId(names[i].key)
  {
  }

  // ----- citing

  datatype CiteError =
    | TargetTooSmall | UnknownChunk | AlteredChunk | AlteredMetadata | NoOfficialPart | WrongDocument | UnknownPage
    | BadPrefix | EmptyBody | NotInUnit

  datatype Citation = Citation(provision: string, unit: Option<string>, excerpt: string, chunkId: string, matched: Option<string>)

  datatype Result = Cited(citation: Citation) | Refused(error: CiteError)

  function FindDraft(drafts: seq<Draft>, write: Name -> string, id: string): (r: Option<Draft>)
    ensures r.Some? ==> r.value in drafts && write(r.value.name) == id
    decreases |drafts|
  {
    if drafts == [] then None
    else if write(drafts[0].name) == id then Some(drafts[0])
    else FindDraft(drafts[1..], write, id)
  }

  lemma {:induction false} FindDraftFinds(drafts: seq<Draft>, write: Name -> string, d: Draft)
    requires d in drafts
    ensures FindDraft(drafts, write, write(d.name)).Some?
    decreases |drafts|
  {
    if write(drafts[0].name) != write(d.name) {
      FindDraftFinds(drafts[1..], write, d);
    }
  }

  lemma UniqueFound(drafts: seq<Draft>, write: Name -> string, d: Draft)
    requires UniqueIds(drafts, write) && d in drafts
    ensures FindDraft(drafts, write, write(d.name)) == Some(d)
  {
    FindDraftFinds(drafts, write, d);
    var found := FindDraft(drafts, write, write(d.name)).value;
    var i :| 0 <= i < |drafts| && drafts[i] == d;
    var j :| 0 <= j < |drafts| && drafts[j] == found;
  }

  /** `unit_for_chunk`: the first unit of the provision with a marker in the id. */
  function UnitFor(units: seq<Unit>, id: string): Option<Unit>
    decreases |units|
  {
    if units == [] then None
    else if Find(id, Marker(units[0].id, "part-"), 0).Some? || Find(id, Marker(units[0].id, "alias-"), 0).Some? then Some(units[0])
    else UnitFor(units[1..], id)
  }

  function QuotedDraft(drafts: seq<Draft>, write: Name -> string, d: Draft): Option<Draft> {
    if d.meta.level != AliasLevel then Some(d)
    else FindDraft(drafts, write, write(Part(if d.meta.unit.Some? then d.meta.unit.value else d.meta.provision, 1)))
  }

  /** The excerpt of a quoted chunk: the text behind the prefix that its level, provision and unit give. */
  function Excerpt(p: Provision, u: Option<Unit>, d: Draft): Result {
    var prefix := if d.meta.level == UnitLevel then PrefixOf(p, u) else Prefix(p.header, []);
    if !(prefix <= d.text) then Refused(BadPrefix)
    else
      var body := d.text[|prefix|..];
      if body == [] then Refused(EmptyBody)
      else if u.Some? && Find(u.value.text, body, 0) == None then Refused(NotInUnit)
      else Cited(Citation(p.id, if u.Some? then Some(u.value.id) else None, body, [], None))
  }

  /** The excerpt of a draft from the provision its page counts to. */
  function Excerpts(c: Corpus): Draft -> Result {
    (q: Draft) =>
      if q.page < 1 || q.page > |c.provisions| then Refused(UnknownPage)
      else Excerpt(c.provisions[q.page - 1], UnitFor(c.provisions[q.page - 1].units, c.write(q.name)), q)
  }

  function CiteDraft(excerpt: Draft -> Result, write: Name -> string, drafts: seq<Draft>, d: Draft): Result {
    match QuotedDraft(drafts, write, d)
    case None => Refused(NoOfficialPart)
    case Some(q) =>
      match excerpt(q)
      case Refused(error) => Refused(error)
      case Cited(citation) =>
        Cited(citation.(chunkId := write(q.name), matched := if d.name == q.name then None else Some(write(d.name))))
  }

  /** `authority_for_chunk` for a chunk read from a store. */
  function Cite(c: Corpus, chunk: Chunk): Result {
    if TargetOf(chunk) < 200 then Refused(TargetTooSmall) else CiteFrom(c, AllDrafts(c, TargetOf(chunk)), chunk)
  }

  /** The size a chunk says it was made with. */
  function TargetOf(chunk: Chunk): nat { if chunk.meta.Some? then chunk.meta.value.target else DEFAULT_TARGET }

  function CiteFrom(c: Corpus, drafts: seq<Draft>, chunk: Chunk): Result {
    match FindDraft(drafts, c.write, chunk.id)
    case None => Refused(UnknownChunk)
    case Some(d) =>
      if !SamePayload(chunk, Written(c, d)) then Refused(AlteredChunk)
      else if !SameMeta(chunk, Written(c, d)) then Refused(AlteredMetadata)
      else CiteDraft(Excerpts(c), c.write, drafts, d)
  }

  predicate SamePayload(chunk: Chunk, canonical: Chunk) { chunk.(meta := None) == canonical.(meta := None) }

  /** Missing metadata is tolerated. */
  predicate SameMeta(chunk: Chunk, canonical: Chunk) { chunk.meta == None || chunk.meta == canonical.meta }

  // ----- membership of the canonical chunks

  lemma {:induction false} PartInParts(c: Corpus, p: Provision, page: nat, target: nat, slots: seq<Option<Unit>>, j: nat, i: nat)
    requires j < |slots| && i < |Pieces(c, p, slots[j], target)|
    ensures PartDraft(p, slots[j], page, target, i, Pieces(c, p, slots[j], target)[i]) in AllParts(c, p, page, target, slots)
    decreases |slots|
  {
    var n := |slots| - 1;
    if j < n {
      PartInParts(c, p, page, target, slots[..n], j, i);
    } else {
      PartsAre(p, slots[j], page, target, Pieces(c, p, slots[j], target));
    }
  }

  lemma {:induction false} AliasInAliases(c: Corpus, p: Provision, page: nat, target: nat, slots: seq<Option<Unit>>, j: nat)
    requires j < |slots| && Key(p, slots[j]) in c.aliases
    ensures AliasDraft(c, p, slots[j], page, target) in AliasDrafts(c, p, page, target, slots)
    decreases |slots|
  {
    var n := |slots| - 1;
    if j < n {
      AliasInAliases(c, p, page, target, slots[..n], j);
    }
  }

  /** The j-th indexed unit of the k-th provision has an i-th part. */
  predicate IsPart(c: Corpus, target: nat, k: nat, j: nat, i: nat) {
    && k < |c.provisions| && c.provisions[k].indexed && j < |SlotsOf(c.provisions[k])|
    && i < |Pieces(c, c.provisions[k], SlotsOf(c.provisions[k])[j], target)|
  }

  predicate HasAlias(c: Corpus, k: nat, j: nat) {
    && k < |c.provisions| && c.provisions[k].indexed && j < |SlotsOf(c.provisions[k])|
    && Key(c.provisions[k], SlotsOf(c.provisions[k])[j]) in c.aliases
  }

  /** That part. */
  function PartOf(c: Corpus, target: nat, k: nat, j: nat, i: nat): Draft
    requires IsPart(c, target, k, j, i)
  {
    var p := c.provisions[k];
    PartDraft(p, SlotsOf(p)[j], k + 1, target, i, Pieces(c, p, SlotsOf(p)[j], target)[i])
  }

  lemma PartIsCanonical(c: Corpus, target: nat, k: nat, j: nat, i: nat)
    requires IsPart(c, target, k, j, i)
    ensures PartOf(c, target, k, j, i) in AllDrafts(c, target)
  {
    var p := c.provisions[k];
    PartInParts(c, p, k + 1, target, SlotsOf(p), j, i);
    ProvisionInDrafts(c, target, k, PartOf(c, target, k, j, i));
  }

  // ----- the unit is read back

  ghost predicate DistinctUnits(c: Corpus) {
    forall k :: 0 <= k < |c.provisions| ==> DistinctUnitIds(c.provisions[k].units)
  }

  ghost predicate DistinctUnitIds(units: seq<Unit>) {
    forall i, j :: 0 <= i < j < |units| ==> units[i].id != units[j].id
  }

  lemma {:induction false} UnitForFinds(units: seq<Unit>, doc: string, name: Name, u: Unit)
    requires ColonFree(doc) && LegalId(name.key) && forall i :: 0 <= i < |units| ==> LegalId(units[i].id)
    requires DistinctUnitIds(units) && u in units && name.key == u.id && !name.Article?
    ensures UnitFor(units, name.In(doc)) == Some(u)
    decreases |units|
  {
    MarkerFound(doc, name, units[0].id);
    if units[0] != u {
      var i :| 0 <= i < |units| && units[i] == u;
      assert units[1..][i - 1] == u;
      UnitForFinds(units[1..], doc, name, u);
    }
  }

  lemma MarkerFound(doc: string, name: Name, unit: string)
    requires ColonFree(doc) && LegalId(name.key) && LegalId(unit)
    ensures var id := name.In(doc);
            Find(id, Marker(unit, "part-"), 0).Some? || Find(id, Marker(unit, "alias-"), 0).Some? <==> unit == name.key && !name.Article?
  {
    IdNamesItsUnit(doc, name, unit);
    FindFinds(name.In(doc), Marker(unit, "part-"));
    FindFinds(name.In(doc), Marker(unit, "alias-"));
  }

  lemma {:induction false} UnitForFindsNone(units: seq<Unit>, doc: string, name: Name)
    requires ColonFree(doc) && LegalId(name.key) && forall i :: 0 <= i < |units| ==> LegalId(units[i].id)
    requires name.Article?
    ensures UnitFor(units, name.In(doc)) == None
    decreases |units|
  {
    if units != [] {
      MarkerFound(doc, name, units[0].id);
      UnitForFindsNone(units[1..], doc, name);
    }
  }

  // ----- citing undoes chunking

  /** Splitting a trimmed text gives at least one piece, and every piece is part of the text. */
  ghost predicate SplitsFaithfully(tools: Tools) {
    forall text: string, budget: nat :: budget >= 1 && text != [] && Chunking.Trimmed(text) ==> GoodPieces(tools.split(text, budget), text)
  }

  ghost predicate GoodPieces(pieces: seq<string>, text: string) {
    pieces != [] && forall i :: 0 <= i < |pieces| ==> pieces[i] != [] && Occurs(text, pieces[i])
  }

  ghost predicate TrimmedTexts(c: Corpus) {
    && (forall k :: 0 <= k < |c.provisions| && c.provisions[k].units == [] ==>
          c.provisions[k].text != [] && Chunking.Trimmed(c.provisions[k].text))
    && (forall k, j :: 0 <= k < |c.provisions| && 0 <= j < |c.provisions[k].units| ==>
          c.provisions[k].units[j].text != [] && Chunking.Trimmed(c.provisions[k].units[j].text))
  }

  ghost predicate Valid(c: Corpus) {
    LegalIds(c) && DistinctKeys(c) && DistinctUnits(c) && TrimmedTexts(c) && SplitsFaithfully(c.tools) && WritesIds(c)
  }

  lemma SlotFacts(c: Corpus, target: nat, k: nat, j: nat)
    requires Valid(c) && k < |c.provisions| && j < |SlotsOf(c.provisions[k])|
    ensures var p := c.provisions[k];
            var u := SlotsOf(p)[j];
            && LegalId(Key(p, u)) && (u.Some? ==> u.value in p.units) && (u.None? ==> p.units == [])
            && GoodPieces(Pieces(c, p, u, target), Body(p, u))
  {
    var p := c.provisions[k];
    SlotKeyIsLegal(c, k, j);
    if p.units != [] {
      SlotsAreUnits(p.units, j);
      var i :| 0 <= i < |p.units| && p.units[i] == SlotsOf(p)[j].value;
      assert p.units[i].text != [] && Chunking.Trimmed(p.units[i].text);
    }
  }

  /** What citing a part must give. */
  function PartCitation(c: Corpus, target: nat, k: nat, j: nat, i: nat): Citation
    requires IsPart(c, target, k, j, i)
  {
    var p := c.provisions[k];
    var u := SlotsOf(p)[j];
    Citation(p.id, if u.Some? then Some(u.value.id) else None, Pieces(c, p, u, target)[i], c.write(Part(Key(p, u), i + 1)), None)
  }

  lemma PartExcerpt(c: Corpus, target: nat, k: nat, j: nat, i: nat)
    requires Valid(c) && IsPart(c, target, k, j, i)
    ensures var p, d := c.provisions[k], PartOf(c, target, k, j, i);
            Excerpt(p, UnitFor(p.units, c.write(d.name)), d) == Cited(PartCitation(c, target, k, j, i).(chunkId := []))
  {
    var p, d := c.provisions[k], PartOf(c, target, k, j, i);
    var u := SlotsOf(p)[j];
    SlotFacts(c, target, k, j);
    if u.Some? {
      UnitForFinds(p.units, c.doc, d.name, u.value);
    }
    PieceExcerpt(p, u, d, Pieces(c, p, u, target)[i]);
  }

  lemma PieceExcerpt(p: Provision, u: Option<Unit>, d: Draft, piece: string)
    requires d.text == PrefixOf(p, u) + piece && piece != [] && Occurs(Body(p, u), piece)
    requires d.meta.level == if u.Some? then UnitLevel else ProvisionLevel
    ensures Excerpt(p, u, d) == Cited(Citation(p.id, if u.Some? then Some(u.value.id) else None, piece, [], None))
  {
    assert d.text[|PrefixOf(p, u)|..] == piece;
    if u.Some? {
      FindFinds(u.value.text, piece);
    }
  }

  /** Citing from unique chunks: `d` is looked up, `q` quoted, `e` its excerpt. */
  lemma CiteFromGives(c: Corpus, drafts: seq<Draft>, chunk: Chunk, d: Draft, q: Draft, e: Citation)
    requires UniqueIds(drafts, c.write) && d in drafts && q in drafts && 1 <= q.page <= |c.provisions|
    requires chunk.id == c.write(d.name) && SamePayload(chunk, Written(c, d)) && SameMeta(chunk, Written(c, d))
    requires if d.meta.level != AliasLevel then q == d else q.name == Part(if d.meta.unit.Some? then d.meta.unit.value else d.meta.provision, 1)
    requires Excerpt(c.provisions[q.page - 1], UnitFor(c.provisions[q.page - 1].units, c.write(q.name)), q) == Cited(e)
    ensures CiteFrom(c, drafts, chunk)
            == Cited(e.(chunkId := c.write(q.name), matched := if d.name == q.name then None else Some(c.write(d.name))))
  {
    UniqueFound(drafts, c.write, d);
    assert CiteFrom(c, drafts, chunk) == CiteDraft(Excerpts(c), c.write, drafts, d);
    QuotedFound(drafts, c.write, d, q);
    assert Excerpts(c)(q) == Cited(e);
    QuotedGives(Excerpts(c), c.write, drafts, d, q, e);
  }

  lemma QuotedGives(excerpt: Draft -> Result, write: Name -> string, drafts: seq<Draft>, d: Draft, q: Draft, e: Citation)
    requires QuotedDraft(drafts, write, d) == Some(q) && excerpt(q) == Cited(e)
    ensures CiteDraft(excerpt, write, drafts, d)
            == Cited(e.(chunkId := write(q.name), matched := if d.name == q.name then None else Some(write(d.name))))
  {
  }

  lemma QuotedFound(drafts: seq<Draft>, write: Name -> string, d: Draft, q: Draft)
    requires UniqueIds(drafts, write) && q in drafts
    requires if d.meta.level != AliasLevel then q == d else q.name == Part(if d.meta.unit.Some? then d.meta.unit.value else d.meta.provision, 1)
    ensures QuotedDraft(drafts, write, d) == Some(q)
  {
    UniqueFound(drafts, write, q);
  }

  lemma PlainCitesFrom(c: Corpus, k: nat, drafts: seq<Draft>, d: Draft, chunk: Chunk, e: Citation)
    requires k < |c.provisions| && UniqueIds(drafts, c.write) && d in drafts && d.page == k + 1 && d.meta.level != AliasLevel
    requires Excerpt(c.provisions[k], UnitFor(c.provisions[k].units, c.write(d.name)), d) == Cited(e.(chunkId := []))
    requires e.chunkId == c.write(d.name) && e.matched == None
    requires chunk.id == c.write(d.name) && SamePayload(chunk, Written(c, d)) && SameMeta(chunk, Written(c, d))
    ensures CiteFrom(c, drafts, chunk) == Cited(e)
  {
    CiteFromGives(c, drafts, chunk, d, d, e.(chunkId := []));
  }

  /** Citing a part of a unit, with its metadata or without, returns that unit and exactly the piece of its
      text that the chunk was made of. */
  lemma PartCites(c: Corpus, target: nat, k: nat, j: nat, i: nat)
    requires Valid(c) && target >= 200 && IsPart(c, target, k, j, i)
    ensures Cite(c, Written(c, PartOf(c, target, k, j, i))) == Cited(PartCitation(c, target, k, j, i))
    ensures target == DEFAULT_TARGET ==>
              Cite(c, Written(c, PartOf(c, target, k, j, i)).(meta := None)) == Cited(PartCitation(c, target, k, j, i))
    ensures Occurs(Body(c.provisions[k], SlotsOf(c.provisions[k])[j]), PartCitation(c, target, k, j, i).excerpt)
  {
    ChunkIdsDistinct(c, target);
    PartIsCanonical(c, target, k, j, i);
    var d := PartOf(c, target, k, j, i);
    PartExcerpt(c, target, k, j, i);
    PlainCitesFrom(c, k, AllDrafts(c, target), d, Written(c, d), PartCitation(c, target, k, j, i));
    if target == DEFAULT_TARGET {
      PlainCitesFrom(c, k, AllDrafts(c, target), d, Written(c, d).(meta := None), PartCitation(c, target, k, j, i));
    }
    SlotFacts(c, target, k, j);
  }

  function AliasOf(c: Corpus, target: nat, k: nat, j: nat): Draft
    requires HasAlias(c, k, j)
  {
    AliasDraft(c, c.provisions[k], SlotsOf(c.provisions[k])[j], k + 1, target)
  }

  lemma AliasCitesFrom(c: Corpus, target: nat, k: nat, j: nat, drafts: seq<Draft>, d: Draft, q: Draft)
    requires HasAlias(c, k, j) && IsPart(c, target, k, j, 0) && UniqueIds(drafts, c.write)
    requires d == AliasOf(c, target, k, j) && q == PartOf(c, target, k, j, 0) && d in drafts && q in drafts
    requires Excerpt(c.provisions[k], UnitFor(c.provisions[k].units, c.write(q.name)), q) == Cited(PartCitation(c, target, k, j, 0).(chunkId := []))
    ensures CiteFrom(c, drafts, Written(c, d)) == Cited(PartCitation(c, target, k, j, 0).(matched := Some(c.write(d.name))))
  {
    CiteFromGives(c, drafts, Written(c, d), d, q, PartCitation(c, target, k, j, 0).(chunkId := []));
  }

  lemma AliasIsCanonical(c: Corpus, target: nat, k: nat, j: nat)
    requires HasAlias(c, k, j)
    ensures AliasOf(c, target, k, j) in AllDrafts(c, target)
  {
    AliasInAliases(c, c.provisions[k], k + 1, target, SlotsOf(c.provisions[k]), j);
    ProvisionInDrafts(c, target, k, AliasOf(c, target, k, j));
  }

  /** An alias is never quoted: its unit has a first official part, and citing the alias returns that. */
  lemma AliasCites(c: Corpus, target: nat, k: nat, j: nat)
    requires Valid(c) && target >= 200 && HasAlias(c, k, j)
    ensures IsPart(c, target, k, j, 0)
    ensures Cite(c, Written(c, AliasOf(c, target, k, j)))
            == Cited(PartCitation(c, target, k, j, 0).(matched := Some(c.write(AliasOf(c, target, k, j).name))))
  {
    SlotFacts(c, target, k, j);
    ChunkIdsDistinct(c, target);
    AliasIsCanonical(c, target, k, j);
    PartIsCanonical(c, target, k, j, 0);
    PartExcerpt(c, target, k, j, 0);
    AliasCitesFrom(c, target, k, j, AllDrafts(c, target), AliasOf(c, target, k, j), PartOf(c, target, k, j, 0));
  }

  function ArticleOf(c: Corpus, target: nat, k: nat, i: nat): Draft
    requires k < |c.provisions| && i < |ArticlePieces(c, c.provisions[k], target)|
  {
    ArticleDraft(c.provisions[k], k + 1, target, i, ArticlePieces(c, c.provisions[k], target)[i])
  }

  lemma ArticleIsCanonical(c: Corpus, target: nat, k: nat, i: nat)
    requires k < |c.provisions| && c.provisions[k].indexed && i < |ArticlePieces(c, c.provisions[k], target)|
    ensures ArticleOf(c, target, k, i) in AllDrafts(c, target)
  {
    ArticlesAre(c.provisions[k], k + 1, target, ArticlePieces(c, c.provisions[k], target));
    assert ArticleOf(c, target, k, i) in ArticleDrafts(c.provisions[k], k + 1, target, ArticlePieces(c, c.provisions[k], target));
    ProvisionInDrafts(c, target, k, ArticleOf(c, target, k, i));
  }

  lemma ArticleExcerpt(c: Corpus, p: Provision, target: nat, page: nat, i: nat, piece: string, d: Draft)
    requires ColonFree(c.doc) && WritesIds(c) && LegalId(p.id) && forall j :: 0 <= j < |p.units| ==> LegalId(p.units[j].id)
    requires piece != [] && d == ArticleDraft(p, page, target, i, piece)
    ensures Excerpt(p, UnitFor(p.units, c.write(d.name)), d) == Cited(Citation(p.id, None, piece, [], None))
  {
    UnitForFindsNone(p.units, c.doc, d.name);
    assert d.text[|Prefix(p.header, [])|..] == piece;
  }

  lemma ArticleCitesFrom(c: Corpus, target: nat, k: nat, i: nat, drafts: seq<Draft>, d: Draft)
    requires Valid(c) && k < |c.provisions| && i < |ArticlePieces(c, c.provisions[k], target)|
    requires ArticlePieces(c, c.provisions[k], target)[i] != [] && d == ArticleOf(c, target, k, i)
    requires UniqueIds(drafts, c.write) && d in drafts
    ensures CiteFrom(c, drafts, Written(c, d))
            == Cited(Citation(c.provisions[k].id, None, ArticlePieces(c, c.provisions[k], target)[i], c.write(d.name), None))
  {
    var piece := ArticlePieces(c, c.provisions[k], target)[i];
    ArticleExcerpt(c, c.provisions[k], target, k + 1, i, piece, d);
    CiteFromGives(c, drafts, Written(c, d), d, d, Citation(c.provisions[k].id, None, piece, [], None));
  }

  /** Citing an article-level chunk names no unit and returns its packed text. */
  lemma ArticleCites(c: Corpus, target: nat, k: nat, i: nat)
    requires Valid(c) && target >= 200 && k < |c.provisions| && c.provisions[k].indexed
    requires i < |ArticlePieces(c, c.provisions[k], target)| && ArticlePieces(c, c.provisions[k], target)[i] != []
    ensures Cite(c, Written(c, ArticleOf(c, target, k, i)))
            == Cited(Citation(c.provisions[k].id, None, ArticlePieces(c, c.provisions[k], target)[i],
                              c.write(ArticleOf(c, target, k, i).name), None))
  {
    ChunkIdsDistinct(c, target);
    ArticleIsCanonical(c, target, k, i);
    ArticleCitesFrom(c, target, k, i, AllDrafts(c, target), ArticleOf(c, target, k, i));
  }

  /** A chunk whose text, page or metadata was altered is never cited. */
  lemma AlteredIsRefused(c: Corpus, chunk: Chunk)
    requires Cite(c, chunk).Cited?
    ensures exists d :: d in AllDrafts(c, TargetOf(chunk))
              && SamePayload(chunk, Written(c, d)) && SameMeta(chunk, Written(c, d))
  {
    var d := FindDraft(AllDrafts(c, TargetOf(chunk)), c.write, chunk.id).value;
    assert d in AllDrafts(c, TargetOf(chunk));
  }

  // ----- with the splitter the program uses

  function RealTools(): Tools {
    Tools((text: string, budget: nat) => if budget >= 1 then Chunking.Pieces(text, budget) else [],
          (units: seq<string>, budget: nat) => if budget >= 1 then PackedTexts(LegalPacking.Blocks(units, LegalPacking.BudgetOf(budget))) else [])
  }

  function PackedTexts(blocks: seq<LegalPacking.Block>): (r: seq<string>)
    ensures |r| == |blocks| && forall i :: 0 <= i < |r| ==> r[i] == LegalPacking.TextOf(blocks[i])
  {
    if blocks == [] then [] else PackedTexts(blocks[..|blocks| - 1]) + [LegalPacking.TextOf(blocks[|blocks| - 1])]
  }

  lemma {:induction false} TilesOccur(text: string, from: nat, pieces: seq<string>)
    requires from <= |text| && Chunking.Tiles(text, from, pieces)
    ensures forall i :: 0 <= i < |pieces| ==> pieces[i] != [] && Occurs(text, pieces[i])
    decreases |pieces|
  {
    if pieces != [] {
      var start := Chunking.Skip(text, from);
      assert OccursAt(text, pieces[0], start);
      TilesOccur(text, start + |pieces[0]|, pieces[1..]);
      assert forall i :: 0 < i < |pieces| ==> pieces[i] == pieces[1..][i - 1];
    }
  }

  /** A trimmed text that is not empty has a first piece. */
  lemma RealSplitsFaithfully()
    ensures SplitsFaithfully(RealTools())
  {
    forall text: string, budget: nat | budget >= 1 && text != [] && Chunking.Trimmed(text)
      ensures GoodPieces(RealTools().split(text, budget), text)
    {
      var pieces := Chunking.Pieces(text, budget);
      Chunking.PiecesTile(text, budget);
      TilesOccur(text, 0, pieces);
      assert Chunking.Skip(text, 0) == 0;
    }
  }

  /** The parts of an article are its indexed units, or its own text, trimmed and not empty. */
  lemma PartsAreTrimmed(c: Corpus, k: nat)
    requires Valid(c) && k < |c.provisions| && Chunking.Trimmed(c.provisions[k].text)
    ensures forall i :: 0 <= i < |ArticleParts(c.provisions[k])| ==> ArticleParts(c.provisions[k])[i] != [] && Chunking.Trimmed(ArticleParts(c.provisions[k])[i])
  {
    var p := c.provisions[k];
    forall i | 0 <= i < |TextsOf(SlotsOf(p))|
      ensures TextsOf(SlotsOf(p))[i] != [] && Chunking.Trimmed(TextsOf(SlotsOf(p))[i])
    {
      var j := TextIsUnit(SlotsOf(p), i);
      SlotsAreUnits(p.units, j);
      var u :| 0 <= u < |p.units| && p.units[u] == SlotsOf(p)[j].value;
      assert p.units[u].text != [] && Chunking.Trimmed(p.units[u].text);
    }
  }

  lemma {:induction false} TextIsUnit(slots: seq<Option<Unit>>, i: nat) returns (j: nat)
    requires i < |TextsOf(slots)|
    ensures j < |slots| && slots[j].Some? && slots[j].value.text == TextsOf(slots)[i]
    decreases |slots|
  {
    var n := |slots| - 1;
    if i < |TextsOf(slots[..n])| {
      j := TextIsUnit(slots[..n], i);
    } else {
      j := n;
    }
  }

  /** The packed texts of an article fit the budget, are not empty, and hold its units once and in order, cutting only
      a unit longer than the budget. */
  lemma ArticlePiecesHoldUnits(c: Corpus, target: nat, k: nat) returns (blocks: seq<LegalPacking.Block>)
    requires Valid(c) && c.tools == RealTools() && k < |c.provisions| && c.provisions[k].subdivided && Chunking.Trimmed(c.provisions[k].text)
    ensures var p, budget := c.provisions[k], Budget(target, Prefix(c.provisions[k].header, []));
            && ArticlePieces(c, p, target) == PackedTexts(blocks)
            && LegalPacking.Flat(blocks) == LegalPacking.Expected(ArticleParts(p), LegalPacking.BudgetOf(budget), |ArticleParts(p)|)
            && forall i :: 0 <= i < |ArticlePieces(c, p, target)| ==> 0 < |ArticlePieces(c, p, target)[i]| <= budget
  {
    var p := c.provisions[k];
    var parts, budget := ArticleParts(p), Budget(target, Prefix(p.header, []));
    blocks := LegalPacking.Blocks(parts, LegalPacking.BudgetOf(budget));
    PartsAreTrimmed(c, k);
    forall i | 0 <= i < |parts|
      ensures LegalPacking.NoneEmpty(LegalPacking.BudgetOf(budget).split(parts[i]))
    {
      Chunking.PiecesTile(parts[i], budget);
      TilesOccur(parts[i], 0, Chunking.Pieces(parts[i], budget));
    }
    LegalPacking.BlocksAreFilled(parts, LegalPacking.BudgetOf(budget));
    LegalPacking.BlocksFit(parts, budget);
    LegalPacking.BlocksHoldUnits(parts, LegalPacking.BudgetOf(budget));
  }

  /** With the program's own packing every article-level chunk cites back. */
  lemma PackedArticleCites(c: Corpus, target: nat, k: nat, i: nat)
    requires Valid(c) && c.tools == RealTools() && target >= 200 && k < |c.provisions| && c.provisions[k].indexed
    requires Chunking.Trimmed(c.provisions[k].text) && i < |ArticlePieces(c, c.provisions[k], target)|
    ensures Cite(c, Written(c, ArticleOf(c, target, k, i)))
            == Cited(Citation(c.provisions[k].id, None, ArticlePieces(c, c.provisions[k], target)[i],
                              c.write(ArticleOf(c, target, k, i).name), None))
  {
    var blocks := ArticlePiecesHoldUnits(c, target, k);
    ArticleCites(c, target, k, i);
  }

  // ----- the program

  /** `LegalCorpus` with the canonical chunks it keeps per chunk size. */
  class LegalCorpus {
    const corpus: Corpus
    var canonicalMaps: map<nat, seq<Draft>>

    ghost predicate Kept()
      reads this
    {
      forall target :: target in canonicalMaps ==> canonicalMaps[target] == AllDrafts(corpus, target)
    }

    constructor (corpus: Corpus)
      ensures this.corpus == corpus && Kept()
    {
      this.corpus, canonicalMaps := corpus, map[];
    }

    method UnitChunks(p: Provision, page: nat, target: nat, slots: seq<Option<Unit>>) returns (drafts: seq<Draft>)
      ensures drafts == AllParts(corpus, p, page, target, slots)
    {
      drafts := [];
      for i := 0 to |slots|
        invariant drafts == AllParts(corpus, p, page, target, slots[..i])
      {
        TakeOneMore(slots, i);
        assert slots[..i + 1][..i] == slots[..i];
        drafts := drafts + PartDrafts(p, slots[i], page, target, Pieces(corpus, p, slots[i], target));
      }
      assert slots[..|slots|] == slots;
    }

    method AliasChunks(p: Provision, page: nat, target: nat, slots: seq<Option<Unit>>) returns (drafts: seq<Draft>)
      ensures drafts == AliasDrafts(corpus, p, page, target, slots)
    {
      drafts := [];
      for i := 0 to |slots|
        invariant drafts == AliasDrafts(corpus, p, page, target, slots[..i])
      {
        TakeOneMore(slots, i);
        assert slots[..i + 1][..i] == slots[..i];
        if Key(p, slots[i]) !in corpus.aliases {
          continue;
        }
        drafts := drafts + [AliasDraft(corpus, p, slots[i], page, target)];
      }
      assert slots[..|slots|] == slots;
    }

    method ProvisionChunks(p: Provision, page: nat, target: nat) returns (drafts: seq<Draft>)
      ensures drafts == ProvisionDrafts(corpus, p, page, target)
    {
      if !p.indexed {
        return [];
      }
      var parts := UnitChunks(p, page, target, SlotsOf(p));
      var aliases := AliasChunks(p, page, target, SlotsOf(p));
      return parts + ArticleDrafts(p, page, target, ArticlePieces(corpus, p, target)) + aliases;
    }

    ghost predicate Generates(generate: Generator, target: nat) {
      forall p: Provision, page: nat {:trigger ProvisionDrafts(corpus, p, page, target)} :: generate(p, page) == ProvisionDrafts(corpus, p, page, target)
    }

    method AsChunks(target: nat) returns (drafts: seq<Draft>)
      ensures drafts == AllDrafts(corpus, target)
    {
      drafts := Generate(target, (p: Provision, page: nat) => ProvisionDrafts(corpus, p, page, target));
    }

    method Generate(target: nat, ghost generate: Generator) returns (drafts: seq<Draft>)
      requires Generates(generate, target)
      ensures drafts == Drafts(corpus.provisions, generate, |corpus.provisions|)
    {
      drafts := [];
      for page := 0 to |corpus.provisions|
        invariant drafts == Drafts(corpus.provisions, generate, page)
      {
        drafts := AddProvision(page, target, generate, drafts);
      }
    }

    method AddProvision(page: nat, target: nat, ghost generate: Generator, drafts: seq<Draft>) returns (more: seq<Draft>)
      requires page < |corpus.provisions|
      requires Generates(generate, target)
      ensures more == drafts + generate(corpus.provisions[page], page + 1)
    {
      more := ProvisionChunks(corpus.provisions[page], page + 1, target);
      more := drafts + more;
    }

    method CanonicalChunks(target: nat) returns (drafts: seq<Draft>)
      requires Kept()
      modifies this
      ensures Kept() && drafts == AllDrafts(corpus, target)
    {
      if target in canonicalMaps {
        return canonicalMaps[target];
      }
      drafts := AsChunks(target);
      canonicalMaps := canonicalMaps[target := drafts];
    }

    method AuthorityForChunk(chunk: Chunk) returns (result: Result)
      requires Kept()
      modifies this
      ensures Kept() && result == Cite(corpus, chunk)
    {
      if TargetOf(chunk) < 200 {
        return Refused(TargetTooSmall);
      }
      var drafts := CanonicalChunks(TargetOf(chunk));
      return CiteFrom(corpus, drafts, chunk);
    }
  }
}
