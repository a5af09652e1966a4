/** The chunks of a statute corpus and the citation that undoes chunking
    (app/consumer/legal_corpus.py:601-752, 905-919, 979-1074; app/consumer/schemas.py:443-444). */
module LegalCorpora {
  import opened Common
  import opened LegalChunkIds

  /** `leadIn` is the rendered ancestor chain; `indexed` leaves out amendments and units not in force. */
  datatype Unit = Unit(id: string, header: string, leadIn: string, text: string, indexed: bool)

  /** `indexed` says the provision is retrievable and citable, `subdivided` that it gets article-level chunks. */
  datatype Provision = Provision(id: string, header: string, text: string, units: seq<Unit>, indexed: bool, subdivided: bool)

  datatype Level = UnitLevel | ProvisionLevel | ArticleLevel | AliasLevel

  datatype Meta = Meta(level: Level, unit: Option<string>, provision: string, target: nat)

  /** A chunk as stores keep it; legacy stores have no metadata. */
  datatype Chunk = Chunk(id: string, doc: string, text: string, page: int, meta: Option<Meta>)

  /** How texts are split and units packed under a budget. */
  datatype Tools = Tools(split: (string, nat) -> seq<string>, pack: (seq<string>, nat) -> seq<string>)

  /** `write` gives chunks their ids. */
  datatype Corpus = Corpus(doc: string, provisions: seq<Provision>, aliases: map<string, string>, tools: Tools, write: Name -> string)

  const DEFAULT_TARGET := 1200
  const MIN_BODY_BUDGET := 300

  // ----- what a chunk holds

  /** A canonical chunk before its id is written out. */
  datatype Draft = Draft(name: Name, text: string, page: nat, meta: Meta)

  function Written(c: Corpus, d: Draft): Chunk { Chunk(c.write(d.name), c.doc, d.text, d.page, Some(d.meta)) }

  function Prefix(header: string, leadIn: string): string {
    if leadIn != [] then header + "\n\n" + leadIn + "\n" else header + "\n\n"
  }

  function Budget(target: nat, prefix: string): nat { Max(MIN_BODY_BUDGET, target - |prefix|) }

  function Key(p: Provision, u: Option<Unit>): string { if u.Some? then u.value.id else p.id }

  function Body(p: Provision, u: Option<Unit>): string { if u.Some? then u.value.text else p.text }

  function PrefixOf(p: Provision, u: Option<Unit>): string {
    if u.Some? then Prefix(u.value.header, u.value.leadIn) else Prefix(p.header, [])
  }

  function MetaOf(p: Provision, u: Option<Unit>, level: Level, target: nat): Meta {
    Meta(level, if u.Some? then Some(u.value.id) else None, p.id, target)
  }

  /** The units that get chunks; a provision without units is its own. */
  function Slots(units: seq<Unit>): seq<Option<Unit>> {
    if units == [] then [] else Slots(units[..|units| - 1]) + (if units[|units| - 1].indexed then [Some(units[|units| - 1])] else [])
  }

  function SlotsOf(p: Provision): seq<Option<Unit>> { if p.units == [] then [None] else Slots(p.units) }

  function Pieces(c: Corpus, p: Provision, u: Option<Unit>, target: nat): seq<string> {
    c.tools.split(Body(p, u), Budget(target, PrefixOf(p, u)))
  }

  function PartDraft(p: Provision, u: Option<Unit>, page: nat, target: nat, i: nat, piece: string): Draft {
    Draft(Part(Key(p, u), i + 1), PrefixOf(p, u) + piece, page,
          MetaOf(p, u, if u.Some? then UnitLevel else ProvisionLevel, target))
  }

  function PartDrafts(p: Provision, u: Option<Unit>, page: nat, target: nat, pieces: seq<string>): seq<Draft> {
    if pieces == [] then []
    else PartDrafts(p, u, page, target, pieces[..|pieces| - 1]) + [PartDraft(p, u, page, target, |pieces| - 1, pieces[|pieces| - 1])]
  }

  function AllParts(c: Corpus, p: Provision, page: nat, target: nat, slots: seq<Option<Unit>>): seq<Draft> {
    if slots == [] then []
    else
      var u := slots[|slots| - 1];
      AllParts(c, p, page, target, slots[..|slots| - 1]) + PartDrafts(p, u, page, target, Pieces(c, p, u, target))
  }

  function TextsOf(slots: seq<Option<Unit>>): seq<string> {
    if slots == [] then []
    else TextsOf(slots[..|slots| - 1]) + (if slots[|slots| - 1].Some? then [slots[|slots| - 1].value.text] else [])
  }

  /** The in-force units of an article, or its own text when there are none. */
  function ArticleParts(p: Provision): seq<string> {
    var texts := TextsOf(SlotsOf(p));
    if texts != [] then texts else if p.text != [] then [p.text] else []
  }

  function ArticlePieces(c: Corpus, p: Provision, target: nat): seq<string> {
    if p.subdivided then c.tools.pack(ArticleParts(p), Budget(target, Prefix(p.header, []))) else []
  }

  function ArticleDraft(p: Provision, page: nat, target: nat, i: nat, piece: string): Draft {
    Draft(Name.Article(p.id, i + 1), Prefix(p.header, []) + piece, page, MetaOf(p, None, ArticleLevel, target))
  }

  function ArticleDrafts(p: Provision, page: nat, target: nat, pieces: seq<string>): seq<Draft> {
    if pieces == [] then []
    else ArticleDrafts(p, page, target, pieces[..|pieces| - 1]) + [ArticleDraft(p, page, target, |pieces| - 1, pieces[|pieces| - 1])]
  }

  function AliasDraft(c: Corpus, p: Provision, u: Option<Unit>, page: nat, target: nat): Draft
    requires Key(p, u) in c.aliases
  {
    Draft(Name.Alias(Key(p, u)), c.aliases[Key(p, u)], page, MetaOf(p, u, AliasLevel, target))
  }

  function AliasDrafts(c: Corpus, p: Provision, page: nat, target: nat, slots: seq<Option<Unit>>): seq<Draft> {
    if slots == [] then []
    else
      var u := slots[|slots| - 1];
      AliasDrafts(c, p, page, target, slots[..|slots| - 1])
      + (if Key(p, u) in c.aliases then [AliasDraft(c, p, u, page, target)] else [])
  }

  function ProvisionDrafts(c: Corpus, p: Provision, page: nat, target: nat): seq<Draft> {
    if !p.indexed then []
    else
      AllParts(c, p, page, target, SlotsOf(p))
      + ArticleDrafts(p, page, target, ArticlePieces(c, p, target))
      + AliasDrafts(c, p, page, target, SlotsOf(p))
  }

  type Generator = (Provision, nat) -> seq<Draft>

  /** The chunks of the first `n` provisions, `as_chunks`; page numbers count provisions. */
  function Drafts(provisions: seq<Provision>, generate: Generator, n: nat): seq<Draft>
    requires n <= |provisions|
    decreases n
  {
    if n == 0 then [] else Drafts(provisions, generate, n - 1) + generate(provisions[n - 1], n)
  }

  function AllDrafts(c: Corpus, target: nat): seq<Draft> {
    Drafts(c.provisions, (p: Provision, page: nat) => ProvisionDrafts(c, p, page, target), |c.provisions|)
  }

  // ----- names are distinct

  function SlotKeys(p: Provision, slots: seq<Option<Unit>>): set<string> {
    if slots == [] then {} else SlotKeys(p, slots[..|slots| - 1]) + {Key(p, slots[|slots| - 1])}
  }

  function NamesOf(drafts: seq<Draft>): (r: seq<Name>)
    ensures |r| == |drafts| && forall i :: 0 <= i < |r| ==> r[i] == drafts[i].name
  {
    if drafts == [] then [] else NamesOf(drafts[..|drafts| - 1]) + [drafts[|drafts| - 1].name]
  }

  lemma NamesConcat(a: seq<Draft>, b: seq<Draft>)
    ensures NamesOf(a + b) == NamesOf(a) + NamesOf(b)
  {
    assert |NamesOf(a + b)| == |NamesOf(a) + NamesOf(b)|;
    forall i | 0 <= i < |a + b|
      ensures NamesOf(a + b)[i] == (NamesOf(a) + NamesOf(b))[i]
    {
    }
  }

  /** Distinct names within some keys, as one list joins another. */
  ghost predicate Named(drafts: seq<Draft>, keys: Keys) { Distinct(NamesOf(drafts)) && Within(NamesOf(drafts), keys) }

  lemma JoinNamed(a: seq<Draft>, ka: Keys, b: seq<Draft>, kb: Keys)
    requires Named(a, ka) && Named(b, kb) && ka.Apart(kb)
    ensures Named(a + b, ka.Add(kb))
  {
    NamesConcat(a, b);
    JoinDistinct(NamesOf(a), ka, NamesOf(b), kb);
  }

  lemma {:induction false} PartsAre(p: Provision, u: Option<Unit>, page: nat, target: nat, pieces: seq<string>)
    ensures |PartDrafts(p, u, page, target, pieces)| == |pieces|
    ensures forall i :: 0 <= i < |pieces| ==> PartDrafts(p, u, page, target, pieces)[i] == PartDraft(p, u, page, target, i, pieces[i])
    decreases |pieces|
  {
    if pieces != [] {
      PartsAre(p, u, page, target, pieces[..|pieces| - 1]);
    }
  }

  lemma PartsNamed(p: Provision, u: Option<Unit>, page: nat, target: nat, pieces: seq<string>)
    ensures Named(PartDrafts(p, u, page, target, pieces), Keys({Key(p, u)}, {}, {}))
  {
    PartsAre(p, u, page, target, pieces);
    Numbered(PartDrafts(p, u, page, target, pieces), Key(p, u), true);
  }

  lemma {:induction false} ArticlesAre(p: Provision, page: nat, target: nat, pieces: seq<string>)
    ensures |ArticleDrafts(p, page, target, pieces)| == |pieces|
    ensures forall i :: 0 <= i < |pieces| ==> ArticleDrafts(p, page, target, pieces)[i] == ArticleDraft(p, page, target, i, pieces[i])
    decreases |pieces|
  {
    if pieces != [] {
      ArticlesAre(p, page, target, pieces[..|pieces| - 1]);
    }
  }

  lemma ArticlesNamed(p: Provision, page: nat, target: nat, pieces: seq<string>)
    ensures Named(ArticleDrafts(p, page, target, pieces), Keys({}, {}, {p.id}))
  {
    ArticlesAre(p, page, target, pieces);
    Numbered(ArticleDrafts(p, page, target, pieces), p.id, false);
  }

  /** Drafts numbered from one under one key. */
  lemma Numbered(drafts: seq<Draft>, key: string, parts: bool)
    requires forall i :: 0 <= i < |drafts| ==> drafts[i].name == if parts then Part(key, i + 1) else Name.Article(key, i + 1)
    ensures Named(drafts, if parts then Keys({key}, {}, {}) else Keys({}, {}, {key}))
  {
  }

  /** The slots of a provision have different keys. */
  ghost predicate DistinctSlots(p: Provision, slots: seq<Option<Unit>>) {
    forall i, j :: 0 <= i < j < |slots| ==> Key(p, slots[i]) != Key(p, slots[j])
  }

  lemma {:induction false} SlotKeysAre(p: Provision, slots: seq<Option<Unit>>)
    ensures forall key :: key in SlotKeys(p, slots) <==> exists i :: 0 <= i < |slots| && Key(p, slots[i]) == key
    decreases |slots|
  {
    if slots != [] {
      var n := |slots| - 1;
      SlotKeysAre(p, slots[..n]);
      forall key | key in SlotKeys(p, slots)
        ensures exists i :: 0 <= i < |slots| && Key(p, slots[i]) == key
      {
        if key in SlotKeys(p, slots[..n]) {
          var i :| 0 <= i < n && Key(p, slots[..n][i]) == key;
          assert Key(p, slots[i]) == key;
        }
      }
      forall i | 0 <= i < |slots|
        ensures Key(p, slots[i]) in SlotKeys(p, slots)
      {
        assert i < n ==> slots[..n][i] == slots[i];
      }
    }
  }

  lemma {:induction false} AllPartsNamed(c: Corpus, p: Provision, page: nat, target: nat, slots: seq<Option<Unit>>)
    requires DistinctSlots(p, slots)
    ensures Named(AllParts(c, p, page, target, slots), Keys(SlotKeys(p, slots), {}, {}))
    decreases |slots|
  {
    if slots != [] {
      var n := |slots| - 1;
      var pieces := Pieces(c, p, slots[n], target);
      AllPartsNamed(c, p, page, target, slots[..n]);
      PartsNamed(p, slots[n], page, target, pieces);
      SlotKeysAre(p, slots[..n]);
      JoinNamed(AllParts(c, p, page, target, slots[..n]), Keys(SlotKeys(p, slots[..n]), {}, {}),
                PartDrafts(p, slots[n], page, target, pieces), Keys({Key(p, slots[n])}, {}, {}));
    }
  }

  lemma {:induction false} AliasesNamed(c: Corpus, p: Provision, page: nat, target: nat, slots: seq<Option<Unit>>)
    requires DistinctSlots(p, slots)
    ensures Named(AliasDrafts(c, p, page, target, slots), Keys({}, SlotKeys(p, slots), {}))
    decreases |slots|
  {
    if slots != [] {
      var n := |slots| - 1;
      AliasesNamed(c, p, page, target, slots[..n]);
      SlotKeysAre(p, slots[..n]);
      var more := if Key(p, slots[n]) in c.aliases then [AliasDraft(c, p, slots[n], page, target)] else [];
      JoinNamed(AliasDrafts(c, p, page, target, slots[..n]), Keys({}, SlotKeys(p, slots[..n]), {}),
                more, Keys({}, {Key(p, slots[n])}, {}));
    }
  }

  function KeysOf(p: Provision): Keys { Keys(SlotKeys(p, SlotsOf(p)), SlotKeys(p, SlotsOf(p)), {p.id}) }

  lemma ProvisionNamed(c: Corpus, p: Provision, page: nat, target: nat)
    requires DistinctSlots(p, SlotsOf(p))
    ensures Named(ProvisionDrafts(c, p, page, target), KeysOf(p))
  {
    if p.indexed {
      var slots, pieces := SlotsOf(p), ArticlePieces(c, p, target);
      var keys := SlotKeys(p, slots);
      AllPartsNamed(c, p, page, target, slots);
      ArticlesNamed(p, page, target, pieces);
      AliasesNamed(c, p, page, target, slots);
      JoinNamed(AllParts(c, p, page, target, slots), Keys(keys, {}, {}), ArticleDrafts(p, page, target, pieces), Keys({}, {}, {p.id}));
      JoinNamed(AllParts(c, p, page, target, slots) + ArticleDrafts(p, page, target, pieces), Keys(keys, {}, {p.id}),
                AliasDrafts(c, p, page, target, slots), Keys({}, keys, {}));
    }
  }

  function KeysUpTo(c: Corpus, n: nat): Keys
    requires n <= |c.provisions|
    decreases n
  {
    if n == 0 then Keys({}, {}, {}) else KeysUpTo(c, n - 1).Add(KeysOf(c.provisions[n - 1]))
  }

  /** Unit keys and provision ids are unique across the corpus. */
  ghost predicate DistinctKeys(c: Corpus) {
    && (forall k :: 0 <= k < |c.provisions| ==> DistinctSlots(c.provisions[k], SlotsOf(c.provisions[k])))
    && (forall k :: 0 <= k < |c.provisions| ==> KeysUpTo(c, k).Apart(KeysOf(c.provisions[k])))
  }

  lemma {:induction false} DraftsNamed(c: Corpus, target: nat, generate: Generator, n: nat)
    requires DistinctKeys(c) && n <= |c.provisions|
    requires forall p: Provision, page: nat {:trigger ProvisionDrafts(c, p, page, target)} :: generate(p, page) == ProvisionDrafts(c, p, page, target)
    ensures Named(Drafts(c.provisions, generate, n), KeysUpTo(c, n))
    decreases n
  {
    if n > 0 {
      var p := c.provisions[n - 1];
      DraftsNamed(c, target, generate, n - 1);
      ProvisionNamed(c, p, n, target);
      JoinNamed(Drafts(c.provisions, generate, n - 1), KeysUpTo(c, n - 1), generate(p, n), KeysOf(p));
    }
  }

  lemma AllDraftsNamed(c: Corpus, target: nat)
    requires DistinctKeys(c)
    ensures Named(AllDrafts(c, target), KeysUpTo(c, |c.provisions|))
  {
    DraftsNamed(c, target, (p: Provision, page: nat) => ProvisionDrafts(c, p, page, target), |c.provisions|);
  }

  lemma {:induction false} GeneratedInDrafts(provisions: seq<Provision>, generate: Generator, n: nat, k: nat, d: Draft)
    requires k < n <= |provisions| && d in generate(provisions[k], k + 1)
    ensures d in Drafts(provisions, generate, n)
    decreases n
  {
    if k < n - 1 {
      GeneratedInDrafts(provisions, generate, n - 1, k, d);
    }
  }

  lemma ProvisionInDrafts(c: Corpus, target: nat, k: nat, d: Draft)
    requires k < |c.provisions| && d in ProvisionDrafts(c, c.provisions[k], k + 1, target)
    ensures d in AllDrafts(c, target)
  {
    GeneratedInDrafts(c.provisions, (p: Provision, page: nat) => ProvisionDrafts(c, p, page, target), |c.provisions|, k, d);
  }
}
