/** The ids of statute chunks and how a unit is read back from one
    (app/consumer/legal_corpus.py:690, 738, 910-919; app/consumer/aliases.py:49-51). */
module LegalChunkIds {
  import opened Common
  import opened Decimals
  import opened Text

  // ----- chunk ids: `{document}:legal:{unit}:part-{number}`

  predicate ColonFree(s: string) { ':' !in s }

  /** Unit and provision ids start with the country code and hold no colon. */
  predicate LegalId(s: string) { ColonFree(s) && |s| >= 3 && s[..3] == "br-" }

  function Id(doc: string, key: string, tail: string): string { doc + ":legal:" + key + ":" + tail }

  function PartTail(number: nat): string { "part-" + Padded(number) }

  /** The chunks a corpus names: parts of a unit, parts of a whole article, and the aliases of a unit. */
  datatype Name = Part(key: string, number: nat) | Article(key: string, number: nat) | Alias(key: string) {
    function Tail(): string {
      match this
      case Part(_, number) => PartTail(number)
      case Article(_, number) => "article:" + PartTail(number)
      case Alias(_) => "alias-01"
    }

    function In(doc: string): string { Id(doc, key, Tail()) }
  }

  /** What all tails have in common: no colon, nor the beginning, is followed by an `l`. */
  predicate PlainTail(tail: string) {
    |tail| > 0 && tail[0] != 'l' && forall k :: 0 <= k < |tail| - 1 && tail[k] == ':' ==> tail[k + 1] != 'l'
  }

  function Marker(unit: string, mark: string): string { ":legal:" + unit + ":" + mark }

  lemma IdColons(doc: string, key: string, tail: string)
    requires ColonFree(doc) && ColonFree(key)
    ensures var id, c := Id(doc, key, tail), |doc| + 7 + |key|;
            && |id| == c + 1 + |tail|
            && (forall k :: 0 <= k <= c ==> (id[k] == ':' <==> k == |doc| || k == |doc| + 6 || k == c))
            && (forall k :: 0 <= k < |tail| ==> id[c + 1 + k] == tail[k])
            && (forall k :: 0 <= k < |key| ==> id[|doc| + 7 + k] == key[k])
  {
    var legal := ":legal:";
    assert forall k :: 0 <= k < 7 ==> (legal[k] == ':' <==> k == 0 || k == 6);
  }

  lemma MarkerColons(unit: string, mark: string)
    requires ColonFree(unit)
    ensures var m, c := Marker(unit, mark), 7 + |unit|;
            && |m| == c + 1 + |mark|
            && (forall k :: 0 <= k <= c ==> (m[k] == ':' <==> k == 0 || k == 6 || k == c))
            && (forall k :: 0 <= k < |mark| ==> m[c + 1 + k] == mark[k])
            && (forall k :: 0 <= k < |unit| ==> m[7 + k] == unit[k])
  {
    var legal := ":legal:";
    assert forall k :: 0 <= k < 7 ==> (legal[k] == ':' <==> k == 0 || k == 6);
  }

  /** A marker of a unit is found in a chunk id only where the id names that unit, just before its tail. */
  lemma MarkerMeansUnit(doc: string, key: string, tail: string, unit: string, mark: string, at: int)
    requires ColonFree(doc) && LegalId(key) && LegalId(unit) && ColonFree(mark) && PlainTail(tail)
    requires OccursAt(Id(doc, key, tail), Marker(unit, mark), at)
    ensures unit == key && |mark| <= |tail| && tail[..|mark|] == mark
  {
    var id, m := Id(doc, key, tail), Marker(unit, mark);
    IdColons(doc, key, tail);
    MarkerColons(unit, mark);
    forall k | 0 <= k < |m|
      ensures id[at + k] == m[k]
    {
      WindowChar(id, m, at, at + k);
    }
    MarkerStart(doc, key, tail, unit, mark, at);
    MarkerUnit(id, m, at, |doc|, |key|, |unit|);
    SameStretch(id, m, at, 7, unit, key);
    assert |tail| >= |mark|;
    SameStretch(id, m, at, 8 + |unit|, mark, tail[..|mark|]);
  }

  /** Equal stretches of two texts hold equal strings. */
  lemma SameStretch(id: string, m: string, at: nat, offset: nat, a: string, b: string)
    requires |a| == |b| && offset + |a| <= |m| && at + offset + |a| <= |id|
    requires forall k :: 0 <= k < |m| && at + k < |id| ==> id[at + k] == m[k]
    requires forall k :: 0 <= k < |a| ==> m[offset + k] == a[k]
    requires forall k :: 0 <= k < |b| ==> id[at + offset + k] == b[k]
    ensures a == b
  {
    forall k | 0 <= k < |a|
      ensures a[k] == b[k]
    {
      assert id[at + (offset + k)] == m[offset + k];
    }
  }

  lemma MarkerUnit(id: string, m: string, at: int, d: nat, key: nat, unit: nat)
    requires at == d && |id| > d + 7 + key && |m| > 7 + unit && at + |m| <= |id|
    requires forall k :: 0 <= k < |m| ==> id[at + k] == m[k]
    requires forall k :: 0 <= k <= d + 7 + key ==> (id[k] == ':' <==> k == d || k == d + 6 || k == d + 7 + key)
    requires forall k :: 0 <= k <= 7 + unit ==> (m[k] == ':' <==> k == 0 || k == 6 || k == 7 + unit)
    ensures key == unit
  {
    var k := Min(key, unit);
    assert id[d + (7 + k)] == m[7 + k];
  }

  /** The marker starts at the first colon: behind the second it would need a unit called `legal`. */
  lemma MarkerStart(doc: string, key: string, tail: string, unit: string, mark: string, at: int)
    requires ColonFree(doc) && LegalId(key) && LegalId(unit) && PlainTail(tail)
    requires var id, m := Id(doc, key, tail), Marker(unit, mark);
             0 <= at <= |id| - |m| && forall k :: 0 <= k < |m| ==> id[at + k] == m[k]
    ensures at == |doc|
  {
    var id, m := Id(doc, key, tail), Marker(unit, mark);
    IdColons(doc, key, tail);
    MarkerColons(unit, mark);
    assert id[at] == m[0] == ':' && m[7] == unit[0] == 'b';
    assert id[at + 1] == m[1] == 'l' && key[0] == 'b';
    var c := |doc| + 7 + |key|;
    assert forall k :: c <= k < |id| - 1 && id[k] == ':' ==> id[k + 1] != 'l' by {
      assert forall k :: c < k < |id| ==> id[k] == tail[k - c - 1];
      assert id[c + 1] == tail[0];
    }
  }

  lemma PartTailShape(number: nat)
    ensures PlainTail(PartTail(number)) && PlainTail("article:" + PartTail(number)) && ColonFree(PartTail(number))
  {
    var tail := PartTail(number);
    assert forall k :: 5 <= k < |tail| ==> tail[k] == Padded(number)[k - 5];
    assert "part-"[0] == 'p' && forall k :: 0 <= k < 5 ==> "part-"[k] != ':';
    var article := "article:" + tail;
    assert article[0] == 'a' && article[7] == ':' && article[8] == 'p';
    assert forall k :: 0 <= k < 7 ==> article[k] != ':';
    assert forall k :: 8 <= k < |article| ==> article[k] == tail[k - 8];
  }

  lemma TailIsPlain(name: Name)
    ensures PlainTail(name.Tail())
  {
    if !name.Alias? {
      PartTailShape(name.number);
    }
  }

  /** `unit_for_chunk` looks for either marker. */
  ghost predicate Names(id: string, unit: string) { Occurs(id, Marker(unit, "part-")) || Occurs(id, Marker(unit, "alias-")) }

  /** A chunk id names a unit exactly when it is an id of that unit's parts or aliases. */
  lemma IdNamesItsUnit(doc: string, name: Name, unit: string)
    requires ColonFree(doc) && LegalId(name.key) && LegalId(unit)
    ensures Names(name.In(doc), unit) <==> unit == name.key && !name.Article?
  {
    TailIsPlain(name);
    MarkDiffers(name);
    if Occurs(name.In(doc), Marker(unit, "part-")) {
      var at :| OccursAt(name.In(doc), Marker(unit, "part-"), at);
      MarkerMeansUnit(doc, name.key, name.Tail(), unit, "part-", at);
    }
    if Occurs(name.In(doc), Marker(unit, "alias-")) {
      var at :| OccursAt(name.In(doc), Marker(unit, "alias-"), at);
      MarkerMeansUnit(doc, name.key, name.Tail(), unit, "alias-", at);
    }
    if unit == name.key && !name.Article? {
      IdHoldsMarker(doc, name);
    }
  }

  lemma MarkDiffers(name: Name)
    ensures name.Article? ==> |name.Tail()| >= 5 && name.Tail()[..5] != "part-" && (|name.Tail()| >= 6 ==> name.Tail()[..6] != "alias-")
  {
    if name.Article? {
      var tail := name.Tail();
      assert tail[0] == 'a' && tail[1] == 'r' && "part-"[0] == 'p' && "alias-"[1] == 'l';
      assert tail[..5][0] == 'a' && tail[..6][1] == 'r';
    }
  }

  lemma IdHoldsMarker(doc: string, name: Name)
    requires !name.Article?
    ensures Names(name.In(doc), name.key)
  {
    var mark := if name.Part? then "part-" else "alias-";
    var rest := if name.Part? then Padded(name.number) else "01";
    var id, m := name.In(doc), Marker(name.key, mark);
    assert name.Tail() == mark + rest;
    assert id == doc + m + rest;
    assert id[|doc|..|doc| + |m|] == m;
    assert OccursAt(id, m, |doc|);
  }

  // ----- different names have different ids

  lemma IdIsInjective(doc: string, a: Name, b: Name)
    requires ColonFree(doc) && LegalId(a.key) && LegalId(b.key) && a.In(doc) == b.In(doc)
    ensures a == b
  {
    KeysAgree(doc, a.key, a.Tail(), b.key, b.Tail());
    TailsDiffer(a, b);
  }

  lemma KeysAgree(doc: string, a: string, s: string, b: string, t: string)
    requires ColonFree(doc) && ColonFree(a) && ColonFree(b) && Id(doc, a, s) == Id(doc, b, t)
    ensures a == b && s == t
  {
    IdColons(doc, a, s);
    IdColons(doc, b, t);
    var id := Id(doc, a, s);
    assert id[|doc| + 7 + |a|] == ':' && id[|doc| + 7 + |b|] == ':';
    assert |a| == |b|;
    assert forall k :: 0 <= k < |a| ==> a[k] == id[|doc| + 7 + k] == b[k];
    assert forall k :: 0 <= k < |s| ==> s[k] == id[|doc| + 8 + |a| + k] == t[k];
  }

  lemma TailsDiffer(a: Name, b: Name)
    requires a.Tail() == b.Tail() && a.key == b.key
    ensures a == b
  {
    var s := a.Tail();
    assert (a.Part? ==> s[0] == 'p') && (b.Part? ==> s[0] == 'p');
    assert (a.Alias? ==> s[1] == 'l') && (b.Alias? ==> s[1] == 'l');
    assert (a.Article? ==> s[0] == 'a' && s[1] == 'r') && (b.Article? ==> s[0] == 'a' && s[1] == 'r');
    if a.Part? {
      assert s[5..] == Padded(a.number) && s[5..] == Padded(b.number);
      ValueOfPadded(a.number);
      ValueOfPadded(b.number);
    } else if a.Article? {
      assert s == "article:part-" + Padded(a.number) && s == "article:part-" + Padded(b.number);
      assert s[13..] == Padded(a.number) && s[13..] == Padded(b.number);
      ValueOfPadded(a.number);
      ValueOfPadded(b.number);
    }
  }

  // ----- lists of distinct names

  /** The keys whose parts, aliases and articles a list may name. */
  datatype Keys = Keys(parts: set<string>, aliases: set<string>, articles: set<string>) {
    function Add(other: Keys): Keys { Keys(parts + other.parts, aliases + other.aliases, articles + other.articles) }

    ghost predicate Apart(other: Keys) { parts !! other.parts && aliases !! other.aliases && articles !! other.articles }
  }

  ghost predicate Within(names: seq<Name>, keys: Keys) {
    forall i :: 0 <= i < |names| ==>
      match names[i]
      case Part(key, _) => key in keys.parts
      case Article(key, _) => key in keys.articles
      case Alias(key) => key in keys.aliases
  }

  lemma JoinDistinct(a: seq<Name>, ka: Keys, b: seq<Name>, kb: Keys)
    requires Distinct(a) && Distinct(b) && Within(a, ka) && Within(b, kb) && ka.Apart(kb)
    ensures Distinct(a + b) && Within(a + b, ka.Add(kb))
  {
    var all := a + b;
    forall i, j | 0 <= i < j < |all|
      ensures all[i] != all[j]
    {
      if i < |a| && j >= |a| {
        assert a[i] != b[j - |a|];
      }
    }
  }
}
