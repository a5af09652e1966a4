/** BM25 written twice: the loop over a document's chunks (app/rag/vector_store.py:886-937) and the staged
    SQL query (app/rag/vector_store.py:617-676). */
module LexicalRanking {
  import opened Common
  import opened RankedLists

  type Term = string

  datatype Chunk = Chunk(id: string, doc: string, text: string)

  /** A stored chunk with its tokens. */
  datatype Row = Row(chunk: Chunk, tokens: seq<Term>)

  /** The logarithm and the order of chunk ids, which both rankings share. */
  datatype Surroundings = Surroundings(ln: real -> real, before: Order) {
    ghost predicate PositiveAboveOne() { forall x: real :: x > 1.0 ==> ln(x) > 0.0 }
  }

  const K1 := 1.5
  const B := 0.75

  // ----- sums over sets

  ghost function SumOver<T>(s: set<T>, f: T -> real): real {
    if s == {} then 0.0
    else
      var x :| x in s;
      f(x) + SumOver(s - {x}, f)
  }

  lemma {:induction false} SumOverWithout<T>(s: set<T>, f: T -> real, x: T)
    requires x in s
    ensures SumOver(s, f) == f(x) + SumOver(s - {x}, f)
    decreases |s|
  {
    var first :| first in s && SumOver(s, f) == f(first) + SumOver(s - {first}, f);
    if first != x {
      SumOverWithout(s - {first}, f, x);
      SumOverWithout(s - {x}, f, first);
      assert s - {first} - {x} == s - {x} - {first};
    }
  }

  lemma SumOverWith<T>(s: set<T>, f: T -> real, x: T)
    requires x !in s
    ensures SumOver(s + {x}, f) == SumOver(s, f) + f(x)
  {
    SumOverWithout(s + {x}, f, x);
    assert s + {x} - {x} == s;
  }

  /** Sums agree along a one-to-one correspondence. */
  lemma {:induction false} SumOverImage<T, U>(s: set<T>, f: T -> real, u: set<U>, g: U -> real, to: T -> U)
    requires forall x :: x in s ==> to(x) in u && f(x) == g(to(x))
    requires forall x, y :: x in s && y in s && to(x) == to(y) ==> x == y
    requires forall y :: y in u ==> exists x :: x in s && to(x) == y
    ensures SumOver(s, f) == SumOver(u, g) && |s| == |u|
    decreases |s|
  {
    if s == {} {
      assert u == {};
    } else {
      var x :| x in s;
      SumOverWithout(s, f, x);
      SumOverWithout(u, g, to(x));
      SumOverImage(s - {x}, f, u - {to(x)}, g, to);
    }
  }

  lemma {:induction false} SumOverPositive<T>(s: set<T>, f: T -> real)
    requires forall x :: x in s ==> f(x) > 0.0
    ensures SumOver(s, f) >= 0.0
    ensures s != {} ==> SumOver(s, f) > 0.0
    decreases |s|
  {
    if s != {} {
      var x :| x in s;
      SumOverWithout(s, f, x);
      SumOverPositive(s - {x}, f);
    }
  }

  // ----- what one term contributes

  function Count(tokens: seq<Term>, term: Term): nat { multiset(tokens)[term] }

  function Norm(frequency: nat, length: nat, average: real): (r: real)
    requires frequency > 0 && average >= 0.0
    ensures r > 0.0
  {
    var relative := length as real / (if average == 0.0 then 1.0 else average);
    frequency as real + K1 * (1.0 - B + B * relative)
  }

  function Weight(s: Surroundings, queryFrequency: nat, documents: nat, containing: nat, frequency: nat, length: nat, average: real): real
    requires frequency > 0 && average >= 0.0
  {
    queryFrequency as real
    * s.ln(1.0 + (documents as real - containing as real + 0.5) / (containing as real + 0.5))
    * frequency as real * (K1 + 1.0) / Norm(frequency, length, average)
  }

  lemma WeightPositive(s: Surroundings, queryFrequency: nat, documents: nat, containing: nat, frequency: nat, length: nat, average: real)
    requires s.PositiveAboveOne() && queryFrequency > 0 && containing <= documents && frequency > 0 && average >= 0.0
    ensures Weight(s, queryFrequency, documents, containing, frequency, length, average) > 0.0
  {
    var odds := (documents as real - containing as real + 0.5) / (containing as real + 0.5);
    assert odds > 0.0;
    var a := queryFrequency as real * s.ln(1.0 + odds);
    assert a > 0.0;
    assert a * frequency as real > 0.0;
  }

  lemma SmallerFraction(a: real, b: real, c: real, d: real)
    requires b > 0.0 && d > 0.0 && a * d < c * b
    ensures a / b < c / d
  {
    var x, y := a / b, c / d;
    assert x * b == a && y * d == c;
    assert (y - x) * (b * d) == y * d * b - x * b * d;
    FactorPositive(y - x, b * d);
  }

  lemma FactorPositive(x: real, y: real)
    requires x * y > 0.0 && y > 0.0
    ensures x > 0.0
  {
  }

  lemma ScaledUp(x: real, y: real, scale: real)
    requires x <= y && scale > 0.0
    ensures x * scale <= y * scale
  {
  }

  lemma ScaledMore(x: real, y: real, scale: real)
    requires x < y && scale > 0.0
    ensures x * scale < y * scale
  {
  }

  /** What a term contributes: the query's count times the rarity times a share that grows with the frequency. */
  lemma WeightInParts(s: Surroundings, queryFrequency: nat, documents: nat, containing: nat, frequency: nat, length: nat, average: real)
    requires frequency > 0 && average >= 0.0
    ensures Weight(s, queryFrequency, documents, containing, frequency, length, average)
         == (queryFrequency as real * s.ln(1.0 + Odds(documents, containing)) * (K1 + 1.0)) * Share(frequency, length, average)
  {
    var a, f := queryFrequency as real * s.ln(1.0 + Odds(documents, containing)), frequency as real;
    var norm := Norm(frequency, length, average);
    assert a * f * (K1 + 1.0) == (a * (K1 + 1.0)) * f;
    DividedProduct(a * (K1 + 1.0), f, norm);
  }

  lemma DividedProduct(a: real, f: real, norm: real)
    requires norm > 0.0
    ensures (a * f) / norm == a * (f / norm)
  {
    assert f / norm * norm == f;
    assert a * (f / norm) * norm == a * f;
  }

  function Odds(documents: nat, containing: nat): real { (documents as real - containing as real + 0.5) / (containing as real + 0.5) }

  function Share(frequency: nat, length: nat, average: real): real
    requires frequency > 0 && average >= 0.0
  {
    frequency as real / Norm(frequency, length, average)
  }

  lemma RarerHasBetterOdds(documents: nat, a: nat, b: nat)
    requires a < b <= documents
    ensures 0.0 < Odds(documents, b) < Odds(documents, a)
  {
    var n, x, y := documents as real, a as real, b as real;
    assert (n - y + 0.5) * (x + 0.5) < (n - x + 0.5) * (y + 0.5) by {
      ScaledMore(x, y, n + 1.0);
      assert (n - y + 0.5) * (x + 0.5) - (n - x + 0.5) * (y + 0.5) == x * (n + 1.0) - y * (n + 1.0);
    }
    SmallerFraction(n - y + 0.5, y + 0.5, n - x + 0.5, x + 0.5);
    assert (n - y + 0.5) / (y + 0.5) > 0.0;
  }

  lemma MoreOccurrencesShareMore(a: nat, b: nat, length: nat, average: real)
    requires 0 < a < b && average >= 0.0
    ensures 0.0 < Share(a, length, average) < Share(b, length, average)
  {
    var c := K1 * (1.0 - B + B * (length as real / (if average == 0.0 then 1.0 else average)));
    var x, y := a as real, b as real;
    assert length as real / (if average == 0.0 then 1.0 else average) >= 0.0;
    assert c > 0.0;
    ScaledMore(x, y, c);
    assert x * (y + c) < y * (x + c);
    SmallerFraction(x, x + c, y, y + c);
    assert x / (x + c) > 0.0;
  }

  lemma ShorterSharesMore(frequency: nat, a: nat, b: nat, average: real)
    requires frequency > 0 && a < b && average >= 0.0
    ensures Share(frequency, a, average) > Share(frequency, b, average)
  {
    var scale, f := if average == 0.0 then 1.0 else average, frequency as real;
    ScaledMore(a as real, b as real, scale);
    SmallerFraction(a as real, scale, b as real, scale);
    var x, y := Norm(frequency, a, average), Norm(frequency, b, average);
    assert x < y;
    ScaledMore(x, y, f);
    SmallerFraction(f, y, f, x);
  }

  ghost predicate Rising(ln: real -> real) { forall x: real, y: real :: x < y ==> ln(x) < ln(y) }

  /** With a rising logarithm a rarer term weighs more. */
  lemma RarerWeighsMore(s: Surroundings, queryFrequency: nat, documents: nat, containing: nat, more: nat, frequency: nat, length: nat, average: real)
    requires s.PositiveAboveOne() && Rising(s.ln) && queryFrequency > 0 && containing < more <= documents && frequency > 0 && average >= 0.0
    ensures Weight(s, queryFrequency, documents, more, frequency, length, average)
          < Weight(s, queryFrequency, documents, containing, frequency, length, average)
  {
    RarerHasBetterOdds(documents, containing, more);
    MoreOccurrencesShareMore(frequency, frequency + 1, length, average);
    WeightInParts(s, queryFrequency, documents, containing, frequency, length, average);
    WeightInParts(s, queryFrequency, documents, more, frequency, length, average);
    var q, share := queryFrequency as real, Share(frequency, length, average);
    PartsOrdered(q, q, s.ln(1.0 + Odds(documents, more)), s.ln(1.0 + Odds(documents, containing)), share);
  }

  /** So does a term that the query holds more often. */
  lemma RepeatedWeighsMore(s: Surroundings, queryFrequency: nat, more: nat, documents: nat, containing: nat, frequency: nat, length: nat,
              average: real)
    requires s.PositiveAboveOne() && 0 < queryFrequency < more && containing <= documents && frequency > 0 && average >= 0.0
    ensures Weight(s, queryFrequency, documents, containing, frequency, length, average)
          < Weight(s, more, documents, containing, frequency, length, average)
  {
    RarityIsPositive(s, documents, containing);
    MoreOccurrencesShareMore(frequency, frequency + 1, length, average);
    WeightInParts(s, queryFrequency, documents, containing, frequency, length, average);
    WeightInParts(s, more, documents, containing, frequency, length, average);
    var rarity := s.ln(1.0 + Odds(documents, containing));
    PartsOrdered(queryFrequency as real, more as real, rarity, rarity, Share(frequency, length, average));
  }

  /** So does one that the chunk holds more often, and one in a shorter chunk. */
  lemma FrequentAndShortWeighMore(s: Surroundings, queryFrequency: nat, documents: nat, containing: nat, frequency: nat, length: nat,
              average: real, more: nat)
    requires s.PositiveAboveOne() && queryFrequency > 0 && containing <= documents && frequency > 0 && average >= 0.0
    ensures frequency < more ==>
              Weight(s, queryFrequency, documents, containing, frequency, length, average) < Weight(s, queryFrequency, documents, containing, more, length, average)
    ensures length < more ==>
              Weight(s, queryFrequency, documents, containing, frequency, more, average) < Weight(s, queryFrequency, documents, containing, frequency, length, average)
  {
    RarityIsPositive(s, documents, containing);
    WeightInParts(s, queryFrequency, documents, containing, frequency, length, average);
    var first := queryFrequency as real * s.ln(1.0 + Odds(documents, containing)) * (K1 + 1.0);
    PartsPositive(queryFrequency as real, s.ln(1.0 + Odds(documents, containing)), K1 + 1.0);
    if frequency < more {
      MoreOccurrencesShareMore(frequency, more, length, average);
      WeightInParts(s, queryFrequency, documents, containing, more, length, average);
      ScaledMoreLeft(first, Share(frequency, length, average), Share(more, length, average));
    }
    if length < more {
      ShorterSharesMore(frequency, length, more, average);
      WeightInParts(s, queryFrequency, documents, containing, frequency, more, average);
      ScaledMoreLeft(first, Share(frequency, more, average), Share(frequency, length, average));
    }
  }

  lemma RarityIsPositive(s: Surroundings, documents: nat, containing: nat)
    requires s.PositiveAboveOne() && containing <= documents
    ensures s.ln(1.0 + Odds(documents, containing)) > 0.0
  {
    assert Odds(documents, containing) > 0.0;
  }

  lemma ScaledMoreLeft(scale: real, x: real, y: real)
    requires x < y && scale > 0.0
    ensures scale * x < scale * y
  {
  }

  lemma PartsPositive(q: real, rarity: real, k: real)
    requires q > 0.0 && rarity > 0.0 && k > 0.0
    ensures q * rarity * k > 0.0
  {
  }

  lemma PartsOrdered(q: real, p: real, a: real, b: real, share: real)
    requires 0.0 < q <= p && 0.0 < a <= b && share > 0.0 && (q < p || a < b)
    ensures q * a * (K1 + 1.0) * share < p * b * (K1 + 1.0) * share
  {
    ProductsOrdered(q, p, a, b);
    ScaledMore(q * a, p * b, K1 + 1.0);
    ScaledMore(q * a * (K1 + 1.0), p * b * (K1 + 1.0), share);
  }

  lemma ProductsOrdered(q: real, p: real, a: real, b: real)
    requires 0.0 < q <= p && 0.0 < a <= b && (q < p || a < b)
    ensures q * a < p * b
  {
    ScaledUp(q, p, a);
    ScaledUp(a, b, p);
    if q < p {
      ScaledMore(q, p, a);
    } else {
      ScaledMore(a, b, p);
    }
  }

  // ----- the score, over the set of a document's rows

  ghost function Containing(rows: set<Row>, term: Term): set<Row> { set row | row in rows && term in row.tokens }

  ghost function Length(): Row -> real { (row: Row) => |row.tokens| as real }

  ghost function Average(rows: set<Row>): (r: real)
    ensures r >= 0.0
  {
    LengthsNotNegative(rows);
    if rows == {} then 0.0 else SumOver(rows, Length()) / |rows| as real
  }

  lemma {:induction false} LengthsNotNegative(rows: set<Row>)
    ensures SumOver(rows, Length()) >= 0.0
    decreases |rows|
  {
    if rows != {} {
      var row :| row in rows;
      SumOverWithout(rows, Length(), row);
      LengthsNotNegative(rows - {row});
    }
  }

  ghost function Contribution(s: Surroundings, query: seq<Term>, rows: set<Row>, row: Row): Term -> real {
    (term: Term) =>
      if term !in row.tokens then 0.0
      else Weight(s, Count(query, term), |rows|, |Containing(rows, term)|, Count(row.tokens, term), |row.tokens|, Average(rows))
  }

  ghost function Shared(query: seq<Term>, row: Row): set<Term> { set term | term in query && term in row.tokens }

  /** The BM25 score of a row among the rows of its document. */
  ghost function Bm25(s: Surroundings, query: seq<Term>, rows: set<Row>, row: Row): real {
    SumOver(Shared(query, row), Contribution(s, query, rows, row))
  }

  /** A chunk scores exactly when it shares a term with the query. */
  lemma ScoresOnOverlap(s: Surroundings, query: seq<Term>, rows: set<Row>, row: Row)
    requires s.PositiveAboveOne() && row in rows
    ensures Bm25(s, query, rows, row) > 0.0 <==> exists term :: term in query && term in row.tokens
  {
    forall term | term in Shared(query, row)
      ensures Contribution(s, query, rows, row)(term) > 0.0
    {
      SubsetSize(Containing(rows, term), rows);
      WeightPositive(s, Count(query, term), |rows|, |Containing(rows, term)|, Count(row.tokens, term), |row.tokens|, Average(rows));
    }
    SumOverPositive(Shared(query, row), Contribution(s, query, rows, row));
    if term :| term in query && term in row.tokens {
      assert term in Shared(query, row);
    }
  }

  // ----- the staged query

  ghost predicate DistinctIds(rows: set<Row>) {
    forall a, b :: a in rows && b in rows && a.chunk.id == b.chunk.id ==> a == b
  }

  /** A row of `term_frequencies`. */
  datatype TermRow = TermRow(id: string, term: Term, frequency: nat)

  ghost function Candidates(query: seq<Term>, rows: set<Row>): set<Row> { set row | row in rows && Shared(query, row) != {} }

  ghost function TermFrequencies(query: seq<Term>, candidates: set<Row>): set<TermRow> {
    set row, term | row in candidates && term in Shared(query, row) :: TermRow(row.chunk.id, term, Count(row.tokens, term))
  }

  ghost function DocumentFrequency(frequencies: set<TermRow>, term: Term): nat {
    |set row | row in frequencies && row.term == term|
  }

  ghost function SqlContribution(s: Surroundings, query: seq<Term>, rows: set<Row>, length: nat): TermRow -> real {
    var frequencies := TermFrequencies(query, Candidates(query, rows));
    (row: TermRow) =>
      if row.frequency == 0 then 0.0
      else Weight(s, Count(query, row.term), |rows|, DocumentFrequency(frequencies, row.term), row.frequency, length, Average(rows))
  }

  ghost function TermRowsOf(query: seq<Term>, rows: set<Row>, id: string): set<TermRow> {
    set row | row in TermFrequencies(query, Candidates(query, rows)) && row.id == id
  }

  ghost function SqlScore(s: Surroundings, query: seq<Term>, rows: set<Row>, candidate: Row): real {
    SumOver(TermRowsOf(query, rows, candidate.chunk.id), SqlContribution(s, query, rows, |candidate.tokens|))
  }

  ghost function SqlScored(s: Surroundings, query: seq<Term>, rows: set<Row>): set<Ranked<Chunk>> {
    set row | row in Candidates(query, rows) && SqlScore(s, query, rows, row) > 0.0 :: Ranked(row.chunk.id, SqlScore(s, query, rows, row), row.chunk)
  }

  /** What the Postgres store answers over the rows of one document. */
  ghost predicate SqlAnswer(s: Surroundings, query: seq<Term>, rows: set<Row>, k: int, answer: seq<Ranked<Chunk>>) {
    if k < 1 || query == [] then answer == [] else IsTop(s.before, answer, SqlScored(s, query, rows), k)
  }

  lemma SqlAnswersOnce(s: Surroundings, query: seq<Term>, rows: set<Row>, k: int, a: seq<Ranked<Chunk>>, b: seq<Ranked<Chunk>>)
    requires TotalOrder(s.before) && SqlAnswer(s, query, rows, k, a) && SqlAnswer(s, query, rows, k, b)
    ensures a == b
  {
    if k >= 1 && query != [] {
      OneTop(s.before, a, b, SqlScored(s, query, rows), k);
    }
  }

  // ----- both scores agree

  /** Counting over the candidates alone loses no row that holds a term of the query. */
  lemma DocumentFrequencyIsContaining(query: seq<Term>, rows: set<Row>, term: Term)
    requires DistinctIds(rows) && term in query
    ensures DocumentFrequency(TermFrequencies(query, Candidates(query, rows)), term) == |Containing(rows, term)|
  {
    var frequencies := TermFrequencies(query, Candidates(query, rows));
    var matching := set row | row in frequencies && row.term == term;
    var to := (row: Row) => TermRow(row.chunk.id, term, Count(row.tokens, term));
    var one := (row: Row) => 1.0;
    var two := (row: TermRow) => 1.0;
    forall row | row in Containing(rows, term)
      ensures to(row) in matching
    {
      assert term in Shared(query, row);
    }
    forall termRow | termRow in matching
      ensures exists row :: row in Containing(rows, term) && to(row) == termRow
    {
      var row, other :| row in Candidates(query, rows) && other in Shared(query, row) && termRow == TermRow(row.chunk.id, other, Count(row.tokens, other));
      assert row in Containing(rows, term) && to(row) == termRow;
    }
    SumOverImage(Containing(rows, term), one, matching, two, to);
  }

  lemma SqlScoreIsBm25(s: Surroundings, query: seq<Term>, rows: set<Row>, row: Row)
    requires DistinctIds(rows) && row in Candidates(query, rows)
    ensures SqlScore(s, query, rows, row) == Bm25(s, query, rows, row)
  {
    var mine := TermRowsOf(query, rows, row.chunk.id);
    var f, g := Contribution(s, query, rows, row), SqlContribution(s, query, rows, |row.tokens|);
    var to := (term: Term) => TermRow(row.chunk.id, term, Count(row.tokens, term));
    forall term | term in Shared(query, row)
      ensures to(term) in mine && f(term) == g(to(term))
    {
      DocumentFrequencyIsContaining(query, rows, term);
    }
    forall termRow | termRow in mine
      ensures exists term :: term in Shared(query, row) && to(term) == termRow
    {
      assert to(termRow.term) == termRow;
    }
    SumOverImage(Shared(query, row), f, mine, g, to);
  }

  ghost function Scored(s: Surroundings, query: seq<Term>, rows: set<Row>): set<Ranked<Chunk>> {
    set row | row in rows && Bm25(s, query, rows, row) > 0.0 :: Ranked(row.chunk.id, Bm25(s, query, rows, row), row.chunk)
  }

  lemma SameScored(s: Surroundings, query: seq<Term>, rows: set<Row>)
    requires DistinctIds(rows)
    ensures SqlScored(s, query, rows) == Scored(s, query, rows)
  {
    forall row | row in rows
      ensures row in Candidates(query, rows) ==> SqlScore(s, query, rows, row) == Bm25(s, query, rows, row)
      ensures row !in Candidates(query, rows) ==> Bm25(s, query, rows, row) == 0.0
    {
      if row in Candidates(query, rows) {
        SqlScoreIsBm25(s, query, rows, row);
      }
    }
  }

  // ----- the loop

  /** The distinct terms in the order a counter keeps them. */
  function Terms(query: seq<Term>): (r: seq<Term>)
    ensures forall term :: term in r <==> term in query
    ensures r == [] <==> query == []
    ensures forall i, j :: 0 <= i < j < |r| ==> r[i] != r[j]
  {
    if query == [] then []
    else
      var earlier := Terms(query[..|query| - 1]);
      assert query == query[..|query| - 1] + [query[|query| - 1]];
      if query[|query| - 1] in earlier then earlier else earlier + [query[|query| - 1]]
  }

  ghost predicate DistinctEntries(entries: seq<Row>) {
    forall i, j :: 0 <= i < j < |entries| ==> entries[i].chunk.id != entries[j].chunk.id
  }

  lemma DistinctRows(entries: seq<Row>)
    requires DistinctEntries(entries)
    ensures DistinctIds(Elements(entries))
  {
  }

  lemma EntriesAdd(entries: seq<Row>, n: nat)
    requires DistinctEntries(entries) && n < |entries|
    ensures Elements(entries[..n + 1]) == Elements(entries[..n]) + {entries[n]}
    ensures entries[n] !in Elements(entries[..n])
    ensures n + 1 == |entries| ==> entries[..n + 1] == entries
  {
    assert entries[..n + 1] == entries[..n] + [entries[n]];
  }

  method CountContaining(entries: seq<Row>, term: Term) returns (count: nat)
    requires DistinctEntries(entries)
    ensures count == |Containing(Elements(entries), term)|
  {
    count := 0;
    for i := 0 to |entries|
      invariant count == |Containing(Elements(entries[..i]), term)|
    {
      EntriesAdd(entries, i);
      ghost var before, after := Containing(Elements(entries[..i]), term), Containing(Elements(entries[..i + 1]), term);
      if term in entries[i].tokens {
        count := count + 1;
        assert after == before + {entries[i]};
      } else {
        assert after == before;
      }
    }
    assert entries[..|entries|] == entries;
  }

  method AverageLength(entries: seq<Row>) returns (average: real)
    requires DistinctEntries(entries) && entries != []
    ensures average == Average(Elements(entries))
  {
    var total := 0.0;
    for i := 0 to |entries|
      invariant total == SumOver(Elements(entries[..i]), Length()) && i == |Elements(entries[..i])|
    {
      EntriesAdd(entries, i);
      SumOverWith(Elements(entries[..i]), Length(), entries[i]);
      total := total + |entries[i].tokens| as real;
    }
    assert entries[..|entries|] == entries && entries[0] in Elements(entries);
    average := total / |entries| as real;
  }

  method DocumentFrequencies(entries: seq<Row>, terms: seq<Term>) returns (frequency: map<Term, nat>)
    requires DistinctEntries(entries)
    ensures forall term :: term in terms ==> term in frequency && frequency[term] == |Containing(Elements(entries), term)|
  {
    frequency := map[];
    for i := 0 to |terms|
      invariant forall term :: term in terms[..i] ==> term in frequency && frequency[term] == |Containing(Elements(entries), term)|
    {
      var count := CountContaining(entries, terms[i]);
      frequency := frequency[terms[i] := count];
    }
  }

  /** The score after the first `i` terms. */
  ghost function Partial(s: Surroundings, query: seq<Term>, rows: set<Row>, row: Row, i: nat): real
    requires i <= |Terms(query)|
  {
    SumOver(Shared(Terms(query)[..i], row), Contribution(s, query, rows, row))
  }

  lemma PartialOneMore(s: Surroundings, query: seq<Term>, rows: set<Row>, row: Row, i: nat)
    requires i < |Terms(query)|
    ensures var term := Terms(query)[i];
            var weight := if term in row.tokens
                          then Weight(s, Count(query, term), |rows|, |Containing(rows, term)|, Count(row.tokens, term), |row.tokens|, Average(rows))
                          else 0.0;
            Partial(s, query, rows, row, i + 1) == Partial(s, query, rows, row, i) + weight
  {
    var terms, f := Terms(query), Contribution(s, query, rows, row);
    assert terms[..i + 1] == terms[..i] + [terms[i]];
    if terms[i] in row.tokens {
      assert Shared(terms[..i + 1], row) == Shared(terms[..i], row) + {terms[i]};
      SumOverWith(Shared(terms[..i], row), f, terms[i]);
    } else {
      assert Shared(terms[..i + 1], row) == Shared(terms[..i], row);
    }
  }

  lemma PartialIsWhole(s: Surroundings, query: seq<Term>, rows: set<Row>, row: Row)
    ensures Partial(s, query, rows, row, 0) == 0.0
    ensures Partial(s, query, rows, row, |Terms(query)|) == Bm25(s, query, rows, row)
  {
    var terms := Terms(query);
    assert terms[..|terms|] == terms;
    assert Shared(terms, row) == Shared(query, row);
    assert Shared(terms[..0], row) == {};
  }

  method ScoreOf(s: Surroundings, query: seq<Term>, terms: seq<Term>, frequency: map<Term, nat>, average: real, documents: nat,
                 row: Row, ghost rows: set<Row>) returns (score: real)
    requires terms == Terms(query) && documents == |rows| && average == Average(rows)
    requires forall term :: term in terms ==> term in frequency && frequency[term] == |Containing(rows, term)|
    ensures score == Bm25(s, query, rows, row)
  {
    PartialIsWhole(s, query, rows, row);
    score := 0.0;
    for i := 0 to |terms|
      invariant score == Partial(s, query, rows, row, i)
    {
      PartialOneMore(s, query, rows, row, i);
      var inRow := Count(row.tokens, terms[i]);
      if inRow == 0 {
        continue;
      }
      score := score + Weight(s, Count(query, terms[i]), documents, frequency[terms[i]], inRow, |row.tokens|, average);
    }
  }

  // ----- the loop over the chunks

  /** The loop ranks the chunks of a document as the staged query does. */
  method Bm25Rank(s: Surroundings, query: seq<Term>, entries: seq<Row>, k: int) returns (ranked: seq<Ranked<Chunk>>)
    requires TotalOrder(s.before) && DistinctEntries(entries)
    ensures SqlAnswer(s, query, Elements(entries), k, ranked)
  {
    if k < 1 || entries == [] {
      NothingScored(s, query, Elements(entries), k);
      return [];
    }
    var terms := Terms(query);
    if terms == [] {
      return [];
    }
    var frequency := DocumentFrequencies(entries, terms);
    var average := AverageLength(entries);
    ghost var rows := Elements(entries);
    EntriesSize(entries);
    ranked := [];
    for i := 0 to |entries|
      invariant RankedSoFar(s, query, rows, entries, i, ranked)
    {
      var score := ScoreOf(s, query, terms, frequency, average, |entries|, entries[i], rows);
      RankedOneMore(s, query, rows, entries, i, ranked);
      if score > 0.0 {
        ranked := ranked + [Ranked(entries[i].chunk.id, score, entries[i].chunk)];
      }
    }
    assert entries[..|entries|] == entries;
    SortedInOrder(s.before, ranked);
    DistinctRows(entries);
    SameScored(s, query, rows);
    ranked := Take(Sorted(s.before, ranked), k);
  }

  ghost predicate RankedSoFar(s: Surroundings, query: seq<Term>, rows: set<Row>, entries: seq<Row>, i: nat, ranked: seq<Ranked<Chunk>>) {
    && i <= |entries|
    && Elements(ranked) == ScoredAmong(s, query, rows, Elements(entries[..i])) && DistinctlyRanked(ranked)
    && forall x :: x in ranked ==> exists j :: 0 <= j < i && entries[j].chunk.id == x.id
  }

  lemma RankedOneMore(s: Surroundings, query: seq<Term>, rows: set<Row>, entries: seq<Row>, i: nat, ranked: seq<Ranked<Chunk>>)
    requires DistinctEntries(entries) && RankedSoFar(s, query, rows, entries, i, ranked) && i < |entries|
    ensures var score := Bm25(s, query, rows, entries[i]);
            RankedSoFar(s, query, rows, entries, i + 1, if score > 0.0 then ranked + [Ranked(entries[i].chunk.id, score, entries[i].chunk)] else ranked)
  {
    EntriesAdd(entries, i);
    ScoredOneMore(s, query, rows, Elements(entries[..i]), entries[i]);
    var score := Bm25(s, query, rows, entries[i]);
    if score > 0.0 {
      var x := Ranked(entries[i].chunk.id, score, entries[i].chunk);
      assert Elements(ranked + [x]) == Elements(ranked) + {x};
      NewId(entries, i, ranked);
    }
  }

  lemma NewId(entries: seq<Row>, i: nat, ranked: seq<Ranked<Chunk>>)
    requires DistinctEntries(entries) && i < |entries|
    requires forall x :: x in ranked ==> exists j :: 0 <= j < i && entries[j].chunk.id == x.id
    ensures forall k :: 0 <= k < |ranked| ==> ranked[k].id != entries[i].chunk.id
  {
  }

  lemma ScoredOneMore(s: Surroundings, query: seq<Term>, rows: set<Row>, some: set<Row>, row: Row)
    ensures var score := Bm25(s, query, rows, row);
            ScoredAmong(s, query, rows, some + {row})
            == ScoredAmong(s, query, rows, some) + (if score > 0.0 then {Ranked(row.chunk.id, score, row.chunk)} else {})
  {
  }

  ghost function ScoredAmong(s: Surroundings, query: seq<Term>, rows: set<Row>, some: set<Row>): set<Ranked<Chunk>> {
    set row | row in some && Bm25(s, query, rows, row) > 0.0 :: Ranked(row.chunk.id, Bm25(s, query, rows, row), row.chunk)
  }

  lemma NothingScored(s: Surroundings, query: seq<Term>, rows: set<Row>, k: int)
    requires k < 1 || rows == {}
    ensures SqlAnswer(s, query, rows, k, [])
  {
    if k >= 1 {
      var none: seq<Ranked<Chunk>> := [];
      assert InOrder(s.before, none) && Elements(none) == SqlScored(s, query, rows) && none == Take(none, k);
    }
  }

  lemma {:induction false} EntriesSize(entries: seq<Row>)
    requires DistinctEntries(entries)
    ensures |Elements(entries)| == |entries|
  {
    if entries != [] {
      var n := |entries| - 1;
      EntriesSize(entries[..n]);
      EntriesAdd(entries, n);
    }
  }
}
