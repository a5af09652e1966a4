/** Lists ranked by falling score and then by id, as every ranking of the system is sorted
    (app/rag/vector_store.py:936-937, app/rag/pipeline.py:809-810). */
module RankedLists {
  datatype Ranked<T> = Ranked(id: string, score: real, item: T)

  /** The order of ids. */
  type Order = (string, string) -> bool

  ghost predicate TotalOrder(before: Order) {
    && (forall a: string :: !before(a, a))
    && (forall a: string, b: string :: before(a, b) || before(b, a) || a == b)
    && (forall a: string, b: string, c: string :: before(a, b) && before(b, c) ==> before(a, c))
  }

  /** By falling score, then by chunk id. */
  predicate Precedes<T(!new)>(before: Order, a: Ranked<T>, b: Ranked<T>) {
    a.score > b.score || (a.score == b.score && before(a.id, b.id))
  }

  ghost predicate InOrder<T(!new)>(before: Order, list: seq<Ranked<T>>) {
    forall i, j :: 0 <= i < j < |list| ==> Precedes(before, list[i], list[j])
  }

  ghost function Elements<T(!new)>(list: seq<T>): set<T> { set x | x in list }

  function Take<T>(list: seq<T>, k: nat): seq<T> { if k < |list| then list[..k] else list }

  /** `ORDER BY score DESC, chunk_id ASC LIMIT k`. */
  ghost predicate IsTop<T(!new)>(before: Order, list: seq<Ranked<T>>, scored: set<Ranked<T>>, k: nat) {
    exists full :: InOrder(before, full) && Elements(full) == scored && list == Take(full, k)
  }

  lemma {:induction false} OneOrder<T(!new)>(before: Order, a: seq<Ranked<T>>, b: seq<Ranked<T>>)
    requires TotalOrder(before) && InOrder(before, a) && InOrder(before, b) && Elements(a) == Elements(b)
    ensures a == b
  {
    NoElements(a);
    NoElements(b);
    if a != [] {
      FirstIsLeast(before, a, b);
      TailElements(before, a);
      TailElements(before, b);
      OneOrder(before, a[1..], b[1..]);
    }
  }

  lemma NoElements<T(!new)>(list: seq<T>)
    ensures Elements(list) == {} <==> list == []
  {
    if list != [] {
      assert list[0] in Elements(list);
    }
  }

  lemma PrecedesOneWay<T(!new)>(before: Order, a: Ranked<T>, b: Ranked<T>)
    requires TotalOrder(before) && Precedes(before, a, b)
    ensures !Precedes(before, b, a)
  {
    assert before(b.id, a.id) && before(a.id, b.id) ==> before(a.id, a.id);
  }

  lemma FirstIsLeast<T(!new)>(before: Order, a: seq<Ranked<T>>, b: seq<Ranked<T>>)
    requires TotalOrder(before) && InOrder(before, a) && InOrder(before, b) && Elements(a) == Elements(b) && a != [] && b != []
    ensures a[0] == b[0]
  {
    assert a[0] in Elements(b) && b[0] in Elements(a);
    var i :| 0 <= i < |b| && b[i] == a[0];
    var j :| 0 <= j < |a| && a[j] == b[0];
    if i > 0 && j > 0 {
      PrecedesOneWay(before, b[0], b[i]);
      assert false;
    }
  }

  lemma TailElements<T(!new)>(before: Order, a: seq<Ranked<T>>)
    requires TotalOrder(before) && InOrder(before, a) && a != []
    ensures Elements(a[1..]) == Elements(a) - {a[0]} && InOrder(before, a[1..])
  {
    forall x
      ensures x in Elements(a[1..]) <==> x in Elements(a) - {a[0]}
    {
      if x in Elements(a[1..]) {
        var i :| 0 <= i < |a[1..]| && a[1..][i] == x;
        assert Precedes(before, a[0], a[i + 1]);
      }
    }
  }

  lemma OneTop<T(!new)>(before: Order, a: seq<Ranked<T>>, b: seq<Ranked<T>>, scored: set<Ranked<T>>, k: nat)
    requires TotalOrder(before) && IsTop(before, a, scored, k) && IsTop(before, b, scored, k)
    ensures a == b
  {
    var x :| InOrder(before, x) && Elements(x) == scored && a == Take(x, k);
    var y :| InOrder(before, y) && Elements(y) == scored && b == Take(y, k);
    OneOrder(before, x, y);
  }

  function Insert<T(!new)>(before: Order, x: Ranked<T>, list: seq<Ranked<T>>): seq<Ranked<T>> {
    if list == [] || Precedes(before, x, list[0]) then [x] + list else [list[0]] + Insert(before, x, list[1..])
  }

  /** `list.sort` by falling score, then chunk id. */
  function Sorted<T(!new)>(before: Order, list: seq<Ranked<T>>): seq<Ranked<T>> {
    if list == [] then [] else Insert(before, list[|list| - 1], Sorted(before, list[..|list| - 1]))
  }

  ghost predicate DistinctlyRanked<T(!new)>(list: seq<Ranked<T>>) {
    forall i, j :: 0 <= i < j < |list| ==> list[i].id != list[j].id
  }

  lemma {:induction false} InsertInOrder<T(!new)>(before: Order, x: Ranked<T>, list: seq<Ranked<T>>)
    requires TotalOrder(before) && InOrder(before, list) && forall y :: y in list ==> y.id != x.id
    ensures InOrder(before, Insert(before, x, list)) && Elements(Insert(before, x, list)) == Elements(list) + {x}
  {
    if list == [] {
    } else if Precedes(before, x, list[0]) {
      forall j | 0 <= j < |list|
        ensures Precedes(before, x, list[j])
      {
        if j > 0 {
          assert Precedes(before, list[0], list[j]);
        }
      }
    } else {
      var rest := Insert(before, x, list[1..]);
      assert list == [list[0]] + list[1..];
      InsertInOrder(before, x, list[1..]);
      forall j | 0 <= j < |rest|
        ensures Precedes(before, list[0], rest[j])
      {
        assert rest[j] in Elements(list[1..]) + {x};
        if rest[j] != x {
          var i :| 0 <= i < |list[1..]| && list[1..][i] == rest[j];
          assert Precedes(before, list[0], list[i + 1]);
        }
      }
    }
  }

  lemma {:induction false} SortedInOrder<T(!new)>(before: Order, list: seq<Ranked<T>>)
    requires TotalOrder(before) && DistinctlyRanked(list)
    ensures InOrder(before, Sorted(before, list)) && Elements(Sorted(before, list)) == Elements(list)
  {
    if list != [] {
      var n := |list| - 1;
      SortedInOrder(before, list[..n]);
      forall y | y in Sorted(before, list[..n])
        ensures y.id != list[n].id
      {
        assert y in Elements(list[..n]);
      }
      InsertInOrder(before, list[n], Sorted(before, list[..n]));
      assert list == list[..n] + [list[n]];
    }
  }
}
