/** `ORDER BY <column> ASC|DESC` and the client-side comparators: an order
    on the values a column can hold and a sort that produces it. SQLite puts
    NULL below every value and PostgreSQL above every value, in both
    directions, so `DESC` is in each engine the exact reverse of `ASC`. */
module Ordering {
  import opened Text

  /** A column value as the engine compares it. Numbers sort before text in
      SQLite; a column never mixes the two in this schema. */
  datatype SortKey = Null | Num(n: real) | Str(s: string)

  /** Where NULL falls in ascending order: below every value (SQLite) or
      above every value (PostgreSQL). */
  datatype NullOrder = NullsLow | NullsHigh

  datatype Direction = Asc | Desc

  /** The ascending order on keys. */
  predicate KeyLe(a: SortKey, b: SortKey, nulls: NullOrder) {
    match (a, b)
    case (Null, Null) => true
    case (Null, _) => nulls == NullsLow
    case (_, Null) => nulls == NullsHigh
    case (Num(x), Num(y)) => x <= y
    case (Num(_), Str(_)) => true
    case (Str(_), Num(_)) => false
    case (Str(x), Str(y)) => LexLe(x, y)
  }

  lemma KeyLeTotal(a: SortKey, b: SortKey, nulls: NullOrder)
    ensures KeyLe(a, b, nulls) || KeyLe(b, a, nulls)
  {
    if a.Str? && b.Str? {
      LexLeTotal(a.s, b.s);
    }
  }

  lemma KeyLeTransitive(a: SortKey, b: SortKey, c: SortKey, nulls: NullOrder)
    requires KeyLe(a, b, nulls) && KeyLe(b, c, nulls)
    ensures KeyLe(a, c, nulls)
  {
    if a.Str? && b.Str? && c.Str? {
      LexLeTransitive(a.s, b.s, c.s);
    }
  }

  /** `a` may come before `b` in a result ordered in direction `dir`. */
  predicate Before(a: SortKey, b: SortKey, nulls: NullOrder, dir: Direction) {
    if dir == Asc then KeyLe(a, b, nulls) else KeyLe(b, a, nulls)
  }

  lemma BeforeTotal(a: SortKey, b: SortKey, nulls: NullOrder, dir: Direction)
    ensures Before(a, b, nulls, dir) || Before(b, a, nulls, dir)
  {
    KeyLeTotal(a, b, nulls);
  }

  lemma BeforeTransitive(a: SortKey, b: SortKey, c: SortKey, nulls: NullOrder, dir: Direction)
    requires Before(a, b, nulls, dir) && Before(b, c, nulls, dir)
    ensures Before(a, c, nulls, dir)
  {
    if dir == Asc {
      KeyLeTransitive(a, b, c, nulls);
    } else {
      KeyLeTransitive(c, b, a, nulls);
    }
  }

  /** Every row comes before every later row in the order on `key`. */
  ghost predicate SortedBy<T>(xs: seq<T>, key: T -> SortKey, nulls: NullOrder, dir: Direction) {
    forall i, j :: 0 <= i < j < |xs| ==> Before(key(xs[i]), key(xs[j]), nulls, dir)
  }

  lemma PrependSorted<T>(x: T, xs: seq<T>, key: T -> SortKey, nulls: NullOrder, dir: Direction)
    requires SortedBy(xs, key, nulls, dir)
    requires xs == [] || Before(key(x), key(xs[0]), nulls, dir)
    ensures SortedBy([x] + xs, key, nulls, dir)
  {
    var r := [x] + xs;
    forall i, j | 0 <= i < j < |r|
      ensures Before(key(r[i]), key(r[j]), nulls, dir)
    {
      if i == 0 && j > 1 {
        BeforeTransitive(key(x), key(xs[0]), key(xs[j - 1]), nulls, dir);
      }
    }
  }

  /** Inserts `x` into a sorted list, before the first row it may precede. */
  function Insert<T(==)>(x: T, xs: seq<T>, key: T -> SortKey, nulls: NullOrder, dir: Direction): (r: seq<T>)
    requires SortedBy(xs, key, nulls, dir)
    ensures SortedBy(r, key, nulls, dir)
    ensures multiset(r) == multiset(xs) + multiset{x}
    ensures r != [] && (r[0] == x || (xs != [] && r[0] == xs[0]))
    decreases |xs|
  {
    if xs == [] || Before(key(x), key(xs[0]), nulls, dir) then
      PrependSorted(x, xs, key, nulls, dir);
      [x] + xs
    else
      BeforeTotal(key(x), key(xs[0]), nulls, dir);
      var t := Insert(x, xs[1..], key, nulls, dir);
      PrependSorted(xs[0], t, key, nulls, dir);
      assert xs == [xs[0]] + xs[1..];
      [xs[0]] + t
  }

  /** `ORDER BY key dir`: the rows rearranged into the order on `key`.
      Rows with equal keys may appear in any order in the engine's result;
      this one is one of them. */
  function SortRows<T(==)>(xs: seq<T>, key: T -> SortKey, nulls: NullOrder, dir: Direction): (r: seq<T>)
    ensures SortedBy(r, key, nulls, dir)
    ensures multiset(r) == multiset(xs)
    decreases |xs|
  {
    if xs == [] then []
    else
      assert xs == [xs[0]] + xs[1..];
      Insert(xs[0], SortRows(xs[1..], key, nulls, dir), key, nulls, dir)
  }
}
