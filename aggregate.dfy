/** The per-store aggregates: the count of a store's ratings and their mean,
    0 when there are none. Two definitions meet here. The database computes
    `COALESCE(AVG(r.value), 0)` and `COUNT(r.id)` over the SET of rating rows
    joined to the store (`StoreAverage`, `StoreCount`); the Nest services fetch
    the rows as a list and compute `reduce((s, r) => s + r.value, 0) / length`
    (`Mean` of `Values`). `ListedMeanIsStoreAverage` proves that they agree for
    every listing of the rows, in whatever order the rows arrive. */
module Aggregate {
  import opened Records
  import opened Seqs

  function Sum(vals: seq<int>): int {
    if vals == [] then 0 else vals[0] + Sum(vals[1..])
  }

  /** The exact mean of a list of values, 0 for the empty list. */
  function Mean(vals: seq<int>): real {
    if |vals| == 0 then 0.0 else Sum(vals) as real / |vals| as real
  }

  function Values(rows: seq<Rating>): seq<int> {
    seq(|rows|, i requires 0 <= i < |rows| => rows[i].value)
  }

  lemma ValuesCons(rows: seq<Rating>)
    requires rows != []
    ensures Sum(Values(rows)) == rows[0].value + Sum(Values(rows[1..]))
  {
    assert Values(rows)[1..] == Values(rows[1..]);
  }

  lemma {:induction false} SumAppend(a: seq<int>, b: seq<int>)
    ensures Sum(a + b) == Sum(a) + Sum(b)
    decreases |a|
  {
    if a == [] {
      assert a + b == b;
    } else {
      assert (a + b)[1..] == a[1..] + b;
      SumAppend(a[1..], b);
    }
  }

  lemma {:induction false} SumBounds(vals: seq<int>, lo: int, hi: int)
    requires forall i :: 0 <= i < |vals| ==> lo <= vals[i] <= hi
    ensures lo * |vals| <= Sum(vals) <= hi * |vals|
    decreases |vals|
  {
    if vals != [] {
      SumBounds(vals[1..], lo, hi);
    }
  }

  /** With every value a star count in 1..5, a non-empty mean lies in [1, 5]. */
  lemma MeanBounds(vals: seq<int>)
    requires |vals| > 0
    requires forall i :: 0 <= i < |vals| ==> 1 <= vals[i] <= 5
    ensures 1.0 <= Mean(vals) <= 5.0
  {
    SumBounds(vals, 1, 5);
    RatioBounds(Sum(vals), |vals|);
  }

  lemma RatioBounds(total: int, n: int)
    requires 0 < n && n <= total <= 5 * n
    ensures 1.0 <= total as real / n as real <= 5.0
  {
    QuotientBounds(total as real, n as real);
  }

  lemma QuotientBounds(t: real, m: real)
    requires 0.0 < m && m <= t <= 5.0 * m
    ensures 1.0 <= t / m <= 5.0
  {
  }

  /** The sum does not depend on the order of the values. */
  lemma {:induction false} SumPermutation(a: seq<int>, b: seq<int>)
    requires multiset(a) == multiset(b)
    ensures Sum(a) == Sum(b)
    decreases |a|
  {
    if a == [] {
      assert |multiset(b)| == 0;
    } else {
      var x := a[0];
      assert x in multiset(b);
      var j :| 0 <= j < |b| && b[j] == x;
      var rest := b[..j] + b[j + 1..];
      assert b == b[..j] + ([x] + b[j + 1..]);
      SumAppend(b[..j], [x] + b[j + 1..]);
      SumAppend([x], b[j + 1..]);
      SumAppend(b[..j], b[j + 1..]);
      assert multiset(b) == multiset(b[..j]) + multiset{x} + multiset(b[j + 1..]);
      assert multiset(rest) == multiset(b) - multiset{x};
      assert a == [x] + a[1..];
      assert multiset(a[1..]) == multiset(a) - multiset{x};
      SumPermutation(a[1..], rest);
    }
  }

  /** The rating rows joined to store `sid` (`LEFT JOIN ratings r ON r.store_id = s.id`). */
  function StoreKeys(ratings: map<RatingKey, Rating>, sid: Id): set<RatingKey> {
    set k | k in ratings && k.1 == sid
  }

  /** `SUM(r.value)` over a set of rating rows. */
  ghost function SumOver(ratings: map<RatingKey, Rating>, ks: set<RatingKey>): int
    requires ks <= ratings.Keys
    decreases ks
  {
    if ks == {} then 0
    else
      var k :| k in ks;
      ratings[k].value + SumOver(ratings, ks - {k})
  }

  /** Whichever row is taken out first, the sum is the same. */
  lemma {:induction false} SumOverRemove(ratings: map<RatingKey, Rating>, ks: set<RatingKey>, k: RatingKey)
    requires ks <= ratings.Keys && k in ks
    ensures SumOver(ratings, ks) == ratings[k].value + SumOver(ratings, ks - {k})
    decreases ks
  {
    var y :| y in ks && SumOver(ratings, ks) == ratings[y].value + SumOver(ratings, ks - {y});
    if y != k {
      SumOverRemove(ratings, ks - {y}, k);
      SumOverRemove(ratings, ks - {k}, y);
      assert ks - {y} - {k} == ks - {k} - {y};
    }
  }

  /** `COUNT(r.id)` for store `sid`. */
  function StoreCount(ratings: map<RatingKey, Rating>, sid: Id): nat {
    |StoreKeys(ratings, sid)|
  }

  /** `COALESCE(AVG(r.value), 0)` for store `sid`. */
  ghost function StoreAverage(ratings: map<RatingKey, Rating>, sid: Id): real {
    var n := StoreCount(ratings, sid);
    if n == 0 then 0.0 else SumOver(ratings, StoreKeys(ratings, sid)) as real / n as real
  }

  /** `rows` lists the rating rows `ks` of the table, each exactly once. */
  ghost predicate Lists(rows: seq<Rating>, ratings: map<RatingKey, Rating>, ks: set<RatingKey>) {
    && ks <= ratings.Keys
    && |rows| == |ks|
    && (forall i :: 0 <= i < |rows| ==> KeyOf(rows[i]) in ks && ratings[KeyOf(rows[i])] == rows[i])
    && (forall i, j :: 0 <= i < j < |rows| ==> KeyOf(rows[i]) != KeyOf(rows[j]))
    && (forall k :: k in ks ==> exists i :: 0 <= i < |rows| && KeyOf(rows[i]) == k)
  }

  /** Dropping the first row of a listing lists the remaining rows. */
  lemma ListsTail(rows: seq<Rating>, ratings: map<RatingKey, Rating>, ks: set<RatingKey>)
    requires rows != [] && Lists(rows, ratings, ks)
    ensures Lists(rows[1..], ratings, ks - {KeyOf(rows[0])})
  {
    var k := KeyOf(rows[0]);
    var tail := rows[1..];
    var rest := ks - {k};
    forall k' | k' in rest
      ensures exists i :: 0 <= i < |tail| && KeyOf(tail[i]) == k'
    {
      var i :| 0 <= i < |rows| && KeyOf(rows[i]) == k';
      assert KeyOf(tail[i - 1]) == k';
    }
    forall i | 0 <= i < |tail|
      ensures KeyOf(tail[i]) in rest
    {
      assert KeyOf(rows[0]) != KeyOf(rows[i + 1]);
    }
  }

  /** Summing a listing of the rows is summing the set of rows. */
  lemma {:induction false} ListedSum(rows: seq<Rating>, ratings: map<RatingKey, Rating>, ks: set<RatingKey>)
    requires Lists(rows, ratings, ks)
    ensures Sum(Values(rows)) == SumOver(ratings, ks)
    decreases |rows|
  {
    if rows == [] {
      assert |ks| == 0;
    } else {
      var k := KeyOf(rows[0]);
      assert k in ks && ratings[k] == rows[0];
      ListsTail(rows, ratings, ks);
      ListedSum(rows[1..], ratings, ks - {k});
      SumOverRemove(ratings, ks, k);
      ValuesCons(rows);
    }
  }

  /** The mean the Nest services compute over a fetched list of a store's
      ratings is the database's `COALESCE(AVG(r.value), 0)`, and the list's
      length is `COUNT(r.id)`. */
  lemma ListedMeanIsStoreAverage(rows: seq<Rating>, ratings: map<RatingKey, Rating>, sid: Id)
    requires Lists(rows, ratings, StoreKeys(ratings, sid))
    ensures |rows| == StoreCount(ratings, sid)
    ensures Mean(Values(rows)) == StoreAverage(ratings, sid)
  {
    ListedSum(rows, ratings, StoreKeys(ratings, sid));
  }

  /** A store without ratings has mean 0 and count 0. */
  lemma NoRatingsAverageZero(ratings: map<RatingKey, Rating>, sid: Id)
    requires forall k | k in ratings :: k.1 != sid
    ensures StoreCount(ratings, sid) == 0 && StoreAverage(ratings, sid) == 0.0
  {
    assert StoreKeys(ratings, sid) == {};
  }

  lemma {:induction false} SumOverBounds(ratings: map<RatingKey, Rating>, ks: set<RatingKey>)
    requires ks <= ratings.Keys
    requires forall k | k in ks :: 1 <= ratings[k].value <= 5
    ensures |ks| <= SumOver(ratings, ks) <= 5 * |ks|
    decreases ks
  {
    if ks != {} {
      var k :| k in ks;
      SumOverRemove(ratings, ks, k);
      SumOverBounds(ratings, ks - {k});
    }
  }

  /** Where every value is a star count in 1..5 (SQLite's CHECK), a store's
      average is 0 without ratings and lies in [1, 5] with some. */
  lemma StoreAverageInRange(ratings: map<RatingKey, Rating>, sid: Id)
    requires forall k | k in ratings :: 1 <= ratings[k].value <= 5
    ensures StoreCount(ratings, sid) == 0 ==> StoreAverage(ratings, sid) == 0.0
    ensures StoreCount(ratings, sid) > 0 ==> 1.0 <= StoreAverage(ratings, sid) <= 5.0
  {
    var ks := StoreKeys(ratings, sid);
    SumOverBounds(ratings, ks);
    if |ks| > 0 {
      RatioBounds(SumOver(ratings, ks), |ks|);
    }
  }

  /** The rows `ks` transformed by `f`. */
  ghost function Image<B>(ratings: map<RatingKey, Rating>, ks: set<RatingKey>, f: Rating -> B): set<B>
    requires ks <= ratings.Keys
  {
    set k | k in ks :: f(ratings[k])
  }

  lemma ImageRemove<B>(ratings: map<RatingKey, Rating>, ks: set<RatingKey>, k: RatingKey, f: Rating -> B)
    requires ks <= ratings.Keys && k in ks
    requires forall a, b | a in ks && b in ks && a != b :: f(ratings[a]) != f(ratings[b])
    ensures Image(ratings, ks, f) == Image(ratings, ks - {k}, f) + {f(ratings[k])}
    ensures f(ratings[k]) !in Image(ratings, ks - {k}, f)
  {
  }

  /** Transforming a listing of the rows `ks` by a function that keeps them
      apart gives each transformed row exactly once. */
  lemma {:induction false} ListsMap<B>(rows: seq<Rating>, ratings: map<RatingKey, Rating>, ks: set<RatingKey>, f: Rating -> B)
    requires Lists(rows, ratings, ks)
    requires forall a, b | a in ks && b in ks && a != b :: f(ratings[a]) != f(ratings[b])
    ensures multiset(Map(rows, f)) == multiset(Image(ratings, ks, f))
    decreases |rows|
  {
    if rows == [] {
      assert |ks| == 0;
      assert Image(ratings, ks, f) == {};
    } else {
      var k := KeyOf(rows[0]);
      assert k in ks && ratings[k] == rows[0];
      ListsTail(rows, ratings, ks);
      ListsMap(rows[1..], ratings, ks - {k}, f);
      ImageRemove(ratings, ks, k, f);
      MapConcat([rows[0]], rows[1..], f);
      assert rows == [rows[0]] + rows[1..];
      assert Map([rows[0]], f) == [f(rows[0])];
    }
  }
}
