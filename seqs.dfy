/** Sequences transformed element by element (`rows.map(f)`), and the fact
    that transforming two permutations of each other gives two permutations
    of each other. */
module Seqs {

  function Map<A, B>(xs: seq<A>, f: A -> B): (r: seq<B>)
    ensures |r| == |xs| && forall i :: 0 <= i < |xs| ==> r[i] == f(xs[i])
  {
    seq(|xs|, i requires 0 <= i < |xs| => f(xs[i]))
  }

  lemma MapConcat<A, B>(a: seq<A>, b: seq<A>, f: A -> B)
    ensures Map(a + b, f) == Map(a, f) + Map(b, f)
  {
  }

  /** Removing the element at `j` removes one occurrence from the multiset. */
  lemma RemoveAt<A>(ys: seq<A>, j: nat)
    requires j < |ys|
    ensures multiset(ys[..j] + ys[j + 1..]) == multiset(ys) - multiset{ys[j]}
  {
    assert ys == ys[..j] + [ys[j]] + ys[j + 1..];
  }

  /** Mapping the sequence with element `j` removed. */
  lemma MapRemoveAt<A, B>(ys: seq<A>, j: nat, f: A -> B)
    requires j < |ys|
    ensures multiset(Map(ys, f)) == multiset(Map(ys[..j] + ys[j + 1..], f)) + multiset{f(ys[j])}
  {
    assert ys == ys[..j] + [ys[j]] + ys[j + 1..];
    MapConcat(ys[..j] + [ys[j]], ys[j + 1..], f);
    MapConcat(ys[..j], [ys[j]], f);
    MapConcat(ys[..j], ys[j + 1..], f);
  }

  lemma {:induction false} MapPermutation<A, B>(xs: seq<A>, ys: seq<A>, f: A -> B)
    requires multiset(xs) == multiset(ys)
    ensures multiset(Map(xs, f)) == multiset(Map(ys, f))
    decreases |xs|
  {
    if xs == [] {
      assert |multiset(ys)| == 0;
    } else {
      var x := xs[0];
      var j := IndexOf(ys, x);
      var rest := ys[..j] + ys[j + 1..];
      assert multiset(xs[1..]) == multiset(rest) by {
        RemoveAt(ys, j);
        assert xs == [x] + xs[1..];
      }
      MapPermutation(xs[1..], rest, f);
      MapRemoveAt(ys, j, f);
      MapConcat([x], xs[1..], f);
      assert xs == [x] + xs[1..];
      assert Map([x], f) == [f(x)];
    }
  }

  /** Some index at which `x` occurs in `ys`. */
  lemma IndexOf<A>(ys: seq<A>, x: A) returns (j: nat)
    requires x in multiset(ys)
    ensures j < |ys| && ys[j] == x
  {
    assert x in ys;
    j :| 0 <= j < |ys| && ys[j] == x;
  }

  /** The elements of `out`, in order, that the multiset `pool` can still
      supply: each element of `out` is kept while `pool` holds a copy of it
      not yet used. When `out` draws only on `pool` it is kept whole. */
  function Kept<A(==)>(out: seq<A>, pool: multiset<A>): (k: seq<A>)
    ensures multiset(k) <= pool
    ensures multiset(out) <= pool ==> k == out
    decreases |out|
  {
    if out == [] then []
    else if out[0] in pool then
      assert out == [out[0]] + out[1..];
      [out[0]] + Kept(out[1..], pool - multiset{out[0]})
    else Kept(out[1..], pool)
  }
}
