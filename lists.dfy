/**
 * Generic facts about sequences used by the canonical-string proofs: a
 * flat map whose multiset of results depends only on the multiset of its
 * inputs, and sequences without repeats.
 */
module Lists {

  /** Every element of `s` mapped to a sequence, the pieces concatenated in order. */
  function FlatMap<A, B>(f: A -> seq<B>, s: seq<A>): seq<B>
  {
    if s == [] then [] else f(s[0]) + FlatMap(f, s[1..])
  }

  lemma {:induction false} FlatMapAppend<A, B>(f: A -> seq<B>, x: seq<A>, y: seq<A>)
    ensures FlatMap(f, x + y) == FlatMap(f, x) + FlatMap(f, y)
    decreases |x|
  {
    if x == [] {
      assert x + y == y;
    } else {
      assert (x + y)[0] == x[0] && (x + y)[1..] == x[1..] + y;
      FlatMapAppend(f, x[1..], y);
    }
  }

  /** Whatever one input maps to is in the flat map. */
  lemma {:induction false} FlatMapContains<A, B>(f: A -> seq<B>, s: seq<A>, i: nat, y: B)
    requires i < |s| && y in f(s[i])
    ensures y in FlatMap(f, s)
    decreases |s|
  {
    if i > 0 {
      assert s[1..][i - 1] == s[i];
      FlatMapContains(f, s[1..], i - 1, y);
    }
  }

  /** Rearranging the inputs of a flat map rearranges its output and nothing more. */
  lemma {:induction false} FlatMapPermutation<A, B>(f: A -> seq<B>, x: seq<A>, y: seq<A>)
    requires multiset(x) == multiset(y)
    ensures multiset(FlatMap(f, x)) == multiset(FlatMap(f, y))
    decreases |x|
  {
    if x == [] {
      assert |y| == |multiset(y)| == 0;
    } else {
      var a := x[0];
      assert a in multiset(y);
      var p :| 0 <= p < |y| && y[p] == a;
      var before, after := y[..p], y[p + 1..];
      MultisetRemove(x, y, p);
      FlatMapPermutation(f, x[1..], before + after);
      FlatMapSplit(f, y, p);
      FlatMapAppend(f, before, after);
      assert FlatMap(f, x) == f(a) + FlatMap(f, x[1..]);
    }
  }

  /** Taking the same element out of two permutations leaves two permutations. */
  lemma MultisetRemove<T>(x: seq<T>, y: seq<T>, p: nat)
    requires multiset(x) == multiset(y) && x != [] && p < |y| && y[p] == x[0]
    ensures multiset(x[1..]) == multiset(y[..p] + y[p + 1..])
  {
    assert x == [x[0]] + x[1..];
    assert y == y[..p] + [y[p]] + y[p + 1..];
    var rest := y[..p] + y[p + 1..];
    assert multiset(y) == multiset(y[..p]) + multiset{y[p]} + multiset(y[p + 1..]);
    assert multiset(rest) == multiset(y[..p]) + multiset(y[p + 1..]);
    assert multiset(x) == multiset{x[0]} + multiset(x[1..]);
    forall e ensures multiset(x[1..])[e] == multiset(rest)[e] {
      assert multiset(x)[e] == multiset{x[0]}[e] + multiset(x[1..])[e];
      assert multiset(y)[e] == multiset(rest)[e] + multiset{x[0]}[e];
    }
  }

  lemma {:induction false} FlatMapSplit<A, B>(f: A -> seq<B>, y: seq<A>, p: nat)
    requires p < |y|
    ensures FlatMap(f, y) == FlatMap(f, y[..p]) + f(y[p]) + FlatMap(f, y[p + 1..])
    decreases p
  {
    if p == 0 {
      assert y[..0] == [];
    } else {
      var t := y[1..];
      calc {
        FlatMap(f, y);
      ==
        f(y[0]) + FlatMap(f, t);
      == { FlatMapSplit(f, t, p - 1);
           assert t[p - 1] == y[p] && t[p..] == y[p + 1..]; }
        f(y[0]) + (FlatMap(f, t[..p - 1]) + f(y[p]) + FlatMap(f, y[p + 1..]));
      == { assert y[..p][0] == y[0] && y[..p][1..] == t[..p - 1]; }
        FlatMap(f, y[..p]) + f(y[p]) + FlatMap(f, y[p + 1..]);
      }
    }
  }

  /** No element occurs twice. */
  predicate Distinct<T(==)>(s: seq<T>)
  {
    forall i, j :: 0 <= i < j < |s| ==> s[i] != s[j]
  }

  /** In a sequence without repeats, each element occurs exactly once. */
  lemma {:induction false} DistinctCount<T>(s: seq<T>, e: T)
    requires Distinct(s)
    ensures multiset(s)[e] == if e in s then 1 else 0
    decreases |s|
  {
    if s != [] {
      assert s == [s[0]] + s[1..];
      assert Distinct(s[1..]);
      DistinctCount(s[1..], e);
      assert multiset(s)[e] == multiset{s[0]}[e] + multiset(s[1..])[e];
      if e == s[0] {
        assert e !in s[1..];
      }
    }
  }

  /** A permutation of a sequence without repeats has no repeats. */
  lemma PermutationDistinct<T>(x: seq<T>, y: seq<T>)
    requires Distinct(x) && multiset(x) == multiset(y)
    ensures Distinct(y)
  {
    forall i, j | 0 <= i < j < |y| ensures y[i] != y[j] {
      if y[i] == y[j] {
        var e := y[i];
        assert multiset(y)[e] >= 2 by {
          assert y == y[..i] + [e] + y[i + 1..j] + [e] + y[j + 1..];
        }
        DistinctCount(x, e);
        assert false;
      }
    }
  }

  /** Two sequences without repeats holding the same elements are permutations of each other. */
  lemma DistinctSameElements<T>(x: seq<T>, y: seq<T>)
    requires Distinct(x) && Distinct(y)
    requires forall e :: e in x <==> e in y
    ensures multiset(x) == multiset(y)
  {
    forall e ensures multiset(x)[e] == multiset(y)[e] {
      DistinctCount(x, e);
      DistinctCount(y, e);
    }
  }
}
