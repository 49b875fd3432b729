/**
 * The app's randomness (`shuffled()`, `randomElement()`) as supplied
 * random draws. A draw that is missing reads as 0, so every operation is
 * total in its draws.
 */
module Randomness {

  function Head(draws: seq<nat>): nat { if draws == [] then 0 else draws[0] }
  function Tail(draws: seq<nat>): seq<nat> { if draws == [] then [] else draws[1..] }

  /**
   * `xs.shuffled()`: the first draw picks which element goes first, the
   * remaining draws shuffle the rest.
   */
  function Shuffled(xs: seq<string>, draws: seq<nat>): (r: seq<string>)
    decreases |xs|
    ensures multiset(r) == multiset(xs)
    ensures |r| == |xs|
  {
    if xs == [] then []
    else
      var k := Head(draws) % |xs|;
      assert xs == xs[..k] + [xs[k]] + xs[k + 1..];
      [xs[k]] + Shuffled(xs[..k] + xs[k + 1..], Tail(draws))
  }

  /** The first position of `x` in `xs`. */
  function IndexOf(xs: seq<string>, x: string): (i: nat)
    requires x in xs
    ensures i < |xs| && xs[i] == x
    ensures forall j :: 0 <= j < i ==> xs[j] != x
  {
    if xs[0] == x then 0 else 1 + IndexOf(xs[1..], x)
  }

  /** Removing the element at position `k` removes one occurrence of it. */
  lemma MultisetWithout(xs: seq<string>, k: nat)
    requires k < |xs|
    ensures multiset(xs[..k] + xs[k + 1..]) == multiset(xs) - multiset{xs[k]}
  {
    assert xs == xs[..k] + [xs[k]] + xs[k + 1..];
  }

  /** Removing the first element removes one occurrence of it. */
  lemma MultisetTail(p: seq<string>)
    requires p != []
    ensures multiset(p[1..]) == multiset(p) - multiset{p[0]}
  {
    assert p == [p[0]] + p[1..];
  }

  /** Taking `p`'s first element out of `xs` leaves a rearrangement of the rest of `p`. */
  lemma PeelFirst(xs: seq<string>, p: seq<string>)
    requires multiset(p) == multiset(xs) && xs != []
    ensures p[0] in xs
    ensures multiset(p[1..]) == multiset(xs[..IndexOf(xs, p[0])] + xs[IndexOf(xs, p[0]) + 1..])
  {
    assert |p| == |multiset(p)| == |multiset(xs)| == |xs|;
    var x := p[0];
    assert x in multiset(p);
    assert x in multiset(xs);
    MultisetWithout(xs, IndexOf(xs, x));
    MultisetTail(p);
  }

  lemma ModOfSmaller(k: nat, n: nat)
    requires k < n
    ensures k % n == k
  {
  }

  /** Draws that make `Shuffled(xs, ...)` produce the arrangement `p`. */
  function DrawsFor(xs: seq<string>, p: seq<string>): seq<nat>
    requires multiset(p) == multiset(xs)
    decreases |xs|
  {
    if xs == [] then []
    else
      PeelFirst(xs, p);
      var k := IndexOf(xs, p[0]);
      [k] + DrawsFor(xs[..k] + xs[k + 1..], p[1..])
  }

  /** A first draw below the length picks that position outright; the rest arrange the others. */
  lemma ShuffledPick(xs: seq<string>, k: nat, d: seq<nat>, p: seq<string>)
    requires k < |xs| && p != [] && xs[k] == p[0]
    requires Shuffled(xs[..k] + xs[k + 1..], d) == p[1..]
    ensures Shuffled(xs, [k] + d) == p
  {
    var draws := [k] + d;
    assert Head(draws) == k;
    assert Tail(draws) == d;
    ModOfSmaller(k, |xs|);
    assert Shuffled(xs, draws) == [xs[k]] + Shuffled(xs[..k] + xs[k + 1..], d);
    assert p == [p[0]] + p[1..];
  }

  /** The first draw `DrawsFor` picks is the position of `p`'s first element. */
  lemma DrawsForFirst(xs: seq<string>, p: seq<string>)
    requires multiset(p) == multiset(xs) && xs != []
    ensures p[0] in xs
    ensures var k := IndexOf(xs, p[0]);
      && multiset(p[1..]) == multiset(xs[..k] + xs[k + 1..])
      && DrawsFor(xs, p) == [k] + DrawsFor(xs[..k] + xs[k + 1..], p[1..])
  {
    PeelFirst(xs, p);
  }

  /** Every rearrangement of `xs` is the outcome of some draws: no shuffle is left out. */
  lemma {:induction false} EveryArrangementReachable(xs: seq<string>, p: seq<string>)
    requires multiset(p) == multiset(xs)
    ensures Shuffled(xs, DrawsFor(xs, p)) == p
    decreases |xs|
  {
    if xs == [] {
      assert |p| == |multiset(p)| == 0;
    } else {
      DrawsForFirst(xs, p);
      var k := IndexOf(xs, p[0]);
      var rest := xs[..k] + xs[k + 1..];
      EveryArrangementReachable(rest, p[1..]);
      ShuffledPick(xs, k, DrawsFor(rest, p[1..]), p);
    }
  }

  predicate Distinct(xs: seq<string>)
  {
    forall i, j :: 0 <= i < j < |xs| ==> xs[i] != xs[j]
  }

  /** A duplicate-free list stays duplicate-free when shuffled. */
  lemma {:induction false} ShuffledDistinct(xs: seq<string>, draws: seq<nat>)
    requires Distinct(xs)
    ensures Distinct(Shuffled(xs, draws))
    decreases |xs|
  {
    if xs != [] {
      var k := Head(draws) % |xs|;
      var rest := xs[..k] + xs[k + 1..];
      DistinctWithout(xs, k);
      ShuffledDistinct(rest, Tail(draws));
      DistinctCons(xs[k], Shuffled(rest, Tail(draws)), rest);
    }
  }

  /** Removing one element of a duplicate-free list leaves a duplicate-free list without it. */
  lemma DistinctWithout(xs: seq<string>, k: nat)
    requires Distinct(xs) && k < |xs|
    ensures Distinct(xs[..k] + xs[k + 1..])
    ensures xs[k] !in multiset(xs[..k] + xs[k + 1..])
  {
    var rest := xs[..k] + xs[k + 1..];
    forall i, j | 0 <= i < j < |rest| ensures rest[i] != rest[j] {
      var i' := if i < k then i else i + 1;
      var j' := if j < k then j else j + 1;
      assert rest[i] == xs[i'] && rest[j] == xs[j'];
    }
    forall i | 0 <= i < |rest| ensures rest[i] != xs[k] {
      assert rest[i] == xs[if i < k then i else i + 1];
    }
  }

  /** An element absent from a duplicate-free list can be put in front of it. */
  lemma DistinctCons(x: string, tail: seq<string>, rest: seq<string>)
    requires Distinct(tail) && multiset(tail) == multiset(rest) && x !in multiset(rest)
    ensures Distinct([x] + tail)
  {
    assert x !in tail;
  }

  /** A duplicate-free list has as many elements as its set of elements. */
  lemma {:induction false} DistinctCardinality(xs: seq<string>)
    requires Distinct(xs)
    ensures |set x | x in xs| == |xs|
  {
    if xs != [] {
      var rest := xs[1..];
      assert Distinct(rest) by {
        forall i, j | 0 <= i < j < |rest| ensures rest[i] != rest[j] {
          assert rest[i] == xs[i + 1] && rest[j] == xs[j + 1];
        }
      }
      DistinctCardinality(rest);
      assert xs[0] !in rest by {
        forall i | 0 <= i < |rest| ensures rest[i] != xs[0] {
          assert rest[i] == xs[i + 1];
        }
      }
      assert (set x | x in xs) == (set x | x in rest) + {xs[0]} by {
        assert xs == [xs[0]] + rest;
      }
    }
  }
}
