/** Cutting a sequence, in order, into chunks that each fit, by filling every chunk as far as it goes. */
module GreedySplit {

  /** A part of something that fits also fits. */
  ghost predicate Hereditary<T(!new)>(fits: seq<T> -> bool) {
    forall xs, i: nat, j: nat :: i < j <= |xs| && fits(xs) ==> fits(Part(xs, i, j))
  }

  function Part<T>(xs: seq<T>, i: nat, j: nat): seq<T>
    requires i <= j <= |xs|
  {
    xs[i..j]
  }

  /** A single element is always a chunk, even when it is too large by itself. */
  predicate Allowed<T>(fits: seq<T> -> bool, chunk: seq<T>) {
    chunk != [] && (|chunk| == 1 || fits(chunk))
  }

  ghost predicate IsSplit<T>(fits: seq<T> -> bool, chunks: seq<seq<T>>, xs: seq<T>) {
    Flatten(chunks) == xs && forall i :: 0 <= i < |chunks| ==> Allowed(fits, chunks[i])
  }

  function Flatten<T>(chunks: seq<seq<T>>): seq<T> {
    if chunks == [] then [] else chunks[0] + Flatten(chunks[1..])
  }

  /** How far the first chunk reaches, having reached `n`. */
  function Reach<T>(fits: seq<T> -> bool, xs: seq<T>, n: nat): (k: nat)
    requires 1 <= n <= |xs|
    ensures n <= k <= |xs|
    decreases |xs| - n
  {
    if n < |xs| && fits(xs[..n + 1]) then Reach(fits, xs, n + 1) else n
  }

  function Greedy<T>(fits: seq<T> -> bool, xs: seq<T>): seq<seq<T>>
    decreases |xs|
  {
    if xs == [] then [] else
      var k := Reach(fits, xs, 1);
      [xs[..k]] + Greedy(fits, xs[k..])
  }

  lemma {:induction false} ReachFits<T>(fits: seq<T> -> bool, xs: seq<T>, n: nat)
    requires 1 <= n <= |xs| && (n == 1 || fits(xs[..n]))
    ensures var k := Reach(fits, xs, n); (k == 1 || fits(xs[..k])) && (k < |xs| ==> !fits(xs[..k + 1]))
    decreases |xs| - n
  {
    if n < |xs| && fits(xs[..n + 1]) {
      ReachFits(fits, xs, n + 1);
    }
  }

  /** The loop's chunk is the first chunk once the next element no longer fits. */
  lemma {:induction false} ReachIs<T>(fits: seq<T> -> bool, xs: seq<T>, n: nat, k: nat)
    requires 1 <= n <= k <= |xs|
    requires forall m :: n < m <= k ==> fits(xs[..m])
    requires k == |xs| || !fits(xs[..k + 1])
    ensures Reach(fits, xs, n) == k
    decreases k - n
  {
    if n < k {
      ReachIs(fits, xs, n + 1, k);
    }
  }

  /** The greedy chunks are a split of the input. */
  lemma {:induction false} GreedyIsSplit<T>(fits: seq<T> -> bool, xs: seq<T>)
    ensures IsSplit(fits, Greedy(fits, xs), xs)
    decreases |xs|
  {
    if xs != [] {
      var k := Reach(fits, xs, 1);
      ReachFits(fits, xs, 1);
      GreedyIsSplit(fits, xs[k..]);
      var chunks := Greedy(fits, xs);
      assert chunks[1..] == Greedy(fits, xs[k..]);
      assert xs[..k] + xs[k..] == xs;
    }
  }

  lemma PrefixesFit<T(!new)>(fits: seq<T> -> bool, xs: seq<T>, n: nat)
    requires Hereditary(fits) && n <= |xs| && fits(xs[..n])
    ensures forall m :: 1 <= m <= n ==> fits(xs[..m])
  {
    forall m | 1 <= m <= n ensures fits(xs[..m]) {
      assert Part(xs[..n], 0, m) == xs[..m];
    }
  }

  /** No allowed prefix is longer than the greedy one. */
  lemma ReachIsLongest<T(!new)>(fits: seq<T> -> bool, xs: seq<T>, n: nat)
    requires Hereditary(fits) && 1 <= n <= |xs| && Allowed(fits, xs[..n])
    ensures n <= Reach(fits, xs, 1)
  {
    ReachFits(fits, xs, 1);
    if n > 1 {
      PrefixesFit(fits, xs, n);
    }
  }

  /** Without its first elements the first chunk reaches at least as far. */
  lemma TailReaches<T(!new)>(fits: seq<T> -> bool, xs: seq<T>, n: nat)
    requires Hereditary(fits) && xs != [] && n < Reach(fits, xs, 1)
    ensures n + Reach(fits, xs[n..], 1) >= Reach(fits, xs, 1)
  {
    var k, rest := Reach(fits, xs, 1), xs[n..];
    ReachFits(fits, xs, 1);
    assert Part(xs[..k], n, k) == rest[..k - n];
    ReachIsLongest(fits, rest, k - n);
  }

  /** Dropping elements from the front never costs a chunk. */
  lemma {:induction false} GreedyMonotone<T(!new)>(fits: seq<T> -> bool, xs: seq<T>, n: nat)
    requires Hereditary(fits) && n <= |xs|
    ensures |Greedy(fits, xs[n..])| <= |Greedy(fits, xs)|
    decreases |xs|
  {
    hide Reach, Hereditary;
    if n > 0 {
      var k := Reach(fits, xs, 1);
      if k <= n {
        assert xs[k..][n - k..] == xs[n..];
        GreedyMonotone(fits, xs[k..], n - k);
      } else {
        TailReaches(fits, xs, n);
        var l := n + Reach(fits, xs[n..], 1);
        assert xs[n..][l - n..] == xs[l..] == xs[k..][l - k..];
        GreedyMonotone(fits, xs[k..], l - k);
      }
    }
  }

  /** Greedy uses no more chunks than any other in-order split. */
  lemma {:induction false} GreedyIsMinimal<T(!new)>(fits: seq<T> -> bool, xs: seq<T>, other: seq<seq<T>>)
    requires Hereditary(fits) && IsSplit(fits, other, xs)
    ensures |Greedy(fits, xs)| <= |other|
    decreases |other|
  {
    if xs != [] {
      var n := |other[0]|;
      assert xs[..n] == other[0] && xs[n..] == Flatten(other[1..]);
      ReachIsLongest(fits, xs, n);
      var k := Reach(fits, xs, 1);
      assert xs[k..] == xs[n..][k - n..];
      GreedyMonotone(fits, xs[n..], k - n);
      GreedyIsMinimal(fits, xs[n..], other[1..]);
    }
  }

  /** One turn of a greedy loop: `current` is an open chunk in front of `rest`. */
  lemma GreedyOpen<T>(fits: seq<T> -> bool, current: seq<T>, rest: seq<T>)
    requires current != [] && forall m :: 1 < m <= |current| ==> fits(current[..m])
    requires rest == [] || !fits(current + [rest[0]])
    ensures Greedy(fits, current + rest) == [current] + Greedy(fits, rest)
  {
    var xs, k := current + rest, |current|;
    assert forall m :: 1 < m <= k ==> xs[..m] == current[..m];
    if rest != [] {
      assert xs[..k + 1] == current + [rest[0]];
    }
    ReachIs(fits, xs, 1, k);
    assert xs[..k] == current && xs[k..] == rest;
  }

  /** The state of a greedy loop before element `i`: finished chunks, and an open one still filling. */
  ghost predicate Open<T>(fits: seq<T> -> bool, xs: seq<T>, done: seq<seq<T>>, current: seq<T>, i: nat)
    requires i <= |xs|
  {
    && done + Greedy(fits, current + xs[i..]) == Greedy(fits, xs)
    && forall m :: 1 < m <= |current| ==> fits(current[..m])
  }

  lemma OpenBegin<T>(fits: seq<T> -> bool, xs: seq<T>)
    ensures Open(fits, xs, [], [], 0)
  {
    assert [] + xs[0..] == xs;
    assert [] + Greedy(fits, xs) == Greedy(fits, xs);
  }

  lemma OpenFlush<T>(fits: seq<T> -> bool, xs: seq<T>, done: seq<seq<T>>, current: seq<T>, i: nat)
    requires i < |xs| && Open(fits, xs, done, current, i) && current != [] && !fits(current + [xs[i]])
    ensures Open(fits, xs, done + [current], [], i)
  {
    GreedyOpen(fits, current, xs[i..]);
    assert [] + xs[i..] == xs[i..];
    assert done + ([current] + Greedy(fits, xs[i..])) == (done + [current]) + Greedy(fits, xs[i..]);
  }

  lemma OpenExtend<T>(fits: seq<T> -> bool, xs: seq<T>, done: seq<seq<T>>, current: seq<T>, i: nat)
    requires i < |xs| && Open(fits, xs, done, current, i) && (current == [] || fits(current + [xs[i]]))
    ensures Open(fits, xs, done, current + [xs[i]], i + 1)
  {
    var grown := current + [xs[i]];
    assert current + xs[i..] == grown + xs[i + 1..];
    forall m | 1 < m <= |grown| ensures fits(grown[..m]) {
      assert m <= |current| ==> grown[..m] == current[..m];
      assert m == |grown| ==> grown[..m] == grown;
    }
  }

  lemma OpenEnd<T>(fits: seq<T> -> bool, xs: seq<T>, done: seq<seq<T>>, current: seq<T>)
    requires Open(fits, xs, done, current, |xs|) && current != []
    ensures done + [current] == Greedy(fits, xs)
  {
    GreedyOpen(fits, current, []);
    assert current + xs[|xs|..] == current + [];
    assert Greedy(fits, []) == [];
    assert done + ([current] + Greedy(fits, [])) == done + [current];
  }
}
