/** Usage of model invocations, summed by bucket: the arithmetic behind fork de-duplication. */
module ForkModel {

  /** Token counts of one assistant message, by tier. */
  datatype Usage = Usage(input: nat, output: nat, cacheCreation: nat, cacheRead: nat) {
    function Plus(other: Usage): Usage {
      Usage(input + other.input, output + other.output, cacheCreation + other.cacheCreation,
        cacheRead + other.cacheRead)
    }

    /** Subtraction clipped at zero, tier by tier. */
    function Minus(offset: Usage): Usage {
      Usage(Sub(input, offset.input), Sub(output, offset.output),
            Sub(cacheCreation, offset.cacheCreation), Sub(cacheRead, offset.cacheRead))
    }

    function Max(other: Usage): Usage {
      Usage(Larger(input, other.input), Larger(output, other.output),
            Larger(cacheCreation, other.cacheCreation), Larger(cacheRead, other.cacheRead))
    }

    predicate AtMost(other: Usage) {
      input <= other.input && output <= other.output && cacheCreation <= other.cacheCreation &&
      cacheRead <= other.cacheRead
    }

    predicate IsZero() { this == ZERO }

    function Total(): nat { input + output + cacheCreation + cacheRead }
  }

  const ZERO: Usage := Usage(0, 0, 0, 0)

  lemma PlusSwap(a: Usage, b: Usage, c: Usage)
    ensures a.Plus(b.Plus(c)) == b.Plus(a.Plus(c))
  {}

  lemma PlusAssociates(a: Usage, b: Usage, c: Usage)
    ensures a.Plus(b).Plus(c) == a.Plus(b.Plus(c)) && a.Plus(b) == b.Plus(a)
  {}

  lemma PlusZero(a: Usage)
    ensures a.Plus(ZERO) == a == ZERO.Plus(a)
  {}

  function Sub(a: nat, b: nat): nat { if a <= b then 0 else a - b }
  function Larger(a: nat, b: nat): nat { if a < b then b else a }

  /** A (model, day) bucket. */
  datatype Bucket = Bucket(model: string, day: string)

  datatype Invocation = Invocation(id: string, bucket: Bucket, usage: Usage)

  type Buckets = map<Bucket, Usage>

  function Get(m: Buckets, b: Bucket): Usage {
    if b in m then m[b] else ZERO
  }

  // ---------------------------------------------------------------- sums over buckets

  ghost function SumBuckets(m: Buckets): Usage {
    if m == map[] then ZERO else
      var b :| b in m;
      m[b].Plus(SumBuckets(m - {b}))
  }

  lemma {:induction false} SumBucketsSplit(m: Buckets, b: Bucket)
    requires b in m
    ensures SumBuckets(m) == m[b].Plus(SumBuckets(m - {b}))
    decreases |m|
  {
    var p :| p in m && SumBuckets(m) == m[p].Plus(SumBuckets(m - {p}));
    if p != b {
      hide Usage.Plus;
      var rest := (m - {p}) - {b};
      SumBucketsSplit(m - {p}, b);
      SumBucketsSplit(m - {b}, p);
      assert rest == (m - {b}) - {p};
      PlusSwap(m[p], m[b], SumBuckets(rest));
    }
  }

  lemma SumBucketsUpdate(m: Buckets, b: Bucket, u: Usage)
    ensures SumBuckets(m[b := Get(m, b).Plus(u)]) == SumBuckets(m).Plus(u)
  {
    hide Usage.Plus;
    var after := m[b := Get(m, b).Plus(u)];
    SumBucketsSplit(after, b);
    assert after - {b} == m - {b};
    if b in m {
      SumBucketsSplit(m, b);
    } else {
      assert m - {b} == m;
      PlusZero(u);
      PlusZero(SumBuckets(m));
    }
    PlusAssociates(Get(m, b), u, SumBuckets(m - {b}));
    PlusAssociates(Get(m, b), SumBuckets(m - {b}), u);
    PlusAssociates(u, SumBuckets(m - {b}), ZERO);
  }

  ghost predicate SameBuckets(m: Buckets, n: Buckets) {
    forall b :: Get(m, b) == Get(n, b)
  }

  lemma SameAt(m: Buckets, n: Buckets, b: Bucket)
    requires SameBuckets(m, n)
    ensures Get(m, b) == Get(n, b)
  {}

  lemma SameWithout(m: Buckets, n: Buckets, b: Bucket)
    requires SameBuckets(m, n)
    ensures SameBuckets(m - {b}, n - {b})
  {
    forall c ensures Get(m - {b}, c) == Get(n - {b}, c) {
      assert Get(m, c) == Get(n, c);
    }
  }

  lemma SumBucketsWithout(m: Buckets, b: Bucket)
    ensures SumBuckets(m) == Get(m, b).Plus(SumBuckets(m - {b}))
  {
    hide SumBuckets, Usage.Plus;
    if b in m {
      SumBucketsSplit(m, b);
    } else {
      assert m - {b} == m;
      PlusZero(SumBuckets(m));
    }
  }

  /** The sum does not see zero entries. */
  lemma {:induction false} SumBucketsSame(m: Buckets, n: Buckets)
    requires SameBuckets(m, n)
    ensures SumBuckets(m) == SumBuckets(n)
    decreases m.Keys + n.Keys
  {
    hide Usage.Plus, SumBuckets, SameBuckets;
    var keys := m.Keys + n.Keys;
    if keys == {} {
      assert m.Keys == {} && n.Keys == {};
      assert m == n;
    } else {
      var b :| b in keys;
      SumBucketsWithout(m, b);
      SumBucketsWithout(n, b);
      SameAt(m, n, b);
      SameWithout(m, n, b);
      assert (m - {b}).Keys + (n - {b}).Keys == keys - {b};
      SumBucketsSame(m - {b}, n - {b});
    }
  }

  // ---------------------------------------------------------------- sums over sets of invocations

  /** What an invocation id stands for: wherever it is copied, the same bucket and usage. */
  type Catalog = string -> Invocation

  ghost function SumIds(ids: set<string>, usage: string -> Usage): Usage {
    if ids == {} then ZERO else
      var i :| i in ids;
      usage(i).Plus(SumIds(ids - {i}, usage))
  }

  lemma {:induction false} SumIdsSplit(ids: set<string>, i: string, usage: string -> Usage)
    requires i in ids
    ensures SumIds(ids, usage) == usage(i).Plus(SumIds(ids - {i}, usage))
    decreases |ids|
  {
    var p :| p in ids && SumIds(ids, usage) == usage(p).Plus(SumIds(ids - {p}, usage));
    if p != i {
      hide Usage.Plus;
      var rest := (ids - {p}) - {i};
      SumIdsSplit(ids - {p}, i, usage);
      SumIdsSplit(ids - {i}, p, usage);
      assert rest == (ids - {i}) - {p};
      PlusSwap(usage(p), usage(i), SumIds(rest, usage));
    }
  }

  lemma {:induction false} SumIdsUnion(a: set<string>, b: set<string>, usage: string -> Usage)
    requires a !! b
    ensures SumIds(a + b, usage) == SumIds(a, usage).Plus(SumIds(b, usage))
    decreases |a|
  {
    hide Usage.Plus;
    if a == {} {
      assert a + b == b;
      PlusZero(SumIds(b, usage));
    } else {
      var i :| i in a;
      SumIdsSplit(a, i, usage);
      SumIdsSplit(a + b, i, usage);
      assert (a + b) - {i} == (a - {i}) + b;
      SumIdsUnion(a - {i}, b, usage);
      PlusAssociates(usage(i), SumIds(a - {i}, usage), SumIds(b, usage));
    }
  }

  lemma SumIdsMonotone(a: set<string>, b: set<string>, usage: string -> Usage)
    requires a <= b
    ensures SumIds(a, usage).AtMost(SumIds(b, usage))
  {
    SumIdsUnion(a, b - a, usage);
    assert a + (b - a) == b;
  }

  function UsageOf(what: Catalog): string -> Usage {
    id => what(id).usage
  }

  function UsageIn(what: Catalog, b: Bucket): string -> Usage {
    id => if what(id).bucket == b then what(id).usage else ZERO
  }

  /** `m` holds, for every bucket, the usage of the invocations of `ids` in it. */
  ghost predicate HoldsSums(m: Buckets, ids: set<string>, what: Catalog) {
    forall b :: Get(m, b) == SumIds(ids, UsageIn(what, b))
  }

  lemma HoldsSumsSplit(m: Buckets, ids: set<string>, what: Catalog, i: string)
    requires HoldsSums(m, ids, what) && i in ids
    ensures var c := what(i).bucket; var smaller := m[c := SumIds(ids - {i}, UsageIn(what, c))];
      HoldsSums(smaller, ids - {i}, what) && SameBuckets(smaller[c := Get(smaller, c).Plus(what(i).usage)], m)
  {
    hide Usage.Plus, SumIds;
    var c, u := what(i).bucket, what(i).usage;
    var rest := ids - {i};
    var smaller := m[c := SumIds(rest, UsageIn(what, c))];
    forall b
      ensures Get(smaller, b) == SumIds(rest, UsageIn(what, b))
      ensures Get(smaller[c := Get(smaller, c).Plus(u)], b) == Get(m, b)
    {
      assert Get(m, b) == SumIds(ids, UsageIn(what, b));
      SumIdsSplit(ids, i, UsageIn(what, b));
      PlusZero(SumIds(rest, UsageIn(what, b)));
      PlusAssociates(u, SumIds(rest, UsageIn(what, b)), ZERO);
    }
  }

  /** Summing by bucket and then over the buckets is summing. */
  lemma {:induction false} BucketsPartition(ids: set<string>, what: Catalog, m: Buckets)
    requires HoldsSums(m, ids, what)
    ensures SumBuckets(m) == SumIds(ids, UsageOf(what))
    decreases |ids|
  {
    if ids == {} {
      forall b ensures Get(m, b) == Get(map[], b) {
        assert Get(m, b) == SumIds(ids, UsageIn(what, b));
      }
      SumBucketsSame(m, map[]);
    } else {
      hide Usage.Plus, HoldsSums, SameBuckets;
      var i :| i in ids;
      var u, c, rest := what(i).usage, what(i).bucket, ids - {i};
      var smaller := m[c := SumIds(rest, UsageIn(what, c))];
      HoldsSumsSplit(m, ids, what, i);
      BucketsPartition(rest, what, smaller);
      SumBucketsUpdate(smaller, c, u);
      SumBucketsSame(smaller[c := Get(smaller, c).Plus(u)], m);
      SumIdsSplit(ids, i, UsageOf(what));
      PlusAssociates(SumBuckets(smaller), u, ZERO);
    }
  }

  // ---------------------------------------------------------------- sequences of invocations

  /** One session's invocations: one entry per id. */
  predicate OncePerId(invocations: seq<Invocation>) {
    forall i, j :: 0 <= i < j < |invocations| ==> invocations[i].id != invocations[j].id
  }

  ghost function Ids(invocations: seq<Invocation>): set<string> {
    if invocations == [] then {} else Ids(invocations[..|invocations| - 1]) + {invocations[|invocations| - 1].id}
  }

  lemma {:induction false} IdsMembers(invocations: seq<Invocation>)
    ensures forall id :: id in Ids(invocations) <==> exists i :: 0 <= i < |invocations| && invocations[i].id == id
  {
    if invocations != [] {
      var n := |invocations| - 1;
      IdsMembers(invocations[..n]);
      forall id
        ensures id in Ids(invocations) <==> exists i :: 0 <= i < |invocations| && invocations[i].id == id
      {
        if i :| 0 <= i < n && invocations[..n][i].id == id {
          assert invocations[i].id == id;
        }
        if i :| 0 <= i < |invocations| && invocations[i].id == id {
          assert i < n ==> invocations[..n][i].id == id;
        }
      }
    }
  }

  ghost predicate Conforms(invocations: seq<Invocation>, what: Catalog) {
    forall i :: 0 <= i < |invocations| ==> invocations[i] == what(invocations[i].id)
  }

  /** The invocations of a session in one bucket, restricted to the ids in `ids`. */
  ghost function BucketSum(invocations: seq<Invocation>, ids: set<string>, b: Bucket): Usage {
    if invocations == [] then ZERO else
      var last := invocations[|invocations| - 1];
      var before := BucketSum(invocations[..|invocations| - 1], ids, b);
      if last.id in ids && last.bucket == b then before.Plus(last.usage) else before
  }

  lemma {:induction false} BucketSumIsSumIds(invocations: seq<Invocation>, ids: set<string>, b: Bucket, what: Catalog)
    requires OncePerId(invocations) && Conforms(invocations, what)
    ensures BucketSum(invocations, ids, b) == SumIds(Ids(invocations) * ids, UsageIn(what, b))
  {
    hide Usage.Plus, SumIds;
    if invocations == [] {
      NoIds(UsageIn(what, b));
      assert Ids(invocations) * ids == {};
    } else {
      var n := |invocations| - 1;
      var last := invocations[n];
      BucketSumIsSumIds(invocations[..n], ids, b, what);
      IdsMembers(invocations[..n]);
      var earlier := Ids(invocations[..n]);
      assert last.id !in earlier;
      if last.id in ids {
        AddedInside(earlier, last.id, ids);
        SumIdsAdd(earlier * ids, last.id, b, what);
      } else {
        AddedOutside(earlier, last.id, ids);
      }
    }
  }

  lemma NoIds(usage: string -> Usage)
    ensures SumIds({}, usage) == ZERO
  {}

  lemma SumIdsAdd(ids: set<string>, x: string, b: Bucket, what: Catalog)
    requires x !in ids
    ensures SumIds(ids + {x}, UsageIn(what, b)) ==
      if what(x).bucket == b then SumIds(ids, UsageIn(what, b)).Plus(what(x).usage) else SumIds(ids, UsageIn(what, b))
  {
    hide Usage.Plus, SumIds;
    assert (ids + {x}) - {x} == ids;
    SumIdsSplit(ids + {x}, x, UsageIn(what, b));
    PlusZero(SumIds(ids, UsageIn(what, b)));
    PlusAssociates(what(x).usage, SumIds(ids, UsageIn(what, b)), ZERO);
  }

  lemma AddedInside(a: set<string>, x: string, s: set<string>)
    requires x in s
    ensures (a + {x}) * s == a * s + {x}
  {}

  lemma AddedOutside(a: set<string>, x: string, s: set<string>)
    requires x !in s
    ensures (a + {x}) * s == a * s
  {}
}
