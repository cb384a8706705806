/** Reading a transcript loses and doubles no usage. */
module TranscriptTheorems {
  import opened TranscriptModel
  import opened Options
  import opened Time

  // ---------------------------------------------------------------- sums

  /** Tier by tier. */
  function SumInvocations(inv: seq<Invocation>): Usage {
    if inv == [] then Usage(0, 0, 0, 0) else
      var sum, last := SumInvocations(inv[..|inv| - 1]), inv[|inv| - 1].usage;
      Usage(sum.input + last.input, sum.output + last.output,
            sum.cacheCreation + last.cacheCreation, sum.cacheRead + last.cacheRead)
  }

  function SumTurns(ts: seq<Turn>): Usage {
    if ts == [] then NO_USAGE else SumTurns(ts[..|ts| - 1]).Add(ts[|ts| - 1].usage)
  }

  ghost function SumBuckets(m: map<Bucket, Usage>): Usage {
    if m == map[] then NO_USAGE else
      var k :| k in m;
      SumBuckets(m - {k}).Add(m[k])
  }

  function Pending(active: Option<Open>): Usage { if active.Some? then active.value.usage else NO_USAGE }

  lemma SumTurnsSnoc(ts: seq<Turn>, t: Turn)
    ensures SumTurns(ts + [t]) == SumTurns(ts).Add(t.usage)
  {
    assert (ts + [t])[..|ts|] == ts;
  }

  lemma SumInvocationsSnoc(inv: seq<Invocation>, i: Invocation)
    ensures SumInvocations(inv + [i]) == SumInvocations(inv).Add(i.usage)
  {
    assert (inv + [i])[..|inv|] == inv;
  }

  lemma {:induction false} SumBucketsSplit(m: map<Bucket, Usage>, k: Bucket)
    requires k in m
    ensures SumBuckets(m) == SumBuckets(m - {k}).Add(m[k])
    decreases |m|
  {
    var p :| p in m && SumBuckets(m) == SumBuckets(m - {p}).Add(m[p]);
    if p != k {
      SumBucketsSplit(m - {p}, k);
      SumBucketsSplit(m - {k}, p);
      assert (m - {p}) - {k} == (m - {k}) - {p};
      assert (m - {p})[k] == m[k] && (m - {k})[p] == m[p];
      AddSwaps(SumBuckets((m - {p}) - {k}), m[k], m[p]);
    }
  }

  lemma AddSwaps(a: Usage, b: Usage, c: Usage)
    ensures a.Add(b).Add(c) == a.Add(c).Add(b)
  {}

  lemma SumBucketsUpdate(m: map<Bucket, Usage>, k: Bucket, more: Usage)
    ensures SumBuckets(m[k := At(m, k).Add(more)]) == SumBuckets(m).Add(more)
  {
    var after := m[k := At(m, k).Add(more)];
    SumBucketsSplit(after, k);
    assert after - {k} == m - {k};
    if k in m {
      SumBucketsSplit(m, k);
    } else {
      assert m - {k} == m;
    }
  }

  // ---------------------------------------------------------------- totals, buckets and invocations

  /** The total, the buckets and the invocations say the same. */
  ghost predicate Balanced(a: Account) {
    a.total == SumBuckets(a.byModelDay) == SumInvocations(a.invocations)
  }

  lemma FinishKeepsCounts(a: Account, aborted: bool)
    ensures var after := Finish(a, aborted);
      after.total == a.total && after.byModelDay == a.byModelDay && after.invocations == a.invocations &&
      after.seen == a.seen && after.active.None?
  {}

  /** Only a counted record changes the counts, and it changes all of them by its usage. */
  lemma AddCounts(a: Account, r: Record, day: int -> string)
    ensures var after := Add(a, r, day);
      if Counts(a, r) then
        && after.total == a.total.Add(r.usage) && after.seen == See(a, r).seen
        && after.byModelDay == a.byModelDay[BucketOf(r, day) := At(a.byModelDay, BucketOf(r, day)).Add(r.usage)]
        && after.invocations == a.invocations + [InvocationOf(r, day)]
      else
        && after.total == a.total && after.byModelDay == a.byModelDay && after.invocations == a.invocations
        && after.seen == See(a, r).seen
  {
    hide Finish, Usage.Add, Usage.IsZero;
    FinishKeepsCounts(a, true);
    var started := StartTurn(a, r);
    if Counts(a, r) {
      var charged := Charge(See(started, r), r, day);
      if Assigned(charged, r) {
        var o := charged.active.value;
        FinishKeepsCounts(charged.(active := Some(o.(endedAt := r.timestamp.value, usage := o.usage.Add(r.usage)))),
          false);
      }
    }
  }

  /** After every prefix of any transcript, timed or not, the session total is the sum of the model and day
      buckets and of the invocations. */
  lemma {:induction false} ReadBalanced(rs: seq<Record>, day: int -> string)
    ensures Balanced(Read(rs, day))
  {
    hide Add, Counts, BucketOf, Usage.Add;
    if rs != [] {
      var n := |rs| - 1;
      var before := Read(rs[..n], day);
      ReadBalanced(rs[..n], day);
      AddCounts(before, rs[n], day);
      SumBucketsUpdate(before.byModelDay, BucketOf(rs[n], day), rs[n].usage);
      SumInvocationsSnoc(before.invocations, InvocationOf(rs[n], day));
    }
  }

  /** The invocations of one bucket. */
  function OfBucket(inv: seq<Invocation>, k: Bucket): seq<Invocation> {
    if inv == [] then [] else
      OfBucket(inv[..|inv| - 1], k) + if inv[|inv| - 1].bucket == k then [inv[|inv| - 1]] else []
  }

  /** Each bucket holds exactly the usage of its own model and day. */
  lemma {:induction false} BucketsExact(rs: seq<Record>, day: int -> string, k: Bucket)
    ensures At(Read(rs, day).byModelDay, k) == SumInvocations(OfBucket(Read(rs, day).invocations, k))
  {
    hide Add, Counts, BucketOf, Usage.Add;
    if rs != [] {
      var n := |rs| - 1;
      var before := Read(rs[..n], day);
      BucketsExact(rs[..n], day, k);
      AddCounts(before, rs[n], day);
      var more := InvocationOf(rs[n], day);
      assert (before.invocations + [more])[..|before.invocations|] == before.invocations;
      SumInvocationsSnoc(OfBucket(before.invocations, k), more);
      assert OfBucket(before.invocations, k) + [] == OfBucket(before.invocations, k);
    }
  }

  // ---------------------------------------------------------------- each message once

  predicate OfModel(r: Record) { r.role.Assistant? && r.model !in {"", "<synthetic>"} }

  /** Record k is the first of a real model with its message id, or has none. */
  ghost predicate FirstOfMessage(rs: seq<Record>, k: nat)
    requires k < |rs|
  {
    OfModel(rs[k]) && (rs[k].id == "" || forall j :: 0 <= j < k && OfModel(rs[j]) ==> rs[j].id != rs[k].id)
  }

  /** The invocation a record stands for: named by its message id, else by the record's own, else by a hash; under the
      record's model and day. */
  function Stands(r: Record, day: int -> string): Invocation {
    Invocation(
      if r.id != "" then "message:" + r.id else if r.uuid != "" then "record:" + r.uuid else "fallback:" + r.fallback,
      if r.timestamp.Some? then r.timestamp.value else ZERO_TIME,
      Bucket(r.model, if r.timestamp.Some? then day(r.timestamp.value) else ""), r.usage)
  }

  /** The invocations a transcript should have: one for each first record of a message, if it used tokens. */
  ghost function FirstInvocations(rs: seq<Record>, n: nat, day: int -> string): seq<Invocation>
    requires n <= |rs|
  {
    if n == 0 then [] else
      FirstInvocations(rs, n - 1, day) +
        if FirstOfMessage(rs, n - 1) && rs[n - 1].usage != Usage(0, 0, 0, 0) then [Stands(rs[n - 1], day)] else []
  }

  lemma {:induction false} SeenIsMet(rs: seq<Record>, day: int -> string, id: string)
    ensures id in Read(rs, day).seen <==> id != "" && exists j :: 0 <= j < |rs| && OfModel(rs[j]) && rs[j].id == id
  {
    hide Add;
    if rs != [] {
      var n := |rs| - 1;
      SeenIsMet(rs[..n], day, id);
      AddCounts(Read(rs[..n], day), rs[n], day);
      hide Read;
      assert forall j :: 0 <= j < n ==> rs[..n][j] == rs[j];
    }
  }

  lemma {:induction false} FirstInvocationsOfPrefix(rs: seq<Record>, n: nat, m: nat, day: int -> string)
    requires n <= m <= |rs|
    ensures FirstInvocations(rs[..m], n, day) == FirstInvocations(rs, n, day)
    decreases n
  {
    hide OfModel, Stands;
    if n > 0 {
      FirstInvocationsOfPrefix(rs, n - 1, m, day);
      assert rs[..m][n - 1] == rs[n - 1];
      assert forall j :: 0 <= j < n ==> rs[..m][j] == rs[j];
    }
  }

  /** Each message id is counted once: by the first record that carries it, whatever later copies say. */
  lemma {:induction false} EachMessageOnce(rs: seq<Record>, day: int -> string)
    ensures Read(rs, day).invocations == FirstInvocations(rs, |rs|, day)
  {
    hide Add;
    if rs != [] {
      var n := |rs| - 1;
      EachMessageOnce(rs[..n], day);
      FirstInvocationsOfPrefix(rs, n, n, day);
      SeenIsMet(rs[..n], day, rs[n].id);
      AddCounts(Read(rs[..n], day), rs[n], day);
      assert forall j :: 0 <= j < n ==> rs[..n][j] == rs[j];
    }
  }

  // ---------------------------------------------------------------- turns

  /** The usage an open turn takes with it when it is closed but not kept. */
  function Forgone(o: Option<Open>): Usage {
    if o.Some? && !Keeps(o.value) then o.value.usage else NO_USAGE
  }

  /** The usage a record makes the turns lose: that of a turn it closes in vain, or its own without a time. */
  function Lost(a: Account, r: Record): Usage {
    if r.StartsTurn() then Forgone(a.active)
    else if !Counts(a, r) then NO_USAGE
    else if Assigned(a, r) then
      if r.continues then NO_USAGE
      else Forgone(Some(a.active.value.(endedAt := r.timestamp.value, usage := a.active.value.usage.Add(r.usage))))
    else if r.timestamp.None? then r.usage
    else NO_USAGE
  }

  /** What the turns, finished, internal and open, account for. */
  function InTurns(a: Account): Usage { SumTurns(a.turns).Add(Pending(a.active)) }

  lemma FinishLoses(a: Account, aborted: bool)
    ensures InTurns(Finish(a, aborted)).Add(Forgone(a.active)) == InTurns(a)
  {
    hide SumTurns, Keeps;
    if a.active.Some? {
      var o := a.active.value;
      SumTurnsSnoc(a.turns, Turn(o.id, aborted, o.startedAt, o.endedAt, o.usage));
      assert a.turns + [] == a.turns;
    }
  }

  lemma AddLoses(a: Account, r: Record, day: int -> string)
    ensures InTurns(Add(a, r, day)).Add(Lost(a, r)) == InTurns(a).Add(if Counts(a, r) then r.usage else NO_USAGE)
  {
    hide Finish, Keeps, SumTurns, Forgone, Usage.IsZero;
    if r.StartsTurn() {
      FinishKeepsCounts(a, true);
      FinishLoses(a, true);
    } else if Counts(a, r) {
      var charged := Charge(See(a, r), r, day);
      if Assigned(a, r) {
        var o := a.active.value;
        FinishLoses(charged.(active := Some(o.(endedAt := r.timestamp.value, usage := o.usage.Add(r.usage)))), false);
      } else if r.timestamp.Some? {
        SumTurnsSnoc(a.turns, Turn(InternalId(r), false, r.timestamp.value, r.timestamp.value, r.usage));
      }
    }
  }

  function AllLost(rs: seq<Record>, day: int -> string): Usage {
    if rs == [] then NO_USAGE else
      var n := |rs| - 1;
      AllLost(rs[..n], day).Add(Lost(Read(rs[..n], day), rs[n]))
  }

  /** For every transcript: total = turns + what is lost to turns. */
  lemma {:induction false} TurnsAndLossesMakeTotal(rs: seq<Record>, day: int -> string)
    ensures Read(rs, day).total == InTurns(Read(rs, day)).Add(AllLost(rs, day))
  {
    hide Add, Lost, Counts, InTurns;
    if rs == [] {
      NothingInTurns();
    } else {
      var n := |rs| - 1;
      TurnsAndLossesMakeTotal(rs[..n], day);
      AddCounts(Read(rs[..n], day), rs[n], day);
      AddLoses(Read(rs[..n], day), rs[n], day);
    }
  }

  lemma NothingInTurns()
    ensures InTurns(NO_ACCOUNT) == NO_USAGE
  {}

  /** Every record has a time after the zero time, and times never go back. */
  ghost predicate Timed(rs: seq<Record>) {
    && (forall i :: 0 <= i < |rs| ==> rs[i].timestamp.Some? && rs[i].timestamp.value > ZERO_TIME)
    && (forall i, j :: 0 <= i < j < |rs| ==> rs[i].timestamp.GetOr(0) <= rs[j].timestamp.GetOr(0))
  }

  /** The open turn began no later than it or any record to come; when it has tokens it has an end. */
  predicate OpenInTime(a: Account, now: int) {
    a.active.Some? ==> (
      var o := a.active.value;
      o.startedAt != ZERO_TIME && o.startedAt <= now && (!o.usage.IsZero() ==> o.startedAt <= o.endedAt))
  }

  lemma TimedAddLosesNothing(a: Account, r: Record, day: int -> string, later: int)
    requires r.timestamp.Some? && r.timestamp.value > ZERO_TIME && OpenInTime(a, r.timestamp.value)
    requires later >= r.timestamp.value
    ensures Lost(a, r) == NO_USAGE && OpenInTime(Add(a, r, day), later)
  {
    hide BucketOf, InvocationOf, InternalId;
  }

  lemma NothingAdded()
    ensures NO_USAGE.Add(NO_USAGE) == NO_USAGE
  {}

  lemma TimedPrefix(rs: seq<Record>)
    requires Timed(rs) && rs != []
    ensures var n := |rs| - 1;
      && Timed(rs[..n]) && rs[n].timestamp.Some? && rs[n].timestamp.value > ZERO_TIME
      && (n > 0 ==> rs[..n][n - 1].timestamp.Some? && rs[..n][n - 1].timestamp.value <= rs[n].timestamp.value)
  {
    var n := |rs| - 1;
    assert forall i :: 0 <= i < n ==> rs[..n][i] == rs[i];
    assert n > 0 ==> rs[n - 1].timestamp.GetOr(0) <= rs[n].timestamp.GetOr(0);
  }

  lemma {:induction false} TimedLosesNothing(rs: seq<Record>, day: int -> string, later: int)
    requires Timed(rs) && (rs != [] ==> rs[|rs| - 1].timestamp.value <= later)
    ensures AllLost(rs, day) == NO_USAGE && OpenInTime(Read(rs, day), later)
  {
    hide Add, Lost, OpenInTime, Usage.Add;
    if rs == [] {
      NothingOpen(later);
    } else {
      var n := |rs| - 1;
      var at := rs[n].timestamp.value;
      NothingAdded();
      TimedPrefix(rs);
      TimedLosesNothing(rs[..n], day, at);
      hide Timed;
      TimedAddLosesNothing(Read(rs[..n], day), rs[n], day, later);
    }
  }

  /** For timed records whose times never go back, after every prefix the total is also the sum of the finished
      and internal turns and the open turn. */
  lemma TimedTurnsMakeTotal(rs: seq<Record>, day: int -> string)
    requires Timed(rs)
    ensures Read(rs, day).total == InTurns(Read(rs, day))
  {
    hide Read, AllLost, InTurns;
    TurnsAndLossesMakeTotal(rs, day);
    TimedLosesNothing(rs, day, if rs == [] then 0 else rs[|rs| - 1].timestamp.value);
  }

  lemma NothingOpen(now: int)
    ensures OpenInTime(NO_ACCOUNT, now)
  {}

  ghost predicate NonNegative(rs: seq<Record>) {
    forall i :: 0 <= i < |rs| ==> AtLeastZero(rs[i].usage)
  }

  predicate AtLeastZero(u: Usage) {
    u.input >= 0 && u.output >= 0 && u.cacheCreation >= 0 && u.cacheRead >= 0
  }

  predicate PendingAtLeastZero(a: Account) { AtLeastZero(Pending(a.active)) }

  lemma LostAtLeastZero(a: Account, r: Record, day: int -> string)
    requires PendingAtLeastZero(a) && AtLeastZero(r.usage)
    ensures AtLeastZero(Lost(a, r)) && PendingAtLeastZero(Add(a, r, day))
  {
    hide BucketOf, InvocationOf, InternalId, Keeps;
  }

  /** No record of the transcript makes the turns lose usage. */
  ghost predicate LosesNothing(rs: seq<Record>, day: int -> string) {
    forall k :: 0 <= k < |rs| ==> Lost(Read(rs[..k], day), rs[k]) == NO_USAGE
  }

  /** Without negative tokens, the turns make the total exactly when no record loses usage to them. */
  lemma TurnsMakeTotalIff(rs: seq<Record>, day: int -> string)
    requires NonNegative(rs)
    ensures Read(rs, day).total == InTurns(Read(rs, day)) <==> LosesNothing(rs, day)
  {
    hide LosesNothing, InTurns, Read, AllLost;
    TurnsAndLossesMakeTotal(rs, day);
    NothingLostIff(rs, day);
  }

  lemma LosesNothingSnoc(rs: seq<Record>, day: int -> string)
    requires rs != []
    ensures var n := |rs| - 1;
      LosesNothing(rs, day) <==> LosesNothing(rs[..n], day) && Lost(Read(rs[..n], day), rs[n]) == NO_USAGE
  {
    hide Lost, Read;
    assert forall k :: 0 <= k < |rs| - 1 ==> rs[..|rs| - 1][..k] == rs[..k] && rs[..|rs| - 1][k] == rs[k];
  }

  lemma {:induction false} NothingLostIff(rs: seq<Record>, day: int -> string)
    requires NonNegative(rs)
    ensures AtLeastZero(AllLost(rs, day)) && PendingAtLeastZero(Read(rs, day))
    ensures AllLost(rs, day) == NO_USAGE <==> LosesNothing(rs, day)
  {
    hide Lost, Add, PendingAtLeastZero, LosesNothing, AtLeastZero, Usage.Add;
    if rs == [] {
      NothingPending(day);
    } else {
      var n := |rs| - 1;
      assert AtLeastZero(rs[n].usage);
      NothingLostIff(rs[..n], day);
      LostAtLeastZero(Read(rs[..n], day), rs[n], day);
      LosesNothingSnoc(rs, day);
      ZeroSum(AllLost(rs[..n], day), Lost(Read(rs[..n], day), rs[n]));
    }
  }

  lemma ZeroIsNothing(u: Usage)
    ensures u.IsZero() <==> u == NO_USAGE
  {
    assert u == Usage(u.input, u.output, u.cacheCreation, u.cacheRead);
  }

  lemma ZeroSum(a: Usage, b: Usage)
    requires AtLeastZero(a) && AtLeastZero(b)
    ensures AtLeastZero(a.Add(b)) && (a.Add(b) == NO_USAGE <==> a == NO_USAGE && b == NO_USAGE)
  {
    ZeroIsNothing(a);
    ZeroIsNothing(b);
    ZeroIsNothing(a.Add(b));
    assert a.Add(b).IsZero() <==> a.IsZero() && b.IsZero();
  }

  lemma NothingPending(day: int -> string)
    ensures PendingAtLeastZero(NO_ACCOUNT) && LosesNothing([], day) && AtLeastZero(NO_USAGE)
  {}
}
