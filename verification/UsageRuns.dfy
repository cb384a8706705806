/** Usage is never lost across crashes, and counted twice only by cycles that were cut. */
module UsageRuns {
  import opened Options
  import opened UsageModel

  // ---------------------------------------------------------------- one bucket

  /** The tokens queued for one bucket. */
  function Sum(deltas: seq<Delta>, key: CursorKey): nat {
    if deltas == [] then 0 else
      Sum(deltas[..|deltas| - 1], key) + (if deltas[|deltas| - 1].key == key then deltas[|deltas| - 1].tokens else 0)
  }

  lemma {:induction false} SumJoin(a: seq<Delta>, b: seq<Delta>, key: CursorKey)
    ensures Sum(a + b, key) == Sum(a, key) + Sum(b, key)
  {
    if b == [] {
      assert a + b == a;
    } else {
      SumJoin(a, b[..|b| - 1], key);
      assert (a + b)[..|a + b| - 1] == a + b[..|b| - 1];
    }
  }

  /** A collection as the adapter makes it: at most one payload per bucket, none of them marked yet. */
  predicate Distinct(ps: seq<Payload>) {
    forall i, j :: 0 <= i < j < |ps| ==> ps[i].key != ps[j].key
  }

  /** As far as this bucket goes: it is reported with a total, always under the same accounting, without
      a cutover, and no session payload shares its key. */
  ghost predicate Regular(c: Cycle, key: CursorKey) {
    && Distinct(c.usage)
    && (forall i :: 0 <= i < |c.usage| && c.usage[i].key == key.session ==>
          c.usage[i].accounting == key.accounting && c.usage[i].total.Some? && !c.usage[i].cutover &&
          c.usage[i].hint.None? && !c.usage[i].initial)
    && (forall i :: 0 <= i < |c.sessions| ==> c.sessions[i].key != key.session)
  }

  ghost predicate AllRegular(cycles: seq<Cycle>, key: CursorKey) {
    key.session != "" && forall i :: 0 <= i < |cycles| ==> Regular(cycles[i], key)
  }

  /** The total a collection reports for a bucket. */
  function Reported(ps: seq<Payload>, session: string): Option<nat> {
    if ps == [] then None
    else if ps[|ps| - 1].key == session then ps[|ps| - 1].total
    else Reported(ps[..|ps| - 1], session)
  }

  /** The bucket's total when the baseline was initialised, 0 for a bucket that appeared later. */
  function Base(cycles: seq<Cycle>, session: string): nat {
    if cycles == [] then 0 else
      var n := |cycles| - 1;
      var before := cycles[..n];
      if Run(before).initialized then Base(before, session)
      else if Run(cycles).initialized then Reported(cycles[n].usage, session).GetOr(0)
      else 0
  }

  /** The largest total reported since then by a cycle that reached the queue. */
  function Peak(cycles: seq<Cycle>, session: string): nat {
    if cycles == [] then 0 else
      var n := |cycles| - 1;
      var before, reported := cycles[..n], Reported(cycles[n].usage, session).GetOr(0);
      if !Run(before).initialized then (if Run(cycles).initialized then reported else 0)
      else if cycles[n].cut.BeforeAppend? then Peak(before, session)
      else if reported > Peak(before, session) then reported
      else Peak(before, session)
  }

  /** Tokens queued by cycles that were cut between the append and the save of the cursors. */
  function CutTokens(cycles: seq<Cycle>, key: CursorKey): nat {
    if cycles == [] then 0 else
      var n := |cycles| - 1;
      CutTokens(cycles[..n], key) +
      (if cycles[n].cut.AfterAppend? || cycles[n].cut.AfterBaseline?
       then Sum(CycleDeltas(Run(cycles[..n]), cycles[n]), key) else 0)
  }

  // ---------------------------------------------------------------- what a cycle does to one bucket

  /** The payload of a bucket in a collection, if any. */
  function Of(ps: seq<Payload>, session: string): Option<Payload> {
    if ps == [] then None
    else if ps[|ps| - 1].key == session then Some(ps[|ps| - 1])
    else Of(ps[..|ps| - 1], session)
  }

  lemma {:induction false} OfAbsent(ps: seq<Payload>, session: string)
    requires forall i :: 0 <= i < |ps| ==> ps[i].key != session
    ensures Of(ps, session).None?
  {
    if ps != [] {
      OfAbsent(ps[..|ps| - 1], session);
    }
  }

  lemma {:induction false} OfIs(ps: seq<Payload>, session: string)
    ensures Of(ps, session).Some? ==> Of(ps, session).value in ps && Of(ps, session).value.key == session
    ensures Reported(ps, session) == if Of(ps, session).Some? then Of(ps, session).value.total else None
  {
    if ps != [] {
      OfIs(ps[..|ps| - 1], session);
    }
  }

  lemma JudgeKeepsKey(sessions: Sessions, p: Payload)
    ensures var j := Judge(sessions, p);
      (j.emit.Some? ==> j.emit.value.key == p.key && KeyOf(j.emit.value) == KeyOf(p)) &&
      (j.update.Some? ==> j.update.value.key == p.key)
  {}

  function EmitOf(sessions: Sessions, own: Option<Payload>): Option<Payload> {
    if own.Some? then Judge(sessions, own.value).emit else None
  }

  function UpdateOf(sessions: Sessions, own: Option<Payload>): Option<Payload> {
    if own.Some? then Judge(sessions, own.value).update else None
  }

  function TotalOf(own: Option<Payload>): nat {
    if own.Some? then own.value.total.GetOr(0) else 0
  }

  lemma EmittedSnoc(sessions: Sessions, ps: seq<Payload>)
    requires ps != []
    ensures var n := |ps| - 1;
      Emitted(sessions, ps) == Emitted(sessions, ps[..n]) + OptionSeq(Judge(sessions, ps[n]).emit)
  {}

  lemma UpdatesSnoc(sessions: Sessions, ps: seq<Payload>)
    requires ps != []
    ensures var n := |ps| - 1;
      Updates(sessions, ps) == Updates(sessions, ps[..n]) + OptionSeq(Judge(sessions, ps[n]).update)
  {}

  lemma DeltasSnoc(cursors: Cursors, before: seq<Payload>, more: Option<Payload>, key: CursorKey)
    ensures Sum(Deltas(cursors, before + OptionSeq(more)), key) == Sum(Deltas(cursors, before), key) +
      if more.Some? && KeyOf(more.value) == key then Advanced(Lookup(cursors, key), more.value) else 0
  {
    if more.Some? {
      assert (before + [more.value])[..|before|] == before;
      SumJoin(Deltas(cursors, before), OptionSeq(DeltaOf(cursors, more.value)), key);
      SumOne(DeltaOf(cursors, more.value), key);
    } else {
      assert before + [] == before;
    }
  }

  lemma CursorsSnoc(cursors: Cursors, before: seq<Payload>, more: Option<Payload>, key: CursorKey)
    ensures Lookup(NextCursors(cursors, before + OptionSeq(more)), key) ==
      if more.Some? && KeyOf(more.value) == key && Observes(more.value) then more.value.total
      else Lookup(NextCursors(cursors, before), key)
  {
    if more.Some? {
      assert (before + [more.value])[..|before|] == before;
    } else {
      assert before + [] == before;
    }
  }

  lemma AddedSnoc(from: Sessions, before: seq<Payload>, more: Option<Payload>, session: string)
    requires session != ""
    ensures var earlier := Lookup(AddSessions(from, before), session);
      Lookup(AddSessions(from, before + OptionSeq(more)), session) ==
        if more.Some? && more.value.key == session then Some(Advance(earlier.GetOr(NO_BASELINE), more.value))
        else earlier
  {
    if more.Some? {
      assert (before + [more.value])[..|before|] == before;
    } else {
      assert before + [] == before;
    }
  }

  lemma OfSnoc(ps: seq<Payload>, session: string)
    requires ps != [] && Distinct(ps)
    ensures var n := |ps| - 1;
      if ps[n].key == session then Of(ps, session) == Some(ps[n]) && Of(ps[..n], session).None?
      else Of(ps, session) == Of(ps[..n], session)
  {
    if ps[|ps| - 1].key == session {
      OfAbsent(ps[..|ps| - 1], session);
    }
  }

  /** Only the bucket's own payload decides what is queued for it and where its cursor goes. */
  lemma {:induction false} BucketDeltas(sessions: Sessions, cursors: Cursors, ps: seq<Payload>, key: CursorKey)
    requires Distinct(ps) && key.session != ""
    requires forall i :: 0 <= i < |ps| && ps[i].key == key.session ==> ps[i].accounting == key.accounting
    ensures var mine := EmitOf(sessions, Of(ps, key.session));
      && Sum(Deltas(cursors, Emitted(sessions, ps)), key) ==
        (if mine.Some? then Advanced(Lookup(cursors, key), mine.value) else 0)
      && Lookup(NextCursors(cursors, Emitted(sessions, ps)), key) ==
           (if mine.Some? && Observes(mine.value) then mine.value.total else Lookup(cursors, key))
  {
    if ps != [] {
      hide Judge, Emitted, Deltas, NextCursors, Sum, Of, Advanced, Observes, Lookup;
      var n := |ps| - 1;
      var judged := Judge(sessions, ps[n]).emit;
      JudgeKeepsKey(sessions, ps[n]);
      BucketDeltas(sessions, cursors, ps[..n], key);
      OfSnoc(ps, key.session);
      EmittedSnoc(sessions, ps);
      DeltasSnoc(cursors, Emitted(sessions, ps[..n]), judged, key);
      CursorsSnoc(cursors, Emitted(sessions, ps[..n]), judged, key);
    }
  }

  lemma SumOne(d: Option<Delta>, key: CursorKey)
    ensures Sum(OptionSeq(d), key) == if d.Some? && d.value.key == key then d.value.tokens else 0
  {
    if d.Some? {
      assert OptionSeq(d)[..0] == [];
    }
  }

  /** ... and what the baseline remembers of it. */
  lemma {:induction false} BucketUpdates(sessions: Sessions, from: Sessions, ps: seq<Payload>, session: string)
    requires Distinct(ps) && session != ""
    ensures var mine := UpdateOf(sessions, Of(ps, session));
      Lookup(AddSessions(from, Updates(sessions, ps)), session) ==
        if mine.Some? then Some(Advance(Lookup(from, session).GetOr(NO_BASELINE), mine.value))
        else Lookup(from, session)
  {
    if ps != [] {
      hide Judge, Updates, AddSessions, Of, Advance, Lookup;
      var n := |ps| - 1;
      JudgeKeepsKey(sessions, ps[n]);
      BucketUpdates(sessions, from, ps[..n], session);
      OfSnoc(ps, session);
      UpdatesSnoc(sessions, ps);
      AddedSnoc(from, Updates(sessions, ps[..n]), Judge(sessions, ps[n]).update, session);
    }
  }

  lemma {:induction false} BucketAdded(from: Sessions, ps: seq<Payload>, session: string)
    requires Distinct(ps) && session != ""
    ensures var own := Of(ps, session);
      Lookup(AddSessions(from, ps), session) ==
        if own.Some? then Some(Advance(Lookup(from, session).GetOr(NO_BASELINE), own.value)) else Lookup(from, session)
  {
    if ps != [] {
      hide AddSessions, Of, Advance, Lookup;
      var n := |ps| - 1;
      BucketAdded(from, ps[..n], session);
      OfSnoc(ps, session);
      AddedSnoc(from, ps[..n], Some(ps[n]), session);
      assert ps[..n] + [ps[n]] == ps;
    }
  }

  lemma {:induction false} OthersAdded(from: Sessions, ps: seq<Payload>, session: string)
    requires forall i :: 0 <= i < |ps| ==> ps[i].key != session
    ensures Lookup(AddSessions(from, ps), session) == Lookup(from, session)
  {
    if ps != [] {
      OthersAdded(from, ps[..|ps| - 1], session);
    }
  }

  // ---------------------------------------------------------------- one bucket by itself

  /** What is durable about one bucket. */
  datatype Bucket = Bucket(initialized: bool, record: Option<Baseline>, cursor: Option<nat>, queued: nat)

  function View(disk: Disk, key: CursorKey): Bucket {
    Bucket(disk.initialized, Lookup(disk.sessions, key.session), Lookup(disk.cursors, key), Sum(disk.queued, key))
  }

  function BucketTokens(b: Bucket, own: Option<Payload>): nat {
    if !b.initialized || own.None? then 0 else
      match JudgeRecord(b.record, own.value).emit
      case None => 0
      case Some(p) => Advanced(b.cursor, p)
  }

  function BucketRecord(b: Bucket, own: Option<Payload>): Option<Baseline> {
    var update := if own.None? then None else if b.initialized then JudgeRecord(b.record, own.value).update else own;
    if update.None? then b.record else Some(Advance(b.record.GetOr(NO_BASELINE), update.value))
  }

  function BucketNext(b: Bucket, own: Option<Payload>): Option<nat> {
    if !b.initialized || own.None? then b.cursor else
      match JudgeRecord(b.record, own.value).emit
      case None => b.cursor
      case Some(p) => if Observes(p) then p.total else b.cursor
  }

  function PerformBucket(b: Bucket, own: Option<Payload>, cut: Cut): Bucket {
    var appended := if cut.BeforeAppend? then b else b.(queued := b.queued + BucketTokens(b, own));
    var based :=
      if cut.BeforeAppend? || cut.AfterAppend? then appended
      else appended.(initialized := true, record := BucketRecord(b, own));
    if cut.Whole? then based.(cursor := BucketNext(b, own)) else based
  }

  lemma BucketDeltasIndependent(disk: Disk, c: Cycle, key: CursorKey)
    requires Regular(c, key) && key.session != ""
    ensures Sum(CycleDeltas(disk, c), key) == BucketTokens(View(disk, key), Of(c.usage, key.session))
    ensures Lookup(CycleCursors(disk, c), key) == BucketNext(View(disk, key), Of(c.usage, key.session))
  {
    hide Emitted, NextCursors, Deltas, Of, JudgeRecord, Advanced;
    OfIs(c.usage, key.session);
    if disk.initialized {
      BucketDeltas(disk.sessions, disk.cursors, c.usage, key);
    }
  }

  lemma BucketRecordIndependent(disk: Disk, c: Cycle, key: CursorKey)
    requires Regular(c, key) && key.session != ""
    ensures Lookup(CycleSessions(disk, c), key.session) == BucketRecord(View(disk, key), Of(c.usage, key.session))
  {
    hide Updates, AddSessions, Of, JudgeRecord, Advance;
    OfIs(c.usage, key.session);
    if disk.initialized {
      BucketUpdates(disk.sessions, disk.sessions, c.usage, key.session);
      OthersAdded(AddSessions(disk.sessions, Updates(disk.sessions, c.usage)), c.sessions, key.session);
    } else {
      BucketAdded(disk.sessions, c.usage, key.session);
      OthersAdded(AddSessions(disk.sessions, c.usage), c.sessions, key.session);
    }
  }

  /** A cycle moves each bucket as if it were the only one. */
  lemma BucketsAreIndependent(disk: Disk, c: Cycle, key: CursorKey)
    requires Regular(c, key) && key.session != ""
    ensures View(Perform(disk, c), key) == PerformBucket(View(disk, key), Of(c.usage, key.session), c.cut)
    ensures Sum(CycleDeltas(disk, c), key) == BucketTokens(View(disk, key), Of(c.usage, key.session))
  {
    hide CycleDeltas, CycleCursors, CycleSessions, BucketTokens, BucketNext, BucketRecord, Sum, Of;
    BucketDeltasIndependent(disk, c, key);
    BucketRecordIndependent(disk, c, key);
    SumJoin(disk.queued, CycleDeltas(disk, c), key);
  }

  // ---------------------------------------------------------------- the invariant

  /** The least total the bucket's next delta can be measured from. */
  ghost function Floor(b: Bucket): nat {
    if b.cursor.Some? then b.cursor.value
    else if b.record.Some? then
      (if b.record.value.previous < b.record.value.total then b.record.value.previous else b.record.value.total)
    else 0
  }

  /** The cursor never passes the baseline; before the baseline is initialised there is nothing. */
  ghost predicate Sound(b: Bucket, accounting: string) {
    && (!b.initialized ==> b.record.None? && b.cursor.None? && b.queued == 0)
    && (b.record.Some? ==>
          b.record.value.observed && b.record.value.accounting == accounting &&
          b.record.value.previous <= b.record.value.total)
    && (b.cursor.Some? ==> b.record.Some? && b.cursor.value <= b.record.value.total)
  }

  /** The books of an initialised bucket: `base` tokens at the start, at most `peak` since, `cut` of them
      queued by cycles that were cut. */
  ghost predicate Accounts(b: Bucket, accounting: string, base: nat, peak: nat, cut: nat) {
    && Sound(b, accounting)
    && base <= peak
    && (b.record.Some? ==> b.record.value.total <= peak)
    && (b.record.None? ==> base == 0)
    && peak - base <= b.queued
    && b.queued + base <= Floor(b) + cut
  }

  ghost predicate OwnRegular(own: Option<Payload>, key: CursorKey) {
    own.Some? ==>
      own.value.key == key.session && own.value.accounting == key.accounting && own.value.total.Some? &&
      !own.value.cutover && own.value.hint.None? && !own.value.initial
  }

  lemma CycleAccounts(b: Bucket, own: Option<Payload>, cut: Cut, key: CursorKey, base: nat, peak: nat, spent: nat)
    requires b.initialized && OwnRegular(own, key) && key.session != ""
    requires Accounts(b, key.accounting, base, peak, spent)
    ensures var reported := TotalOf(own);
      Accounts(PerformBucket(b, own, cut), key.accounting, base,
        if cut.BeforeAppend? || reported <= peak then peak else reported,
        spent + if cut.AfterAppend? || cut.AfterBaseline? then BucketTokens(b, own) else 0)
  {}

  /** The cycle that initialises the baseline takes the bucket's total as its starting point. */
  lemma InitialAccounts(b: Bucket, own: Option<Payload>, cut: Cut, key: CursorKey)
    requires !b.initialized && Sound(b, key.accounting) && OwnRegular(own, key)
    ensures var after := PerformBucket(b, own, cut); var reported := TotalOf(own);
      if after.initialized then Accounts(after, key.accounting, reported, reported, 0) else Sound(after, key.accounting)
  {}

  /** Over every run: the books of a bucket balance once the baseline is initialised. */
  lemma {:induction false} RunAccounts(cycles: seq<Cycle>, key: CursorKey)
    requires AllRegular(cycles, key)
    ensures Sound(View(Run(cycles), key), key.accounting)
    ensures Run(cycles).initialized ==>
      Accounts(View(Run(cycles), key), key.accounting, Base(cycles, key.session), Peak(cycles, key.session),
        CutTokens(cycles, key))
    ensures !Run(cycles).initialized ==> CutTokens(cycles, key) == 0
  {
    if cycles != [] {
      var n := |cycles| - 1;
      RunAccounts(cycles[..n], key);
      assert Regular(cycles[n], key);
      StepAccounts(cycles, key);
    }
  }

  /** The books after one more cycle. */
  lemma StepAccounts(cycles: seq<Cycle>, key: CursorKey)
    requires cycles != [] && key.session != "" && Regular(cycles[|cycles| - 1], key)
    requires var before := cycles[..|cycles| - 1];
      && Sound(View(Run(before), key), key.accounting)
      && (Run(before).initialized ==>
            Accounts(View(Run(before), key), key.accounting, Base(before, key.session), Peak(before, key.session),
              CutTokens(before, key)))
      && (!Run(before).initialized ==> CutTokens(before, key) == 0)
    ensures Sound(View(Run(cycles), key), key.accounting)
    ensures Run(cycles).initialized ==>
      Accounts(View(Run(cycles), key), key.accounting, Base(cycles, key.session), Peak(cycles, key.session),
        CutTokens(cycles, key))
    ensures !Run(cycles).initialized ==> CutTokens(cycles, key) == 0
  {
    hide Accounts, Sound, Perform, PerformBucket, CycleDeltas, BucketTokens, Sum, Reported, Of;
    var n := |cycles| - 1;
    var disk, c := Run(cycles[..n]), cycles[n];
    var own := Of(c.usage, key.session);
    OfIs(c.usage, key.session);
    BucketsAreIndependent(disk, c, key);
    UninitializedQueuesNothing(disk, c, key);
    if disk.initialized {
      StaysInitialized(disk, c);
      CycleAccounts(View(disk, key), own, c.cut, key, Base(cycles[..n], key.session), Peak(cycles[..n], key.session),
        CutTokens(cycles[..n], key));
    } else {
      InitialAccounts(View(disk, key), own, c.cut, key);
    }
    SoundAccounts(View(Run(cycles), key), key.accounting, Base(cycles, key.session), Peak(cycles, key.session),
      CutTokens(cycles, key));
  }

  lemma SoundAccounts(b: Bucket, accounting: string, base: nat, peak: nat, cut: nat)
    ensures Accounts(b, accounting, base, peak, cut) ==> Sound(b, accounting)
  {}

  lemma UninitializedQueuesNothing(disk: Disk, c: Cycle, key: CursorKey)
    ensures !disk.initialized ==> Sum(CycleDeltas(disk, c), key) == 0
  {}

  lemma StaysInitialized(disk: Disk, c: Cycle)
    requires disk.initialized
    ensures Perform(disk, c).initialized
  {}

  /** Usage is never lost: the queued deltas of a bucket add up to at least its growth since the baseline
      was initialised, and exceed it by at most the deltas of cycles cut between append and cursor save. */
  lemma UsageNeverLost(cycles: seq<Cycle>, key: CursorKey)
    requires AllRegular(cycles, key)
    ensures var growth := Peak(cycles, key.session) - Base(cycles, key.session);
      growth <= Sum(Run(cycles).queued, key) <= growth + CutTokens(cycles, key)
  {
    RunAccounts(cycles, key);
    if Run(cycles).initialized {
      FloorBelowPeak(View(Run(cycles), key), key.accounting, Base(cycles, key.session), Peak(cycles, key.session),
        CutTokens(cycles, key));
    } else {
      UninitializedIsZero(cycles, key.session);
    }
  }

  lemma FloorBelowPeak(b: Bucket, accounting: string, base: nat, peak: nat, cut: nat)
    requires Accounts(b, accounting, base, peak, cut)
    ensures Floor(b) <= peak
  {}

  lemma UninitializedIsZero(cycles: seq<Cycle>, session: string)
    requires !Run(cycles).initialized
    ensures Base(cycles, session) == 0 && Peak(cycles, session) == 0
  {}

  // ---------------------------------------------------------------- a bucket reported more than once

  /** The tokens a payload of a collection queues for its bucket, measured against what was loaded. */
  function TokensOf(disk: Disk, p: Payload): nat {
    match Judge(disk.sessions, p).emit
    case None => 0
    case Some(emitted) => Advanced(Lookup(disk.cursors, KeyOf(emitted)), emitted)
  }

  predicate Advances(disk: Disk, p: Payload, key: CursorKey) { KeyOf(p) == key && TokensOf(disk, p) > 0 }

  /** The most any payload of the bucket queues: how far the collection has seen the bucket go. */
  function Furthest(disk: Disk, ps: seq<Payload>, key: CursorKey): nat {
    if ps == [] then 0 else
      var before, last := Furthest(disk, ps[..|ps| - 1], key), ps[|ps| - 1];
      if KeyOf(last) == key && TokensOf(disk, last) > before then TokensOf(disk, last) else before
  }

  /** At most one payload of the collection advances the bucket. */
  ghost predicate AdvancesOnce(disk: Disk, ps: seq<Payload>, key: CursorKey) {
    forall i, j :: 0 <= i < j < |ps| ==> !(Advances(disk, ps[i], key) && Advances(disk, ps[j], key))
  }

  ghost predicate NeverAdvances(disk: Disk, ps: seq<Payload>, key: CursorKey) {
    forall i :: 0 <= i < |ps| ==> !Advances(disk, ps[i], key)
  }

  lemma AdvancesOnceSnoc(disk: Disk, ps: seq<Payload>, key: CursorKey)
    requires ps != []
    ensures var n := |ps| - 1;
      && (NeverAdvances(disk, ps, key) <==> NeverAdvances(disk, ps[..n], key) && !Advances(disk, ps[n], key))
      && (AdvancesOnce(disk, ps, key) <==>
            AdvancesOnce(disk, ps[..n], key) && (Advances(disk, ps[n], key) ==> NeverAdvances(disk, ps[..n], key)))
  {
    hide Advances;
    var n := |ps| - 1;
    assert forall i :: 0 <= i < n ==> ps[..n][i] == ps[i];
  }

  /** Every delta is measured against the loaded cursor, so what is queued for a bucket is how far it was seen to go
      if and only if at most one payload of the collection advances it; otherwise it is more. */
  lemma {:induction false} CountedOnceIff(disk: Disk, ps: seq<Payload>, key: CursorKey)
    ensures var queued := Sum(Deltas(disk.cursors, Emitted(disk.sessions, ps)), key);
      && Furthest(disk, ps, key) <= queued
      && (queued == 0 <==> NeverAdvances(disk, ps, key))
      && (queued == Furthest(disk, ps, key) <==> AdvancesOnce(disk, ps, key))
  {
    hide Judge, Deltas, Emitted, Sum, Advanced, AdvancesOnce, NeverAdvances;
    if ps == [] {
      NothingDeltas(disk, key);
    } else {
      var n := |ps| - 1;
      CountedOnceIff(disk, ps[..n], key);
      AdvancesOnceSnoc(disk, ps, key);
      EmittedSnoc(disk.sessions, ps);
      JudgeKeepsKey(disk.sessions, ps[n]);
      DeltasSnoc(disk.cursors, Emitted(disk.sessions, ps[..n]), Judge(disk.sessions, ps[n]).emit, key);
    }
  }

  lemma NothingDeltas(disk: Disk, key: CursorKey)
    ensures Sum(Deltas(disk.cursors, Emitted(disk.sessions, [])), key) == 0
    ensures AdvancesOnce(disk, [], key) && NeverAdvances(disk, [], key)
  {}

  /** A payload advances its bucket if and only if its total passes what the baseline remembers, or meets it while the
      cursor is still behind. */
  lemma AdvancesIff(disk: Disk, p: Payload, key: CursorKey)
    requires key.session != "" && OwnRegular(Some(p), key)
    requires Sound(View(disk, key), key.accounting)
    ensures var record, total := Lookup(disk.sessions, key.session), p.total.value;
      Advances(disk, p, key) <==>
        if record.None? then total > 0
        else
          total > record.value.total ||
          (total == record.value.total && record.value.previous < total && Floor(View(disk, key)) < total)
  {
    hide Sum;
  }

  /** So a bucket reported twice in its first collection is counted twice. */
  lemma RepeatedBucketCountsTwice(key: CursorKey, first: Payload, second: Payload)
    requires key.session != "" && KeyOf(first) == KeyOf(second) == key
    requires first.initial && second.initial && first.hint.None? && second.hint.None?
    requires Observes(first) && Observes(second)
    ensures Sum(Deltas(map[], [first, second]), key) == first.total.value + second.total.value
  {
    var one, two := Delta(key, first.total.value), Delta(key, second.total.value);
    assert [first, second][..1] == [first] && [first][..0] == [];
    assert Deltas(map[], [first]) == [one];
    assert Deltas(map[], [first, second]) == [one] + [two];
    SumOne(Some(one), key);
    SumOne(Some(two), key);
    SumJoin([one], [two], key);
  }

  /** When no cycle is cut the account is exact. */
  lemma UncutIsExact(cycles: seq<Cycle>, key: CursorKey)
    requires AllRegular(cycles, key)
    requires forall i :: 0 <= i < |cycles| ==> !cycles[i].cut.AfterAppend? && !cycles[i].cut.AfterBaseline?
    ensures Sum(Run(cycles).queued, key) == Peak(cycles, key.session) - Base(cycles, key.session)
  {
    NoCutTokens(cycles, key);
    UsageNeverLost(cycles, key);
  }

  lemma {:induction false} NoCutTokens(cycles: seq<Cycle>, key: CursorKey)
    requires forall i :: 0 <= i < |cycles| ==> !cycles[i].cut.AfterAppend? && !cycles[i].cut.AfterBaseline?
    ensures CutTokens(cycles, key) == 0
  {
    if cycles != [] {
      NoCutTokens(cycles[..|cycles| - 1], key);
    }
  }
}
