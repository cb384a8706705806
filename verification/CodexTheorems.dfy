/** What the Codex scanner promises: resuming is invisible, a turn's tokens are exactly the counter's
    increments, and a fork does not report its parent's turns again. */
module CodexTheorems {
  import opened CodexModel
  import opened CodexScanner
  import opened Options

  // ---------------------------------------------------------------- resumable scanning

  /** Every record of the file carries a readable timestamp. */
  ghost predicate AllTimed(rs: seq<Record>) {
    forall i :: 0 <= i < |rs| ==> rs[i].timestamp.Some?
  }

  lemma {:induction false} LineEndExtends(file: string, more: string, from: nat)
    requires LineEnd(file, from).Some?
    ensures LineEnd(file + more, from) == LineEnd(file, from)
    decreases |file| - from
  {
    if file[from] != '\n' {
      LineEndExtends(file, more, from + 1);
    }
  }

  lemma {:induction false} ScanEndExtends(file: string, more: string, from: nat)
    ensures ScanEnd(file + more, ScanEnd(file, from)) == ScanEnd(file + more, from)
    decreases |file| - from
  {
    var end := LineEnd(file, from);
    if end.Some? {
      LineEndExtends(file, more, from);
      ScanEndExtends(file, more, end.value);
    }
  }

  /** The records of a longer file are those of its prefix, then those after the prefix's last line. */
  lemma {:induction false} RecordsExtend(parse: string -> Option<Record>, file: string, more: string, from: nat)
    ensures Records(parse, file + more, from) ==
      Records(parse, file, from) + Records(parse, file + more, ScanEnd(file, from))
    decreases |file| - from
  {
    var end := LineEnd(file, from);
    if end.Some? {
      LineEndExtends(file, more, from);
      RecordsExtend(parse, file, more, end.value);
      assert (file + more)[from..end.value] == file[from..end.value];
    }
  }

  lemma {:induction false} AfterJoin(s: Session, t: Turns, a: seq<Record>, b: seq<Record>, now: int, emit: bool)
    ensures var mid := After(s, t, a, now, emit);
      && After(s, t, a + b, now, emit) == After(s, mid, b, now, emit)
      && Emitted(s, t, a + b, now, emit) == Emitted(s, t, a, now, emit) + Emitted(s, mid, b, now, emit)
      && Reports(s, t, a + b, now, emit) == Reports(s, t, a, now, emit) + Reports(s, mid, b, now, emit)
  {
    hide Process, After, Emitted, Reports;
    if b == [] {
      assert a + b == a;
      NothingAfter(s, After(s, t, a, now, emit), now, emit);
    } else {
      var n := |b| - 1;
      AfterJoin(s, t, a, b[..n], now, emit);
      assert a + b == (a + b[..n]) + [b[n]] && b == b[..n] + [b[n]];
      SnocAfter(s, t, a + b[..n], b[n], now, emit);
      SnocAfter(s, After(s, t, a, now, emit), b[..n], b[n], now, emit);
    }
  }

  /** The time of the scan is never looked at when every record has its own. */
  lemma {:induction false} TimedIgnoresNow(s: Session, t: Turns, rs: seq<Record>, now: int, later: int, emit: bool)
    requires AllTimed(rs)
    ensures After(s, t, rs, now, emit) == After(s, t, rs, later, emit)
    ensures Emitted(s, t, rs, now, emit) == Emitted(s, t, rs, later, emit)
    ensures Reports(s, t, rs, now, emit) == Reports(s, t, rs, later, emit)
  {
    hide Process;
    if rs != [] {
      var n := |rs| - 1;
      TimedIgnoresNow(s, t, rs[..n], now, later, emit);
      TimedRecordIgnoresNow(s, After(s, t, rs[..n], now, emit), rs[n], now, later, emit);
    }
  }

  lemma TimedRecordIgnoresNow(s: Session, t: Turns, r: Record, now: int, later: int, emit: bool)
    requires r.timestamp.Some?
    ensures Process(s, t, r, now, emit) == Process(s, t, r, later, emit)
  {
    hide Start, Score, Count, End;
  }

  /** Scanning a prefix of a file, cut anywhere, and resuming on the whole file from the saved cursor gives
      the same cursor and the same events as one scan. */
  lemma ScanningIsResumable(
    s: Session, file: string, more: string, c: Cursor, first: int, second: int, once: int, emit: bool)
    requires AllTimed(Records(s.parse, file + more, c.offset))
    ensures var part := ScanFile(s, file, c, first, emit);
      var rest := ScanFile(s, file + more, part.cursor, second, emit);
      var whole := ScanFile(s, file + more, c, once, emit);
      && rest.cursor == whole.cursor
      && part.usages + rest.usages == whole.usages
      && part.reports + rest.reports == whole.reports
  {
    hide After, Emitted, Reports, Records, ScanEnd;
    var a := Records(s.parse, file, c.offset);
    var b := Records(s.parse, file + more, ScanEnd(file, c.offset));
    RecordsExtend(s.parse, file, more, c.offset);
    ScanEndExtends(file, more, c.offset);
    assert a + b == Records(s.parse, file + more, c.offset);
    assert AllTimed(a) by {
      forall i | 0 <= i < |a| ensures a[i].timestamp.Some? { assert (a + b)[i] == a[i]; }
    }
    assert AllTimed(b) by {
      forall i | 0 <= i < |b| ensures b[i].timestamp.Some? { assert (a + b)[|a| + i] == b[i]; }
    }
    AfterJoin(s, c.turns, a, b, once, emit);
    TimedIgnoresNow(s, c.turns, a, first, once, emit);
    TimedIgnoresNow(s, After(s, c.turns, a, once, emit), b, second, once, emit);
  }

  // ---------------------------------------------------------------- token exactness

  /** The record reports the counter. */
  predicate Counts(r: Record) { r.body.TokenCount? && r.body.reported.Some? }

  /** How much the counter rises at a record. The first count after a seed is a starting point, not a rise. */
  function Rise(t: Turns, r: Record): Tokens {
    if Counts(r) && !t.awaiting then r.body.reported.value.Tiers().Delta(t.last) else NO_TOKENS
  }

  /** Some tier of the counter falls at a record. */
  predicate Falls(t: Turns, r: Record) {
    Counts(r) && !t.awaiting && r.body.reported.value.Tiers().DecreasedFrom(t.last)
  }

  /** The rises of the records from `i` on. */
  function Rises(s: Session, t: Turns, rs: seq<Record>, i: nat, now: int, emit: bool): Tokens
    requires i <= |rs|
    decreases |rs|
  {
    if i == |rs| then NO_TOKENS else
      var n := |rs| - 1;
      Rises(s, t, rs[..n], i, now, emit).Plus(Rise(After(s, t, rs[..n], now, emit), rs[n]))
  }

  /** The record opens a turn that was not open. */
  predicate Opens(t: Turns, r: Record) {
    (r.body.TurnContext? || r.body.TaskStarted?) && r.body.turnId != "" &&
    !(t.active.Some? && t.active.value.id == r.body.turnId)
  }

  /** The open turn starts counting after this record: it was opened by it, or the counter's starting point
      became known. */
  predicate Restarts(t: Turns, r: Record) { Opens(t, r) || (t.awaiting && Counts(r)) }

  /** The index of the first record whose rise counts for the turn open after `rs`: the one after the turn
      was opened, or after the counter's starting point became known. */
  function Since(s: Session, t: Turns, rs: seq<Record>, now: int, emit: bool): (i: nat)
    ensures i <= |rs|
  {
    if rs == [] then 0 else
      var n := |rs| - 1;
      var before := After(s, t, rs[..n], now, emit);
      if Restarts(before, rs[n]) then n + 1
      else Since(s, t, rs[..n], now, emit)
  }

  ghost predicate FellSince(s: Session, t: Turns, rs: seq<Record>, i: nat, now: int, emit: bool)
    requires i <= |rs|
  {
    exists k :: i <= k < |rs| && Falls(After(s, t, rs[..k], now, emit), rs[k])
  }

  /** The turn's counter has not fallen below its baseline, and stands above it by exactly `tokens`. */
  predicate Holds(turn: Turn, tokens: Tokens) {
    !turn.latest.DecreasedFrom(turn.baseline) && turn.latest.Delta(turn.baseline) == tokens
  }

  /** An open turn holds the rises of its window, and knows whether the counter fell in it. */
  ghost predicate Measures(s: Session, t: Turns, rs: seq<Record>, now: int, emit: bool) {
    var after, i := After(s, t, rs, now, emit), Since(s, t, rs, now, emit);
    after.active.Some? ==>
      var turn := after.active.value;
      && turn.latest == after.last
      && (turn.reset <==> FellSince(s, t, rs, i, now, emit))
      && (!turn.reset ==> Holds(turn, Rises(s, t, rs, i, now, emit)))
  }

  lemma FellSnoc(s: Session, t: Turns, rs: seq<Record>, i: nat, now: int, emit: bool)
    requires rs != [] && i < |rs|
    ensures var n := |rs| - 1;
      FellSince(s, t, rs, i, now, emit) <==>
        FellSince(s, t, rs[..n], i, now, emit) || Falls(After(s, t, rs[..n], now, emit), rs[n])
  {
    hide After, Falls;
    var n := |rs| - 1;
    if FellSince(s, t, rs, i, now, emit) {
      var k :| i <= k < |rs| && Falls(After(s, t, rs[..k], now, emit), rs[k]);
      assert k < n ==> rs[..n][..k] == rs[..k];
    }
    if FellSince(s, t, rs[..n], i, now, emit) {
      var k :| i <= k < n && Falls(After(s, t, rs[..n][..k], now, emit), rs[..n][k]);
      assert rs[..n][..k] == rs[..k];
    }
  }

  lemma ScoreKeeps(s: Session, t: Turns, body: Body)
    ensures var after := Score(s, t, body);
      && after.last == t.last && after.awaiting == t.awaiting
      && (after.active.Some? <==> t.active.Some?)
      && (t.active.Some? ==>
            after.active.value == t.active.value.(scores := after.active.value.scores))
  {}

  /** The measure of the open turn across a record that is not an end. */
  ghost predicate Carried(t: Turns, r: Record, after: Turns) {
    after.active.Some? ==> (
      var turn := after.active.value;
      && turn.latest == after.last
      && (Restarts(t, r) ==> turn.baseline == turn.latest)
      && (Opens(t, r) ==> !turn.reset)
      && (!Opens(t, r) ==> t.active.Some? && turn.id == t.active.value.id)
      && (!Opens(t, r) && t.awaiting ==> turn.reset == t.active.value.reset)
      && (!Restarts(t, r) ==> (turn.reset <==> t.active.value.reset || Falls(t, r)))
      && (!Restarts(t, r) && !turn.reset ==> forall tokens {:trigger Holds(t.active.value, tokens)} ::
            Holds(t.active.value, tokens) ==> Holds(turn, tokens.Plus(Rise(t, r)))))
  }

  lemma FollowCarries(t: Turns, r: Record, at: int, inherited: set<string>)
    requires t.active.Some? ==> t.active.value.latest == t.last
    ensures Carried(t, r, Follow(t, r.body, at, inherited))
  {
    if r.body.TokenCount? {
      CountCarries(t, r, at, inherited);
    } else {
      hide Count;
      match r.body
      case TurnContext(_, _) =>
      case TaskStarted(_) =>
      case _ =>
    }
  }

  lemma CountCarries(t: Turns, r: Record, at: int, inherited: set<string>)
    requires r.body.TokenCount? && (t.active.Some? ==> t.active.value.latest == t.last)
    ensures Carried(t, r, Follow(t, r.body, at, inherited))
  {
    hide Start, Reported.Tiers;
  }

  /** One record keeps the measure of the turn that stays open. */
  lemma ProcessMeasures(s: Session, t: Turns, r: Record, now: int, emit: bool)
    requires t.active.Some? ==> t.active.value.latest == t.last
    ensures Carried(t, r, Process(s, t, r, now, emit).turns)
  {
    var at := r.timestamp.GetOr(now);
    if r.body.TaskEnded? {
      EndKeepsOthers(s, t, r.body.turnId, r.body.aborted, at, emit);
      FollowCarries(t, r, at, s.inherited);
    } else {
      hide Follow, Score, Rise, Falls, Restarts, Opens;
      FollowCarries(t, r, at, s.inherited);
      ScoreKeeps(s, Follow(t, r.body, at, s.inherited), r.body);
    }
  }

  lemma EndKeepsOthers(s: Session, t: Turns, id: string, aborted: bool, at: int, emit: bool)
    ensures var after := End(s, t, id, aborted, at, emit).turns;
      after == t || after == t.(active := None)
  {
    hide Tokens.Delta, Tokens.DecreasedFrom, Tokens.Total;
  }

  /** While the counter's starting point is unknown the open turn has seen no count. */
  ghost predicate AwaitingIsQuiet(t: Turns) {
    t.awaiting && t.active.Some? ==> !t.active.value.reset
  }

  lemma ProcessQuiet(s: Session, t: Turns, r: Record, now: int, emit: bool)
    requires AwaitingIsQuiet(t)
    ensures AwaitingIsQuiet(Process(s, t, r, now, emit).turns)
  {}

  lemma {:induction false} AfterQuiet(s: Session, t: Turns, rs: seq<Record>, now: int, emit: bool)
    requires AwaitingIsQuiet(t)
    ensures AwaitingIsQuiet(After(s, t, rs, now, emit))
  {
    if rs != [] {
      AfterQuiet(s, t, rs[..|rs| - 1], now, emit);
      ProcessQuiet(s, After(s, t, rs[..|rs| - 1], now, emit), rs[|rs| - 1], now, emit);
    }
  }

  /** A cursor whose open turn, if any, starts counting now: a new file, or a file just seeded. */
  ghost predicate StartsLevel(t: Turns) {
    t.active.Some? ==> t.active.value.baseline == t.active.value.latest == t.last && !t.active.value.reset
  }

  lemma {:induction false} TurnsMeasure(s: Session, t: Turns, rs: seq<Record>, now: int, emit: bool)
    requires StartsLevel(t)
    ensures Measures(s, t, rs, now, emit)
  {
    if rs == [] {
      assert Rises(s, t, rs, 0, now, emit) == NO_TOKENS;
    } else {
      hide Process, Rise, Falls, Opens, FellSince;
      var n := |rs| - 1;
      var before, i := After(s, t, rs[..n], now, emit), Since(s, t, rs, now, emit);
      TurnsMeasure(s, t, rs[..n], now, emit);
      AfterQuiet(s, t, rs[..n], now, emit);
      ProcessMeasures(s, before, rs[n], now, emit);
      if i <= n {
        FellSnoc(s, t, rs, i, now, emit);
      } else {
        NotFellAtEnd(s, t, rs, now, emit);
      }
    }
  }

  lemma NotFellAtEnd(s: Session, t: Turns, rs: seq<Record>, now: int, emit: bool)
    ensures !FellSince(s, t, rs, |rs|, now, emit)
  {}

  /** Every emitted turn's tokens are, per tier, the sum of the counter's increments in the turn's window;
      a turn in whose window any tier fell emits nothing, and any other finished turn that used tokens does,
      unless a fork inherited it. */
  lemma TurnTokensExact(
    s: Session, t: Turns, rs: seq<Record>, id: string, aborted: bool, at: Option<int>, now: int)
    requires StartsLevel(t)
    ensures var open := After(s, t, rs, now, true).active;
      var i := Since(s, t, rs, now, true);
      var usage := Process(s, After(s, t, rs, now, true), Record(at, TaskEnded(id, aborted)), now, true).usage;
      && (usage.Some? <==>
            && open.Some? && (id == "" || id == open.value.id) && !open.value.inherited
            && !FellSince(s, t, rs, i, now, true) && Rises(s, t, rs, i, now, true).Total() > 0)
      && (usage.Some? ==> usage.value.tokens == Rises(s, t, rs, i, now, true) && usage.value.turnId == open.value.id)
  {
    hide After, Rises, FellSince, Since;
    TurnsMeasure(s, t, rs, now, true);
  }

  // ---------------------------------------------------------------- windows are disjoint

  function SumTokens(usages: seq<Usage>): Tokens {
    if usages == [] then NO_TOKENS else SumTokens(usages[..|usages| - 1]).Plus(usages[|usages| - 1].tokens)
  }

  lemma SumTokensSnoc(usages: seq<Usage>, more: Option<Usage>)
    ensures SumTokens(usages + OptionSeq(more)) ==
      if more.Some? then SumTokens(usages).Plus(more.value.tokens) else SumTokens(usages)
  {
    if more.Some? {
      assert (usages + [more.value])[..|usages|] == usages;
    } else {
      assert usages + [] == usages;
    }
  }

  /** What the open turn could still emit. */
  function Pending(t: Turns): Tokens {
    if t.active.Some? && !t.active.value.reset then t.active.value.latest.Delta(t.active.value.baseline) else NO_TOKENS
  }

  ghost predicate Level(t: Turns) {
    t.active.Some? ==> (
      var turn := t.active.value;
      turn.latest == t.last && (!turn.reset ==> !turn.latest.DecreasedFrom(turn.baseline)))
  }

  lemma DeltaFacts(a: Tokens, b: Tokens, c: Tokens)
    ensures a.Delta(a) == NO_TOKENS
    ensures c.Delta(a).AtMost(b.Delta(a).Plus(c.Delta(b)))
    ensures NO_TOKENS.AtMost(b.Delta(a))
    ensures !b.DecreasedFrom(a) && !c.DecreasedFrom(b) ==> !c.DecreasedFrom(a)
    ensures !a.DecreasedFrom(a)
  {}

  lemma CountBounds(t: Turns, totals: Tokens)
    requires Level(t)
    ensures var after := Count(t, totals);
      Level(after) && Pending(after).AtMost(Pending(t).Plus(if t.awaiting then NO_TOKENS else totals.Delta(t.last)))
  {
    hide Tokens.Delta, Tokens.DecreasedFrom;
    DeltaFacts(t.last, totals, totals);
    DeltaFacts(totals, totals, totals);
    PendingNonNegative(t);
    if t.active.Some? {
      DeltaFacts(t.active.value.baseline, t.last, totals);
    }
  }

  lemma StartBounds(t: Turns, id: string, at: int, inherited: set<string>)
    requires Level(t)
    ensures var after := Start(t, id, at, inherited);
      Level(after) && (Pending(after) == Pending(t) || Pending(after) == NO_TOKENS)
  {
    hide Tokens.Delta, Tokens.DecreasedFrom;
    DeltaFacts(t.last, t.last, t.last);
  }

  lemma FollowBounds(t: Turns, r: Record, at: int, inherited: set<string>)
    requires Level(t)
    ensures var after := Follow(t, r.body, at, inherited);
      Level(after) && Pending(after).AtMost(Pending(t).Plus(Rise(t, r)))
  {
    hide Start, Count, Tokens.Delta, Tokens.DecreasedFrom, Level, Pending;
    PendingNonNegative(t);
    RiseNonNegative(t, r);
    match r.body
    case TurnContext(model, id) =>
      NamingKeeps(t, model);
      StartBounds(if model == "" then t else t.(model := model), id, at, inherited);
    case TaskStarted(id) => StartBounds(t, id, at, inherited);
    case TokenCount(reported) =>
      if reported.Some? {
        CountBounds(t, reported.value.Tiers());
      }
    case TaskEnded(_, _) =>
    case Other(_) =>
  }

  lemma NamingKeeps(t: Turns, model: string)
    ensures Level(t.(model := model)) == Level(t) && Pending(t.(model := model)) == Pending(t)
  {
    hide Tokens.Delta, Tokens.DecreasedFrom;
  }

  lemma EndBounds(s: Session, t: Turns, id: string, aborted: bool, at: int, emit: bool)
    requires Level(t)
    ensures var step := End(s, t, id, aborted, at, emit);
      && Level(step.turns)
      && (step.usage.None? ==> Pending(step.turns).AtMost(Pending(t)))
      && (step.usage.Some? ==> step.turns.active.None? && step.usage.value.tokens.AtMost(Pending(t)))
  {
    EndKeepsOthers(s, t, id, aborted, at, emit);
    hide Tokens.Total, Tokens.DecreasedFrom;
  }

  /** A record moves tokens from pending to emitted, and adds at most the counter's rise. */
  lemma ProcessBounds(s: Session, t: Turns, r: Record, now: int, emit: bool)
    requires Level(t)
    ensures var step := Process(s, t, r, now, emit);
      && Level(step.turns)
      && (step.usage.None? ==> Pending(step.turns).AtMost(Pending(t).Plus(Rise(t, r))))
      && (step.usage.Some? ==> Pending(step.turns) == NO_TOKENS && step.usage.value.tokens.AtMost(Pending(t)))
  {
    var at := r.timestamp.GetOr(now);
    if r.body.TaskEnded? {
      hide End, Level;
      EndBounds(s, t, r.body.turnId, r.body.aborted, at, emit);
    } else {
      hide Follow, Score, Rise, Tokens.DecreasedFrom, Tokens.Delta;
      FollowBounds(t, r, at, s.inherited);
      ScoreKeeps(s, Follow(t, r.body, at, s.inherited), r.body);
    }
  }

  /** Emitted windows are disjoint: over a whole run, all tokens emitted and still pending are bounded, per
      tier, by the counter's positive increments and what was pending at the start. */
  lemma {:induction false} EmittedBounded(s: Session, t: Turns, rs: seq<Record>, now: int, emit: bool)
    requires Level(t)
    ensures Level(After(s, t, rs, now, emit))
    ensures SumTokens(Emitted(s, t, rs, now, emit)).Plus(Pending(After(s, t, rs, now, emit))).AtMost(
      Pending(t).Plus(Rises(s, t, rs, 0, now, emit)))
  {
    hide Process, Rise, Level, SumTokens, Pending;
    if rs == [] {
      SumTokensNone();
    } else {
      var n := |rs| - 1;
      var before := After(s, t, rs[..n], now, emit);
      EmittedBounded(s, t, rs[..n], now, emit);
      ProcessBounds(s, before, rs[n], now, emit);
      RiseNonNegative(before, rs[n]);
      SumTokensSnoc(Emitted(s, t, rs[..n], now, emit), Process(s, before, rs[n], now, emit).usage);
    }
  }

  lemma SumTokensNone()
    ensures SumTokens([]) == NO_TOKENS
  {}

  lemma RiseNonNegative(t: Turns, r: Record)
    ensures NO_TOKENS.AtMost(Rise(t, r))
  {}

  // ---------------------------------------------------------------- seeding

  lemma SeededLevel(s: Session, file: string, now: int)
    ensures Level(Rebased(Seed(s, file, now).turns)) && Level(Seed(s, file, now).turns)
    ensures Pending(Seed(s, file, now).turns) == NO_TOKENS
  {
    hide ScanFile;
  }

  /** After seeding, no tokens from before the seed point are ever emitted: whatever later scans emit is
      bounded by the increments of the later records alone. */
  lemma SeedingForgetsThePast(
    s: Session, file: string, seededAt: int, later: Session, rs: seq<Record>, now: int)
    ensures var seeded := Seed(s, file, seededAt).turns;
      SumTokens(Emitted(later, seeded, rs, now, true)).AtMost(Rises(later, seeded, rs, 0, now, true))
  {
    var seeded := Seed(s, file, seededAt).turns;
    SeededLevel(s, file, seededAt);
    EmittedBounded(later, seeded, rs, now, true);
    hide Seed, After, Emitted, Rises, SumTokens;
    PendingNonNegative(After(later, seeded, rs, now, true));
  }

  lemma PendingNonNegative(t: Turns)
    ensures NO_TOKENS.AtMost(Pending(t))
  {}

  /** Seeding itself emits nothing. */
  lemma {:induction false} QuietScanEmitsNothing(s: Session, t: Turns, rs: seq<Record>, now: int)
    ensures Emitted(s, t, rs, now, false) == []
  {
    if rs != [] {
      QuietScanEmitsNothing(s, t, rs[..|rs| - 1], now);
    }
  }
}
