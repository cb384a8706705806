/** What a finished Codex turn reports, in terms of the records of the log alone: the fields of the counter as they
    were reported, the times of the records, and the last model named. */
module CodexReported {
  import opened CodexModel
  import opened CodexTheorems
  import opened Options

  // ---------------------------------------------------------------- the counter as reported

  /** The counter last reported, or `start` if none was. */
  function LastCount(start: Reported, rs: seq<Record>): Reported {
    if rs == [] then start
    else if Counts(rs[|rs| - 1]) then rs[|rs| - 1].body.reported.value
    else LastCount(start, rs[..|rs| - 1])
  }

  /** Input that was not read from the cache; a report of more cached than input stands for none. */
  function Uncached(r: Reported): nat { if r.cacheRead > r.input then 0 else r.input - r.cacheRead }

  /** The cursor's counter stands for this report. */
  predicate StandsFor(last: Tokens, r: Reported) {
    && last.input == Uncached(r) && last.output == r.output
    && last.cacheRead == r.cacheRead && last.cacheWrite == r.cacheWrite
  }

  lemma StepCounts(s: Session, t: Turns, r: Record, now: int, emit: bool)
    ensures var after := Process(s, t, r, now, emit).turns;
      if Counts(r) then StandsFor(after.last, r.body.reported.value) else after.last == t.last
  {
    var at := r.timestamp.GetOr(now);
    if r.body.TaskEnded? {
      EndKeepsOthers(s, t, r.body.turnId, r.body.aborted, at, emit);
    } else {
      hide Score;
      ScoreKeeps(s, Follow(t, r.body, at, s.inherited), r.body);
    }
  }

  lemma {:induction false} CursorStandsFor(s: Session, t: Turns, rs: seq<Record>, now: int, emit: bool, start: Reported)
    requires StandsFor(t.last, start)
    ensures StandsFor(After(s, t, rs, now, emit).last, LastCount(start, rs))
  {
    hide Process, StandsFor;
    if rs != [] {
      var n := |rs| - 1;
      CursorStandsFor(s, t, rs[..n], now, emit, start);
      StepCounts(s, After(s, t, rs[..n], now, emit), rs[n], now, emit);
    }
  }

  // ---------------------------------------------------------------- the open turn

  /** The last record that opened a turn. */
  function OpenedBy(s: Session, t: Turns, rs: seq<Record>, now: int, emit: bool): (k: Option<nat>)
    ensures k.Some? ==> k.value < |rs| && (rs[k.value].body.TurnContext? || rs[k.value].body.TaskStarted?)
  {
    if rs == [] then None else
      var n := |rs| - 1;
      if Opens(After(s, t, rs[..n], now, emit), rs[n]) then Some(n) else OpenedBy(s, t, rs[..n], now, emit)
  }

  /** The scores of the records from `k` on; ends are not scored. */
  function ScoresFrom(s: Session, scores: Scores, rs: seq<Record>, k: nat): Scores
    requires k <= |rs|
    decreases |rs|
  {
    if k == |rs| then scores else
      var n := |rs| - 1;
      var before := ScoresFrom(s, scores, rs[..n], k);
      if rs[n].body.TaskEnded? then before else s.score(before, rs[n].body)
  }

  lemma StepKeepsTurn(s: Session, t: Turns, r: Record, now: int, emit: bool)
    ensures var after := Process(s, t, r, now, emit).turns;
      after.active.Some? ==> (
        var turn := after.active.value;
        && (Opens(t, r) ==> turn.id == r.body.turnId && turn.startedAt == r.timestamp.GetOr(now))
        && (!Opens(t, r) ==>
              t.active.Some? && turn.id == t.active.value.id && turn.startedAt == t.active.value.startedAt)
        && (!Restarts(t, r) ==> t.active.Some? && turn.baseline == t.active.value.baseline)
        && (Opens(t, r) ==> turn.scores == s.score(map[], r.body))
        && (!Opens(t, r) ==>
              var was := t.active.value.scores; turn.scores == if r.body.TaskEnded? then was else s.score(was, r.body)))
  {
    hide Tokens.DecreasedFrom, Tokens.Delta, Tokens.Total;
  }

  /** The open turn bears the id and time of the record that opened it, and the scores since. */
  lemma {:induction false} OpenTurnIs(s: Session, t: Turns, rs: seq<Record>, now: int, emit: bool)
    ensures var open, k := After(s, t, rs, now, emit).active, OpenedBy(s, t, rs, now, emit);
      open.Some? ==>
        if k.Some? then
          open.value.id == rs[k.value].body.turnId && open.value.startedAt == rs[k.value].timestamp.GetOr(now) &&
          open.value.scores == ScoresFrom(s, map[], rs, k.value)
        else
          t.active.Some? && open.value.id == t.active.value.id && open.value.startedAt == t.active.value.startedAt &&
          open.value.scores == ScoresFrom(s, t.active.value.scores, rs, 0)
  {
    hide Process, Restarts;
    if rs != [] {
      var n := |rs| - 1;
      OpenTurnIs(s, t, rs[..n], now, emit);
      StepKeepsTurn(s, After(s, t, rs[..n], now, emit), rs[n], now, emit);
    }
  }

  /** The open turn counts from where the counter stood when its window began. */
  lemma {:induction false} BaselineIs(s: Session, t: Turns, rs: seq<Record>, now: int, emit: bool)
    requires StartsLevel(t)
    ensures var after, i := After(s, t, rs, now, emit), Since(s, t, rs, now, emit);
      after.active.Some? ==>
        after.active.value.latest == after.last &&
        after.active.value.baseline == After(s, t, rs[..i], now, emit).last
  {
    hide Process, Opens, Restarts;
    if rs == [] {
    } else {
      var n := |rs| - 1;
      var before := After(s, t, rs[..n], now, emit);
      BaselineIs(s, t, rs[..n], now, emit);
      ProcessMeasures(s, before, rs[n], now, emit);
      StepKeepsTurn(s, before, rs[n], now, emit);
      if Restarts(before, rs[n]) {
        assert rs[..n + 1] == rs;
      } else {
        var i := Since(s, t, rs[..n], now, emit);
        assert rs[..n][..i] == rs[..i];
      }
    }
  }

  /** The model last named in the log. */
  function LastModel(model: string, rs: seq<Record>): string {
    if rs == [] then model
    else if rs[|rs| - 1].body.TurnContext? && rs[|rs| - 1].body.model != "" then rs[|rs| - 1].body.model
    else LastModel(model, rs[..|rs| - 1])
  }

  lemma StepModel(s: Session, t: Turns, r: Record, now: int, emit: bool)
    ensures Process(s, t, r, now, emit).turns.model ==
      if r.body.TurnContext? && r.body.model != "" then r.body.model else t.model
  {
    hide Tokens.DecreasedFrom, Tokens.Delta, Tokens.Total;
  }

  lemma {:induction false} ModelIs(s: Session, t: Turns, rs: seq<Record>, now: int, emit: bool)
    ensures After(s, t, rs, now, emit).model == LastModel(t.model, rs)
  {
    hide Process;
    if rs != [] {
      ModelIs(s, t, rs[..|rs| - 1], now, emit);
      StepModel(s, After(s, t, rs[..|rs| - 1], now, emit), rs[|rs| - 1], now, emit);
    }
  }

  // ---------------------------------------------------------------- the emitted turn

  /** The tokens are the increases of the reported counter, field by field; input read from the cache is counted
      there and not again as input. */
  ghost predicate Increases(tokens: Tokens, from: Reported, to: Reported) {
    && tokens.input == Uncached(to) - Uncached(from)
    && tokens.output == to.output - from.output
    && tokens.cacheRead == to.cacheRead - from.cacheRead
    && tokens.cacheWrite == to.cacheWrite - from.cacheWrite
    && (from.cacheRead <= from.input && to.cacheRead <= to.input ==>
          tokens.input + tokens.cacheRead == to.input - from.input &&
          tokens.Total() == to.input - from.input + to.output - from.output + to.cacheWrite - from.cacheWrite)
  }

  lemma DeltaIncreases(latest: Tokens, baseline: Tokens, from: Reported, to: Reported)
    requires StandsFor(baseline, from) && StandsFor(latest, to) && !latest.DecreasedFrom(baseline)
    ensures Increases(latest.Delta(baseline), from, to)
  {}

  /** A turn that is emitted when it ends reports: the increase of the reported counter over its window; the id and the
      time of the record that opened it, and what is scored from that record on; the time of its end, and whether it was
      aborted; the session; and the model last named, or else the session's. */
  lemma EmittedTurnReports(
    s: Session, t: Turns, rs: seq<Record>, id: string, aborted: bool, at: Option<int>, now: int, start: Reported)
    requires StartsLevel(t) && StandsFor(t.last, start)
    ensures var usage := Process(s, After(s, t, rs, now, true), Record(at, TaskEnded(id, aborted)), now, true).usage;
      var i, k := Since(s, t, rs, now, true), OpenedBy(s, t, rs, now, true);
      var model := LastModel(t.model, rs);
      usage.Some? ==>
        && Increases(usage.value.tokens, LastCount(start, rs[..i]), LastCount(start, rs))
        && (k.Some? ==>
              usage.value.turnId == rs[k.value].body.turnId &&
              usage.value.startedAt == rs[k.value].timestamp.GetOr(now) &&
              usage.value.workType == s.classify(ScoresFrom(s, map[], rs, k.value)))
        && (k.None? ==> (
              t.active.Some? &&
              usage.value.turnId == t.active.value.id && usage.value.startedAt == t.active.value.startedAt &&
              usage.value.workType == s.classify(ScoresFrom(s, t.active.value.scores, rs, 0))))
        && usage.value.endedAt == at.GetOr(now) && usage.value.aborted == aborted && usage.value.sessionId == s.id
        && usage.value.model == (if model != "" then model else s.model)
  {
    hide After, Since, OpenedBy, LastModel, LastCount, StandsFor, Increases, Tokens.Delta, Tokens.Total;
    var after, i := After(s, t, rs, now, true), Since(s, t, rs, now, true);
    OpenTurnIs(s, t, rs, now, true);
    ModelIs(s, t, rs, now, true);
    BaselineIs(s, t, rs, now, true);
    CursorStandsFor(s, t, rs, now, true, start);
    CursorStandsFor(s, t, rs[..i], now, true, start);
    if after.active.Some? && !after.active.value.latest.DecreasedFrom(after.active.value.baseline) {
      DeltaIncreases(
        after.active.value.latest, after.active.value.baseline, LastCount(start, rs[..i]), LastCount(start, rs));
    }
    hide Tokens.DecreasedFrom;
  }

  // ---------------------------------------------------------------- the reported reset

  /** The last record from `i` on at which some tier of the counter fell. */
  function LastFall(s: Session, t: Turns, rs: seq<Record>, i: nat, now: int, emit: bool): (k: Option<nat>)
    requires i <= |rs|
    ensures k.Some? ==> i <= k.value < |rs|
    decreases |rs|
  {
    if i == |rs| then None else
      var n := |rs| - 1;
      if Falls(After(s, t, rs[..n], now, emit), rs[n]) then Some(n) else LastFall(s, t, rs[..n], i, now, emit)
  }

  /** The counter falls exactly when some field of the report does, input counted without what was cached. */
  lemma FallsIff(t: Turns, r: Record, from: Reported)
    requires StandsFor(t.last, from) && Counts(r)
    ensures var to := r.body.reported.value;
      Falls(t, r) <==> (!t.awaiting &&
        (Uncached(to) < Uncached(from) || to.output < from.output || to.cacheRead < from.cacheRead ||
         to.cacheWrite < from.cacheWrite))
  {}

  lemma StepReset(s: Session, t: Turns, r: Record, now: int, emit: bool)
    ensures var after := Process(s, t, r, now, emit).turns;
      after.active.Some? ==> (
        var turn := after.active.value;
        && (Opens(t, r) ==> !turn.reset)
        && (Falls(t, r) ==> turn.resetPrevious == t.last && turn.resetCurrent == after.last)
        && (!Opens(t, r) && !Falls(t, r) ==>
              t.active.Some? && turn.resetPrevious == t.active.value.resetPrevious &&
              turn.resetCurrent == t.active.value.resetCurrent))
  {
    hide Tokens.DecreasedFrom, Tokens.Delta, Tokens.Total;
  }

  /** Where the counter of an open turn fell, the turn remembers the last fall of its window. */
  lemma {:induction false} ResetIs(s: Session, t: Turns, rs: seq<Record>, now: int, emit: bool)
    requires StartsLevel(t)
    ensures var after, i := After(s, t, rs, now, emit), Since(s, t, rs, now, emit);
      var k := LastFall(s, t, rs, i, now, emit);
      after.active.Some? && after.active.value.reset ==>
        k.Some? && after.active.value.resetPrevious == After(s, t, rs[..k.value], now, emit).last &&
        after.active.value.resetCurrent == After(s, t, rs[..k.value + 1], now, emit).last
  {
    hide Process, Opens, Falls, StartsLevel;
    if rs == [] {
      assert StartsLevel(t) ==> t.active.None? || !t.active.value.reset by { StartsUnreset(t); }
    } else {
      var n := |rs| - 1;
      var before, i := After(s, t, rs[..n], now, emit), Since(s, t, rs[..n], now, emit);
      ResetIs(s, t, rs[..n], now, emit);
      StartsQuiet(t);
      AfterQuiet(s, t, rs[..n], now, emit);
      TurnsMeasure(s, t, rs[..n], now, emit);
      ProcessMeasures(s, before, rs[n], now, emit);
      StepReset(s, before, rs[n], now, emit);
      assert rs[..n + 1] == rs;
      var k := LastFall(s, t, rs[..n], i, now, emit);
      if k.Some? {
        assert rs[..n][..k.value] == rs[..k.value] && rs[..n][..k.value + 1] == rs[..k.value + 1];
      }
    }
  }

  lemma StartsUnreset(t: Turns)
    requires StartsLevel(t)
    ensures t.active.Some? ==> !t.active.value.reset
  {}

  lemma StartsQuiet(t: Turns)
    requires StartsLevel(t)
    ensures AwaitingIsQuiet(t)
  {}

  /** A finished turn that no fork inherited reports a reset exactly when the counter fell in its window, with the
      counter before and after the last fall. */
  lemma ResetReports(
    s: Session, t: Turns, rs: seq<Record>, id: string, aborted: bool, at: Option<int>, now: int, start: Reported,
    emit: bool)
    requires StartsLevel(t) && StandsFor(t.last, start)
    ensures var open, i := After(s, t, rs, now, emit).active, Since(s, t, rs, now, emit);
      var k := LastFall(s, t, rs, i, now, emit);
      var report := Process(s, After(s, t, rs, now, emit), Record(at, TaskEnded(id, aborted)), now, emit).report;
      && (report.Some? <==>
            && open.Some? && (id == "" || id == open.value.id) && !open.value.inherited
            && FellSince(s, t, rs, i, now, emit))
      && (report.Some? ==>
            k.Some? && report.value.turnId == open.value.id &&
            StandsFor(report.value.previous, LastCount(start, rs[..k.value])) &&
            StandsFor(report.value.current, LastCount(start, rs[..k.value + 1])))
  {
    hide After, Since, LastFall, LastCount, StandsFor, FellSince, Tokens.Delta, Tokens.Total, Rises;
    var i := Since(s, t, rs, now, emit);
    TurnsMeasure(s, t, rs, now, emit);
    ResetIs(s, t, rs, now, emit);
    var k := LastFall(s, t, rs, i, now, emit);
    if k.Some? {
      CursorStandsFor(s, t, rs[..k.value], now, emit, start);
      CursorStandsFor(s, t, rs[..k.value + 1], now, emit, start);
    }
    hide Tokens.DecreasedFrom;
  }

  // ---------------------------------------------------------------- files and seeding

  lemma {:induction false} LineEndIs(file: string, from: nat, end: nat)
    requires from < end <= |file| && file[end - 1] == '\n' && forall i :: from <= i < end - 1 ==> file[i] != '\n'
    ensures LineEnd(file, from) == Some(end)
    decreases |file| - from
  {
    if file[from] != '\n' {
      LineEndIs(file, from + 1, end);
    }
  }

  lemma {:induction false} NoLineEnd(file: string, from: nat)
    requires forall i :: from <= i < |file| ==> file[i] != '\n'
    ensures LineEnd(file, from).None?
    decreases |file| - from
  {
    if from < |file| {
      NoLineEnd(file, from + 1);
    }
  }

  /** A scan reads each complete line as it stands, its line break included, and stops before an unfinished one. */
  lemma LinesAreRead(parse: string -> Option<Record>, file: string, from: nat, line: string)
    requires from + |line| <= |file| && file[from..from + |line|] == line
    requires forall i :: 0 <= i < |line| ==> line[i] != '\n'
    ensures var end := from + |line| + 1;
      end <= |file| && file[end - 1] == '\n' ==>
        Records(parse, file, from) == OptionSeq(parse(line + "\n")) + Records(parse, file, end) &&
        ScanEnd(file, from) == ScanEnd(file, end)
    ensures from + |line| == |file| ==> Records(parse, file, from) == [] && ScanEnd(file, from) == from
  {
    var end := from + |line| + 1;
    assert forall i :: from <= i < end - 1 ==> file[i] == line[i - from];
    if from + |line| == |file| {
      NoLineEnd(file, from);
    } else if file[end - 1] == '\n' {
      LineEndIs(file, from, end);
      assert file[from..end] == line + "\n";
    }
  }

  lemma StepAwaits(s: Session, t: Turns, r: Record, now: int, emit: bool)
    ensures Process(s, t, r, now, emit).turns.awaiting <==> t.awaiting && !Counts(r)
  {
    hide Tokens.Delta, Tokens.DecreasedFrom;
  }

  lemma {:induction false} AwaitsUntilCount(s: Session, t: Turns, rs: seq<Record>, now: int, emit: bool)
    ensures After(s, t, rs, now, emit).awaiting <==> t.awaiting && forall k :: 0 <= k < |rs| ==> !Counts(rs[k])
  {
    hide Process, Counts;
    if rs != [] {
      var n := |rs| - 1;
      AwaitsUntilCount(s, t, rs[..n], now, emit);
      StepAwaits(s, After(s, t, rs[..n], now, emit), rs[n], now, emit);
      assert forall k :: 0 <= k < n ==> rs[..n][k] == rs[k];
    }
  }

  /** A cursor seeded from a file stands after its last complete line. It has read the last 8 MiB: its counter is the
      one last reported there, and it waits for a starting point exactly when none was; its turn is the one left open
      there, and counts from now on. */
  lemma SeededCursorReports(s: Session, file: string, now: int)
    ensures var from := if |file| < 8388608 then 0 else |file| - 8388608;
      var rs, c := Records(s.parse, file, from), Seed(s, file, now);
      && c.offset == ScanEnd(file, from)
      && StandsFor(c.turns.last, LastCount(Reported(0, 0, 0, 0), rs))
      && (c.turns.awaiting <==> forall k :: 0 <= k < |rs| ==> !Counts(rs[k]))
      && (c.turns.active.Some? ==>
            var turn, k := c.turns.active.value, OpenedBy(s, NO_TURNS.(awaiting := true), rs, now, false);
            && turn.baseline == turn.latest == c.turns.last
            && k.Some? && (rs[k.value].body == TaskStarted(turn.id) ||
                           (rs[k.value].body.TurnContext? && rs[k.value].body.turnId == turn.id))
            && turn.startedAt == rs[k.value].timestamp.GetOr(now))
  {
    var from := if |file| < SEED_TAIL_BYTES then 0 else |file| - SEED_TAIL_BYTES;
    var t, rs := NO_TURNS.(awaiting := true), Records(s.parse, file, from);
    hide After, Emitted, Reports, Records, ScanEnd, OpenedBy, LastCount, Counts;
    CursorStandsFor(s, t, rs, now, false, Reported(0, 0, 0, 0));
    AwaitsUntilCount(s, t, rs, now, false);
    OpenTurnIs(s, t, rs, now, false);
  }
}
