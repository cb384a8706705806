/** The Codex scanner as it runs: a cursor changed record by record, fed by a line reader. */
module CodexScanner {
  import opened CodexModel
  import opened Options

  class Tracker {
    var model: string
    var last: Tokens
    var awaiting: bool
    var active: Option<Turn>

    ghost function State(): Turns
      reads this
    {
      Turns(model, last, awaiting, active)
    }

    constructor (t: Turns)
      ensures State() == t
    {
      model, last, awaiting, active := t.model, t.last, t.awaiting, t.active;
    }

    method StartTurn(id: string, at: int, inherited: set<string>)
      modifies this
      ensures State() == Start(old(State()), id, at, inherited)
    {
      if id == "" {
        return;
      }
      if active.Some? && active.value.id == id {
        return;
      }
      active := Some(Turn(id, at, last, last, map[], id in inherited, false, NO_TOKENS, NO_TOKENS));
    }

    method UpdateTokenTotals(reported: Option<Reported>)
      modifies this
      ensures State() == if reported.None? then old(State()) else Count(old(State()), reported.value.Tiers())
      ensures reported.Some? ==>
        var r := reported.value;
        last == Tokens(if r.cacheRead > r.input then 0 else r.input - r.cacheRead, r.output, r.cacheRead, r.cacheWrite)
    {
      if reported.None? {
        return;
      }
      var totals := reported.value.Tiers();
      if awaiting {
        last := totals;
        awaiting := false;
        if active.Some? {
          active := Some(active.value.(baseline := totals, latest := totals));
        }
        return;
      }
      if active.Some? && totals.DecreasedFrom(last) {
        active := Some(active.value.(reset := true, resetPrevious := last, resetCurrent := totals));
      }
      last := totals;
      if active.Some? {
        active := Some(active.value.(latest := totals));
      }
    }

    method CompleteTurn(s: Session, id: string, aborted: bool, endedAt: int, emit: bool)
      returns (usage: Option<Usage>, report: Option<CounterReset>)
      modifies this
      ensures Step(State(), usage, report) == End(s, old(State()), id, aborted, endedAt, emit)
    {
      if active.None? {
        return None, None;
      }
      var turn := active.value;
      if id != "" && id != turn.id {
        return None, None;
      }
      active := None;
      if turn.inherited {
        return None, None;
      }
      if turn.reset || turn.latest.DecreasedFrom(turn.baseline) {
        var previous, current := turn.resetPrevious, turn.resetCurrent;
        if !turn.reset {
          previous, current := turn.baseline, turn.latest;
        }
        return None, Some(CounterReset(turn.id, previous, current));
      }
      var delta := turn.latest.Delta(turn.baseline);
      if !emit || delta.Total() <= 0 {
        return None, None;
      }
      var named := FirstModel(model, s.model);
      usage := Some(Usage(s.id, turn.id, aborted, turn.startedAt, endedAt, named, delta, s.classify(turn.scores)));
      report := None;
    }

    method ProcessRecord(s: Session, r: Record, now: int, emit: bool)
      returns (usage: Option<Usage>, report: Option<CounterReset>)
      modifies this
      ensures Step(State(), usage, report) == Process(s, old(State()), r, now, emit)
    {
      var at := r.timestamp.GetOr(now);
      match r.body {
        case TurnContext(name, id) =>
          if name != "" {
            model := name;
          }
          StartTurn(id, at, s.inherited);
        case TaskStarted(id) => StartTurn(id, at, s.inherited);
        case TokenCount(reported) => UpdateTokenTotals(reported);
        case TaskEnded(id, aborted) =>
          usage, report := CompleteTurn(s, id, aborted, at, emit);
          return;
        case Other(_) =>
      }
      if active.Some? {
        active := Some(active.value.(scores := s.score(active.value.scores, r.body)));
      }
      return None, None;
    }
  }

  /** `ReadString('\n')`: the end of the line that starts at `from`, if the line is complete. */
  method ReadLine(file: string, from: nat) returns (end: Option<nat>)
    ensures end == LineEnd(file, from)
  {
    var i := from;
    while i < |file|
      invariant from <= i && LineEnd(file, i) == LineEnd(file, from)
    {
      if file[i] == '\n' {
        return Some(i + 1);
      }
      i := i + 1;
    }
    return None;
  }

  lemma SnocAfter(s: Session, t: Turns, rs: seq<Record>, r: Record, now: int, emit: bool)
    ensures var step := Process(s, After(s, t, rs, now, emit), r, now, emit);
      && After(s, t, rs + [r], now, emit) == step.turns
      && Emitted(s, t, rs + [r], now, emit) == Emitted(s, t, rs, now, emit) + OptionSeq(step.usage)
      && Reports(s, t, rs + [r], now, emit) == Reports(s, t, rs, now, emit) + OptionSeq(step.report)
  {
    assert (rs + [r])[..|rs|] == rs;
  }

  /** A reader that started at `from` stands at `offset`, having read the records `done`. */
  ghost predicate Reading(parse: string -> Option<Record>, file: string, from: nat, offset: nat, done: seq<Record>) {
    ScanEnd(file, offset) == ScanEnd(file, from) && done + Records(parse, file, offset) == Records(parse, file, from)
  }

  lemma ReadingBegins(parse: string -> Option<Record>, file: string, from: nat)
    ensures Reading(parse, file, from, from, [])
  {
    assert [] + Records(parse, file, from) == Records(parse, file, from);
  }

  lemma ReadingLine(
    parse: string -> Option<Record>, file: string, from: nat, offset: nat, done: seq<Record>, end: Option<nat>)
    requires Reading(parse, file, from, offset, done) && end == LineEnd(file, offset)
    ensures end.Some? ==> Reading(parse, file, from, end.value, done + OptionSeq(parse(file[offset..end.value])))
    ensures end.None? ==> offset == ScanEnd(file, from) && done == Records(parse, file, from)
  {
    if end.Some? {
      var read, rest := OptionSeq(parse(file[offset..end.value])), Records(parse, file, end.value);
      assert done + (read + rest) == (done + read) + rest;
    } else {
      assert done + [] == done;
    }
  }

  /** Scan the complete lines after the cursor; an unfinished last line is left for the next scan. */
  method ScanCodex(s: Session, file: string, c: Cursor, now: int, emit: bool) returns (scan: Scan)
    ensures scan == ScanFile(s, file, c, now, emit)
  {
    hide Process, LineEnd, After, Emitted, Reports, Reading, Records, ScanEnd;
    var tracker := new Tracker(c.turns);
    var offset := c.offset;
    var usages: seq<Usage>, reports: seq<CounterReset> := [], [];
    ghost var done: seq<Record> := [];
    ReadingBegins(s.parse, file, c.offset);
    NothingAfter(s, c.turns, now, emit);
    while true
      invariant Reading(s.parse, file, c.offset, offset, done)
      invariant tracker.State() == After(s, c.turns, done, now, emit)
      invariant usages == Emitted(s, c.turns, done, now, emit)
      invariant reports == Reports(s, c.turns, done, now, emit)
      decreases |file| - offset
    {
      var end := ReadLine(file, offset);
      ReadingLine(s.parse, file, c.offset, offset, done, end);
      if end.None? {
        break;
      }
      var record := s.parse(file[offset..end.value]);
      offset := end.value;
      if record.Some? {
        SnocAfter(s, c.turns, done, record.value, now, emit);
        var usage, report := tracker.ProcessRecord(s, record.value, now, emit);
        usages := usages + OptionSeq(usage);
        reports := reports + OptionSeq(report);
        done := done + [record.value];
      } else {
        assert done + OptionSeq(record) == done;
      }
    }
    scan := Scan(Cursor(offset, Turns(tracker.model, tracker.last, tracker.awaiting, tracker.active)), usages, reports);
  }

  lemma NothingAfter(s: Session, t: Turns, now: int, emit: bool)
    ensures After(s, t, [], now, emit) == t && Emitted(s, t, [], now, emit) == [] && Reports(s, t, [], now, emit) == []
  {}

  method SeedCursor(s: Session, file: string, now: int) returns (c: Cursor)
    ensures c == Seed(s, file, now)
  {
    var offset: int := |file| - SEED_TAIL_BYTES;
    if offset < 0 {
      offset := 0;
    }
    var scan := ScanCodex(s, file, Cursor(offset, NO_TURNS.(awaiting := true)), now, false);
    c := scan.cursor;
    if c.turns.active.Some? {
      var turn := c.turns.active.value.(baseline := c.turns.last, latest := c.turns.last);
      c := c.(turns := c.turns.(active := Some(turn)));
    }
  }

  /** The ids of the turns a log completes, read by a second, simpler parser that follows only starts and
      ends. */
  function Open(rs: seq<Record>): string {
    if rs == [] then "" else
      match rs[|rs| - 1].body
      case TaskStarted(id) => id
      case TaskEnded(_, _) => ""
      case _ => Open(rs[..|rs| - 1])
  }

  function CompletedIds(rs: seq<Record>): set<string> {
    if rs == [] then {} else
      var n := |rs| - 1;
      var before := CompletedIds(rs[..n]);
      match rs[n].body
      case TaskEnded(named, _) =>
        var current := Open(rs[..n]);
        var id := if named == "" then current else named;
        if id != "" && (current == "" || id == current) then before + {id} else before
      case _ => before
  }

  /** All records of a file, the unfinished last line included. */
  function AllRecords(parse: string -> Option<Record>, file: string): seq<Record> {
    var end := ScanEnd(file, 0);
    Records(parse, file, 0) + (if end < |file| then OptionSeq(parse(file[end..])) else [])
  }

  lemma CompletedSnoc(rs: seq<Record>, r: Record)
    ensures Open(rs + [r]) ==
      match r.body { case TaskStarted(id) => id case TaskEnded(_, _) => "" case _ => Open(rs) }
    ensures CompletedIds(rs + [r]) ==
      match r.body {
        case TaskEnded(named, _) =>
          var id := if named == "" then Open(rs) else named;
          if id != "" && (Open(rs) == "" || id == Open(rs)) then CompletedIds(rs) + {id} else CompletedIds(rs)
        case _ => CompletedIds(rs)
      }
  {
    assert (rs + [r])[..|rs|] == rs;
  }

  /** Follow one record: the open turn, and the turns completed so far. */
  method FollowRecord(r: Record, wasOpen: string, before: set<string>, ghost done: seq<Record>)
    returns (open: string, completed: set<string>)
    requires before == CompletedIds(done) && wasOpen == Open(done)
    ensures completed == CompletedIds(done + [r]) && open == Open(done + [r])
  {
    hide CompletedIds, Open;
    CompletedSnoc(done, r);
    open, completed := wasOpen, before;
    match r.body {
      case TaskStarted(id) => open := id;
      case TaskEnded(named, _) =>
        var id := if named == "" then open else named;
        if id != "" && (open == "" || id == open) {
          completed := completed + {id};
        }
        open := "";
      case _ =>
    }
  }

  method CompletedTurnIds(parse: string -> Option<Record>, file: string) returns (completed: set<string>)
    ensures completed == CompletedIds(AllRecords(parse, file))
  {
    hide LineEnd, Reading, Records, ScanEnd, CompletedIds, Open;
    completed := {};
    var open := "";
    var offset := 0;
    ghost var done: seq<Record> := [];
    ReadingBegins(parse, file, 0);
    NothingCompleted();
    while true
      invariant Reading(parse, file, 0, offset, done)
      invariant completed == CompletedIds(done) && open == Open(done)
      decreases |file| - offset
    {
      var end := ReadLine(file, offset);
      ReadingLine(parse, file, 0, offset, done, end);
      if end.None? {
        break;
      }
      var record := parse(file[offset..end.value]);
      offset := end.value;
      if record.Some? {
        open, completed := FollowRecord(record.value, open, completed, done);
      } else {
        assert done + OptionSeq(record) == done;
      }
      done := done + OptionSeq(record);
    }
    if offset < |file| {
      var record := parse(file[offset..]);
      if record.Some? {
        open, completed := FollowRecord(record.value, open, completed, done);
      } else {
        assert done + OptionSeq(record) == done;
      }
    } else {
      assert done + [] == done;
    }
  }

  lemma NothingCompleted()
    ensures CompletedIds([]) == {} && Open([]) == ""
  {}
}
