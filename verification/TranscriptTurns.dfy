/** The turns of a transcript, told from its records alone. */
module TranscriptTurns {
  import opened TranscriptModel
  import opened TranscriptTheorems
  import opened Options
  import opened Time

  /** A readable message of the user opens a turn. */
  predicate Opens(r: Record) { r.role.User? && !r.isMeta && !r.isSidechain && r.chat }

  /** The last record is the first of its message and used tokens. */
  ghost predicate LastCounts(rs: seq<Record>)
    requires rs != []
  {
    FirstOfMessage(rs, |rs| - 1) && rs[|rs| - 1].usage != Usage(0, 0, 0, 0)
  }

  /** ... and, with a time and in the main conversation, it goes to an open turn. */
  ghost predicate LastJoins(rs: seq<Record>)
    requires rs != []
  {
    var r := rs[|rs| - 1];
    LastCounts(rs) && r.timestamp.Some? && !r.isMeta && !r.isSidechain
  }

  /** The user's message whose turn is still open: since then no other message of the user, and no record that joins
      without going on with a tool. */
  ghost function OpenedAt(rs: seq<Record>): (i: Option<nat>)
    ensures i.Some? ==> i.value < |rs|
  {
    if rs == [] then None else
      var n := |rs| - 1;
      if Opens(rs[n]) then Some(n)
      else if LastJoins(rs) && !rs[n].continues then None
      else OpenedAt(rs[..n])
  }

  /** Tier by tier, what the records after `i` that join have used. */
  ghost function JoinedUsage(rs: seq<Record>, i: nat): Usage {
    if |rs| <= i + 1 then Usage(0, 0, 0, 0) else
      var n, sum := |rs| - 1, JoinedUsage(rs[..|rs| - 1], i);
      if !LastJoins(rs) then sum else
        Usage(sum.input + rs[n].usage.input, sum.output + rs[n].usage.output,
              sum.cacheCreation + rs[n].usage.cacheCreation, sum.cacheRead + rs[n].usage.cacheRead)
  }

  /** The time of the last of them. */
  ghost function JoinedLast(rs: seq<Record>, i: nat): Option<int> {
    if |rs| <= i + 1 then None
    else if LastJoins(rs) then rs[|rs| - 1].timestamp
    else JoinedLast(rs[..|rs| - 1], i)
  }

  /** The turn the user's message `i` has opened, once it is over; nothing when it used no tokens, began at no known
      time, or ended before it began. */
  ghost function TurnFrom(rs: seq<Record>, i: nat, aborted: bool): seq<Turn>
    requires i < |rs|
  {
    var start, end, used := rs[i].timestamp.GetOr(ZERO_TIME), JoinedLast(rs, i).GetOr(ZERO_TIME), JoinedUsage(rs, i);
    if used == Usage(0, 0, 0, 0) || start == ZERO_TIME || end < start then []
    else [Turn(if rs[i].uuid != "" then rs[i].uuid else rs[i].fallback, aborted, start, end, used)]
  }

  /** The turns the records make: the user's next message aborts the open turn; a record that joins without going on
      with a tool completes it; a timed record with usage that joins no turn is a turn by itself. */
  ghost function TurnsBy(rs: seq<Record>): seq<Turn> {
    if rs == [] then [] else
      var n := |rs| - 1;
      var r, open := rs[n], OpenedAt(rs[..n]);
      TurnsBy(rs[..n]) +
        if Opens(r) then (if open.Some? then TurnFrom(rs[..n], open.value, true) else [])
        else if !LastCounts(rs) || r.timestamp.None? then []
        else if LastJoins(rs) && open.Some? then (if r.continues then [] else TurnFrom(rs, open.value, false))
        else
          var name := if r.id != "" then r.id else if r.uuid != "" then r.uuid else "fallback:" + r.fallback;
          [Turn("internal:" + name, false, r.timestamp.value, r.timestamp.value, r.usage)]
  }

  ghost function OpenBy(rs: seq<Record>): Option<Open> {
    match OpenedAt(rs)
    case None => None
    case Some(i) =>
      Some(Open(if rs[i].uuid != "" then rs[i].uuid else rs[i].fallback, rs[i].timestamp.GetOr(ZERO_TIME),
                JoinedLast(rs, i).GetOr(ZERO_TIME), JoinedUsage(rs, i)))
  }

  lemma CountsIsLastCounts(rs: seq<Record>, day: int -> string)
    requires rs != []
    ensures Counts(Read(rs[..|rs| - 1], day), rs[|rs| - 1]) <==> LastCounts(rs)
  {
    hide Read;
    var n := |rs| - 1;
    SeenIsMet(rs[..n], day, rs[n].id);
    assert forall j :: 0 <= j < n ==> rs[..n][j] == rs[j];
  }

  /** Reading a transcript makes exactly these turns. */
  lemma {:induction false} TurnsAreRead(rs: seq<Record>, day: int -> string)
    ensures Read(rs, day).turns == TurnsBy(rs) && Read(rs, day).active == OpenBy(rs)
  {
    if rs != [] {
      var n := |rs| - 1;
      TurnsAreRead(rs[..n], day);
      CountsIsLastCounts(rs, day);
      hide Read, LastCounts, Counts;
      TurnsStep(Read(rs[..n], day), rs, day);
    }
  }

  lemma {:induction false} TurnsStep(a: Account, rs: seq<Record>, day: int -> string)
    requires rs != [] && (Counts(a, rs[|rs| - 1]) <==> LastCounts(rs))
    requires a.turns == TurnsBy(rs[..|rs| - 1]) && a.active == OpenBy(rs[..|rs| - 1])
    ensures var after := Add(a, rs[|rs| - 1], day); after.turns == TurnsBy(rs) && after.active == OpenBy(rs)
  {
    hide LastCounts, Add, Counts;
    var r := rs[|rs| - 1];
    if Opens(r) {
      OpeningStep(a, rs, day);
    } else if !LastCounts(rs) {
      IdleStep(a, rs, day);
    } else if LastJoins(rs) && a.active.Some? {
      JoiningStep(a, rs, day);
    } else {
      InternalStep(a, rs, day);
    }
  }

  lemma {:induction false} OpeningStep(a: Account, rs: seq<Record>, day: int -> string)
    requires rs != [] && Opens(rs[|rs| - 1])
    requires a.turns == TurnsBy(rs[..|rs| - 1]) && a.active == OpenBy(rs[..|rs| - 1])
    ensures var after := Add(a, rs[|rs| - 1], day); after.turns == TurnsBy(rs) && after.active == OpenBy(rs)
  {
    hide LastCounts, LastJoins, AddUsage;
    assert !rs[|rs| - 1].Real();
  }

  lemma {:induction false} IdleStep(a: Account, rs: seq<Record>, day: int -> string)
    requires rs != [] && !Opens(rs[|rs| - 1]) && !LastCounts(rs) && !Counts(a, rs[|rs| - 1])
    requires a.turns == TurnsBy(rs[..|rs| - 1]) && a.active == OpenBy(rs[..|rs| - 1])
    ensures var after := Add(a, rs[|rs| - 1], day); after.turns == TurnsBy(rs) && after.active == OpenBy(rs)
  {
    hide LastCounts, Counts, AddUsage, Finish, TurnFrom;
    assert a.turns + [] == a.turns;
  }

  lemma TurnsByLast(rs: seq<Record>)
    requires rs != [] && !Opens(rs[|rs| - 1]) && LastJoins(rs) && OpenedAt(rs[..|rs| - 1]).Some?
    ensures TurnsBy(rs) == TurnsBy(rs[..|rs| - 1]) +
      if rs[|rs| - 1].continues then [] else TurnFrom(rs, OpenedAt(rs[..|rs| - 1]).value, false)
  {
    hide TurnFrom, LastCounts;
  }

  lemma {:induction false} JoiningStep(a: Account, rs: seq<Record>, day: int -> string)
    requires rs != [] && !Opens(rs[|rs| - 1]) && LastJoins(rs) && Counts(a, rs[|rs| - 1]) && a.active.Some?
    requires a.turns == TurnsBy(rs[..|rs| - 1]) && a.active == OpenBy(rs[..|rs| - 1])
    ensures var after := Add(a, rs[|rs| - 1], day); after.turns == TurnsBy(rs) && after.active == OpenBy(rs)
  {
    hide LastCounts, Counts, AddInternal, BucketOf, InvocationOf, TurnsBy;
    TurnsByLast(rs);
    assert a.turns + [] == a.turns;
  }

  lemma {:induction false} InternalStep(a: Account, rs: seq<Record>, day: int -> string)
    requires rs != [] && !Opens(rs[|rs| - 1]) && LastCounts(rs) && Counts(a, rs[|rs| - 1])
    requires !LastJoins(rs) || a.active.None?
    requires a.turns == TurnsBy(rs[..|rs| - 1]) && a.active == OpenBy(rs[..|rs| - 1])
    ensures var after := Add(a, rs[|rs| - 1], day); after.turns == TurnsBy(rs) && after.active == OpenBy(rs)
  {
    hide LastCounts, Counts, AssignToTurn, Finish, TurnFrom;
    assert a.turns + [] == a.turns;
  }
}
