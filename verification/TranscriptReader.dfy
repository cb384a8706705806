/** The transcript accumulator as it runs, its fields changed record by record. */
module TranscriptReader {
  import opened TranscriptModel
  import opened Options
  import opened Time

  class Accumulator {
    var total: Usage
    var byModelDay: map<Bucket, Usage>
    var invocations: seq<Invocation>
    var turns: seq<Turn>
    var seen: set<string>
    var active: Option<Open>

    ghost function State(): Account
      reads this
    {
      Account(total, byModelDay, invocations, turns, seen, active)
    }

    constructor ()
      ensures State() == NO_ACCOUNT
    {
      total, byModelDay, invocations, turns, seen, active := NO_USAGE, map[], [], [], {}, None;
    }

    method FinishTurn(aborted: bool)
      modifies this
      ensures State() == Finish(old(State()), aborted)
    {
      if active.None? {
        return;
      }
      var o := active.value;
      active := None;
      if o.usage.IsZero() || o.startedAt == ZERO_TIME || o.endedAt < o.startedAt {
        assert turns + [] == turns;
        return;
      }
      turns := turns + [Turn(o.id, aborted, o.startedAt, o.endedAt, o.usage)];
    }

    method StartUserTurn(r: Record)
      requires r.role.User?
      modifies this
      ensures State() == StartTurn(old(State()), r)
    {
      hide Finish;
      if r.isMeta || r.isSidechain {
        return;
      }
      if !r.chat {
        return;
      }
      FinishTurn(true);
      var startedAt := r.timestamp.GetOr(ZERO_TIME);
      var id := r.uuid;
      if id == "" {
        id := r.fallback;
      }
      active := Some(Open(id, startedAt, ZERO_TIME, NO_USAGE));
    }

    method ChargeUsage(r: Record, day: int -> string) returns (added: bool)
      modifies this
      ensures added == !r.usage.IsZero()
      ensures State() == if added then Charge(old(State()), r, day) else old(State())
    {
      if r.usage.IsZero() {
        return false;
      }
      var key := BucketOf(r, day);
      var before := if key in byModelDay then byModelDay[key] else NO_USAGE;
      byModelDay := byModelDay[key := before.Add(r.usage)];
      total := total.Add(r.usage);
      invocations := invocations + [InvocationOf(r, day)];
      added := true;
    }

    method AddAssistantUsage(r: Record, day: int -> string) returns (added: bool)
      requires r.role.Assistant?
      modifies this
      ensures added == Counts(old(State()), r)
      ensures State() == if added then Charge(See(old(State()), r), r, day) else See(old(State()), r)
    {
      hide Charge;
      if r.model == "" || r.model == SYNTHETIC {
        return false;
      }
      if r.id != "" {
        if r.id in seen {
          assert seen + {r.id} == seen;
          return false;
        }
        seen := seen + {r.id};
      }
      added := ChargeUsage(r, day);
    }

    method AddTurnUsage(r: Record) returns (taken: bool)
      requires !r.isMeta && !r.isSidechain
      modifies this
      ensures taken == Assigned(old(State()), r)
      ensures State() == if taken then AssignToTurn(old(State()), r) else old(State())
    {
      hide Finish;
      if r.timestamp.None? {
        return false;
      }
      if active.None? {
        return false;
      }
      var o := active.value;
      active := Some(o.(endedAt := r.timestamp.value, usage := o.usage.Add(r.usage)));
      if !r.continues {
        FinishTurn(false);
      }
      taken := true;
    }

    method AddInternalUsage(r: Record)
      modifies this
      ensures State() == AddInternal(old(State()), r)
    {
      if r.timestamp.None? {
        return;
      }
      var at := r.timestamp.value;
      turns := turns + [Turn(InternalId(r), false, at, at, r.usage)];
    }

    method AddRecord(r: Record, day: int -> string)
      modifies this
      ensures State() == Add(old(State()), r, day)
    {
      hide Charge, AssignToTurn, AddInternal, Finish;
      if r.role.User? {
        StartUserTurn(r);
      }
      if r.role.Assistant? {
        var added := AddAssistantUsage(r, day);
        if added {
          var taken := false;
          if !r.isMeta && !r.isSidechain {
            taken := AddTurnUsage(r);
          }
          if !taken {
            AddInternalUsage(r);
          }
        }
      }
    }
  }

  method ReadTranscript(rs: seq<Record>, day: int -> string) returns (a: Accumulator)
    ensures fresh(a) && a.State() == Read(rs, day)
  {
    hide Add;
    a := new Accumulator();
    var i := 0;
    while i < |rs|
      invariant 0 <= i <= |rs| && fresh(a)
      invariant a.State() == Read(rs[..i], day)
    {
      assert rs[..i + 1][..i] == rs[..i];
      a.AddRecord(rs[i], day);
      i := i + 1;
    }
    assert rs[..i] == rs;
  }
}
