/** The whole rewrite of the Codex configuration: a fixpoint, with the sections it promises, and every other
    line kept in order. */
module CodexConfigFixpoint {
  import opened CodexConfig
  import opened CodexConfigTheorems
  import opened Options
  import opened Text

  // ---------------------------------------------------------------- fixpoint

  ghost predicate HashesUnbroken(hash: string -> string) { forall e :: NoBreak(hash(e)) }

  /** The features are in normal form and every event listed is gone. */
  ghost predicate Cleared(text: string, hookPath: string, gone: seq<string>) {
    && Normal(FEATURES, Lines(text))
    && forall i :: 0 <= i < |gone| ==> NoHeader(StateHeader(hookPath, gone[i]), Lines(text))
  }

  /** Every event listed has its state in normal form. */
  ghost predicate Trusted(text: string, hookPath: string, events: seq<string>, hash: string -> string) {
    forall i :: 0 <= i < |events| ==> Normal(StateRule(hookPath, events[i], hash(events[i])), Lines(text))
  }

  lemma {:induction false} RemoveAllClears(hookPath: string, gone: seq<string>, text: string)
    requires Normal(FEATURES, Lines(text))
    ensures Cleared(RemoveAll(hookPath, gone, text), hookPath, gone)
  {
    hide Normal, Lines, StateHeader, RemoveText, Proper, Remove, NoHeader;
    if gone != [] {
      var n := |gone| - 1;
      var before := RemoveAll(hookPath, gone[..n], text);
      var header := StateHeader(hookPath, gone[n]);
      RemoveAllClears(hookPath, gone[..n], text);
      FeaturesProper();
      StateHeaderIsHeader(hookPath, gone[n]);
      RemoveTextLines(header, before, FEATURES);
      RemoveKeepsNormal(FEATURES, header, Lines(before));
      RemoveRemoves(header, Lines(before));
      forall i | 0 <= i < n
        ensures NoHeader(StateHeader(hookPath, gone[i]), Lines(RemoveAll(hookPath, gone, text)))
      {
        assert gone[..n][i] == gone[i];
        FewerLines(StateHeader(hookPath, gone[i]), Lines(before), Lines(RemoveAll(hookPath, gone, text)));
      }
    }
  }

  lemma FewerLines(header: string, ls: seq<string>, fewer: seq<string>)
    requires NoHeader(header, ls) && forall line :: line in fewer ==> line in ls
    ensures NoHeader(header, fewer)
  {
    hide Trim;
  }

  lemma HeaderApart(hookPath: string, events: seq<string>, i: nat, j: nat)
    requires Distinct(events) && i < |events| && j < |events| && i != j
    ensures StateHeader(hookPath, events[i]) != StateHeader(hookPath, events[j])
  {
    hide StateHeader, Plain;
    HeadersDiffer(hookPath, events[i], events[j]);
  }

  lemma {:induction false} EnsureAllTrusts(
    hookPath: string, gone: seq<string>, events: seq<string>, hash: string -> string, text: string)
    requires Cleared(text, hookPath, gone) && Distinct(gone + events) && HashesUnbroken(hash)
    ensures var after := EnsureAll(hookPath, events, hash, text);
      Cleared(after, hookPath, gone) && Trusted(after, hookPath, events, hash)
  {
    hide Normal, Lines, StateHeader, EnsureText, Proper, Ensure, NoHeader, StateRule, Plain;
    if events != [] {
      var n := |events| - 1;
      var e := events[n];
      var before := EnsureAll(hookPath, events[..n], hash, text);
      var rule := StateRule(hookPath, e, hash(e));
      DistinctPrefix(gone, events);
      EnsureAllTrusts(hookPath, gone, events[..n], hash, text);
      FeaturesProper();
      StateRuleProper(hookPath, e, hash(e));
      RuleHeader(hookPath, e, hash(e));
      EnsureTextLines(rule, before);
      EnsureKeepsNormal(FEATURES, rule, Lines(before));
      EnsureIsNormal(rule, Lines(before));
      var after := EnsureAll(hookPath, events, hash, text);
      assert Lines(after) == Ensure(rule, Lines(before));
      var all := gone + events;
      forall i | 0 <= i < |gone| ensures NoHeader(StateHeader(hookPath, gone[i]), Lines(after)) {
        assert all[i] == gone[i] && all[|gone| + n] == e;
        HeaderApart(hookPath, all, i, |gone| + n);
        StateHeaderIsHeader(hookPath, gone[i]);
        EnsureKeepsRemoved(rule, StateHeader(hookPath, gone[i]), Lines(before));
      }
      forall i | 0 <= i < |events|
        ensures Normal(StateRule(hookPath, events[i], hash(events[i])), Lines(after))
      {
        if i < n {
          assert events[..n][i] == events[i];
          assert all[|gone| + i] == events[i] && all[|gone| + n] == e;
          HeaderApart(hookPath, all, |gone| + i, |gone| + n);
          StateRuleProper(hookPath, events[i], hash(events[i]));
          RuleHeader(hookPath, events[i], hash(events[i]));
          EnsureKeepsNormal(StateRule(hookPath, events[i], hash(events[i])), rule, Lines(before));
        }
      }
    }
  }

  lemma RuleHeader(hookPath: string, event: string, hash: string)
    ensures StateRule(hookPath, event, hash).header == StateHeader(hookPath, event)
  {}

  lemma DistinctPrefix(gone: seq<string>, events: seq<string>)
    requires Distinct(gone + events) && events != []
    ensures Distinct(gone + events[..|events| - 1])
  {
    hide Plain;
    var all, fewer := gone + events, gone + events[..|events| - 1];
    assert forall i :: 0 <= i < |fewer| ==> fewer[i] == all[i];
    forall e | e in fewer ensures Plain(e) { assert e in all; }
  }

  /** A blank line at the end disturbs nothing. */
  lemma BlankKeepsNormal(rule: Rule, ls: seq<string>)
    requires Proper(rule) && Normal(rule, ls)
    ensures Normal(rule, ls + [""])
  {
    BlankIsNoHeader();
    LookSnoc(rule, ls, "");
    hide LookAt, Trim, IsHeader, Assigns, Rule.Drops;
  }

  lemma EndLineKeeps(
    text: string, hookPath: string, gone: seq<string>, events: seq<string>, hash: string -> string)
    requires text != "" && HashesUnbroken(hash)
    requires Cleared(text, hookPath, gone) && Trusted(text, hookPath, events, hash)
    ensures Cleared(EndLine(text), hookPath, gone) && Trusted(EndLine(text), hookPath, events, hash)
  {
    hide Normal, Lines, StateHeader, Proper, StateRule, EndLine, NoHeader, IsHeader;
    EndLineLines(text);
    if Lines(EndLine(text)) != Lines(text) {
      FeaturesProper();
      BlankKeepsNormal(FEATURES, Lines(text));
      forall i | 0 <= i < |gone| ensures NoHeader(StateHeader(hookPath, gone[i]), Lines(EndLine(text))) {
        StateHeaderIsHeader(hookPath, gone[i]);
        BlankKeepsRemoved(StateHeader(hookPath, gone[i]), Lines(text));
      }
      forall i | 0 <= i < |events|
        ensures Normal(StateRule(hookPath, events[i], hash(events[i])), Lines(EndLine(text)))
      {
        StateRuleProper(hookPath, events[i], hash(events[i]));
        BlankKeepsNormal(StateRule(hookPath, events[i], hash(events[i])), Lines(text));
      }
    }
  }

  lemma BlankKeepsRemoved(header: string, ls: seq<string>)
    requires IsHeader(header) && NoHeader(header, ls)
    ensures NoHeader(header, ls + [""])
  {
    BlankIsNoHeader();
    hide Trim;
  }

  /** After the rewrite the features, the events and the retired events are as promised. */
  lemma UpdateCleans(text: string, hookPath: string, hash: string -> string)
    requires HashesUnbroken(hash)
    ensures var after := Update(text, hookPath, hash);
      Cleared(after, hookPath, RETIRED) && Trusted(after, hookPath, EVENTS, hash)
  {
    hide Normal, Lines, EnsureText, EndLine, EnsureAll, RemoveAll, Ensure, Proper, HashesUnbroken, Trusted;
    FeaturesProper();
    EnsureTextLines(FEATURES, text);
    EnsureIsNormal(FEATURES, Lines(text));
    var one := EnsureText(FEATURES, text);
    RemoveAllClears(hookPath, RETIRED, one);
    var two := RemoveAll(hookPath, RETIRED, one);
    EventsDistinct();
    EnsureAllTrusts(hookPath, RETIRED, EVENTS, hash, two);
    var three := EnsureAll(hookPath, EVENTS, hash, two);
    NormalIsText(three);
    EndLineKeeps(three, hookPath, RETIRED, EVENTS, hash);
  }

  lemma NormalIsText(text: string)
    requires Normal(FEATURES, Lines(text))
    ensures text != ""
  {
    hide LookAt;
    FeaturesProper();
    hide Proper;
    NormalHasLine(FEATURES, Lines(text));
  }

  lemma {:induction false} RemoveAllOfCleared(hookPath: string, gone: seq<string>, text: string)
    requires Cleared(text, hookPath, gone)
    ensures RemoveAll(hookPath, gone, text) == text
  {
    hide Normal, Lines, StateHeader, NoHeader;
    if gone != [] {
      var n := |gone| - 1;
      assert forall i :: 0 <= i < n ==> gone[..n][i] == gone[i];
      RemoveAllOfCleared(hookPath, gone[..n], text);
      RemoveOfNone(StateHeader(hookPath, gone[n]), Lines(text));
      JoinOfLines(text);
    }
  }

  lemma {:induction false} EnsureAllOfTrusted(
    hookPath: string, events: seq<string>, hash: string -> string, text: string)
    requires Trusted(text, hookPath, events, hash)
    ensures EnsureAll(hookPath, events, hash, text) == text
  {
    hide Normal, Lines, StateRule, Ensure;
    if events != [] {
      var n := |events| - 1;
      assert forall i :: 0 <= i < n ==> events[..n][i] == events[i];
      EnsureAllOfTrusted(hookPath, events[..n], hash, text);
      EnsureOfNormal(StateRule(hookPath, events[n], hash(events[n])), Lines(text));
      JoinOfLines(text);
    }
  }

  /** Rewriting twice is rewriting once, for every text. */
  lemma UpdateIsFixpoint(text: string, hookPath: string, hash: string -> string)
    requires HashesUnbroken(hash)
    ensures var once := Update(text, hookPath, hash); Update(once, hookPath, hash) == once
  {
    var once := Update(text, hookPath, hash);
    UpdateCleans(text, hookPath, hash);
    UpdateEndsLine(text, hookPath, hash);
    EnsureOfNormal(FEATURES, Lines(once));
    JoinOfLines(once);
    RemoveAllOfCleared(hookPath, RETIRED, once);
    EnsureAllOfTrusted(hookPath, EVENTS, hash, once);
    hide Normal, Lines, Ensure, EnsureAll, RemoveAll;
  }

  /** The rewritten text ends with a line break. */
  lemma UpdateEndsLine(text: string, hookPath: string, hash: string -> string)
    ensures var once := Update(text, hookPath, hash);
      once != "" && once[|once| - 1] == '\n' && EndLine(once) == once
  {
    hide EnsureAll, RemoveAll, EnsureText;
  }

  // ---------------------------------------------------------------- what the sections hold

  /** A line in square brackets. */
  predicate Bracketed(line: string) {
    var t := Trim(line);
    t != "" && t[0] == '[' && t[|t| - 1] == ']'
  }

  lemma BracketedIs(line: string)
    ensures Bracketed(line) <==> IsHeader(Trim(line))
  {}

  /** The lines up to the next header. */
  function Until(ls: seq<string>): seq<string>
    decreases |ls|
  {
    if ls == [] || Bracketed(ls[0]) then [] else [ls[0]] + Until(ls[1..])
  }

  /** The body of the section whose header is line `i`. */
  function Body(ls: seq<string>, i: nat): seq<string>
    requires i < |ls|
  {
    Until(ls[i + 1..])
  }

  /** The line sets the key: the key, white space, an equals sign. */
  ghost predicate Sets(line: string, key: string) {
    exists gap, rest :: White(gap) && Trim(line) == key + gap + "=" + rest
  }

  lemma AssignsIsSets(line: string, key: string)
    ensures Assigns(Trim(line), key) <==> Sets(line, key)
  {
    hide Trim;
    var t := Trim(line);
    if Assigns(t, key) {
      var after := t[|key|..];
      var gap, end := TrimCuts(after);
      assert t == key + gap + "=" + (Trim(after)[1..] + end);
    }
    if gap, rest :| White(gap) && t == key + gap + "=" + rest {
      assert t[|key|..] == gap + "=" + rest;
      TrimOfAssigned(gap, rest);
    }
  }

  lemma {:induction false} SkipsGap(gap: string, rest: string)
    requires White(gap)
    ensures TrimLeft(gap + "=" + rest) == "=" + rest
  {
    hide IsSpace, IsWhite;
    EqualsIsNotWhite();
    SpaceIsWhite((gap + "=" + rest)[0]);
    if gap != "" {
      assert (gap + "=" + rest)[1..] == gap[1..] + "=" + rest;
      SkipsGap(gap[1..], rest);
    }
  }

  lemma TrimOfAssigned(gap: string, rest: string)
    requires White(gap)
    ensures "=" <= Trim(gap + "=" + rest)
  {
    hide TrimLeft, TrimRight, IsWhite;
    SkipsGap(gap, rest);
    TrimRightCuts("=" + rest);
    EqualsIsNotWhite();
    assert !White("=" + rest) by {
      assert ("=" + rest)[0] == '=';
    }
    assert ("=" + rest)[0..] == "=" + rest;
  }

  lemma EqualsIsNotWhite()
    ensures !IsWhite('=')
  {}

  ghost function AssignmentsIn(key: string, body: seq<string>): seq<string> {
    if body == [] then [] else
      AssignmentsIn(key, body[..|body| - 1]) + if Sets(body[|body| - 1], key) then [body[|body| - 1]] else []
  }

  function LastHeader(ls: seq<string>): (h: int)
    ensures -1 <= h < |ls|
  {
    if ls == [] then -1 else if IsHeader(Trim(ls[|ls| - 1])) then |ls| - 1 else LastHeader(ls[..|ls| - 1])
  }

  ghost predicate HeaderFree(ls: seq<string>) {
    forall k :: 0 <= k < |ls| ==> !IsHeader(Trim(ls[k]))
  }

  lemma {:induction false} UntilSnoc(ls: seq<string>, line: string)
    ensures Until(ls + [line]) == if HeaderFree(ls) && !IsHeader(Trim(line)) then Until(ls) + [line] else Until(ls)
    decreases |ls|
  {
    hide Trim, IsHeader, Bracketed;
    BracketedIs(line);
    if ls == [] {
      assert [line][1..] == [];
    } else {
      assert (ls + [line])[1..] == ls[1..] + [line];
      BracketedIs(ls[0]);
      UntilSnoc(ls[1..], line);
      assert forall k :: 0 < k < |ls| ==> ls[1..][k - 1] == ls[k];
      assert HeaderFree(ls) <==> !IsHeader(Trim(ls[0])) && HeaderFree(ls[1..]);
    }
  }

  lemma {:induction false} LastHeaderIs(ls: seq<string>)
    ensures -1 <= LastHeader(ls) < |ls|
    ensures LastHeader(ls) >= 0 ==> IsHeader(Trim(ls[LastHeader(ls)]))
    ensures forall k :: LastHeader(ls) < k < |ls| ==> !IsHeader(Trim(ls[k]))
  {
    hide Trim, IsHeader;
    if ls != [] {
      LastHeaderIs(ls[..|ls| - 1]);
    }
  }

  lemma TailIsHeaderFree(ls: seq<string>, i: nat)
    requires i < |ls| && IsHeader(Trim(ls[i]))
    ensures HeaderFree(ls[i + 1..]) <==> i == LastHeader(ls)
  {
    hide Trim, IsHeader;
    LastHeaderIs(ls);
    var tail, j := ls[i + 1..], LastHeader(ls);
    if i == j {
      assert forall k :: 0 <= k < |tail| ==> tail[k] == ls[i + 1 + k];
    } else {
      assert tail[j - i - 1] == ls[j];
    }
  }

  lemma BodySnoc(ls: seq<string>, line: string, i: nat)
    requires i < |ls| && IsHeader(Trim(ls[i]))
    ensures Body(ls + [line], i) ==
      if i == LastHeader(ls) && !IsHeader(Trim(line)) then Body(ls, i) + [line] else Body(ls, i)
  {
    hide Trim, IsHeader, HeaderFree, Until, LastHeader;
    TailIsHeaderFree(ls, i);
    assert (ls + [line])[i + 1..] == ls[i + 1..] + [line];
    UntilSnoc(ls[i + 1..], line);
  }

  /** What a rule's section body holds: its assignment, once it is there, and nothing dropped. */
  ghost predicate Holds(rule: Rule, body: seq<string>, done: bool) {
    && AssignmentsIn(rule.key, body) == (if done then [rule.line] else [])
    && forall line :: line in body ==> Assigns(Trim(line), rule.key) || !rule.Drops(Trim(line))
  }

  ghost predicate SectionsHold(rule: Rule, ls: seq<string>) {
    forall i :: 0 <= i < |ls| && Trim(ls[i]) == rule.header ==>
      Holds(rule, Body(ls, i), i != LastHeader(ls) || LookAt(rule, ls).done)
  }

  lemma {:induction false} LookKnowsSections(rule: Rule, ls: seq<string>)
    requires Proper(rule) && LookAt(rule, ls).ok
    ensures SectionsHold(rule, ls)
    ensures LookAt(rule, ls).inside <==> LastHeader(ls) >= 0 && Trim(ls[LastHeader(ls)]) == rule.header
  {
    hide Trim, IsHeader, Assigns, Rule.Drops, Holds, Body;
    LastHeaderIs(ls);
    if ls != [] {
      var n := |ls| - 1;
      var before, line := ls[..n], ls[n];
      assert ls == before + [line];
      LookSnoc(rule, before, line);
      LookKnowsSections(rule, before);
      LastHeaderIs(before);
      forall i | 0 <= i < |ls| && Trim(ls[i]) == rule.header
        ensures Holds(rule, Body(ls, i), i != LastHeader(ls) || LookAt(rule, ls).done)
      {
        if i == n {
          NewSection(rule, ls);
        } else {
          assert ls[i] == before[i];
          BodySnoc(before, line, i);
          if i == LastHeader(before) && !IsHeader(Trim(line)) {
            HoldsSnoc(rule, Body(before, i), LookAt(rule, before), line);
          }
        }
      }
    }
  }

  lemma NewSection(rule: Rule, ls: seq<string>)
    requires ls != [] && IsHeader(Trim(ls[|ls| - 1]))
    ensures Holds(rule, Body(ls, |ls| - 1), false) && !LookAt(rule, ls).done && LastHeader(ls) == |ls| - 1
  {
    hide Trim, IsHeader, Assigns, Rule.Drops;
  }

  lemma HoldsSnoc(rule: Rule, body: seq<string>, k: Look, line: string)
    requires Holds(rule, body, k.done) && k.inside && !IsHeader(Trim(line)) && LookLine(rule, k, line).ok
    ensures Holds(rule, body + [line], LookLine(rule, k, line).done)
  {
    hide Trim, IsHeader, Assigns, Rule.Drops, Sets;
    AssignsIsSets(line, rule.key);
    assert (body + [line])[..|body|] == body;
  }

  /** In normal form every section of the rule has exactly its one assignment. */
  lemma NormalSections(rule: Rule, ls: seq<string>, i: nat)
    requires Proper(rule) && Normal(rule, ls) && i < |ls| && Trim(ls[i]) == rule.header
    ensures Holds(rule, Body(ls, i), true)
  {
    hide LookAt, Holds, Trim, IsHeader;
    LookKnowsSections(rule, ls);
    LastHeaderIs(ls);
  }

  /** The header of an event's section, as TOML quotes it. */
  function Quoted(hookPath: string, event: string): string {
    "[hooks.state.\"" + Escape(hookPath + ":" + event + ":0:0") + "\"]"
  }

  lemma DropsNothing(rule: Rule, body: seq<string>, line: string)
    requires Holds(rule, body, true) && line in body
    ensures rule == FEATURES ==> !Sets(line, "codex_hooks")
    ensures rule.key == "trusted_hash" && rule.dropped == Exactly("enabled = false") ==> Trim(line) != "enabled = false"
  {
    hide Trim, AssignmentsIn, Sets;
    AssignsIsSets(line, "codex_hooks");
    EnabledIsNoHash();
    assert "codex_hooks"[0] != "hooks"[0];
  }

  /** After the rewrite each features section has the single assignment `hooks = true` and not the old name of that
      flag, each Gesta section its single trusted hash and is not disabled, and no retired section is left. */
  lemma UpdateSections(text: string, hookPath: string, hash: string -> string, i: nat, e: string)
    requires HashesUnbroken(hash) && i < |Lines(Update(text, hookPath, hash))|
    ensures var ls := Lines(Update(text, hookPath, hash));
      && (Trim(ls[i]) == "[features]" ==>
            AssignmentsIn("hooks", Body(ls, i)) == ["hooks = true"] &&
            forall line :: line in Body(ls, i) ==> !Sets(line, "codex_hooks"))
      && (e in {"session_start", "pre_tool_use", "stop", "user_prompt_submit"} && Trim(ls[i]) == Quoted(hookPath, e) ==>
            AssignmentsIn("trusted_hash", Body(ls, i)) == ["trusted_hash = \"" + hash(e) + "\""] &&
            forall line :: line in Body(ls, i) ==> Trim(line) != "enabled = false")
      && Trim(ls[i]) != Quoted(hookPath, "post_tool_use")
  {
    hide Update, Lines, Normal, Body, AssignmentsIn, Trim, Proper, Escape, Sets, Holds;
    var ls := Lines(Update(text, hookPath, hash));
    UpdateCleans(text, hookPath, hash);
    FeaturesProper();
    if Trim(ls[i]) == "[features]" {
      SectionHolds(FEATURES, ls, i);
    }
    if e in EVENTS && Trim(ls[i]) == Quoted(hookPath, e) {
      var k :| 0 <= k < |EVENTS| && EVENTS[k] == e;
      StateRuleProper(hookPath, e, hash(e));
      SectionHolds(StateRule(hookPath, e, hash(e)), ls, i);
    }
    assert RETIRED[0] == "post_tool_use" && ls[i] in ls;
  }

  lemma SectionHolds(rule: Rule, ls: seq<string>, i: nat)
    requires Proper(rule) && Normal(rule, ls) && i < |ls| && Trim(ls[i]) == rule.header
    ensures AssignmentsIn(rule.key, Body(ls, i)) == [rule.line]
    ensures rule == FEATURES ==> forall line :: line in Body(ls, i) ==> !Sets(line, "codex_hooks")
    ensures rule.key == "trusted_hash" && rule.dropped == Exactly("enabled = false") ==>
      forall line :: line in Body(ls, i) ==> Trim(line) != "enabled = false"
  {
    NormalSections(rule, ls, i);
    hide Normal, Body, AssignmentsIn, Trim, Proper, Sets;
    forall line | line in Body(ls, i)
      ensures rule == FEATURES ==> !Sets(line, "codex_hooks")
      ensures rule.key == "trusted_hash" && rule.dropped == Exactly("enabled = false") ==>
        Trim(line) != "enabled = false"
    {
      DropsNothing(rule, Body(ls, i), line);
    }
  }

  lemma {:induction false} FoundIsThere(rule: Rule, ls: seq<string>)
    requires LookAt(rule, ls).found
    ensures exists i :: 0 <= i < |ls| && Trim(ls[i]) == rule.header
  {
    hide Trim, IsHeader, Assigns, Rule.Drops;
    if ls != [] {
      var n := |ls| - 1;
      if LookAt(rule, ls[..n]).found {
        FoundIsThere(rule, ls[..n]);
        var i :| 0 <= i < n && Trim(ls[..n][i]) == rule.header;
        assert Trim(ls[i]) == rule.header;
      }
    }
  }

  /** And those sections are there, one at least for the features and for each event. */
  lemma UpdateHasSections(text: string, hookPath: string, hash: string -> string, e: string)
    requires HashesUnbroken(hash) && e in {"session_start", "pre_tool_use", "stop", "user_prompt_submit"}
    ensures var ls := Lines(Update(text, hookPath, hash));
      && (exists i :: 0 <= i < |ls| && Trim(ls[i]) == "[features]")
      && (exists i :: 0 <= i < |ls| && Trim(ls[i]) == Quoted(hookPath, e))
  {
    hide Update, Lines, Trim, LookAt, Escape;
    var ls := Lines(Update(text, hookPath, hash));
    UpdateCleans(text, hookPath, hash);
    FoundIsThere(FEATURES, ls);
    assert EVENTS[0] == "session_start" && EVENTS[1] == "pre_tool_use" && EVENTS[2] == "stop" &&
      EVENTS[3] == "user_prompt_submit";
    var k :| 0 <= k < |EVENTS| && EVENTS[k] == e;
    FoundIsThere(StateRule(hookPath, e, hash(e)), ls);
  }

  lemma {:induction false} ScanOfOthers(rule: Rule, ls: seq<string>)
    requires forall line :: line in ls ==> Trim(line) != rule.header
    ensures Scan(rule, ls) == Pass(ls, false, false, false)
  {
    hide Trim, IsHeader, Assigns, Rule.Drops;
    if ls != [] {
      ScanOfOthers(rule, ls[..|ls| - 1]);
      assert ls == ls[..|ls| - 1] + [ls[|ls| - 1]];
    }
  }

  /** A section that is missing is added at the end, after a blank line unless there is one; nothing else changes. */
  lemma MissingSectionIsAdded(rule: Rule, ls: seq<string>)
    requires forall line :: line in ls ==> Trim(line) != rule.header
    ensures Ensure(rule, ls) ==
      ls + (if ls == [] || White(ls[|ls| - 1]) then [] else [""]) + [rule.header, rule.line]
  {
    hide Trim, IsWhite;
    ScanOfOthers(rule, ls);
    if ls != [] {
      var before, after := TrimCuts(ls[|ls| - 1]);
      assert Trim(ls[|ls| - 1]) != "" ==> ls[|ls| - 1][|before|] == Trim(ls[|ls| - 1])[0];
    }
  }

  // ---------------------------------------------------------------- quoting

  /** What a TOML basic string stands for; None for text that is not one. */
  function Unescape(s: string): Option<string>
    decreases |s|
  {
    if s == "" then Some("")
    else if s[0] in {'\"', '\n', '\r', '\t'} then None
    else if s[0] != '\\' then
      var rest := Unescape(s[1..]);
      if rest.None? then None else Some([s[0]] + rest.value)
    else if |s| == 1 then None
    else
      var rest := Unescape(s[2..]);
      if rest.None? then None
      else match s[1]
        case '\\' => Some("\\" + rest.value)
        case '\"' => Some("\"" + rest.value)
        case 'n' => Some("\n" + rest.value)
        case 'r' => Some("\r" + rest.value)
        case 't' => Some("\t" + rest.value)
        case _ => None
  }

  lemma UnescapePair(x: char, rest: string)
    requires x in {'\\', '\"', 'n', 'r', 't'} && Unescape(rest).Some?
    ensures var c := match x case 'n' => '\n' case 'r' => '\r' case 't' => '\t' case _ => x;
      Unescape("\\" + [x] + rest) == Some([c] + Unescape(rest).value)
  {
    assert ("\\" + [x] + rest)[2..] == rest;
  }

  lemma UnescapeOther(c: char, rest: string)
    requires c !in {'\\', '\"', '\n', '\r', '\t'} && Unescape(rest).Some?
    ensures Unescape([c] + rest) == Some([c] + Unescape(rest).value)
  {
    assert ([c] + rest)[1..] == rest;
  }

  lemma UnescapeChar(c: char, rest: string)
    requires Unescape(rest).Some?
    ensures Unescape(EscapeChar(c) + rest) == Some([c] + Unescape(rest).value)
  {
    hide Unescape;
    match c
    case '\\' =>
      assert EscapeChar(c) == "\\" + ['\\'];
      UnescapePair('\\', rest);
    case '\"' =>
      assert EscapeChar(c) == "\\" + ['\"'];
      UnescapePair('\"', rest);
    case '\n' =>
      assert EscapeChar(c) == "\\" + ['n'];
      UnescapePair('n', rest);
    case '\r' =>
      assert EscapeChar(c) == "\\" + ['r'];
      UnescapePair('r', rest);
    case '\t' =>
      assert EscapeChar(c) == "\\" + ['t'];
      UnescapePair('t', rest);
    case _ => UnescapeOther(c, rest);
  }

  lemma {:induction false} UnescapeJoined(value: string, rest: string)
    requires Unescape(rest).Some?
    ensures Unescape(Escape(value) + rest) == Some(value + Unescape(rest).value)
  {
    hide EscapeChar, Unescape;
    if value == "" {
      assert "" + rest == rest && "" + Unescape(rest).value == Unescape(rest).value;
    } else {
      var n := |value| - 1;
      UnescapeChar(value[n], rest);
      UnescapeJoined(value[..n], EscapeChar(value[n]) + rest);
      assert Escape(value[..n]) + (EscapeChar(value[n]) + rest) == Escape(value) + rest;
      assert value == value[..n] + [value[n]];
      assert value[..n] + ([value[n]] + Unescape(rest).value) == value + Unescape(rest).value;
    }
  }

  /** Quoting is undone by reading it as TOML does, so different names get different headers. */
  lemma UnescapeInverts(value: string)
    ensures Unescape(Escape(value)) == Some(value)
  {
    UnescapeJoined(value, "");
    assert Unescape("") == Some("");
    assert Escape(value) + "" == Escape(value) && value + "" == value;
  }
}
