/** Rewriting the Codex configuration reaches a fixpoint in one step, and leaves other sections alone. */
module CodexConfigTheorems {
  import opened CodexConfig
  import opened Text

  // ---------------------------------------------------------------- text and lines

  lemma JoinSnoc(ls: seq<string>, line: string)
    requires ls != []
    ensures Join(ls + [line]) == Join(ls) + "\n" + line
  {
    assert (ls + [line])[..|ls|] == ls;
  }

  lemma JoinGrowLast(ls: seq<string>, line: string, c: char)
    ensures Join(ls + [line + [c]]) == Join(ls + [line]) + [c]
  {
    if ls == [] {
      assert ls + [line] == [line] && ls + [line + [c]] == [line + [c]];
    } else {
      JoinSnoc(ls, line);
      JoinSnoc(ls, line + [c]);
      assert Join(ls) + "\n" + (line + [c]) == (Join(ls) + "\n" + line) + [c];
    }
  }

  /** Joining the split text gives the text back. */
  lemma {:induction false} JoinOfSplit(text: string)
    ensures Join(SplitText(text)) == text
  {
    if text != "" {
      hide Join;
      var n := |text| - 1;
      JoinOfSplit(text[..n]);
      var before := SplitText(text[..n]);
      var k := |before| - 1;
      assert text == text[..n] + [text[n]];
      if text[n] == '\n' {
        JoinSnoc(before, "");
        assert text[..n] + "\n" + "" == text;
      } else {
        assert before == before[..k] + [before[k]];
        JoinGrowLast(before[..k], before[k], text[n]);
      }
    }
  }

  lemma {:induction false} SplitUnbroken(text: string)
    ensures Unbroken(SplitText(text))
  {
    if text != "" {
      SplitUnbroken(text[..|text| - 1]);
    }
  }

  lemma {:induction false} SplitOfLine(line: string)
    requires NoBreak(line)
    ensures SplitText(line) == [line]
  {
    if line != "" {
      SplitOfLine(line[..|line| - 1]);
      assert line == line[..|line| - 1] + [line[|line| - 1]];
    }
  }

  lemma {:induction false} SplitAppend(text: string, line: string)
    requires NoBreak(line)
    ensures SplitText(text + "\n" + line) == SplitText(text) + [line]
  {
    var whole := text + "\n" + line;
    var n := |whole| - 1;
    if line == "" {
      assert whole == text + "\n" && whole[..n] == text;
    } else {
      var short := line[..|line| - 1];
      assert whole[..n] == text + "\n" + short;
      SplitAppend(text, short);
      var before := SplitText(text) + [short];
      assert before[..|before| - 1] == SplitText(text);
      assert line == short + [line[|line| - 1]];
    }
  }

  ghost predicate Unbroken(ls: seq<string>) { forall i :: 0 <= i < |ls| ==> NoBreak(ls[i]) }

  /** Splitting joined lines gives the lines back. */
  lemma {:induction false} SplitOfJoin(ls: seq<string>)
    requires ls != [] && Unbroken(ls)
    ensures SplitText(Join(ls)) == ls
  {
    var n := |ls| - 1;
    if n == 0 {
      SplitOfLine(ls[0]);
    } else {
      SplitOfJoin(ls[..n]);
      SplitAppend(Join(ls[..n]), ls[n]);
      assert ls == ls[..n] + [ls[n]];
    }
  }

  lemma LinesOfJoin(ls: seq<string>, x: string)
    requires Unbroken(ls) && x in ls && x != ""
    ensures Lines(Join(ls)) == ls
  {
    SplitOfJoin(ls);
    assert Join(ls) == "" ==> ls == [""];
  }

  lemma JoinOfLines(text: string)
    ensures Join(Lines(text)) == text && Unbroken(Lines(text))
  {
    JoinOfSplit(text);
    SplitUnbroken(text);
  }

  // ---------------------------------------------------------------- normal form

  /** What a reader knows of a rule's sections: whether it is in one, has met one, has met the assignment of the
      current one, and whether everything closed so far was in order. */
  datatype Look = Look(inside: bool, found: bool, done: bool, ok: bool)

  function LookLine(rule: Rule, k: Look, line: string): Look {
    var t := Trim(line);
    if IsHeader(t) then Look(t == rule.header, k.found || t == rule.header, false, k.ok && (k.inside ==> k.done))
    else if !k.inside then k
    else if Assigns(t, rule.key) then Look(true, k.found, true, k.ok && !k.done && line == rule.line)
    else if rule.Drops(t) then k.(ok := false)
    else k
  }

  function LookAt(rule: Rule, ls: seq<string>): Look {
    if ls == [] then Look(false, false, false, true) else LookLine(rule, LookAt(rule, ls[..|ls| - 1]), ls[|ls| - 1])
  }

  /** The rule has a section, and each of its sections has the assignment once, as the rule writes it, and no
      dropped line. */
  predicate Normal(rule: Rule, ls: seq<string>) {
    var k := LookAt(rule, ls);
    k.ok && k.found && (k.inside ==> k.done)
  }

  lemma LookSnoc(rule: Rule, ls: seq<string>, line: string)
    ensures LookAt(rule, ls + [line]) == LookLine(rule, LookAt(rule, ls), line)
  {
    assert (ls + [line])[..|ls|] == ls;
  }

  /** The rule's own lines are read as what they are. */
  predicate Proper(rule: Rule) {
    && Trim(rule.header) == rule.header && IsHeader(rule.header)
    && !IsHeader(Trim(rule.line)) && Assigns(Trim(rule.line), rule.key)
    && !Assigns("", rule.key) && !rule.Drops("")
    && NoBreak(rule.header) && NoBreak(rule.line)
  }

  lemma {:induction false} ScanOfNormal(rule: Rule, ls: seq<string>)
    requires LookAt(rule, ls).ok
    ensures var k := LookAt(rule, ls); Scan(rule, ls) == Pass(ls, k.inside, k.found, k.done)
  {
    hide Trim, IsHeader, Assigns, Rule.Drops;
    if ls != [] {
      assert ls == ls[..|ls| - 1] + [ls[|ls| - 1]];
      ScanOfNormal(rule, ls[..|ls| - 1]);
    }
  }

  /** A pass leaves lines in its normal form alone. */
  lemma EnsureOfNormal(rule: Rule, ls: seq<string>)
    requires Normal(rule, ls)
    ensures Ensure(rule, ls) == ls
  {
    hide Scan, LookAt;
    ScanOfNormal(rule, ls);
  }

  /** What is written so far is in order, and closing it leaves it so. */
  predicate Written(rule: Rule, p: Pass) {
    && LookAt(rule, p.out) == Look(p.inside, p.found, p.done, true)
    && LookAt(rule, Close(rule, p)) == Look(p.inside, p.found, p.done || p.inside, true)
  }

  lemma ReadLineWrites(rule: Rule, p: Pass, line: string)
    requires Proper(rule) && Written(rule, p)
    ensures Written(rule, ReadLine(rule, p, line))
  {
    hide LookAt, Trim, IsHeader, Assigns, Rule.Drops;
    LookSnoc(rule, Close(rule, p), line);
    LookSnoc(rule, p.out, line);
    LookSnoc(rule, p.out, rule.line);
    LookSnoc(rule, ReadLine(rule, p, line).out, rule.line);
  }

  lemma {:induction false} LookAtScan(rule: Rule, ls: seq<string>)
    requires Proper(rule)
    ensures Written(rule, Scan(rule, ls))
  {
    hide ReadLine, Proper;
    if ls != [] {
      LookAtScan(rule, ls[..|ls| - 1]);
      hide Written;
      ReadLineWrites(rule, Scan(rule, ls[..|ls| - 1]), ls[|ls| - 1]);
    }
  }

  lemma LookAtEnd(rule: Rule, out: seq<string>, header: string, line: string)
    ensures LookAt(rule, out + Separator(out) + [header, line]) ==
      LookLine(rule, LookLine(rule,
        if Separator(out) == [] then LookAt(rule, out) else LookLine(rule, LookAt(rule, out), ""), header), line)
  {
    hide LookAt, LookLine, Trim;
    var spaced := out + Separator(out);
    assert spaced + [header, line] == (spaced + [header]) + [line];
    LookSnoc(rule, out, "");
    LookSnoc(rule, spaced, header);
    LookSnoc(rule, spaced + [header], line);
    assert out + [] == out;
  }

  /** A pass reaches its normal form. */
  lemma EnsureIsNormal(rule: Rule, ls: seq<string>)
    requires Proper(rule)
    ensures Normal(rule, Ensure(rule, ls))
  {
    LookAtScan(rule, ls);
    LookAtEnd(rule, Close(rule, Scan(rule, ls)), rule.header, rule.line);
    BlankIsNoHeader();
    hide Trim, IsHeader, Assigns, Rule.Drops, LookAt, Scan, Separator;
  }

  lemma BlankIsNoHeader()
    ensures Trim("") == "" && !IsHeader("")
  {}

  // ---------------------------------------------------------------- passes do not disturb each other

  /** Another pass leaves what a reader of this rule knows as it was, and is never inside its sections. */
  predicate Undisturbed(rule: Rule, k: Look, other: Rule, p: Pass) {
    LookAt(rule, p.out) == k && LookAt(rule, Close(other, p)) == k && !(p.inside && k.inside)
  }

  lemma ReadLineUndisturbed(rule: Rule, k: Look, other: Rule, p: Pass, line: string)
    requires Proper(rule) && Proper(other) && rule.header != other.header && Undisturbed(rule, k, other, p)
    ensures Undisturbed(rule, LookLine(rule, k, line), other, ReadLine(other, p, line))
  {
    hide LookAt, Trim, IsHeader, Assigns, Rule.Drops;
    LookSnoc(rule, Close(other, p), line);
    LookSnoc(rule, p.out, line);
    LookSnoc(rule, p.out, other.line);
    LookSnoc(rule, ReadLine(other, p, line).out, other.line);
  }

  lemma {:induction false} OtherScan(rule: Rule, other: Rule, ls: seq<string>)
    requires Proper(rule) && Proper(other) && rule.header != other.header
    ensures Undisturbed(rule, LookAt(rule, ls), other, Scan(other, ls))
  {
    if ls != [] {
      hide ReadLine, LookLine, Proper, Undisturbed;
      var n := |ls| - 1;
      OtherScan(rule, other, ls[..n]);
      ReadLineUndisturbed(rule, LookAt(rule, ls[..n]), other, Scan(other, ls[..n]), ls[n]);
    }
  }

  /** A pass keeps the normal form of another. */
  lemma EnsureKeepsNormal(rule: Rule, other: Rule, ls: seq<string>)
    requires Proper(rule) && Proper(other) && rule.header != other.header && Normal(rule, ls)
    ensures Normal(rule, Ensure(other, ls))
  {
    OtherScan(rule, other, ls);
    LookAtEnd(rule, Close(other, Scan(other, ls)), other.header, other.line);
    BlankIsNoHeader();
    hide Trim, IsHeader, Assigns, Rule.Drops, LookAt, Scan, Separator;
  }

  lemma {:induction false} RemoveLook(rule: Rule, header: string, ls: seq<string>)
    requires rule.header != header
    ensures var q, k := Remove(header, ls), LookAt(rule, ls);
      var now := LookAt(rule, q.out);
      if q.inside then
        !k.inside && now.found == k.found && (k.ok <==> now.ok && (now.inside ==> now.done))
      else now == k
  {
    hide Trim, IsHeader, Assigns, Rule.Drops;
    if ls != [] {
      var n := |ls| - 1;
      RemoveLook(rule, header, ls[..n]);
      LookSnoc(rule, Remove(header, ls[..n]).out, ls[n]);
    }
  }

  /** Removing sections keeps the normal form of other sections. */
  lemma RemoveKeepsNormal(rule: Rule, header: string, ls: seq<string>)
    requires rule.header != header && Normal(rule, ls)
    ensures Normal(rule, Remove(header, ls).out)
  {
    hide LookAt, Remove;
    RemoveLook(rule, header, ls);
  }

  /** No line is this header. */
  ghost predicate NoHeader(header: string, ls: seq<string>) {
    forall line :: line in ls ==> Trim(line) != header
  }

  lemma {:induction false} RemoveRemoves(header: string, ls: seq<string>)
    requires IsHeader(header)
    ensures NoHeader(header, Remove(header, ls).out)
    ensures forall line :: line in Remove(header, ls).out ==> line in ls
  {
    hide Trim, IsHeader;
    if ls != [] {
      RemoveRemoves(header, ls[..|ls| - 1]);
    }
  }

  lemma {:induction false} RemoveOfNone(header: string, ls: seq<string>)
    requires NoHeader(header, ls)
    ensures Remove(header, ls) == Removal(ls, false)
  {
    hide Trim, IsHeader;
    if ls != [] {
      var n := |ls| - 1;
      assert ls == ls[..n] + [ls[n]];
      RemoveOfNone(header, ls[..n]);
    }
  }

  lemma {:induction false} ScanLines(rule: Rule, ls: seq<string>)
    ensures forall line :: line in Close(rule, Scan(rule, ls)) ==> line in ls || line == rule.line
    ensures forall line :: line in Scan(rule, ls).out ==> line in ls || line == rule.line
  {
    hide Trim, IsHeader, Assigns, Rule.Drops;
    if ls != [] {
      var n := |ls| - 1;
      assert ls == ls[..n] + [ls[n]];
      ScanLines(rule, ls[..n]);
    }
  }

  lemma EnsureLines(rule: Rule, ls: seq<string>)
    ensures forall line :: line in Ensure(rule, ls) ==> line in ls || line in {rule.line, rule.header, ""}
  {
    hide Trim, Scan;
    ScanLines(rule, ls);
  }

  /** A pass brings no removed section back. */
  lemma EnsureKeepsRemoved(rule: Rule, header: string, ls: seq<string>)
    requires Proper(rule) && IsHeader(header) && rule.header != header && NoHeader(header, ls)
    ensures NoHeader(header, Ensure(rule, ls))
  {
    BlankIsNoHeader();
    EnsureLines(rule, ls);
    hide Trim, IsHeader, Ensure, Assigns, Rule.Drops;
  }

  // ---------------------------------------------------------------- on text

  lemma {:induction false} NormalHasLine(rule: Rule, ls: seq<string>)
    requires LookAt(rule, ls).found && Proper(rule)
    ensures exists line :: line in ls && line != ""
  {
    BlankIsNoHeader();
    hide Trim, IsHeader, Assigns, Rule.Drops;
    var n := |ls| - 1;
    assert ls == ls[..n] + [ls[n]];
    if LookAt(rule, ls[..n]).found {
      NormalHasLine(rule, ls[..n]);
      var line :| line in ls[..n] && line != "";
      assert line in ls;
    } else {
      assert ls[n] in ls;
    }
  }

  lemma EnsureTextLines(rule: Rule, text: string)
    requires Proper(rule)
    ensures Lines(EnsureText(rule, text)) == Ensure(rule, Lines(text))
  {
    var ls := Lines(text);
    JoinOfLines(text);
    EnsureLines(rule, ls);
    EnsureIsNormal(rule, ls);
    NormalHasLine(rule, Ensure(rule, ls));
    hide Trim, Ensure, LookAt, Lines, Join;
    var x :| x in Ensure(rule, ls) && x != "";
    forall i | 0 <= i < |Ensure(rule, ls)| ensures NoBreak(Ensure(rule, ls)[i]) {
      var line := Ensure(rule, ls)[i];
      assert line in Ensure(rule, ls);
      UnbrokenIn(ls, line);
    }
    LinesOfJoin(Ensure(rule, ls), x);
  }

  lemma UnbrokenIn(ls: seq<string>, line: string)
    requires Unbroken(ls)
    ensures line in ls ==> NoBreak(line)
    ensures NoBreak("")
  {}

  lemma RemoveTextLines(header: string, text: string, rule: Rule)
    requires Proper(rule) && IsHeader(header) && rule.header != header && Normal(rule, Lines(text))
    ensures Lines(RemoveText(header, text)) == Remove(header, Lines(text)).out
  {
    var ls := Lines(text);
    var out := Remove(header, ls).out;
    JoinOfLines(text);
    RemoveRemoves(header, ls);
    RemoveKeepsNormal(rule, header, ls);
    NormalHasLine(rule, out);
    hide Trim, Remove, LookAt, Lines, Join;
    var x :| x in out && x != "";
    forall i | 0 <= i < |out| ensures NoBreak(out[i]) {
      assert out[i] in out;
      UnbrokenIn(ls, out[i]);
    }
    LinesOfJoin(out, x);
  }

  lemma EndLineLines(text: string)
    requires text != ""
    ensures Lines(EndLine(text)) == Lines(text) || Lines(EndLine(text)) == Lines(text) + [""]
    ensures EndLine(EndLine(text)) == EndLine(text)
  {
    SplitAppend(text, "");
    assert text + "\n" + "" == text + "\n";
  }

  // ---------------------------------------------------------------- the rules of the rewrite

  lemma TrimOfClean(s: string)
    requires s != "" && !IsSpace(s[0]) && !IsSpace(s[|s| - 1])
    ensures Trim(s) == s && Trim(" " + s) == s
  {
    TrimStable(s);
    assert (" " + s)[1..] == s;
  }

  lemma FeaturesProper()
    ensures Proper(FEATURES)
  {
    hide Trim;
    TrimOfClean("[features]");
    TrimOfClean("hooks = true");
    TrimOfClean("= true");
    var rest := " " + "= true";
    assert "hooks = true" == "hooks" + rest;
    assert ("hooks" + rest)[|"hooks"|..] == rest;
  }

  lemma {:induction false} EscapeUnbroken(value: string)
    ensures NoBreak(Escape(value))
  {
    if value != "" {
      EscapeUnbroken(value[..|value| - 1]);
    }
  }

  lemma StateHeaderIsHeader(hookPath: string, event: string)
    ensures var h := StateHeader(hookPath, event);
      IsHeader(h) && Trim(h) == h && NoBreak(h) && h != "[features]"
  {
    var h := StateHeader(hookPath, event);
    hide Trim, Escape;
    EscapeUnbroken(hookPath + ":" + event + ":0:0");
    assert h[0] == '[' && h[1] == 'h' && h[|h| - 1] == ']';
    TrimOfClean(h);
    assert "[features]"[1] == 'f';
  }

  lemma StateRuleProper(hookPath: string, event: string, hash: string)
    requires NoBreak(hash)
    ensures Proper(StateRule(hookPath, event, hash)) && StateRule(hookPath, event, hash).header != FEATURES.header
  {
    hide Trim, StateHeader;
    StateHeaderIsHeader(hookPath, event);
    var value := "= \"" + hash + "\"";
    var line := "trusted_hash = \"" + hash + "\"";
    TrimOfClean(value);
    TrimOfClean(line);
    assert line[|"trusted_hash"|..] == " " + value;
    assert line == "trusted_hash" + (" " + value);
  }

  predicate Plain(s: string) {
    forall i :: 0 <= i < |s| ==> s[i] !in {'\\', '\"', '\n', '\r', '\t'}
  }

  lemma EscapeSnoc(s: string, c: char)
    ensures Escape(s + [c]) == Escape(s) + EscapeChar(c)
  {
    hide EscapeChar;
    assert (s + [c])[..|s|] == s;
  }

  lemma EscapeNothing()
    ensures Escape("") == ""
  {}

  lemma {:induction false} EscapeJoins(a: string, b: string)
    ensures Escape(a + b) == Escape(a) + Escape(b)
  {
    hide Escape, EscapeChar;
    if b == "" {
      EscapeNothing();
      assert a + b == a;
      assert Escape(a) + "" == Escape(a);
    } else {
      var front, c := b[..|b| - 1], b[|b| - 1];
      EscapeJoins(a, front);
      assert b == front + [c];
      assert a + b == (a + front) + [c];
      EscapeSnoc(a + front, c);
      EscapeSnoc(front, c);
      assert (Escape(a) + Escape(front)) + EscapeChar(c) == Escape(a) + (Escape(front) + EscapeChar(c));
    }
  }

  lemma {:induction false} EscapeOfPlain(s: string)
    requires Plain(s)
    ensures Escape(s) == s
  {
    if s != "" {
      EscapeOfPlain(s[..|s| - 1]);
      assert s == s[..|s| - 1] + [s[|s| - 1]];
    }
  }

  /** Different events have different headers. */
  lemma HeadersDiffer(hookPath: string, e: string, f: string)
    requires Plain(e) && Plain(f) && e != f
    ensures StateHeader(hookPath, e) != StateHeader(hookPath, f)
  {
    var head := "[hooks.state.\"" + Escape(hookPath);
    HeaderParts(hookPath, e);
    HeaderParts(hookPath, f);
    var he, hf := StateHeader(hookPath, e), StateHeader(hookPath, f);
    assert he[|head| + 1..|he| - 6] == e;
    assert hf[|head| + 1..|hf| - 6] == f;
  }

  lemma {:induction false} HeaderParts(hookPath: string, e: string)
    requires Plain(e)
    ensures StateHeader(hookPath, e) == ("[hooks.state.\"" + Escape(hookPath)) + ":" + e + ":0:0\"]"
  {
    hide Escape;
    var tail := ":" + e + ":0:0";
    assert Plain(tail);
    assert hookPath + ":" + e + ":0:0" == hookPath + tail;
    EscapeJoins(hookPath, tail);
    EscapeOfPlain(tail);
    assert tail + "\"]" == ":" + e + ":0:0\"]";
  }

  predicate Distinct(events: seq<string>) {
    && (forall e :: e in events ==> Plain(e))
    && (forall i, j :: 0 <= i < j < |events| ==> events[i] != events[j])
  }

  lemma EventsPlain()
    ensures Plain("post_tool_use") && Plain("session_start") && Plain("pre_tool_use") && Plain("stop")
    ensures Plain("user_prompt_submit")
  {}

  lemma EventsDistinct()
    ensures Distinct(RETIRED + EVENTS)
  {
    hide Plain;
    EventsPlain();
    var all := RETIRED + EVENTS;
    assert all == ["post_tool_use", "session_start", "pre_tool_use", "stop", "user_prompt_submit"];
    assert |all[0]| == 13 && |all[1]| == 13 && |all[2]| == 12 && |all[3]| == 4 && |all[4]| == 18;
    assert all[0][0] == 'p' && all[1][0] == 's';
  }
}
