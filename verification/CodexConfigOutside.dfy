/** The rewrite of the Codex configuration keeps every line outside its own sections, in order. */
module CodexConfigOutside {
  import opened CodexConfig
  import opened CodexConfigTheorems
  import opened CodexConfigFixpoint
  import opened Text

  /** The lines outside the sections under `own` headers, and whether the end lies outside them. */
  datatype Rest = Rest(kept: seq<string>, outside: bool)

  function RestLine(own: set<string>, r: Rest, line: string): Rest {
    var t := Trim(line);
    var outside := if IsHeader(t) then t !in own else r.outside;
    Rest(if outside then r.kept + [line] else r.kept, outside)
  }

  function Outside(own: set<string>, ls: seq<string>): Rest {
    if ls == [] then Rest([], true) else RestLine(own, Outside(own, ls[..|ls| - 1]), ls[|ls| - 1])
  }

  lemma OutsideSnoc(own: set<string>, ls: seq<string>, line: string)
    ensures Outside(own, ls + [line]) == RestLine(own, Outside(own, ls), line)
  {
    assert (ls + [line])[..|ls|] == ls;
  }

  // ---------------------------------------------------------------- a pass over its own sections

  /** What the pass has written has the same lines outside as what it has read. */
  predicate Agrees(own: set<string>, r: Rest, rule: Rule, p: Pass) {
    Outside(own, p.out) == r && Outside(own, Close(rule, p)) == r && !(p.inside && r.outside)
  }

  lemma ReadLineAgrees(own: set<string>, r: Rest, rule: Rule, p: Pass, line: string)
    requires Proper(rule) && rule.header in own && Agrees(own, r, rule, p)
    ensures Agrees(own, RestLine(own, r, line), rule, ReadLine(rule, p, line))
  {
    hide Outside, Trim, IsHeader, Assigns, Rule.Drops;
    OutsideSnoc(own, Close(rule, p), line);
    OutsideSnoc(own, p.out, line);
    OutsideSnoc(own, p.out, rule.line);
    OutsideSnoc(own, ReadLine(rule, p, line).out, rule.line);
  }

  lemma {:induction false} ScanAgrees(own: set<string>, rule: Rule, ls: seq<string>)
    requires Proper(rule) && rule.header in own
    ensures Agrees(own, Outside(own, ls), rule, Scan(rule, ls))
  {
    if ls != [] {
      hide ReadLine, RestLine, Proper, Agrees;
      var n := |ls| - 1;
      ScanAgrees(own, rule, ls[..n]);
      ReadLineAgrees(own, Outside(own, ls[..n]), rule, Scan(rule, ls[..n]), ls[n]);
    }
  }

  /** `b` is `a` with blank lines after it. */
  ghost predicate BlanksAfter(a: seq<string>, b: seq<string>) {
    a <= b && forall i :: |a| <= i < |b| ==> b[i] == ""
  }

  /** A pass that owns its sections keeps all lines outside and may set blank lines after them. */
  lemma EnsureKeepsOutside(own: set<string>, rule: Rule, ls: seq<string>)
    requires Proper(rule) && rule.header in own
    ensures BlanksAfter(Outside(own, ls).kept, Outside(own, Ensure(rule, ls)).kept)
  {
    hide Outside, Trim, IsHeader, Assigns, Rule.Drops;
    ScanAgrees(own, rule, ls);
    var out := Close(rule, Scan(rule, ls));
    var spaced := out + Separator(out);
    assert out + [] == out;
    BlankIsNoHeader();
    OutsideSnoc(own, out, "");
    OutsideSnoc(own, spaced, rule.header);
    OutsideSnoc(own, spaced + [rule.header], rule.line);
    assert spaced + [rule.header, rule.line] == (spaced + [rule.header]) + [rule.line];
  }

  /** Removing an own section keeps all lines outside. */
  lemma {:induction false} RemoveKeepsOutside(own: set<string>, header: string, ls: seq<string>)
    requires header in own
    ensures var q, r := Remove(header, ls), Outside(own, ls);
      && Outside(own, q.out).kept == r.kept
      && (if q.inside then !r.outside else Outside(own, q.out).outside == r.outside)
  {
    hide Trim, IsHeader;
    if ls != [] {
      var n := |ls| - 1;
      RemoveKeepsOutside(own, header, ls[..n]);
      OutsideSnoc(own, Remove(header, ls[..n]).out, ls[n]);
    }
  }

  // ---------------------------------------------------------------- the whole rewrite

  /** The sections the rewrite owns. */
  ghost predicate Owns(own: set<string>, hookPath: string, events: seq<string>) {
    forall i :: 0 <= i < |events| ==> StateHeader(hookPath, events[i]) in own
  }

  lemma {:induction false} RemoveAllKeepsOutside(own: set<string>, hookPath: string, gone: seq<string>, text: string)
    requires Normal(FEATURES, Lines(text)) && Owns(own, hookPath, gone)
    ensures Outside(own, Lines(RemoveAll(hookPath, gone, text))).kept == Outside(own, Lines(text)).kept
  {
    hide Normal, Lines, StateHeader, RemoveText, Proper, Remove, Outside, Cleared;
    if gone != [] {
      var n := |gone| - 1;
      var before := RemoveAll(hookPath, gone[..n], text);
      assert forall i :: 0 <= i < n ==> gone[..n][i] == gone[i];
      RemoveAllKeepsOutside(own, hookPath, gone[..n], text);
      RemoveAllClears(hookPath, gone[..n], text);
      assert Normal(FEATURES, Lines(before)) by { ClearedIsNormal(before, hookPath, gone[..n]); }
      FeaturesProper();
      StateHeaderIsHeader(hookPath, gone[n]);
      RemoveTextLines(StateHeader(hookPath, gone[n]), before, FEATURES);
      RemoveKeepsOutside(own, StateHeader(hookPath, gone[n]), Lines(before));
    }
  }

  lemma ClearedIsNormal(text: string, hookPath: string, gone: seq<string>)
    requires Cleared(text, hookPath, gone)
    ensures Normal(FEATURES, Lines(text))
  {}

  lemma {:induction false} EnsureAllKeepsOutside(
    own: set<string>, hookPath: string, events: seq<string>, hash: string -> string, text: string)
    requires Owns(own, hookPath, events) && HashesUnbroken(hash)
    ensures BlanksAfter(Outside(own, Lines(text)).kept,
      Outside(own, Lines(EnsureAll(hookPath, events, hash, text))).kept)
  {
    hide Lines, StateHeader, EnsureText, Proper, Ensure, Outside, StateRule;
    if events != [] {
      var n := |events| - 1;
      var e := events[n];
      var before := EnsureAll(hookPath, events[..n], hash, text);
      assert forall i :: 0 <= i < n ==> events[..n][i] == events[i];
      EnsureAllKeepsOutside(own, hookPath, events[..n], hash, text);
      StateRuleProper(hookPath, e, hash(e));
      RuleHeader(hookPath, e, hash(e));
      EnsureTextLines(StateRule(hookPath, e, hash(e)), before);
      EnsureKeepsOutside(own, StateRule(hookPath, e, hash(e)), Lines(before));
    }
  }

  /** Every line outside the features, Gesta and retired sections survives in order; only blank lines may come
      after the last of them. */
  lemma UpdateKeepsOtherLines(text: string, hookPath: string, hash: string -> string, own: set<string>)
    requires HashesUnbroken(hash)
    requires "[features]" in own && Owns(own, hookPath, RETIRED) && Owns(own, hookPath, EVENTS)
    ensures BlanksAfter(Outside(own, Lines(text)).kept, Outside(own, Lines(Update(text, hookPath, hash))).kept)
  {
    hide Lines, StateHeader, EnsureText, Proper, Ensure, Outside, EnsureAll, RemoveAll, EndLine, Normal, Owns,
      HashesUnbroken, Trusted;
    var one := EnsureText(FEATURES, text);
    FeaturesProper();
    EnsureTextLines(FEATURES, text);
    EnsureKeepsOutside(own, FEATURES, Lines(text));
    EnsureIsNormal(FEATURES, Lines(text));
    RemoveAllKeepsOutside(own, hookPath, RETIRED, one);
    RemoveAllClears(hookPath, RETIRED, one);
    var two := RemoveAll(hookPath, RETIRED, one);
    EnsureAllKeepsOutside(own, hookPath, EVENTS, hash, two);
    EventsDistinct();
    EnsureAllTrusts(hookPath, RETIRED, EVENTS, hash, two);
    var three := EnsureAll(hookPath, EVENTS, hash, two);
    NormalIsText(three);
    EndLineLines(three);
    BlankIsNoHeader();
    BlankOutside(own, Lines(three));
  }

  lemma BlankOutside(own: set<string>, ls: seq<string>)
    ensures BlanksAfter(Outside(own, ls).kept, Outside(own, ls + [""]).kept)
  {
    OutsideSnoc(own, ls, "");
    BlankIsNoHeader();
    hide Outside, Trim, IsHeader;
  }
}
