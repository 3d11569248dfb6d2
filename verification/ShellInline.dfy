/** Commands given to a shell as a text: `sh -c` and its kin hide nothing and add nothing of their own
    (internal/policy/shell.go, expandSegments and inlineShellCommand). */
module ShellInline {
  import opened Text
  import opened ShellLexer
  import opened ShellExpand
  import opened ShellRules
  import opened ShellLines
  import opened ShellNames
  import opened ShellVerdicts
  import opened ShellDecisions

  // ---------- lower case stays ----------

  predicate IsLower(s: string) {
    forall c <- s :: LowerChar(c) == c
  }

  predicate AllLower(words: seq<string>) {
    forall word <- words :: IsLower(word)
  }

  predicate LowerScan(st: Scan) {
    IsLower(st.token) && AllLower(st.current.tokens) && forall s <- st.segments :: AllLower(s.tokens)
  }

  lemma FlushedLower(st: Scan, piped: bool)
    requires LowerScan(st)
    ensures LowerScan(st.FlushToken()) && LowerScan(st.FlushSegment(piped))
  {
    assert LowerScan(st.FlushToken());
  }

  lemma AppliedLower(st: Scan, action: Action)
    requires LowerScan(st) && (action.Write? ==> LowerChar(action.c) == action.c)
    ensures LowerScan(Apply(st, action))
  {
    var inked := Ink(st, action).(mode := NextMode(st.mode, action));
    assert LowerScan(inked);
    FlushedLower(inked, action.Cut? && action.piped);
  }

  lemma {:induction false} RunLower(st: Scan, s: string)
    requires LowerScan(st) && IsLower(s)
    ensures LowerScan(Run(st, s))
    decreases |s|
  {
    if |s| > 0 {
      assert s[0] in s && (|s| > 1 ==> s[1] in s);
      AppliedLower(st, Act(st, s[0], LookAhead(s)));
      RunLower(Step(st, s[0], LookAhead(s)), s[Width(st, s[0], LookAhead(s))..]);
    }
  }

  /** The words of a text in lower case are in lower case. */
  lemma {:induction false} LexedLower(text: string)
    requires IsLower(text)
    ensures forall s <- Lex(text) :: AllLower(s.tokens)
    decreases if HasQuote(text) then 1 else 0
  {
    RunLower(INITIAL, text);
    FlushedLower(Run(INITIAL, text), false);
    if Run(INITIAL, text).FlushSegment(false).mode.QuoteOpen() {
      if !HasQuote(text) { RunWithoutQuotes(INITIAL, text); }
      assert IsLower(StripQuotes(text));
      LexedLower(StripQuotes(text));
    }
  }

  lemma {:induction false} JoinedLower(words: seq<string>)
    requires AllLower(words)
    ensures IsLower(Join(words))
    decreases |words|
  {
    if |words| > 0 { assert words[0] in words; }
    if |words| > 1 { JoinedLower(words[1..]); }
  }

  lemma {:induction false} InlineLower(words: seq<string>)
    requires AllLower(words) && Inline(words).Some?
    ensures AllLower(Inline(words).value)
  {
    InlineIsPart(IsShell, words);
  }

  lemma {:induction false} BehindIsPart(words: seq<string>)
    requires BehindInline(words).Some?
    ensures forall word <- BehindInline(words).value :: word in words
    decreases |words|
  {
    if !IsInlineOption(words[0]) { BehindIsPart(words[1..]); }
  }

  lemma {:induction false} InlineIsPart(shell: string -> bool, words: seq<string>)
    requires InlineBy(shell, words).Some?
    ensures forall word <- InlineBy(shell, words).value :: word in words
    decreases |words|
  {
    if shell(words[0]) && BehindInline(words[1..]).Some? {
      BehindIsPart(words[1..]);
    } else {
      InlineIsPart(shell, words[1..]);
    }
  }

  lemma LowerIsLower(text: string)
    ensures IsLower(Lower(text)) && (IsLower(text) ==> Lower(text) == text)
  {
    forall c <- Lower(text) ensures LowerChar(c) == c {
      var i :| 0 <= i < |text| && Lower(text)[i] == c;
    }
    if IsLower(text) {
      forall i | 0 <= i < |text| ensures Lower(text)[i] == text[i] { assert text[i] in text; }
    }
  }

  /** A command's `sh -c` text, if it has one. */
  function InlineText(s: Segment): string {
    match Inline(s.tokens)
    case None => ""
    case Some(rest) => Join(rest)
  }

  lemma InlineTextIsLower(text: string, s: Segment)
    requires s in Lex(Lower(text))
    ensures Lower(InlineText(s)) == InlineText(s)
  {
    LowerIsLower(text);
    LexedLower(Lower(text));
    if Inline(s.tokens).Some? {
      InlineLower(s.tokens);
      JoinedLower(Inline(s.tokens).value);
    }
    LowerIsLower(InlineText(s));
  }

  // ---------- what an expansion consists of ----------

  lemma {:induction false} ExpandMembers(reader: Reader, segments: seq<Segment>, depth: nat, r: Segment)
    ensures r in Expand(reader, segments, depth) <==> exists s <- segments :: r in Unfold(reader, s, depth)
    decreases |segments|
  {
    if |segments| > 0 {
      var rest := segments[1..];
      ExpandMembers(reader, rest, depth, r);
      assert segments == [segments[0]] + rest;
      assert forall s <- rest :: s in segments;
      assert segments[0] in segments;
      assert Expand(reader, segments, depth) == Unfold(reader, segments[0], depth) + Expand(reader, rest, depth);
    }
  }

  lemma {:induction false} NestingOf(reader: Reader, segments: seq<Segment>, n: nat, s: Segment)
    requires Shrinks(reader) && Within(segments, n) && s in segments && reader.inline(s.tokens) != ""
    ensures var inline := reader.inline(s.tokens);
      |inline| < n && Within(Lex(inline), |inline|) && Nesting(reader, Lex(inline), |inline|) < Nesting(reader, segments, n)
    decreases |segments|
  {
    FirstOfNesting(reader, segments, n);
    if segments[0] != s { NestingOf(reader, segments[1..], n, s); }
  }

  /** One level down it is the same, up to the limit, and past it something stays unresolved. */
  lemma OneDeeper(reader: Reader, segments: seq<Segment>, n: nat)
    requires Shrinks(reader) && Within(segments, n)
    ensures Nesting(reader, segments, n) < 8 ==> Expand(reader, segments, 1) == Expand(reader, segments, 0)
    ensures Expand(reader, segments, 1) == Expand(reader, segments, 0) || UNRESOLVED in Expand(reader, segments, 1)
  {
    ExpandMeetsLimit(reader, segments, n, 0);
    ExpandMeetsLimit(reader, segments, n, 1);
  }

  /** The segments of a command: its own, and those of its inline text. */
  lemma UnfoldMembers(reader: Reader, s: Segment, r: Segment)
    ensures r in Unfold(reader, s, 0) <==>
      r == Resolved(reader, s)
      || (reader.inline(s.tokens) != "" && r in Expand(reader, Lex(reader.inline(s.tokens)), 1))
  {
  }

  /** What a command is analysed into. */
  function PartsOf(policy: Policy, s: Segment): seq<Segment> {
    var inline := policy.reader.inline(s.tokens);
    [Resolved(policy.reader, s)] + if inline == "" then [] else policy.Analyze(inline)
  }

  lemma PartsAre(policy: Policy, s: Segment, r: Segment)
    requires Lower(policy.reader.inline(s.tokens)) == policy.reader.inline(s.tokens)
    requires
      var inner := Lex(policy.reader.inline(s.tokens));
      policy.reader.inline(s.tokens) != "" ==> Expand(policy.reader, inner, 1) == Expand(policy.reader, inner, 0)
    ensures r in Unfold(policy.reader, s, 0) <==> r in PartsOf(policy, s)
  {
    UnfoldMembers(policy.reader, s, r);
  }

  /** Unless `sh -c` texts are nested too deep, commands are analysed into themselves and what their inline
      texts are analysed into. */
  lemma AnalysisMembers(policy: Policy, segments: seq<Segment>, n: nat, r: Segment)
    requires Shrinks(policy.reader) && Within(segments, n) && Nesting(policy.reader, segments, n) <= 8
    requires forall s <- segments :: Lower(policy.reader.inline(s.tokens)) == policy.reader.inline(s.tokens)
    requires r in Expand(policy.reader, segments, 0)
    ensures exists s <- segments :: r in PartsOf(policy, s)
  {
    var reader := policy.reader;
    ExpandMembers(reader, segments, 0, r);
    var s :| s in segments && r in Unfold(reader, s, 0);
    var inline := reader.inline(s.tokens);
    if inline != "" {
      NestingOf(reader, segments, n, s);
      OneDeeper(reader, Lex(inline), |inline|);
    }
    PartsAre(policy, s, r);
  }

  // ---------- decisions ----------

  lemma MoreApplies(items: seq<string>, profile: string, part: seq<Segment>, all: seq<Segment>)
    requires SomethingApplies(items, profile, part) && forall s <- part :: s in all
    ensures SomethingApplies(items, profile, all)
  {
  }

  lemma UnresolvedApplies(items: seq<string>, profile: string, all: seq<Segment>)
    requires UNRESOLVED in all
    ensures SomethingApplies(items, profile, all)
  {
    assert Indirect(UNRESOLVED);
    assert IsDangerous(UNRESOLVED);
  }

  /** What is denied as a text of its own is denied as the `sh -c` text of any command. */
  lemma InlineIsNotHidden(items: seq<string>, policy: Policy, profile: string, text: string, s: Segment, inline: string)
    requires DecidesByRules(policy, items) && Shrinks(policy.reader)
    requires s in Lex(Lower(text)) && policy.reader.inline(s.tokens) == inline != "" && Lower(inline) == inline
    requires policy.Denies(profile, inline)
    ensures policy.Denies(profile, text)
  {
    var reader, all := policy.reader, policy.Analyze(text);
    TextIsDeniedIff(items, policy, profile, inline);
    TextIsDeniedIff(items, policy, profile, text);
    SegmentNeverLonger(inline);
    OneDeeper(reader, Lex(inline), |inline|);
    forall r | r in Expand(reader, Lex(inline), 1) ensures r in all {
      UnfoldMembers(reader, s, r);
      ExpandMembers(reader, Lex(Lower(text)), 0, r);
    }
    if UNRESOLVED in Expand(reader, Lex(inline), 1) {
      UnresolvedApplies(items, profile, all);
    } else {
      MoreApplies(items, profile, policy.Analyze(inline), all);
    }
  }

  /** Something applies to that command or to its inline text. */
  ghost predicate AppliesTo(items: seq<string>, policy: Policy, profile: string, s: Segment, inline: string) {
    IsDangerous(s) || IsForbidden(items, profile, s) || (inline != "" && policy.Denies(profile, inline))
  }

  lemma PartApplies(items: seq<string>, policy: Policy, profile: string, s: Segment, r: Segment, inline: string)
    requires DecidesByRules(policy, items) && inline == policy.reader.inline(s.tokens)
    requires r in PartsOf(policy, s) && (IsDangerous(r) || IsForbidden(items, profile, r))
    ensures AppliesTo(items, policy, profile, s, inline)
  {
    if r == Resolved(policy.reader, s) {
      SameWhenResolved(policy.reader, items, profile, s);
    } else {
      assert r in policy.Analyze(inline);
      TextIsDeniedIff(items, policy, profile, inline);
    }
  }

  /** The matching half: unless it nests too deep, a text is denied only when one of its commands is, or the
      `sh -c` text of one, or one command kills and another mentions the daemon. */
  lemma NothingElseIsDenied(items: seq<string>, policy: Policy, profile: string, text: string, segments: seq<Segment>)
    requires DecidesByRules(policy, items) && Shrinks(policy.reader) && segments == Lex(Lower(text))
    requires Within(segments, |text|) && Nesting(policy.reader, segments, |text|) <= 8
    requires forall s <- segments :: Lower(policy.reader.inline(s.tokens)) == policy.reader.inline(s.tokens)
    requires policy.Denies(profile, text) && !AnyKillsDaemon(policy.Analyze(text))
    ensures exists s <- segments :: AppliesTo(items, policy, profile, s, policy.reader.inline(s.tokens))
  {
    var all := policy.Analyze(text);
    TextIsDeniedIff(items, policy, profile, text);
    var r :| r in all && (IsDangerous(r) || IsForbidden(items, profile, r));
    AnalysisMembers(policy, segments, |text|, r);
    var s :| s in segments && r in PartsOf(policy, s);
    PartApplies(items, policy, profile, s, r, policy.reader.inline(s.tokens));
  }

  // ---------- for the policy that New builds ----------

  lemma BuiltReads(items: seq<string>, policy: Policy, text: string)
    requires policy == NewPolicy(items)
    ensures DecidesByRules(policy, items) && Shrinks(policy.reader) && Within(Lex(Lower(text)), |text|)
    ensures forall s: Segment :: policy.reader.inline(s.tokens) == InlineText(s)
  {
    BuiltPolicyDecides(items);
    PolicyParts(items);
    ShellShrinks();
    SegmentNeverLonger(Lower(text));
    forall s: Segment ensures SHELL.inline(s.tokens) == InlineText(s) { InlineIff(s.tokens); }
  }

  /** `sh -c` hides nothing. */
  lemma InlineIsJudged(items: seq<string>, policy: Policy, profile: string, text: string, s: Segment)
    requires policy == NewPolicy(items) && s in Lex(Lower(text))
    requires InlineText(s) != "" && policy.Denies(profile, InlineText(s))
    ensures policy.Denies(profile, text)
  {
    BuiltReads(items, policy, text);
    InlineTextIsLower(text, s);
    InlineIsNotHidden(items, policy, profile, text, s, InlineText(s));
  }

  lemma AppliedIsDenied(items: seq<string>, policy: Policy, profile: string, text: string, s: Segment, inline: string)
    requires DecidesByRules(policy, items) && Shrinks(policy.reader) && s in Lex(Lower(text))
    requires inline == policy.reader.inline(s.tokens) == Lower(inline) && AppliesTo(items, policy, profile, s, inline)
    ensures policy.Denies(profile, text)
  {
    if IsDangerous(s) || IsForbidden(items, profile, s) {
      DangerousIsDenied(items, policy, profile, text, s);
    } else {
      InlineIsNotHidden(items, policy, profile, text, s, inline);
    }
  }

  lemma TooDeepIsUnresolved(policy: Policy, text: string, segments: seq<Segment>)
    requires Shrinks(policy.reader) && segments == Lex(Lower(text)) && Within(segments, |text|)
    requires Nesting(policy.reader, segments, |text|) > 8
    ensures UNRESOLVED in policy.Analyze(text)
  {
    ExpandMeetsLimit(policy.reader, segments, |text|, 0);
  }

  lemma UnresolvedIsDenied(items: seq<string>, policy: Policy, profile: string, text: string)
    requires DecidesByRules(policy, items) && (UNRESOLVED in policy.Analyze(text) || AnyKillsDaemon(policy.Analyze(text)))
    ensures policy.Denies(profile, text)
  {
    TextIsDeniedIff(items, policy, profile, text);
    if UNRESOLVED in policy.Analyze(text) { UnresolvedApplies(items, profile, policy.Analyze(text)); }
  }

  /** A text is denied exactly when it nests `sh -c` texts more than eight deep, or one command kills and another
      mentions the daemon, or something applies to one of its commands, or one of their `sh -c` texts is denied. */
  lemma DeniedIff(items: seq<string>, policy: Policy, profile: string, text: string, segments: seq<Segment>)
    requires policy == NewPolicy(items) && segments == Lex(Lower(text))
    ensures Shrinks(policy.reader) && Within(segments, |text|)
    ensures policy.Denies(profile, text) <==>
      || Nesting(policy.reader, segments, |text|) > 8
      || AnyKillsDaemon(policy.Analyze(text))
      || exists s <- segments :: AppliesTo(items, policy, profile, s, InlineText(s))
  {
    BuiltReads(items, policy, text);
    forall s | s in segments ensures Lower(InlineText(s)) == InlineText(s) { InlineTextIsLower(text, s); }
    DeniedIffBy(items, policy, profile, text, segments, InlineText);
  }

  lemma DeniedIffBy(
      items: seq<string>, policy: Policy, profile: string, text: string, segments: seq<Segment>, inline: Segment -> string)
    requires DecidesByRules(policy, items) && Shrinks(policy.reader) && segments == Lex(Lower(text)) && Within(segments, |text|)
    requires forall s: Segment :: policy.reader.inline(s.tokens) == inline(s)
    requires forall s <- segments :: Lower(inline(s)) == inline(s)
    ensures policy.Denies(profile, text) <==>
      || Nesting(policy.reader, segments, |text|) > 8
      || AnyKillsDaemon(policy.Analyze(text))
      || exists s <- segments :: AppliesTo(items, policy, profile, s, inline(s))
  {
    if Nesting(policy.reader, segments, |text|) > 8 || AnyKillsDaemon(policy.Analyze(text)) {
      if Nesting(policy.reader, segments, |text|) > 8 { TooDeepIsUnresolved(policy, text, segments); }
      UnresolvedIsDenied(items, policy, profile, text);
    } else if policy.Denies(profile, text) {
      NothingElseIsDenied(items, policy, profile, text, segments);
    } else if s :| s in segments && AppliesTo(items, policy, profile, s, inline(s)) {
      AppliedIsDenied(items, policy, profile, text, s, inline(s));
    }
  }

  /** A line without `sh -c` texts is denied exactly when something applies to its commands, and otherwise allowed. */
  lemma LineIsJudged(items: seq<string>, policy: Policy, profile: string, line: Line)
    requires policy == NewPolicy(items) && LineOk(line) && forall s <- Commands(line) :: InlineText(s) == ""
    ensures policy.Denies(profile, RenderLine(line)) <==> SomethingApplies(items, profile, Commands(line))
  {
    BuiltReads(items, policy, RenderLine(line));
    LineIsDeniedIff(items, policy, profile, line);
  }
}
