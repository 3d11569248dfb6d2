/** Separators compose: what internal/policy/shell.go decides about c1 and about c2 carries over to
    c1, a command separator and c2 in one text. */
module ShellCompose {
  import opened Text
  import opened ShellLexer
  import opened ShellExpand
  import opened ShellRules

  // ---------- splitting the scan ----------

  /** The scan ends on a backslash that has nothing left to escape. */
  predicate EndsInEscape(st: Scan, s: string)
    decreases |s|
  {
    if |s| == 0 then false
    else if |s| == 1 then !st.mode.singleQuoted && s[0] == '\\'
    else EndsInEscape(Step(st, s[0], LookAhead(s)), s[Width(st, s[0], LookAhead(s))..])
  }

  predicate IsCommandSeparator(c: char) {
    c == ';' || c == '&' || c == '\n' || c == '\r' || c == '\0'
  }

  /** A character that never pairs up with the one in front of it, except behind a backslash. */
  predicate Follows(t: string) {
    |t| > 0 ==> t[0] != '(' && t[0] != '|'
  }

  lemma {:induction false} RunSplit(st: Scan, s: string, t: string)
    requires !EndsInEscape(st, s) && Follows(t)
    ensures Run(st, s + t) == Run(Run(st, s), t)
    decreases |s|
  {
    if |s| == 0 {
      assert s + t == t;
    } else {
      var c := s[0];
      var w := Width(st, c, LookAhead(s));
      if |s| > 1 {
        assert LookAhead(s + t) == LookAhead(s);
      } else {
        assert Width(st, c, LookAhead(s + t)) == w && Act(st, c, LookAhead(s + t)) == Act(st, c, LookAhead(s));
      }
      assert (s + t)[w..] == s[w..] + t;
      RunSplit(Step(st, c, LookAhead(s)), s[w..], t);
    }
  }

  // ---------- carrying earlier segments and an open pipe along ----------

  function PipeFirst(segments: seq<Segment>, piped: bool): seq<Segment> {
    if piped && |segments| > 0 then [segments[0].(pipedIn := true)] + segments[1..] else segments
  }

  function Overlay(segments: seq<Segment>, pipe: bool, st: Scan): Scan {
    st.(segments := segments, current := if pipe then st.current.(pipedIn := true) else st.current)
  }

  /** st with segments in front and possibly a pipe into its first segment, emitted or still open. */
  function Carry(front: seq<Segment>, piped: bool, st: Scan): Scan {
    Overlay(front + PipeFirst(st.segments, piped), piped && |st.segments| == 0, st)
  }

  lemma CarryFlushToken(front: seq<Segment>, piped: bool, st: Scan)
    ensures Carry(front, piped, st).FlushToken() == Carry(front, piped, st.FlushToken())
  {
  }

  lemma CarryCloseSegment(front: seq<Segment>, piped: bool, st: Scan, next: bool)
    ensures Carry(front, piped, st).CloseSegment(next) == Carry(front, piped, st.CloseSegment(next))
  {
    if !st.current.IsEmpty() {
      var current := Carry(front, piped, st).current;
      assert front + PipeFirst(st.segments, piped) + [current]
        == front + (PipeFirst(st.segments, piped) + [current]);
      assert PipeFirst(st.segments + [st.current], piped) == PipeFirst(st.segments, piped) + [current] by {
        if |st.segments| == 0 {
          assert st.segments + [st.current] == [st.current];
          assert PipeFirst(st.segments, piped) + [current] == [current];
        }
      }
    }
  }

  lemma CarryFlushSegment(front: seq<Segment>, piped: bool, st: Scan, next: bool)
    ensures Carry(front, piped, st).FlushSegment(next) == Carry(front, piped, st.FlushSegment(next))
  {
    CarryFlushToken(front, piped, st);
    CarryCloseSegment(front, piped, st.FlushToken(), next);
  }

  lemma CarryInk(front: seq<Segment>, piped: bool, st: Scan, action: Action, mode: Mode)
    ensures Ink(Carry(front, piped, st), action).(mode := mode)
      == Carry(front, piped, Ink(st, action).(mode := mode))
  {
    var segments, pipe := front + PipeFirst(st.segments, piped), piped && |st.segments| == 0;
    assert Ink(Overlay(segments, pipe, st), action) == Overlay(segments, pipe, Ink(st, action));
    assert Ink(st, action).segments == st.segments;
  }

  lemma CarryFinish(front: seq<Segment>, piped: bool, st: Scan, action: Action)
    ensures Finish(Carry(front, piped, st), action) == Carry(front, piped, Finish(st, action))
  {
    match action
    case OpenSubstitution => CarryFlushSegment(front, piped, st, false);
    case CloseSubstitution => CarryFlushSegment(front, piped, st, false);
    case ToggleBacktick => CarryFlushSegment(front, piped, st, false);
    case Cut(next) => CarryFlushSegment(front, piped, st, next);
    case Redirect => CarryFlushToken(front, piped, st);
    case EndToken => CarryFlushToken(front, piped, st);
    case _ => assert Finish(st, action) == st;
  }

  lemma CarryApply(front: seq<Segment>, piped: bool, st: Scan, action: Action)
    ensures Apply(Carry(front, piped, st), action) == Carry(front, piped, Apply(st, action))
  {
    var mode := NextMode(st.mode, action);
    CarryInk(front, piped, st, action, mode);
    CarryFinish(front, piped, Ink(st, action).(mode := mode), action);
  }

  lemma CarryAct(front: seq<Segment>, piped: bool, st: Scan, c: char, next: Option<char>)
    ensures Act(Carry(front, piped, st), c, next) == Act(st, c, next)
    ensures Width(Carry(front, piped, st), c, next) == Width(st, c, next)
  {
    var carried := Carry(front, piped, st);
    assert carried.mode == st.mode;
  }

  lemma {:induction false} CarryRun(front: seq<Segment>, piped: bool, st: Scan, s: string)
    ensures Run(Carry(front, piped, st), s) == Carry(front, piped, Run(st, s))
    decreases |s|
  {
    if |s| > 0 {
      var c, next := s[0], LookAhead(s);
      CarryAct(front, piped, st, c, next);
      CarryApply(front, piped, st, Act(st, c, next));
      CarryRun(front, piped, Step(st, c, next), s[Width(st, c, next)..]);
    }
  }

  lemma CarryEnd(front: seq<Segment>, piped: bool, st: Scan)
    ensures Carry(front, piped, st).FlushSegment(false).segments
      == front + PipeFirst(st.FlushSegment(false).segments, piped)
  {
    CarryFlushToken(front, piped, st);
    CarryCloseSegment(front, piped, st.FlushToken(), false);
  }

  // ---------- texts without quotes: substitutions do not matter ----------

  /** Equal but for substitution depth and the backtick flag. */
  predicate SameText(a: Scan, b: Scan) {
    && a.segments == b.segments && a.current == b.current
    && a.token == b.token && a.tokenStarted == b.tokenStarted
    && a.pendingRedirect == b.pendingRedirect
    && a.mode.singleQuoted == b.mode.singleQuoted && a.mode.doubleQuoted == b.mode.doubleQuoted
  }

  lemma SameTextFlush(a: Scan, b: Scan, piped: bool)
    requires SameText(a, b)
    ensures SameText(a.FlushSegment(piped), b.FlushSegment(piped))
  {
    assert SameText(a.FlushToken(), b.FlushToken());
  }

  lemma SameTextInk(a: Scan, b: Scan, action: Action)
    requires SameText(a, b)
    ensures SameText(Ink(a, action).(mode := NextMode(a.mode, action)), Ink(b, action).(mode := NextMode(b.mode, action)))
  {
  }

  lemma SameTextFinish(a: Scan, b: Scan, action: Action)
    requires SameText(a, b)
    ensures SameText(Finish(a, action), Finish(b, action))
  {
    SameTextFlush(a, b, action.Cut? && action.piped);
    assert SameText(a.FlushToken(), b.FlushToken());
  }

  lemma SameTextApply(a: Scan, b: Scan, action: Action)
    requires SameText(a, b)
    ensures SameText(Apply(a, action), Apply(b, action))
  {
    SameTextInk(a, b, action);
    SameTextFinish(Ink(a, action).(mode := NextMode(a.mode, action)),
                   Ink(b, action).(mode := NextMode(b.mode, action)), action);
  }

  lemma NoQuoteAct(a: Scan, b: Scan, c: char, next: Option<char>)
    requires SameText(a, b) && !a.mode.QuoteOpen() && c != '\'' && c != '\"'
    ensures Width(a, c, next) == Width(b, c, next)
    ensures c != ')' ==> Act(a, c, next) == Act(b, c, next)
    ensures c == ')' ==> Act(a, c, next) in {CloseSubstitution, Cut(false)} && Act(b, c, next) in {CloseSubstitution, Cut(false)}
    ensures !Act(a, c, next).OpenSingle? && !Act(a, c, next).ToggleDouble?
  {
  }

  lemma CloseIsCut(a: Scan)
    ensures SameText(Apply(a, CloseSubstitution), Apply(a, Cut(false)))
  {
    SameTextFlush(a.(mode := NextMode(a.mode, CloseSubstitution)), a, false);
  }

  lemma SameTextStep(a: Scan, b: Scan, c: char, next: Option<char>)
    requires SameText(a, b) && !a.mode.QuoteOpen() && c != '\'' && c != '\"'
    ensures SameText(Step(a, c, next), Step(b, c, next))
    ensures Width(a, c, next) == Width(b, c, next)
  {
    NoQuoteAct(a, b, c, next);
    if c == ')' {
      SameTextApply(a, b, Cut(false));
      CloseIsCut(a);
      CloseIsCut(b);
    } else {
      SameTextApply(a, b, Act(a, c, next));
    }
  }

  /** In a text without quotes the outcome does not depend on open substitutions or backticks. */
  lemma {:induction false} SameTextRun(a: Scan, b: Scan, s: string)
    requires SameText(a, b) && !a.mode.QuoteOpen() && !HasQuote(s)
    ensures SameText(Run(a, s), Run(b, s))
    decreases |s|
  {
    if |s| > 0 {
      var c, next := s[0], LookAhead(s);
      assert c in s;
      SameTextStep(a, b, c, next);
      StepWithoutQuotes(a, c, next);
      SameTextRun(Step(a, c, next), Step(b, c, next), s[Width(a, c, next)..]);
    }
  }

  // ---------- trailing backslashes ----------

  /** The run of backslashes the text ends in has odd length, when an odd or even run came before. */
  predicate OddTail(s: string, odd: bool) {
    if |s| == 0 then odd else OddTail(s[1..], s[0] == '\\' && !odd)
  }

  /** Outside single quotes a text ends in a bare backslash exactly when it ends in an odd number of
      them, whatever came before. */
  lemma {:induction false} EscapeParity(st: Scan, s: string, odd: bool)
    requires !Run(st, s).mode.singleQuoted
    requires !st.mode.singleQuoted ==> !odd
    ensures EndsInEscape(st, s) <==> OddTail(s, odd)
    decreases |s|
  {
    if |s| == 1 {
      assert s[1..] == [];
    } else if |s| > 1 {
      var w := Width(st, s[0], LookAhead(s));
      var after := Step(st, s[0], LookAhead(s));
      if w == 2 {
        assert s[1..][1..] == s[2..] && s[1..][0] == s[1];
        EscapeParity(after, s[2..], false);
      } else {
        EscapeParity(after, s[1..], s[0] == '\\' && !odd);
      }
    }
  }

  // ---------- the composition theorem ----------

  /** Lexed from the start, the text ends with nothing open and no backslash left to escape. */
  predicate Neutral(c: string) {
    Run(INITIAL, c).mode.Closed() && !EndsInEscape(INITIAL, c)
  }

  /** A text whose quotes are closed at its end, so that no rescan is added. */
  predicate QuotesClosed(c: string) {
    !Run(INITIAL, c).mode.QuoteOpen()
  }

  function FirstScan(c: string): seq<Segment> {
    Run(INITIAL, c).FlushSegment(false).segments
  }

  lemma FlushedIsFresh(st: Scan)
    requires !st.tokenStarted ==> st.token == ""
    ensures var flushed := st.FlushSegment(false);
      flushed == Scan(flushed.segments, FreshSegment(flushed.current.pipedIn), "", false, false, st.mode)
  {
  }

  lemma CarryInitial(front: seq<Segment>, piped: bool)
    ensures Carry(front, piped, INITIAL) == Scan(front, FreshSegment(piped), "", false, false, INITIAL.mode)
  {
    assert front + [] == front;
  }

  /** Behind a separator the scanner is back at its start, except for the segments it has and a pipe
      it may have left open. */
  lemma AfterSeparator(c1: string, sep: char) returns (piped: bool)
    requires QuotesClosed(c1) && !EndsInEscape(INITIAL, c1) && IsCommandSeparator(sep)
    ensures SameText(Run(INITIAL, c1 + [sep]), Carry(FirstScan(c1), piped, INITIAL))
    ensures Run(INITIAL, c1).mode.Closed() ==> Run(INITIAL, c1 + [sep]) == Carry(FirstScan(c1), piped, INITIAL)
  {
    var st := Run(INITIAL, c1);
    RunSplit(INITIAL, c1, [sep]);
    RunFits(INITIAL, c1, 0);
    CutAtSeparator(st, sep, []);
    assert [sep] + [] == [sep];
    FlushedIsFresh(st);
    piped := st.FlushSegment(false).current.pipedIn;
    CarryInitial(FirstScan(c1), piped);
  }

  lemma CutAtSeparator(st: Scan, sep: char, t: string)
    requires !st.mode.QuoteOpen() && IsCommandSeparator(sep)
    ensures Run(st, [sep] + t) == Run(st.FlushSegment(false), t)
  {
    var next := LookAhead([sep] + t);
    assert Act(st, sep, next) == Cut(false) && Width(st, sep, next) == 1;
    assert ([sep] + t)[1..] == t;
  }

  lemma SplitAtSeparator(c1: string, sep: char, c2: string)
    requires QuotesClosed(c1) && !EndsInEscape(INITIAL, c1) && IsCommandSeparator(sep)
    ensures Run(INITIAL, c1 + [sep] + c2) == Run(Run(INITIAL, c1 + [sep]), c2)
  {
    var st := Run(INITIAL, c1);
    assert c1 + [sep] + c2 == c1 + ([sep] + c2);
    RunSplit(INITIAL, c1, [sep] + c2);
    RunSplit(INITIAL, c1, [sep]);
    assert ([sep] + c2)[1..] == c2 && [sep][1..] == [];
    CutAtSeparator(st, sep, c2);
    CutAtSeparator(st, sep, []);
    assert [sep] + [] == [sep];
  }

  /** The first scan of c1 sep c2 is the one of c1 followed by the one of c2. */
  lemma FirstScanSplits(c1: string, sep: char, c2: string) returns (piped: bool)
    requires Neutral(c1) && IsCommandSeparator(sep)
    ensures FirstScan(c1 + [sep] + c2) == FirstScan(c1) + PipeFirst(FirstScan(c2), piped)
    ensures QuotesClosed(c1 + [sep] + c2) <==> QuotesClosed(c2)
  {
    piped := AfterSeparator(c1, sep);
    SplitAtSeparator(c1, sep, c2);
    CarryRun(FirstScan(c1), piped, INITIAL, c2);
    CarryEnd(FirstScan(c1), piped, Run(INITIAL, c2));
  }

  lemma NeutralStaysUnescaped(c1: string)
    requires Neutral(c1)
    ensures QuotesClosed(StripQuotes(c1)) && !EndsInEscape(INITIAL, StripQuotes(c1))
  {
    var t := StripQuotes(c1);
    RunWithoutQuotes(INITIAL, t);
    EscapeParity(INITIAL, c1, false);
    EscapeParity(INITIAL, t, false);
    OddTailStrip(c1, false);
  }

  lemma {:induction false} OddTailStrip(c: string, odd: bool)
    ensures OddTail(StripQuotes(c), odd) == OddTail(c, odd)
    decreases |c|
  {
    if |c| > 0 {
      assert StripQuotes(c)[1..] == StripQuotes(c[1..]);
      OddTailStrip(c[1..], c[0] == '\\' && !odd);
    }
  }

  /** The rescan, too, is cut at the separator, although the text in front of it need not be neutral
      once its quotes are gone. */
  lemma RescanSplits(c1: string, sep: char, c2: string) returns (piped: bool)
    requires Neutral(c1) && IsCommandSeparator(sep)
    ensures Lex(StripQuotes(c1 + [sep] + c2)) == Lex(StripQuotes(c1)) + PipeFirst(Lex(StripQuotes(c2)), piped)
  {
    var s1, s2 := StripQuotes(c1), StripQuotes(c2);
    assert StripQuotes(c1 + [sep] + c2) == s1 + [sep] + s2;
    NeutralStaysUnescaped(c1);
    RescanIsFinal(c1);
    RescanIsFinal(c2);
    RescanIsFinal(c1 + [sep] + c2);
    piped := AfterSeparator(s1, sep);
    SplitAtSeparator(s1, sep, s2);
    var st, carried := Run(INITIAL, s1 + [sep]), Carry(FirstScan(s1), piped, INITIAL);
    SameTextRun(st, carried, s2);
    SameTextFlush(Run(st, s2), Run(carried, s2), false);
    CarryRun(FirstScan(s1), piped, INITIAL, s2);
    CarryEnd(FirstScan(s1), piped, Run(INITIAL, s2));
  }

  /** When c2 closes its quotes, the segments of c1 sep c2 are those of c1 and then those of c2,
      except that a pipe left open by c1 may reach the first of c2. */
  lemma SegmentsCompose(c1: string, sep: char, c2: string) returns (piped: bool)
    requires Neutral(c1) && IsCommandSeparator(sep) && QuotesClosed(c2)
    ensures Lex(c1 + [sep] + c2) == Lex(c1) + PipeFirst(Lex(c2), piped)
  {
    piped := FirstScanSplits(c1, sep, c2);
  }

  lemma CoversPiped(a: seq<Segment>, piped: bool)
    ensures Covers(a, PipeFirst(a, piped))
  {
    var b := PipeFirst(a, piped);
    forall s | s in a ensures HasSuper(s, b) {
      var i :| 0 <= i < |a| && a[i] == s;
      assert b[i] in b && Sub(s, b[i]);
    }
  }

  lemma CoversPart(a: seq<Segment>, b: seq<Segment>, all: seq<Segment>)
    requires Covers(a, b) && (forall s :: s in b ==> s in all)
    ensures Covers(a, all)
  {
    forall s | s in a ensures HasSuper(s, all) {
      assert HasSuper(s, b);
      var t :| t in b && Sub(s, t);
      assert t in all;
    }
  }

  /** Whatever c1 and c2 consist of on their own is there when they are sent together. */
  lemma SegmentsCovered(c1: string, sep: char, c2: string)
    requires Neutral(c1) && IsCommandSeparator(sep)
    ensures Covers(Lex(c1), Lex(c1 + [sep] + c2))
    ensures Covers(Lex(c2), Lex(c1 + [sep] + c2))
  {
    var all := Lex(c1 + [sep] + c2);
    var piped := FirstScanSplits(c1, sep, c2);
    var f1, p2 := FirstScan(c1), PipeFirst(FirstScan(c2), piped);
    CoversPiped(f1, false);
    CoversPiped(FirstScan(c2), piped);
    CoversPart(f1, f1, all);
    CoversPart(FirstScan(c2), p2, all);
    if !QuotesClosed(c2) {
      var again := RescanSplits(c1, sep, c2);
      var q2 := PipeFirst(Lex(StripQuotes(c2)), again);
      assert all == f1 + p2 + (Lex(StripQuotes(c1)) + q2);
      CoversPiped(Lex(StripQuotes(c2)), again);
      CoversPart(Lex(StripQuotes(c2)), q2, all);
    }
  }

  // ---------- from segments to decisions ----------

  lemma UnfoldGrows(reader: Reader, a: Segment, b: Segment, depth: nat)
    requires Sub(a, b)
    ensures Covers(Unfold(reader, a, depth), Unfold(reader, b, depth))
  {
    var inner := Unfold(reader, b, depth)[1..];
    assert Unfold(reader, a, depth) == [Resolved(reader, a)] + inner;
    assert Unfold(reader, b, depth) == [Resolved(reader, b)] + inner;
    forall s | s in Unfold(reader, a, depth) ensures HasSuper(s, Unfold(reader, b, depth)) {
      if s == Resolved(reader, a) {
        assert Sub(s, Resolved(reader, b));
      } else {
        assert s in inner && Sub(s, s);
      }
    }
  }

  lemma {:induction false} ExpandContains(reader: Reader, segments: seq<Segment>, segment: Segment, depth: nat)
    requires segment in segments
    ensures forall s :: s in Unfold(reader, segment, depth) ==> s in Expand(reader, segments, depth)
    decreases |segments|
  {
    if segments[0] != segment {
      assert segments == [segments[0]] + segments[1..];
      ExpandContains(reader, segments[1..], segment, depth);
    }
  }

  lemma {:induction false} ExpandGrows(reader: Reader, a: seq<Segment>, b: seq<Segment>, depth: nat)
    requires Covers(a, b)
    ensures Covers(Expand(reader, a, depth), Expand(reader, b, depth))
    decreases |a|
  {
    if |a| > 0 {
      assert HasSuper(a[0], b);
      var t :| t in b && Sub(a[0], t);
      UnfoldGrows(reader, a[0], t, depth);
      ExpandContains(reader, b, t, depth);
      CoversPart(Unfold(reader, a[0], depth), Unfold(reader, t, depth), Expand(reader, b, depth));
      assert forall s :: s in a[1..] ==> s in a;
      ExpandGrows(reader, a[1..], b, depth);
    }
  }

  /** A neutral command, a separator and any other text are denied together whenever one of the two is
      denied alone. */
  lemma SeparatorsCompose(policy: Policy, profile: string, c1: string, sep: char, c2: string)
    requires RulesGrow(policy.rules)
    requires Neutral(Lower(c1)) && IsCommandSeparator(sep)
    requires policy.Denies(profile, c1) || policy.Denies(profile, c2)
    ensures policy.Denies(profile, c1 + [sep] + c2)
  {
    LowerConcat(c1 + [sep], c2);
    LowerConcat(c1, [sep]);
    assert Lower([sep]) == [sep];
    SegmentsCovered(Lower(c1), sep, Lower(c2));
    var c := if policy.Denies(profile, c1) then c1 else c2;
    ExpandGrows(policy.reader, Lex(Lower(c)), Lex(Lower(c1 + [sep] + c2)), 0);
    JudgeGrows(policy, profile, policy.Analyze(c), policy.Analyze(c1 + [sep] + c2));
  }
}
