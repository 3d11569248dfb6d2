/** Command substitutions: what stands in `$(...)` or backticks is a command of its own, wherever it
    stands, and a command whose name is substituted cannot be resolved (internal/policy/shell.go,
    lexShellSegments and markCommandSubstitution). */
module ShellSubstitutions {
  import opened Text
  import opened ShellLexer
  import opened ShellExpand
  import opened ShellRules
  import opened ShellCompose
  import opened ShellQuoting
  import opened ShellPipes

  // ---------- segments stay ----------

  lemma ApplyKeepsSegments(st: Scan, action: Action)
    ensures st.segments <= Apply(st, action).segments
  {
    assert Ink(st, action).segments == st.segments;
    assert st.FlushToken().segments == st.segments;
  }

  lemma {:induction false} RunKeepsSegments(st: Scan, s: string)
    ensures st.segments <= Run(st, s).segments
    decreases |s|
  {
    if |s| > 0 {
      ApplyKeepsSegments(st, Act(st, s[0], LookAhead(s)));
      RunKeepsSegments(Step(st, s[0], LookAhead(s)), s[Width(st, s[0], LookAhead(s))..]);
    }
  }

  lemma FirstScanKeeps(st: Scan, s: string, c: string)
    requires Run(INITIAL, c) == Run(st, s)
    ensures st.segments <= FirstScan(c) <= Lex(c)
  {
    RunKeepsSegments(st, s);
    assert Run(st, s).FlushToken().segments == Run(st, s).segments;
  }

  // ---------- in the place of the command's name ----------

  /** The text ends with a command that has no word yet. */
  predicate AtCommand(c: string) {
    |Run(INITIAL, c).current.tokens| == 0 && !Run(INITIAL, c).tokenStarted
  }

  /** Neither single quotes nor a substitution nor an escape is open; double quotes may be. */
  predicate OpenToSubstitution(c: string) {
    var mode := Run(INITIAL, c).mode;
    !mode.singleQuoted && mode.depth == 0 && !mode.inBacktick && !EndsInEscape(INITIAL, c)
  }

  /** What stands for the opening of a substitution. */
  predicate IsOpening(open: string) {
    open == "$(" || open == "`"
  }

  function Opening(open: string): Action {
    if open == "`" then ToggleBacktick else OpenSubstitution
  }

  lemma SplitAtOpening(c1: string, open: string, t: string)
    requires OpenToSubstitution(c1) && IsOpening(open)
    ensures Run(INITIAL, c1 + open + t) == Run(Apply(Run(INITIAL, c1), Opening(open)), t)
  {
    var st, s := Run(INITIAL, c1), open + t;
    RunSplit(INITIAL, c1, s);
    assert c1 + open + t == c1 + s;
    assert s[|open|..] == t;
    assert open == "$(" ==> LookAhead(s) == Some('(');
    assert Act(st, s[0], LookAhead(s)) == Opening(open) && Width(st, s[0], LookAhead(s)) == |open|;
  }

  lemma MarkedIsIndirect(st: Scan, open: string)
    requires |st.current.tokens| == 0 && !st.tokenStarted && IsOpening(open)
    ensures exists segment <- Apply(st, Opening(open)).segments :: segment.indirect
  {
    var marked := st.MarkSubstitution().(mode := NextMode(st.mode, Opening(open)));
    assert Apply(st, Opening(open)) == marked.FlushSegment(false);
    assert Apply(st, Opening(open)).segments == st.segments + [marked.current];
  }

  /** A command that begins with a substitution is unresolved, whatever follows. */
  lemma SubstitutedNameIsIndirect(c1: string, open: string, t: string)
    requires OpenToSubstitution(c1) && AtCommand(c1) && IsOpening(open)
    ensures exists segment <- Lex(c1 + open + t) :: segment.indirect
  {
    var st := Run(INITIAL, c1);
    SplitAtOpening(c1, open, t);
    MarkedIsIndirect(st, open);
    var after := Apply(st, Opening(open));
    FirstScanKeeps(after, t, c1 + open + t);
    var segment :| segment in after.segments && segment.indirect;
    assert segment in Lex(c1 + open + t);
  }

  lemma {:induction false} ExpandKeepsIndirect(reader: Reader, segments: seq<Segment>, segment: Segment)
    requires segment in segments && segment.indirect
    ensures Resolved(reader, segment) in Expand(reader, segments, 0)
  {
    ExpandContains(reader, segments, segment, 0);
    assert Unfold(reader, segment, 0)[0] == Resolved(reader, segment);
  }

  /** So it is denied, by the first rule. */
  lemma SubstitutedNameIsDenied(items: seq<string>, profile: string, c1: string, open: string, t: string)
    requires OpenToSubstitution(Lower(c1)) && AtCommand(Lower(c1)) && IsOpening(open)
    ensures NewPolicy(items).InspectShell(profile, c1 + open + t) == Deny("indirect-command")
  {
    LowerConcat(c1 + open, t);
    LowerConcat(c1, open);
    assert Lower(open) == open;
    SubstitutedNameIsIndirect(Lower(c1), open, Lower(t));
    var segments := Lex(Lower(c1 + open + t));
    var segment :| segment in segments && segment.indirect;
    ExpandKeepsIndirect(SHELL, segments, segment);
    IndirectDecides(items, profile, Expand(SHELL, segments, 0), Resolved(SHELL, segment));
  }

  lemma IndirectDecides(items: seq<string>, profile: string, segments: seq<Segment>, segment: Segment)
    requires segment in segments && segment.indirect
    ensures NewPolicy(items).Judge(profile, segments) == Deny("indirect-command")
  {
    var i :| 0 <= i < |segments| && segments[i] == segment;
    assert IsIndirect(segments[i]);
    assert CORE_RULES[0].matches(segments);
  }

  /** A command begins at the start of a text and behind every separator and the blanks after it. */
  lemma CommandsBegin(c1: string, sep: char, blanks: string)
    requires Neutral(c1) && IsCommandSeparator(sep) && IsBlanks(blanks)
    ensures AtCommand("") && OpenToSubstitution("")
    ensures AtCommand(c1 + [sep] + blanks) && OpenToSubstitution(c1 + [sep] + blanks)
  {
    var c := c1 + [sep] + blanks;
    var piped := AfterSeparator(c1, sep);
    var start := Carry(FirstScan(c1), piped, INITIAL);
    SplitAtSeparator(c1, sep, blanks);
    CarryInitial(FirstScan(c1), piped);
    LeadsBlanks(start, blanks);
    assert blanks + [] == blanks;
    assert Run(INITIAL, c) == start;
    EscapeParity(INITIAL, c, false);
    OddTailBlanks(c1, sep, blanks);
  }

  lemma {:induction false} OddTailBlanks(c1: string, sep: char, blanks: string)
    requires IsCommandSeparator(sep) && IsBlanks(blanks)
    ensures !OddTail(c1 + [sep] + blanks, false)
  {
    var tail := [sep] + blanks;
    NoOddTail(c1, tail, false);
    assert c1 + [sep] + blanks == c1 + tail;
  }

  /** A text that ends in another character ends in no odd run of backslashes. */
  lemma {:induction false} NoOddTail(s: string, tail: string, odd: bool)
    requires |tail| > 0 && forall c <- tail :: c != '\\'
    ensures !OddTail(s + tail, odd)
    decreases |s| + |tail|
  {
    if |s| > 0 {
      assert (s + tail)[1..] == s[1..] + tail;
      NoOddTail(s[1..], tail, s[0] == '\\' && !odd);
    } else {
      assert s + tail == tail && tail[0] in tail;
      if |tail| > 1 {
        assert forall c <- tail[1..] :: c in tail;
        NoOddTail("", tail[1..], false);
        assert "" + tail[1..] == tail[1..];
      } else {
        assert tail[1..] == [];
      }
    }
  }

  // ---------- anywhere else ----------

  /** The same words, whichever quotes and substitutions are around them. */
  predicate SameWords(a: Scan, b: Scan) {
    && a.segments == b.segments && a.current == b.current && a.token == b.token && a.tokenStarted == b.tokenStarted
    && a.pendingRedirect == b.pendingRedirect && a.mode.singleQuoted == b.mode.singleQuoted
  }

  /** A scan inside a substitution, and the scan of the text in it alone. */
  predicate Inside(a: Scan, b: Scan) {
    && SameWords(a, b) && !b.mode.doubleQuoted
    && ((a.mode.depth == b.mode.depth + 1 && a.mode.inBacktick == b.mode.inBacktick)
        || (a.mode.depth == b.mode.depth && a.mode.inBacktick && !b.mode.inBacktick))
  }

  /** No closing parenthesis outside quotes closes something that was not opened in the text. */
  predicate ClosesOnlyItsOwn(st: Scan, s: string)
    decreases |s|
  {
    |s| > 0 ==>
      && (s[0] == ')' && st.mode.depth == 0 ==> st.mode.singleQuoted || st.mode.Literal())
      && ClosesOnlyItsOwn(Step(st, s[0], LookAhead(s)), s[Width(st, s[0], LookAhead(s))..])
  }

  lemma {:induction false} WithoutParentheses(st: Scan, s: string)
    requires ')' !in s
    ensures ClosesOnlyItsOwn(st, s)
    decreases |s|
  {
    if |s| > 0 {
      assert s[0] in s;
      WithoutParentheses(Step(st, s[0], LookAhead(s)), s[Width(st, s[0], LookAhead(s))..]);
    }
  }

  lemma SameAct(a: Scan, b: Scan, c: char, next: Option<char>)
    requires Inside(a, b) && c != '\"'
    requires if a.mode.depth == b.mode.depth then c != '`' else c == ')' && b.mode.depth == 0 ==> b.mode.singleQuoted
    ensures Act(a, c, next) == Act(b, c, next) && Width(a, c, next) == Width(b, c, next)
    ensures !Act(a, c, next).ToggleDouble? && (a.mode.depth == b.mode.depth ==> !Act(a, c, next).ToggleBacktick?)
    ensures Act(a, c, next).CloseSubstitution? ==> b.mode.depth > 0
  {
  }

  lemma SameFlush(a: Scan, b: Scan, piped: bool)
    requires SameWords(a, b)
    ensures SameWords(a.FlushToken(), b.FlushToken()) && SameWords(a.FlushSegment(piped), b.FlushSegment(piped))
  {
    assert SameWords(a.FlushToken(), b.FlushToken());
  }

  lemma SameApply(a: Scan, b: Scan, action: Action)
    requires SameWords(a, b)
    ensures SameWords(Apply(a, action), Apply(b, action))
  {
    var a1, b1 := Ink(a, action).(mode := NextMode(a.mode, action)), Ink(b, action).(mode := NextMode(b.mode, action));
    assert SameWords(a1, b1);
    SameFlush(a1, b1, action.Cut? && action.piped);
  }

  lemma ApplyMode(st: Scan, action: Action)
    ensures Apply(st, action).mode == NextMode(st.mode, action)
  {
    assert Ink(st, action).(mode := NextMode(st.mode, action)).FlushToken().mode == NextMode(st.mode, action);
  }

  lemma StaysInside(a: Scan, b: Scan, c: char, next: Option<char>)
    requires Inside(a, b) && c != '\"'
    requires if a.mode.depth == b.mode.depth then c != '`' else c == ')' && b.mode.depth == 0 ==> b.mode.singleQuoted
    ensures Inside(Step(a, c, next), Step(b, c, next)) && Width(a, c, next) == Width(b, c, next)
    ensures Step(a, c, next).mode.doubleQuoted == a.mode.doubleQuoted
    ensures a.mode.depth == b.mode.depth <==> Step(a, c, next).mode.depth == Step(b, c, next).mode.depth
  {
    var action := Act(b, c, next);
    SameAct(a, b, c, next);
    SameApply(a, b, action);
    ApplyMode(a, action);
    ApplyMode(b, action);
  }

  /** Inside a substitution a text without double quotes is lexed as on its own. */
  lemma {:induction false} InsideRun(a: Scan, b: Scan, s: string)
    requires Inside(a, b) && '\"' !in s
    requires if a.mode.depth == b.mode.depth then '`' !in s else ClosesOnlyItsOwn(b, s)
    ensures Inside(Run(a, s), Run(b, s)) && Run(a, s).mode.doubleQuoted == a.mode.doubleQuoted
    ensures a.mode.depth == b.mode.depth <==> Run(a, s).mode.depth == Run(b, s).mode.depth
    decreases |s|
  {
    if |s| > 0 {
      assert s[0] in s;
      StaysInside(a, b, s[0], LookAhead(s));
      InsideRun(Step(a, s[0], LookAhead(s)), Step(b, s[0], LookAhead(s)), s[Width(b, s[0], LookAhead(s))..]);
    }
  }

  /** A text that can stand in `$(...)` or in backticks and ends there. */
  predicate Encloses(open: string, inner: string) {
    && IsOpening(open) && Neutral(inner) && '\"' !in inner
    && if open == "`" then '`' !in inner else ClosesOnlyItsOwn(INITIAL, inner)
  }

  function Close(open: string): string {
    if open == "`" then "`" else ")"
  }

  function Closing(open: string): Action {
    if open == "`" then ToggleBacktick else CloseSubstitution
  }

  /** A segment with words in it is complete where a substitution begins. */
  lemma OpenedBehindWord(c1: string, open: string)
    requires OpenToSubstitution(c1) && !AtCommand(c1) && IsOpening(open)
    ensures var after := Apply(Run(INITIAL, c1), Opening(open));
      && after.segments == FirstScan(c1) && Inside(after, Carry(FirstScan(c1), false, INITIAL))
      && after.mode.doubleQuoted == Run(INITIAL, c1).mode.doubleQuoted
      && (after.mode.depth == 0 <==> open == "`") && after.mode.depth <= 1
  {
    RunFits(INITIAL, c1, 0);
    CarryInitial(FirstScan(c1), false);
  }

  /** What is scanned up to the end of a substitution: the text before it and the text in it. */
  lemma ScannedInside(c1: string, open: string, inner: string)
    requires OpenToSubstitution(c1) && !AtCommand(c1) && Encloses(open, inner)
    ensures var a := Run(Apply(Run(INITIAL, c1), Opening(open)), inner);
      && Inside(a, Carry(FirstScan(c1), false, Run(INITIAL, inner)))
      && a.mode.doubleQuoted == Run(INITIAL, c1).mode.doubleQuoted
      && a.mode.depth == (if open == "`" then 0 else 1) && a.mode.inBacktick == (open == "`")
  {
    var after, alone := Apply(Run(INITIAL, c1), Opening(open)), Carry(FirstScan(c1), false, INITIAL);
    OpenedBehindWord(c1, open);
    if open != "`" { CarryCloses(FirstScan(c1), INITIAL, inner); }
    InsideRun(after, alone, inner);
    CarryRun(FirstScan(c1), false, INITIAL, inner);
  }

  lemma {:induction false} CarryCloses(front: seq<Segment>, st: Scan, s: string)
    requires ClosesOnlyItsOwn(st, s)
    ensures ClosesOnlyItsOwn(Carry(front, false, st), s)
    decreases |s|
  {
    if |s| > 0 {
      CarryAct(front, false, st, s[0], LookAhead(s));
      CarryApply(front, false, st, Act(st, s[0], LookAhead(s)));
      CarryCloses(front, Step(st, s[0], LookAhead(s)), s[Width(st, s[0], LookAhead(s))..]);
    }
  }

  lemma SplitAtClosing(a: Scan, open: string, t: string)
    requires IsOpening(open) && !a.mode.singleQuoted
    requires a.mode.depth == (if open == "`" then 0 else 1) && a.mode.inBacktick == (open == "`")
    ensures Run(a, Close(open) + t) == Run(Apply(a, Closing(open)), t)
  {
    var s := Close(open) + t;
    assert s[1..] == t;
    assert Act(a, s[0], LookAhead(s)) == Closing(open) && Width(a, s[0], LookAhead(s)) == 1;
  }

  lemma SplitUnescaped(after: Scan, inner: string, tail: string)
    requires Neutral(inner) && !after.mode.singleQuoted && !Run(after, inner).mode.singleQuoted && Follows(tail)
    ensures Run(after, inner + tail) == Run(Run(after, inner), tail)
  {
    EscapeParity(INITIAL, inner, false);
    EscapeParity(after, inner, false);
    RunSplit(after, inner, tail);
  }

  lemma FiveParts(a: string, b: string, c: string, d: string, e: string)
    ensures a + b + c + d + e == a + b + (c + (d + e))
  {
  }

  lemma SplitInside(c1: string, open: string, inner: string, c2: string)
    requires OpenToSubstitution(c1) && !AtCommand(c1) && Encloses(open, inner)
    ensures Run(INITIAL, c1 + open + inner + Close(open) + c2)
      == Run(Apply(Run(Apply(Run(INITIAL, c1), Opening(open)), inner), Closing(open)), c2)
  {
    var after, tail := Apply(Run(INITIAL, c1), Opening(open)), Close(open) + c2;
    ScannedInside(c1, open, inner);
    ApplyMode(Run(INITIAL, c1), Opening(open));
    FiveParts(c1, open, inner, Close(open), c2);
    SplitAtOpening(c1, open, inner + tail);
    SplitUnescaped(after, inner, tail);
    SplitAtClosing(Run(after, inner), open, c2);
  }

  lemma ClosedInside(a: Scan, open: string, front: seq<Segment>, alone: Scan)
    requires IsOpening(open) && SameWords(a, Carry(front, false, alone))
    requires open == "`" ==> |alone.current.tokens| > 0 || alone.tokenStarted
    ensures SameWords(Apply(a, Closing(open)), Carry(front, false, alone.FlushSegment(false)))
  {
    var mode := NextMode(a.mode, Closing(open));
    assert Ink(a, Closing(open)) == a;
    assert a.(mode := mode).FlushSegment(false).mode == mode;
    SameFlush(a.(mode := mode), Carry(front, false, alone), false);
    CarryFlushSegment(front, false, alone, false);
  }

  /** Where a substitution ends, the scanner has the text before it, the text in it, and a fresh segment. */
  lemma AfterSubstitution(c1: string, open: string, inner: string)
    requires OpenToSubstitution(c1) && !AtCommand(c1) && Encloses(open, inner) && (open == "`" ==> !AtCommand(inner))
    ensures var after := Apply(Run(Apply(Run(INITIAL, c1), Opening(open)), inner), Closing(open));
      && SameWords(after, Carry(FirstScan(c1), false, Run(INITIAL, inner).FlushSegment(false)))
      && after.mode == Mode(false, Run(INITIAL, c1).mode.doubleQuoted, 0, false)
  {
    var a := Run(Apply(Run(INITIAL, c1), Opening(open)), inner);
    ScannedInside(c1, open, inner);
    ClosedInside(a, open, FirstScan(c1), Run(INITIAL, inner));
    ApplyMode(a, Closing(open));
  }

  /** A substitution behind a word, in double quotes or not, is lexed as the command it holds. */
  lemma SubstitutionIsLexed(c1: string, open: string, inner: string, c2: string)
    requires OpenToSubstitution(c1) && !AtCommand(c1) && Encloses(open, inner) && (open == "`" ==> !AtCommand(inner))
    ensures FirstScan(c1) + Lex(inner) <= Lex(c1 + open + inner + Close(open) + c2)
  {
    var after := Apply(Run(Apply(Run(INITIAL, c1), Opening(open)), inner), Closing(open));
    SplitInside(c1, open, inner, c2);
    AfterSubstitution(c1, open, inner);
    ClosedLex(inner);
    assert after.segments == FirstScan(c1) + FirstScan(inner);
    FirstScanKeeps(after, c2, c1 + open + inner + Close(open) + c2);
  }

  /** Outside quotes it is as good as three commands behind each other. */
  lemma SubstitutionSeparates(c1: string, open: string, inner: string, c2: string)
    requires Neutral(c1) && !AtCommand(c1) && Encloses(open, inner) && (open == "`" ==> !AtCommand(inner))
    requires QuotesClosed(c2)
    ensures Lex(c1 + open + inner + Close(open) + c2)
      == Lex(c1) + Lex(inner) + PipeFirst(Lex(c2), !EndsInCommand(inner) && LastIsPiped(inner))
  {
    var after := Apply(Run(Apply(Run(INITIAL, c1), Opening(open)), inner), Closing(open));
    var piped := Run(INITIAL, inner).FlushSegment(false).current.pipedIn;
    SplitInside(c1, open, inner, c2);
    AfterSubstitution(c1, open, inner);
    RunFits(INITIAL, inner, 0);
    FlushedIsFresh(Run(INITIAL, inner));
    CarryInitial(FirstScan(c1) + FirstScan(inner), piped);
    assert after == Carry(FirstScan(c1) + FirstScan(inner), piped, INITIAL);
    CarryRun(FirstScan(c1) + FirstScan(inner), piped, INITIAL, c2);
    CarryEnd(FirstScan(c1) + FirstScan(inner), piped, Run(INITIAL, c2));
    ClosedLex(c1);
    ClosedLex(c2);
    ClosedLex(inner);
  }

  /** Backticks that end where a command would begin leave that command unresolved. */
  lemma EndedAtCommand(c1: string, inner: string, c2: string)
    requires OpenToSubstitution(c1) && !AtCommand(c1) && Encloses("`", inner) && AtCommand(inner)
    ensures exists segment <- Lex(c1 + "`" + inner + "`" + c2) :: segment.indirect
  {
    var a := Run(Apply(Run(INITIAL, c1), Opening("`")), inner);
    SplitInside(c1, "`", inner, c2);
    ScannedInside(c1, "`", inner);
    MarkedIsIndirect(a, "`");
    var after := Apply(a, Closing("`"));
    FirstScanKeeps(after, c2, c1 + "`" + inner + "`" + c2);
    var segment :| segment in after.segments && segment.indirect;
    assert segment in Lex(c1 + "`" + inner + "`" + c2);
  }

  lemma PrefixCovers(front: seq<Segment>, inner: seq<Segment>, all: seq<Segment>)
    requires front + inner <= all
    ensures Covers(inner, all)
  {
    forall s | s in inner ensures HasSuper(s, all) {
      var i :| 0 <= i < |inner| && inner[i] == s;
      assert all[..|front + inner|][|front| + i] == s;
      assert all[|front| + i] == s && Sub(s, s);
    }
  }

  lemma LeadsIntoQuotes(st: Scan, word: string)
    requires st.mode.Closed()
    ensures Leads(st, ['\"'] + EscapeDouble(word), Written(st.StartToken().(mode := st.mode.(doubleQuoted := true)), word))
  {
    var quoted := st.StartToken().(mode := st.mode.(doubleQuoted := true));
    LeadsStep(st, '\"', ToggleDouble);
    assert Apply(st, ToggleDouble) == quoted;
    LeadsInDouble(quoted, word);
    LeadsChain(st, ['\"'], quoted, EscapeDouble(word), Written(quoted, word));
  }

  lemma UnescapedInQuotes(c1: string, word: string)
    requires !Run(INITIAL, c1 + (['\"'] + EscapeDouble(word))).mode.singleQuoted
    ensures !EndsInEscape(INITIAL, c1 + (['\"'] + EscapeDouble(word)))
  {
    EscapeParity(INITIAL, c1 + (['\"'] + EscapeDouble(word)), false);
    EvenTail(word);
    QuotedTail(c1, EscapeDouble(word), false);
  }

  /** Such a place is inside the double quotes of any word of a neutral text. */
  lemma DoubleQuotesAreOpen(c1: string, word: string)
    requires Neutral(c1)
    ensures var c := c1 + (['\"'] + EscapeDouble(word));
      OpenToSubstitution(c) && !AtCommand(c) && Run(INITIAL, c).mode.doubleQuoted
  {
    var st, text := Run(INITIAL, c1), ['\"'] + EscapeDouble(word);
    LeadsIntoQuotes(st, word);
    RunsThrough(c1, text, Written(st.StartToken().(mode := st.mode.(doubleQuoted := true)), word));
    UnescapedInQuotes(c1, word);
  }

  /** Escaped for double quotes, a word never ends in a bare backslash. */
  lemma {:induction false} EvenTail(word: string)
    ensures !OddTail(EscapeDouble(word), false)
    decreases |word|
  {
    if |word| > 0 {
      var rest := EscapeDouble(word[1..]);
      EvenTail(word[1..]);
      if NeedsEscape(word[0]) {
        var all := EscapeDouble(word);
        assert all == ['\\', word[0]] + rest && all[1..] == [word[0]] + rest && all[1..][1..] == rest;
      } else {
        assert EscapeDouble(word) == [word[0]] + rest && EscapeDouble(word)[1..] == rest;
      }
    }
  }

  lemma {:induction false} QuotedTail(s: string, tail: string, odd: bool)
    requires !OddTail(tail, false)
    ensures !OddTail(s + (['\"'] + tail), odd)
    decreases |s|
  {
    var all := s + (['\"'] + tail);
    if |s| > 0 {
      assert all[1..] == s[1..] + (['\"'] + tail);
      QuotedTail(s[1..], tail, s[0] == '\\' && !odd);
    } else {
      assert all[1..] == tail;
    }
  }

  /** What is denied alone is denied as a substitution behind any word, in double quotes or not, whatever
      comes after it. */
  lemma SubstitutionHidesNothing(items: seq<string>, profile: string, c1: string, open: string, inner: string, c2: string)
    requires OpenToSubstitution(Lower(c1)) && !AtCommand(Lower(c1)) && Encloses(open, Lower(inner))
    requires NewPolicy(items).Denies(profile, inner)
    ensures NewPolicy(items).Denies(profile, c1 + open + inner + Close(open) + c2)
  {
    var policy, whole := NewPolicy(items), c1 + open + inner + Close(open) + c2;
    LowerWhole(c1, open, inner, c2);
    if open == "`" && AtCommand(Lower(inner)) {
      EndedAtCommand(Lower(c1), Lower(inner), Lower(c2));
      var segment :| segment in Lex(Lower(whole)) && segment.indirect;
      ExpandKeepsIndirect(SHELL, Lex(Lower(whole)), segment);
      IndirectDecides(items, profile, Expand(SHELL, Lex(Lower(whole)), 0), Resolved(SHELL, segment));
    } else {
      SubstitutionIsLexed(Lower(c1), open, Lower(inner), Lower(c2));
      PrefixCovers(FirstScan(Lower(c1)), Lex(Lower(inner)), Lex(Lower(whole)));
      CoveredIsDenied(items, profile, inner, whole);
    }
  }

  lemma LowerWhole(c1: string, open: string, inner: string, c2: string)
    requires IsOpening(open)
    ensures Lower(c1 + open + inner + Close(open) + c2) == Lower(c1) + open + Lower(inner) + Close(open) + Lower(c2)
  {
    LowerConcat(c1 + open + inner + Close(open), c2);
    LowerConcat(c1 + open + inner, Close(open));
    LowerConcat(c1 + open, inner);
    LowerConcat(c1, open);
    assert Lower(open) == open && Lower(Close(open)) == Close(open);
  }

  lemma CoveredIsDenied(items: seq<string>, profile: string, part: string, whole: string)
    requires Covers(Lex(Lower(part)), Lex(Lower(whole))) && NewPolicy(items).Denies(profile, part)
    ensures NewPolicy(items).Denies(profile, whole)
  {
    var policy := NewPolicy(items);
    CoreRulesAreMonotone();
    ExpandGrows(policy.reader, Lex(Lower(part)), Lex(Lower(whole)), 0);
    JudgeGrows(policy, profile, policy.Analyze(part), policy.Analyze(whole));
  }
}
