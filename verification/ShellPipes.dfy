/** What a pipe and a redirect do to a command line, for all texts on either side of them
    (internal/policy/shell.go, lexShellSegments). */
module ShellPipes {
  import opened Text
  import opened ShellLexer
  import opened ShellCompose
  import opened ShellQuoting

  // ---------- where a text leaves the lexer ----------

  /** The text ends in the middle of a redirect, whose target is missing or may still grow. */
  predicate RedirectPending(c: string) {
    Run(INITIAL, c).pendingRedirect
  }

  /** The text ends in a segment that is not empty. */
  predicate EndsInCommand(c: string) {
    !Run(INITIAL, c).FlushToken().current.IsEmpty()
  }

  /** The input of that segment comes from a pipe. */
  predicate LastIsPiped(c: string) {
    Run(INITIAL, c).current.pipedIn
  }

  /** No `|` could pair with the end of the text. */
  lemma {:induction false} RunSplitBehindCommand(st: Scan, s: string, t: string)
    requires !EndsInEscape(st, s) && |t| > 0 && t[0] != '('
    requires !Run(st, s).FlushToken().current.IsEmpty() || Run(st, s).pendingRedirect
    requires |s| > 0
    ensures Run(st, s + t) == Run(Run(st, s), t)
    decreases |s|
  {
    var c := s[0];
    var w := Width(st, c, LookAhead(s));
    if |s| > 1 {
      assert LookAhead(s + t) == LookAhead(s);
    } else {
      assert s[w..] == [];
      assert LookAhead(s + t) == Some(t[0]) && LookAhead(s) == None;
      assert Act(st, c, None) != Cut(true);
      assert Width(st, c, LookAhead(s + t)) == w && Act(st, c, LookAhead(s + t)) == Act(st, c, LookAhead(s));
    }
    assert (s + t)[w..] == s[w..] + t;
    if |s[w..]| == 0 {
      assert s[w..] + t == t;
    } else {
      RunSplitBehindCommand(Step(st, c, LookAhead(s)), s[w..], t);
    }
  }

  lemma CutAtPipe(st: Scan, t: string)
    requires st.mode.Closed() && !st.pendingRedirect && (|t| > 0 ==> t[0] != '|')
    ensures Run(st, "|" + t) == Run(st.FlushSegment(true), t)
  {
    var s := "|" + t;
    assert LookAhead(s) != Some('|') && s[1..] == t;
    assert Act(st, '|', LookAhead(s)) == Cut(true) && Width(st, '|', LookAhead(s)) == 1;
  }

  lemma CutAtOr(st: Scan, t: string)
    requires st.mode.Closed() && !st.pendingRedirect
    ensures Run(st, "||" + t) == Run(st.FlushSegment(false), t)
  {
    var s := "||" + t;
    assert LookAhead(s) == Some('|') && s[2..] == t;
    assert Act(st, '|', LookAhead(s)) == Cut(false) && Width(st, '|', LookAhead(s)) == 2;
  }

  /** Where a command has just ended, the scanner is back at its start but for the segments and the pipe. */
  lemma AfterFlush(c1: string, piped: bool)
    requires Neutral(c1)
    ensures var flushed := Run(INITIAL, c1).FlushSegment(piped);
      flushed == Carry(FirstScan(c1), flushed.current.pipedIn, INITIAL)
  {
    var st := Run(INITIAL, c1);
    RunFits(INITIAL, c1, 0);
    CarryInitial(FirstScan(c1), st.FlushSegment(piped).current.pipedIn);
  }

  lemma ScannedBehind(c1: string, joiner: string, c2: string, piped: bool)
    requires Neutral(c1)
    requires Run(INITIAL, c1 + joiner + c2) == Run(Run(INITIAL, c1).FlushSegment(piped), c2)
    ensures FirstScan(c1 + joiner + c2)
      == FirstScan(c1) + PipeFirst(FirstScan(c2), Run(INITIAL, c1).FlushSegment(piped).current.pipedIn)
    ensures QuotesClosed(c1 + joiner + c2) <==> QuotesClosed(c2)
  {
    var open := Run(INITIAL, c1).FlushSegment(piped).current.pipedIn;
    AfterFlush(c1, piped);
    CarryRun(FirstScan(c1), open, INITIAL, c2);
    CarryEnd(FirstScan(c1), open, Run(INITIAL, c2));
  }

  // ---------- pipes and alternatives ----------

  /** A `|` behind a command starts a new one, whose input comes from the first. */
  lemma PipeFeedsNext(c1: string, c2: string)
    requires Neutral(c1) && EndsInCommand(c1) && !RedirectPending(c1)
    requires |c2| > 0 ==> c2[0] != '|'
    ensures FirstScan(c1 + "|" + c2) == FirstScan(c1) + PipeFirst(FirstScan(c2), true)
    ensures QuotesClosed(c1 + "|" + c2) <==> QuotesClosed(c2)
  {
    RunSplitBehindCommand(INITIAL, c1, "|" + c2);
    assert c1 + "|" + c2 == c1 + ("|" + c2);
    CutAtPipe(Run(INITIAL, c1), c2);
    ScannedBehind(c1, "|", c2, true);
  }

  /** With `||` the next command has its own input. */
  lemma OrFeedsNothing(c1: string, c2: string)
    requires Neutral(c1) && EndsInCommand(c1) && !RedirectPending(c1)
    ensures FirstScan(c1 + "||" + c2) == FirstScan(c1) + FirstScan(c2)
    ensures QuotesClosed(c1 + "||" + c2) <==> QuotesClosed(c2)
  {
    RunSplitBehindCommand(INITIAL, c1, "||" + c2);
    assert c1 + "||" + c2 == c1 + ("||" + c2);
    CutAtOr(Run(INITIAL, c1), c2);
    ScannedBehind(c1, "||", c2, false);
  }

  lemma ClosedLex(c: string)
    requires QuotesClosed(c)
    ensures Lex(c) == FirstScan(c)
  {
  }

  /** So in whole texts. */
  lemma PipesCompose(c1: string, c2: string)
    requires Neutral(c1) && EndsInCommand(c1) && !RedirectPending(c1) && QuotesClosed(c2)
    ensures (|c2| > 0 ==> c2[0] != '|') ==> Lex(c1 + "|" + c2) == Lex(c1) + PipeFirst(Lex(c2), true)
    ensures Lex(c1 + "||" + c2) == Lex(c1) + Lex(c2)
  {
    ClosedLex(c1);
    ClosedLex(c2);
    if |c2| > 0 ==> c2[0] != '|' {
      PipeFeedsNext(c1, c2);
      ClosedLex(c1 + "|" + c2);
    }
    OrFeedsNothing(c1, c2);
    ClosedLex(c1 + "||" + c2);
  }

  lemma PendingSplit(c1: string, t: string)
    requires Neutral(c1) && RedirectPending(c1) && (|t| > 0 ==> t[0] != '(')
    ensures Run(INITIAL, c1 + t) == Run(Run(INITIAL, c1), t)
  {
    if |t| > 0 { RunSplitBehindCommand(INITIAL, c1, t); } else { assert c1 + t == c1; }
  }

  lemma SkipsPipe(st: Scan, t: string)
    requires st.mode.Closed() && st.pendingRedirect
    ensures Run(st, "|" + t) == Run(st, t)
  {
    var s := "|" + t;
    assert s[1..] == t;
    assert Act(st, '|', LookAhead(s)) == Skip && Width(st, '|', LookAhead(s)) == 1;
  }

  /** While a redirect is pending a `|` belongs to it, as in `>|`, and is left out -- even behind the target. */
  lemma PendingRedirectTakesPipe(c1: string, c2: string)
    requires Neutral(c1) && RedirectPending(c1)
    requires |c2| > 0 ==> c2[0] != '('
    ensures FirstScan(c1 + "|" + c2) == FirstScan(c1 + c2)
    ensures QuotesClosed(c1 + c2) ==> Lex(c1 + "|" + c2) == Lex(c1 + c2)
  {
    assert c1 + "|" + c2 == c1 + ("|" + c2);
    PendingSplit(c1, "|" + c2);
    PendingSplit(c1, c2);
    SkipsPipe(Run(INITIAL, c1), c2);
  }

  predicate NoPipeFirst(c: string) {
    |c| > 0 ==> c[0] != '|'
  }

  /** What a pipe is to do between these two texts. */
  predicate Pipes(c1: string, c2: string) {
    Lex(c1 + "|" + c2) == Lex(c1) + PipeFirst(Lex(c2), true)
  }

  lemma OneLetter(st: Scan, c1: string)
    requires st == Run(INITIAL, c1) && Neutral(c1)
    ensures Run(INITIAL, c1 + "\\x") == st.WriteRune('x')
  {
    LeadsEscape(st, 'x');
    assert ['\\', 'x'] == "\\x";
    RunsThrough(c1, "\\x", st.WriteRune('x'));
  }

  lemma LetterFlushed(st: Scan)
    ensures |st.WriteRune('x').FlushSegment(false).segments| == |st.segments| + 1
  {
  }

  /** Behind a neutral text with a command at its end a pipe does that for every text exactly when no redirect is
      pending. */
  lemma PipesIffNotPending(c1: string)
    requires Neutral(c1) && EndsInCommand(c1)
    ensures !RedirectPending(c1) <==> forall c2 | QuotesClosed(c2) && NoPipeFirst(c2) :: Pipes(c1, c2)
  {
    forall c2 | QuotesClosed(c2) && NoPipeFirst(c2) && !RedirectPending(c1) ensures Pipes(c1, c2) {
      PipesCompose(c1, c2);
    }
    if RedirectPending(c1) {
      var c2 := "\\x";
      OneLetter(INITIAL, "");
      assert "" + c2 == c2;
      OneLetter(Run(INITIAL, c1), c1);
      LetterFlushed(INITIAL);
      LetterFlushed(Run(INITIAL, c1));
      ClosedLex(c1);
      ClosedLex(c2);
      ClosedLex(c1 + c2);
      PendingRedirectTakesPipe(c1, c2);
      CommandFlushed(Run(INITIAL, c1));
      assert !Pipes(c1, c2);
    }
  }

  lemma CommandFlushed(st: Scan)
    requires !st.FlushToken().current.IsEmpty()
    ensures |st.FlushSegment(false).segments| == |st.segments| + 1
  {
  }

  /** A separator feeds nothing; behind an empty command it leaves a pipe as it is. */
  lemma SeparatorFeedsNothing(c1: string, sep: char, c2: string)
    requires Neutral(c1) && IsCommandSeparator(sep)
    ensures FirstScan(c1 + [sep] + c2)
      == FirstScan(c1) + PipeFirst(FirstScan(c2), !EndsInCommand(c1) && LastIsPiped(c1))
    ensures QuotesClosed(c1 + [sep] + c2) <==> QuotesClosed(c2)
  {
    assert c1 + [sep] + c2 == c1 + ([sep] + c2);
    RunSplit(INITIAL, c1, [sep] + c2);
    CutAtSeparator(Run(INITIAL, c1), sep, c2);
    ScannedBehind(c1, [sep], c2, false);
  }

  /** So a pipe reaches the next command over separators and blanks. */
  lemma PipeReachesOn(c1: string, c0: string, sep: char, c2: string)
    requires Neutral(c1) && EndsInCommand(c1) && !RedirectPending(c1) && (|c0| > 0 ==> c0[0] != '|')
    requires Neutral(c0) && FirstScan(c0) == [] && IsCommandSeparator(sep)
    ensures FirstScan(c1 + "|" + c0 + [sep] + c2) == FirstScan(c1) + PipeFirst(FirstScan(c2), true)
  {
    var rest := c0 + [sep] + c2;
    assert c1 + "|" + c0 + [sep] + c2 == c1 + "|" + rest;
    PipeFeedsNext(c1, rest);
    SeparatorFeedsNothing(c0, sep, c2);
    assert FirstScan(rest) == PipeFirst(FirstScan(c2), !EndsInCommand(c0) && LastIsPiped(c0));
  }

  // ---------- redirects ----------

  predicate IsBlank(c: char) {
    c == ' ' || c == '\t' || c == '\U{0B}' || c == '\U{0C}' || c == '<' || c == '{' || c == '}'
  }

  predicate IsBlanks(s: string) {
    forall c <- s :: IsBlank(c)
  }

  lemma {:induction false} LeadsBlanks(st: Scan, blanks: string)
    requires Between(st) && IsBlanks(blanks)
    ensures Leads(st, blanks, st)
    decreases |blanks|
  {
    if |blanks| == 0 {
      LeadsNowhere(st);
    } else {
      assert blanks[0] in blanks;
      LeadsStep(st, blanks[0], EndToken);
      assert Apply(st, EndToken) == st;
      LeadsBlanks(st, blanks[1..]);
      LeadsChain(st, [blanks[0]], st, blanks[1..], st);
      assert [blanks[0]] + blanks[1..] == blanks;
    }
  }

  /** A redirect has been read up to its target. */
  function Redirecting(st: Scan): Scan {
    st.FlushToken().(pendingRedirect := true)
  }

  predicate IsRedirect(op: string) {
    op == ">" || op == ">>" || op == ">|"
  }

  lemma LeadsMore(st: Scan, c: char, action: Action)
    requires st.mode.Closed() && Between(st) && st.pendingRedirect
    requires (c == '>' && action == Redirect) || (c == '|' && action == Skip)
    ensures Leads(st, [c], st)
  {
    LeadsStep(st, c, action);
    assert Apply(st, action) == st;
  }

  lemma LeadsRedirect(st: Scan, op: string)
    requires st.mode.Closed() && (!st.tokenStarted ==> st.token == "") && IsRedirect(op)
    ensures Leads(st, op, Redirecting(st)) && Between(Redirecting(st))
  {
    var open := Redirecting(st);
    LeadsStep(st, '>', Redirect);
    assert Apply(st, Redirect) == open;
    if |op| > 1 {
      LeadsMore(open, op[1], if op == ">>" then Redirect else Skip);
      LeadsChain(st, ">", open, [op[1]], open);
      assert op == ">" + [op[1]];
    }
  }

  lemma LeadsTarget(st: Scan, op: string, blanks: string, word: Word)
    requires st.mode.Closed() && (!st.tokenStarted ==> st.token == "") && IsRedirect(op) && IsBlanks(blanks)
    requires CanRender(word.text, word.style)
    ensures Leads(st, op + blanks + Render(word.text, word.style), AtWordEnd(Redirecting(st), word.text))
  {
    var open := Redirecting(st);
    LeadsRedirect(st, op);
    LeadsBlanks(open, blanks);
    LeadsChain(st, op, open, blanks, open);
    LeadsWord(open, word);
    LeadsChain(st, op + blanks, open, Render(word.text, word.style), AtWordEnd(open, word.text));
  }

  /** The segment a text ends in, with one more file it is redirected to. */
  function Redirected(c: string, target: string): Segment {
    var last := Run(INITIAL, c).FlushToken().current;
    last.(redirects := last.redirects + [target])
  }

  lemma RunsThrough(c1: string, text: string, end: Scan)
    requires Neutral(c1) && Follows(text) && Leads(Run(INITIAL, c1), text, end)
    ensures Run(INITIAL, c1 + text) == end
  {
    RunSplit(INITIAL, c1, text);
    assert text + [] == text;
  }

  lemma RunsToTarget(c1: string, op: string, blanks: string, word: Word)
    requires Neutral(c1) && IsRedirect(op) && IsBlanks(blanks) && CanRender(word.text, word.style)
    ensures Run(INITIAL, c1 + (op + blanks + Render(word.text, word.style)))
      == AtWordEnd(Redirecting(Run(INITIAL, c1)), word.text)
  {
    var text := op + blanks + Render(word.text, word.style);
    RunFits(INITIAL, c1, 0);
    LeadsTarget(Run(INITIAL, c1), op, blanks, word);
    assert text[0] == op[0] == '>';
    RunsThrough(c1, text, AtWordEnd(Redirecting(Run(INITIAL, c1)), word.text));
  }

  lemma TargetFlushed(st: Scan, target: string)
    ensures AtWordEnd(Redirecting(st), target).FlushSegment(false).segments
      == st.segments + [st.FlushToken().current.(redirects := st.FlushToken().current.redirects + [target])]
  {
    assert st.FlushToken().segments == st.segments;
  }

  /** The word behind `>`, `>>` or `>|` is where the command's output goes and none of its words. */
  lemma RedirectTakesWord(c1: string, op: string, blanks: string, word: Word)
    requires Neutral(c1) && IsRedirect(op) && IsBlanks(blanks) && CanRender(word.text, word.style)
    ensures var c := c1 + (op + blanks + Render(word.text, word.style));
      && QuotesClosed(c)
      && Lex(c) == Run(INITIAL, c1).segments + [Redirected(c1, word.text)]
    ensures Lex(c1) == Run(INITIAL, c1).segments + if EndsInCommand(c1) then [Run(INITIAL, c1).FlushToken().current] else []
  {
    RunsToTarget(c1, op, blanks, word);
    TargetFlushed(Run(INITIAL, c1), word.text);
    ClosedLex(c1);
    ClosedLex(c1 + (op + blanks + Render(word.text, word.style)));
  }
}
