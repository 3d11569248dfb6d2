/** The shell lexer of internal/policy/shell.go: one pass over a command text that cuts it into
    segments, keeping nine pieces of scanner state.  Text is a sequence of one-byte characters, so
    lower-casing maps every character on its own. */
module ShellLexer {
  import opened Text

  // ---------- text ----------

  predicate HasQuote(s: string) {
    '\'' in s || '\"' in s
  }

  /** stripQuotes: both kinds of quote become a space. */
  function StripQuotes(s: string): (r: string)
    ensures |r| == |s| && !HasQuote(r)
    ensures forall i :: 0 <= i < |s| ==> r[i] == if s[i] == '\'' || s[i] == '\"' then ' ' else s[i]
  {
    seq(|s|, i requires 0 <= i < |s| => if s[i] == '\'' || s[i] == '\"' then ' ' else s[i])
  }

  function Join(words: seq<string>): string {
    if |words| == 0 then ""
    else if |words| == 1 then words[0]
    else words[0] + " " + Join(words[1..])
  }

  // ---------- segments ----------

  datatype Segment = Segment(
    tokens: seq<string>,
    redirects: seq<string>,
    commands: seq<string>,
    pipedIn: bool,
    indirect: bool)
  {
    predicate IsEmpty() {
      |tokens| == 0 && |redirects| == 0 && !indirect
    }
  }

  function FreshSegment(piped: bool): Segment {
    Segment([], [], [], piped, false)
  }

  predicate IsSegmentSeparator(c: char) {
    c == ';' || c == '&' || c == '(' || c == ')' || c == '\n' || c == '\r' || c == '\0'
  }

  predicate IsTokenSeparator(c: char) {
    c == ' ' || c == '\t' || c == '\U{0C}' || c == '\U{0B}' || c == '<' || c == '{' || c == '}'
  }

  // ---------- scanner ----------

  /** Which quotes and substitutions are open. */
  datatype Mode = Mode(singleQuoted: bool, doubleQuoted: bool, depth: nat, inBacktick: bool) {
    /** Inside double quotes and outside any substitution: everything but escapes is literal. */
    predicate Literal() {
      doubleQuoted && depth == 0 && !inBacktick
    }

    predicate QuoteOpen() {
      singleQuoted || doubleQuoted
    }

    predicate Closed() {
      !singleQuoted && !doubleQuoted && depth == 0 && !inBacktick
    }
  }

  /** The local variables of the scanning loop. */
  datatype Scan = Scan(
    segments: seq<Segment>,
    current: Segment,
    token: string,
    tokenStarted: bool,
    pendingRedirect: bool,
    mode: Mode)
  {
    function FlushToken(): Scan {
      if !tokenStarted then
        this
      else if pendingRedirect then
        this.(current := current.(redirects := current.redirects + [token]),
              token := "", tokenStarted := false, pendingRedirect := false)
      else
        this.(current := current.(tokens := current.tokens + [token]),
              token := "", tokenStarted := false)
    }

    /** The second half of flushSegment, with no token left to flush. */
    function CloseSegment(nextPiped: bool): Scan {
      var emitted := !current.IsEmpty();
      // an empty segment does not cut a pipe
      var piped := if !emitted && !nextPiped then current.pipedIn else nextPiped;
      this.(segments := if emitted then segments + [current] else segments,
            current := FreshSegment(piped),
            pendingRedirect := false)
    }

    function FlushSegment(nextPiped: bool): Scan {
      FlushToken().CloseSegment(nextPiped)
    }

    function WriteRune(c: char): Scan {
      this.(token := token + [c], tokenStarted := true)
    }

    /** markCommandSubstitution: a substitution in command position cannot be resolved. */
    function MarkSubstitution(): Scan {
      if |current.tokens| == 0 && !tokenStarted then
        this.(current := current.(indirect := true))
      else
        this
    }

    function StartToken(): Scan {
      this.(tokenStarted := true)
    }
  }

  const INITIAL: Scan := Scan([], FreshSegment(false), "", false, false, Mode(false, false, 0, false))

  function LookAhead(s: string): Option<char> {
    if |s| > 1 then Some(s[1]) else None
  }

  /** How many characters one turn of the loop takes: two for an escape, `$(` and `||`. */
  function Width(st: Scan, c: char, next: Option<char>): (n: nat)
    ensures 1 <= n <= 2
    ensures next.None? ==> n == 1
  {
    if st.mode.singleQuoted then 1
    else if c == '\\' && next.Some? then 2
    else if c == '$' && next == Some('(') then 2
    else if c == '|' && !st.mode.Literal() && !st.pendingRedirect && next == Some('|') then 2
    else 1
  }

  /** What one turn of the loop does to the state. */
  datatype Action =
    | Write(c: char)
    | CloseSingle
    | OpenSingle
    | ToggleDouble
    | OpenSubstitution
    | CloseSubstitution
    | ToggleBacktick
    | Skip
    | Cut(piped: bool)
    | Redirect
    | EndToken

  /** The switch of the loop: which action the current character asks for. */
  function Act(st: Scan, c: char, next: Option<char>): Action {
    if st.mode.singleQuoted then
      if c == '\'' then CloseSingle else Write(c)
    else if c == '\\' && next.Some? then Write(next.value)
    else if c == '\'' && !st.mode.Literal() then OpenSingle
    else if c == '\"' then ToggleDouble
    else if c == '$' && next == Some('(') then OpenSubstitution
    else if c == '`' then ToggleBacktick
    else if c == ')' && st.mode.depth > 0 then CloseSubstitution
    else if st.mode.Literal() then Write(c)
    else if c == '|' then
      if st.pendingRedirect then Skip else Cut(next != Some('|'))
    else if IsSegmentSeparator(c) then Cut(false)
    else if c == '>' then Redirect
    else if IsTokenSeparator(c) then EndToken
    else Write(c)
  }

  function NextMode(mode: Mode, action: Action): Mode {
    match action
    case CloseSingle => mode.(singleQuoted := false)
    case OpenSingle => mode.(singleQuoted := true)
    case ToggleDouble => mode.(doubleQuoted := !mode.doubleQuoted)
    case OpenSubstitution => mode.(depth := mode.depth + 1)
    case CloseSubstitution => mode.(depth := if mode.depth > 0 then mode.depth - 1 else 0)
    case ToggleBacktick => mode.(inBacktick := !mode.inBacktick)
    case _ => mode
  }

  /** The part of an action that writes a character, starts a token or marks a substitution. */
  function Ink(st: Scan, action: Action): Scan {
    if action.Write? then st.WriteRune(action.c)
    else if action.OpenSingle? || action.ToggleDouble? then st.StartToken()
    else if action.OpenSubstitution? || action.ToggleBacktick? then st.MarkSubstitution()
    else st
  }

  /** The part of an action that ends a token or a segment. */
  function Finish(st: Scan, action: Action): Scan {
    match action
    case OpenSubstitution => st.FlushSegment(false)
    case CloseSubstitution => st.FlushSegment(false)
    case ToggleBacktick => st.FlushSegment(false)
    case Cut(piped) => st.FlushSegment(piped)
    case Redirect => st.FlushToken().(pendingRedirect := true)
    case EndToken => st.FlushToken()
    case _ => st
  }

  function Apply(st: Scan, action: Action): Scan {
    Finish(Ink(st, action).(mode := NextMode(st.mode, action)), action)
  }

  /** One turn of the scanning loop. */
  function Step(st: Scan, c: char, next: Option<char>): Scan {
    Apply(st, Act(st, c, next))
  }

  /** The whole loop from a given state over the remaining text. */
  function Run(st: Scan, s: string): Scan
    decreases |s|
  {
    if |s| == 0 then st
    else
      Run(Step(st, s[0], LookAhead(s)), s[Width(st, s[0], LookAhead(s))..])
  }

  lemma StepWithoutQuotes(st: Scan, c: char, next: Option<char>)
    requires !st.mode.QuoteOpen() && c != '\'' && c != '\"'
    ensures !Step(st, c, next).mode.QuoteOpen()
  {
    assert !Act(st, c, next).OpenSingle? && !Act(st, c, next).ToggleDouble?;
  }

  lemma {:induction false} RunWithoutQuotes(st: Scan, s: string)
    requires !HasQuote(s) && !st.mode.QuoteOpen()
    ensures !Run(st, s).mode.QuoteOpen()
    decreases |s|
  {
    if |s| > 0 {
      assert s[0] in s;
      StepWithoutQuotes(st, s[0], LookAhead(s));
      RunWithoutQuotes(Step(st, s[0], LookAhead(s)), s[Width(st, s[0], LookAhead(s))..]);
    }
  }

  /** lexShellSegments: an open quote at the end adds a second scan of the text without quotes.
      The second scan can never ask for a third: that is what makes the recursion end. */
  function Lex(command: string): seq<Segment>
    decreases if HasQuote(command) then 1 else 0
  {
    var last := Run(INITIAL, command).FlushSegment(false);
    if last.mode.QuoteOpen() then
      assert HasQuote(command) by {
        if !HasQuote(command) { RunWithoutQuotes(INITIAL, command); }
      }
      last.segments + Lex(StripQuotes(command))
    else
      last.segments
  }

  /** The body of the loop as it is written: a switch over the current character. */
  method ScanCharacter(before: Scan, value: char, next: Option<char>) returns (st: Scan, taken: nat)
    ensures st == Step(before, value, next)
    ensures taken == Width(before, value, next)
  {
    st, taken := before, 1;
    var mode := st.mode;
    if mode.singleQuoted {
      st := if value == '\'' then st.(mode := mode.(singleQuoted := false)) else st.WriteRune(value);
    } else if value == '\\' && next.Some? {
      taken := 2;
      st := st.WriteRune(next.value);
    } else if value == '\'' && !mode.Literal() {
      st := st.StartToken().(mode := mode.(singleQuoted := true));
    } else if value == '\"' {
      st := st.StartToken().(mode := mode.(doubleQuoted := !mode.doubleQuoted));
    } else if value == '$' && next == Some('(') {
      taken := 2;
      st := st.MarkSubstitution().(mode := mode.(depth := mode.depth + 1));
      st := st.FlushSegment(false);
    } else if value == '`' {
      st := st.MarkSubstitution().(mode := mode.(inBacktick := !mode.inBacktick));
      st := st.FlushSegment(false);
    } else if value == ')' && mode.depth > 0 {
      st := st.(mode := mode.(depth := mode.depth - 1));
      st := st.FlushSegment(false);
    } else if mode.Literal() {
      st := st.WriteRune(value);
    } else {
      st, taken := ScanPlainCharacter(st, value, next);
    }
  }

  /** The cases of the switch outside all quotes. */
  method ScanPlainCharacter(before: Scan, value: char, next: Option<char>) returns (st: Scan, taken: nat)
    requires !before.mode.singleQuoted && !before.mode.Literal()
    requires value != '\'' && value != '\"' && value != '`' && !(value == ')' && before.mode.depth > 0)
    requires !(value == '\\' && next.Some?) && !(value == '$' && next == Some('('))
    ensures st == Step(before, value, next)
    ensures taken == Width(before, value, next)
  {
    st, taken := before, 1;
    if value == '|' {
      if !st.pendingRedirect {
        if next == Some('|') {
          taken := 2;
          st := st.FlushSegment(false);
        } else {
          st := st.FlushSegment(true);
        }
      }
    } else if IsSegmentSeparator(value) {
      st := st.FlushSegment(false);
    } else if value == '>' {
      st := st.FlushToken();
      st := st.(pendingRedirect := true);
    } else if IsTokenSeparator(value) {
      st := st.FlushToken();
    } else {
      st := st.WriteRune(value);
    }
  }

  /** lexShellSegments as it is written: an index moving over the text, then the fallback rescan. */
  method LexShellSegments(command: string) returns (segments: seq<Segment>)
    ensures segments == Lex(command)
    decreases if HasQuote(command) then 1 else 0
  {
    var st, index := INITIAL, 0;
    assert command[0..] == command;
    while index < |command|
      invariant 0 <= index <= |command|
      invariant Run(INITIAL, command) == Run(st, command[index..])
    {
      var next := if index + 1 < |command| then Some(command[index + 1]) else None;
      ghost var rest := command[index..];
      assert LookAhead(rest) == next && rest[0] == command[index];
      var taken: nat;
      st, taken := ScanCharacter(st, command[index], next);
      assert rest[taken..] == command[index + taken..];
      index := index + taken;
    }
    st := st.FlushSegment(false);
    segments := st.segments;
    if st.mode.QuoteOpen() {
      if !HasQuote(command) { RunWithoutQuotes(INITIAL, command); }
      var rescanned := LexShellSegments(StripQuotes(command));
      segments := segments + rescanned;
    }
  }

  /** A rescan is final: the text without quotes is scanned exactly once. */
  lemma RescanIsFinal(command: string)
    ensures Lex(StripQuotes(command)) == Run(INITIAL, StripQuotes(command)).FlushSegment(false).segments
  {
    RunWithoutQuotes(INITIAL, StripQuotes(command));
  }

  // ---------- a segment is never longer than its text ----------

  function Weight(tokens: seq<string>): nat {
    if |tokens| == 0 then 0 else |tokens[0]| + 1 + Weight(tokens[1..])
  }

  lemma {:induction false} WeightAppend(tokens: seq<string>, token: string)
    ensures Weight(tokens + [token]) == Weight(tokens) + |token| + 1
    decreases |tokens|
  {
    if |tokens| > 0 {
      assert (tokens + [token])[1..] == tokens[1..] + [token];
      WeightAppend(tokens[1..], token);
    }
  }

  lemma {:induction false} JoinWeight(tokens: seq<string>)
    requires |tokens| > 0
    ensures |Join(tokens)| + 1 == Weight(tokens)
    decreases |tokens|
  {
    if |tokens| > 1 { JoinWeight(tokens[1..]); }
  }

  predicate Fits(st: Scan, n: nat) {
    && (!st.tokenStarted ==> st.token == "")
    && Weight(st.current.tokens) + |st.token| <= n
    && (forall seg <- st.segments :: Weight(seg.tokens) <= n)
  }

  lemma FlushTokenFits(st: Scan, n: nat)
    requires Fits(st, n)
    ensures Fits(st.FlushToken(), n + 1)
  {
    WeightAppend(st.current.tokens, st.token);
  }

  lemma FlushSegmentFits(st: Scan, piped: bool, n: nat)
    requires Fits(st, n)
    ensures Fits(st.FlushSegment(piped), n + 1)
  {
    FlushTokenFits(st, n);
  }

  lemma KeepsFitting(st: Scan, after: Scan, n: nat, m: nat)
    requires Fits(st, n) && n <= m
    requires after.segments == st.segments && after.current.tokens == st.current.tokens
    requires after.tokenStarted || after.token == ""
    requires |after.token| <= |st.token| + m - n
    ensures Fits(after, m)
  {
  }

  lemma ApplyFits(st: Scan, action: Action, n: nat)
    requires Fits(st, n)
    ensures Fits(Apply(st, action), n + 1)
  {
    var inked := Ink(st, action).(mode := NextMode(st.mode, action));
    if action.Write? || action.OpenSingle? || action.ToggleDouble? || action.CloseSingle? || action.Skip? {
      KeepsFitting(st, inked, n, n + 1);
    } else {
      KeepsFitting(st, inked, n, n);
      FlushTokenFits(inked, n);
      FlushSegmentFits(inked, false, n);
      FlushSegmentFits(inked, true, n);
    }
  }

  lemma {:induction false} RunFits(st: Scan, s: string, n: nat)
    requires Fits(st, n)
    ensures Fits(Run(st, s), n + |s|)
    decreases |s|
  {
    if |s| > 0 {
      var w := Width(st, s[0], LookAhead(s));
      ApplyFits(st, Act(st, s[0], LookAhead(s)), n);
      KeepsFitting(Step(st, s[0], LookAhead(s)), Step(st, s[0], LookAhead(s)), n + 1, n + w);
      RunFits(Step(st, s[0], LookAhead(s)), s[w..], n + w);
    }
  }

  /** Joining the words of any segment with spaces gives at most the text the segment came from. */
  lemma {:induction false} SegmentNeverLonger(command: string)
    ensures forall seg <- Lex(command) :: |Join(seg.tokens)| <= |command|
    decreases if HasQuote(command) then 1 else 0
  {
    var end := Run(INITIAL, command);
    var last := end.FlushSegment(false);
    RunFits(INITIAL, command, 0);
    FlushSegmentFits(end, false, |command|);
    forall seg <- last.segments ensures |Join(seg.tokens)| <= |command| {
      if |seg.tokens| > 0 { JoinWeight(seg.tokens); }
    }
    if last.mode.QuoteOpen() {
      if !HasQuote(command) { RunWithoutQuotes(INITIAL, command); }
      SegmentNeverLonger(StripQuotes(command));
    }
  }
}
