/** Text left in a shell buffer, for the policy the gateway is built with: runs in which a line that is denied
    alone is forwarded, a first one behind a word that was left there and a later one behind a quote. */
module ShellLeftText {
  import opened Text
  import opened ShellLexer
  import opened ShellExpand
  import opened ShellRules
  import opened ShellQuoting
  import opened ShellCompose
  import opened ShellGuard
  import opened ShellBuffers
  import opened ShellSessions

  predicate IsPlain(word: string) {
    forall i | 0 <= i < |word| :: 'a' <= word[i] <= 'z'
  }

  predicate Outside(st: Scan) { st.mode == INITIAL.mode }

  lemma {:induction false} LeadsPlain(st: Scan, word: string)
    requires Outside(st) && IsPlain(word)
    ensures Leads(st, word, Written(st, word))
    decreases |word|
  {
    if |word| == 0 {
      assert Written(st, word) == st by { assert st.token + word == st.token; }
      LeadsNowhere(st);
    } else {
      LeadsStep(st, word[0], Write(word[0]));
      LeadsPlain(st.WriteRune(word[0]), word[1..]);
      WrittenMore(st, word);
      LeadsChain(st, [word[0]], st.WriteRune(word[0]), word[1..], Written(st, word));
      assert [word[0]] + word[1..] == word;
    }
  }

  function Plain(tokens: seq<string>): Segment { Segment(tokens, [], [], false, false) }

  /** A token is being read, behind those of the only segment. */
  function Reading(tokens: seq<string>, token: string): Scan {
    INITIAL.(current := Plain(tokens), token := token, tokenStarted := token != "")
  }

  lemma WriteFirst(tokens: seq<string>, word: string)
    ensures Written(Reading(tokens, ""), word) == Reading(tokens, word)
  {
    assert "" + word == word;
  }

  lemma ReadingLexes(text: string, tokens: seq<string>, token: string)
    requires Leads(INITIAL, text, Reading(tokens, token)) && (|tokens| > 0 || token != "")
    ensures Lex(text) == [Plain(if token == "" then tokens else tokens + [token])]
  {
    assert text + "" == text;
    assert Run(INITIAL, text + "") == Run(Reading(tokens, token), "");
  }

  lemma LeadsSpace(word: string)
    requires word != ""
    ensures Leads(Reading([], word), " ", Reading([word], ""))
  {
    var st := Reading([], word);
    assert [] + [word] == [word];
    assert Apply(st, EndToken) == st.FlushToken() == Reading([word], "");
    assert forall next :: Act(st, ' ', next) == EndToken && Width(st, ' ', next) == 1;
    LeadsStep(st, ' ', EndToken);
  }

  lemma LeadsSpaced(word: string, next: string)
    requires IsPlain(word) && word != "" && IsPlain(next)
    ensures Leads(INITIAL, (word + " ") + next, Reading([word], next))
  {
    LeadsWord(word);
    LeadsSpace(word);
    LeadsChain(INITIAL, word, Reading([], word), " ", Reading([word], ""));
    LeadsPlain(Reading([word], ""), next);
    WriteFirst([word], next);
    LeadsChain(INITIAL, word + " ", Reading([word], ""), next, Reading([word], next));
  }

  lemma LowerPlain(word: string)
    requires IsPlain(word)
    ensures Lower(word) == word
  {
  }

  lemma EchoIsOrdinary()
    ensures "echo" !in WORDS.keywords && "echo" !in WORDS.applets && "echo" !in WORDS.shells && "echo" !in WORDS.argumentWrappers
    ensures "reboot" !in WORDS.keywords && "reboot" !in WORDS.applets && "reboot" !in WORDS.shells && "reboot" !in WORDS.argumentWrappers
  {
    assert |"echo"| == 4 && "echo"[0] == 'e' && "echo"[1] == 'c';
    assert |"reboot"| == 6 && "reboot"[0] == 'r';
  }

  predicate Ordinary(command: string) {
    && IsPlain(command) && command != "" && command != "env"
    && command !in WORDS.keywords && command !in WORDS.applets && command !in WORDS.shells && command !in WORDS.argumentWrappers
  }

  lemma PlainBase(word: string)
    requires IsPlain(word)
    ensures BaseExecutable(word) == word && !IsEnvironmentAssignment(word) && '$' !in word
  {
  }

  /** No word of the segment is a shell by its base name. */
  predicate NoShells(tokens: seq<string>) {
    forall i | 0 <= i < |tokens| :: BaseExecutable(tokens[i]) !in WORDS.shells
  }

  /** A segment whose first word names a command and no wrapper: it is that command. */
  lemma UnfoldPlain(tokens: seq<string>)
    requires |tokens| > 0 && Ordinary(tokens[0]) && NoShells(tokens)
    ensures Unfold(SHELL, Plain(tokens), 0) == [Plain(tokens).(commands := [tokens[0]])]
  {
    PlainBase(tokens[0]);
    NoInline(tokens, 0);
    assert ResolveCommands(WORDS, tokens, 0) == [tokens[0]];
  }

  lemma AnalyzePlain(tokens: seq<string>)
    requires |tokens| > 0 && Ordinary(tokens[0]) && NoShells(tokens)
    ensures Expand(SHELL, [Plain(tokens)], 0) == [Plain(tokens).(commands := [tokens[0]])]
  {
    UnfoldPlain(tokens);
    assert [Plain(tokens)][1..] == [];
  }

  lemma {:induction false} NoInline(tokens: seq<string>, index: nat)
    requires index <= |tokens| && NoShells(tokens)
    ensures InlineFrom(WORDS, tokens, index) == ""
    decreases |tokens| - index
  {
    if index < |tokens| { NoInline(tokens, index + 1); }
  }

  // ---------- decisions on plain words ----------

  lemma LeadsWord(word: string)
    requires IsPlain(word)
    ensures Leads(INITIAL, word, Reading([], word))
  {
    assert Reading([], "") == INITIAL;
    LeadsPlain(INITIAL, word);
    WriteFirst([], word);
  }

  lemma OneWordLexes(word: string)
    requires IsPlain(word) && word != ""
    ensures Lex(word) == [Plain([word])]
  {
    LeadsWord(word);
    ReadingLexes(word, [], word);
    assert [] + [word] == [word];
  }

  /** Segments that only echo. */
  predicate OnlyEchoes(segments: seq<Segment>) {
    forall i | 0 <= i < |segments| :: segments[i] == Plain(segments[i].tokens).(commands := ["echo"])
  }

  lemma EchoIsHarmless(segments: seq<Segment>)
    requires OnlyEchoes(segments)
    ensures FirstRule(CORE_RULES, segments) == None
  {
    assert "echo"[0] == 'e' && "echo"[1] == 'c' && "echo"[2] == 'h' && "echo"[3] == 'o';
    assert !HasIndirectCommand(segments) && !IsPowerControl(segments) && !ChangesHdcDaemonState(segments);
    assert !KillsHdcDaemon(segments) && !RemountsFilesystem(segments) && !RemovesCriticalPath(segments);
    assert !WritesDeviceNode(segments);
    FirstRuleIff(CORE_RULES, segments);
  }

  lemma {:induction false} NoTail(text: string)
    requires '\\' !in text
    ensures !OddTail(text, false)
    decreases |text|
  {
    if |text| > 0 { NoTail(text[1..]); }
  }

  lemma ReadingIsNeutral(text: string, tokens: seq<string>, token: string)
    requires Leads(INITIAL, text, Reading(tokens, token)) && '\\' !in text
    ensures Neutral(text)
  {
    assert text + "" == text;
    assert Run(INITIAL, text + "") == Run(Reading(tokens, token), "");
    EscapeParity(INITIAL, text, false);
    NoTail(text);
  }

  function EchoLine(next: string): string {
    ("echo" + " ") + next
  }

  lemma EchoLineIsPlain(next: string)
    requires IsPlain(next)
    ensures Lower(EchoLine(next)) == EchoLine(next) && Neutral(EchoLine(next))
    ensures Lex(EchoLine(next)) == [Plain(if next == "" then ["echo"] else ["echo", next])]
  {
    LeadsSpaced("echo", next);
    ReadingLexes(EchoLine(next), ["echo"], next);
    ReadingIsNeutral(EchoLine(next), ["echo"], next);
    assert ["echo"] + [next] == ["echo", next];
  }

  /** The policy without configured executables. */
  ghost predicate BuiltIn(policy: Policy) {
    policy.extra == {} && policy.reader == SHELL && policy.rules == CORE_RULES
  }

  lemma NewPolicyIsBuiltIn()
    ensures BuiltIn(NewPolicy([]))
  {
  }

  lemma PlainAnalysis(policy: Policy, text: string, tokens: seq<string>)
    requires policy.reader == SHELL && Lower(text) == text && Lex(text) == [Plain(tokens)]
    requires |tokens| > 0 && Ordinary(tokens[0]) && NoShells(tokens)
    ensures policy.Analyze(text) == [Plain(tokens).(commands := [tokens[0]])]
  {
    AnalyzePlain(tokens);
  }

  lemma EchoIsJudged(policy: Policy, segments: seq<Segment>)
    requires policy.extra == {} && policy.rules == CORE_RULES && OnlyEchoes(segments)
    ensures policy.Judge("studio-debug", segments) == Allow
  {
    EchoIsHarmless(segments);
    FirstExtraIff(segments, policy.extra);
  }

  /** A line that echoes a plain word is allowed, */
  lemma EchoIsAllowed(policy: Policy, next: string)
    requires BuiltIn(policy) && IsPlain(next) && next !in WORDS.shells
    ensures policy.InspectShell("studio-debug", EchoLine(next)) == Allow
  {
    var tokens := if next == "" then ["echo"] else ["echo", next];
    EchoLineIsPlain(next);
    EchoIsOrdinary();
    PlainBase(next);
    PlainBase("echo");
    PlainAnalysis(policy, EchoLine(next), tokens);
    EchoIsJudged(policy, [Plain(tokens).(commands := ["echo"])]);
  }

  /** while the word alone may be denied. */
  lemma RebootIsDenied(policy: Policy, profile: string)
    requires BuiltIn(policy)
    ensures policy.Denies(profile, "reboot")
  {
    OneWordLexes("reboot");
    LowerPlain("reboot");
    EchoIsOrdinary();
    PlainBase("reboot");
    PlainAnalysis(policy, "reboot", ["reboot"]);
    RebootIsJudged(policy, profile, ["reboot"]);
  }

  lemma RebootIsJudged(policy: Policy, profile: string, tokens: seq<string>)
    requires policy.rules == CORE_RULES
    ensures policy.Judge(profile, [Plain(tokens).(commands := ["reboot"])]).Deny?
  {
    var segments := [Plain(tokens).(commands := ["reboot"])];
    assert HasExecutable(segments[0], "reboot") && IsPowerControl(segments);
    assert CORE_RULES[1] in CORE_RULES && CORE_RULES[1].matches(segments);
    FirstRuleIff(CORE_RULES, segments);
  }

  lemma NothingIsAllowed(policy: Policy, profile: string)
    ensures policy.InspectShell(profile, "") == Allow
  {
    assert Lower("") == "" && Lex("") == [];
  }

  lemma EchoTerminated(policy: Policy, next: string)
    requires IsPlain(next)
    ensures policy.InspectShell("studio-debug", EchoLine(next) + ['\n']) == policy.InspectShell("studio-debug", EchoLine(next))
  {
    EchoLineIsPlain(next);
    TerminatorAddsNothing(policy, "studio-debug", EchoLine(next), '\n');
  }

  lemma EchoTexts()
    ensures EchoLine("") == "echo " && EchoLine("reboot") + ['\n'] == "echo " + "reboot\n"
  {
  }

  lemma EchoedLine(policy: Policy)
    requires BuiltIn(policy)
    ensures policy.InspectShell("studio-debug", "echo ") == Allow
    ensures policy.InspectShell("studio-debug", "echo " + "reboot\n") == Allow
  {
    EchoIsOrdinary();
    EchoIsAllowed(policy, "");
    EchoIsAllowed(policy, "reboot");
    EchoTerminated(policy, "reboot");
    EchoTexts();
  }

  /** What the run delivers. */
  ghost predicate Carries(inspect: string -> Decision, channel: nat) {
    Outcomes(inspect, NO_SESSIONS, LeaveAndReopen(channel, "echo ", "reboot\n"))
      == [Forwarded(""), Forwarded("echo "), Forwarded(""), Forwarded("reboot\n")]
  }

  lemma EchoJoinsReboot(inspect: string -> Decision, channel: nat)
    requires inspect("").Allow? && inspect("echo ").Allow? && inspect("echo " + "reboot\n").Allow?
    ensures Carries(inspect, channel)
  {
    LeftTextJoinsNext(inspect, channel, "echo ", "reboot\n");
  }

  /** A run in which a session starts with what was accepted too late for the one before, and so is sent a
      first line that is denied alone. */
  lemma LeftTextCarriesDeniedLine(policy: Policy, channel: nat)
    requires policy == NewPolicy([])
    ensures policy.Denies("studio-debug", "reboot")
    ensures Carries(Inspector(policy, "studio-debug"), channel)
  {
    NewPolicyIsBuiltIn();
    RebootIsDenied(policy, "studio-debug");
    EchoedLine(policy);
    NothingIsAllowed(policy, "studio-debug");
    EchoJoinsReboot(Inspector(policy, "studio-debug"), channel);
  }

  // ---------- a quote left behind ----------

  /** Inside single quotes, in the first argument of echo. */
  function Quoting(word: string): Scan {
    Closed(word).(mode := INITIAL.mode.(singleQuoted := true))
  }

  function Closed(word: string): Scan {
    INITIAL.(current := Plain(["echo"]), token := word, tokenStarted := true)
  }

  const LEFT_QUOTE := ("echo" + " ") + "'"

  lemma LeadsQuote()
    ensures Leads(INITIAL, LEFT_QUOTE, Quoting(""))
  {
    var st := Reading(["echo"], "");
    LeadsSpaced("echo", "");
    assert ("echo" + " ") + "" == "echo" + " ";
    assert Apply(st, OpenSingle) == Quoting("");
    LeadsStep(st, '\'', OpenSingle);
    LeadsChain(INITIAL, "echo" + " ", st, "'", Quoting(""));
  }

  lemma LeadsUnquote(word: string)
    requires '\'' !in word
    ensures Leads(Quoting(""), word + "'", Closed(word))
  {
    LeadsInSingle(Quoting(""), word);
    assert "" + word == word && Written(Quoting(""), word) == Quoting(word);
    assert Apply(Quoting(word), CloseSingle) == Closed(word);
    LeadsStep(Quoting(word), '\'', CloseSingle);
    LeadsChain(Quoting(""), word, Quoting(word), "'", Closed(word));
  }

  lemma QuotedLexes(word: string)
    requires '\'' !in word
    ensures Lex(LEFT_QUOTE + (word + "'")) == [Plain(["echo", word])] && Neutral(LEFT_QUOTE + (word + "'"))
  {
    var text := LEFT_QUOTE + (word + "'");
    LeadsQuote();
    LeadsUnquote(word);
    LeadsChain(INITIAL, LEFT_QUOTE, Quoting(""), word + "'", Closed(word));
    assert text + "" == text && Run(INITIAL, text + "") == Run(Closed(word), "");
    assert ["echo"] + [word] == ["echo", word];
    EscapeParity(INITIAL, text, false);
    EndsOtherwise(LEFT_QUOTE + word, '\'', false);
    assert text == (LEFT_QUOTE + word) + ['\''];
  }

  lemma {:induction false} EndsOtherwise(front: string, last: char, odd: bool)
    requires last != '\\'
    ensures !OddTail(front + [last], odd)
    decreases |front|
  {
    var text := front + [last];
    if |front| > 0 {
      assert text[1..] == front[1..] + [last];
      EndsOtherwise(front[1..], last, text[0] == '\\' && !odd);
    } else {
      assert text[1..] == [];
    }
  }

  lemma LeadsSpaces()
    ensures Leads(INITIAL, ("echo" + " ") + " ", Reading(["echo"], ""))
  {
    var st := Reading(["echo"], "");
    LeadsSpaced("echo", "");
    assert ("echo" + " ") + "" == "echo" + " ";
    assert Apply(st, EndToken) == st;
    LeadsStep(st, ' ', EndToken);
    LeadsChain(INITIAL, "echo" + " ", st, " ", st);
  }

  /** The open quote is scanned again as a space. */
  lemma LeftQuoteLexes()
    ensures Lex(LEFT_QUOTE) == [Plain(["echo", ""]), Plain(["echo"])]
  {
    var spaces := ("echo" + " ") + " ";
    LeadsQuote();
    assert LEFT_QUOTE + "" == LEFT_QUOTE && Run(INITIAL, LEFT_QUOTE + "") == Run(Quoting(""), "");
    assert StripQuotes(LEFT_QUOTE) == spaces;
    LeadsSpaces();
    ReadingLexes(spaces, ["echo"], "");
    assert ["echo"] + [""] == ["echo", ""];
    assert [Plain(["echo", ""])] + [Plain(["echo"])] == [Plain(["echo", ""]), Plain(["echo"])];
  }

  predicate NoCapitals(text: string) {
    forall i | 0 <= i < |text| :: !('A' <= text[i] <= 'Z')
  }

  lemma LowerSame(text: string)
    requires NoCapitals(text)
    ensures Lower(text) == text
  {
  }

  lemma EchoIsCommand(word: string)
    requires BaseExecutable(word) !in WORDS.shells
    ensures Ordinary("echo") && NoShells(["echo", word]) && NoShells(["echo"])
  {
    EchoIsOrdinary();
    PlainBase("echo");
  }

  lemma LeftQuoteExpands()
    ensures Expand(SHELL, [Plain(["echo", ""]), Plain(["echo"])], 0)
      == [Plain(["echo", ""]).(commands := ["echo"]), Plain(["echo"]).(commands := ["echo"])]
  {
    PlainBase("");
    EchoIsOrdinary();
    EchoIsCommand("");
    UnfoldPlain(["echo", ""]);
    AnalyzePlain(["echo"]);
    assert [Plain(["echo", ""]), Plain(["echo"])][1..] == [Plain(["echo"])];
  }

  lemma AllowedWhenOnlyEchoes(policy: Policy, text: string, segments: seq<Segment>)
    requires BuiltIn(policy) && Lower(text) == text && OnlyEchoes(segments) && Expand(SHELL, Lex(text), 0) == segments
    ensures policy.InspectShell("studio-debug", text) == Allow
  {
    EchoIsJudged(policy, segments);
  }

  lemma LeftQuoteIsAllowed(policy: Policy)
    requires BuiltIn(policy)
    ensures policy.InspectShell("studio-debug", LEFT_QUOTE) == Allow
  {
    LeftQuoteLexes();
    LowerSame(LEFT_QUOTE);
    LeftQuoteExpands();
    AllowedWhenOnlyEchoes(policy, LEFT_QUOTE,
      [Plain(["echo", ""]).(commands := ["echo"]), Plain(["echo"]).(commands := ["echo"])]);
  }

  lemma QuotedLower(word: string)
    requires NoCapitals(word)
    ensures Lower(LEFT_QUOTE + (word + "'")) == LEFT_QUOTE + (word + "'")
  {
    LowerSame(word);
    LowerSame(LEFT_QUOTE);
    LowerSame("'");
    LowerConcat(word, "'");
    LowerConcat(LEFT_QUOTE, word + "'");
  }

  lemma QuotedIsAllowed(policy: Policy, word: string)
    requires BuiltIn(policy) && '\'' !in word && NoCapitals(word) && BaseExecutable(word) !in WORDS.shells
    ensures policy.InspectShell("studio-debug", LEFT_QUOTE + (word + "'")) == Allow
  {
    QuotedLexes(word);
    QuotedLower(word);
    EchoIsCommand(word);
    AnalyzePlain(["echo", word]);
    AllowedWhenOnlyEchoes(policy, LEFT_QUOTE + (word + "'"), [Plain(["echo", word]).(commands := ["echo"])]);
  }

  lemma QuotedLineIsAllowed(policy: Policy, word: string)
    requires BuiltIn(policy) && '\'' !in word && NoCapitals(word) && BaseExecutable(word) !in WORDS.shells
    ensures policy.InspectShell("studio-debug", LEFT_QUOTE + (word + "'") + ['\n']) == Allow
  {
    QuotedIsAllowed(policy, word);
    QuotedLexes(word);
    QuotedLower(word);
    TerminatorAddsNothing(policy, "studio-debug", LEFT_QUOTE + (word + "'"), '\n');
  }

  // ---------- the lines ----------

  const REBOOT_QUOTE := ("reboot" + " ") + ['\\', '\'']

  lemma RebootQuoteLexes()
    ensures Lex(REBOOT_QUOTE) == [Plain(["reboot", "'"])] && Neutral(REBOOT_QUOTE)
  {
    var st := Reading(["reboot"], "");
    LeadsSpaced("reboot", "");
    assert ("reboot" + " ") + "" == "reboot" + " ";
    LeadsEscape(st, '\'');
    assert st.WriteRune('\'') == Reading(["reboot"], "'");
    LeadsChain(INITIAL, "reboot" + " ", st, ['\\', '\''], Reading(["reboot"], "'"));
    ReadingLexes(REBOOT_QUOTE, ["reboot"], "'");
    assert ["reboot"] + ["'"] == ["reboot", "'"];
    assert REBOOT_QUOTE + "" == REBOOT_QUOTE && Run(INITIAL, REBOOT_QUOTE + "") == Run(Reading(["reboot"], "'"), "");
    EscapeParity(INITIAL, REBOOT_QUOTE, false);
    EndsOtherwise(("reboot" + " ") + ['\\'], '\'', false);
    assert REBOOT_QUOTE == (("reboot" + " ") + ['\\']) + ['\''];
  }

  lemma RebootQuoteIsDenied(policy: Policy, profile: string)
    requires BuiltIn(policy)
    ensures policy.Denies(profile, REBOOT_QUOTE)
  {
    RebootQuoteLexes();
    LowerSame(REBOOT_QUOTE);
    EchoIsOrdinary();
    PlainBase("reboot");
    assert |"'"| == 1 && "'"[0] == '\'';
    PlainAnalysis(policy, REBOOT_QUOTE, ["reboot", "'"]);
    RebootIsJudged(policy, profile, ["reboot", "'"]);
  }

  /** Two lines, each neutral and short, of which the second is denied alone. */
  function TwoLines(): seq<Line> {
    [Line("x", '\n'), Line(REBOOT_QUOTE, '\n')]
  }

  lemma NeutralLine(text: string)
    requires Neutral(text) && NoCapitals(text) && !HasLineBreak(text) && |text| <= 4096
    ensures ProperLine(Line(text, '\n'), NeutralText())
  {
    LowerSame(text);
  }

  lemma FirstIsProper()
    ensures ProperLine(Line("x", '\n'), NeutralText())
  {
    LeadsWord("x");
    ReadingIsNeutral("x", [], "x");
    NeutralLine("x");
  }

  lemma SecondIsProper()
    ensures ProperLine(Line(REBOOT_QUOTE, '\n'), NeutralText())
  {
    RebootQuoteLexes();
    NeutralLine(REBOOT_QUOTE);
  }

  lemma TwoLinesAreProper()
    ensures ProperLines(TwoLines(), NeutralText())
  {
    FirstIsProper();
    SecondIsProper();
  }

  /** Behind the quote both lines are one word. */
  const QUOTED := "x" + ['\n'] + ("reboot" + " ") + ['\\']

  lemma TwoLinesText()
    ensures LinesText(TwoLines()) == (QUOTED + "'") + ['\n']
    ensures '\'' !in QUOTED && NoCapitals(QUOTED)
  {
    FirstLineText(TwoLines());
    FirstLineText(TwoLines()[1..]);
    assert TwoLines()[1..][1..] == [];
  }

  lemma QuotedIsNoShell()
    ensures BaseExecutable(QUOTED) !in WORDS.shells
  {
    assert '/' !in QUOTED;
    assert QUOTED[0] == 'x';
  }

  /** A run in which a session starts behind a quote, and so is sent a second line that is denied alone. */
  lemma LeftQuoteCarriesDeniedLine(policy: Policy, channel: nat)
    requires policy == NewPolicy([])
    ensures ProperLines(TwoLines(), NeutralText()) && policy.Denies("studio-debug", LastText(TwoLines()))
    ensures Outcomes(Inspector(policy, "studio-debug"), NO_SESSIONS, LeaveAndReopen(channel, LEFT_QUOTE, LinesText(TwoLines())))
      == [Forwarded(""), Forwarded(LEFT_QUOTE), Forwarded(""), Forwarded(LinesText(TwoLines()))]
  {
    NewPolicyIsBuiltIn();
    TwoLinesAreProper();
    RebootQuoteIsDenied(policy, "studio-debug");
    QuoteJoins(policy, channel);
  }

  lemma QuoteJoins(policy: Policy, channel: nat)
    requires BuiltIn(policy)
    ensures Outcomes(Inspector(policy, "studio-debug"), NO_SESSIONS, LeaveAndReopen(channel, LEFT_QUOTE, LinesText(TwoLines())))
      == [Forwarded(""), Forwarded(LEFT_QUOTE), Forwarded(""), Forwarded(LinesText(TwoLines()))]
  {
    LeftQuoteIsAllowed(policy);
    NothingIsAllowed(policy, "studio-debug");
    TwoLinesText();
    QuotedIsNoShell();
    QuotedLineIsAllowed(policy, QUOTED);
    assert LEFT_QUOTE + LinesText(TwoLines()) == LEFT_QUOTE + (QUOTED + "'") + ['\n'];
    LeftTextJoinsNext(Inspector(policy, "studio-debug"), channel, LEFT_QUOTE, LinesText(TwoLines()));
  }
}
