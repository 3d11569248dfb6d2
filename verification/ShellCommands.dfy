/** The rules of internal/policy/shell.go, one by one, for commands as they are written: whatever the quoting,
    and behind any of the wrappers it looks through. */
module ShellCommands {
  import opened Text
  import opened ShellLexer
  import opened ShellExpand
  import opened ShellRules
  import opened ShellCompose
  import opened ShellQuoting
  import opened ShellPipes
  import opened ShellLines
  import opened ShellNames
  import opened ShellVerdicts
  import opened ShellDecisions

  // ---------- what runs ----------

  lemma KeywordsArePlain(word: string)
    requires word in KEYWORDS
    ensures '/' !in word
  {
  }

  /** A program's name in the place of the command, by itself or at the end of a path, runs it. */
  lemma FirstWordRuns(words: seq<string>, name: string)
    requires |words| > 0 && Names(words[0], name) && !Assigns(words[0])
    requires name !in KEYWORDS && name != "env" && name !in APPLETS && name !in SHELLS
    ensures Runs(words, name)
  {
    if words[0] in KEYWORDS {
      KeywordsArePlain(words[0]);
      OnlyItself(words[0], name);
    }
    NamesIffBase(words[0], name);
    NamesIffBase(words[0], "env");
    IsOneOfIff(words[0], APPLETS);
    IsOneOfIff(words[0], SHELLS);
  }

  lemma OnlyItself(word: string, name: string)
    requires '/' !in word && Names(word, name)
    ensures word == name
  {
    NamesIffBase(word, name);
  }

  predicate IsEnvOption(word: string) {
    Assigns(word) || (|word| > 0 && word[0] == '-')
  }

  /** What is looked through: keywords, assignments, env with its options, applets, shells with an inline
      option, and wrappers, which may run any of their arguments. */
  lemma WrappersPassOn(first: string, words: seq<string>, name: string)
    ensures KindOf(first).Skipped? || KindOf(first).Applets? ==> (Runs([first] + words, name) <==> Runs(words, name))
    ensures KindOf(first).Env? && (|words| > 0 ==> !IsEnvOption(words[0])) ==>
      (Runs([first] + words, name) <==> Runs(words, name))
    ensures KindOf(first).Env? && |words| > 0 && IsEnvOption(words[0]) ==>
      (Runs([first] + words, name) <==> Runs([first] + words[1..], name))
    ensures KindOf(first).Shell? && |words| > 1 && IsInlineOption(words[0]) && words[0] != "--" ==>
      (Runs([first] + words, name) <==> Runs(words[1..], name))
    ensures KindOf(first).Wrapper? ==>
      (Runs([first] + words, name) <==> Names(first, name) || exists word <- words :: Names(word, name))
  {
    PassesOn(KindOf, first, words, name);
  }

  lemma PassesOn(kind: string -> Kind, first: string, words: seq<string>, name: string)
    ensures kind(first).Skipped? || kind(first).Applets? ==> (RunsBy(kind, [first] + words, name) <==> RunsBy(kind, words, name))
    ensures kind(first).Env? && (|words| > 0 ==> !IsEnvOption(words[0])) ==>
      (RunsBy(kind, [first] + words, name) <==> RunsBy(kind, words, name))
    ensures kind(first).Env? && |words| > 0 && IsEnvOption(words[0]) ==>
      (RunsBy(kind, [first] + words, name) <==> RunsBy(kind, [first] + words[1..], name))
    ensures kind(first).Shell? && |words| > 1 && IsInlineOption(words[0]) && words[0] != "--" ==>
      (RunsBy(kind, [first] + words, name) <==> RunsBy(kind, words[1..], name))
    ensures kind(first).Wrapper? ==>
      (RunsBy(kind, [first] + words, name) <==> Names(first, name) || exists word <- words :: Names(word, name))
  {
    assert ([first] + words)[1..] == words;
    if |words| > 0 { assert ([first] + words[1..])[1..] == words[1..]; }
  }

  // ---------- the rules ----------

  /** The text is lexed into commands of which one has those words, in lower case. */
  ghost predicate HasCommand(text: string, words: seq<string>) {
    exists s <- Lex(Lower(text)) :: s.tokens == words
  }

  lemma DangerousWordsAreDenied(items: seq<string>, policy: Policy, profile: string, text: string, words: seq<string>)
    requires policy == NewPolicy(items) && HasCommand(text, words)
    requires Powers(words) || SetsProperty(words) || (Kills(words) && MentionsDaemon(words)) || Remounts(words) || Removes(words)
      || (Runs(words, "dd") && exists word <- words :: WritesOut(word))
    ensures policy.Denies(profile, text)
  {
    var s :| s in Lex(Lower(text)) && s.tokens == words;
    BuiltPolicyDecides(items);
    DangerousIsDenied(items, policy, profile, text, s);
  }

  /** rm, recursively, of /, /data, or something at or under a system directory. */
  lemma RemovalIsDenied(items: seq<string>, policy: Policy, profile: string, text: string, words: seq<string>)
    requires policy == NewPolicy(items) && HasCommand(text, words) && Runs(words, "rm")
    requires exists word <- words ::
      || word == "--recursive"
      || (|word| >= 2 && word[0] == '-' && word[1] != '-' && exists i :: 1 <= i < |word| && (word[i] == 'r' || word[i] == 'R'))
    requires exists word <- words ::
      || ("/data" <= word && forall c <- word[5..] :: c == '/')
      || UnderAny(word, ["/", "/system", "/system_ext", "/vendor", "/product", "/odm", "/cust", "/chip_prod",
                         "/data/system", "/data/property", "/data/misc"])
    ensures policy.Denies(profile, text)
  {
    assert exists word <- words :: AsksRecursion(word);
    assert exists word <- words :: CanBeRemoved(word);
    DangerousWordsAreDenied(items, policy, profile, text, words);
  }

  lemma PowerIsDenied(items: seq<string>, policy: Policy, profile: string, text: string, words: seq<string>)
    requires policy == NewPolicy(items) && HasCommand(text, words) && (Runs(words, "reboot") || Runs(words, "poweroff"))
    ensures policy.Denies(profile, text)
  {
    DangerousWordsAreDenied(items, policy, profile, text, words);
  }

  /** Setting a property of the daemon. */
  lemma PropertyIsDenied(items: seq<string>, policy: Policy, profile: string, text: string, words: seq<string>)
    requires policy == NewPolicy(items) && HasCommand(text, words)
    requires (Runs(words, "param") && "set" in words) || Runs(words, "setprop")
    requires exists word <- words :: "persist.hdc" <= word || "const.hdc" <= word
    ensures policy.Denies(profile, text)
  {
    assert exists word <- words :: NamesProperty(word);
    DangerousWordsAreDenied(items, policy, profile, text, words);
  }

  lemma KillingDaemonIsDenied(items: seq<string>, policy: Policy, profile: string, text: string, words: seq<string>)
    requires policy == NewPolicy(items) && HasCommand(text, words)
    requires Runs(words, "kill") || Runs(words, "killall") || Runs(words, "pkill")
    requires exists word <- words :: Names(word, "hdcd")
    ensures policy.Denies(profile, text)
  {
    DangerousWordsAreDenied(items, policy, profile, text, words);
  }

  /** Mounting a system partition anew, for any way of asking for it. */
  lemma RemountIsDenied(items: seq<string>, policy: Policy, profile: string, text: string, words: seq<string>, i: nat)
    requires policy == NewPolicy(items) && HasCommand(text, words) && Runs(words, "mount") && i < |words|
    requires
      || words[i] == "remount" || words[i] == "--remount"
      || ((words[i] == "-o" || words[i] == "--options") && i + 1 < |words| && Lists(words[i + 1], "remount"))
      || ("--options=" <= words[i] && Lists(words[i][10..], "remount"))
      || ("-o" <= words[i] && Lists(words[i][2..], "remount"))
    requires exists word <- words ::
      || UnderAny(word, ["/", "/system", "/system_ext", "/vendor", "/product", "/odm", "/cust", "/chip_prod"])
      || ("/dev/block" <= word
          && (Holds(word, "/by-name/system") || Holds(word, "/by-name/vendor")
              || Holds(word, "/by-name/product") || Holds(word, "/by-name/odm")))
    ensures policy.Denies(profile, text)
  {
    assert AsksRemountAt(words, i);
    assert exists word <- words :: CanBeRemounted(word);
    DangerousWordsAreDenied(items, policy, profile, text, words);
  }

  lemma DumpIsDenied(items: seq<string>, policy: Policy, profile: string, text: string, words: seq<string>)
    requires policy == NewPolicy(items) && HasCommand(text, words) && Runs(words, "dd")
    requires exists word <- words :: "of=" <= word && UnderAny(word[3..],
      ["/dev/block", "/system", "/system_ext", "/vendor", "/product", "/odm", "/cust", "/chip_prod"])
    ensures policy.Denies(profile, text)
  {
    assert exists word <- words :: WritesOut(word);
    DangerousWordsAreDenied(items, policy, profile, text, words);
  }

  /** A program forbidden by the profile or the configuration. */
  lemma ForbiddenProgramIsDenied(items: seq<string>, policy: Policy, profile: string, text: string, words: seq<string>, name: string)
    requires policy == NewPolicy(items) && HasCommand(text, words) && Runs(words, name)
    requires
      || (profile != "" && profile != "studio-debug" && name in ["curl", "wget", "nc", "ncat", "telnet", "ftp", "tftp"])
      || (name != "" && exists item <- items :: Names(Lower(Trim(item)), name))
    ensures policy.Denies(profile, text)
  {
    var s :| s in Lex(Lower(text)) && s.tokens == words;
    BuiltPolicyDecides(items);
    if profile != "" && profile != "studio-debug" && name in ["curl", "wget", "nc", "ncat", "telnet", "ftp", "tftp"] {
      assert name in CONNECTORS && !IsLenient(profile);
    } else {
      assert IsConfigured(items, name);
    }
    assert IsForbidden(items, profile, s);
    DangerousIsDenied(items, policy, profile, text, s);
  }

  // ---------- as they are written ----------

  /** However its words are quoted, a command is read as those words. */
  lemma WordsAreRead(words: seq<Word>)
    requires |words| > 0 && Renderable(words)
    ensures HasCommand(RenderAll(words), LowerTexts(Texts(words)))
  {
    LowerRenderAll(words);
    LowerStaysRenderable(words);
    LexingUndoesQuoting(LowerWords(words));
    var s := Segment(LowerTexts(Texts(words)), [], [], false, false);
    assert Lex(Lower(RenderAll(words))) == [s];
    assert s in [s];
  }

  lemma WrittenAs(words: seq<Word>, text: string, texts: seq<string>)
    requires |words| > 0 && Renderable(words) && text == RenderAll(words) && texts == LowerTexts(Texts(words))
    ensures HasCommand(text, texts)
  {
    WordsAreRead(words);
  }

  /** The first word is rm, by itself or at the end of a path. */
  predicate BeginsWithRemoval(words: seq<string>) {
    && |words| > 0 && Names(words[0], "rm") && !Assigns(words[0])
    && (exists word <- words :: AsksRecursion(word)) && exists word <- words :: CanBeRemoved(word)
  }

  lemma RemovalRuns(words: seq<string>)
    requires BeginsWithRemoval(words)
    ensures Removes(words)
  {
    FirstWordRuns(words, "rm");
  }

  /** However it is quoted. */
  lemma WrittenRemovalIsDenied(
      items: seq<string>, policy: Policy, profile: string, words: seq<Word>, text: string, texts: seq<string>)
    requires policy == NewPolicy(items)
    requires |words| > 0 && Renderable(words) && text == RenderAll(words) && texts == LowerTexts(Texts(words))
    requires BeginsWithRemoval(texts)
    ensures policy.Denies(profile, text)
  {
    WrittenAs(words, text, texts);
    RemovalRuns(texts);
    DangerousWordsAreDenied(items, policy, profile, text, texts);
  }

  lemma {:induction false} CommandIsMeant(line: Line, piped: bool, items: seq<Item>)
    requires |items| > 0 && (items == line.items || exists part <- line.parts :: part.items == items)
    ensures exists s <- Meaning(line, piped) :: s.tokens == Args(items) && s.redirects == Targets(items)
    decreases |line.parts|
  {
    if |line.parts| > 0 {
      var part, rest := line.parts[0], Line(line.parts[1..], line.items);
      FirstPart(line, piped);
      var feeds := part.joiner == "|" || (|part.items| == 0 && piped);
      if part.items == items {
        assert SegmentsOf(items, piped)[0] in Meaning(line, piped);
      } else {
        if items != line.items {
          var other :| other in line.parts && other.items == items;
          assert other in rest.parts;
        }
        CommandIsMeant(rest, feeds, items);
        var s :| s in Meaning(rest, feeds) && s.tokens == Args(items) && s.redirects == Targets(items);
        assert s in Meaning(line, piped);
      }
    } else {
      assert Meaning(line, piped)[0] in Meaning(line, piped);
    }
  }

  lemma {:induction false} LowerArgs(items: seq<Item>)
    ensures Args(LowerItems(items)) == LowerTexts(Args(items)) && Targets(LowerItems(items)) == LowerTexts(Targets(items))
    decreases |items|
  {
    if |items| > 0 {
      LowerArgs(items[1..]);
      assert LowerItems(items)[1..] == LowerItems(items[1..]);
      var head := [items[0].word.text];
      assert LowerTexts(head) == [Lower(items[0].word.text)];
      assert LowerTexts(head + Args(items[1..])) == LowerTexts(head) + LowerTexts(Args(items[1..]));
      assert LowerTexts(head + Targets(items[1..])) == LowerTexts(head) + LowerTexts(Targets(items[1..]));
    }
  }

  /** So is every command of a line, with whatever it is joined and wherever its output goes. */
  lemma CommandOfLineIsRead(line: Line, items: seq<Item>)
    requires LineOk(line) && |items| > 0 && (items == line.items || exists part <- line.parts :: part.items == items)
    ensures HasCommand(RenderLine(line), LowerTexts(Args(items)))
    ensures exists s <- Lex(Lower(RenderLine(line))) :: s.redirects == LowerTexts(Targets(items))
  {
    var lower := LowerLine(line);
    if items != line.items {
      var part :| part in line.parts && part.items == items;
      var i :| 0 <= i < |line.parts| && line.parts[i] == part;
      assert lower.parts[i] in lower.parts && lower.parts[i].items == LowerItems(items);
    }
    LineIsLexed(line);
    CommandIsMeant(lower, false, LowerItems(items));
    LowerArgs(items);
  }

  /** A command whose output goes to a device node or a system partition. */
  lemma WritingIsDenied(items: seq<string>, policy: Policy, profile: string, text: string, s: Segment, target: string)
    requires policy == NewPolicy(items) && s in Lex(Lower(text)) && target in s.redirects
    requires UnderAny(target, ["/dev/block", "/system", "/system_ext", "/vendor", "/product", "/odm", "/cust", "/chip_prod"])
    ensures policy.Denies(profile, text)
  {
    BuiltPolicyDecides(items);
    assert CanBeWritten(target);
    assert Writes(s);
    DangerousIsDenied(items, policy, profile, text, s);
  }

  /** Redirecting the output of any text so. */
  lemma RedirectIsDenied(
      items: seq<string>, policy: Policy, profile: string, c1: string, op: string, blanks: string, word: Word)
    requires policy == NewPolicy(items) && Neutral(Lower(c1)) && IsRedirect(op) && IsBlanks(blanks)
    requires CanRender(word.text, word.style) && UnderAny(Lower(word.text),
      ["/dev/block", "/system", "/system_ext", "/vendor", "/product", "/odm", "/cust", "/chip_prod"])
    ensures policy.Denies(profile, c1 + (op + blanks + Render(word.text, word.style)))
  {
    var text := c1 + (op + blanks + Render(word.text, word.style));
    LowerRedirect(c1, op, blanks, word);
    LowerMakesNoQuote(word.text);
    RedirectTakesWord(Lower(c1), op, blanks, Word(Lower(word.text), word.style));
    var s := Redirected(Lower(c1), Lower(word.text));
    assert s in Lex(Lower(text)) && Lower(word.text) in s.redirects;
    WritingIsDenied(items, policy, profile, text, s, Lower(word.text));
  }

  lemma LowerRedirect(c1: string, op: string, blanks: string, word: Word)
    requires IsRedirect(op) && IsBlanks(blanks)
    ensures Lower(c1 + (op + blanks + Render(word.text, word.style)))
      == Lower(c1) + (op + blanks + Render(Lower(word.text), word.style))
  {
    var rendered := Render(word.text, word.style);
    LowerConcat(c1, op + blanks + rendered);
    LowerConcat(op + blanks, rendered);
    LowerConcat(op, blanks);
    LowerSigns(op);
    LowerBlanks(blanks);
    LowerRender(word.text, word.style);
  }

  // ---------- pipes into a shell ----------

  lemma PipedIsIndirect(segments: seq<Segment>, s: Segment, name: string)
    requires s in segments && s.pipedIn && Runs(s.tokens, name) && name in SHELLS
    ensures CoreVerdict(segments) == Some("indirect-command")
  {
    assert Indirect(s);
  }

  /** A text is denied, as indirect, when one of its commands is a shell whose input is piped. */
  lemma PipedTextIsDenied(items: seq<string>, policy: Policy, profile: string, text: string, s: Segment, name: string)
    requires policy == NewPolicy(items) && s in Lex(Lower(text))
    requires s.pipedIn && Runs(s.tokens, name) && name in {"sh", "bash", "mksh", "toysh", "su"}
    ensures policy.InspectShell(profile, text) == Deny("indirect-command")
  {
    BuiltPolicyDecides(items);
    CommandIsAnalyzed(policy, text, s);
    PipedIsIndirect(policy.Analyze(text), Resolved(policy.reader, s), name);
    assert Decides(items, profile, policy.Analyze(text), policy.InspectShell(profile, text));
  }

  /** So is any neutral command piped into a shell, however that is written and wrapped. */
  lemma PipedShellIsDenied(
      items: seq<string>, policy: Policy, profile: string, c1: string, words: seq<Word>, texts: seq<string>, name: string)
    requires policy == NewPolicy(items)
    requires Neutral(Lower(c1)) && EndsInCommand(Lower(c1)) && !RedirectPending(Lower(c1))
    requires |words| > 0 && Renderable(words) && texts == LowerTexts(Texts(words))
    requires name in {"sh", "bash", "mksh", "toysh", "su"} && Runs(texts, name)
    ensures policy.InspectShell(profile, c1 + "|" + RenderAll(words)) == Deny("indirect-command")
  {
    var s := PipedWords(c1, words);
    PipedTextIsDenied(items, policy, profile, c1 + "|" + RenderAll(words), s, name);
  }

  lemma PipedWords(c1: string, words: seq<Word>) returns (s: Segment)
    requires Neutral(Lower(c1)) && EndsInCommand(Lower(c1)) && !RedirectPending(Lower(c1))
    requires |words| > 0 && Renderable(words)
    ensures s in Lex(Lower(c1 + "|" + RenderAll(words))) && s.pipedIn && s.tokens == LowerTexts(Texts(words))
  {
    var lower := LowerWords(words);
    LowerPiped(c1, words);
    LowerStaysRenderable(words);
    LexingUndoesQuoting(lower);
    WordsClosed(lower);
    s := PipedCommand(Lower(c1), RenderAll(lower), Texts(lower));
  }

  lemma LowerPiped(c1: string, words: seq<Word>)
    ensures Lower(c1 + "|" + RenderAll(words)) == Lower(c1) + "|" + RenderAll(LowerWords(words))
  {
    LowerRenderAll(words);
    LowerConcat(c1 + "|", RenderAll(words));
    LowerConcat(c1, "|");
    assert Lower("|") == "|";
  }

  lemma PipedCommand(c1: string, c2: string, texts: seq<string>) returns (s: Segment)
    requires Neutral(c1) && EndsInCommand(c1) && !RedirectPending(c1)
    requires QuotesClosed(c2) && |c2| > 0 && c2[0] != '|' && Lex(c2) == [Segment(texts, [], [], false, false)]
    ensures s in Lex(c1 + "|" + c2) && s.pipedIn && s.tokens == texts
  {
    PipesCompose(c1, c2);
    s := PipeFirst(Lex(c2), true)[0];
    assert s in PipeFirst(Lex(c2), true);
  }

  lemma WordsClosed(words: seq<Word>)
    requires |words| > 0 && Renderable(words)
    ensures QuotesClosed(RenderAll(words)) && |RenderAll(words)| > 0 && RenderAll(words)[0] != '|'
  {
    var last := LeadsWords(INITIAL, words);
    assert RenderAll(words) + [] == RenderAll(words);
    assert Run(INITIAL, RenderAll(words) + []) == last;
    assert words[0] in words;
    RenderStart(words[0]);
    assert RenderAll(words)[0] == Render(words[0].text, words[0].style)[0];
  }

  // ---------- case and unclosed quotes ----------

  /** The texts differ at most in the case of letters. */
  predicate SameButCase(a: string, b: string) {
    && |a| == |b|
    && forall i | 0 <= i < |a| ::
         || a[i] == b[i]
         || ('A' <= a[i] <= 'Z' && b[i] as int == a[i] as int + ('a' as int - 'A' as int))
         || ('A' <= b[i] <= 'Z' && a[i] as int == b[i] as int + ('a' as int - 'A' as int))
  }

  lemma LoweredAlike(a: string, b: string)
    requires SameButCase(a, b)
    ensures Lower(a) == Lower(b)
  {
  }

  /** Case does not matter. */
  lemma CaseIsIgnored(policy: Policy, profile: string, a: string, b: string)
    requires SameButCase(a, b)
    ensures policy.InspectShell(profile, a) == policy.InspectShell(profile, b)
  {
    LoweredAlike(a, b);
  }

  /** Where a quote is left open, the text is read again without its quotes, */
  lemma OpenQuoteIsReadAgain(c: string)
    ensures Lex(c) == FirstScan(c) + if QuotesClosed(c) then [] else Lex(StripQuotes(c))
  {
  }

  /** so that an open quote hides nothing. */
  lemma OpenQuoteHidesNothing(items: seq<string>, policy: Policy, profile: string, c: string)
    requires policy == NewPolicy(items) && !QuotesClosed(Lower(c)) && policy.Denies(profile, StripQuotes(c))
    ensures policy.Denies(profile, c)
  {
    PolicyParts(items);
    CoreRulesAreMonotone();
    AgainIsDenied(policy, profile, c);
  }

  lemma AgainIsDenied(policy: Policy, profile: string, c: string)
    requires RulesGrow(policy.rules) && !QuotesClosed(Lower(c)) && policy.Denies(profile, StripQuotes(c))
    ensures policy.Denies(profile, c)
  {
    var part, whole := Lex(Lower(StripQuotes(c))), Lex(Lower(c));
    assert Lower(StripQuotes(c)) == StripQuotes(Lower(c));
    OpenQuoteIsReadAgain(Lower(c));
    CoversPiped(part, false);
    CoversPart(part, part, whole);
    ExpandGrows(policy.reader, part, whole, 0);
    JudgeGrows(policy, profile, policy.Analyze(StripQuotes(c)), policy.Analyze(c));
  }
}
