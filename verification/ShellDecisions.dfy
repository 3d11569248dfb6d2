/** What is denied and what is allowed of command lines as they are written: words, redirects and joiners
    in any quoting, commands behind wrappers and in `sh -c` texts, and shells fed by a pipe. */
module ShellDecisions {
  import opened Text
  import opened ShellLexer
  import opened ShellExpand
  import opened ShellRules
  import opened ShellCompose
  import opened ShellQuoting
  import opened ShellPipes
  import opened ShellLines
  import opened ShellNames
  import opened ShellVerdicts

  // ---------- a command that is denied by itself ----------

  /** Some rule that all profiles have denies the command by itself. */
  ghost predicate IsDangerous(s: Segment) {
    Indirect(s) || Powers(s.tokens) || SetsProperty(s.tokens) || (Kills(s.tokens) && MentionsDaemon(s.tokens))
    || Remounts(s.tokens) || Removes(s.tokens) || Writes(s)
  }

  /** The profile or the configuration forbids a program that the command runs. */
  ghost predicate IsForbidden(items: seq<string>, profile: string, s: Segment) {
    || (!IsLenient(profile) && exists name <- CONNECTORS :: Runs(s.tokens, name))
    || exists name | IsConfigured(items, name) :: Runs(s.tokens, name)
  }

  lemma DangerousIsCore(segments: seq<Segment>, s: Segment)
    requires s in segments && IsDangerous(s)
    ensures CoreVerdict(segments).Some?
  {
    assert Indirect(s) ==> AnyIndirect(segments);
    assert Powers(s.tokens) ==> AnyPowers(segments);
    assert SetsProperty(s.tokens) ==> AnySetsProperty(segments);
    assert Kills(s.tokens) && MentionsDaemon(s.tokens) ==> AnyKillsDaemon(segments);
    assert Remounts(s.tokens) ==> AnyRemounts(segments);
    assert Removes(s.tokens) ==> AnyRemoves(segments);
    assert Writes(s) ==> AnyWrites(segments);
  }

  lemma ForbiddenIsDecided(items: seq<string>, profile: string, segments: seq<Segment>, s: Segment, decision: Decision)
    requires s in segments && IsForbidden(items, profile, s) && Decides(items, profile, segments, decision)
    ensures decision.Deny?
  {
    if !IsLenient(profile) && exists name <- CONNECTORS :: Runs(s.tokens, name) {
      var name :| name in CONNECTORS && Runs(s.tokens, name);
      assert AnyRuns(segments, name);
    } else {
      var name :| IsConfigured(items, name) && Runs(s.tokens, name);
      assert AnyRuns(segments, name);
    }
  }

  /** Nothing a rule asks of a command depends on its resolved names being filled in. */
  lemma SameWhenResolved(reader: Reader, items: seq<string>, profile: string, s: Segment)
    ensures IsDangerous(Resolved(reader, s)) <==> IsDangerous(s)
    ensures IsForbidden(items, profile, Resolved(reader, s)) <==> IsForbidden(items, profile, s)
  {
    var r := Resolved(reader, s);
    assert r.tokens == s.tokens && r.redirects == s.redirects && r.pipedIn == s.pipedIn && r.indirect == s.indirect;
    assert Indirect(r) <==> Indirect(s);
    assert Writes(r) <==> Writes(s);
  }

  lemma CommandIsAnalyzed(policy: Policy, text: string, s: Segment)
    requires s in Lex(Lower(text))
    ensures Resolved(policy.reader, s) in policy.Analyze(text)
  {
    ExpandContains(policy.reader, Lex(Lower(text)), s, 0);
    assert Unfold(policy.reader, s, 0)[0] == Resolved(policy.reader, s);
  }

  /** The policy decides every text by the rules. */
  ghost predicate DecidesByRules(policy: Policy, items: seq<string>) {
    forall profile, text ::
      Decides(items, profile, policy.Analyze(text), policy.InspectShell(profile, text))
  }

  /** The policy that New builds does. */
  lemma BuiltPolicyDecides(items: seq<string>)
    ensures DecidesByRules(NewPolicy(items), items)
  {
    var policy := NewPolicy(items);
    forall profile, text ensures Decides(items, profile, policy.Analyze(text), policy.InspectShell(profile, text)) {
      EveryTextIsDecidedSo(items, policy, profile, text);
    }
  }

  /** A text is denied when one of the commands it is lexed into is. */
  lemma DangerousIsDenied(items: seq<string>, policy: Policy, profile: string, text: string, s: Segment)
    requires DecidesByRules(policy, items) && s in Lex(Lower(text))
    requires IsDangerous(s) || IsForbidden(items, profile, s)
    ensures policy.Denies(profile, text)
  {
    var segments, r := policy.Analyze(text), Resolved(policy.reader, s);
    CommandIsAnalyzed(policy, text, s);
    SameWhenResolved(policy.reader, items, profile, s);
    assert Decides(items, profile, segments, policy.InspectShell(profile, text));
    if IsDangerous(r) {
      DangerousIsCore(segments, r);
    } else {
      ForbiddenIsDecided(items, profile, segments, r, policy.InspectShell(profile, text));
    }
  }

  // ---------- lower-cased lines ----------

  function LowerItem(item: Item): Item {
    item.(word := Word(Lower(item.word.text), item.word.style))
  }

  function LowerItems(items: seq<Item>): (lower: seq<Item>)
    ensures |lower| == |items|
    ensures forall i :: 0 <= i < |items| ==> lower[i] == LowerItem(items[i])
  {
    seq(|items|, i requires 0 <= i < |items| => LowerItem(items[i]))
  }

  function LowerPart(part: Part): Part {
    part.(items := LowerItems(part.items))
  }

  function LowerLine(line: Line): (lower: Line)
    ensures |lower.parts| == |line.parts| && lower.items == LowerItems(line.items)
    ensures forall i :: 0 <= i < |line.parts| ==> lower.parts[i] == LowerPart(line.parts[i])
  {
    Line(seq(|line.parts|, i requires 0 <= i < |line.parts| => LowerPart(line.parts[i])), LowerItems(line.items))
  }

  lemma LowerBlanks(blanks: string)
    requires IsBlanks(blanks)
    ensures Lower(blanks) == blanks
  {
    forall i | 0 <= i < |blanks| ensures LowerChar(blanks[i]) == blanks[i] { assert blanks[i] in blanks; }
  }

  lemma LowerSigns(sign: string)
    requires IsRedirect(sign) || IsJoiner(sign)
    ensures Lower(sign) == sign
  {
  }

  lemma LowerRenderItem(item: Item)
    requires ItemOk(item)
    ensures Lower(RenderItem(item)) == RenderItem(LowerItem(item)) && ItemOk(LowerItem(item))
  {
    var rendered := Render(item.word.text, item.word.style);
    LowerBlanks(item.gap);
    LowerRender(item.word.text, item.word.style);
    LowerMakesNoQuote(item.word.text);
    match item
    case Arg(gap, _) => LowerConcat(gap, rendered);
    case Redirect(gap, op, space, _) =>
      LowerBlanks(space);
      LowerSigns(op);
      LowerConcat(op, space);
      LowerConcat(op + space, rendered);
      LowerConcat(gap, op + space + rendered);
  }

  lemma {:induction false} LowerRenderItems(items: seq<Item>)
    requires ItemsOk(items)
    ensures Lower(RenderItems(items)) == RenderItems(LowerItems(items)) && ItemsOk(LowerItems(items))
    decreases |items|
  {
    if |items| > 0 {
      assert items[0] in items && forall item <- items[1..] :: item in items;
      LowerRenderItem(items[0]);
      LowerRenderItems(items[1..]);
      LowerConcat(RenderItem(items[0]), RenderItems(items[1..]));
      assert LowerItems(items)[1..] == LowerItems(items[1..]);
      assert LowerItems(items) == [LowerItem(items[0])] + LowerItems(items[1..]);
    }
  }

  lemma LowerRenderPart(part: Part)
    requires PartOk(part)
    ensures Lower(RenderPart(part)) == RenderPart(LowerPart(part)) && PartOk(LowerPart(part))
  {
    LowerRenderItems(part.items);
    LowerBlanks(part.tail);
    LowerSigns(part.joiner);
    LowerConcat(RenderItems(part.items), part.tail);
    LowerConcat(RenderItems(part.items) + part.tail, part.joiner);
  }

  lemma {:induction false} LowerRenderLine(line: Line)
    requires LineOk(line)
    ensures Lower(RenderLine(line)) == RenderLine(LowerLine(line)) && LineOk(LowerLine(line))
    decreases |line.parts|
  {
    LowerRenderItems(line.items);
    if |line.parts| > 0 {
      var part, rest := line.parts[0], Line(line.parts[1..], line.items);
      OtherParts(line);
      LowerRenderPart(part);
      LowerRenderLine(rest);
      LowerConcat(RenderPart(part), RenderLine(rest));
      assert Line(LowerLine(line).parts[1..], LowerLine(line).items) == LowerLine(rest);
      assert LowerLine(line).parts == [LowerPart(part)] + LowerLine(rest).parts;
    }
  }

  /** The commands of a line, in lower case: their words, where their output goes, and whether their input
      is piped. */
  function Commands(line: Line): seq<Segment> {
    Meaning(LowerLine(line), false)
  }

  lemma LineIsLexed(line: Line)
    requires LineOk(line)
    ensures Lex(Lower(RenderLine(line))) == Commands(line)
  {
    LowerRenderLine(line);
    LexingReadsLines(LowerLine(line));
  }

  // ---------- lines: what is denied ----------

  /** A line is denied when one of its commands is, however it is written and whatever the others are. */
  lemma DangerousLineIsDenied(items: seq<string>, policy: Policy, profile: string, line: Line, s: Segment)
    requires DecidesByRules(policy, items) && LineOk(line) && s in Commands(line)
    requires IsDangerous(s) || IsForbidden(items, profile, s)
    ensures policy.Denies(profile, RenderLine(line))
  {
    LineIsLexed(line);
    DangerousIsDenied(items, policy, profile, RenderLine(line), s);
  }

  // ---------- the matching half ----------

  lemma CoreIsDangerous(segments: seq<Segment>)
    requires CoreVerdict(segments).Some? && !AnyKillsDaemon(segments)
    ensures exists s <- segments :: IsDangerous(s)
  {
    if AnyIndirect(segments) {
      var s :| s in segments && Indirect(s);
      assert IsDangerous(s);
    } else if AnyPowers(segments) {
      var s :| s in segments && Powers(s.tokens);
      assert IsDangerous(s);
    } else if AnySetsProperty(segments) {
      var s :| s in segments && SetsProperty(s.tokens);
      assert IsDangerous(s);
    } else if AnyRemounts(segments) {
      var s :| s in segments && Remounts(s.tokens);
      assert IsDangerous(s);
    } else if AnyRemoves(segments) {
      var s :| s in segments && Removes(s.tokens);
      assert IsDangerous(s);
    } else {
      var s :| s in segments && Writes(s);
      assert IsDangerous(s);
    }
  }

  /** Some command is dangerous or forbidden, or one kills and another mentions the daemon. */
  ghost predicate SomethingApplies(items: seq<string>, profile: string, segments: seq<Segment>) {
    || (exists s <- segments :: IsDangerous(s))
    || (exists s <- segments :: IsForbidden(items, profile, s))
    || AnyKillsDaemon(segments)
  }

  lemma DecidedIff(items: seq<string>, profile: string, segments: seq<Segment>, decision: Decision)
    requires Decides(items, profile, segments, decision)
    ensures decision.Deny? <==> SomethingApplies(items, profile, segments)
  {
    if s :| s in segments && IsDangerous(s) { DangerousIsCore(segments, s); }
    if s :| s in segments && IsForbidden(items, profile, s) {
      ForbiddenIsDecided(items, profile, segments, s, decision);
    }
    if CoreVerdict(segments).Some? {
      if !AnyKillsDaemon(segments) { CoreIsDangerous(segments); }
    } else if decision.Deny? {
      SomeoneForbidden(items, profile, segments);
    }
  }

  lemma SomeoneForbidden(items: seq<string>, profile: string, segments: seq<Segment>)
    requires
      || (!IsLenient(profile) && exists name <- CONNECTORS :: AnyRuns(segments, name))
      || exists name | IsConfigured(items, name) :: AnyRuns(segments, name)
    ensures exists s <- segments :: IsForbidden(items, profile, s)
  {
    if !IsLenient(profile) && exists name <- CONNECTORS :: AnyRuns(segments, name) {
      var name :| name in CONNECTORS && AnyRuns(segments, name);
      var s :| s in segments && Runs(s.tokens, name);
      assert IsForbidden(items, profile, s);
    } else {
      var name :| IsConfigured(items, name) && AnyRuns(segments, name);
      var s :| s in segments && Runs(s.tokens, name);
      assert IsForbidden(items, profile, s);
    }
  }

  /** A text is denied exactly when something applies to one of its commands, those in `sh -c` texts included. */
  lemma TextIsDeniedIff(items: seq<string>, policy: Policy, profile: string, text: string)
    requires DecidesByRules(policy, items)
    ensures policy.Denies(profile, text) <==> SomethingApplies(items, profile, policy.Analyze(text))
  {
    assert Decides(items, profile, policy.Analyze(text), policy.InspectShell(profile, text));
    DecidedIff(items, profile, policy.Analyze(text), policy.InspectShell(profile, text));
  }

  /** The command has no `sh -c` text. */
  predicate IsPlain(s: Segment) {
    Inline(s.tokens).None? || Join(Inline(s.tokens).value) == ""
  }

  function ResolvedAll(reader: Reader, segments: seq<Segment>): (all: seq<Segment>)
    ensures |all| == |segments|
    ensures forall i :: 0 <= i < |segments| ==> all[i] == Resolved(reader, segments[i])
  {
    seq(|segments|, i requires 0 <= i < |segments| => Resolved(reader, segments[i]))
  }

  lemma {:induction false} PlainIsNotExpanded(reader: Reader, segments: seq<Segment>, depth: nat)
    requires forall s <- segments :: reader.inline(s.tokens) == ""
    ensures Expand(reader, segments, depth) == ResolvedAll(reader, segments)
    decreases |segments|
  {
    if |segments| > 0 {
      assert segments[0] in segments && forall s <- segments[1..] :: s in segments;
      PlainIsNotExpanded(reader, segments[1..], depth);
      assert ResolvedAll(reader, segments) == [Resolved(reader, segments[0])] + ResolvedAll(reader, segments[1..]);
    }
  }

  lemma PlainHasNoInline(s: Segment)
    ensures IsPlain(s) <==> SHELL.inline(s.tokens) == ""
  {
    InlineIff(s.tokens);
  }

  lemma AppliesWhenResolved(reader: Reader, items: seq<string>, profile: string, segments: seq<Segment>)
    ensures SomethingApplies(items, profile, ResolvedAll(reader, segments)) <==> SomethingApplies(items, profile, segments)
  {
    var all := ResolvedAll(reader, segments);
    forall s ensures
      && (IsDangerous(Resolved(reader, s)) <==> IsDangerous(s))
      && (IsForbidden(items, profile, Resolved(reader, s)) <==> IsForbidden(items, profile, s))
    {
      SameWhenResolved(reader, items, profile, s);
    }
    forall s | s in all ensures exists i :: 0 <= i < |segments| && s == Resolved(reader, segments[i]) && segments[i] in segments {
      var i :| 0 <= i < |all| && all[i] == s;
    }
    forall s | s in segments ensures Resolved(reader, s) in all {
      var i :| 0 <= i < |segments| && segments[i] == s;
      assert all[i] == Resolved(reader, s);
    }
  }

  /** A line without `sh -c` texts is denied exactly when something applies to its commands. */
  lemma LineIsDeniedIff(items: seq<string>, policy: Policy, profile: string, line: Line)
    requires DecidesByRules(policy, items) && LineOk(line)
    requires forall s <- Commands(line) :: policy.reader.inline(s.tokens) == ""
    ensures policy.Denies(profile, RenderLine(line)) <==> SomethingApplies(items, profile, Commands(line))
  {
    LineIsLexed(line);
    PlainIsNotExpanded(policy.reader, Commands(line), 0);
    TextIsDeniedIff(items, policy, profile, RenderLine(line));
    AppliesWhenResolved(policy.reader, items, profile, Commands(line));
  }
}
