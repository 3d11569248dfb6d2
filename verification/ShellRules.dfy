/** Candidate executables, inline `sh -c` expansion and the rule table of internal/policy/shell.go. */
module ShellRules {
  import opened Text
  import opened ShellLexer
  import opened ShellExpand

  // ---------- names of things the rules look for ----------

  /** The words the resolver knows. */
  datatype Words = Words(
    keywords: set<string>,
    argumentWrappers: set<string>,
    shells: set<string>,
    applets: set<string>)

  const WORDS: Words := Words(
    { "if", "then", "else", "elif", "fi", "do", "done", "while", "until", "for", "select",
      "case", "esac", "in", "function", "time", "!", "--" },
    { "command", "exec", "nohup", "setsid", "eval", "xargs", "stdbuf", "nice", "ionice", "timeout",
      "runcon", "chroot", "unshare", "watch", "script", "strace", "ltrace", "taskset", "flock",
      "sudo", "doas", "proot" },
    STRING_WRAPPERS,
    { "toybox", "busybox", "toolbox" })

  const STRING_WRAPPERS: set<string> := { "sh", "bash", "mksh", "toysh", "su" }

  const HDC_PROPERTY_PREFIXES: seq<string> := ["persist.hdc", "const.hdc"]
  const SENSITIVE_MOUNT_TARGETS: seq<string> :=
    ["/", "/system", "/system_ext", "/vendor", "/product", "/odm", "/cust", "/chip_prod"]
  const SENSITIVE_WRITE_PATHS: seq<string> :=
    ["/dev/block", "/system", "/system_ext", "/vendor", "/product", "/odm", "/cust", "/chip_prod"]
  const CRITICAL_REMOVAL_PATHS: seq<string> :=
    ["/", "/system", "/system_ext", "/vendor", "/product", "/odm", "/cust", "/chip_prod",
     "/data/system", "/data/property", "/data/misc"]
  const RESTRICTED_EXECUTABLES: seq<string> := ["curl", "wget", "nc", "ncat", "telnet", "ftp", "tftp"]

  // ---------- resolving candidate executables ----------

  function BaseExecutable(token: string): string {
    if '/' !in token then token
    else if '/' in token[1..] then BaseExecutable(token[1..])
    else token[1..]
  }

  /** The base name is the part of a token after its last slash. */
  lemma {:induction false} BaseExecutableIsTail(token: string)
    ensures '/' !in BaseExecutable(token) && |BaseExecutable(token)| <= |token|
    ensures token[|token| - |BaseExecutable(token)|..] == BaseExecutable(token)
    ensures |BaseExecutable(token)| < |token| ==> token[|token| - |BaseExecutable(token)| - 1] == '/'
    decreases |token|
  {
    if '/' in token && '/' in token[1..] { BaseExecutableIsTail(token[1..]); }
  }

  predicate IsNameCharacter(c: char, first: bool) {
    c == '_' || 'a' <= c <= 'z' || 'A' <= c <= 'Z' || (!first && '0' <= c <= '9')
  }

  /** NAME=... with a shell variable name in front of the first equals sign. */
  predicate IsEnvironmentAssignment(token: string) {
    exists e :: 0 < e < |token| && token[e] == '='
      && (forall i :: 0 <= i < e ==> IsNameCharacter(token[i], i == 0))
  }

  predicate IsSkippedBeforeCommand(words: Words, token: string) {
    token in words.keywords || IsEnvironmentAssignment(token)
  }

  predicate IsEnvArgument(token: string) {
    IsEnvironmentAssignment(token) || "-" <= token
  }

  /** -c, or a cluster of short options containing c. */
  predicate IsInlineFlag(token: string) {
    |token| > 1 && token[0] == '-' && token[1] != '-' && 'c' in token[1..]
  }

  function SkipAssignmentsAndKeywords(words: Words, tokens: seq<string>, start: nat): (index: nat)
    requires start <= |tokens|
    ensures start <= index <= |tokens|
    decreases |tokens| - start
  {
    if start < |tokens| && IsSkippedBeforeCommand(words, tokens[start])
    then SkipAssignmentsAndKeywords(words, tokens, start + 1)
    else start
  }

  function SkipEnvArguments(tokens: seq<string>, start: nat): (index: nat)
    requires start <= |tokens|
    ensures start <= index <= |tokens|
    decreases |tokens| - start
  {
    if start < |tokens| && IsEnvArgument(tokens[start])
    then SkipEnvArguments(tokens, start + 1)
    else start
  }

  function FindInlineFlag(tokens: seq<string>, start: nat): (flag: Option<nat>)
    requires start <= |tokens|
    ensures flag.Some? ==> start <= flag.value < |tokens|
    decreases |tokens| - start
  {
    if start == |tokens| || tokens[start] == "--" then None
    else if IsInlineFlag(tokens[start]) then Some(start)
    else FindInlineFlag(tokens, start + 1)
  }

  /** The word in command position is the first one that is neither a keyword nor an assignment. */
  lemma {:induction false} SkipStopsAtCommand(words: Words, tokens: seq<string>, start: nat)
    requires start <= |tokens|
    ensures var index := SkipAssignmentsAndKeywords(words, tokens, start);
      && (forall i :: start <= i < index ==> IsSkippedBeforeCommand(words, tokens[i]))
      && (index < |tokens| ==> !IsSkippedBeforeCommand(words, tokens[index]))
    decreases |tokens| - start
  {
    if start < |tokens| && IsSkippedBeforeCommand(words, tokens[start]) {
      SkipStopsAtCommand(words, tokens, start + 1);
    }
  }

  /** The flag found is the first inline flag, and none is found only when every inline flag stands
      behind an option terminator. */
  lemma {:induction false} InlineFlagIsFirst(tokens: seq<string>, start: nat)
    requires start <= |tokens|
    ensures match FindInlineFlag(tokens, start)
      case Some(flag) => IsInlineFlag(tokens[flag])
        && (forall i :: start <= i < flag ==> tokens[i] != "--" && !IsInlineFlag(tokens[i]))
      case None => forall i :: start <= i < |tokens| && IsInlineFlag(tokens[i]) ==>
        exists j :: start <= j < i && tokens[j] == "--"
    decreases |tokens| - start
  {
    if start < |tokens| && tokens[start] != "--" && !IsInlineFlag(tokens[start]) {
      InlineFlagIsFirst(tokens, start + 1);
    }
  }

  function Basenames(tokens: seq<string>): (names: seq<string>)
    ensures |names| == |tokens|
    ensures forall i :: 0 <= i < |tokens| ==> names[i] == BaseExecutable(tokens[i])
  {
    seq(|tokens|, i requires 0 <= i < |tokens| => BaseExecutable(tokens[i]))
  }

  /** resolveCommands: every name the words of a segment may make the device execute. */
  function ResolveCommands(words: Words, tokens: seq<string>, start: nat): seq<string>
    requires start <= |tokens|
    decreases |tokens| - start, 1
  {
    ResolveWord(words, tokens, SkipAssignmentsAndKeywords(words, tokens, start))
  }

  /** One turn of its loop, at the word in command position. */
  function ResolveWord(words: Words, tokens: seq<string>, index: nat): seq<string>
    requires index <= |tokens|
    decreases |tokens| - index, 0
  {
    if index == |tokens| then []
    else
      var command := BaseExecutable(tokens[index]);
      if command == "env" then
        ResolveCommands(words, tokens, SkipEnvArguments(tokens, index + 1))
      else if command in words.applets then
        if index + 1 == |tokens| then [] else ResolveCommands(words, tokens, index + 1)
      else if command in words.shells then
        var inline := FindInlineFlag(tokens, index + 1);
        if inline.Some? && inline.value + 1 < |tokens|
        then ResolveCommands(words, tokens, inline.value + 1)
        else [command]
      else if command in words.argumentWrappers then
        [command] + Basenames(tokens[index + 1..])
      else
        [command]
  }

  method SkipAssignmentsAndKeywordsLoop(words: Words, tokens: seq<string>, start: nat) returns (index: nat)
    requires start <= |tokens|
    ensures index == SkipAssignmentsAndKeywords(words, tokens, start)
  {
    index := start;
    while index < |tokens| && IsSkippedBeforeCommand(words, tokens[index])
      invariant start <= index <= |tokens|
      invariant SkipAssignmentsAndKeywords(words, tokens, start) == SkipAssignmentsAndKeywords(words, tokens, index)
    {
      index := index + 1;
    }
  }

  /** The loop of resolveCommands: `env` goes round again, everything else returns. */
  method ResolveCommandsLoop(words: Words, tokens: seq<string>, start: nat) returns (commands: seq<string>)
    requires start <= |tokens|
    ensures commands == ResolveCommands(words, tokens, start)
    decreases |tokens| - start
  {
    var index := SkipAssignmentsAndKeywordsLoop(words, tokens, start);
    while index < |tokens| && BaseExecutable(tokens[index]) == "env"
      invariant start <= index <= |tokens|
      invariant ResolveCommands(words, tokens, start) == ResolveWord(words, tokens, index)
    {
      var next := SkipEnvArguments(tokens, index + 1);
      index := SkipAssignmentsAndKeywordsLoop(words, tokens, next);
    }
    commands := [];
    if index < |tokens| {
      var command := BaseExecutable(tokens[index]);
      commands := [command];
      if command in words.applets {
        commands := [];
        if index + 1 < |tokens| { commands := ResolveCommandsLoop(words, tokens, index + 1); }
      } else if command in words.shells {
        var inline := FindInlineFlag(tokens, index + 1);
        if inline.Some? && inline.value + 1 < |tokens| {
          commands := ResolveCommandsLoop(words, tokens, inline.value + 1);
        }
      } else if command in words.argumentWrappers {
        commands := [command] + Basenames(tokens[index + 1..]);
      }
    }
  }

  // ---------- inline commands ----------

  /** The inline flag of a shell word with something behind it, if the word at index is one. */
  function InlineFlagOf(words: Words, tokens: seq<string>, index: nat): (flag: Option<nat>)
    requires index < |tokens|
    ensures flag.Some? ==> index < flag.value && flag.value + 1 < |tokens|
  {
    if BaseExecutable(tokens[index]) !in words.shells then None
    else
      var flag := FindInlineFlag(tokens, index + 1);
      if flag.Some? && flag.value + 1 < |tokens| then flag else None
  }

  /** inlineShellCommand from a given word on: the text after the inline flag of the first shell
      word that has one with something behind it. */
  function InlineFrom(words: Words, tokens: seq<string>, index: nat): string
    requires index <= |tokens|
    decreases |tokens| - index
  {
    if index == |tokens| then ""
    else
      match InlineFlagOf(words, tokens, index)
      case Some(flag) => Join(tokens[flag + 1..])
      case None => InlineFrom(words, tokens, index + 1)
  }

  function InlineCommand(words: Words, tokens: seq<string>): string {
    InlineFrom(words, tokens, 0)
  }

  lemma {:induction false} JoinSuffixShorter(tokens: seq<string>, k: nat)
    requires 0 < k < |tokens|
    ensures |Join(tokens[k..])| < |Join(tokens)|
    decreases k
  {
    assert Join(tokens) == tokens[0] + " " + Join(tokens[1..]);
    if k > 1 {
      JoinSuffixShorter(tokens[1..], k - 1);
      assert tokens[1..][k - 1..] == tokens[k..];
    }
  }

  lemma {:induction false} InlineShorterFrom(words: Words, tokens: seq<string>, index: nat)
    requires index <= |tokens| && InlineFrom(words, tokens, index) != ""
    ensures |InlineFrom(words, tokens, index)| < |Join(tokens)|
    decreases |tokens| - index
  {
    match InlineFlagOf(words, tokens, index)
    case Some(flag) => JoinSuffixShorter(tokens, flag + 1);
    case None => InlineShorterFrom(words, tokens, index + 1);
  }

  /** Every inline text is strictly shorter than the command it was written in. */
  lemma InlineTextShrinks(words: Words, command: string, segment: Segment)
    requires segment in Lex(command) && InlineCommand(words, segment.tokens) != ""
    ensures |InlineCommand(words, segment.tokens)| < |command|
  {
    SegmentNeverLonger(command);
    InlineShorterFrom(words, segment.tokens, 0);
  }

  // ---------- analysis ----------

  /** How this package reads the words of a segment. */
  const SHELL: Reader := Reader((tokens: seq<string>) => ResolveCommands(WORDS, tokens, 0), (tokens: seq<string>) => InlineCommand(WORDS, tokens))

  lemma ShellShrinks()
    ensures Shrinks(SHELL)
  {
    forall tokens: seq<string> | InlineCommand(WORDS, tokens) != "" ensures |InlineCommand(WORDS, tokens)| < |Join(tokens)| {
      InlineShorterFrom(WORDS, tokens, 0);
    }
  }

  // ---------- rules ----------

  predicate HasExecutable(segment: Segment, executable: string) {
    executable in segment.commands
  }

  predicate AnyExecutable(segments: seq<Segment>, executable: string) {
    exists i :: 0 <= i < |segments| && HasExecutable(segments[i], executable)
  }

  predicate IsIndirect(segment: Segment) {
    || segment.indirect
    || exists i :: 0 <= i < |segment.commands|
        && ('$' in segment.commands[i] || (segment.pipedIn && segment.commands[i] in STRING_WRAPPERS))
  }

  predicate HasIndirectCommand(segments: seq<Segment>) {
    exists i :: 0 <= i < |segments| && IsIndirect(segments[i])
  }

  predicate IsPowerControl(segments: seq<Segment>) {
    AnyExecutable(segments, "reboot") || AnyExecutable(segments, "poweroff")
  }

  predicate HasTokenWithPrefix(tokens: seq<string>, prefixes: seq<string>) {
    exists i, p :: 0 <= i < |tokens| && 0 <= p < |prefixes| && prefixes[p] <= tokens[i]
  }

  predicate WritesHdcProperty(segment: Segment) {
    || (HasExecutable(segment, "param") && "set" in segment.tokens
        && HasTokenWithPrefix(segment.tokens, HDC_PROPERTY_PREFIXES))
    || (HasExecutable(segment, "setprop") && HasTokenWithPrefix(segment.tokens, HDC_PROPERTY_PREFIXES))
  }

  predicate ChangesHdcDaemonState(segments: seq<Segment>) {
    exists i :: 0 <= i < |segments| && WritesHdcProperty(segments[i])
  }

  predicate NamesHdcDaemon(tokens: seq<string>) {
    exists i :: 0 <= i < |tokens| && BaseExecutable(tokens[i]) == "hdcd"
  }

  predicate IsKiller(segment: Segment) {
    HasExecutable(segment, "kill") || HasExecutable(segment, "killall") || HasExecutable(segment, "pkill")
  }

  /** A killer in one segment and the daemon's name in the same or another one. */
  predicate KillsHdcDaemon(segments: seq<Segment>) {
    && (exists i :: 0 <= i < |segments| && IsKiller(segments[i]))
    && (exists i :: 0 <= i < |segments| && NamesHdcDaemon(segments[i].tokens))
  }

  function Split(s: string, sep: char): (parts: seq<string>)
    ensures |parts| > 0
  {
    if |s| == 0 then [""]
    else
      var rest := Split(s[1..], sep);
      if s[0] == sep then [""] + rest else [[s[0]] + rest[0]] + rest[1..]
  }

  predicate HasCommaOption(text: string, option: string) {
    option in Split(text, ',')
  }

  predicate IsRemountOption(tokens: seq<string>, i: nat)
    requires i < |tokens|
  {
    var token := tokens[i];
    if token == "remount" || token == "--remount" then true
    else if token == "-o" || token == "--options" then
      i + 1 < |tokens| && HasCommaOption(tokens[i + 1], "remount")
    else if "--options=" <= token then HasCommaOption(token[|"--options="|..], "remount")
    else "-o" <= token && HasCommaOption(token[2..], "remount")
  }

  function NormalizePath(token: string): (path: string)
    ensures path <= token
    ensures |path| > 1 ==> path[|path| - 1] != '/'
    ensures forall i :: |path| <= i < |token| ==> token[i] == '/'
    ensures |token| > 0 ==> |path| > 0
  {
    if |token| > 1 && token[|token| - 1] == '/' then NormalizePath(token[..|token| - 1]) else token
  }

  predicate IsPathUnderAny(value: string, roots: seq<string>) {
    var path := NormalizePath(value);
    exists i :: 0 <= i < |roots| && (path == roots[i] || (roots[i] != "/" && roots[i] + "/" <= path))
  }

  predicate Contains(text: string, part: string) {
    exists i :: 0 <= i <= |text| - |part| && part <= text[i..]
  }

  predicate IsSensitiveBlockPartition(token: string) {
    && "/dev/block" <= token
    && (Contains(token, "/by-name/system") || Contains(token, "/by-name/vendor")
        || Contains(token, "/by-name/product") || Contains(token, "/by-name/odm"))
  }

  predicate IsSensitiveMountTarget(token: string) {
    IsPathUnderAny(token, SENSITIVE_MOUNT_TARGETS) || IsSensitiveBlockPartition(token)
  }

  predicate RemountsSensitive(segment: Segment) {
    && HasExecutable(segment, "mount")
    && (exists i: nat :: i < |segment.tokens| && IsRemountOption(segment.tokens, i))
    && (exists i :: 0 <= i < |segment.tokens| && IsSensitiveMountTarget(segment.tokens[i]))
  }

  predicate RemountsFilesystem(segments: seq<Segment>) {
    exists i :: 0 <= i < |segments| && RemountsSensitive(segments[i])
  }

  predicate IsRecursiveOption(token: string) {
    && |token| >= 2 && token[0] == '-'
    && (if "--" <= token then token == "--recursive" else 'r' in token[1..] || 'R' in token[1..])
  }

  predicate IsCriticalPath(token: string) {
    NormalizePath(token) == "/data" || IsPathUnderAny(NormalizePath(token), CRITICAL_REMOVAL_PATHS)
  }

  predicate RemovesCritical(segment: Segment) {
    && HasExecutable(segment, "rm")
    && (exists i :: 0 <= i < |segment.tokens| && IsRecursiveOption(segment.tokens[i]))
    && (exists i :: 0 <= i < |segment.tokens| && IsCriticalPath(segment.tokens[i]))
  }

  predicate RemovesCriticalPath(segments: seq<Segment>) {
    exists i :: 0 <= i < |segments| && RemovesCritical(segments[i])
  }

  predicate IsDangerousOutput(token: string) {
    "of=" <= token && IsPathUnderAny(token[3..], SENSITIVE_WRITE_PATHS)
  }

  predicate WritesSensitive(segment: Segment) {
    || (HasExecutable(segment, "dd")
        && (exists i :: 0 <= i < |segment.tokens| && IsDangerousOutput(segment.tokens[i])))
    || (exists i :: 0 <= i < |segment.redirects| && IsPathUnderAny(segment.redirects[i], SENSITIVE_WRITE_PATHS))
  }

  predicate WritesDeviceNode(segments: seq<Segment>) {
    exists i :: 0 <= i < |segments| && WritesSensitive(segments[i])
  }

  // ---------- decisions ----------

  datatype Decision = Allow | Deny(rule: string)

  /** resolveProfile followed by the test for the restricted profile: unknown names are restricted. */
  predicate IsRestricted(profile: string) {
    profile != "" && profile != "studio-debug"
  }

  function FirstRestricted(segments: seq<Segment>, executables: seq<string>): Option<string> {
    if |executables| == 0 then None
    else if AnyExecutable(segments, executables[0]) then Some(executables[0])
    else FirstRestricted(segments, executables[1..])
  }

  function FirstExtraCommand(commands: seq<string>, extra: set<string>): Option<string> {
    if |commands| == 0 then None
    else if commands[0] in extra then Some(commands[0])
    else FirstExtraCommand(commands[1..], extra)
  }

  function FirstExtra(segments: seq<Segment>, extra: set<string>): Option<string> {
    if |segments| == 0 then None
    else
      var hit := FirstExtraCommand(segments[0].commands, extra);
      if hit.Some? then hit else FirstExtra(segments[1..], extra)
  }

  /** A declarative rule: a name for the audit trail and a test over all segments of a command. */
  datatype Rule = Rule(name: string, matches: seq<Segment> -> bool)

  const CORE_RULES: seq<Rule> := [
    Rule("indirect-command", (segments: seq<Segment>) => HasIndirectCommand(segments)),
    Rule("power-control", (segments: seq<Segment>) => IsPowerControl(segments)),
    Rule("hdc-daemon-state", (segments: seq<Segment>) => ChangesHdcDaemonState(segments)),
    Rule("kill-hdcd", (segments: seq<Segment>) => KillsHdcDaemon(segments)),
    Rule("remount-fs", (segments: seq<Segment>) => RemountsFilesystem(segments)),
    Rule("remove-critical-path", (segments: seq<Segment>) => RemovesCriticalPath(segments)),
    Rule("write-device-node", (segments: seq<Segment>) => WritesDeviceNode(segments))]

  function FirstRule(rules: seq<Rule>, segments: seq<Segment>): Option<string> {
    if |rules| == 0 then None
    else if rules[0].matches(segments) then Some(rules[0].name)
    else FirstRule(rules[1..], segments)
  }

  /** What a policy is made of: how it reads commands, its rule table, the executables of the
      restricted profile, and those a configuration forbids on top. */
  datatype Policy = Policy(
    reader: Reader,
    rules: seq<Rule>,
    restricted: seq<string>,
    extra: set<string>)
  {
    function Analyze(command: string): seq<Segment> {
      Expand(reader, Lex(Lower(command)), 0)
    }

    function Judge(profile: string, segments: seq<Segment>): Decision {
      if |segments| == 0 then Allow
      else
        var core := FirstRule(rules, segments);
        var network := if IsRestricted(profile) then FirstRestricted(segments, restricted) else None;
        var configured := FirstExtra(segments, extra);
        if core.Some? then Deny(core.value)
        else if network.Some? then Deny("restricted-exec:" + network.value)
        else if configured.Some? then Deny("extra-denied:" + configured.value)
        else Allow
    }

    function InspectShell(profile: string, command: string): Decision {
      Judge(profile, Analyze(command))
    }

    predicate Denies(profile: string, command: string) {
      InspectShell(profile, command).Deny?
    }
  }

  /** New: the built-in tables and the configured names as lower-case basenames, blank ones dropped. */
  function NewPolicy(items: seq<string>): Policy {
    Policy(SHELL, CORE_RULES, RESTRICTED_EXECUTABLES,
           (set i | 0 <= i < |items| :: BaseExecutable(Lower(Trim(items[i])))) - {""})
  }

  /** The first rule of the table is the indirect one, and it catches unresolved segments. */
  ghost predicate IndirectFirst(rules: seq<Rule>) {
    && |rules| > 0 && rules[0].name == "indirect-command"
    && (forall segments :: UNRESOLVED in segments ==> rules[0].matches(segments))
  }

  lemma CoreIndirectFirst()
    ensures IndirectFirst(CORE_RULES)
  {
    forall segments | UNRESOLVED in segments ensures CORE_RULES[0].matches(segments) {
      var i :| 0 <= i < |segments| && segments[i] == UNRESOLVED;
      assert IsIndirect(segments[i]);
    }
  }

  /** Nesting deeper than the limit puts an unresolved segment in front of the rules; nesting within
      it is expanded completely. */
  lemma AnalyzeMeetsLimit(policy: Policy, command: string)
    requires Shrinks(policy.reader)
    ensures Within(Lex(Lower(command)), |command|)
    ensures Nesting(policy.reader, Lex(Lower(command)), |command|) > 8 ==>
      UNRESOLVED in policy.Analyze(command)
    ensures Nesting(policy.reader, Lex(Lower(command)), |command|) <= 8 ==>
      policy.Analyze(command) == FullExpand(policy.reader, Lex(Lower(command)), |command|)
  {
    SegmentNeverLonger(Lower(command));
    ExpandMeetsLimit(policy.reader, Lex(Lower(command)), |command|, 0);
  }

  /** The command nests inline commands past the limit. */
  ghost predicate NestsTooDeep(reader: Reader, command: string)
    requires Shrinks(reader) && Within(Lex(Lower(command)), |command|)
  {
    Nesting(reader, Lex(Lower(command)), |command|) > 8
  }

  /** Nesting past the limit is always refused, and always as indirect. */
  lemma DeepNestingIsIndirect(policy: Policy, profile: string, command: string)
    requires IndirectFirst(policy.rules) && Shrinks(policy.reader)
    requires Within(Lex(Lower(command)), |command|) && NestsTooDeep(policy.reader, command)
    ensures policy.InspectShell(profile, command) == Deny("indirect-command")
  {
    AnalyzeMeetsLimit(policy, command);
    assert policy.rules[0].matches(policy.Analyze(command));
  }

  // ---------- monotonicity of the rules ----------

  /** Same words in the same places, and at least as much piped input. */
  predicate Sub(a: Segment, b: Segment) {
    && a.tokens == b.tokens && a.redirects == b.redirects && a.commands == b.commands
    && a.indirect == b.indirect && (a.pipedIn ==> b.pipedIn)
  }

  ghost predicate HasSuper(a: Segment, segments: seq<Segment>) {
    exists b :: b in segments && Sub(a, b)
  }

  /** Every segment of a is found in b, with at least as much piped input. */
  ghost predicate Covers(a: seq<Segment>, b: seq<Segment>) {
    forall s :: s in a ==> HasSuper(s, b)
  }

  lemma {:induction false} FirstRestrictedIff(segments: seq<Segment>, executables: seq<string>)
    ensures FirstRestricted(segments, executables).Some? <==>
      exists i :: 0 <= i < |executables| && AnyExecutable(segments, executables[i])
  {
    if |executables| > 0 {
      FirstRestrictedIff(segments, executables[1..]);
      if i :| 0 <= i < |executables| && AnyExecutable(segments, executables[i]) {
        if i > 0 { assert executables[1..][i - 1] == executables[i]; }
      }
    }
  }

  lemma {:induction false} FirstExtraCommandIff(commands: seq<string>, extra: set<string>)
    ensures FirstExtraCommand(commands, extra).Some? <==> exists c :: c in commands && c in extra
  {
    if |commands| > 0 {
      assert commands == [commands[0]] + commands[1..];
      FirstExtraCommandIff(commands[1..], extra);
    }
  }

  predicate AnyExtra(segments: seq<Segment>, extra: set<string>) {
    exists e :: e in extra && AnyExecutable(segments, e)
  }

  lemma {:induction false} FirstExtraIff(segments: seq<Segment>, extra: set<string>)
    ensures FirstExtra(segments, extra).Some? <==> AnyExtra(segments, extra)
  {
    if |segments| > 0 {
      var rest := segments[1..];
      FirstExtraIff(rest, extra);
      FirstExtraCommandIff(segments[0].commands, extra);
      if FirstExtraCommand(segments[0].commands, extra).Some? {
        var c :| c in segments[0].commands && c in extra;
        assert HasExecutable(segments[0], c);
      } else if AnyExtra(rest, extra) {
        var e :| e in extra && AnyExecutable(rest, e);
        var i :| 0 <= i < |rest| && HasExecutable(rest[i], e);
        assert HasExecutable(segments[i + 1], e);
      } else {
        forall e, i | e in extra && 0 <= i < |segments|
          ensures !HasExecutable(segments[i], e)
        {
          if i > 0 && HasExecutable(rest[i - 1], e) { assert AnyExecutable(rest, e); }
        }
      }
    }
  }

  lemma AnyExecutableGrows(a: seq<Segment>, b: seq<Segment>, executable: string)
    requires Covers(a, b) && AnyExecutable(a, executable)
    ensures AnyExecutable(b, executable)
  {
    var i :| 0 <= i < |a| && HasExecutable(a[i], executable);
    assert HasSuper(a[i], b);
    var t :| t in b && Sub(a[i], t);
    var j :| 0 <= j < |b| && b[j] == t;
    assert HasExecutable(b[j], executable);
  }

  lemma SegmentRulesGrow(a: Segment, b: Segment)
    requires Sub(a, b)
    ensures IsIndirect(a) ==> IsIndirect(b)
    ensures WritesHdcProperty(a) <==> WritesHdcProperty(b)
    ensures RemountsSensitive(a) <==> RemountsSensitive(b)
    ensures RemovesCritical(a) <==> RemovesCritical(b)
    ensures WritesSensitive(a) <==> WritesSensitive(b)
    ensures IsKiller(a) <==> IsKiller(b)
    ensures NamesHdcDaemon(a.tokens) <==> NamesHdcDaemon(b.tokens)
  {
    assert b == a.(pipedIn := b.pipedIn);
  }

  lemma CoreRulesGrow(a: seq<Segment>, b: seq<Segment>, i: nat)
    requires Covers(a, b) && i < |a|
    ensures IsIndirect(a[i]) ==> HasIndirectCommand(b)
    ensures WritesHdcProperty(a[i]) ==> ChangesHdcDaemonState(b)
    ensures RemountsSensitive(a[i]) ==> RemountsFilesystem(b)
    ensures RemovesCritical(a[i]) ==> RemovesCriticalPath(b)
    ensures WritesSensitive(a[i]) ==> WritesDeviceNode(b)
    ensures IsKiller(a[i]) ==> exists j :: 0 <= j < |b| && IsKiller(b[j])
    ensures NamesHdcDaemon(a[i].tokens) ==> exists j :: 0 <= j < |b| && NamesHdcDaemon(b[j].tokens)
  {
    assert HasSuper(a[i], b);
    var t :| t in b && Sub(a[i], t);
    var j :| 0 <= j < |b| && b[j] == t;
    SegmentRulesGrow(a[i], b[j]);
  }

  /** Every rule of a table keeps matching when segments are added, reordered, or gain piped input. */
  ghost predicate RulesGrow(rules: seq<Rule>) {
    forall rule, a, b :: rule in rules && Covers(a, b) && rule.matches(a) ==> rule.matches(b)
  }

  lemma {:induction false} FirstRuleIff(rules: seq<Rule>, segments: seq<Segment>)
    ensures FirstRule(rules, segments).Some? <==> exists r :: r in rules && r.matches(segments)
    decreases |rules|
  {
    if |rules| > 0 {
      assert rules == [rules[0]] + rules[1..];
      FirstRuleIff(rules[1..], segments);
    }
  }

  /** All built-in rules do. */
  lemma CoreRulesAreMonotone()
    ensures RulesGrow(CORE_RULES)
  {
    forall rule, a, b | rule in CORE_RULES && Covers(a, b) && rule.matches(a) ensures rule.matches(b) {
      forall i: nat | i < |a| { CoreRulesGrow(a, b, i); }
      if IsPowerControl(a) {
        AnyExecutableGrows(a, b, if AnyExecutable(a, "reboot") then "reboot" else "poweroff");
      }
    }
  }

  lemma FirstRestrictedGrows(executables: seq<string>, a: seq<Segment>, b: seq<Segment>)
    requires Covers(a, b) && FirstRestricted(a, executables).Some?
    ensures FirstRestricted(b, executables).Some?
  {
    FirstRestrictedIff(a, executables);
    FirstRestrictedIff(b, executables);
    var i :| 0 <= i < |executables| && AnyExecutable(a, executables[i]);
    AnyExecutableGrows(a, b, executables[i]);
  }

  lemma FirstExtraGrows(extra: set<string>, a: seq<Segment>, b: seq<Segment>)
    requires Covers(a, b) && FirstExtra(a, extra).Some?
    ensures FirstExtra(b, extra).Some?
  {
    FirstExtraIff(a, extra);
    FirstExtraIff(b, extra);
    var e :| e in extra && AnyExecutable(a, e);
    AnyExecutableGrows(a, b, e);
  }

  /** Whatever is denied stays denied when segments are added, reordered, or gain piped input. */
  lemma JudgeGrows(policy: Policy, profile: string, a: seq<Segment>, b: seq<Segment>)
    requires RulesGrow(policy.rules) && Covers(a, b) && policy.Judge(profile, a).Deny?
    ensures policy.Judge(profile, b).Deny?
  {
    assert HasSuper(a[0], b);
    FirstRuleIff(policy.rules, a);
    FirstRuleIff(policy.rules, b);
    if FirstRule(policy.rules, a).Some? {
      var rule :| rule in policy.rules && rule.matches(a);
      assert rule.matches(b);
    } else if IsRestricted(profile) && FirstRestricted(a, policy.restricted).Some? {
      FirstRestrictedGrows(policy.restricted, a, b);
    } else {
      FirstExtraGrows(policy.extra, a, b);
    }
  }
}
