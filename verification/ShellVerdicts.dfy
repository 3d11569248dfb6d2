/** What is denied and what is allowed, written out rule by rule with the names, options and paths of
    internal/policy/shell.go, and that the policy New builds decides every text that way. */
module ShellVerdicts {
  import opened Text
  import opened ShellLexer
  import opened ShellExpand
  import opened ShellRules
  import opened ShellNames

  // ---------- paths ----------

  /** The path is the root itself or something under it, whatever slashes it ends in. */
  predicate Under(path: string, root: string) {
    if root == "/" then |path| > 0 && forall c <- path :: c == '/'
    else path == root || root + "/" <= path
  }

  predicate UnderAny(path: string, roots: seq<string>) {
    exists root <- roots :: Under(path, root)
  }

  predicate CanBeRemounted(path: string) {
    || UnderAny(path, ["/", "/system", "/system_ext", "/vendor", "/product", "/odm", "/cust", "/chip_prod"])
    || ("/dev/block" <= path
        && (Holds(path, "/by-name/system") || Holds(path, "/by-name/vendor")
            || Holds(path, "/by-name/product") || Holds(path, "/by-name/odm")))
  }

  predicate CanBeWritten(path: string) {
    UnderAny(path, ["/dev/block", "/system", "/system_ext", "/vendor", "/product", "/odm", "/cust", "/chip_prod"])
  }

  /** /data itself counts, what is in it only in part. */
  predicate CanBeRemoved(path: string) {
    || ("/data" <= path && forall c <- path[5..] :: c == '/')
    || UnderAny(path, ["/", "/system", "/system_ext", "/vendor", "/product", "/odm", "/cust", "/chip_prod",
                       "/data/system", "/data/property", "/data/misc"])
  }

  predicate Holds(text: string, part: string) {
    exists i, j | 0 <= i <= j <= |text| :: text[i..j] == part
  }

  // ---------- options ----------

  /** One of the things between the commas. */
  predicate ListsAt(text: string, item: string, i: int, j: int) {
    && 0 <= i <= j <= |text| && text[i..j] == item
    && (i == 0 || text[i - 1] == ',') && (j == |text| || text[j] == ',')
  }

  ghost predicate Lists(text: string, item: string) {
    exists i, j :: ListsAt(text, item, i, j)
  }

  ghost predicate AsksRemountAt(words: seq<string>, i: nat)
    requires i < |words|
  {
    || words[i] == "remount" || words[i] == "--remount"
    || ((words[i] == "-o" || words[i] == "--options") && i + 1 < |words| && Lists(words[i + 1], "remount"))
    || ("--options=" <= words[i] && Lists(words[i][10..], "remount"))
    || ("-o" <= words[i] && Lists(words[i][2..], "remount"))
  }

  predicate AsksRecursion(word: string) {
    || word == "--recursive"
    || (|word| >= 2 && word[0] == '-' && word[1] != '-' && exists i :: 1 <= i < |word| && (word[i] == 'r' || word[i] == 'R'))
  }

  predicate NamesProperty(word: string) {
    "persist.hdc" <= word || "const.hdc" <= word
  }

  /** An output file of dd. */
  predicate WritesOut(word: string) {
    "of=" <= word && CanBeWritten(word[3..])
  }

  // ---------- rules ----------

  /** The command's name is not known, or it is a shell that reads its commands from a pipe. */
  ghost predicate Indirect(s: Segment) {
    || s.indirect
    || exists name | Runs(s.tokens, name) :: '$' in name || (s.pipedIn && name in {"sh", "bash", "mksh", "toysh", "su"})
  }

  predicate Powers(words: seq<string>) {
    Runs(words, "reboot") || Runs(words, "poweroff")
  }

  predicate SetsProperty(words: seq<string>) {
    && ((Runs(words, "param") && "set" in words) || Runs(words, "setprop"))
    && exists word <- words :: NamesProperty(word)
  }

  predicate Kills(words: seq<string>) {
    Runs(words, "kill") || Runs(words, "killall") || Runs(words, "pkill")
  }

  predicate MentionsDaemon(words: seq<string>) {
    exists word <- words :: Names(word, "hdcd")
  }

  ghost predicate Remounts(words: seq<string>) {
    && Runs(words, "mount")
    && (exists i: nat | i < |words| :: AsksRemountAt(words, i))
    && exists word <- words :: CanBeRemounted(word)
  }

  predicate Removes(words: seq<string>) {
    && Runs(words, "rm")
    && (exists word <- words :: AsksRecursion(word))
    && exists word <- words :: CanBeRemoved(word)
  }

  predicate Writes(s: Segment) {
    || (Runs(s.tokens, "dd") && exists word <- s.tokens :: WritesOut(word))
    || exists target <- s.redirects :: CanBeWritten(target)
  }

  ghost predicate AnyIndirect(segments: seq<Segment>) {
    exists s <- segments :: Indirect(s)
  }

  predicate AnyPowers(segments: seq<Segment>) {
    exists s <- segments :: Powers(s.tokens)
  }

  predicate AnySetsProperty(segments: seq<Segment>) {
    exists s <- segments :: SetsProperty(s.tokens)
  }

  /** One command kills and another, or the same, mentions the daemon. */
  predicate AnyKillsDaemon(segments: seq<Segment>) {
    (exists s <- segments :: Kills(s.tokens)) && exists s <- segments :: MentionsDaemon(s.tokens)
  }

  ghost predicate AnyRemounts(segments: seq<Segment>) {
    exists s <- segments :: Remounts(s.tokens)
  }

  predicate AnyRemoves(segments: seq<Segment>) {
    exists s <- segments :: Removes(s.tokens)
  }

  predicate AnyWrites(segments: seq<Segment>) {
    exists s <- segments :: Writes(s)
  }

  predicate AnyRuns(segments: seq<Segment>, name: string) {
    exists s <- segments :: Runs(s.tokens, name)
  }

  // ---------- paths: that is what the code tests ----------

  lemma PathIff(path: string, root: string)
    requires root == "/" || (|root| > 0 && root[|root| - 1] != '/')
    ensures var p := NormalizePath(path); (p == root || (root != "/" && root + "/" <= p)) <==> Under(path, root)
  {
    var p := NormalizePath(path);
    if root == "/" {
      if Under(path, root) {
        assert p[|p| - 1] == path[|p| - 1] && path[|p| - 1] in path;
        assert p[0] == path[0] && path[0] in path;
      }
      if p == root { assert forall c <- path :: c == '/'; }
    } else if Under(path, root) {
      assert path[|root| - 1] == root[|root| - 1] != '/';
      assert |p| >= |root|;
      if |p| > |root| { assert path[..|root| + 1] == root + "/"; }
    }
  }

  predicate GoodRoots(roots: seq<string>) {
    forall root <- roots :: root == "/" || (|root| > 0 && root[|root| - 1] != '/')
  }

  lemma UnderAnyIff(path: string, roots: seq<string>)
    requires GoodRoots(roots)
    ensures IsPathUnderAny(path, roots) <==> UnderAny(path, roots)
  {
    var p := NormalizePath(path);
    if i :| 0 <= i < |roots| && (p == roots[i] || (roots[i] != "/" && roots[i] + "/" <= p)) {
      assert roots[i] in roots;
      PathIff(path, roots[i]);
    }
    if root :| root in roots && Under(path, root) {
      var i :| 0 <= i < |roots| && roots[i] == root;
      PathIff(path, roots[i]);
    }
  }

  lemma HoldsIff(text: string, part: string)
    ensures Contains(text, part) <==> Holds(text, part)
  {
    if i :| 0 <= i <= |text| - |part| && part <= text[i..] {
      assert text[i..i + |part|] == text[i..][..|part|];
    }
    if i, j :| 0 <= i <= j <= |text| && text[i..j] == part {
      assert text[i..][..|part|] == text[i..j];
    }
  }

  lemma PathsIff(path: string)
    ensures CanBeWritten(path) <==> IsPathUnderAny(path, SENSITIVE_WRITE_PATHS)
    ensures CanBeRemounted(path) <==> IsSensitiveMountTarget(path)
  {
    UnderAnyIff(path, SENSITIVE_WRITE_PATHS);
    UnderAnyIff(path, SENSITIVE_MOUNT_TARGETS);
    HoldsIff(path, "/by-name/system");
    HoldsIff(path, "/by-name/vendor");
    HoldsIff(path, "/by-name/product");
    HoldsIff(path, "/by-name/odm");
  }

  lemma NormalizedIsNormal(path: string)
    ensures NormalizePath(NormalizePath(path)) == NormalizePath(path)
  {
  }

  lemma IsDataIff(path: string)
    ensures NormalizePath(path) == "/data" <==> "/data" <= path && forall c <- path[5..] :: c == '/'
  {
    var p := NormalizePath(path);
    if "/data" <= path && forall c <- path[5..] :: c == '/' {
      forall n | 5 <= n < |path| ensures path[n] == '/' { assert path[5..][n - 5] in path[5..]; }
      assert path[4] == 'a';
      assert |p| >= 5;
      assert p == path[..|p|];
    }
  }

  lemma CriticalIff(path: string)
    ensures CanBeRemoved(path) <==> IsCriticalPath(path)
  {
    IsDataIff(path);
    NormalizedIsNormal(path);
    UnderAnyIff(path, CRITICAL_REMOVAL_PATHS);
  }

  // ---------- options: that is what the code tests ----------

  /** The first part is what stands in front of the first separator, and the others come behind it. */
  lemma {:induction false} SplitFirst(s: string, sep: char)
    ensures var parts := Split(s, sep); var p := |parts[0]|;
      && p <= |s| && s[..p] == parts[0] && sep !in parts[0]
      && (p == |s| ==> |parts| == 1)
      && (p < |s| ==> s[p] == sep && parts[1..] == Split(s[p + 1..], sep))
    decreases |s|
  {
    if |s| > 0 && s[0] != sep {
      SplitFirst(s[1..], sep);
      var rest := Split(s[1..], sep);
      var p := |rest[0]|;
      assert Split(s, sep) == [[s[0]] + rest[0]] + rest[1..];
      assert s[..p + 1] == [s[0]] + s[1..][..p];
      if p + 1 < |s| { assert s[1..][p + 1..] == s[p + 2..]; }
    } else if |s| > 0 {
      assert Split(s, sep) == [""] + Split(s[1..], sep);
    }
  }

  lemma {:induction false} ListsIff(text: string, item: string)
    requires ',' !in item
    ensures HasCommaOption(text, item) <==> Lists(text, item)
    decreases |text|
  {
    var parts := Split(text, ',');
    var p := |parts[0]|;
    SplitFirst(text, ',');
    assert parts == [parts[0]] + parts[1..];
    if item == parts[0] { assert ListsAt(text, item, 0, p); }
    if p < |text| {
      ListsIff(text[p + 1..], item);
      ListsBehind(text, item, p);
    }
    if i, j :| ListsAt(text, item, i, j) {
      if i == 0 { FirstItem(text, item, j, p); }
    }
  }

  lemma FirstItem(text: string, item: string, j: nat, p: nat)
    requires j <= |text| && text[..j] == item && (j == |text| || text[j] == ',') && ',' !in item
    requires p <= |text| && ',' !in text[..p] && (p == |text| || text[p] == ',')
    ensures item == text[..p]
  {
  }

  lemma ListsBehind(text: string, item: string, p: nat)
    requires p < |text| && ',' !in text[..p] && text[p] == ',' && ',' !in item
    ensures Lists(text[p + 1..], item) ==> Lists(text, item)
    ensures forall i, j | ListsAt(text, item, i, j) && i > 0 :: Lists(text[p + 1..], item)
  {
    var rest := text[p + 1..];
    if i, j :| ListsAt(rest, item, i, j) {
      assert text[i + p + 1..j + p + 1] == rest[i..j];
      assert ListsAt(text, item, i + p + 1, j + p + 1);
    }
    forall i, j | ListsAt(text, item, i, j) && i > 0 ensures Lists(rest, item) {
      assert forall n | 0 <= n < p :: text[n] == text[..p][n] && text[n] != ',';
      assert rest[i - p - 1..j - p - 1] == text[i..j];
      assert ListsAt(rest, item, i - p - 1, j - p - 1);
    }
  }

  lemma RemountIff(tokens: seq<string>)
    ensures (exists i: nat :: i < |tokens| && IsRemountOption(tokens, i)) <==> exists i: nat | i < |tokens| :: AsksRemountAt(tokens, i)
  {
    forall i: nat | i < |tokens| ensures IsRemountOption(tokens, i) <==> AsksRemountAt(tokens, i) {
      RemountAtIff(tokens, i);
    }
  }

  lemma RemountAtIff(tokens: seq<string>, i: nat)
    requires i < |tokens|
    ensures IsRemountOption(tokens, i) <==> AsksRemountAt(tokens, i)
  {
    var token := tokens[i];
    if i + 1 < |tokens| { ListsIff(tokens[i + 1], "remount"); }
    if "--options=" <= token { ListsIff(token[10..], "remount"); }
    if "-o" <= token { ListsIff(token[2..], "remount"); }
    if token == "-o" { NothingListed(token[2..]); }
    assert "-o" <= token ==> token[1] == 'o';
    assert token == "--options" ==> token[1] == '-' && |token| == 9;
    assert "--options=" <= token ==> token[1] == '-';
  }

  lemma NothingListed(text: string)
    requires text == ""
    ensures !Lists(text, "remount")
  {
  }

  lemma RecursionIff(token: string)
    ensures IsRecursiveOption(token) <==> AsksRecursion(token)
  {
    if |token| >= 2 {
      assert forall i | 1 <= i < |token| :: token[i] == token[1..][i - 1];
      assert "--" <= token <==> token[0] == '-' && token[1] == '-';
      assert token == "--recursive" ==> "--" <= token;
    }
  }

  // ---------- rules: that is what the code tests ----------

  /** The names a segment runs are its candidate executables. */
  predicate IsResolved(s: Segment) {
    s.commands == ResolveCommands(WORDS, s.tokens, 0)
  }

  predicate AllResolved(segments: seq<Segment>) {
    forall s <- segments :: IsResolved(s)
  }

  lemma HasIff(s: Segment, name: string)
    requires IsResolved(s)
    ensures HasExecutable(s, name) <==> Runs(s.tokens, name)
  {
    ResolvesWhatRuns(s.tokens, name);
  }

  lemma IndirectIff(s: Segment)
    requires IsResolved(s)
    ensures IsIndirect(s) <==> Indirect(s)
  {
    assert STRING_WRAPPERS == {"sh", "bash", "mksh", "toysh", "su"};
    forall name ensures name in s.commands <==> Runs(s.tokens, name) { HasIff(s, name); }
    if i :| 0 <= i < |s.commands| && ('$' in s.commands[i] || (s.pipedIn && s.commands[i] in STRING_WRAPPERS)) {
      assert Runs(s.tokens, s.commands[i]);
    }
    if name :| Runs(s.tokens, name) && ('$' in name || (s.pipedIn && name in STRING_WRAPPERS)) {
      var i :| 0 <= i < |s.commands| && s.commands[i] == name;
    }
  }

  lemma SetsPropertyIff(s: Segment)
    requires IsResolved(s)
    ensures WritesHdcProperty(s) <==> SetsProperty(s.tokens)
  {
    HasIff(s, "param");
    HasIff(s, "setprop");
    PropertyIff(s.tokens);
  }

  lemma PropertyIff(tokens: seq<string>)
    ensures HasTokenWithPrefix(tokens, HDC_PROPERTY_PREFIXES) <==> exists word <- tokens :: NamesProperty(word)
  {
    var prefixes := HDC_PROPERTY_PREFIXES;
    assert |prefixes| == 2 && prefixes[0] == "persist.hdc" && prefixes[1] == "const.hdc";
    if i, k :| 0 <= i < |tokens| && 0 <= k < |prefixes| && prefixes[k] <= tokens[i] {
      assert NamesProperty(tokens[i]);
    }
    if word :| word in tokens && NamesProperty(word) {
      var i :| 0 <= i < |tokens| && tokens[i] == word;
      assert prefixes[if "persist.hdc" <= word then 0 else 1] <= tokens[i];
    }
  }

  lemma KillsIff(s: Segment)
    requires IsResolved(s)
    ensures IsKiller(s) <==> Kills(s.tokens)
  {
    HasIff(s, "kill");
    HasIff(s, "killall");
    HasIff(s, "pkill");
  }

  lemma DaemonIff(tokens: seq<string>)
    ensures NamesHdcDaemon(tokens) <==> MentionsDaemon(tokens)
  {
    forall word ensures Names(word, "hdcd") <==> BaseExecutable(word) == "hdcd" { NamesIffBase(word, "hdcd"); }
    if i :| 0 <= i < |tokens| && BaseExecutable(tokens[i]) == "hdcd" { assert Names(tokens[i], "hdcd"); }
    if word :| word in tokens && Names(word, "hdcd") {
      var i :| 0 <= i < |tokens| && tokens[i] == word;
    }
  }

  lemma RemountsIff(s: Segment)
    requires IsResolved(s)
    ensures RemountsSensitive(s) <==> Remounts(s.tokens)
  {
    HasIff(s, "mount");
    RemountIff(s.tokens);
    forall word ensures CanBeRemounted(word) <==> IsSensitiveMountTarget(word) { PathsIff(word); }
    AnyWord(s.tokens, CanBeRemounted, IsSensitiveMountTarget);
  }

  /** It is the same to ask of the words and of the places they stand at. */
  lemma AnyWord(words: seq<string>, p: string -> bool, q: string -> bool)
    requires forall word :: p(word) <==> q(word)
    ensures (exists word <- words :: p(word)) <==> exists i :: 0 <= i < |words| && q(words[i])
  {
    if word :| word in words && p(word) {
      var i :| 0 <= i < |words| && words[i] == word;
      assert q(words[i]);
    }
  }

  lemma RemovesIff(s: Segment)
    requires IsResolved(s)
    ensures RemovesCritical(s) <==> Removes(s.tokens)
  {
    HasIff(s, "rm");
    forall word ensures AsksRecursion(word) <==> IsRecursiveOption(word) { RecursionIff(word); }
    forall word ensures CanBeRemoved(word) <==> IsCriticalPath(word) { CriticalIff(word); }
    AnyWord(s.tokens, AsksRecursion, IsRecursiveOption);
    AnyWord(s.tokens, CanBeRemoved, IsCriticalPath);
  }

  lemma WritesIff(s: Segment)
    requires IsResolved(s)
    ensures WritesSensitive(s) <==> Writes(s)
  {
    HasIff(s, "dd");
    forall word ensures CanBeWritten(word) <==> IsPathUnderAny(word, SENSITIVE_WRITE_PATHS) { PathsIff(word); }
    forall word ensures WritesOut(word) <==> IsDangerousOutput(word) {}
    AnyWord(s.tokens, WritesOut, IsDangerousOutput);
    AnyWord(s.redirects, CanBeWritten, (word: string) => IsPathUnderAny(word, SENSITIVE_WRITE_PATHS));
  }

  lemma AnySegment(segments: seq<Segment>, p: Segment -> bool, q: Segment -> bool)
    requires forall s <- segments :: p(s) <==> q(s)
    ensures (exists s <- segments :: p(s)) <==> exists i :: 0 <= i < |segments| && q(segments[i])
  {
    if s :| s in segments && p(s) {
      var i :| 0 <= i < |segments| && segments[i] == s;
      assert q(segments[i]);
    }
    if i :| 0 <= i < |segments| && q(segments[i]) { assert p(segments[i]); }
  }

  lemma AnyRunsIff(segments: seq<Segment>, name: string)
    requires AllResolved(segments)
    ensures AnyExecutable(segments, name) <==> AnyRuns(segments, name)
  {
    forall s <- segments ensures Runs(s.tokens, name) <==> HasExecutable(s, name) { HasIff(s, name); }
    AnySegment(segments, (s: Segment) => Runs(s.tokens, name), (s: Segment) => HasExecutable(s, name));
  }

  lemma AnyIndirectIff(segments: seq<Segment>)
    requires AllResolved(segments)
    ensures HasIndirectCommand(segments) <==> AnyIndirect(segments)
  {
    forall s <- segments ensures Indirect(s) <==> IsIndirect(s) { IndirectIff(s); }
    if i :| 0 <= i < |segments| && IsIndirect(segments[i]) { assert segments[i] in segments; }
    if s :| s in segments && Indirect(s) {
      var i :| 0 <= i < |segments| && segments[i] == s;
    }
  }

  lemma AnyPowersIff(segments: seq<Segment>)
    requires AllResolved(segments)
    ensures IsPowerControl(segments) <==> AnyPowers(segments)
  {
    AnyRunsIff(segments, "reboot");
    AnyRunsIff(segments, "poweroff");
    if s :| s in segments && Powers(s.tokens) {
      assert Runs(s.tokens, "reboot") ==> AnyRuns(segments, "reboot");
      assert Runs(s.tokens, "poweroff") ==> AnyRuns(segments, "poweroff");
    }
  }

  lemma AnySetsPropertyIff(segments: seq<Segment>)
    requires AllResolved(segments)
    ensures ChangesHdcDaemonState(segments) <==> AnySetsProperty(segments)
  {
    forall s <- segments ensures SetsProperty(s.tokens) <==> WritesHdcProperty(s) { SetsPropertyIff(s); }
    AnySegment(segments, (s: Segment) => SetsProperty(s.tokens), WritesHdcProperty);
  }

  lemma AnyKillsDaemonIff(segments: seq<Segment>)
    requires AllResolved(segments)
    ensures KillsHdcDaemon(segments) <==> AnyKillsDaemon(segments)
  {
    forall s <- segments ensures Kills(s.tokens) <==> IsKiller(s) { KillsIff(s); }
    forall s <- segments ensures MentionsDaemon(s.tokens) <==> NamesHdcDaemon(s.tokens) { DaemonIff(s.tokens); }
    AnySegment(segments, (s: Segment) => Kills(s.tokens), IsKiller);
    AnySegment(segments, (s: Segment) => MentionsDaemon(s.tokens), (s: Segment) => NamesHdcDaemon(s.tokens));
  }

  lemma AnyRemountsIff(segments: seq<Segment>)
    requires AllResolved(segments)
    ensures RemountsFilesystem(segments) <==> AnyRemounts(segments)
  {
    forall s <- segments ensures Remounts(s.tokens) <==> RemountsSensitive(s) { RemountsIff(s); }
    if i :| 0 <= i < |segments| && RemountsSensitive(segments[i]) { assert segments[i] in segments; }
    if s :| s in segments && Remounts(s.tokens) {
      var i :| 0 <= i < |segments| && segments[i] == s;
    }
  }

  lemma AnyRemovesIff(segments: seq<Segment>)
    requires AllResolved(segments)
    ensures RemovesCriticalPath(segments) <==> AnyRemoves(segments)
  {
    forall s <- segments ensures Removes(s.tokens) <==> RemovesCritical(s) { RemovesIff(s); }
    AnySegment(segments, (s: Segment) => Removes(s.tokens), RemovesCritical);
  }

  lemma AnyWritesIff(segments: seq<Segment>)
    requires AllResolved(segments)
    ensures WritesDeviceNode(segments) <==> AnyWrites(segments)
  {
    forall s <- segments ensures Writes(s) <==> WritesSensitive(s) { WritesIff(s); }
    AnySegment(segments, Writes, WritesSensitive);
  }

  // ---------- decisions ----------

  /** Of the rules all profiles have, the first that applies. */
  ghost function CoreVerdict(segments: seq<Segment>): Option<string> {
    if AnyIndirect(segments) then Some("indirect-command")
    else if AnyPowers(segments) then Some("power-control")
    else if AnySetsProperty(segments) then Some("hdc-daemon-state")
    else if AnyKillsDaemon(segments) then Some("kill-hdcd")
    else if AnyRemounts(segments) then Some("remount-fs")
    else if AnyRemoves(segments) then Some("remove-critical-path")
    else if AnyWrites(segments) then Some("write-device-node")
    else None
  }

  /** Programs that only the two lenient profiles may run. */
  const CONNECTORS := ["curl", "wget", "nc", "ncat", "telnet", "ftp", "tftp"]

  predicate IsLenient(profile: string) {
    profile == "" || profile == "studio-debug"
  }

  /** A program that the configuration forbids, however it is written there. */
  predicate IsConfigured(items: seq<string>, name: string) {
    name != "" && exists item <- items :: Names(Lower(Trim(item)), name)
  }

  /** The decision on those segments. */
  ghost predicate Decides(items: seq<string>, profile: string, segments: seq<Segment>, decision: Decision) {
    if CoreVerdict(segments).Some? then decision == Deny(CoreVerdict(segments).value)
    else if !IsLenient(profile) && exists name <- CONNECTORS :: AnyRuns(segments, name) then
      exists name <- CONNECTORS :: AnyRuns(segments, name) && decision == Deny("restricted-exec:" + name)
    else if exists name | IsConfigured(items, name) :: AnyRuns(segments, name) then
      exists name | IsConfigured(items, name) :: AnyRuns(segments, name) && decision == Deny("extra-denied:" + name)
    else decision == Allow
  }

  lemma {:induction false} FirstRuleAt(rules: seq<Rule>, segments: seq<Segment>, k: nat)
    requires k <= |rules| && forall i | 0 <= i < k :: !rules[i].matches(segments)
    requires k < |rules| ==> rules[k].matches(segments)
    ensures FirstRule(rules, segments) == if k < |rules| then Some(rules[k].name) else None
    decreases |rules|
  {
    if k > 0 { FirstRuleAt(rules[1..], segments, k - 1); }
  }

  lemma CoreRulesAre(segments: seq<Segment>)
    requires AllResolved(segments)
    ensures |CORE_RULES| == 7
    ensures CORE_RULES[0].name == "indirect-command" && (CORE_RULES[0].matches(segments) <==> AnyIndirect(segments))
    ensures CORE_RULES[1].name == "power-control" && (CORE_RULES[1].matches(segments) <==> AnyPowers(segments))
    ensures CORE_RULES[2].name == "hdc-daemon-state" && (CORE_RULES[2].matches(segments) <==> AnySetsProperty(segments))
    ensures CORE_RULES[3].name == "kill-hdcd" && (CORE_RULES[3].matches(segments) <==> AnyKillsDaemon(segments))
    ensures CORE_RULES[4].name == "remount-fs" && (CORE_RULES[4].matches(segments) <==> AnyRemounts(segments))
    ensures CORE_RULES[5].name == "remove-critical-path" && (CORE_RULES[5].matches(segments) <==> AnyRemoves(segments))
    ensures CORE_RULES[6].name == "write-device-node" && (CORE_RULES[6].matches(segments) <==> AnyWrites(segments))
  {
    AnyIndirectIff(segments);
    AnyPowersIff(segments);
    AnySetsPropertyIff(segments);
    AnyKillsDaemonIff(segments);
    AnyRemountsIff(segments);
    AnyRemovesIff(segments);
    AnyWritesIff(segments);
  }

  lemma CoreIff(segments: seq<Segment>)
    requires AllResolved(segments)
    ensures FirstRule(CORE_RULES, segments) == CoreVerdict(segments)
  {
    CoreRulesAre(segments);
    var k :=
      if AnyIndirect(segments) then 0 else if AnyPowers(segments) then 1 else if AnySetsProperty(segments) then 2
      else if AnyKillsDaemon(segments) then 3 else if AnyRemounts(segments) then 4 else if AnyRemoves(segments) then 5
      else if AnyWrites(segments) then 6 else 7;
    FirstRuleAt(CORE_RULES, segments, k);
  }

  lemma {:induction false} RestrictedIff(segments: seq<Segment>, names: seq<string>)
    requires AllResolved(segments)
    ensures match FirstRestricted(segments, names)
      case Some(name) => name in names && AnyRuns(segments, name)
      case None => forall name <- names :: !AnyRuns(segments, name)
    decreases |names|
  {
    if |names| > 0 {
      AnyRunsIff(segments, names[0]);
      RestrictedIff(segments, names[1..]);
      assert names == [names[0]] + names[1..];
    }
  }

  lemma {:induction false} ExtraFound(segments: seq<Segment>, extra: set<string>)
    requires AllResolved(segments)
    ensures match FirstExtra(segments, extra)
      case Some(name) => name in extra && AnyRuns(segments, name)
      case None => forall name | name in extra :: !AnyRuns(segments, name)
    decreases |segments|
  {
    FirstExtraIff(segments, extra);
    forall name ensures AnyExecutable(segments, name) <==> AnyRuns(segments, name) { AnyRunsIff(segments, name); }
    if FirstExtra(segments, extra).Some? { ExtraIsOne(segments, extra); }
  }

  lemma {:induction false} ExtraIsOne(segments: seq<Segment>, extra: set<string>)
    requires FirstExtra(segments, extra).Some?
    ensures FirstExtra(segments, extra).value in extra && AnyExecutable(segments, FirstExtra(segments, extra).value)
    decreases |segments|
  {
    var hit := FirstExtraCommand(segments[0].commands, extra);
    if hit.Some? {
      ExtraCommandIsOne(segments[0].commands, extra);
      assert HasExecutable(segments[0], hit.value);
    } else {
      ExtraIsOne(segments[1..], extra);
      var name := FirstExtra(segments, extra).value;
      var i :| 0 <= i < |segments[1..]| && HasExecutable(segments[1..][i], name);
      assert HasExecutable(segments[i + 1], name);
    }
  }

  lemma {:induction false} ExtraCommandIsOne(commands: seq<string>, extra: set<string>)
    requires FirstExtraCommand(commands, extra).Some?
    ensures FirstExtraCommand(commands, extra).value in extra && FirstExtraCommand(commands, extra).value in commands
    decreases |commands|
  {
    if commands[0] !in extra { ExtraCommandIsOne(commands[1..], extra); }
  }

  lemma ConfiguredIff(items: seq<string>, name: string)
    ensures name in NewPolicy(items).extra <==> IsConfigured(items, name)
  {
    ExtraIs(items, name);
    if i :| 0 <= i < |items| && BaseExecutable(Lower(Trim(items[i]))) == name {
      NamesIffBase(Lower(Trim(items[i])), name);
      assert items[i] in items;
    }
    if item :| item in items && Names(Lower(Trim(item)), name) {
      var i :| 0 <= i < |items| && items[i] == item;
      NamesIffBase(Lower(Trim(items[i])), name);
    }
  }

  lemma ExtraIs(items: seq<string>, name: string)
    ensures name in NewPolicy(items).extra <==>
      name != "" && exists i :: 0 <= i < |items| && BaseExecutable(Lower(Trim(items[i]))) == name
  {
  }

  lemma PolicyJudgesSo(items: seq<string>, policy: Policy, profile: string, segments: seq<Segment>)
    requires AllResolved(segments) && policy.restricted == CONNECTORS
    requires FirstRule(policy.rules, segments) == CoreVerdict(segments)
    requires forall name :: name in policy.extra <==> IsConfigured(items, name)
    ensures Decides(items, profile, segments, policy.Judge(profile, segments))
  {
    RestrictedIff(segments, policy.restricted);
    ExtraFound(segments, policy.extra);
    if |segments| == 0 { assert CoreVerdict(segments).None?; }
  }

  lemma PolicyParts(items: seq<string>)
    ensures NewPolicy(items).rules == CORE_RULES && NewPolicy(items).restricted == CONNECTORS
    ensures NewPolicy(items).reader == SHELL
  {
  }

  /** The built policy judges segments so. */
  lemma JudgesSo(items: seq<string>, policy: Policy, profile: string, segments: seq<Segment>)
    requires AllResolved(segments) && policy == NewPolicy(items)
    ensures Decides(items, profile, segments, policy.Judge(profile, segments))
  {
    PolicyParts(items);
    CoreIff(segments);
    forall name ensures name in policy.extra <==> IsConfigured(items, name) { ConfiguredIff(items, name); }
    PolicyJudgesSo(items, policy, profile, segments);
  }

  // ---------- whole texts ----------

  predicate ResolvedBy(reader: Reader, segments: seq<Segment>) {
    forall s <- segments :: s.commands == reader.resolve(s.tokens)
  }

  lemma {:induction false} ExpandIsResolved(reader: Reader, segments: seq<Segment>, depth: nat)
    requires reader.resolve([]) == []
    ensures ResolvedBy(reader, Expand(reader, segments, depth))
    decreases DepthLeft(depth), |segments|
  {
    if |segments| > 0 {
      var inline := reader.inline(segments[0].tokens);
      ExpandIsResolved(reader, segments[1..], depth);
      if inline != "" && depth < MAX_INLINE_DEPTH { ExpandIsResolved(reader, Lex(inline), depth + 1); }
    }
  }

  lemma ShellResolves(segments: seq<Segment>)
    ensures SHELL.resolve([]) == []
    ensures ResolvedBy(SHELL, segments) ==> AllResolved(segments)
  {
  }

  /** Of any text the decision is the one of all its commands, those in `sh -c` texts included. */
  lemma EveryTextIsDecidedSo(items: seq<string>, policy: Policy, profile: string, text: string)
    requires policy == NewPolicy(items)
    ensures Decides(items, profile, policy.Analyze(text), policy.InspectShell(profile, text))
  {
    PolicyParts(items);
    ShellResolves(policy.Analyze(text));
    ExpandIsResolved(policy.reader, Lex(Lower(text)), 0);
    JudgesSo(items, policy, profile, policy.Analyze(text));
  }
}
