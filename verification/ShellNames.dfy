/** What the words of a command make the device run, written out: the names and wrappers of
    internal/policy/shell.go, and that resolveCommands and inlineShellCommand find exactly that. */
module ShellNames {
  import opened Text
  import opened ShellLexer
  import opened ShellRules

  // ---------- words ----------

  /** The word is that program, by itself or at the end of a path. */
  predicate Names(word: string, name: string) {
    && '/' !in name
    && (word == name || (|word| > |name| && word[|word| - |name| - 1..] == "/" + name))
  }

  lemma NamesIffBase(word: string, name: string)
    ensures Names(word, name) <==> BaseExecutable(word) == name
  {
    BaseExecutableIsTail(word);
    if Names(word, name) {
      assert word[|word| - |name|..] == name;
      assert |name| < |word| ==> word[|word| - |name| - 1..][0] == '/';
    }
  }

  const KEYWORDS := {
    "if", "then", "else", "elif", "fi", "do", "done", "while", "until", "for", "select",
    "case", "esac", "in", "function", "time", "!", "--" }

  const APPLETS := { "toybox", "busybox", "toolbox" }

  const SHELLS := { "sh", "bash", "mksh", "toysh", "su" }

  /** Programs that run what their arguments say. */
  const WRAPPERS := {
    "command", "exec", "nohup", "setsid", "eval", "xargs", "stdbuf", "nice", "ionice", "timeout",
    "runcon", "chroot", "unshare", "watch", "script", "strace", "ltrace", "taskset", "flock",
    "sudo", "doas", "proot" }

  /** The word is one of those programs. */
  predicate IsOneOf(word: string, names: set<string>) {
    exists name | name in names :: Names(word, name)
  }

  lemma IsOneOfIff(word: string, names: set<string>)
    ensures IsOneOf(word, names) <==> BaseExecutable(word) in names
  {
    forall name ensures Names(word, name) <==> BaseExecutable(word) == name { NamesIffBase(word, name); }
  }

  /** A shell variable's name and an equals sign. */
  predicate Assigns(word: string) {
    exists e | 0 < e < |word| && word[e] == '=' ::
      && !('0' <= word[0] <= '9')
      && forall c <- word[..e] :: c == '_' || 'a' <= c <= 'z' || 'A' <= c <= 'Z' || '0' <= c <= '9'
  }

  lemma AssignsIff(word: string)
    ensures Assigns(word) <==> IsEnvironmentAssignment(word)
  {
    if Assigns(word) {
      var e :| 0 < e < |word| && word[e] == '=' && !('0' <= word[0] <= '9')
        && forall c <- word[..e] :: c == '_' || 'a' <= c <= 'z' || 'A' <= c <= 'Z' || '0' <= c <= '9';
      forall i | 0 <= i < e ensures IsNameCharacter(word[i], i == 0) { assert word[i] in word[..e]; }
    }
    if IsEnvironmentAssignment(word) {
      var e :| 0 < e < |word| && word[e] == '=' && (forall i :: 0 <= i < e ==> IsNameCharacter(word[i], i == 0));
      assert IsNameCharacter(word[0], true);
    }
  }

  predicate IsShell(word: string) {
    IsOneOf(word, SHELLS)
  }

  lemma TablesAgree()
    ensures KEYWORDS == WORDS.keywords && APPLETS == WORDS.applets && SHELLS == WORDS.shells
    ensures WRAPPERS == WORDS.argumentWrappers
  {
  }

  /** -c, by itself or among other short options. */
  predicate IsInlineOption(word: string) {
    |word| >= 2 && word[0] == '-' && word[1] != '-' && exists i :: 1 <= i < |word| && word[i] == 'c'
  }

  // ---------- commands ----------

  /** What stands behind the first inline option, if there is something, and no `--` in front. */
  function BehindInline(words: seq<string>): (rest: Option<seq<string>>)
    ensures rest.Some? ==> 0 < |rest.value| < |words|
  {
    if |words| < 2 || words[0] == "--" then None
    else if IsInlineOption(words[0]) then Some(words[1..])
    else BehindInline(words[1..])
  }

  /** What a word in the place of a command's name means for the words behind it. */
  datatype Kind = Skipped | Env | Applets | Shell | Wrapper | Program

  function KindOf(word: string): Kind {
    if word in KEYWORDS || Assigns(word) then Skipped
    else if Names(word, "env") then Env
    else if IsOneOf(word, APPLETS) then Applets
    else if IsShell(word) then Shell
    else if IsOneOf(word, WRAPPERS) then Wrapper
    else Program
  }

  /** The words, as one command, may make the device run that program. */
  predicate Runs(words: seq<string>, name: string) {
    RunsBy(KindOf, words, name)
  }

  predicate RunsBy(kind: string -> Kind, words: seq<string>, name: string)
    decreases |words|, 1
  {
    if |words| == 0 then false
    else
      match kind(words[0])
      case Skipped => RunsBy(kind, words[1..], name)
      case Env => RunsBehindEnv(kind, words[1..], name)
      case Applets => RunsBy(kind, words[1..], name)
      case Shell =>
        if BehindInline(words[1..]).Some? then RunsBy(kind, BehindInline(words[1..]).value, name) else Names(words[0], name)
      case Wrapper => exists word <- words :: Names(word, name)
      case Program => Names(words[0], name)
  }

  /** Behind env its options and assignments come first. */
  predicate RunsBehindEnv(kind: string -> Kind, words: seq<string>, name: string)
    decreases |words|, 2
  {
    if |words| > 0 && (Assigns(words[0]) || (|words[0]| > 0 && words[0][0] == '-')) then RunsBehindEnv(kind, words[1..], name)
    else RunsBy(kind, words, name)
  }

  /** The words behind the inline option of the first shell that has one with something behind it. */
  function Inline(words: seq<string>): (rest: Option<seq<string>>)
    ensures rest.Some? ==> 0 < |rest.value| < |words|
  {
    InlineBy(IsShell, words)
  }

  function InlineBy(shell: string -> bool, words: seq<string>): (rest: Option<seq<string>>)
    ensures rest.Some? ==> 0 < |rest.value| < |words|
  {
    if |words| == 0 then None
    else if shell(words[0]) && BehindInline(words[1..]).Some? then BehindInline(words[1..])
    else InlineBy(shell, words[1..])
  }

  // ---------- that is what the code finds ----------

  lemma InlineOptionIff(word: string)
    ensures IsInlineOption(word) <==> IsInlineFlag(word)
  {
    if IsInlineFlag(word) {
      var i :| 0 <= i < |word[1..]| && word[1..][i] == 'c';
      assert word[i + 1] == 'c';
    }
    if IsInlineOption(word) {
      var i :| 1 <= i < |word| && word[i] == 'c';
      assert word[1..][i - 1] == 'c';
    }
  }

  lemma {:induction false} BehindInlineIff(tokens: seq<string>, start: nat)
    requires start <= |tokens|
    ensures BehindInline(tokens[start..]) == (
      var flag := FindInlineFlag(tokens, start);
      if flag.Some? && flag.value + 1 < |tokens| then Some(tokens[flag.value + 1..]) else None)
    decreases |tokens| - start
  {
    if start < |tokens| {
      InlineOptionIff(tokens[start]);
      assert tokens[start..][1..] == tokens[start + 1..];
      BehindInlineIff(tokens, start + 1);
    }
  }

  /** The kinds of words are those of the tables. */
  predicate Agrees(kind: string -> Kind, words: Words, word: string) {
    var base := BaseExecutable(word);
    kind(word) ==
      if IsSkippedBeforeCommand(words, word) then Skipped
      else if base == "env" then Env
      else if base in words.applets then Applets
      else if base in words.shells then Shell
      else if base in words.argumentWrappers then Wrapper
      else Program
  }

  lemma KindsAgree(word: string)
    ensures Agrees(KindOf, WORDS, word)
  {
    TablesAgree();
    NamesIffBase(word, "env");
    IsOneOfIff(word, APPLETS);
    IsOneOfIff(word, SHELLS);
    IsOneOfIff(word, WRAPPERS);
    AssignsIff(word);
  }

  ghost predicate AllAgree(kind: string -> Kind, words: Words) {
    forall word :: Agrees(kind, words, word)
  }

  lemma {:induction false} RunsSkips(kind: string -> Kind, words: Words, tokens: seq<string>, start: nat, name: string)
    requires AllAgree(kind, words) && start <= |tokens|
    ensures RunsBy(kind, tokens[start..], name)
      == RunsBy(kind, tokens[SkipAssignmentsAndKeywords(words, tokens, start)..], name)
    decreases |tokens| - start
  {
    if start < |tokens| && IsSkippedBeforeCommand(words, tokens[start]) {
      assert Agrees(kind, words, tokens[start]);
      assert tokens[start..][1..] == tokens[start + 1..];
      RunsSkips(kind, words, tokens, start + 1, name);
    }
  }

  lemma {:induction false} EnvSkips(kind: string -> Kind, tokens: seq<string>, start: nat, name: string)
    requires start <= |tokens|
    ensures RunsBehindEnv(kind, tokens[start..], name) == RunsBy(kind, tokens[SkipEnvArguments(tokens, start)..], name)
    decreases |tokens| - start
  {
    if start < |tokens| {
      AssignsIff(tokens[start]);
      assert tokens[start..][1..] == tokens[start + 1..];
      if IsEnvArgument(tokens[start]) { EnvSkips(kind, tokens, start + 1, name); }
    }
  }

  lemma NamedIff(tokens: seq<string>, name: string)
    ensures name in Basenames(tokens) <==> exists word <- tokens :: Names(word, name)
  {
    forall word ensures Names(word, name) <==> BaseExecutable(word) == name { NamesIffBase(word, name); }
    if name in Basenames(tokens) {
      var i :| 0 <= i < |tokens| && Basenames(tokens)[i] == name;
      assert Names(tokens[i], name);
    }
    if word :| word in tokens && Names(word, name) {
      var i :| 0 <= i < |tokens| && tokens[i] == word;
      assert Basenames(tokens)[i] == name;
    }
  }

  /** From that word on, the names found are those that run. */
  predicate Finds(kind: string -> Kind, words: Words, tokens: seq<string>, start: nat, name: string)
    requires start <= |tokens|
  {
    name in ResolveCommands(words, tokens, start) <==> RunsBy(kind, tokens[start..], name)
  }

  /** The same of one turn of resolveCommands. */
  predicate FindsAt(kind: string -> Kind, words: Words, tokens: seq<string>, index: nat, name: string)
    requires index <= |tokens|
  {
    name in ResolveWord(words, tokens, index) <==> RunsBy(kind, tokens[index..], name)
  }

  lemma RunsOneOf(kind: string -> Kind, all: seq<string>, name: string)
    requires |all| > 0 && kind(all[0]).Wrapper?
    ensures RunsBy(kind, all, name) <==> name in Basenames(all)
  {
    NamedIff(all, name);
  }

  lemma RunsItself(kind: string -> Kind, all: seq<string>, name: string)
    requires |all| > 0 && kind(all[0]) in {Shell, Program} && (kind(all[0]).Shell? ==> BehindInline(all[1..]).None?)
    ensures RunsBy(kind, all, name) <==> name == BaseExecutable(all[0])
  {
    NamesIffBase(all[0], name);
  }

  lemma BasenamesFirst(all: seq<string>)
    requires |all| > 0
    ensures Basenames(all) == [BaseExecutable(all[0])] + Basenames(all[1..])
  {
  }

  /** A turn that does not go on. */
  lemma LastTurn(kind: string -> Kind, words: Words, tokens: seq<string>, index: nat, name: string)
    requires index < |tokens| && Agrees(kind, words, tokens[index]) && kind(tokens[index]) in {Shell, Wrapper, Program}
    requires kind(tokens[index]).Shell? ==> BehindInline(tokens[index + 1..]).None?
    ensures FindsAt(kind, words, tokens, index, name)
  {
    var all := tokens[index..];
    assert all[1..] == tokens[index + 1..];
    if kind(tokens[index]).Wrapper? {
      RunsOneOf(kind, all, name);
      BasenamesFirst(all);
    } else {
      RunsItself(kind, all, name);
      BehindInlineIff(tokens, index + 1);
    }
  }

  lemma EnvTurn(kind: string -> Kind, words: Words, tokens: seq<string>, index: nat, name: string)
    requires index < |tokens| && Agrees(kind, words, tokens[index]) && kind(tokens[index]).Env?
    requires Finds(kind, words, tokens, SkipEnvArguments(tokens, index + 1), name)
    ensures FindsAt(kind, words, tokens, index, name)
  {
    EnvSkips(kind, tokens, index + 1, name);
    assert tokens[index..][1..] == tokens[index + 1..];
  }

  lemma AppletTurn(kind: string -> Kind, words: Words, tokens: seq<string>, index: nat, name: string)
    requires index < |tokens| && Agrees(kind, words, tokens[index]) && kind(tokens[index]).Applets?
    requires Finds(kind, words, tokens, index + 1, name)
    ensures FindsAt(kind, words, tokens, index, name)
  {
    assert tokens[index..][1..] == tokens[index + 1..];
  }

  lemma RunsInline(kind: string -> Kind, all: seq<string>, name: string)
    requires |all| > 0 && kind(all[0]).Shell? && BehindInline(all[1..]).Some?
    ensures RunsBy(kind, all, name) == RunsBy(kind, BehindInline(all[1..]).value, name)
  {
  }

  lemma ResolvesInline(words: Words, tokens: seq<string>, index: nat, flag: nat)
    requires index < |tokens| && BaseExecutable(tokens[index]) in words.shells
    requires BaseExecutable(tokens[index]) != "env" && BaseExecutable(tokens[index]) !in words.applets
    requires FindInlineFlag(tokens, index + 1) == Some(flag) && flag + 1 < |tokens|
    ensures ResolveWord(words, tokens, index) == ResolveCommands(words, tokens, flag + 1)
  {
  }

  lemma ShellTurn(kind: string -> Kind, words: Words, tokens: seq<string>, index: nat, flag: nat, name: string)
    requires index < |tokens| && Agrees(kind, words, tokens[index]) && kind(tokens[index]).Shell?
    requires FindInlineFlag(tokens, index + 1) == Some(flag) && flag + 1 < |tokens|
    requires Finds(kind, words, tokens, flag + 1, name)
    ensures FindsAt(kind, words, tokens, index, name)
  {
    var all := tokens[index..];
    assert all[1..] == tokens[index + 1..];
    BehindInlineIff(tokens, index + 1);
    assert BehindInline(all[1..]) == Some(tokens[flag + 1..]);
    ResolvesInline(words, tokens, index, flag);
    RunsInline(kind, all, name);
  }

  lemma SkippedTurns(kind: string -> Kind, words: Words, tokens: seq<string>, start: nat, name: string)
    requires AllAgree(kind, words) && start <= |tokens|
    requires FindsAt(kind, words, tokens, SkipAssignmentsAndKeywords(words, tokens, start), name)
    ensures Finds(kind, words, tokens, start, name)
  {
    RunsSkips(kind, words, tokens, start, name);
  }

  lemma {:induction false} ResolvesByKind(kind: string -> Kind, words: Words, tokens: seq<string>, start: nat, name: string)
    requires AllAgree(kind, words) && start <= |tokens|
    ensures Finds(kind, words, tokens, start, name)
    decreases |tokens| - start
  {
    var index := SkipAssignmentsAndKeywords(words, tokens, start);
    SkipStopsAtCommand(words, tokens, start);
    if index < |tokens| {
      assert Agrees(kind, words, tokens[index]);
      var flag := FindInlineFlag(tokens, index + 1);
      if kind(tokens[index]).Env? {
        ResolvesByKind(kind, words, tokens, SkipEnvArguments(tokens, index + 1), name);
        EnvTurn(kind, words, tokens, index, name);
      } else if kind(tokens[index]).Applets? {
        ResolvesByKind(kind, words, tokens, index + 1, name);
        AppletTurn(kind, words, tokens, index, name);
      } else if kind(tokens[index]).Shell? && flag.Some? && flag.value + 1 < |tokens| {
        ResolvesByKind(kind, words, tokens, flag.value + 1, name);
        ShellTurn(kind, words, tokens, index, flag.value, name);
      } else {
        BehindInlineIff(tokens, index + 1);
        LastTurn(kind, words, tokens, index, name);
      }
    }
    SkippedTurns(kind, words, tokens, start, name);
  }

  /** resolveCommands finds the names that the words run, and no other. */
  lemma ResolvesWhatRuns(tokens: seq<string>, name: string)
    ensures name in ResolveCommands(WORDS, tokens, 0) <==> Runs(tokens, name)
  {
    forall word ensures Agrees(KindOf, WORDS, word) { KindsAgree(word); }
    ResolvesByKind(KindOf, WORDS, tokens, 0, name);
    assert tokens[0..] == tokens;
  }

  lemma {:induction false} InlineByIff(shell: string -> bool, words: Words, tokens: seq<string>, start: nat)
    requires start <= |tokens| && forall word :: shell(word) <==> BaseExecutable(word) in words.shells
    ensures InlineFrom(words, tokens, start)
      == (match InlineBy(shell, tokens[start..]) case None => "" case Some(rest) => Join(rest))
    decreases |tokens| - start
  {
    if start < |tokens| {
      BehindInlineIff(tokens, start + 1);
      assert tokens[start..][1..] == tokens[start + 1..];
      InlineByIff(shell, words, tokens, start + 1);
    }
  }

  /** inlineShellCommand finds the words behind that option. */
  lemma InlineIff(tokens: seq<string>)
    ensures InlineCommand(WORDS, tokens) == (match Inline(tokens) case None => "" case Some(rest) => Join(rest))
  {
    TablesAgree();
    forall word ensures IsShell(word) <==> BaseExecutable(word) in WORDS.shells { IsOneOfIff(word, SHELLS); }
    InlineByIff(IsShell, WORDS, tokens, 0);
    assert tokens[0..] == tokens;
  }
}
