/** The cross-frame guard on interactive shell input of internal/gateway/gateway.go: a buffer per
    channel that keeps the unfinished line, so that a command cut into frames is still seen whole. */
module ShellGuard {
  import opened Text
  import opened ShellLexer
  import opened ShellRules
  import opened ShellCompose

  const GUARD_LIMIT: nat := 4096
  const INSPECT_LIMIT: nat := 262144

  predicate IsLineBreak(c: char) {
    c == '\r' || c == '\n'
  }

  predicate HasLineBreak(s: string) {
    '\r' in s || '\n' in s
  }

  /** What follows the last line break. */
  function Unfinished(s: string): string {
    if !HasLineBreak(s) then s
    else if HasLineBreak(s[1..]) then Unfinished(s[1..])
    else s[1..]
  }

  function LastBytes(s: string, n: nat): string {
    if |s| <= n then s else s[|s| - n..]
  }

  /** The specification of the buffer: the end of the unfinished line of everything accepted. */
  function Retained(history: string): string {
    LastBytes(Unfinished(history), GUARD_LIMIT)
  }

  /** The unfinished line is the suffix without a line break that starts behind one. */
  lemma {:induction false} UnfinishedIsTail(s: string)
    ensures |Unfinished(s)| <= |s| && s[|s| - |Unfinished(s)|..] == Unfinished(s) && !HasLineBreak(Unfinished(s))
    ensures |Unfinished(s)| < |s| ==> IsLineBreak(s[|s| - |Unfinished(s)| - 1])
    decreases |s|
  {
    if HasLineBreak(s) && HasLineBreak(s[1..]) { UnfinishedIsTail(s[1..]); }
  }

  /** A line break decides alone where the unfinished line behind it begins. */
  lemma {:induction false} UnfinishedBehindBreak(front: string, c: char, rest: string)
    requires IsLineBreak(c)
    ensures Unfinished(front + [c] + rest) == Unfinished(rest)
    decreases |front|
  {
    var s := front + [c] + rest;
    assert s[|front|] == c && c in s;
    if |front| == 0 {
      assert s[1..] == rest;
    } else {
      var s' := front[1..] + [c] + rest;
      assert s[1..] == s' && s'[|front| - 1] == c && c in s';
      UnfinishedBehindBreak(front[1..], c, rest);
    }
  }

  lemma UnfinishedNewLine(history: string, chunk: string)
    requires HasLineBreak(chunk)
    ensures Unfinished(history + chunk) == Unfinished(chunk)
  {
    UnfinishedIsTail(chunk);
    var tail := Unfinished(chunk);
    var at := |chunk| - |tail| - 1;
    assert chunk == chunk[..at] + [chunk[at]] + tail;
    UnfinishedBehindBreak(chunk[..at], chunk[at], tail);
    assert history + chunk == (history + chunk[..at]) + [chunk[at]] + tail;
    UnfinishedBehindBreak(history + chunk[..at], chunk[at], tail);
  }

  lemma UnfinishedSameLine(history: string, chunk: string)
    requires !HasLineBreak(chunk)
    ensures Unfinished(history + chunk) == Unfinished(history) + chunk
  {
    UnfinishedIsTail(history);
    var line := Unfinished(history);
    assert !HasLineBreak(line + chunk);
    if |line| < |history| {
      var at := |history| - |line| - 1;
      assert history + chunk == history[..at] + [history[at]] + (line + chunk);
      UnfinishedBehindBreak(history[..at], history[at], line + chunk);
    }
  }

  lemma LastBytesAppend(line: string, chunk: string, n: nat)
    ensures LastBytes(LastBytes(line, n) + chunk, n) == LastBytes(line + chunk, n)
  {
    var kept := LastBytes(line, n);
    assert line == line[..|line| - |kept|] + kept;
    assert line + chunk == line[..|line| - |kept|] + (kept + chunk);
  }

  /** Forgetting all but the retained part loses nothing that later retained parts depend on. */
  lemma RetainedAppend(history: string, chunk: string)
    ensures Retained(Retained(history) + chunk) == Retained(history + chunk)
  {
    UnfinishedIsTail(history);
    var kept, line := Retained(history), Unfinished(history);
    assert line == line[..|line| - |kept|] + kept;
    assert !HasLineBreak(kept);
    if HasLineBreak(chunk) {
      UnfinishedNewLine(history, chunk);
      UnfinishedNewLine(kept, chunk);
    } else {
      UnfinishedSameLine(history, chunk);
      UnfinishedSameLine(kept, chunk);
      LastBytesAppend(line, chunk, GUARD_LIMIT);
    }
  }

  /** What becomes of a frame; a session that cannot be opened is answered, and the connection goes on. */
  datatype Outcome =
    | NoSession
    | Ignored
    | NotOpened
    | TooLarge
    | Refused(rule: string)
    | Forwarded(text: string)
  {
    predicate Stopped() { TooLarge? || Refused? }
  }

  predicate FitsLimit(history: string, chunk: string) {
    |Retained(history)| + |chunk| <= INSPECT_LIMIT
  }

  /** What becomes of a frame, as a function of everything forwarded before it. */
  function FrameOutcome(inspect: string -> Decision, history: string, chunk: string): Outcome {
    if !FitsLimit(history, chunk) then TooLarge
    else
      match inspect(Retained(history) + chunk)
      case Allow => Forwarded(chunk)
      case Deny(rule) => Refused(rule)
  }

  method Keep(guarded: string) returns (retained: string)
    ensures retained == Retained(guarded)
  {
    retained := guarded;
    if HasLineBreak(retained) {
      retained := Unfinished(retained);
    }
    if |retained| > GUARD_LIMIT {
      retained := retained[|retained| - GUARD_LIMIT..];
    }
  }

  // ---------- frame cuts cannot hide a line ----------

  /** A frame passes when the guarded text fits and is not denied. */
  predicate Passes(inspect: string -> Decision, history: string, chunk: string) {
    FrameOutcome(inspect, history, chunk).Forwarded?
  }

  /** The inspection never loses a denial at a line break behind a whole text. */
  ghost predicate Composes(inspect: string -> Decision, whole: string -> bool) {
    forall c1, sep, c2 :: whole(c1) && IsLineBreak(sep) && (inspect(c1).Deny? || inspect(c2).Deny?)
      ==> inspect(c1 + [sep] + c2).Deny?
  }

  function NeutralText(): string -> bool {
    (text: string) => Neutral(Lower(text))
  }

  function Inspector(policy: Policy, profile: string): string -> Decision {
    (text: string) => policy.InspectShell(profile, text)
  }

  lemma InspectorComposes(policy: Policy, profile: string)
    requires RulesGrow(policy.rules)
    ensures Composes(Inspector(policy, profile), NeutralText())
  {
    var inspect := Inspector(policy, profile);
    forall c1, sep, c2 | NeutralText()(c1) && IsLineBreak(sep) && (inspect(c1).Deny? || inspect(c2).Deny?)
      ensures inspect(c1 + [sep] + c2).Deny?
    {
      SeparatorsCompose(policy, profile, c1, sep, c2);
    }
  }

  datatype Line = Line(text: string, terminator: char)

  predicate ProperLine(line: Line, whole: string -> bool) {
    && !HasLineBreak(line.text)
    && IsLineBreak(line.terminator)
    && |line.text| <= 4096
    && whole(line.text)
  }

  function LinesText(lines: seq<Line>): string {
    if |lines| == 0 then ""
    else lines[0].text + [lines[0].terminator] + LinesText(lines[1..])
  }

  function Concat(frames: seq<string>): string {
    if |frames| == 0 then "" else Concat(frames[..|frames| - 1]) + frames[|frames| - 1]
  }

  /** A run of whole lines is denied when its last one is, whatever follows it. */
  lemma {:induction false} LinesDenied(inspect: string -> Decision, whole: string -> bool, lines: seq<Line>, rest: string)
    requires Composes(inspect, whole)
    requires |lines| > 0 && forall line <- lines :: ProperLine(line, whole)
    requires inspect(lines[|lines| - 1].text).Deny?
    ensures inspect(LinesText(lines) + rest).Deny?
    decreases |lines|
  {
    var tail := LinesText(lines[1..]) + rest;
    assert ProperLine(lines[0], whole);
    if |lines| > 1 {
      assert lines[1..][|lines| - 2] == lines[|lines| - 1];
      LinesDenied(inspect, whole, lines[1..], rest);
    }
    assert LinesText(lines) + rest == lines[0].text + [lines[0].terminator] + tail;
  }

  lemma NoBreakInPrefix(s: string, n: nat)
    requires n <= |s| && !HasLineBreak(s)
    ensures !HasLineBreak(s[..n]) && Unfinished(s[..n]) == s[..n]
  {
  }

  lemma FirstLineText(lines: seq<Line>)
    requires |lines| > 0
    ensures LinesText(lines) == (lines[0].text + [lines[0].terminator]) + LinesText(lines[1..])
  {
  }

  /** A frame that starts behind the first line is inspected as if that line had never been. */
  lemma BehindFirstLine(inspect: string -> Decision, whole: string -> bool, lines: seq<Line>, history: string, chunk: string)
    returns (rest: string)
    requires |lines| > 0 && forall line <- lines :: ProperLine(line, whole)
    requires LinesText(lines) <= history + chunk && |lines[0].text| < |history| < |LinesText(lines)|
    ensures Retained(rest) == Retained(history)
    ensures |lines| > 1 && lines[1..][|lines| - 2] == lines[|lines| - 1]
    ensures forall line <- lines[1..] :: ProperLine(line, whole)
    ensures LinesText(lines[1..]) <= rest + chunk && |rest| < |LinesText(lines[1..])|
  {
    var first, c, tail := lines[0].text, lines[0].terminator, LinesText(lines[1..]);
    var n := |first| + 1;
    rest := history[n..];
    assert ProperLine(lines[0], whole);
    FirstLineText(lines);
    DropBoth(LinesText(lines), history, chunk, first + [c], tail);
    UnfinishedBehindBreak(first, c, rest);
    forall line | line in lines[1..] ensures ProperLine(line, whole) { assert line in lines; }
  }

  /** What is left of a text and of what has come of it behind a first part that has come whole. */
  lemma DropBoth(text: string, history: string, chunk: string, first: string, tail: string)
    requires text <= history + chunk && text == first + tail && |first| <= |history| < |text|
    ensures history == first + history[|first|..]
    ensures tail <= history[|first|..] + chunk && |history[|first|..]| < |tail|
  {
    var n, all := |first|, history + chunk;
    assert history[..n] == all[..n] == text[..n] == first;
    assert history[n..] + chunk == all[n..];
    assert tail == text[n..] && text[n..] == all[n..][..|text| - n];
  }

  /** The text inspected with the frame that ends the last line contains that line from its start. */
  lemma {:induction false} CarryingFrameDenied(
      inspect: string -> Decision, whole: string -> bool, lines: seq<Line>, history: string, chunk: string)
    requires Composes(inspect, whole)
    requires |lines| > 0 && forall line <- lines :: ProperLine(line, whole)
    requires inspect(lines[|lines| - 1].text).Deny?
    requires LinesText(lines) <= history + chunk && |history| < |LinesText(lines)|
    ensures inspect(Retained(history) + chunk).Deny?
    decreases |lines|
  {
    var first, text, all := lines[0].text, LinesText(lines), history + chunk;
    assert ProperLine(lines[0], whole);
    assert text[..|history|] == history by { assert all[..|text|] == text; assert all[..|history|] == history; }
    if |history| <= |first| {
      assert history == first[..|history|];
      NoBreakInPrefix(first, |history|);
      LinesDenied(inspect, whole, lines, all[|text|..]);
      assert all == text + all[|text|..];
    } else {
      var rest := BehindFirstLine(inspect, whole, lines, history, chunk);
      CarryingFrameDenied(inspect, whole, lines[1..], rest, chunk);
    }
  }

  lemma {:induction false} SomeFrameStops(
      inspect: string -> Decision, whole: string -> bool, lines: seq<Line>, buffer: string, frames: seq<string>, f: nat)
    requires Composes(inspect, whole)
    requires |lines| > 0 && forall line <- lines :: ProperLine(line, whole)
    requires inspect(lines[|lines| - 1].text).Deny?
    requires LinesText(lines) <= buffer + Concat(frames) && |buffer| < |LinesText(lines)|
    requires f < |frames| && |LinesText(lines)| <= |buffer| + |Concat(frames[..f + 1])|
    ensures exists g :: 0 <= g <= f && !Passes(inspect, buffer + Concat(frames[..g]), frames[g])
    decreases f
  {
    var before, now := Concat(frames[..f]), Concat(frames[..f + 1]);
    assert frames[..f + 1][..f] == frames[..f];
    assert now == before + frames[f];
    if |LinesText(lines)| <= |buffer| + |before| {
      if f == 0 { assert false; }
      SomeFrameStops(inspect, whole, lines, buffer, frames, f - 1);
    } else {
      ConcatPrefix(frames, f + 1);
      BufferPrefix(LinesText(lines), buffer, before, frames[f], Concat(frames));
      CarryingFrameDenied(inspect, whole, lines, buffer + before, frames[f]);
      assert !Passes(inspect, buffer + Concat(frames[..f]), frames[f]);
    }
  }

  lemma BufferPrefix(text: string, buffer: string, before: string, frame: string, all: string)
    requires text <= buffer + all && before + frame <= all && |text| <= |buffer| + |before + frame|
    ensures text <= (buffer + before) + frame
  {
    assert (buffer + before) + frame == buffer + (before + frame);
    assert buffer + (before + frame) == (buffer + all)[..|buffer| + |before + frame|];
  }

  /** The lines of a channel whose buffer already holds the start of the first of them. */
  function Joined(buffer: string, lines: seq<Line>): seq<Line> {
    if |lines| == 0 then [] else [lines[0].(text := buffer + lines[0].text)] + lines[1..]
  }

  lemma Regroup(buffer: string, text: string, c: char, rest: string)
    ensures ((buffer + text) + [c]) + rest == buffer + ((text + [c]) + rest)
  {
  }

  lemma JoinedText(buffer: string, lines: seq<Line>)
    requires |lines| > 0
    ensures LinesText(Joined(buffer, lines)) == buffer + LinesText(lines)
  {
    FirstLineText(lines);
    FirstLineText(Joined(buffer, lines));
    assert Joined(buffer, lines)[1..] == lines[1..];
    Regroup(buffer, lines[0].text, lines[0].terminator, LinesText(lines[1..]));
  }

  /** The k-th line, with what the buffer holds in front of the first, is denied alone, and the f-th frame
      brings its terminator. */
  ghost predicate DeniedLineArrives(
      inspect: string -> Decision, whole: string -> bool, buffer: string, lines: seq<Line>, k: nat, frames: seq<string>, f: nat)
  {
    && (forall line <- Joined(buffer, lines) :: ProperLine(line, whole))
    && LinesText(lines) <= Concat(frames)
    && k < |lines| && inspect(Joined(buffer, lines)[k].text).Deny?
    && f < |frames| && |LinesText(lines[..k + 1])| <= |Concat(frames[..f + 1])|
  }

  ghost predicate SomeFrameRefused(inspect: string -> Decision, buffer: string, frames: seq<string>, f: nat) {
    exists g :: 0 <= g <= f && g < |frames| && !Passes(inspect, buffer + Concat(frames[..g]), frames[g])
  }

  lemma SomeFrameStopsLine(
      inspect: string -> Decision, whole: string -> bool, buffer: string, lines: seq<Line>, k: nat, frames: seq<string>, f: nat)
    requires Composes(inspect, whole) && DeniedLineArrives(inspect, whole, buffer, lines, k, frames, f)
    ensures SomeFrameRefused(inspect, buffer, frames, f)
  {
    LinesTextPrefix(lines, k + 1);
    var upto := lines[..k + 1];
    JoinedText(buffer, upto);
    assert Joined(buffer, upto) == Joined(buffer, lines)[..k + 1];
    assert forall line <- Joined(buffer, upto) :: line in Joined(buffer, lines);
    assert LinesText(upto) <= Concat(frames) by { assert LinesText(upto) == Concat(frames)[..|LinesText(upto)|]; }
    assert buffer + LinesText(upto) <= buffer + Concat(frames);
    SomeFrameStops(inspect, whole, Joined(buffer, upto), buffer, frames, f);
  }

  /** However the input is cut into frames, a line that is denied alone is stopped no later than by the
      frame that brings its terminator; the first line is judged with what the buffer holds already. */
  lemma FrameCutsCannotHideALine(
      policy: Policy, profile: string, buffer: string, lines: seq<Line>, k: nat, frames: seq<string>, f: nat)
    requires RulesGrow(policy.rules)
    requires DeniedLineArrives(Inspector(policy, profile), NeutralText(), buffer, lines, k, frames, f)
    ensures SomeFrameRefused(Inspector(policy, profile), buffer, frames, f)
  {
    InspectorComposes(policy, profile);
    SomeFrameStopsLine(Inspector(policy, profile), NeutralText(), buffer, lines, k, frames, f);
  }

  // ---------- the first line, exactly ----------

  /** Its terminator adds nothing to a neutral line. */
  lemma TerminatorAddsNothing(policy: Policy, profile: string, line: string, terminator: char)
    requires Neutral(Lower(line)) && IsLineBreak(terminator)
    ensures policy.InspectShell(profile, line + [terminator]) == policy.InspectShell(profile, line)
  {
    var text := Lower(line);
    assert Lower(line + [terminator]) == text + [terminator] + "";
    var piped := SegmentsCompose(text, terminator, "");
    assert Lex("") == [];
    assert Lex(text + [terminator] + "") == Lex(text);
  }

  /** The line comes first, and with the f-th frame it is there. */
  predicate Brings(line: Line, frames: seq<string>, f: nat) {
    LinesText([line]) <= Concat(frames) && f < |frames| && |LinesText([line])| <= |Concat(frames[..f + 1])|
  }

  /** Whatever frames bring the line, with anything behind it, one of them is refused. */
  ghost predicate StoppedInEveryCut(inspect: string -> Decision, buffer: string, line: Line) {
    forall frames, f: nat | Brings(line, frames, f) :: SomeFrameRefused(inspect, buffer, frames, f)
  }

  lemma DeniedFirstLine(
      inspect: string -> Decision, whole: string -> bool, buffer: string, line: Line, frames: seq<string>, f: nat)
    requires Composes(inspect, whole) && ProperLine(line.(text := buffer + line.text), whole)
    requires inspect(buffer + line.text).Deny? && Brings(line, frames, f)
    ensures SomeFrameRefused(inspect, buffer, frames, f)
  {
    assert [line][..1] == [line];
    SomeFrameStopsLine(inspect, whole, buffer, [line], 0, frames, f);
  }

  /** One frame that brings just the line. */
  lemma OneFramePasses(inspect: string -> Decision, buffer: string, line: Line)
    requires !HasLineBreak(buffer) && |buffer| <= 4096 && |line.text| <= 4096
    requires inspect(buffer + (line.text + [line.terminator])).Allow?
    ensures !StoppedInEveryCut(inspect, buffer, line)
  {
    var frame := line.text + [line.terminator];
    var frames := [frame];
    OneFrame(frame);
    assert LinesText([line]) == frame by { assert [line][1..] == [] && frame + "" == frame; }
    assert buffer + "" == buffer && Retained(buffer) == buffer;
    assert Passes(inspect, buffer + Concat(frames[..0]), frames[0]);
    assert Brings(line, frames, 0) && !SomeFrameRefused(inspect, buffer, frames, 0);
  }

  lemma OneFrame(frame: string)
    ensures Concat([frame]) == frame && Concat([frame][..0]) == "" && [frame][..1] == [frame]
  {
    assert "" + frame == frame;
  }

  lemma StoppedIffDenied(inspect: string -> Decision, whole: string -> bool, buffer: string, line: Line)
    requires Composes(inspect, whole) && ProperLine(line.(text := buffer + line.text), whole)
    requires inspect(buffer + (line.text + [line.terminator])) == inspect(buffer + line.text)
    ensures StoppedInEveryCut(inspect, buffer, line) <==> inspect(buffer + line.text).Deny?
  {
    if inspect(buffer + line.text).Deny? {
      forall frames, f: nat | Brings(line, frames, f) ensures SomeFrameRefused(inspect, buffer, frames, f) {
        DeniedFirstLine(inspect, whole, buffer, line, frames, f);
      }
    } else {
      BufferUnbroken(buffer, line.text);
      OneFramePasses(inspect, buffer, line);
    }
  }

  /** The first line is stopped however it is cut exactly when it is denied together with what the buffer
      holds; whether it is denied alone does not matter. */
  lemma FirstLineIsStoppedIff(policy: Policy, profile: string, buffer: string, line: Line)
    requires RulesGrow(policy.rules) && ProperLine(line.(text := buffer + line.text), NeutralText())
    ensures StoppedInEveryCut(Inspector(policy, profile), buffer, line) <==> policy.Denies(profile, buffer + line.text)
  {
    InspectorComposes(policy, profile);
    TerminatorAddsNothing(policy, profile, buffer + line.text, line.terminator);
    assert (buffer + line.text) + [line.terminator] == buffer + (line.text + [line.terminator]);
    StoppedIffDenied(Inspector(policy, profile), NeutralText(), buffer, line);
  }

  lemma BufferUnbroken(buffer: string, text: string)
    requires !HasLineBreak(buffer + text)
    ensures !HasLineBreak(buffer)
  {
    assert forall c :: c in buffer ==> c in buffer + text;
  }

  lemma {:induction false} LinesTextPrefix(lines: seq<Line>, n: nat)
    requires n <= |lines|
    ensures LinesText(lines[..n]) <= LinesText(lines)
    decreases |lines|
  {
    if n > 0 {
      assert lines[..n][1..] == lines[1..][..n - 1];
      LinesTextPrefix(lines[1..], n - 1);
    }
  }

  lemma {:induction false} ConcatPrefix(frames: seq<string>, n: nat)
    requires n <= |frames|
    ensures Concat(frames[..n]) <= Concat(frames)
    decreases |frames|
  {
    if n == |frames| {
      assert frames[..n] == frames;
    } else {
      assert frames[..|frames| - 1][..n] == frames[..n];
      ConcatPrefix(frames[..|frames| - 1], n);
    }
  }
}
