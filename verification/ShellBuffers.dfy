/** The cross-frame guard of internal/gateway/gateway.go over a buffer that may already hold anything when
    the first line begins: which lines are stopped however they are cut, and exactly when. */
module ShellBuffers {
  import opened Text
  import opened ShellLexer
  import opened ShellRules
  import opened ShellCompose
  import opened ShellGuard

  /** The lines come first, and with the f-th frame they are all there. */
  predicate Arrives(lines: seq<Line>, frames: seq<string>, f: nat) {
    LinesText(lines) <= Concat(frames) && f < |frames| && |LinesText(lines)| <= |Concat(frames[..f + 1])|
  }

  /** The h-th frame brings the end of the first line together with that of the last. */
  predicate Together(lines: seq<Line>, frames: seq<string>, h: nat) {
    && |lines| > 0 && h < |frames|
    && |Concat(frames[..h])| <= |lines[0].text| && |LinesText(lines)| <= |Concat(frames[..h + 1])|
  }

  ghost predicate ProperLines(lines: seq<Line>, whole: string -> bool) {
    |lines| > 0 && forall line <- lines :: ProperLine(line, whole)
  }

  function LastText(lines: seq<Line>): string
    requires |lines| > 0
  {
    lines[|lines| - 1].text
  }

  lemma {:induction false} FirstArrival(lines: seq<Line>, frames: seq<string>, f: nat) returns (h: nat)
    requires |lines| > 0 && Arrives(lines, frames, f)
    ensures h <= f && Arrives(lines, frames, h) && |Concat(frames[..h])| < |LinesText(lines)|
    decreases f
  {
    h := f;
    if |LinesText(lines)| <= |Concat(frames[..f])| {
      FirstLineText(lines);
      h := FirstArrival(lines, frames, f - 1);
    }
  }

  /** What has come before the frame, the frame, and what of it goes beyond the lines. */
  lemma FrameSplits(lines: seq<Line>, frames: seq<string>, h: nat) returns (tail: string)
    requires Arrives(lines, frames, h)
    ensures Concat(frames[..h]) + frames[h] == LinesText(lines) + tail
  {
    var before, now, text := Concat(frames[..h]), Concat(frames[..h + 1]), LinesText(lines);
    assert frames[..h + 1][..h] == frames[..h];
    assert now == before + frames[h];
    ConcatPrefix(frames, h + 1);
    assert text == Concat(frames)[..|text|] == now[..|text|];
    tail := now[|text|..];
  }

  // ---------- any buffer: lines that do not end together with the first ----------

  lemma BreakInside(text: string, history: string, chunk: string, first: string, c: char, rest: string)
    requires text == (first + [c]) + rest && IsLineBreak(c) && text <= history + chunk && |first| < |history|
    ensures HasLineBreak(history)
  {
    assert history[|first|] == (history + chunk)[|first|] == text[|first|] == c;
  }

  /** Once the first line has ended, its buffer is forgotten. */
  lemma BehindTheFirst(
      inspect: string -> Decision, whole: string -> bool, buffer: string, lines: seq<Line>, frames: seq<string>, h: nat)
    requires Composes(inspect, whole) && ProperLines(lines, whole) && inspect(LastText(lines)).Deny?
    requires Arrives(lines, frames, h) && |lines[0].text| < |Concat(frames[..h])| < |LinesText(lines)|
    ensures !Passes(inspect, buffer + Concat(frames[..h]), frames[h])
  {
    var before := Concat(frames[..h]);
    var tail := FrameSplits(lines, frames, h);
    CarryingFrameDenied(inspect, whole, lines, before, frames[h]);
    FirstLineText(lines);
    assert ProperLine(lines[0], whole);
    BreakInside(LinesText(lines), before, frames[h], lines[0].text, lines[0].terminator, LinesText(lines[1..]));
    UnfinishedNewLine(buffer, before);
  }

  /** Whatever the buffer holds, a line that is denied alone is stopped no later than by the frame that brings
      its end, unless one frame brings the end of the first line as well. */
  lemma StoppedUnlessTogether(
      inspect: string -> Decision, whole: string -> bool, buffer: string, lines: seq<Line>, frames: seq<string>, f: nat)
    requires Composes(inspect, whole) && ProperLines(lines, whole) && inspect(LastText(lines)).Deny?
    requires Arrives(lines, frames, f)
    ensures SomeFrameRefused(inspect, buffer, frames, f) || exists h: nat :: h <= f && Together(lines, frames, h)
  {
    var h := FirstArrival(lines, frames, f);
    if |Concat(frames[..h])| <= |lines[0].text| {
      assert Together(lines, frames, h);
    } else {
      BehindTheFirst(inspect, whole, buffer, lines, frames, h);
    }
  }

  // ---------- exactly ----------

  ghost predicate StoppedHoweverCut(inspect: string -> Decision, buffer: string, lines: seq<Line>) {
    forall frames, f: nat | Arrives(lines, frames, f) :: SomeFrameRefused(inspect, buffer, frames, f)
  }

  /** The text is denied behind the buffer, with anything behind it that can still be inspected. */
  ghost predicate DeniedWithAnyTail(inspect: string -> Decision, buffer: string, text: string) {
    forall tail | |buffer| + |text + tail| <= 262144 :: inspect(buffer + (text + tail)).Deny?
  }

  lemma Unbroken(buffer: string, before: string, lines: seq<Line>, tail: string, chunk: string)
    requires |lines| > 0 && !HasLineBreak(buffer) && !HasLineBreak(lines[0].text)
    requires |buffer| + |lines[0].text| <= 4096 && |before| <= |lines[0].text|
    requires before + chunk == LinesText(lines) + tail
    ensures Retained(buffer + before) == buffer + before
  {
    FirstLineText(lines);
    var first := lines[0].text;
    assert before == first[..|before|] by {
      assert before == (before + chunk)[..|before|];
      assert (LinesText(lines) + tail)[..|before|] == first[..|before|];
    }
    assert !HasLineBreak(buffer + before);
  }

  lemma TogetherIsDenied(inspect: string -> Decision, buffer: string, lines: seq<Line>, frames: seq<string>, h: nat)
    requires |lines| > 0 && !HasLineBreak(buffer) && !HasLineBreak(lines[0].text)
    requires |buffer| + |lines[0].text| <= 4096
    requires Arrives(lines, frames, h) && Together(lines, frames, h)
    requires DeniedWithAnyTail(inspect, buffer, LinesText(lines))
    ensures !Passes(inspect, buffer + Concat(frames[..h]), frames[h])
  {
    var before, text := Concat(frames[..h]), LinesText(lines);
    var tail := FrameSplits(lines, frames, h);
    Unbroken(buffer, before, lines, tail, frames[h]);
    assert (buffer + before) + frames[h] == buffer + (before + frames[h]);
    assert |buffer| + |text + tail| == |buffer + before| + |frames[h]|;
  }

  lemma AllAtOnce(inspect: string -> Decision, buffer: string, lines: seq<Line>, tail: string)
    requires |lines| > 0 && !HasLineBreak(buffer) && |buffer| <= 4096
    requires |buffer| + |LinesText(lines) + tail| <= 262144 && inspect(buffer + (LinesText(lines) + tail)).Allow?
    ensures !StoppedHoweverCut(inspect, buffer, lines)
  {
    var frame := LinesText(lines) + tail;
    var frames := [frame];
    OneFrame(frame);
    assert buffer + "" == buffer && Retained(buffer) == buffer;
    assert Passes(inspect, buffer + Concat(frames[..0]), frames[0]);
    assert Arrives(lines, frames, 0) && !SomeFrameRefused(inspect, buffer, frames, 0);
  }

  lemma FirstEndsInOneFrame(lines: seq<Line>, frames: seq<string>, h: nat)
    requires |lines| == 1 && h <= |frames| && |Concat(frames[..h])| < |LinesText(lines)|
    ensures |Concat(frames[..h])| <= |lines[0].text|
  {
    FirstLineText(lines);
  }

  /** Whatever the buffer holds, as long as it and the first line stay within the 4096 bytes that are kept: a
      line that is denied alone, or any first line, is stopped in every cut exactly when it is denied behind
      the buffer in one frame, with any text behind it.  No cut does more than sending everything at once. */
  lemma LineIsStoppedIff(inspect: string -> Decision, whole: string -> bool, buffer: string, lines: seq<Line>)
    requires Composes(inspect, whole) && ProperLines(lines, whole)
    requires !HasLineBreak(buffer) && |buffer| + |lines[0].text| <= 4096
    requires |lines| > 1 ==> inspect(LastText(lines)).Deny?
    ensures StoppedHoweverCut(inspect, buffer, lines) <==> DeniedWithAnyTail(inspect, buffer, LinesText(lines))
  {
    if DeniedWithAnyTail(inspect, buffer, LinesText(lines)) {
      forall frames, f: nat | Arrives(lines, frames, f) ensures SomeFrameRefused(inspect, buffer, frames, f) {
        var h := FirstArrival(lines, frames, f);
        if |lines| == 1 { FirstEndsInOneFrame(lines, frames, h); }
        if |Concat(frames[..h])| <= |lines[0].text| {
          assert ProperLine(lines[0], whole);
          TogetherIsDenied(inspect, buffer, lines, frames, h);
        } else {
          BehindTheFirst(inspect, whole, buffer, lines, frames, h);
        }
      }
    } else {
      var tail :| |buffer| + |LinesText(lines) + tail| <= 262144 && inspect(buffer + (LinesText(lines) + tail)).Allow?;
      AllAtOnce(inspect, buffer, lines, tail);
    }
  }

  // ---------- for a policy ----------

  /** All that is inspected of buffer and lines when they come at once, but for the last terminator. */
  function WholeText(buffer: string, lines: seq<Line>): string
    requires |lines| > 0
  {
    buffer + LinesText(lines[..|lines| - 1]) + LastText(lines)
  }

  lemma {:induction false} LinesTextEnds(lines: seq<Line>)
    requires |lines| > 0
    ensures LinesText(lines) == (LinesText(lines[..|lines| - 1]) + LastText(lines)) + [lines[|lines| - 1].terminator]
    decreases |lines|
  {
    FirstLineText(lines);
    if |lines| == 1 {
      assert lines[..0] == [];
      assert "" + lines[0].text == lines[0].text && (lines[0].text + [lines[0].terminator]) + "" == lines[0].text + [lines[0].terminator];
    } else {
      var rest, front := lines[1..], lines[..|lines| - 1];
      assert rest[..|rest| - 1] == front[1..] && LastText(rest) == LastText(lines);
      FirstLineText(front);
      LinesTextEnds(rest);
      var first := lines[0].text + [lines[0].terminator];
      assert first + ((LinesText(front[1..]) + LastText(lines)) + [lines[|lines| - 1].terminator])
        == ((first + LinesText(front[1..])) + LastText(lines)) + [lines[|lines| - 1].terminator];
    }
  }

  lemma WholeTextEnds(buffer: string, lines: seq<Line>, tail: string)
    requires |lines| > 0
    ensures buffer + (LinesText(lines) + tail) == WholeText(buffer, lines) + [lines[|lines| - 1].terminator] + tail
  {
    LinesTextEnds(lines);
    Shift(buffer, LinesText(lines[..|lines| - 1]), LastText(lines), lines[|lines| - 1].terminator, tail);
  }

  lemma Shift(buffer: string, front: string, last: string, c: char, tail: string)
    ensures buffer + (((front + last) + [c]) + tail) == ((buffer + front + last) + [c]) + tail
  {
  }

  lemma NeutralTextDecides(policy: Policy, profile: string, buffer: string, lines: seq<Line>)
    requires RulesGrow(policy.rules) && ProperLines(lines, NeutralText())
    requires Neutral(Lower(WholeText(buffer, lines))) && |buffer| + |LinesText(lines)| <= 262144
    ensures DeniedWithAnyTail(Inspector(policy, profile), buffer, LinesText(lines)) <==> policy.Denies(profile, WholeText(buffer, lines))
  {
    var inspect, text, end := Inspector(policy, profile), WholeText(buffer, lines), lines[|lines| - 1].terminator;
    assert ProperLine(lines[|lines| - 1], NeutralText());
    if policy.Denies(profile, text) {
      forall tail | |buffer| + |LinesText(lines) + tail| <= 262144
        ensures inspect(buffer + (LinesText(lines) + tail)).Deny?
      {
        DeniedWithTail(policy, profile, text, end, tail);
        WholeTextEnds(buffer, lines, tail);
      }
    } else {
      AllowedWithTerminator(policy, profile, text, end);
      WholeTextEnds(buffer, lines, "");
      assert LinesText(lines) + "" == LinesText(lines);
      assert !inspect(buffer + (LinesText(lines) + "")).Deny?;
    }
  }

  lemma DeniedWithTail(policy: Policy, profile: string, text: string, end: char, tail: string)
    requires RulesGrow(policy.rules) && Neutral(Lower(text)) && IsLineBreak(end) && policy.Denies(profile, text)
    ensures Inspector(policy, profile)(text + [end] + tail).Deny?
  {
    SeparatorsCompose(policy, profile, text, end, tail);
  }

  lemma AllowedWithTerminator(policy: Policy, profile: string, text: string, end: char)
    requires Neutral(Lower(text)) && IsLineBreak(end) && !policy.Denies(profile, text)
    ensures Inspector(policy, profile)(text + [end] + "").Allow?
  {
    TerminatorAddsNothing(policy, profile, text, end);
    assert text + [end] + "" == text + [end];
  }

  /** Where buffer and lines together are neutral it is enough to look at them: the last line, denied alone or
      the first, is stopped in every cut exactly when the whole is denied. */
  lemma LineIsStoppedIffWholeDenied(policy: Policy, profile: string, buffer: string, lines: seq<Line>)
    requires RulesGrow(policy.rules) && ProperLines(lines, NeutralText())
    requires !HasLineBreak(buffer) && |buffer| + |lines[0].text| <= 4096
    requires Neutral(Lower(WholeText(buffer, lines))) && |buffer| + |LinesText(lines)| <= 262144
    requires |lines| > 1 ==> policy.Denies(profile, LastText(lines))
    ensures StoppedHoweverCut(Inspector(policy, profile), buffer, lines) <==> policy.Denies(profile, WholeText(buffer, lines))
  {
    InspectorComposes(policy, profile);
    NeutralTextDecides(policy, profile, buffer, lines);
    LineIsStoppedIff(Inspector(policy, profile), NeutralText(), buffer, lines);
  }

  /** Only a line that ends in one frame with the first can escape, and, if it is a later one, only behind a
      buffer that leaves the first line too long or not neutral. */
  lemma OnlyTogetherAndNotNeutral(
      inspect: string -> Decision, whole: string -> bool, buffer: string, lines: seq<Line>, frames: seq<string>, f: nat)
    requires Composes(inspect, whole) && ProperLines(lines, whole) && inspect(LastText(lines)).Deny?
    requires Arrives(lines, frames, f) && !SomeFrameRefused(inspect, buffer, frames, f)
    ensures exists h: nat :: h <= f && Together(lines, frames, h)
    ensures |lines| > 1 ==> !ProperLine(lines[0].(text := buffer + lines[0].text), whole)
  {
    StoppedUnlessTogether(inspect, whole, buffer, lines, frames, f);
    if |lines| > 1 && ProperLine(lines[0].(text := buffer + lines[0].text), whole) {
      NeutralFirstLine(inspect, whole, buffer, lines, frames, f);
    }
  }

  /** The last of the lines is denied alone, and with the f-th frame it is there, but not in one frame with the
      end of the first. */
  ghost predicate DeniedApart(
      inspect: string -> Decision, whole: string -> bool, lines: seq<Line>, frames: seq<string>, f: nat)
  {
    && ProperLines(lines, whole) && inspect(LastText(lines)).Deny?
    && Arrives(lines, frames, f) && forall h: nat | h <= f :: !Together(lines, frames, h)
  }

  /** For a policy: such a line is stopped. */
  lemma ApartIsStopped(policy: Policy, profile: string, buffer: string, lines: seq<Line>, frames: seq<string>, f: nat)
    requires RulesGrow(policy.rules) && DeniedApart(Inspector(policy, profile), NeutralText(), lines, frames, f)
    ensures SomeFrameRefused(Inspector(policy, profile), buffer, frames, f)
  {
    InspectorComposes(policy, profile);
    StoppedUnlessTogether(Inspector(policy, profile), NeutralText(), buffer, lines, frames, f);
  }

  lemma NeutralFirstLine(
      inspect: string -> Decision, whole: string -> bool, buffer: string, lines: seq<Line>, frames: seq<string>, f: nat)
    requires Composes(inspect, whole) && ProperLines(lines, whole) && |lines| > 1 && inspect(LastText(lines)).Deny?
    requires ProperLine(lines[0].(text := buffer + lines[0].text), whole) && Arrives(lines, frames, f)
    ensures SomeFrameRefused(inspect, buffer, frames, f)
  {
    var k := |lines| - 1;
    assert lines[..k + 1] == lines;
    assert forall line <- lines[1..] :: line in lines;
    assert forall line <- Joined(buffer, lines) :: line == Joined(buffer, lines)[0] || line in lines[1..];
    SomeFrameStopsLine(inspect, whole, buffer, lines, k, frames, f);
  }
}
