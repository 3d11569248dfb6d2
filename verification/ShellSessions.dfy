/** Shell sessions of one daemon connection over whole runs of frames (handleShell, openShell, stopShell
    and removeShell of internal/gateway/gateway.go): what a session finds in its buffer, and what reaches
    the device through it. */
module ShellSessions {
  import opened Text
  import opened ShellLexer
  import opened ShellRules
  import opened ShellCompose
  import opened ShellGuard
  import opened ShellBuffers

  // ---------- events ----------

  /** Which channels have a session, and everything accepted on each since its buffer was created. */
  datatype Sessions = Sessions(shells: set<nat>, history: map<nat, string>)

  const NO_SESSIONS := Sessions({}, map[])

  /** Frames of the shell family, and the ends of sessions.  ended: the device ends the session after it
      has been looked up; opens: the target can be opened. */
  datatype Event =
    | Init(channel: nat, opens: bool)
    | Data(channel: nat, payload: string, ended: bool)
    | Execute(channel: nat, command: string, ended: bool, opens: bool)
    | End(channel: nat)

  function HistoryOf(s: Sessions, channel: nat): string {
    if channel in s.history then s.history[channel] else ""
  }

  /** openShell. */
  function Open(inspect: string -> Decision, s: Sessions, channel: nat, command: string, opens: bool): (Sessions, Outcome) {
    if channel in s.shells then (s, Ignored)
    else
      match inspect(command)
      case Deny(rule) => (s, Refused(rule))
      case Allow => if opens then (s.(shells := s.shells + {channel}), Forwarded(command)) else (s, NotOpened)
  }

  function Drop(s: Sessions, channel: nat): Sessions {
    Sessions(s.shells - {channel}, s.history - {channel})
  }

  /** Input behind everything accepted before; a refusal ends session and buffer. */
  function Guard(inspect: string -> Decision, s: Sessions, channel: nat, payload: string): (Sessions, Outcome) {
    var outcome := FrameOutcome(inspect, HistoryOf(s, channel), payload);
    (if outcome.Stopped() then Drop(s, channel) else s.(history := s.history[channel := HistoryOf(s, channel) + payload]), outcome)
  }

  function Feed(inspect: string -> Decision, s: Sessions, channel: nat, payload: string, ended: bool): (Sessions, Outcome) {
    Guard(inspect, if ended then Drop(s, channel) else s, channel, payload)
  }

  function Handle(inspect: string -> Decision, s: Sessions, e: Event): (Sessions, Outcome) {
    match e
    case Init(channel, opens) => Open(inspect, s, channel, "", opens)
    case Data(channel, payload, ended) =>
      if channel in s.shells then Feed(inspect, s, channel, payload, ended) else (s, NoSession)
    case Execute(channel, command, ended, opens) =>
      if channel !in s.shells then Open(inspect, s, channel, command, opens)
      else if command == "" then (s, Ignored)
      else Feed(inspect, s, channel, command, ended)
    case End(channel) => (Drop(s, channel), Ignored)
  }

  function Play(inspect: string -> Decision, s: Sessions, events: seq<Event>): Sessions {
    if |events| == 0 then s
    else Handle(inspect, Play(inspect, s, events[..|events| - 1]), events[|events| - 1]).0
  }

  function Outcomes(inspect: string -> Decision, s: Sessions, events: seq<Event>): seq<Outcome> {
    if |events| == 0 then []
    else
      var front := events[..|events| - 1];
      Outcomes(inspect, s, front) + [Handle(inspect, Play(inspect, s, front), events[|events| - 1]).1]
  }

  // ---------- the connection as it is ----------

  /** The shell state of one daemon connection: which channels have a session, and the buffer of each. */
  class ConnectionShells {
    const inspect: string -> Decision
    var shells: set<nat>
    var shellInput: map<nat, string>
    ghost var history: map<nat, string>

    constructor (inspect: string -> Decision)
      ensures Valid() && Value() == NO_SESSIONS && this.inspect == inspect
    {
      this.inspect := inspect;
      shells, shellInput, history := {}, map[], map[];
    }

    ghost function Value(): Sessions
      reads this
    {
      Sessions(shells, history)
    }

    /** The buffer refines the history. */
    ghost predicate Valid()
      reads this
    {
      && shellInput.Keys == history.Keys
      && (forall channel :: channel in shellInput ==> shellInput[channel] == Retained(history[channel]))
    }

    /** appendShellInput: everything of this frame is inspected, behind the kept part of its line.  It does
        not look whether the channel has a session. */
    method AppendShellInput(channel: nat, chunk: string) returns (guarded: string, ok: bool)
      requires Valid()
      modifies this`shellInput, this`history
      ensures Valid()
      ensures ok == FitsLimit(old(HistoryOf(Value(), channel)), chunk)
      ensures ok <==> |Retained(old(HistoryOf(Value(), channel)))| + |chunk| <= 262144
      ensures ok ==> guarded == Retained(old(HistoryOf(Value(), channel))) + chunk && |guarded| <= 262144
      ensures history == old(history)[channel := if ok then old(HistoryOf(Value(), channel)) + chunk else ""]
    {
      ghost var before := HistoryOf(Value(), channel);
      var buffer := if channel in shellInput then shellInput[channel] else "";
      assert buffer == Retained(before);
      if |buffer| + |chunk| > INSPECT_LIMIT {
        assert Retained("") == "";
        shellInput := shellInput[channel := ""];
        history := history[channel := ""];
        return "", false;
      }
      guarded := buffer + chunk;
      var retained := Keep(guarded);
      RetainedAppend(before, chunk);
      shellInput := shellInput[channel := retained];
      history := history[channel := before + chunk];
      ok := true;
    }

    /** stopShell, and removeShell when the device has ended the session. */
    method StopShell(channel: nat)
      requires Valid()
      modifies this
      ensures Valid() && Value() == Drop(old(Value()), channel)
    {
      shells := shells - {channel};
      shellInput := shellInput - {channel};
      history := history - {channel};
    }

    /** Input for a session that was there when it was looked up. */
    method GuardInput(channel: nat, payload: string) returns (outcome: Outcome)
      requires Valid()
      modifies this
      ensures Valid() && (Value(), outcome) == Guard(inspect, old(Value()), channel, payload)
    {
      var guarded, ok := AppendShellInput(channel, payload);
      outcome := Judge(payload, guarded, ok);
      if outcome.Stopped() {
        PutThenDropped(old(history), channel, history[channel]);
        StopShell(channel);
      }
    }

    method Judge(payload: string, guarded: string, ok: bool) returns (outcome: Outcome)
      ensures outcome ==
        if !ok then TooLarge
        else match inspect(guarded) case Allow => Forwarded(payload) case Deny(rule) => Refused(rule)
    {
      if !ok { return TooLarge; }
      var decision := inspect(guarded);
      outcome := if decision.Allow? then Forwarded(payload) else Refused(decision.rule);
    }

    /** handleShell on ShellData. */
    method HandleShellData(channel: nat, payload: string, ended: bool) returns (outcome: Outcome)
      requires Valid()
      modifies this
      ensures Valid() && (Value(), outcome) == Handle(inspect, old(Value()), Data(channel, payload, ended))
    {
      if channel !in shells { return NoSession; }
      if ended { StopShell(channel); }
      outcome := GuardInput(channel, payload);
    }

    /** openShell, for ShellInit with an empty command.  It leaves the buffer of its channel alone. */
    method OpenShell(channel: nat, command: string, opens: bool) returns (outcome: Outcome)
      requires Valid()
      modifies this`shells
      ensures Valid() && (Value(), outcome) == Open(inspect, old(Value()), channel, command, opens)
    {
      if channel in shells { return Ignored; }
      var decision := inspect(command);
      if decision.Deny? { return Refused(decision.rule); }
      if !opens { return NotOpened; }
      shells := shells + {channel};
      outcome := Forwarded(command);
    }

    /** handleShell on UnityExecute: input of a running session, or a one-shot command that is judged
        on its own and then opens the session. */
    method HandleExecute(channel: nat, command: string, ended: bool, opens: bool) returns (outcome: Outcome)
      requires Valid()
      modifies this
      ensures Valid() && (Value(), outcome) == Handle(inspect, old(Value()), Execute(channel, command, ended, opens))
    {
      if channel in shells {
        if command == "" { return Ignored; }
        if ended { StopShell(channel); }
        outcome := GuardInput(channel, command);
      } else {
        var decision := inspect(command);
        if decision.Deny? { return Refused(decision.rule); }
        outcome := OpenShell(channel, command, opens);
      }
    }

    method HandleShell(e: Event) returns (outcome: Outcome)
      requires Valid()
      modifies this
      ensures Valid() && (Value(), outcome) == Handle(inspect, old(Value()), e)
    {
      match e
      case Init(channel, opens) => outcome := OpenShell(channel, "", opens);
      case Data(channel, payload, ended) => outcome := HandleShellData(channel, payload, ended);
      case Execute(channel, command, ended, opens) => outcome := HandleExecute(channel, command, ended, opens);
      case End(channel) =>
        StopShell(channel);
        outcome := Ignored;
    }

    /** A whole run of them. */
    method HandleAll(events: seq<Event>) returns (outcomes: seq<Outcome>)
      requires Valid()
      modifies this
      ensures Valid() && Value() == Play(inspect, old(Value()), events)
      ensures outcomes == Outcomes(inspect, old(Value()), events)
    {
      outcomes := [];
      for i := 0 to |events|
        invariant Valid() && Value() == Play(inspect, old(Value()), events[..i])
        invariant outcomes == Outcomes(inspect, old(Value()), events[..i])
      {
        assert events[..i + 1][..i] == events[..i];
        var outcome := HandleShell(events[i]);
        outcomes := outcomes + [outcome];
      }
      assert events[..|events|] == events;
    }
  }

  lemma PutThenDropped(history: map<nat, string>, channel: nat, text: string)
    ensures history[channel := text] - {channel} == history - {channel}
  {
  }

  // ---------- what a session finds in its buffer ----------

  /** Input for the session on a channel. */
  predicate IsInput(s: Sessions, e: Event, channel: nat) {
    && e.channel == channel && channel in s.shells
    && (e.Data? || (e.Execute? && e.command != ""))
  }

  /** Input that is accepted although the device has ended the session. */
  predicate AcceptedTooLate(inspect: string -> Decision, s: Sessions, e: Event, channel: nat) {
    IsInput(s, e, channel) && e.ended && Handle(inspect, s, e).1.Forwarded?
  }

  /** The session ends, and its buffer goes. */
  predicate Removes(inspect: string -> Decision, s: Sessions, e: Event, channel: nat) {
    || e == End(channel)
    || (IsInput(s, e, channel) && (e.ended || Handle(inspect, s, e).1.Stopped()))
  }

  /** The i-th event was accepted too late, and the buffer has not been removed since. */
  ghost predicate LeftBehindAt(inspect: string -> Decision, events: seq<Event>, channel: nat, i: nat) {
    && i < |events|
    && AcceptedTooLate(inspect, Play(inspect, NO_SESSIONS, events[..i]), events[i], channel)
    && forall j | i < j < |events| :: !Removes(inspect, Play(inspect, NO_SESSIONS, events[..j]), events[j], channel)
  }

  ghost predicate LeftBehind(inspect: string -> Decision, events: seq<Event>, channel: nat) {
    exists i: nat :: LeftBehindAt(inspect, events, channel, i)
  }

  /** What one event does to the buffer of a channel, as far as it matters while there is no session. */
  lemma BufferStep(inspect: string -> Decision, s: Sessions, e: Event, channel: nat)
    ensures var next := Handle(inspect, s, e).0;
      && (AcceptedTooLate(inspect, s, e, channel) ==> channel in next.history && channel !in next.shells)
      && (Removes(inspect, s, e, channel) && !AcceptedTooLate(inspect, s, e, channel) ==>
            channel !in next.history && channel !in next.shells)
      && (!Removes(inspect, s, e, channel) ==>
            && (channel in s.history ==> channel in next.history)
            && (channel !in next.shells ==>
                  channel !in s.shells && (channel in next.history ==> channel in s.history)))
  {
  }

  lemma LeftBehindSnoc(inspect: string -> Decision, front: seq<Event>, e: Event, channel: nat)
    ensures LeftBehind(inspect, front + [e], channel) <==>
      || AcceptedTooLate(inspect, Play(inspect, NO_SESSIONS, front), e, channel)
      || (LeftBehind(inspect, front, channel) && !Removes(inspect, Play(inspect, NO_SESSIONS, front), e, channel))
  {
    var all, n := front + [e], |front|;
    assert all[..n] == front && all[n] == e;
    assert forall i | 0 <= i <= n :: all[..i] == front[..i];
    assert forall i | 0 <= i < n :: all[i] == front[i];
    if AcceptedTooLate(inspect, Play(inspect, NO_SESSIONS, front), e, channel) {
      assert LeftBehindAt(inspect, all, channel, n);
    } else if i: nat :| LeftBehindAt(inspect, front, channel, i) && !Removes(inspect, Play(inspect, NO_SESSIONS, front), e, channel) {
      assert LeftBehindAt(inspect, all, channel, i);
    }
    if i: nat :| LeftBehindAt(inspect, all, channel, i) {
      if i < n {
        assert LeftBehindAt(inspect, front, channel, i);
        assert !Removes(inspect, Play(inspect, NO_SESSIONS, all[..n]), all[n], channel);
      }
    }
  }

  /** A channel without a session has a buffer exactly when input was accepted too late on it and the
      buffer has not been removed since; and what was left behind is still there in any case. */
  lemma {:induction false} BufferIffLeftBehind(inspect: string -> Decision, events: seq<Event>, channel: nat)
    ensures var s := Play(inspect, NO_SESSIONS, events);
      && (LeftBehind(inspect, events, channel) ==> channel in s.history)
      && (channel !in s.shells && channel in s.history ==> LeftBehind(inspect, events, channel))
    decreases |events|
  {
    if |events| > 0 {
      var n := |events| - 1;
      var front := events[..n];
      assert events == front + [events[n]];
      BufferIffLeftBehind(inspect, front, channel);
      BufferStep(inspect, Play(inspect, NO_SESSIONS, front), events[n], channel);
      LeftBehindSnoc(inspect, front, events[n], channel);
    }
  }

  predicate Opens(inspect: string -> Decision, s: Sessions, e: Event, channel: nat) {
    && e.channel == channel && channel !in s.shells && (e.Init? || e.Execute?)
    && Handle(inspect, s, e).1.Forwarded?
  }

  /** In every run, a session that is opened finds a buffer exactly when input was accepted on its channel
      after the device had ended the session there, and that buffer has not been removed since. */
  lemma SessionFindsBufferIff(inspect: string -> Decision, events: seq<Event>, e: Event, channel: nat)
    requires Opens(inspect, Play(inspect, NO_SESSIONS, events), e, channel)
    ensures var s := Play(inspect, NO_SESSIONS, events);
      var next := Handle(inspect, s, e).0;
      && channel in next.shells && next.history == s.history
      && (channel in next.history <==> LeftBehind(inspect, events, channel))
  {
    BufferIffLeftBehind(inspect, events, channel);
  }

  // ---------- what reaches the device ----------

  /** The session that is there at the start has not ended yet. */
  predicate Alive(inspect: string -> Decision, s: Sessions, events: seq<Event>, channel: nat) {
    if |events| == 0 then channel in s.shells
    else Alive(inspect, s, events[..|events| - 1], channel) && channel in Play(inspect, s, events).shells
  }

  /** The input that is forwarded to it, frame by frame, whatever else is going on. */
  function Delivered(inspect: string -> Decision, s: Sessions, events: seq<Event>, channel: nat): seq<string> {
    if |events| == 0 then []
    else
      var front, e := events[..|events| - 1], events[|events| - 1];
      var before := Play(inspect, s, front);
      Delivered(inspect, s, front, channel)
      + if Alive(inspect, s, front, channel) && IsInput(before, e, channel) && !e.ended && Handle(inspect, before, e).1.Forwarded?
        then [Handle(inspect, before, e).1.text] else []
  }

  ghost predicate AllPass(inspect: string -> Decision, history: string, frames: seq<string>) {
    forall g | 0 <= g < |frames| :: Passes(inspect, history + Concat(frames[..g]), frames[g])
  }

  lemma Reassociate(a: string, b: string, c: string)
    ensures a + (b + c) == (a + b) + c
  {
  }

  lemma AllPassSnoc(inspect: string -> Decision, history: string, frames: seq<string>, frame: string)
    requires AllPass(inspect, history, frames) && Passes(inspect, history + Concat(frames), frame)
    ensures AllPass(inspect, history, frames + [frame])
    ensures history + Concat(frames + [frame]) == (history + Concat(frames)) + frame
  {
    var all := frames + [frame];
    assert all[..|frames|] == frames;
    assert Concat(all) == Concat(frames) + frame;
    Reassociate(history, Concat(frames), frame);
    forall g | 0 <= g < |all| ensures Passes(inspect, history + Concat(all[..g]), all[g]) {
      if g < |frames| { assert all[..g] == frames[..g]; }
    }
  }

  /** An event as a running session sees it. */
  lemma SessionStep(inspect: string -> Decision, s: Sessions, e: Event, channel: nat)
    requires channel in s.shells
    ensures var (next, outcome) := Handle(inspect, s, e);
      && (channel in next.shells && !IsInput(s, e, channel) ==> HistoryOf(next, channel) == HistoryOf(s, channel))
      && (IsInput(s, e, channel) && outcome.Forwarded? && !e.ended ==>
            && Passes(inspect, HistoryOf(s, channel), outcome.text)
            && HistoryOf(next, channel) == HistoryOf(s, channel) + outcome.text)
      && (IsInput(s, e, channel) && channel in next.shells ==> outcome.Forwarded? && !e.ended)
  {
  }

  lemma AliveIsThere(inspect: string -> Decision, s: Sessions, events: seq<Event>, channel: nat)
    requires Alive(inspect, s, events, channel)
    ensures channel in Play(inspect, s, events).shells
  {
  }

  /** All that is delivered has passed the guard, one frame behind the other. */
  lemma {:induction false} DeliveredPasses(inspect: string -> Decision, s: Sessions, events: seq<Event>, channel: nat)
    requires channel in s.shells
    ensures AllPass(inspect, HistoryOf(s, channel), Delivered(inspect, s, events, channel))
    ensures Alive(inspect, s, events, channel) ==>
      HistoryOf(Play(inspect, s, events), channel) == HistoryOf(s, channel) + Concat(Delivered(inspect, s, events, channel))
    decreases |events|
  {
    var history := HistoryOf(s, channel);
    if |events| == 0 {
      assert history + "" == history;
    } else {
      var front, e := events[..|events| - 1], events[|events| - 1];
      var before, frames := Play(inspect, s, front), Delivered(inspect, s, front, channel);
      DeliveredPasses(inspect, s, front, channel);
      if Alive(inspect, s, front, channel) {
        AliveIsThere(inspect, s, front, channel);
        SessionStep(inspect, before, e, channel);
        var outcome := Handle(inspect, before, e).1;
        if IsInput(before, e, channel) && !e.ended && outcome.Forwarded? {
          AllPassSnoc(inspect, history, frames, outcome.text);
        } else {
          assert frames + [] == frames;
        }
      } else {
        assert frames + [] == frames;
      }
    }
  }

  /** Of the history only what is retained of it matters. */
  lemma PassesByBuffer(inspect: string -> Decision, history: string, frames: seq<string>)
    requires AllPass(inspect, history, frames)
    ensures AllPass(inspect, Retained(history), frames)
  {
    forall g | 0 <= g < |frames| ensures Passes(inspect, Retained(history) + Concat(frames[..g]), frames[g]) {
      RetainedAppend(history, Concat(frames[..g]));
    }
  }

  /** Every whole line that reaches the device is allowed: the first with what the session found in its
      buffer in front of it, all others alone.  The lines are neutral and at most 4096 bytes long. */
  lemma DeliveredLinesAreAllowed(
      policy: Policy, profile: string, s: Sessions, events: seq<Event>, channel: nat, lines: seq<Line>, k: nat)
    requires RulesGrow(policy.rules) && channel in s.shells && k < |lines|
    requires forall line <- Joined(Retained(HistoryOf(s, channel)), lines) :: ProperLine(line, NeutralText())
    requires LinesText(lines) <= Concat(Delivered(Inspector(policy, profile), s, events, channel))
    ensures policy.InspectShell(profile, Joined(Retained(HistoryOf(s, channel)), lines)[k].text).Allow?
  {
    var inspect := Inspector(policy, profile);
    DeliveredPasses(inspect, s, events, channel);
    PassesByBuffer(inspect, HistoryOf(s, channel), Delivered(inspect, s, events, channel));
    InspectorComposes(policy, profile);
    PassedLinesAreAllowed(inspect, NeutralText(), Retained(HistoryOf(s, channel)), lines, k, Delivered(inspect, s, events, channel));
  }

  lemma PassedLinesAreAllowed(
      inspect: string -> Decision, whole: string -> bool, buffer: string, lines: seq<Line>, k: nat, frames: seq<string>)
    requires Composes(inspect, whole) && AllPass(inspect, buffer, frames) && k < |lines|
    requires forall line <- Joined(buffer, lines) :: ProperLine(line, whole)
    requires LinesText(lines) <= Concat(frames)
    ensures inspect(Joined(buffer, lines)[k].text).Allow?
  {
    if inspect(Joined(buffer, lines)[k].text).Deny? {
      var f := |frames| - 1;
      FirstLineText(lines);
      assert |frames| > 0 && frames[..f + 1] == frames;
      LinesTextPrefix(lines, k + 1);
      SomeFrameStopsLine(inspect, whole, buffer, lines, k, frames, f);
      assert false;
    }
  }

  lemma AllPassMeansNoneRefused(inspect: string -> Decision, buffer: string, frames: seq<string>, f: nat)
    requires AllPass(inspect, buffer, frames)
    ensures !SomeFrameRefused(inspect, buffer, frames, f)
  {
  }

  lemma AllHaveArrived(lines: seq<Line>, frames: seq<string>) returns (f: nat)
    requires |lines| > 0 && LinesText(lines) <= Concat(frames)
    ensures Arrives(lines, frames, f)
  {
    FirstLineText(lines);
    f := |frames| - 1;
    assert frames[..f + 1] == frames;
  }

  lemma PassedTogether(
      inspect: string -> Decision, whole: string -> bool, buffer: string, lines: seq<Line>, frames: seq<string>)
    requires Composes(inspect, whole) && ProperLines(lines, whole) && inspect(LastText(lines)).Deny?
    requires AllPass(inspect, buffer, frames) && LinesText(lines) <= Concat(frames)
    ensures exists h: nat :: Together(lines, frames, h)
    ensures |lines| > 1 ==> !ProperLine(lines[0].(text := buffer + lines[0].text), whole)
  {
    var f := AllHaveArrived(lines, frames);
    AllPassMeansNoneRefused(inspect, buffer, frames, f);
    OnlyTogetherAndNotNeutral(inspect, whole, buffer, lines, frames, f);
  }

  /** Whatever a session found in its buffer: a line that is denied alone reaches the device only in one frame
      with the end of the first line, and, unless it is the first, only behind a buffer that leaves the first
      line too long or not neutral. */
  lemma DeniedLineCameTogether(
      policy: Policy, profile: string, s: Sessions, events: seq<Event>, channel: nat, lines: seq<Line>)
    requires RulesGrow(policy.rules) && channel in s.shells
    requires ProperLines(lines, NeutralText()) && policy.Denies(profile, LastText(lines))
    requires LinesText(lines) <= Concat(Delivered(Inspector(policy, profile), s, events, channel))
    ensures exists h: nat :: Together(lines, Delivered(Inspector(policy, profile), s, events, channel), h)
    ensures |lines| > 1 ==>
      !ProperLine(lines[0].(text := Retained(HistoryOf(s, channel)) + lines[0].text), NeutralText())
  {
    var inspect, buffer := Inspector(policy, profile), Retained(HistoryOf(s, channel));
    var frames := Delivered(inspect, s, events, channel);
    DeliveredPasses(inspect, s, events, channel);
    PassesByBuffer(inspect, HistoryOf(s, channel), frames);
    InspectorComposes(policy, profile);
    PassedTogether(inspect, NeutralText(), buffer, lines, frames);
  }

  /** After some events nothing is left behind on the channel when e opens a session there, and with the
      next ones that session is delivered these lines, neutral and at most 4096 bytes long. */
  ghost predicate DeliversLine(
      inspect: string -> Decision, events: seq<Event>, e: Event, channel: nat, more: seq<Event>, lines: seq<Line>, k: nat)
  {
    && k < |lines| && (forall line <- lines :: ProperLine(line, NeutralText()))
    && Opens(inspect, Play(inspect, NO_SESSIONS, events), e, channel) && !LeftBehind(inspect, events, channel)
    && LinesText(lines) <= Concat(Delivered(inspect, Handle(inspect, Play(inspect, NO_SESSIONS, events), e).0, more, channel))
  }

  /** In every run: if nothing was left behind on its channel when a session is opened, no line that is denied
      alone ever reaches the device through it, however it is cut into frames and whatever comes in between. */
  lemma NoDeniedLineIsDelivered(
      policy: Policy, profile: string, events: seq<Event>, e: Event, channel: nat, more: seq<Event>, lines: seq<Line>, k: nat)
    requires RulesGrow(policy.rules) && DeliversLine(Inspector(policy, profile), events, e, channel, more, lines, k)
    ensures policy.InspectShell(profile, lines[k].text).Allow?
  {
    var inspect := Inspector(policy, profile);
    var start := Handle(inspect, Play(inspect, NO_SESSIONS, events), e).0;
    SessionFindsBufferIff(inspect, events, e, channel);
    assert Retained(HistoryOf(start, channel)) == "";
    assert "" + lines[0].text == lines[0].text;
    assert Joined("", lines) == lines;
    DeliveredLinesAreAllowed(policy, profile, start, more, channel, lines, k);
  }

  // ---------- what a buffer left behind does ----------

  /** Open a session, have input accepted too late, open another and send the next text. */
  function LeaveAndReopen(channel: nat, left: string, text: string): seq<Event> {
    [Init(channel, true), Data(channel, left, true), Init(channel, true), Data(channel, text, false)]
  }

  lemma PlaySnoc(inspect: string -> Decision, s: Sessions, front: seq<Event>, e: Event)
    ensures Play(inspect, s, front + [e]) == Handle(inspect, Play(inspect, s, front), e).0
    ensures Outcomes(inspect, s, front + [e]) == Outcomes(inspect, s, front) + [Handle(inspect, Play(inspect, s, front), e).1]
  {
    assert (front + [e])[..|front|] == front;
  }

  lemma LeftAndReopened(inspect: string -> Decision, channel: nat, left: string)
    requires inspect("").Allow? && inspect(left).Allow? && |left| <= 262144
    ensures var first := [Init(channel, true), Data(channel, left, true)];
      && LeftBehind(inspect, first, channel)
      && Outcomes(inspect, NO_SESSIONS, first) == [Forwarded(""), Forwarded(left)]
      && Play(inspect, NO_SESSIONS, first) == Sessions({}, map[channel := left])
  {
    var open, late := Init(channel, true), Data(channel, left, true);
    var running := Sessions({channel}, map[]);
    assert Play(inspect, NO_SESSIONS, []) == NO_SESSIONS && Outcomes(inspect, NO_SESSIONS, []) == [];
    assert [] + [open] == [open] && [open] + [late] == [open, late];
    PlaySnoc(inspect, NO_SESSIONS, [], open);
    assert Play(inspect, NO_SESSIONS, [open]) == running;
    PlaySnoc(inspect, NO_SESSIONS, [open], late);
    assert "" + left == left && Retained("") == "";
    assert [open, late][..1] == [open];
    assert LeftBehindAt(inspect, [open, late], channel, 1);
  }

  /** The new session gets what is allowed behind the text that was left, whatever it is alone. */
  lemma LeftTextJoinsNext(inspect: string -> Decision, channel: nat, left: string, text: string)
    requires inspect("").Allow? && inspect(left).Allow? && inspect(left + text).Allow?
    requires !HasLineBreak(left) && |left| <= 4096 && |left| + |text| <= 262144
    ensures Outcomes(inspect, NO_SESSIONS, LeaveAndReopen(channel, left, text))
      == [Forwarded(""), Forwarded(left), Forwarded(""), Forwarded(text)]
  {
    LeftAndReopened(inspect, channel, left);
    var first := [Init(channel, true), Data(channel, left, true)];
    var again, next := Init(channel, true), Data(channel, text, false);
    assert first + [again] + [next] == LeaveAndReopen(channel, left, text);
    PlaySnoc(inspect, NO_SESSIONS, first, again);
    assert Play(inspect, NO_SESSIONS, first + [again]) == Sessions({channel}, map[channel := left]);
    PlaySnoc(inspect, NO_SESSIONS, first + [again], next);
    assert Retained(left) == left;
  }
}
