/** The shell theorems for the policy the gateway is built with (internal/policy/policy.go, New): the
    rule table and the word tables of internal/policy/shell.go, and any configured executables. */
module ShellGateway {
  import opened Text
  import opened ShellLexer
  import opened ShellExpand
  import opened ShellRules
  import opened ShellCompose
  import opened ShellGuard
  import opened ShellBuffers
  import opened ShellSessions

  lemma NewPolicyParts(items: seq<string>)
    ensures NewPolicy(items).rules == CORE_RULES && NewPolicy(items).reader == SHELL
  {
  }

  lemma NewPolicyIndirectFirst(items: seq<string>)
    ensures IndirectFirst(NewPolicy(items).rules)
  {
    CoreIndirectFirst();
  }

  /** No separator hides a denied command. */
  lemma SeparatorsHideNothing(items: seq<string>, policy: Policy, profile: string, c1: string, sep: char, c2: string)
    requires policy == NewPolicy(items)
    requires Neutral(Lower(c1)) && IsCommandSeparator(sep)
    requires policy.Denies(profile, c1) || policy.Denies(profile, c2)
    ensures policy.Denies(profile, c1 + [sep] + c2)
  {
    NewPolicyParts(items);
    CoreRulesAreMonotone();
    SeparatorsCompose(policy, profile, c1, sep, c2);
  }

  /** Nesting past the limit is always denied, as indirect. */
  lemma NestingHidesNothing(items: seq<string>, policy: Policy, profile: string, command: string)
    requires policy == NewPolicy(items) && Shrinks(policy.reader)
    requires Within(Lex(Lower(command)), |command|) && NestsTooDeep(policy.reader, command)
    ensures policy.InspectShell(profile, command) == Deny("indirect-command")
  {
    NewPolicyIndirectFirst(items);
    DeepNestingIsIndirect(policy, profile, command);
  }

  /** That its reader shrinks texts, and segments fit their command, holds for every command. */
  lemma NestingIsDefined(items: seq<string>, policy: Policy, command: string)
    requires policy == NewPolicy(items)
    ensures Shrinks(policy.reader) && Within(Lex(Lower(command)), |command|)
  {
    NewPolicyParts(items);
    ShellShrinks();
    SegmentNeverLonger(Lower(command));
  }

  lemma NewPolicyGrows(items: seq<string>)
    ensures RulesGrow(NewPolicy(items).rules)
  {
    CoreRulesAreMonotone();
  }

  /** No way of cutting lines into frames hides a denied line. */
  lemma FramesHideNothing(
      items: seq<string>, policy: Policy, profile: string, buffer: string, lines: seq<Line>, k: nat, frames: seq<string>, f: nat)
    requires policy == NewPolicy(items)
    requires DeniedLineArrives(Inspector(policy, profile), NeutralText(), buffer, lines, k, frames, f)
    ensures SomeFrameRefused(Inspector(policy, profile), buffer, frames, f)
  {
    NewPolicyGrows(items);
    FrameCutsCannotHideALine(policy, profile, buffer, lines, k, frames, f);
  }

  /** Whatever a buffer holds, a line that is denied alone and does not end in one frame with the first is stopped. */
  lemma BuffersHideNothingApart(
      items: seq<string>, policy: Policy, profile: string, buffer: string, lines: seq<Line>, frames: seq<string>, f: nat)
    requires policy == NewPolicy(items) && DeniedApart(Inspector(policy, profile), NeutralText(), lines, frames, f)
    ensures SomeFrameRefused(Inspector(policy, profile), buffer, frames, f)
  {
    NewPolicyGrows(items);
    ApartIsStopped(policy, profile, buffer, lines, frames, f);
  }

  /** In no run is a denied line delivered to a session that found nothing left behind. */
  lemma RunsDeliverNothingDenied(
      items: seq<string>, policy: Policy, profile: string, events: seq<Event>, e: Event, channel: nat, more: seq<Event>,
      lines: seq<Line>, k: nat)
    requires policy == NewPolicy(items)
    requires DeliversLine(Inspector(policy, profile), events, e, channel, more, lines, k)
    ensures policy.InspectShell(profile, lines[k].text).Allow?
  {
    NewPolicyGrows(items);
    NoDeniedLineIsDelivered(policy, profile, events, e, channel, more, lines, k);
  }
}
