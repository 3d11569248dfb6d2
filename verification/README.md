# HDC remote kit: a verified model

A Dafny 4.11 model of the decision-making core of the HDC remote kit, a gateway that lets remote
`hdc` clients reach USB devices through a policy. `dafny verify dfyconfig.toml` checks everything;
nothing is executed and nothing is taken on trust. The model covers five components.

**Shell policy and input guard.** `ShellLexer`, `ShellExpand` and `ShellRules` are the code: the one-pass lexer
is a step function over nine pieces of scanner state, and its loop is proved to compute the fold of that step.
Expansion of `sh -c` texts terminates because each text is shorter than the text it came from, not because of
the nesting limit; past the limit the command is always denied.

What the lexer does is stated without that step (`ShellQuoting`, `ShellPipes`, `ShellSubstitutions`, `ShellLines`):
a command line written with any quoting, blanks, redirects and joiners is lexed into its commands, with their words,
the files they are redirected to and whether their input is piped; for texts of any form there are laws for `|`, `||`,
separators, `>`, `>>`, `>|`, `$(...)` and backticks. What is denied is written out a second time, with every name,
option and path, and without the code's tables (`ShellNames`, `ShellVerdicts`): `ShellVerdicts.EveryTextIsDecidedSo`
proves that the built policy decides every text that way, and `ShellDecisions`, `ShellCommands` and `ShellInline` say
what this means for commands as they are written: which are denied, behind whatever wrappers and `sh -c` texts, and
that nothing else is.

The other shell modules (`ShellCompose`, `ShellGuard`, `ShellBuffers`, `ShellSessions`, `ShellLeftText`,
`ShellGateway`) are about texts that arrive in pieces. A policy decision on `c1`, separator, `c2` is never milder than the decisions
on the parts when `c1` is *neutral* (it ends outside quotes, backticks and substitutions and without an
unescaped trailing backslash). From that and from the refinement of the per-channel buffer it follows
that no way of cutting terminated lines, neutral and at most 4096 bytes long, into frames gets a denied
line past a guard whose buffer was empty. `ShellBuffers` has what holds, and exactly when, if the buffer held
anything else. `ShellSessions` plays whole runs of frames, on any number of channels, through the connection's
class: no such line that is denied reaches a device in a session that found no buffer. The theorems are
proved for any rule table and word tables that grow and shrink as they need, and `ShellGateway` states them
for the ones the gateway has.

**Wire codec** (`Varint`, `Fields`, `Messages`, `Frames`, `Tlv`, `Wire`). Base-128 varints and tagged fields
(Protocol Buffers Encoding, "Base 128 Varints" and "Message Structure"), frames with a big-endian
header, 64-byte padded data headers and a fixed-width decimal TLV. A message is described by what its
decoder's switch says of each field number; the decoding loop and the theorems are shared. Messages
survive reordered, repeated and unknown fields; streams of frames read back exactly; everything decoded
is in range. `Wire` fixes the bytes themselves, numeral by numeral.

**Transfers and their storage** (`Transfer`, `TempStore`, `TempQuota`, `QuotaProgress`). The sender of a download and the
receiver of an upload are each other's protocol: however a file is read, its frames rebuild it, and any
other order is refused. The quota is a transition system over uploads, downloads and installs in which
every lock-held region is a step, for any number of connections with bridges of their own: the counter is
always the sum of the charges not yet returned, never above the quota, and zero once the bridges hold nothing
and are quiet. `QuotaProgress` adds that what fits is received.

**Leases, bindings, ports, snapshots, devices** (`Ports`, `Snapshot`, `Restore`, `Lease`,
`LeaseProgress`, `LeaseGrants`, `LeaseRenewals`, `Tick`, `Devices`). `Lease` interleaves the lock-held regions of any number of callers,
with Bind, Unbind, probing and saving as separate steps; its runs start in the states that `Restore`
builds from a snapshot (`Restore.RestoredIsInitial`). `LeaseProgress` says what an acquire and a release come
to when they are carried through, whatever others do in between. `Tick` is the manager's loop body as a class over
the same maps, and `Tick.BetweenCallsIsRest` shows that the states it starts from are those the transition
system leaves between two calls of one caller. `Snapshot` lists every state the disk goes through in a
save. `Devices` relates the device table to the whole history of scans.

**Handshake and approval** (`HandshakeAuth`, `HandshakeProgress`). Connections and the registry of trusted and pending hosts
as one transition system; the signature check is an arbitrary predicate. The methods of a connection are
tied to the steps of that system. Nobody is accepted who should not be, and whoever answers every challenge is
accepted and served.

Five results are about limits of the code rather than about its success:

- A `|` that comes while a redirect is pending is taken for part of it, as in `>|`, even directly behind the
  target: `>a|b` is one target, `ab`. Behind a neutral text with a command at its end a `|` makes a pipe exactly
  when no redirect is pending (`ShellPipes.PipesIffNotPending`, `ShellPipes.PendingRedirectTakesPipe`).
- A snapshot in which two devices share a binding id is accepted, and then the map by id no longer agrees
  with the map by device; they agree exactly when the ids differ (`Restore.MapsAgreeIffIdsDiffer`,
  `Restore.SharedIdIsAccepted`).
- Saving is atomic, whatever fails and wherever it crashes, exactly when the primary file can be loaded or
  the backup is not what loading would fall back to (`Snapshot.SaveIsAtomicIffSafe`): the backup is removed
  first. A crash alone does no harm in one more case, when the empty snapshot is saved and there is no
  primary file (`Snapshot.CrashesAreHarmlessIff`). A save gets to an unsafe state itself, exactly while there
  is no primary (`Snapshot.SafeWhilePrimaryExists`), and so two crashes during two saves can lose everything
  (`Snapshot.TwoCrashesLoseEverything`).
- That a listener admits by its lease as it is now needs one caller (`LeaseGrants.GrantFollowsLease`). With
  several, a renewal still on its way when the device is released and acquired again replaces the new grant
  by that of a lease long gone, and of two renewals of one lease the older can get there last
  (`LeaseRenewals.LateRenewalReplacesGrant`, `LeaseRenewals.OvertakenRenewalIsStale`). The listener of a
  leased device ends up right whatever else happens exactly when every renewal on its way there brings the
  current grant, and the grant is there already if none does (`LeaseRenewals.GrantFollowsIffAllBring`).
- Shell input that is accepted after the device has ended its session leaves a buffer, and the next session
  on that channel starts with it. A session finds a buffer exactly when that has happened on its channel and
  the buffer has not been removed since (`ShellSessions.SessionFindsBufferIff`). What follows is about lines
  that are neutral and at most 4096 bytes long, of which one is denied alone. Whatever the buffer held, such a
  line is stopped in every cut in which no frame brings its end together with that of the first line
  (`ShellBuffers.StoppedUnlessTogether`). Over all cuts it is stopped exactly when buffer and lines, sent at
  once, are denied with any text behind them, if buffer and first line have at most 4096 bytes
  (`ShellBuffers.LineIsStoppedIff`), and if they are neutral to their end that is when they are denied as they
  are (`ShellBuffers.LineIsStoppedIffWholeDenied`). So there are runs in which a first line that is denied
  alone is delivered behind a word in the buffer, and a later one behind an open quote
  (`ShellLeftText.LeftTextCarriesDeniedLine`, `ShellLeftText.LeftQuoteCarriesDeniedLine`); a later one only
  where buffer and first line are not neutral, or too long (`ShellSessions.DeniedLineCameTogether`).

Conventions: text is a sequence of one-byte characters; failures of files, sockets, probes and clocks
are parameters or steps that may or may not happen; random ids and tokens are fresh numbers.

## Model

| member | source | states |
|---|---|---|
| ShellLexer.LexShellSegments | internal/policy/shell.go:162-275 | the loop over flags, builders and the segment list, rescan included, computes the fold of the step function |
| ShellLexer.ScanCharacter | internal/policy/shell.go:176-268 | one turn of the loop, with its look-ahead, changes the scanner state as the step function says |
| ShellLexer.RescanIsFinal | internal/policy/shell.go:269-281 | text without quotes never ends inside one, so an unclosed quote causes at most one rescan |
| ShellLexer.SegmentNeverLonger | internal/policy/shell.go:162-275 | the space-joined tokens of any lexed segment are no longer than the command |
| ShellExpand.ExpandSegments | internal/policy/shell.go:137-154 | the loop of expandSegments computes the expansion, nested commands right behind the segment they stand in |
| ShellExpand.ExpandMeetsLimit | internal/policy/shell.go:137-154 | up to eight levels the expansion is the unlimited one, and beyond it contains an unresolved segment |
| ShellRules.SkipAssignmentsAndKeywordsLoop | internal/policy/shell.go:340-351 | the loop stops where the recursive definition does |
| ShellRules.SkipStopsAtCommand | internal/policy/shell.go:340-351 | exactly assignments and keywords are skipped: all before the stop are, the stop is not |
| ShellRules.InlineFlagIsFirst | internal/policy/shell.go:401-417 | the inline flag found is the first one of the wrapper's options |
| ShellRules.ResolveCommandsLoop | internal/policy/shell.go:302-338 | the loop collects the candidate executables behind wrappers and dispatchers |
| ShellRules.BaseExecutableIsTail | internal/policy/shell.go:570-575 | the base name is the part behind the last slash |
| ShellRules.InlineTextShrinks | internal/policy/shell.go:419-431 | an inline command text is strictly shorter than the segment's joined tokens |
| ShellRules.AnalyzeMeetsLimit | internal/policy/shell.go:131-154 | analysis of a whole command is the unlimited expansion, or contains an unresolved segment |
| ShellRules.DeepNestingIsIndirect | internal/policy/shell.go:440-455 | a command nested past the limit is denied as indirect |
| ShellRules.CoreRulesAreMonotone | internal/policy/shell.go:74-83 | no core rule is lost when segments are added, reordered or get piped input; their words, redirects and commands stay as they are |
| ShellRules.JudgeGrows | internal/policy/shell.go:89-108 | a denial, by core, extra or restricted rule, survives in any list that has all the segments, with at least as much piped input |
| ShellCompose.RunSplit | internal/policy/shell.go:162-268 | the lexer loop splits at any point whose look-ahead does not cross it |
| ShellCompose.FirstScanSplits | internal/policy/shell.go:162-268 | behind neutral text and a separator the scan goes on as if freshly started, up to pipedIn |
| ShellCompose.RescanSplits | internal/policy/shell.go:269-281 | rescanning the whole is rescanning the parts |
| ShellCompose.SegmentsCompose | internal/policy/shell.go:162-275 | when both parts close their quotes the segments are those of the first followed by those of the second, up to pipedIn |
| ShellCompose.SeparatorsCompose | internal/policy/shell.go:89-108 | if either side of a separator is denied the whole is denied, for neutral first text and any second |
| ShellQuoting.LexingUndoesQuoting | internal/policy/shell.go:176-268 | words rendered with any mix of single quotes, double quotes and backslashes lex to one segment with exactly those words |
| ShellQuoting.DecisionIgnoresQuoting | internal/policy/shell.go:89-108 | the decision on quoted words is the decision on the lower-cased words, however they were quoted |
| ShellPipes.PipesCompose | internal/policy/shell.go:245-256 | behind a neutral text with a command at its end and no redirect pending, a pipe sign gives the segments of both texts, the first of the second fed by the pipe, and a double one the same without the pipe |
| ShellPipes.PipeReachesOn | internal/policy/shell.go:190-206 | a pipe is not cut by separators and blanks: it feeds the next command there is |
| ShellPipes.SeparatorFeedsNothing | internal/policy/shell.go:190-206 | a separator feeds nothing, except that behind an empty command it hands on a pipe into that command |
| ShellPipes.PendingRedirectTakesPipe | internal/policy/shell.go:245-249 | while a redirect is pending a pipe sign is left out: the text is lexed as without it |
| ShellPipes.PipesIffNotPending | internal/policy/shell.go:245-256 | a pipe sign behind a neutral text with a command at its end makes a pipe for every text exactly when no redirect is pending |
| ShellPipes.RedirectTakesWord | internal/policy/shell.go:176-189 | the word behind a redirect, appending or forced or neither, in any quoting, becomes a redirect of the last command and none of its words |
| ShellSubstitutions.SubstitutedNameIsIndirect | internal/policy/shell.go:283-288 | a command that begins with a substitution is in the segments as indirect, whatever follows |
| ShellSubstitutions.SubstitutedNameIsDenied | internal/policy/shell.go:440-445 | and is denied for that |
| ShellSubstitutions.CommandsBegin | internal/policy/shell.go:231-239 | a command begins at the start of a text and behind every separator and the blanks after it |
| ShellSubstitutions.SubstitutionIsLexed | internal/policy/shell.go:231-242 | what stands in `$(...)` or backticks behind a word, in double quotes or not, is lexed as a text of its own |
| ShellSubstitutions.SubstitutionSeparates | internal/policy/shell.go:231-242 | outside quotes the text before it, the text in it and the text behind it are lexed one after the other |
| ShellSubstitutions.DoubleQuotesAreOpen | internal/policy/shell.go:213-213 | the inside of the double quotes of any word is such a place |
| ShellSubstitutions.SubstitutionHidesNothing | internal/policy/shell.go:89-108 | what is denied alone is denied as a substitution, in double quotes or not, whatever comes behind it |
| ShellLines.LexingReadsLines | internal/policy/shell.go:162-275 | a line of commands with words, redirects, blanks and joiners in any form is lexed into one segment for each command that is not empty: its words, its redirects, and piped input exactly behind a single pipe sign |
| ShellNames.ResolvesWhatRuns | internal/policy/shell.go:302-338 | the candidate executables are the names that the words run, by a definition of its own with all keywords, applets, shells and wrappers |
| ShellNames.InlineIff | internal/policy/shell.go:419-431 | the inline text is the words behind the inline option of the first shell that has one with something behind it |
| ShellVerdicts.PathIff | internal/policy/shell.go:692-708 | a path is the root or under it, whatever slashes it ends in |
| ShellVerdicts.PathsIff | internal/policy/shell.go:637-653 | the paths that can be remounted and written, one by one |
| ShellVerdicts.CriticalIff | internal/policy/shell.go:673-681 | the paths that must not be removed, one by one |
| ShellVerdicts.ListsIff | internal/policy/shell.go:628-635 | an option is one of those between the commas |
| ShellVerdicts.RemountAtIff | internal/policy/shell.go:606-626 | every way of asking for a remount |
| ShellVerdicts.RecursionIff | internal/policy/shell.go:655-671 | every way of asking for recursion |
| ShellVerdicts.RemovesIff | internal/policy/shell.go:502-510 | removal of a critical path is rm with both |
| ShellVerdicts.RemountsIff | internal/policy/shell.go:491-499 | remounting is mount with an option and a target that count |
| ShellVerdicts.CoreRulesAre | internal/policy/shell.go:74-83 | the seven rules, by name and in order, match what is written out for each |
| ShellVerdicts.JudgesSo | internal/policy/shell.go:89-108 | the built policy decides segments by those rules, then the seven programs forbidden to strict profiles, then the configured ones |
| ShellVerdicts.ConfiguredIff | internal/policy/policy.go:72-80 | the configured programs are the lower-cased base names of the trimmed items, blank ones left out |
| ShellVerdicts.EveryTextIsDecidedSo | internal/policy/shell.go:89-108 | so it decides every text |
| ShellDecisions.TextIsDeniedIff | internal/policy/shell.go:89-108 | a text is denied exactly when something applies to one of the commands it is analysed into |
| ShellDecisions.DangerousLineIsDenied | internal/policy/shell.go:89-108 | a line is denied when one of its commands is, however it is written and whatever the others are |
| ShellInline.InlineIsJudged | internal/policy/shell.go:137-154 | what is denied as a text is denied as the `sh -c` text of any command |
| ShellInline.DeniedIff | internal/policy/shell.go:89-154 | a text is denied exactly when it nests more than eight deep, one command kills and another mentions the daemon, something applies to one of its commands, or one of their `sh -c` texts is denied |
| ShellInline.LineIsJudged | internal/policy/shell.go:89-108 | a written line without `sh -c` texts is denied exactly when something applies to its commands, and otherwise allowed |
| ShellCommands.FirstWordRuns | internal/policy/shell.go:570-575 | a program runs by its name at the end of any path |
| ShellCommands.WrappersPassOn | internal/policy/shell.go:302-338 | keywords, assignments, env with its options, applets, shells with an inline option and wrappers are looked through |
| ShellCommands.RemovalIsDenied | internal/policy/shell.go:502-510 | rm is denied with `--recursive` or a short option with r or R, and a path that is `/`, `/data` or at or under one of ten directories |
| ShellCommands.WrittenRemovalIsDenied | internal/policy/shell.go:502-510 | in any quoting and at the end of any path |
| ShellCommands.PowerIsDenied | internal/policy/shell.go:457-459 | reboot and poweroff are denied |
| ShellCommands.PropertyIsDenied | internal/policy/shell.go:461-471 | param set and setprop are denied with a name that begins with persist.hdc or const.hdc |
| ShellCommands.KillingDaemonIsDenied | internal/policy/shell.go:477-489 | kill, killall and pkill are denied with hdcd |
| ShellCommands.RemountIsDenied | internal/policy/shell.go:491-499 | mount is denied with any form of remount and a system partition |
| ShellCommands.DumpIsDenied | internal/policy/shell.go:512-516 | dd is denied with a device node or system partition as its output |
| ShellCommands.WritingIsDenied | internal/policy/shell.go:517-522 | so is any command redirected there |
| ShellCommands.RedirectIsDenied | internal/policy/shell.go:517-522 | behind any neutral text, with any operator and quoting |
| ShellCommands.ForbiddenProgramIsDenied | internal/policy/shell.go:98-106 | so are the seven network programs for strict profiles and the configured ones for all |
| ShellCommands.CommandOfLineIsRead | internal/policy/shell.go:162-275 | every command of a written line is among the segments with its lower-cased words and redirects |
| ShellCommands.PipedTextIsDenied | internal/policy/shell.go:440-455 | a shell whose input is piped is denied as indirect |
| ShellCommands.PipedShellIsDenied | internal/policy/shell.go:440-455 | any neutral command piped into words that run a shell, in any quoting, is denied as indirect |
| ShellCommands.CaseIsIgnored | internal/policy/shell.go:131-134 | texts that differ in the case of letters are decided alike |
| ShellCommands.OpenQuoteHidesNothing | internal/policy/shell.go:269-273 | a text with an open quote is denied when it is denied without its quotes |
| ShellGuard.RetainedAppend | internal/gateway/gateway.go:915-946 | keeping the last 4096 bytes of the unfinished line can be done chunk by chunk |
| ShellSessions.ConnectionShells.AppendShellInput | internal/gateway/gateway.go:915-946 | the inspected text is the retained line plus the whole chunk, within 262144 bytes, and the buffer is that of the entire history, whether or not the channel has a session |
| ShellSessions.ConnectionShells.HandleShellData | internal/gateway/gateway.go:784-804 | a frame is forwarded, refused or too large by its history, a refusal ends the session, and input accepted after the session's end starts a buffer without one |
| ShellSessions.ConnectionShells.HandleExecute | internal/gateway/gateway.go:805-830 | a one-shot command is judged alone and may fail to open, input to a running session is like any other |
| ShellSessions.ConnectionShells.GuardInput | internal/gateway/gateway.go:790-798 | accepted input extends the history, and refused input takes session and buffer away |
| ShellSessions.ConnectionShells.OpenShell | internal/gateway/gateway.go:837-880 | a session opens when the command is allowed and the target opens, and the buffer of its channel stays as it was |
| ShellSessions.ConnectionShells.StopShell | internal/gateway/gateway.go:948-975 | the session and its buffer go together |
| ShellSessions.ConnectionShells.HandleAll | internal/gateway/gateway.go:784-830 | a whole run of frames and session ends leaves sessions, buffers and answers as the run of the specification does |
| ShellSessions.SessionFindsBufferIff | internal/gateway/gateway.go:915-956 | in every run a session that is opened finds a buffer exactly when input was accepted too late on its channel and its buffer has not been removed since |
| ShellSessions.DeliveredLinesAreAllowed | internal/gateway/gateway.go:789-804 | in every run every whole line that reaches the device is allowed, alone or, if it is the first, behind what the buffer held, for lines that are neutral and at most 4096 bytes long, the first with what the buffer held |
| ShellSessions.DeniedLineCameTogether | internal/gateway/gateway.go:789-804 | in every run, whatever a session found in its buffer, a neutral line of at most 4096 bytes that is denied alone reaches the device only in one frame with the end of the first, and as a later one only where buffer and first line are too long or not neutral |
| ShellSessions.NoDeniedLineIsDelivered | internal/gateway/gateway.go:789-804 | in every run no line that is neutral, at most 4096 bytes long and denied alone reaches the device among such lines in a session that found nothing left behind |
| ShellLeftText.LeftTextCarriesDeniedLine | internal/gateway/gateway.go:789-799 | some run delivers a first line that is denied alone, behind text accepted too late for the session before |
| ShellLeftText.LeftQuoteCarriesDeniedLine | internal/gateway/gateway.go:789-799 | some run delivers, in one frame, two neutral lines of which the second is denied alone, behind a quote accepted too late for the session before |
| ShellGuard.InspectorComposes | internal/policy/shell.go:89-108 | inspection never loses a denial at a line break |
| ShellGuard.FrameCutsCannotHideALine | internal/gateway/gateway.go:789-804 | for neutral lines of at most 4096 bytes, the first of them together with what the buffer held: one that is denied stops some frame no later than the one with its terminator, however input is cut |
| ShellGuard.FirstLineIsStoppedIff | internal/gateway/gateway.go:915-946 | if the first line is neutral and at most 4096 bytes long together with what the buffer held, it is stopped in every cut exactly when both together are denied |
| ShellBuffers.StoppedUnlessTogether | internal/gateway/gateway.go:930-945 | whatever the buffer held, a neutral line of at most 4096 bytes that is denied alone is stopped no later than by the frame with its terminator, unless one frame brings that of the first line as well |
| ShellBuffers.LineIsStoppedIff | internal/gateway/gateway.go:915-946 | whatever the buffer held, if it and the first line have at most 4096 bytes: such a line, or any first line, is stopped in every cut exactly when buffer and lines at once are denied with any text behind them |
| ShellBuffers.LineIsStoppedIffWholeDenied | internal/gateway/gateway.go:915-946 | if buffer and lines are neutral to their end, exactly when they are denied as they are |
| ShellBuffers.OnlyTogetherAndNotNeutral | internal/gateway/gateway.go:915-946 | a later line that escapes came in one frame with the end of the first, behind a buffer that leaves the first line too long or not neutral |
| ShellGateway.SeparatorsHideNothing | internal/policy/policy.go:72-80 | the same for the policy as it is built, with any configured executables |
| ShellGateway.NestingIsDefined | internal/policy/shell.go:419-431 | with the built-in word tables inline texts always shrink and segments fit their command |
| ShellGateway.NestingHidesNothing | internal/policy/shell.go:137-154 | the built policy denies any command nested past the limit, as indirect |
| ShellGateway.FramesHideNothing | internal/gateway/gateway.go:789-804 | with the built policy no way of cutting neutral lines of at most 4096 bytes into frames hides a denied one, if the first is such a line with what the buffer held |
| ShellGateway.BuffersHideNothingApart | internal/gateway/gateway.go:930-945 | with the built policy, whatever the buffer held, a denied line is stopped unless it ends in one frame with the first |
| ShellGateway.RunsDeliverNothingDenied | internal/policy/policy.go:72-80 | with the built policy no run delivers a neutral line of at most 4096 bytes that is denied alone to a session that found nothing left behind |
| Varint.ReadUvarintLoop | internal/protocol/daemon.go:566-572 | the ten-byte loop computes the recursive reading, with overflow on the tenth byte |
| Varint.UvarintRoundTrip | internal/protocol/daemon.go:543-552 | every 64-bit value reads back, whatever follows |
| Varint.UvarintFits | internal/protocol/daemon.go:566-572 | whatever is read fits 64 bits |
| Varint.UvarintCutShort | internal/protocol/daemon.go:566-572 | no proper prefix of a varint is read |
| Varint.UvarintLengths | internal/protocol/daemon.go:543-546 | one byte below 128, at most 2, 5 and 10 for 8, 32 and 64 bits |
| Fields.DecodeLoop | internal/protocol/transfer.go:65-111 | the loop over the cursor computes the recursive decoding, ending at a zero key where the message does |
| Fields.DecodeEncoded | internal/protocol/daemon.go:574-623 | encoded fields are set one by one, and one refused field refuses the message |
| Fields.CarriedMessageDecodes | internal/protocol/transfer.go:65-111 | fields that carry a message decode to it, whatever unknown or superseded fields stand among them |
| Fields.DecodeKeeps | internal/protocol/daemon.go:561-597 | what is kept by in-range numbers and strings holds of anything decoded |
| Messages.EncodeTransferConfig | internal/protocol/transfer.go:47-62 | the thirteen fields are appended in order |
| Messages.ConfigRoundTrip | internal/protocol/transfer.go:47-111 | every transfer config in range decodes back |
| Messages.ConfigReadsSpliced | internal/protocol/transfer.go:65-111 | reordered, repeated and unknown fields leave the decoded config unchanged |
| Messages.DecodedConfigInRange | internal/protocol/transfer.go:211-220 | a decoded config's compression type fits a byte and its numbers 64 bits |
| Messages.EncodeTransferPayload | internal/protocol/transfer.go:114-120 | the four fields are appended in order |
| Messages.PayloadRoundTrip | internal/protocol/transfer.go:114-151 | every payload header in range decodes back |
| Messages.PayloadReadsSpliced | internal/protocol/transfer.go:123-151 | the same for reordered, repeated and unknown fields |
| Messages.DecodedPayloadInRange | internal/protocol/transfer.go:211-231 | sizes above 32 bits and types above a byte are refused |
| Messages.HeaderFits | internal/protocol/transfer.go:159-161 | a header in range takes at most 26 of the 64 bytes |
| Messages.DataRoundTrip | internal/protocol/transfer.go:154-186 | data is framed exactly when its length matches the header, and reads back exactly when its size is in the limit |
| Messages.EncodeSessionHandshake | internal/protocol/daemon.go:465-473 | the six fields are appended in order |
| Messages.HandshakeRoundTrip | internal/protocol/daemon.go:178-222 | every session handshake in range decodes back |
| Messages.HandshakeReadsSpliced | internal/protocol/daemon.go:178-222 | reordered, repeated and unknown fields leave the decoded handshake unchanged |
| Messages.DecodedHandshakeInRange | internal/protocol/daemon.go:190-207 | auth types above a byte and session ids above 32 bits are refused |
| Frames.EncodeProtect | internal/protocol/daemon.go:399-405 | channel, command, checksum and vcode 9 are appended in order, behind the key bytes 08, 10, 18 and 20 |
| Frames.ProtectRoundTrip | internal/protocol/daemon.go:399-455 | every protect section with a command decodes back |
| Frames.DecodedProtectInRange | internal/protocol/daemon.go:427-449 | whatever is decoded fits the widths of its fields |
| Frames.ProtectFits | internal/protocol/daemon.go:138-138 | the protect section of a frame takes at most 16 bytes, so its length fits 16 bits |
| Frames.HeaderRoundTrip | internal/protocol/daemon.go:381-397 | a frame header gives back both sizes |
| Frames.ChecksumLoop | internal/protocol/daemon.go:457-463 | the checksum is the sum of the bytes modulo 256 |
| Frames.DecodeAccepts | internal/protocol/daemon.go:94-131 | a frame is accepted exactly when within the limit, with vcode 9 and its checksum absent or right, and given back unchanged |
| Frames.Stream.ReadFull | internal/protocol/daemon.go:72-74 | all bytes asked for, or an error that tells the end from a cut |
| Frames.Stream.Read | internal/protocol/daemon.go:67-91 | one frame is taken off the stream, or the same error as the specification gives |
| Frames.NoPrefixIsRead | internal/protocol/daemon.go:67-91 | no proper prefix of a frame is read |
| Frames.StreamRoundTrip | internal/protocol/daemon.go:67-144 | any list of frames reads back from the stream in order, and what follows is untouched |
| Wire.UvarintLayout | internal/protocol/daemon.go:543-546 | the bytes of a varint: seven bits each, lowest first, the high bit set on all but the last |
| Wire.UvarintReads | internal/protocol/daemon.go:566-572 | and what such bytes are read as |
| Wire.FrameLayout | internal/protocol/daemon.go:134-144 | the bytes of a frame: header 48 57 00 00 01 with both lengths, high byte first, then 08 channel 10 command 18 00 20 09, then the payload |
| Wire.FrameReads | internal/protocol/daemon.go:94-131 | such bytes give that channel, command and payload, exactly if they are within the limit, vcode is 9 and the checksum 0 or right |
| Wire.HeaderReads | internal/protocol/daemon.go:381-397 | which eleven bytes are a header, and both lengths in it |
| Wire.ChecksumIsSum | internal/protocol/daemon.go:457-463 | the checksum is the sum of all bytes modulo 256 |
| Wire.DataLayout | internal/protocol/transfer.go:154-167 | a data header is padded with zeros to 64 bytes |
| Wire.ConfigReads | internal/protocol/transfer.go:47-111 | the thirteen fields of a transfer config, each behind its key byte |
| Wire.PayloadReads | internal/protocol/transfer.go:114-151 | the four fields of a payload header, each behind its key byte |
| Wire.HandshakeReads | internal/protocol/daemon.go:178-222 | the six fields of a session handshake, each behind its key byte |
| Wire.WidthsAreChecked | internal/protocol/transfer.go:206-231 | which numbers are too wide for which fields |
| Wire.WireTypesAreChecked | internal/protocol/transfer.go:65-111 | known fields of the wrong wire type are refused |
| Wire.UnknownIsPassedOver | internal/protocol/daemon.go:599-623 | unknown fields of the four wire types are passed over |
| Messages.ConfigLayout | internal/protocol/transfer.go:47-62 | the bytes of an encoded transfer config, key by key |
| Messages.PayloadLayout | internal/protocol/transfer.go:114-120 | the bytes of an encoded payload header |
| Messages.HandshakeLayout | internal/protocol/daemon.go:465-473 | the bytes of an encoded session handshake |
| Frames.ProtectLayout | internal/protocol/daemon.go:399-405 | the bytes of a protect section: 08 channel 10 command 18 checksum 20 vcode |
| Tlv.ParseDecimalLoop | internal/protocol/daemon.go:508-514 | the digit loop reads the decimal number or refuses a non-digit |
| Tlv.DecimalRoundTrip | internal/protocol/daemon.go:495-495 | a printed length reads back |
| Tlv.ParseLoop | internal/protocol/daemon.go:499-525 | the loop over the remaining text computes the recursive parse |
| Tlv.AppendParses | internal/protocol/daemon.go:491-525 | appending to any buffer that parses sets one field: the tag's first 16 characters, trimmed, unless blank |
| Tlv.AppendedListParses | internal/protocol/daemon.go:491-525 | any list of proper tags parses to exactly its tags, each with its last value |
| Tlv.AuthStatusParses | internal/protocol/daemon.go:483-488 | the authentication status parses back to its four fields, whatever they hold |
| Wire.RowLayout | internal/protocol/daemon.go:491-497 | a row is a tag padded to 16, a length padded to 16 and the value |
| Wire.DecimalLayout | internal/protocol/daemon.go:495-495 | a length is printed digit by digit, highest first |
| Transfer.FileUpload.Write | internal/bridge/file.go:569-587 | the next bytes are stored and completion is reported when all are there; a short write is refused and not counted |
| Transfer.FileUpload.Prepare | internal/bridge/file.go:589-607 | an upload is handed on once, and only when complete |
| Transfer.FileUpload.Handle | internal/bridge/file.go:191-214 | a data frame is checked, stored or refused, and a refusal, that of a short write included, closes the upload |
| Transfer.FileUpload.Finish | internal/bridge/file.go:216-230 | a finish frame hands a complete upload on, and anything else closes it |
| Transfer.SendPieces | internal/bridge/file.go:411-453 | every non-empty read becomes one chunk at its offset |
| Transfer.SendDownloadData | internal/bridge/file.go:411-453 | encoding never fails, so all chunks of the file are sent |
| Transfer.TransferIsIdentity | internal/bridge/file.go:191-214 | for every file and every pattern of reads the receiver holds the prefix sent so far and reports completion exactly on the last frame |
| Transfer.OnlyTheNextFrame | internal/bridge/file.go:569-587 | an earlier, repeated or later frame is refused and closes the upload |
| Transfer.OverlongIsRefused | internal/bridge/file.go:575-577 | a chunk past the declared size is refused wherever it comes |
| Transfer.OnlyWholeFilesAreHandedOn | internal/bridge/file.go:216-230 | whatever a client sends, at most one file is handed on, of exactly the declared size, and nothing sent afterwards changes it |
| Transfer.WholeFileIsHandedOn | internal/bridge/file.go:191-230 | the frames of a download followed by a finish hand on exactly the file that was sent |
| Transfer.ChunkLayout | internal/bridge/file.go:411-454 | the bytes of a data frame of a download |
| Transfer.DataFrameDecides | internal/bridge/file.go:191-214 | a data frame is stored exactly when it is the next one, of the right sizes and within the declared size, and otherwise closes the upload |
| TempStore.Store.Allocate | internal/bridge/temp_store.go:39-64 | quota is taken exactly when it suffices and the file can be made, and otherwise given back |
| TempStore.Store.PrepareDownload | internal/bridge/temp_store.go:86-105 | the same for a download, charged at its limit |
| TempStore.Store.Release | internal/bridge/temp_store.go:66-73 | the counter goes down, to no less than zero |
| TempStore.Allocation.Settle | internal/bridge/temp_store.go:129-141 | the charge becomes the actual size, unless already released |
| TempStore.Allocation.Close | internal/bridge/temp_store.go:199-213 | the charge is given back by the first close only |
| TempQuota.QuotaIsConserved | internal/bridge/temp_store.go:39-105 | in every run, of any number of connections, the counter is the sum of the charges, within the quota, and unsettled receives fit it whole |
| TempQuota.NeverClamped | internal/bridge/temp_store.go:66-81 | neither the clamp nor reserveExtra is ever used |
| TempQuota.AllIsReturned | internal/bridge/file.go:126-151 | once no bridge of any connection, open or closed, holds a file and no handler or goroutine has one on its way, nothing is charged |
| TempQuota.ClosedIsQuiet | internal/bridge/app.go:94-124 | closing the bridges of all connections in use, and letting everything end, is enough for that |
| TempQuota.StepBalanced | internal/bridge/file.go:288-382 | every step of uploads, downloads and installs changes counter and charges together |
| TempQuota.StepLinked | internal/bridge/file.go:468-494 | every allocation is held by exactly the map, session or goroutine that has to close it |
| TempQuota.StepFindable | internal/bridge/app.go:94-124 | a session that is not closed can still be found and closed, and closed bridges stay empty |
| QuotaProgress.UploadIsEntered | internal/bridge/file.go:153-189 | a file that fits is charged at its size and entered for its channel |
| QuotaProgress.TooLargeIsRefused | internal/bridge/temp_store.go:39-64 | one that does not fit leaves no trace |
| QuotaProgress.UnmadeIsGivenBack | internal/bridge/temp_store.go:39-64 | where the file cannot be made the charge is given back at once |
| QuotaProgress.UploadIsGivenBack | internal/bridge/file.go:543-567 | in every run an upload that is removed and closed gives its whole charge back |
| QuotaProgress.DownloadIsEntered | internal/bridge/file.go:288-317 | a download is charged at the most a file may have and starts to run |
| QuotaProgress.DownloadIsSettled | internal/bridge/temp_store.go:129-141 | in every run it is then charged at what has come |
| QuotaProgress.DownloadIsGivenBack | internal/bridge/file.go:468-494 | and gives that back |
| QuotaProgress.PackageIsHeld | internal/bridge/app.go:262-288 | a package that fits is charged at its size and held by its session |
| QuotaProgress.InstallIsFinished | internal/bridge/app.go:481-519 | in every run it is handed over when complete and given back after the install |
| Ports.PortPool.constructor | internal/remote/ports.go:26-35 | a new pool has its whole range available |
| Ports.PortPool.Reserve | internal/remote/ports.go:38-60 | an available or blocked port of the range is reserved, any other refused |
| Ports.PortPool.TakeFirst | internal/remote/ports.go:86-94 | the lowest available port is reserved before it is probed |
| Ports.PortPool.Block | internal/remote/ports.go:98-101 | a failed probe moves the port to the blocked ones |
| Ports.PortPool.AllocateOnce | internal/remote/ports.go:84-107 | the loop gives the lowest available port that is not busy |
| Ports.PortPool.Recycle | internal/remote/ports.go:110-119 | blocked ports become available again, in order |
| Ports.PortPool.Release | internal/remote/ports.go:122-134 | a reserved port becomes available again, in order |
| Ports.PortPool.Allocate | internal/remote/ports.go:65-79 | a second round over recycled ports when the first finds none |
| Ports.ReserveKeeps | internal/remote/ports.go:38-60 | reserving succeeds exactly in range and unreserved, and keeps the partition |
| Ports.RecycleKeeps | internal/remote/ports.go:110-119 | recycling keeps the partition and reserves nothing |
| Ports.ReleaseKeeps | internal/remote/ports.go:122-134 | releasing keeps the partition and frees that port only |
| Ports.AllocateOnceIsFirstFree | internal/remote/ports.go:84-107 | one round keeps the partition, takes the first free port and blocks those before it |
| Ports.AllocateFailsOnlyWhenExhausted | internal/remote/ports.go:65-107 | allocation fails exactly when all unreserved ports are busy, and never gives a reserved one |
| Snapshot.ValidateLoop | internal/store/bindings.go:142-166 | the loop with its two sets accepts exactly complete, distinct bindings in range |
| Snapshot.ValidateIsIdempotent | internal/store/bindings.go:142-166 | the result is the same bindings, RESERVED and in device order, and validates to itself |
| Snapshot.AcceptsExactly | internal/store/bindings.go:142-163 | accepted are exactly the lists in which every binding has an id, a device, a host and a port of the range, and no two share a device or a port |
| Snapshot.LessIsFirstDifference | internal/store/bindings.go:164-164 | the order is that of the first byte that differs |
| Snapshot.Disk.Write | internal/store/bindings.go:70-107 | the file-system calls go through exactly the listed states |
| Snapshot.Disk.Save | internal/store/bindings.go:62-108 | an unacceptable snapshot touches nothing; any other is written |
| Snapshot.SaveIsAtomic | internal/store/bindings.go:45-108 | whatever fails and wherever it crashes Load gives the old snapshot or the new one, and in the end the new one exactly on success |
| Snapshot.SaveIsAtomicIffSafe | internal/store/bindings.go:62-108 | saving any snapshot is atomic under every failure and crash exactly in the safe states |
| Snapshot.CrashesAreHarmlessIff | internal/store/bindings.go:93-107 | a crash in a save that does not fail loads the old or the new snapshot exactly in the safe states, or when the empty one is saved and there is no primary |
| Snapshot.SafeWhilePrimaryExists | internal/store/bindings.go:93-107 | the states a save goes through from a loadable primary are safe exactly while there is a primary |
| Snapshot.TwoCrashesLoseEverything | internal/store/bindings.go:93-107 | a crash between the renames and one in the next save leave nothing to load |
| Restore.RestoreLoop | internal/remote/manager.go:107-115 | the loop reserves ports and fills both maps |
| Restore.RestoreNeverFails | internal/remote/manager.go:107-115 | any snapshot Load accepts is restored, each device with its own reserved port |
| Restore.MapsAgreeIffIdsDiffer | internal/remote/manager.go:113-114 | the two maps agree exactly when no two bindings share an id |
| Restore.SharedIdIsAccepted | internal/store/bindings.go:147-162 | a shared id passes validation and makes the maps disagree |
| Restore.RestoredIsInitial | internal/remote/manager.go:91-117 | what is restored from a snapshot without repeated ids is a state in which runs of the manager start |
| Lease.StepKeepsInv | internal/remote/manager.go:158-500 | every lock-held region of any caller keeps maps, stages and ports consistent |
| Lease.LeaseAndListenerAgree | internal/remote/manager.go:168-247 | with nothing in flight a device has a listener exactly when it has its single ACTIVE lease, and ports are distinct and reserved |
| Lease.ReleaseTakesItsOwnListener | internal/remote/manager.go:439-470 | no release removes a later lease's listener |
| Lease.BindIsNeverIdempotent | internal/gateway/gateway.go:151-194 | Bind never finds a listener already there, so success means its own |
| Lease.NoPortLeaks | internal/remote/ports.go:38-134 | a port is reserved exactly while a binding has it or an operation holds it for one |
| Lease.StepFootprint | internal/remote/manager.go:158-500 | a step touches only what belongs to its own device |
| Lease.BindingIsStable | internal/remote/manager.go:406-429 | a saved binding's id and port never change over any history |
| Lease.SavedKeeps | internal/remote/manager.go:420-428 | a saved binding goes on to be bound |
| Lease.UnsavedKeeps | internal/remote/manager.go:420-427 | a binding that could not be saved leaves both maps and its port is given back |
| Lease.CommitKeeps | internal/remote/manager.go:233-246 | the commit makes lease, binding and listener agree |
| Lease.StartReleaseKeeps | internal/remote/manager.go:440-458 | a release marks the device busy and its lease RELEASING |
| Lease.UnbindKeeps | internal/gateway/gateway.go:231-245 | unbinding leaves the device without a listener and its lease RELEASING |
| Lease.DeleteLeaseKeeps | internal/remote/manager.go:472-493 | forgetting the lease leaves the device at rest |
| LeaseProgress.AcquireGrants | internal/remote/manager.go:205-247 | in every run an acquire that is carried through for a bound device ends with a new ACTIVE lease of that owner and term, a LISTENING binding and a listener bound for it, whatever others do in between |
| LeaseProgress.NewDeviceIsGranted | internal/remote/manager.go:406-429 | a device without a binding gets one on the first available port, and then the same |
| LeaseProgress.ListenerIsEntered | internal/gateway/gateway.go:151-194 | Bind enters a listener that admits by the lease, or nothing where its port cannot be listened on |
| LeaseProgress.PortIsGivenBack | internal/remote/manager.go:420-427 | the port of a binding that could not be saved is free again |
| LeaseProgress.ReleaseWithdraws | internal/remote/manager.go:439-500 | in every run a release that is carried through leaves neither lease nor listener, and the binding on its port as the registry has it |
| LeaseProgress.ConnectionsAreCounted | internal/remote/manager.go:320-348 | connections are counted on the lease, and never below zero |
| LeaseGrants.GrantFollowsLease | internal/gateway/gateway.go:209-221 | with one caller a listener admits by its lease's id, binding and last expiry |
| LeaseRenewals.LateRenewalReplacesGrant | internal/remote/manager.go:174-197 | some run ends with nothing under way and a listener that admits by a lease released before |
| LeaseRenewals.OvertakenRenewalIsStale | internal/remote/manager.go:189-196 | some run ends with nothing under way and a listener that has the expiry of an earlier renewal than its lease |
| LeaseRenewals.GrantFollowsIffAllBring | internal/gateway/gateway.go:209-221 | with any number of callers a leased device's listener ends up with the current grant, whatever else happens while the lease is neither released nor renewed again and in whatever order, exactly when all renewals on their way to it bring that grant |
| Tick.Find | internal/device/registry.go:99-112 | by the trimmed id, else any device with that connect key, else none; for ids that are no connect keys, by id only |
| Tick.Manager.ReleaseLease | internal/remote/manager.go:439-500 | lease and listener go, and the binding's status follows the registry |
| Tick.Manager.CreateBinding | internal/remote/manager.go:406-429 | a new RESERVED binding on a port that was free, exactly when the pool is not exhausted and saving succeeds; otherwise maps and reserved ports as they were |
| Tick.Manager.RenewLease | internal/remote/manager.go:174-197 | the lease and its listener's grant get the new expiry, if it is the same owner that asks |
| Tick.Manager.BindAndCommit | internal/remote/manager.go:222-247 | a listener, an ACTIVE lease and a LISTENING binding, or nothing |
| Tick.Manager.Acquire | internal/remote/manager.go:158-248 | for any owner and term: renews, binds or creates as the device requires, or fails leaving lease and listener as they were; another owner's lease and a term beyond the longest are refused |
| Tick.AcquiredRests | internal/remote/manager.go:158-248 | whoever asks and whatever fails, an Acquire leaves all maps in agreement and other devices alone |
| Tick.AcquireInPlainTerms | internal/remote/manager.go:158-248 | in terms of the maps: who is refused, what a renewal changes, and which lease and binding a new owner gets, with the defaults for owner and term |
| Tick.Manager.ReleaseStale | internal/remote/manager.go:504-523 | exactly the leases that expired or lost their device are released, and the others stay as they are |
| Tick.Manager.ReconcileBindings | internal/remote/manager.go:527-552 | exactly the bindings without a lease follow the registry |
| Tick.Manager.AutoExpose | internal/remote/manager.go:261-293 | every listed device that can be exposed is, unless another owner has it or listening, saving or, with no port left, allocating fails for it |
| Tick.Manager.Tick | internal/remote/manager.go:144-293 | after one tick exposed devices have lease, LISTENING binding and matching grant to the full term; all that are not online over USB are withdrawn and FROZEN; none that can be exposed is left out unless another owner has it, its own calls fail or no port is left |
| Tick.LeasesInPlainTerms | internal/remote/manager.go:504-552 | in terms of the maps: a lease that runs, of a device online over USB, keeps its id, owner and binding through a tick, renewed if it is the automatic owner's; every other lease goes; bindings keep id and port |
| Tick.EveryDeviceIsExposed | internal/remote/manager.go:261-293 | if nothing fails, nobody else has a lease and the range has a port for every device bound or to be bound, every device that can be exposed is |
| Tick.BetweenCallsIsRest | internal/remote/manager.go:129-148 | a run with one caller leaves maps and reserved ports as a tick needs them |
| Devices.Registry.MarkStale | internal/device/registry.go:211-225 | after a failed scan statuses become UNKNOWN once the last success is too old, and nothing else changes |
| Devices.Registry.Refresh | internal/device/registry.go:130-196 | listed devices are taken over, missed ones kept OFFLINE or dropped, and miss times updated |
| Devices.KeepMissing | internal/device/registry.go:153-181 | the loop over known devices keeps exactly those missed for no longer than allowed |
| Devices.SnapshotIsHistory | internal/device/registry.go:130-196 | a device is in the table exactly when last listed or missed at most retainOffline since its first miss, which offlineSince records |
| Devices.StatusIsWhatWasListed | internal/device/registry.go:176-225 | UNKNOWN after too long without success, otherwise exactly as last listed, or OFFLINE when missed |
| Devices.ListedIsLastEntry | internal/device/registry.go:141-150 | a scan lists the last entry with an id, with its own status, key and transport, and blank ids not at all |
| Devices.DeviceStaysItself | internal/device/registry.go:130-225 | key and transport of a device in the table are those it was last listed with |
| HandshakeAuth.DaemonConnection.HandleAuthNone | internal/gateway/handshake.go:53-85 | the first round sets the token and waits for a key, once |
| HandshakeAuth.DaemonConnection.HandleAuthPublicKey | internal/gateway/handshake.go:87-121 | a key in turn is remembered and let through or sent for approval |
| HandshakeAuth.DaemonConnection.Decided | internal/gateway/handshake.go:131-149 | only an allow decision goes on to the signature, as in the step that ends the wait |
| HandshakeAuth.DaemonConnection.HandleAuthSignature | internal/gateway/handshake.go:157-185 | only a verified signature accepts; a wrong one changes nothing |
| HandshakeAuth.DaemonConnection.RouteFrame | internal/gateway/gateway.go:705-764 | the handshake first and once, then the policy, then the family, as in the step that receives the frame |
| HandshakeAuth.AcceptedIsAuthentic | internal/gateway/handshake.go:32-185 | an accepted connection's own token was verified under the key it presented, and that key was let through on good grounds |
| HandshakeAuth.NothingBeforeAcceptance | internal/gateway/gateway.go:724-764 | no frame but a kernel one is handed on before the connection's token was verified |
| HandshakeAuth.TrustIsOfTheMoment | internal/gateway/handshake.go:100-107 | in every run a key let through as trusted was trusted at the very step that let it through |
| HandshakeAuth.RevokedStaysOut | internal/hostauth/registry.go:269-296 | a key that is not or no longer trusted is let through as trusted only after it has been allowed forever since |
| HandshakeAuth.DecisionStands | internal/hostauth/registry.go:229-232 | a delivered decision is never replaced |
| HandshakeProgress.SignatureDecides | internal/gateway/handshake.go:157-185 | in every reachable state a signature frame makes its connection accepted exactly if the signature verifies, and otherwise leaves it as it was, to try again |
| HandshakeProgress.AcceptedExactlyThen | internal/gateway/handshake.go:157-170 | a connection is accepted at the step that brings such a frame and at no other |
| HandshakeProgress.FirstFrameChallenges | internal/gateway/handshake.go:53-85 | the first frame brings a token, unless the client is too old |
| HandshakeProgress.KeyIsLetThroughOrSubmitted | internal/gateway/handshake.go:87-121 | a key is let through if it is trusted or host authentication is off, and otherwise submitted |
| HandshakeProgress.DecisionDecides | internal/gateway/handshake.go:131-149 | the delivered decision releases the connection to its signature if it allows, and ends it otherwise |
| HandshakeProgress.AllowedMaySign | internal/hostauth/registry.go:134-190 | in every run a waiting request can be decided, and once that is delivered and allows, its connection may sign |
| HandshakeProgress.DecisionArrives | internal/hostauth/registry.go:192-232 | deciding a waiting request delivers the decision, and allowing forever trusts its key |
| HandshakeProgress.AcceptedIsServed | internal/gateway/gateway.go:705-764 | every further frame of an accepted connection that the policy lets pass is handed on |
| HandshakeProgress.KnownHostGetsIn | internal/gateway/handshake.go:53-185 | in every run, whatever others do in between, a new connection with a trusted key, or with host authentication off, that signs its token is accepted and its shell frame handed on |
| HandshakeProgress.AllowedHostGetsIn | internal/gateway/handshake.go:110-185 | so is one whose key is not trusted, once its request is allowed |
| HandshakeAuth.HostRegistry.Submit | internal/hostauth/registry.go:134-157 | a trusted key is allowed at once, any other but a blank one becomes a pending request |
| HandshakeAuth.HostRegistry.Decide | internal/hostauth/registry.go:192-228 | a pending request is found by id or key prefix, and allowing forever trusts its key |
| HandshakeAuth.HostRegistry.Deliver | internal/hostauth/registry.go:229-232 | an empty channel takes the decision, a full one keeps its own |
| HandshakeAuth.HostRegistry.Revoke | internal/hostauth/registry.go:269-296 | that very key, else the only one the argument is a prefix of, stops being trusted |
| HandshakeAuth.MatchIsBeginning | internal/hostauth/registry.go:425-432 | a key matches what it begins with |

## Left out

- Text beyond one byte a character: runes, Unicode space and case folding are not modelled; lower-casing maps each character.
- Agreement of the shell lexer with a real shell: the facts are about the code's own lexer and rules.
- Several small loops of the shell rules are recursive functions or quantified predicates rather than loops.
- Frame deny table, command catalogue and command names: settled by reading one branch each.
- Reading and writing JSON: a file holds a snapshot or it does not; the 4 MiB read limit is assumed to suffice.
- Power loss: a crash keeps the file-system calls made so far in order; what syncing adds is not modelled.
- TempQuota.QuotaIsConserved: app sessions' command output and results are not modelled, only where their allocations are.
- The app receiver repeats the upload's checks and its stored bytes are not modelled, only the hand-over of its allocation.
- Lease.LeaseAndListenerAgree: closing the manager or the gateway, exact connection counts and lease views are not modelled.
- Tick.Manager.Acquire: source prefixes, connection limits and policy profiles of a request are not modelled.
- Collisions of random ids and tokens: they are fresh numbers.
- HandshakeAuth.AcceptedIsAuthentic: RSA, key parsing and the version comparison are inputs, and a missing host registry is not modelled; notices, recent events and saving known hosts are left out.
- Sockets, the console, logging, configuration, audit, unity and forward bridges.
