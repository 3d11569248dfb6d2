/** What the handshake leads to: a peer that answers every challenge is accepted and served, whatever the other
    connections and the registry do in between (internal/gateway/handshake.go, route in gateway.go). */
module HandshakeProgress {
  import opened Text
  import opened HandshakeAuth

  /** A frame that the policy and the channel limit let pass. */
  predicate Passes(frame: Frame) {
    !frame.denied && frame.admitted
  }

  /** A well-formed handshake frame of that auth type, let pass. */
  predicate Shakes(frame: Frame, authType: nat) {
    Passes(frame) && frame.command.HandshakeFrame? && frame.command.handshake.wellFormed
    && frame.command.handshake.authType == authType
  }

  /** Nothing has changed but that one connection, and the log by what follows. */
  predicate OnlyPeer(s: State, next: State, link: Link, peer: Peer, added: seq<Event>)
    requires link < |s.peers|
  {
    && next.peers == s.peers[link := peer] && next.log == s.log + added
    && next.hosts == s.hosts && next.waiters == s.waiters && next.pending == s.pending && next.issued == s.issued
  }

  /** In any reachable state the signature frame decides: the connection is accepted if the signature verifies
      under the key it presented, and otherwise it is as it was and may try again. */
  lemma SignatureDecides(hosts: set<string>, steps: seq<Step>, verify: Verify, s: State, link: Link, frame: Frame)
    requires Run(Initial(hosts), steps, verify) == Some(s)
    requires link < |s.peers| && s.peers[link].stage.Running? && s.peers[link].conn.phase.WaitSignature?
    requires Shakes(frame, 2)
    ensures s.peers[link].conn.token.Some? && s.peers[link].conn.identity.Some?
    ensures
      var c := s.peers[link].conn;
      var key, t, signature := c.identity.value.publicKey, c.token.value, frame.command.handshake.signature;
      var next := Apply(s, Receive(link, frame), verify);
      if key == "" then OnlyPeer(s, next, link, Peer(c, Ended), [])
      else if verify(key, t, signature, c.authType) then
        OnlyPeer(s, next, link, Peer(c.(phase := Done, accepted := true), Running),
          [Verified(link, key, t, signature, c.authType)])
      else OnlyPeer(s, next, link, Peer(c, Running), [])
  {
    RunKeepsInv(Initial(hosts), steps, verify);
    assert PeerSound(s, link);
  }

  /** The frame and the connection it comes on are such that the connection is to be accepted. */
  predicate Convinces(c: Conn, frame: Frame, verify: Verify) {
    && Shakes(frame, 2) && c.phase.WaitSignature? && c.token.Some? && c.identity.Some?
    && c.identity.value.publicKey != ""
    && verify(c.identity.value.publicKey, c.token.value, frame.command.handshake.signature, c.authType)
  }

  /** A connection is accepted at the very step that brings such a frame, and at no other. */
  lemma AcceptedExactlyThen(hosts: set<string>, steps: seq<Step>, verify: Verify, s: State, step: Step, link: Link)
    requires Run(Initial(hosts), steps, verify) == Some(s) && Enabled(s, step)
    requires link < |s.peers| && !s.peers[link].conn.accepted
    ensures link < |Apply(s, step, verify).peers|
    ensures Apply(s, step, verify).peers[link].conn.accepted <==>
      step.Receive? && step.link == link && Convinces(s.peers[link].conn, step.frame, verify)
  {
    RunKeepsInv(Initial(hosts), steps, verify);
    assert PeerSound(s, link);
  }

  /** The first frame of a handshake gives the connection a token of its own, unless its client is too old. */
  lemma FirstFrameChallenges(verify: Verify, s: State, link: Link, frame: Frame)
    requires link < |s.peers| && s.peers[link].stage.Running? && Shakes(frame, 0)
    requires s.peers[link].conn.phase.Start? && s.peers[link].conn.token.None? && !s.peers[link].conn.accepted
    ensures
      var c, h := s.peers[link].conn, frame.command.handshake;
      var next := Apply(s, Receive(link, frame), verify);
      if h.tooOld then OnlyPeer(s, next, link, Peer(c, Ended), [])
      else OnlyPeer(s, next, link,
             Peer(c.(authType := h.clientAuth, token := Some(s.nextToken), phase := WaitPubkey), Running),
             [Challenged(link, s.nextToken)])
  {
  }

  /** The second brings the key: trusted, or with host authentication off, it is let through, and otherwise
      it is submitted. */
  lemma KeyIsLetThroughOrSubmitted(verify: Verify, s: State, link: Link, frame: Frame)
    requires link < |s.peers| && s.peers[link].stage.Running? && Shakes(frame, 3)
    requires s.peers[link].conn.phase.WaitPubkey? && s.peers[link].conn.token.Some? && !s.peers[link].conn.accepted
    ensures
      var c, h := s.peers[link].conn, frame.command.handshake;
      var next := Apply(s, Receive(link, frame), verify);
      if h.identity.None? then OnlyPeer(s, next, link, Peer(c, Ended), [])
      else if c.hostAuthOff || Trim(h.identity.value.fingerprint) in s.hosts then
        OnlyPeer(s, next, link, Peer(c.(identity := h.identity, phase := WaitSignature), Running),
          [LetThrough(link, h.identity.value.fingerprint, if c.hostAuthOff then HostAuthOff else Trusted(s.hosts))])
      else OnlyPeer(s, next, link, Peer(c.(identity := h.identity), Submitting), [])
  {
  }

  /** A connection that waits is released by the decision delivered to it: to its signature if it allows. */
  lemma DecisionDecides(verify: Verify, s: State, link: Link)
    requires Enabled(s, Wake(link, Result))
    ensures
      var c, request := s.peers[link].conn, s.peers[link].stage.request;
      var decision := s.waiters[request].result.value;
      var next := Apply(s, Wake(link, Result), verify);
      if decision == AllowOnce || decision == AllowForever then
        && next.peers == s.peers[link := Peer(c.(phase := WaitSignature), Running)]
        && next.log == s.log + [LetThrough(link, c.identity.value.fingerprint, Decided(request))]
      else next.peers == s.peers[link := Peer(c, Ended)] && next.log == s.log
  {
  }

  /** An accepted connection is served: every further frame that passes is handed on, but for a handshake. */
  lemma AcceptedIsServed(verify: Verify, s: State, link: Link, frame: Frame)
    requires link < |s.peers| && s.peers[link].stage.Running? && s.peers[link].conn.accepted
    requires Passes(frame) && frame.command.Other?
    ensures OnlyPeer(s, Apply(s, Receive(link, frame), verify), link, s.peers[link], [Dispatched(link, frame.command.family)])
  {
  }

  // ---------- whole handshakes ----------

  /** Steps of that connection itself. */
  predicate IsOf(step: Step, link: Link) {
    match step
    case Receive(l, _) => l == link
    case Submit(l) => l == link
    case Wake(l, _) => l == link
    case _ => false
  }

  /** The step comes next on that connection; other connections and the registry may have come before it. */
  ghost predicate Comes(s: State, gap: seq<Step>, before: State, step: Step, next: State, link: Link, verify: Verify) {
    && Run(s, gap, verify) == Some(before) && (forall g <- gap :: !IsOf(g, link))
    && IsOf(step, link) && Enabled(before, step) && next == Apply(before, step, verify)
  }

  /** A waiting connection's request can still be found by Decide. */
  ghost predicate Findable(s: State) {
    forall link | 0 <= link < |s.peers| && s.peers[link].stage.Waiting? :: s.peers[link].stage.request in s.pending
  }

  ghost predicate Sound(s: State, verify: Verify) {
    Inv(s, verify) && Findable(s)
  }

  lemma StepKeepsSound(s: State, step: Step, verify: Verify)
    requires Sound(s, verify) && Enabled(s, step)
    ensures Sound(Apply(s, step, verify), verify) && s.log <= Apply(s, step, verify).log
  {
    StepKeepsInv(s, step, verify);
    var next := Apply(s, step, verify);
    forall link | 0 <= link < |next.peers| && next.peers[link].stage.Waiting?
      ensures next.peers[link].stage.request in next.pending
    {
      assert PeerSound(next, link);
      if link < |s.peers| { assert PeerSound(s, link); }
      if step.Wake? { assert PeerSound(s, step.link); }
    }
  }

  lemma {:induction false} RunKeepsSound(s: State, steps: seq<Step>, verify: Verify)
    requires Sound(s, verify) && Run(s, steps, verify).Some?
    ensures Sound(Run(s, steps, verify).value, verify) && s.log <= Run(s, steps, verify).value.log
    decreases |steps|
  {
    if |steps| > 0 {
      var front := steps[..|steps| - 1];
      RunKeepsSound(s, front, verify);
      StepKeepsSound(Run(s, front, verify).value, steps[|steps| - 1], verify);
    }
  }

  lemma OthersLeavePeer(s: State, step: Step, verify: Verify, link: Link)
    requires Enabled(s, step) && !IsOf(step, link) && link < |s.peers|
    ensures link < |Apply(s, step, verify).peers| && Apply(s, step, verify).peers[link] == s.peers[link]
  {
  }

  lemma {:induction false} PeerWaits(s: State, steps: seq<Step>, verify: Verify, link: Link)
    requires Run(s, steps, verify).Some? && link < |s.peers| && forall g <- steps :: !IsOf(g, link)
    ensures link < |Run(s, steps, verify).value.peers| && Run(s, steps, verify).value.peers[link] == s.peers[link]
    decreases |steps|
  {
    if |steps| > 0 {
      var front := steps[..|steps| - 1];
      PeerWaits(s, front, verify, link);
      OthersLeavePeer(Run(s, front, verify).value, steps[|steps| - 1], verify, link);
    }
  }

  /** Whatever comes before a step, the connection is as it was, and what was logged stays logged. */
  lemma ComesKeeps(s: State, gap: seq<Step>, before: State, step: Step, next: State, link: Link, verify: Verify)
    requires Sound(s, verify) && link < |s.peers| && Comes(s, gap, before, step, next, link, verify)
    ensures link < |before.peers| && before.peers[link] == s.peers[link]
    ensures Sound(before, verify) && Sound(next, verify) && s.log <= before.log <= next.log
  {
    RunKeepsSound(s, gap, verify);
    PeerWaits(s, gap, verify, link);
    StepKeepsSound(before, step, verify);
  }

  lemma InitialSound(hosts: set<string>, verify: Verify)
    ensures Sound(Initial(hosts), verify)
  {
  }

  lemma ReachableSound(hosts: set<string>, steps: seq<Step>, verify: Verify, s: State)
    requires Run(Initial(hosts), steps, verify) == Some(s)
    ensures Sound(s, verify)
  {
    InitialSound(hosts, verify);
    RunKeepsSound(Initial(hosts), steps, verify);
  }

  /** The connection has its token. */
  predicate IsChallenged(s: State, link: Link, off: bool, token: Token, authType: nat) {
    link < |s.peers| && s.peers[link] == Peer(Conn(off, WaitPubkey, Some(token), authType, None, false), Running)
  }

  /** Its key was let through and it may sign. */
  predicate MaySign(s: State, link: Link, token: Token, authType: nat, identity: Identity) {
    && link < |s.peers| && s.peers[link].stage.Running?
    && s.peers[link].conn == Conn(s.peers[link].conn.hostAuthOff, WaitSignature, Some(token), authType, Some(identity), false)
  }

  /** It was accepted and a shell frame of it was handed on. */
  ghost predicate IsServed(s: State, link: Link, token: Token, identity: Identity) {
    && link < |s.peers| && s.peers[link].stage.Running? && s.peers[link].conn.accepted
    && (exists e <- s.log :: e.Verified? && e.link == link && e.publicKey == identity.publicKey && e.token == token)
    && Dispatched(link, Shell) in s.log
  }

  /** A new connection whose first frame is a handshake of a client not too old is challenged with a token. */
  lemma NewcomerIsChallenged(
      verify: Verify, start: State, off: bool, link: Link, gap: seq<Step>, before: State, first: Frame, s: State)
    requires Sound(start, verify) && link == |start.peers|
    requires Comes(Apply(start, Connect(off), verify), gap, before, Receive(link, first), s, link, verify)
    requires Shakes(first, 0) && !first.command.handshake.tooOld
    ensures Sound(s, verify) && IsChallenged(s, link, off, before.nextToken, first.command.handshake.clientAuth)
  {
    var connected := Apply(start, Connect(off), verify);
    StepKeepsSound(start, Connect(off), verify);
    ComesKeeps(connected, gap, before, Receive(link, first), s, link, verify);
    FirstFrameChallenges(verify, before, link, first);
  }

  /** A challenged connection may sign once it presents a key while host authentication is off or that key
      is trusted. */
  lemma KnownKeyMaySign(
      verify: Verify, start: State, link: Link, off: bool, token: Token, authType: nat,
      gap: seq<Step>, before: State, second: Frame, s: State)
    requires Sound(start, verify) && IsChallenged(start, link, off, token, authType)
    requires Comes(start, gap, before, Receive(link, second), s, link, verify)
    requires Shakes(second, 3) && second.command.handshake.identity.Some?
    requires off || Trim(second.command.handshake.identity.value.fingerprint) in before.hosts
    ensures Sound(s, verify) && MaySign(s, link, token, authType, second.command.handshake.identity.value)
  {
    ComesKeeps(start, gap, before, Receive(link, second), s, link, verify);
    KeyIsLetThroughOrSubmitted(verify, before, link, second);
  }

  /** The connection's key is not trusted and about to be submitted. */
  predicate IsAsking(s: State, link: Link, token: Token, authType: nat, identity: Identity) {
    link < |s.peers| && s.peers[link] == Peer(Conn(false, WaitPubkey, Some(token), authType, Some(identity), false), Submitting)
  }

  /** It waits for the decision on that request. */
  predicate Awaits(s: State, link: Link, token: Token, authType: nat, identity: Identity, request: Request) {
    && link < |s.peers| && request < |s.waiters|
    && s.peers[link] == Peer(Conn(false, WaitPubkey, Some(token), authType, Some(identity), false), Waiting(request))
  }

  /** Any other key is submitted. */
  lemma UnknownKeyIsAsking(
      verify: Verify, start: State, link: Link, token: Token, authType: nat,
      gap: seq<Step>, before: State, second: Frame, s: State)
    requires Sound(start, verify) && IsChallenged(start, link, false, token, authType)
    requires Comes(start, gap, before, Receive(link, second), s, link, verify)
    requires Shakes(second, 3) && second.command.handshake.identity.Some?
    requires Trim(second.command.handshake.identity.value.fingerprint) !in before.hosts
    ensures Sound(s, verify) && IsAsking(s, link, token, authType, second.command.handshake.identity.value)
  {
    ComesKeeps(start, gap, before, Receive(link, second), s, link, verify);
    KeyIsLetThroughOrSubmitted(verify, before, link, second);
  }

  /** Unless it is blank it then waits, or has become trusted and may sign at once. */
  lemma AskingAwaits(
      verify: Verify, start: State, link: Link, token: Token, authType: nat, identity: Identity,
      gap: seq<Step>, before: State, s: State)
    requires Sound(start, verify) && IsAsking(start, link, token, authType, identity) && Trim(identity.fingerprint) != ""
    requires Comes(start, gap, before, Submit(link), s, link, verify)
    ensures Sound(s, verify)
    ensures if Trim(identity.fingerprint) in before.hosts then MaySign(s, link, token, authType, identity)
      else Awaits(s, link, token, authType, identity, |before.waiters|)
  {
    ComesKeeps(start, gap, before, Submit(link), s, link, verify);
  }

  /** As long as it waits its request can be decided; once that is delivered and allows, it may sign. */
  lemma AllowedMaySign(
      verify: Verify, start: State, link: Link, token: Token, authType: nat, identity: Identity, request: Request,
      gap: seq<Step>, before: State, s: State)
    requires Sound(start, verify) && Awaits(start, link, token, authType, identity, request)
    requires Comes(start, gap, before, Wake(link, Result), s, link, verify)
    ensures Sound(s, verify) && request in before.pending && request < |before.waiters| && before.waiters[request].result.Some?
    ensures before.waiters[request].result in {Some(AllowOnce), Some(AllowForever)} ==>
      MaySign(s, link, token, authType, identity)
  {
    ComesKeeps(start, gap, before, Wake(link, Result), s, link, verify);
    DecisionDecides(verify, before, link);
  }

  /** Deciding a request that waits, with the decision saved if it is to be kept, delivers it. */
  lemma DecisionArrives(verify: Verify, s: State, link: Link, decision: Decision)
    requires Sound(s, verify) && link < |s.peers| && s.peers[link].stage.Waiting? && !decision.Expired?
    requires s.peers[link].stage.request < |s.waiters| && s.waiters[s.peers[link].stage.request].result.None?
    ensures var request := s.peers[link].stage.request;
      var decided := Run(s, [Decide(request, decision, true), Deliver(request, decision)], verify);
      && decided.Some? && Enabled(decided.value, Wake(link, Result))
      && decided.value.waiters[request].result == Some(decision)
      && (decision.AllowForever? ==> s.waiters[request].fingerprint in decided.value.hosts)
  {
    var request := s.peers[link].stage.request;
    var steps := [Decide(request, decision, true), Deliver(request, decision)];
    assert steps[..1] == [steps[0]] && steps[..1][..0] == [];
    assert PeerSound(s, link);
    assert Run(s, steps[..1][..0], verify) == Some(s);
    assert Run(s, steps[..1], verify) == Some(Apply(s, steps[0], verify));
  }

  /** A connection that may sign is accepted with a signature that verifies, and its next shell frame is
      handed on. */
  lemma SignerIsServed(
      verify: Verify, start: State, link: Link, token: Token, authType: nat, identity: Identity,
      gap: seq<Step>, before: State, third: Frame, accepted: State, pause: seq<Step>, served: State, shell: Frame, s: State)
    requires Sound(start, verify) && MaySign(start, link, token, authType, identity)
    requires Comes(start, gap, before, Receive(link, third), accepted, link, verify)
    requires Shakes(third, 2) && identity.publicKey != ""
    requires verify(identity.publicKey, token, third.command.handshake.signature, authType)
    requires Comes(accepted, pause, served, Receive(link, shell), s, link, verify)
    requires Passes(shell) && shell.command == Other(Shell)
    ensures IsServed(s, link, token, identity)
  {
    ComesKeeps(start, gap, before, Receive(link, third), accepted, link, verify);
    var e := Verified(link, identity.publicKey, token, third.command.handshake.signature, authType);
    assert accepted.log == before.log + [e];
    assert accepted.log[|before.log|] == e;
    ComesKeeps(accepted, pause, served, Receive(link, shell), s, link, verify);
    AcceptedIsServed(verify, served, link, shell);
    assert s.log[|before.log|] == e && s.log[|served.log|] == Dispatched(link, Shell);
  }

  /** What happens on one connection, with the steps of all others in between and the states around it. */
  datatype Turn = Turn(gap: seq<Step>, before: State, step: Step, next: State)

  ghost predicate Takes(s: State, turn: Turn, link: Link, verify: Verify) {
    Comes(s, turn.gap, turn.before, turn.step, turn.next, link, verify)
  }

  predicate IsShake(turn: Turn, link: Link, authType: nat) {
    turn.step.Receive? && turn.step.link == link && Shakes(turn.step.frame, authType)
  }

  predicate IsShell(turn: Turn, link: Link) {
    turn.step.Receive? && turn.step.link == link && Passes(turn.step.frame) && turn.step.frame.command == Other(Shell)
  }

  /** Frames of a client not too old, with a key, and a signature of the token under it that verifies. */
  predicate Answers(first: Turn, second: Turn, third: Turn, link: Link, verify: Verify) {
    && IsShake(first, link, 0) && IsShake(second, link, 3) && IsShake(third, link, 2)
    && var h, k, sig := first.step.frame.command.handshake, second.step.frame.command.handshake, third.step.frame.command.handshake;
       && !h.tooOld && k.identity.Some? && k.identity.value.publicKey != ""
       && verify(k.identity.value.publicKey, first.before.nextToken, sig.signature, h.clientAuth)
  }

  /** The last two turns. */
  lemma LastTurns(
      verify: Verify, s: State, link: Link, token: Token, authType: nat, identity: Identity, third: Turn, shell: Turn)
    requires Sound(s, verify) && MaySign(s, link, token, authType, identity)
    requires Takes(s, third, link, verify) && Takes(third.next, shell, link, verify)
    requires IsShake(third, link, 2) && IsShell(shell, link) && identity.publicKey != ""
    requires verify(identity.publicKey, token, third.step.frame.command.handshake.signature, authType)
    ensures IsServed(shell.next, link, token, identity)
  {
    SignerIsServed(verify, s, link, token, authType, identity,
      third.gap, third.before, third.step.frame, third.next, shell.gap, shell.before, shell.step.frame, shell.next);
  }

  /** In any run, a new connection that answers, with a key that is trusted when it arrives or with host
      authentication off, is accepted and served. */
  lemma KnownHostGetsIn(
      hosts: set<string>, steps: seq<Step>, verify: Verify, start: State, off: bool, link: Link,
      first: Turn, second: Turn, third: Turn, shell: Turn)
    requires Run(Initial(hosts), steps, verify) == Some(start) && link == |start.peers|
    requires Takes(Apply(start, Connect(off), verify), first, link, verify) && Takes(first.next, second, link, verify)
    requires Takes(second.next, third, link, verify) && Takes(third.next, shell, link, verify)
    requires Answers(first, second, third, link, verify) && IsShell(shell, link)
    requires off || Trim(second.step.frame.command.handshake.identity.value.fingerprint) in second.before.hosts
    ensures IsServed(shell.next, link, first.before.nextToken, second.step.frame.command.handshake.identity.value)
  {
    var token, authType := first.before.nextToken, first.step.frame.command.handshake.clientAuth;
    ReachableSound(hosts, steps, verify, start);
    NewcomerIsChallenged(verify, start, off, link, first.gap, first.before, first.step.frame, first.next);
    KnownKeyMaySign(verify, first.next, link, off, token, authType, second.gap, second.before, second.step.frame, second.next);
    LastTurns(verify, second.next, link, token, authType, second.step.frame.command.handshake.identity.value, third, shell);
  }

  /** So is one whose key is not trusted, once its request has been allowed. */
  lemma AllowedHostGetsIn(
      hosts: set<string>, steps: seq<Step>, verify: Verify, start: State, link: Link,
      first: Turn, second: Turn, submit: Turn, wake: Turn, third: Turn, shell: Turn, request: Request)
    requires Run(Initial(hosts), steps, verify) == Some(start) && link == |start.peers|
    requires Takes(Apply(start, Connect(false), verify), first, link, verify) && Takes(first.next, second, link, verify)
    requires Takes(second.next, submit, link, verify) && Takes(submit.next, wake, link, verify)
    requires Takes(wake.next, third, link, verify) && Takes(third.next, shell, link, verify)
    requires Answers(first, second, third, link, verify) && IsShell(shell, link)
    requires submit.step == Submit(link) && wake.step == Wake(link, Result)
    requires var key := Trim(second.step.frame.command.handshake.identity.value.fingerprint);
      key != "" && key !in second.before.hosts && key !in submit.before.hosts
    requires request == |submit.before.waiters| && request < |wake.before.waiters|
    requires wake.before.waiters[request].result in {Some(AllowOnce), Some(AllowForever)}
    ensures IsServed(shell.next, link, first.before.nextToken, second.step.frame.command.handshake.identity.value)
  {
    var token, authType := first.before.nextToken, first.step.frame.command.handshake.clientAuth;
    var identity := second.step.frame.command.handshake.identity.value;
    ReachableSound(hosts, steps, verify, start);
    NewcomerIsChallenged(verify, start, false, link, first.gap, first.before, first.step.frame, first.next);
    UnknownKeyIsAsking(verify, first.next, link, token, authType, second.gap, second.before, second.step.frame, second.next);
    AskingAwaits(verify, second.next, link, token, authType, identity, submit.gap, submit.before, submit.next);
    AllowedMaySign(verify, submit.next, link, token, authType, identity, request, wake.gap, wake.before, wake.next);
    LastTurns(verify, wake.next, link, token, authType, identity, third, shell);
  }
}
