/** The public-key handshake (internal/gateway/handshake.go, route in gateway.go) over the registry of
    trusted hosts and pending approvals (internal/hostauth/registry.go). */
module HandshakeAuth {
  import opened Text

  type Token = nat

  datatype Identity = Identity(fingerprint: string, publicKey: string)

  datatype Phase = Start | WaitPubkey | WaitSignature | Done

  /** What a connection remembers of its handshake. */
  datatype Conn = Conn(
    hostAuthOff: bool, phase: Phase, token: Option<Token>, authType: nat, identity: Option<Identity>, accepted: bool)

  function NewConn(hostAuthOff: bool): Conn {
    Conn(hostAuthOff, Start, None, 0, None, false)
  }

  const AUTH_NONE := 0
  const AUTH_SIGNATURE := 2
  const AUTH_PUBLIC_KEY := 3

  /** A handshake frame, with its buffer as the handlers read it. */
  datatype Handshake = Handshake(
    wellFormed: bool, authType: nat, tooOld: bool, clientAuth: nat, identity: Option<Identity>, signature: string)

  datatype Family = Kernel | Shell | File | Unity | App | Forward | NoFamily

  datatype Command = HandshakeFrame(handshake: Handshake) | ChannelClose | Other(family: Family)

  /** A frame, and what the frame policy and the channel limit say of it. */
  datatype Frame = Frame(command: Command, denied: bool, admitted: bool)

  datatype Decision = AllowOnce | AllowForever | Deny | Expired
  {
    predicate Allows() {
      AllowOnce? || AllowForever?
    }
  }

  /** The signature check, which is not looked into. */
  type Verify = (string, Token, string, nat) -> bool

  /** What a handler does next: go on, end the connection, ask for approval, or hand the frame on. */
  datatype Outcome = Continue | End | AskHosts | Dispatch(family: Family)

  // ---------- the handlers ----------

  function AuthNone(c: Conn, h: Handshake, token: Token): (Conn, Outcome) {
    if c.phase != Start || h.tooOld then (c, End)
    else (c.(authType := h.clientAuth, token := Some(token), phase := WaitPubkey), Continue)
  }

  function AuthPublicKey(c: Conn, h: Handshake, trusted: bool): (Conn, Outcome) {
    if c.phase != WaitPubkey || h.identity.None? then (c, End)
    else if c.hostAuthOff || trusted then (c.(identity := h.identity, phase := WaitSignature), Continue)
    else (c.(identity := h.identity), AskHosts)
  }

  function AfterDecision(c: Conn, decision: Decision): (Conn, Outcome) {
    if decision.Allows() then (c.(phase := WaitSignature), Continue) else (c, End)
  }

  /** A signature that does not verify is answered and may be tried again. */
  function AuthSignature(c: Conn, h: Handshake, verify: Verify): (Conn, Outcome) {
    if c.phase != WaitSignature || c.token.None? || c.identity.None? || c.identity.value.publicKey == "" then (c, End)
    else if !verify(c.identity.value.publicKey, c.token.value, h.signature, c.authType) then (c, Continue)
    else (c.(phase := Done, accepted := true), Continue)
  }

  function Trusts(hosts: set<string>, h: Handshake): bool {
    h.identity.Some? && Trim(h.identity.value.fingerprint) in hosts
  }

  function HandleHandshake(c: Conn, h: Handshake, hosts: set<string>, token: Token, verify: Verify): (Conn, Outcome) {
    if !h.wellFormed then (c, End)
    else if h.authType == AUTH_NONE then AuthNone(c, h, token)
    else if h.authType == AUTH_PUBLIC_KEY then AuthPublicKey(c, h, Trusts(hosts, h))
    else if h.authType == AUTH_SIGNATURE then AuthSignature(c, h, verify)
    else (c, End)
  }

  /** route: the handshake first and only once, then the policy, then the family's handler. */
  function Route(c: Conn, frame: Frame, hosts: set<string>, token: Token, verify: Verify): (Conn, Outcome) {
    if !c.accepted && frame.command.Other? then (c, End)
    else if c.accepted && frame.command.HandshakeFrame? then (c, End)
    else if frame.denied || !frame.admitted then (c, Continue)
    else
      match frame.command
      case HandshakeFrame(h) => HandleHandshake(c, h, hosts, token, verify)
      case ChannelClose => (c, Dispatch(Kernel))
      case Other(family) => (c, Dispatch(family))
  }

  /** The connection's fields as its handlers change them. */
  class DaemonConnection {
    const hostAuthOff: bool
    var authPhase: Phase
    var authToken: Option<Token>
    var authType: nat
    var authIdentity: Option<Identity>
    var handshakeAccepted: bool

    constructor (hostAuthOff: bool)
      ensures Value() == NewConn(hostAuthOff)
    {
      this.hostAuthOff := hostAuthOff;
      authPhase, authToken, authType, authIdentity, handshakeAccepted := Start, None, 0, None, false;
    }

    function Value(): Conn
      reads this
    {
      Conn(hostAuthOff, authPhase, authToken, authType, authIdentity, handshakeAccepted)
    }

    method HandleAuthNone(h: Handshake, token: Token) returns (outcome: Outcome)
      modifies this
      ensures (Value(), outcome) == AuthNone(old(Value()), h, token)
    {
      if authPhase != Start { return End; }
      if h.tooOld { return End; }
      authType := h.clientAuth;
      authToken := Some(token);
      authPhase := WaitPubkey;
      outcome := Continue;
    }

    method HandleAuthPublicKey(h: Handshake, hosts: set<string>) returns (outcome: Outcome)
      modifies this
      ensures (Value(), outcome) == AuthPublicKey(old(Value()), h, Trusts(hosts, h))
    {
      if authPhase != WaitPubkey { return End; }
      if h.identity.None? { return End; }
      authIdentity := h.identity;
      if hostAuthOff || Trim(authIdentity.value.fingerprint) in hosts {
        authPhase := WaitSignature;
        return Continue;
      }
      outcome := AskHosts;
    }

    /** The rest of it, once Submit has returned. */
    method Decided(decision: Decision, verify: Verify, ghost s: State, ghost step: Step) returns (outcome: Outcome)
      requires Enabled(s, step) && Returns(s, step, decision) && s.peers[step.link].conn == Value()
      modifies this
      ensures Apply(s, step, verify).peers[step.link] == Peer(Value(), StageAfter(outcome))
      ensures (Value(), outcome) == AfterDecision(old(Value()), decision)
    {
      if decision != AllowOnce && decision != AllowForever { return End; }
      authPhase := WaitSignature;
      outcome := Continue;
    }

    method HandleAuthSignature(h: Handshake, verify: Verify) returns (outcome: Outcome)
      modifies this
      ensures (Value(), outcome) == AuthSignature(old(Value()), h, verify)
    {
      if authPhase != WaitSignature || authToken.None? || authIdentity.None? || authIdentity.value.publicKey == "" {
        return End;
      }
      if !verify(authIdentity.value.publicKey, authToken.value, h.signature, authType) { return Continue; }
      authPhase := Done;
      handshakeAccepted := true;
      outcome := Continue;
    }

    /** s is any state of all connections and the registry in which this is the connection at link. */
    method RouteFrame(frame: Frame, hosts: set<string>, token: Token, verify: Verify, ghost s: State, ghost link: Link)
      returns (outcome: Outcome)
      requires link < |s.peers| && s.peers[link] == Peer(Value(), Running) && s.hosts == hosts && s.nextToken == token
      modifies this
      ensures Enabled(s, Receive(link, frame))
      ensures Apply(s, Receive(link, frame), verify).peers[link] == Peer(Value(), StageAfter(outcome))
      ensures outcome.Dispatch? ==> Apply(s, Receive(link, frame), verify).log == s.log + [Dispatched(link, outcome.family)]
      ensures (Value(), outcome) == Route(old(Value()), frame, hosts, token, verify)
    {
      if !handshakeAccepted && frame.command.Other? { return End; }
      if handshakeAccepted && frame.command.HandshakeFrame? { return End; }
      if frame.denied || !frame.admitted { return Continue; }
      match frame.command
      case HandshakeFrame(h) =>
        if !h.wellFormed { return End; }
        if h.authType == AUTH_NONE { outcome := HandleAuthNone(h, token); }
        else if h.authType == AUTH_PUBLIC_KEY { outcome := HandleAuthPublicKey(h, hosts); }
        else if h.authType == AUTH_SIGNATURE { outcome := HandleAuthSignature(h, verify); }
        else { outcome := End; }
      case ChannelClose => outcome := Dispatch(Kernel);
      case Other(family) => outcome := Dispatch(family);
    }
  }

  // ---------- connections and the registry together ----------

  type Link = nat
  type Request = nat

  datatype Stage = Running | Submitting | Waiting(request: Request) | Ended

  datatype Peer = Peer(conn: Conn, stage: Stage)

  /** A pending approval: whose it is, and what its channel holds. */
  datatype Waiter = Waiter(link: Link, fingerprint: string, result: Option<Decision>)

  /** Why a key was let through; hosts are the trusted ones at that moment. */
  datatype Grounds = HostAuthOff | Trusted(hosts: set<string>) | Decided(request: Request)

  datatype Event =
    | Challenged(link: Link, token: Token)
    | LetThrough(link: Link, fingerprint: string, grounds: Grounds)
    | Verified(link: Link, publicKey: string, token: Token, signature: string, authType: nat)
    | Dispatched(link: Link, family: Family)

  /** issued are decisions whose Decide has found its request but perhaps not delivered yet. */
  datatype State = State(
    peers: seq<Peer>, hosts: set<string>, waiters: seq<Waiter>, pending: set<Request>,
    issued: set<(Request, Decision)>, nextToken: Token, log: seq<Event>)

  datatype Cause = Result | Cancelled | TimedOut

  datatype Step =
    | Connect(hostAuthOff: bool)
    | Receive(link: Link, frame: Frame)
    | Submit(link: Link)
    | Wake(link: Link, cause: Cause)
    | Decide(request: Request, decision: Decision, saved: bool)
    | Deliver(request: Request, decision: Decision)
    | Revoke(fingerprint: string)

  predicate Enabled(s: State, step: Step) {
    match step
    case Connect(_) => true
    case Receive(link, _) => link < |s.peers| && s.peers[link].stage.Running?
    case Submit(link) =>
      link < |s.peers| && s.peers[link].stage.Submitting? && s.peers[link].conn.identity.Some?
    case Wake(link, cause) =>
      && link < |s.peers| && s.peers[link].stage.Waiting? && s.peers[link].stage.request < |s.waiters|
      && s.peers[link].conn.identity.Some?
      && (cause.Result? ==> s.waiters[s.peers[link].stage.request].result.Some?)
    case Decide(request, decision, _) => request in s.pending && request < |s.waiters| && !decision.Expired?
    case Deliver(request, decision) => (request, decision) in s.issued && request < |s.waiters|
    case Revoke(_) => true
  }

  /** What a connection's own step is worth noting. */
  function EventsOf(link: Link, before: Conn, after: Conn, outcome: Outcome, hosts: set<string>, frame: Frame): seq<Event> {
    if outcome.Dispatch? then [Dispatched(link, outcome.family)]
    else if before.token.None? && after.token.Some? then [Challenged(link, after.token.value)]
    else if !before.phase.WaitSignature? && after.phase.WaitSignature? && after.identity.Some? then
      [LetThrough(link, after.identity.value.fingerprint, if after.hostAuthOff then HostAuthOff else Trusted(hosts))]
    else if !before.accepted && after.accepted && after.identity.Some? && after.token.Some? && frame.command.HandshakeFrame? then
      [Verified(link, after.identity.value.publicKey, after.token.value, frame.command.handshake.signature, after.authType)]
    else []
  }

  function StageAfter(outcome: Outcome): Stage {
    match outcome
    case End => Ended
    case AskHosts => Submitting
    case _ => Running
  }

  function ReceiveStep(s: State, link: Link, frame: Frame, verify: Verify): State
    requires link < |s.peers|
  {
    var before := s.peers[link].conn;
    var (after, outcome) := Route(before, frame, s.hosts, s.nextToken, verify);
    s.(peers := s.peers[link := Peer(after, StageAfter(outcome))],
       nextToken := s.nextToken + 1,
       log := s.log + EventsOf(link, before, after, outcome, s.hosts, frame))
  }

  /** Submit: at once when the key has become trusted, otherwise a request and a wait. */
  function SubmitStep(s: State, link: Link): State
    requires link < |s.peers| && s.peers[link].conn.identity.Some?
  {
    var conn := s.peers[link].conn;
    var fingerprint := Trim(conn.identity.value.fingerprint);
    if fingerprint == "" then s.(peers := s.peers[link := Peer(conn, Running)])
    else if fingerprint in s.hosts then
      s.(peers := s.peers[link := Peer(AfterDecision(conn, AllowForever).0, Running)],
         log := s.log + [LetThrough(link, conn.identity.value.fingerprint, Trusted(s.hosts))])
    else
      s.(peers := s.peers[link := Peer(conn, Waiting(|s.waiters|))],
         waiters := s.waiters + [Waiter(link, fingerprint, None)], pending := s.pending + {|s.waiters|})
  }

  /** What ends the wait of Submit. */
  function DecisionOf(s: State, link: Link, cause: Cause): Decision
    requires Enabled(s, Wake(link, cause))
  {
    match cause
    case Result => s.waiters[s.peers[link].stage.request].result.value
    case Cancelled => Deny
    case TimedOut => Expired
  }

  /** Submit returns that decision, at once to a key that has become trusted or at the end of the wait. */
  predicate Returns(s: State, step: Step, decision: Decision)
    requires Enabled(s, step)
  {
    match step
    case Submit(link) =>
      var key := Trim(s.peers[link].conn.identity.value.fingerprint);
      key != "" && key in s.hosts && decision == AllowForever
    case Wake(link, cause) => decision == DecisionOf(s, link, cause)
    case _ => false
  }

  function WakeStep(s: State, link: Link, cause: Cause): State
    requires Enabled(s, Wake(link, cause))
  {
    var peer := s.peers[link];
    var request := peer.stage.request;
    var decision := DecisionOf(s, link, cause);
    var (conn, outcome) := AfterDecision(peer.conn, decision);
    s.(peers := s.peers[link := Peer(conn, StageAfter(outcome))], pending := s.pending - {request},
       log := if decision.Allows() && cause.Result?
         then s.log + [LetThrough(link, peer.conn.identity.value.fingerprint, Decided(request))] else s.log)
  }

  /** Decide, up to the channel: a key allowed forever is trusted even when it cannot be saved, but
      then nothing is delivered. */
  function DecideStep(s: State, request: Request, decision: Decision, saved: bool): State
    requires request < |s.waiters|
  {
    var hosts := if decision.AllowForever? then s.hosts + {s.waiters[request].fingerprint} else s.hosts;
    s.(hosts := hosts, issued := if decision.AllowForever? && !saved then s.issued else s.issued + {(request, decision)})
  }

  /** The channel holds one decision; sending to a full one does nothing. */
  function Delivered(waiters: seq<Waiter>, request: Request, decision: Decision): seq<Waiter>
    requires request < |waiters|
  {
    if waiters[request].result.Some? then waiters
    else waiters[request := waiters[request].(result := Some(decision))]
  }

  function DeliverStep(s: State, request: Request, decision: Decision): State
    requires request < |s.waiters|
  {
    s.(waiters := Delivered(s.waiters, request, decision))
  }

  function Apply(s: State, step: Step, verify: Verify): State
    requires Enabled(s, step)
  {
    match step
    case Connect(off) => s.(peers := s.peers + [Peer(NewConn(off), Running)])
    case Receive(link, frame) => ReceiveStep(s, link, frame, verify)
    case Submit(link) => SubmitStep(s, link)
    case Wake(link, cause) => WakeStep(s, link, cause)
    case Decide(request, decision, saved) => DecideStep(s, request, decision, saved)
    case Deliver(request, decision) => DeliverStep(s, request, decision)
    case Revoke(fingerprint) => s.(hosts := s.hosts - {fingerprint})
  }

  // ---------- what every step keeps ----------

  /** The key a connection presented was let through on good grounds. */
  predicate LetThroughSoundly(s: State, e: Event)
    requires e.LetThrough?
  {
    && e.link < |s.peers|
    && match e.grounds
       case HostAuthOff => s.peers[e.link].conn.hostAuthOff
       case Trusted(hosts) => Trim(e.fingerprint) in hosts
       case Decided(request) =>
         && request < |s.waiters| && s.waiters[request].link == e.link
         && s.waiters[request].fingerprint == Trim(e.fingerprint)
         && s.waiters[request].result.Some? && s.waiters[request].result.value.Allows()
  }

  ghost predicate EventSound(s: State, e: Event, verify: Verify) {
    match e
    case LetThrough(_, _, _) => LetThroughSoundly(s, e)
    case Verified(_, publicKey, token, signature, authType) => verify(publicKey, token, signature, authType)
    case _ => true
  }

  ghost predicate HasLetThrough(s: State, link: Link, fingerprint: string) {
    exists e <- s.log :: e.LetThrough? && e.link == link && e.fingerprint == fingerprint
  }

  ghost predicate HasVerified(log: seq<Event>, link: Link, publicKey: string, token: Token) {
    exists e <- log :: e.Verified? && e.link == link && e.publicKey == publicKey && e.token == token
  }

  ghost predicate PeerSound(s: State, link: Link)
    requires link < |s.peers|
  {
    var c, stage := s.peers[link].conn, s.peers[link].stage;
    && (c.phase.Start? <==> c.token.None?)
    && (c.token.Some? ==> Challenged(link, c.token.value) in s.log && c.token.value < s.nextToken)
    && (c.accepted <==> c.phase.Done?)
    && (c.phase.WaitSignature? || c.phase.Done? ==>
          c.identity.Some? && HasLetThrough(s, link, c.identity.value.fingerprint))
    && (c.accepted ==> HasVerified(s.log, link, c.identity.value.publicKey, c.token.value))
    && (stage.Submitting? || stage.Waiting? ==> c.phase.WaitPubkey? && c.identity.Some?)
    && (stage.Waiting? ==>
          && stage.request < |s.waiters| && s.waiters[stage.request].link == link
          && s.waiters[stage.request].fingerprint == Trim(c.identity.value.fingerprint))
  }

  /** No frame was handed on before its connection's token was verified. */
  ghost predicate DispatchedAfterwards(log: seq<Event>) {
    forall k | 0 <= k < |log| && log[k].Dispatched? && !log[k].family.Kernel? ::
      exists j | 0 <= j < k :: log[j].Verified? && log[j].link == log[k].link
  }

  ghost predicate OwnTokens(s: State) {
    forall i, j | 0 <= i < j < |s.peers| && s.peers[i].conn.token.Some? :: s.peers[i].conn.token != s.peers[j].conn.token
  }

  ghost predicate Inv(s: State, verify: Verify) {
    && (forall link | 0 <= link < |s.peers| :: PeerSound(s, link))
    && (forall e <- s.log :: EventSound(s, e, verify))
    && DispatchedAfterwards(s.log) && OwnTokens(s)
  }

  /** What never changes, or only by growing. */
  ghost predicate Grows(s: State, next: State) {
    && |s.peers| <= |next.peers| && |s.waiters| <= |next.waiters| && s.nextToken <= next.nextToken
    && (forall i | 0 <= i < |s.peers| :: next.peers[i].conn.hostAuthOff == s.peers[i].conn.hostAuthOff)
    && (forall i | 0 <= i < |s.waiters| ::
          && next.waiters[i].link == s.waiters[i].link && next.waiters[i].fingerprint == s.waiters[i].fingerprint
          && (s.waiters[i].result.Some? ==> next.waiters[i].result == s.waiters[i].result))
    && (forall e | e in s.log :: e in next.log)
  }

  lemma GrowsKeepsEvent(s: State, next: State, e: Event, verify: Verify)
    requires Grows(s, next) && EventSound(s, e, verify)
    ensures EventSound(next, e, verify)
  {
  }

  lemma GrowsKeepsPeer(s: State, next: State, link: Link)
    requires Grows(s, next) && link < |s.peers| && PeerSound(s, link) && next.peers[link] == s.peers[link]
    ensures PeerSound(next, link)
  {
    var c := s.peers[link].conn;
    if c.phase.WaitSignature? || c.phase.Done? {
      var e :| e in s.log && e.LetThrough? && e.link == link && e.fingerprint == c.identity.value.fingerprint;
      assert e in next.log;
    }
    if c.accepted {
      var e :| e in s.log && e.Verified? && e.link == link && e.publicKey == c.identity.value.publicKey && e.token == c.token.value;
      assert e in next.log;
    }
  }

  /** A step on one connection that adds events: what is left to see is that connection and those events. */
  lemma StepKeeps(s: State, next: State, link: Link, added: seq<Event>, verify: Verify)
    requires Inv(s, verify) && Grows(s, next) && next.log == s.log + added
    requires |next.peers| == |s.peers| && link < |s.peers|
    requires forall i | 0 <= i < |s.peers| && i != link :: next.peers[i] == s.peers[i]
    requires PeerSound(next, link) && (forall e <- added :: EventSound(next, e, verify))
    requires next.peers[link].conn.token in {s.peers[link].conn.token, Some(s.nextToken)}
    requires DispatchedAfterwards(next.log)
    ensures Inv(next, verify)
  {
    forall i | 0 <= i < |next.peers| ensures PeerSound(next, i) {
      if i != link { GrowsKeepsPeer(s, next, i); }
    }
    forall e | e in next.log ensures EventSound(next, e, verify) {
      if e in s.log { GrowsKeepsEvent(s, next, e, verify); }
    }
    forall i, j | 0 <= i < j < |next.peers| && next.peers[i].conn.token.Some?
      ensures next.peers[i].conn.token != next.peers[j].conn.token
    {
      assert PeerSound(s, i) && PeerSound(s, j);
    }
  }

  lemma NothingDispatched(log: seq<Event>, added: seq<Event>)
    requires DispatchedAfterwards(log) && forall e <- added :: !e.Dispatched? || e.family.Kernel?
    ensures DispatchedAfterwards(log + added)
  {
    var all := log + added;
    assert forall i | 0 <= i < |added| :: all[|log| + i] == added[i] && added[i] in added;
    forall k | 0 <= k < |log| && log[k].Dispatched? && !log[k].family.Kernel?
      ensures exists j | 0 <= j < k :: all[j].Verified? && all[j].link == all[k].link
    {
      var j :| 0 <= j < k && log[j].Verified? && log[j].link == log[k].link;
      assert all[j] == log[j];
    }
  }

  lemma DispatchedWhenVerified(log: seq<Event>, link: Link, family: Family, publicKey: string, token: Token)
    requires DispatchedAfterwards(log) && HasVerified(log, link, publicKey, token)
    ensures DispatchedAfterwards(log + [Dispatched(link, family)])
  {
    var all := log + [Dispatched(link, family)];
    forall k | 0 <= k < |all| && all[k].Dispatched? && !all[k].family.Kernel?
      ensures exists j | 0 <= j < k :: all[j].Verified? && all[j].link == all[k].link
    {
      if k < |log| {
        var j :| 0 <= j < k && log[j].Verified? && log[j].link == log[k].link;
        assert all[j] == log[j];
      } else {
        var e :| e in log && e.Verified? && e.link == link && e.publicKey == publicKey && e.token == token;
        var j :| 0 <= j < |log| && log[j] == e;
        assert all[j] == e;
      }
    }
  }

  lemma ReceiveKeeps(s: State, link: Link, frame: Frame, verify: Verify)
    requires Inv(s, verify) && link < |s.peers| && s.peers[link].stage.Running?
    ensures Inv(ReceiveStep(s, link, frame, verify), verify) && Grows(s, ReceiveStep(s, link, frame, verify))
  {
    var next := ReceiveStep(s, link, frame, verify);
    var before := s.peers[link].conn;
    var (after, outcome) := Route(before, frame, s.hosts, s.nextToken, verify);
    var added := EventsOf(link, before, after, outcome, s.hosts, frame);
    assert PeerSound(s, link);
    assert forall e <- added :: e == added[0] && e in next.log;
    if outcome.Dispatch? && !outcome.family.Kernel? {
      DispatchedWhenVerified(s.log, link, outcome.family, before.identity.value.publicKey, before.token.value);
    } else {
      NothingDispatched(s.log, added);
    }
    ReceivePeer(s, link, frame, verify);
    StepKeeps(s, next, link, added, verify);
  }

  lemma ReceivePeer(s: State, link: Link, frame: Frame, verify: Verify)
    requires link < |s.peers| && s.peers[link].stage.Running? && PeerSound(s, link)
    ensures var next := ReceiveStep(s, link, frame, verify); Grows(s, next) && PeerSound(next, link)
  {
  }

  lemma SubmitKeeps(s: State, link: Link, verify: Verify)
    requires Inv(s, verify) && Enabled(s, Submit(link))
    ensures Inv(SubmitStep(s, link), verify) && Grows(s, SubmitStep(s, link))
  {
    var next := SubmitStep(s, link);
    var c := s.peers[link].conn;
    assert PeerSound(s, link);
    var fingerprint := Trim(c.identity.value.fingerprint);
    var added :=
      if fingerprint != "" && fingerprint in s.hosts
      then [LetThrough(link, c.identity.value.fingerprint, Trusted(s.hosts))] else [];
    assert s.log + [] == s.log;
    assert forall e <- added :: e == added[0] && e in next.log;
    NothingDispatched(s.log, added);
    SubmitPeer(s, link);
    StepKeeps(s, next, link, added, verify);
  }

  lemma SubmitPeer(s: State, link: Link)
    requires Enabled(s, Submit(link)) && PeerSound(s, link)
    ensures Grows(s, SubmitStep(s, link)) && PeerSound(SubmitStep(s, link), link)
  {
    var c := s.peers[link].conn;
    var next := SubmitStep(s, link);
    var e := LetThrough(link, c.identity.value.fingerprint, Trusted(s.hosts));
    assert Trim(c.identity.value.fingerprint) in s.hosts && Trim(c.identity.value.fingerprint) != "" ==> e in next.log;
  }

  lemma WakeKeeps(s: State, link: Link, cause: Cause, verify: Verify)
    requires Inv(s, verify) && Enabled(s, Wake(link, cause))
    ensures Inv(WakeStep(s, link, cause), verify) && Grows(s, WakeStep(s, link, cause))
  {
    var next := WakeStep(s, link, cause);
    var c, request := s.peers[link].conn, s.peers[link].stage.request;
    assert PeerSound(s, link);
    var added :=
      if cause.Result? && s.waiters[request].result.value.Allows()
      then [LetThrough(link, c.identity.value.fingerprint, Decided(request))] else [];
    assert s.log + [] == s.log;
    assert forall e <- added :: e == added[0] && e in next.log;
    NothingDispatched(s.log, added);
    WakePeer(s, link, cause);
    StepKeeps(s, next, link, added, verify);
  }

  lemma WakePeer(s: State, link: Link, cause: Cause)
    requires Enabled(s, Wake(link, cause)) && PeerSound(s, link)
    ensures Grows(s, WakeStep(s, link, cause)) && PeerSound(WakeStep(s, link, cause), link)
  {
    var c, request := s.peers[link].conn, s.peers[link].stage.request;
    var e := LetThrough(link, c.identity.value.fingerprint, Decided(request));
    assert cause.Result? && s.waiters[request].result.value.Allows() ==> e in WakeStep(s, link, cause).log;
  }

  /** Steps of the registry touch no connection and log nothing. */
  lemma RegistryKeeps(s: State, next: State, verify: Verify)
    requires Inv(s, verify) && Grows(s, next) && next.log == s.log
    requires |next.peers| >= |s.peers| && next.peers[..|s.peers|] == s.peers
    requires forall i | |s.peers| <= i < |next.peers| :: PeerSound(next, i) && next.peers[i].conn.token.None?
    ensures Inv(next, verify)
  {
    assert forall i | 0 <= i < |s.peers| :: next.peers[i] == next.peers[..|s.peers|][i];
    forall i | 0 <= i < |next.peers| ensures PeerSound(next, i) {
      if i < |s.peers| { GrowsKeepsPeer(s, next, i); }
    }
    forall e | e in next.log ensures EventSound(next, e, verify) { GrowsKeepsEvent(s, next, e, verify); }
  }

  lemma StepKeepsInv(s: State, step: Step, verify: Verify)
    requires Inv(s, verify) && Enabled(s, step)
    ensures Inv(Apply(s, step, verify), verify) && Grows(s, Apply(s, step, verify))
  {
    match step
    case Receive(link, frame) => ReceiveKeeps(s, link, frame, verify);
    case Submit(link) => SubmitKeeps(s, link, verify);
    case Wake(link, cause) => WakeKeeps(s, link, cause, verify);
    case _ => RegistryKeeps(s, Apply(s, step, verify), verify);
  }

  // ---------- whole runs ----------

  function Initial(hosts: set<string>): State {
    State([], hosts, [], {}, {}, 0, [])
  }

  function Run(s: State, steps: seq<Step>, verify: Verify): Option<State> {
    if |steps| == 0 then Some(s)
    else
      match Run(s, steps[..|steps| - 1], verify)
      case None => None
      case Some(before) =>
        var last := steps[|steps| - 1];
        if Enabled(before, last) then Some(Apply(before, last, verify)) else None
  }

  lemma {:induction false} RunKeepsInv(s: State, steps: seq<Step>, verify: Verify)
    requires Inv(s, verify) && Run(s, steps, verify).Some?
    ensures Inv(Run(s, steps, verify).value, verify) && Grows(s, Run(s, steps, verify).value)
    decreases |steps|
  {
    if |steps| > 0 {
      var front := steps[..|steps| - 1];
      RunKeepsInv(s, front, verify);
      StepKeepsInv(Run(s, front, verify).value, steps[|steps| - 1], verify);
    }
  }

  /** The key of a connection was let through: host authentication was off, the key was trusted at that
      moment, or the connection's own request for that key was allowed. */
  ghost predicate WasLetThrough(s: State, link: Link, fingerprint: string) {
    exists e <- s.log :: e.LetThrough? && e.link == link && e.fingerprint == fingerprint && LetThroughSoundly(s, e)
  }

  ghost predicate TokenVerified(s: State, link: Link, publicKey: string, token: Token, verify: Verify) {
    exists e <- s.log ::
      && e.Verified? && e.link == link && e.publicKey == publicKey && e.token == token
      && verify(publicKey, token, e.signature, e.authType)
  }

  /** A connection is accepted only when its own token, which no other connection was given, was
      verified under the public key it presented, and that key was let through. */
  lemma AcceptedIsAuthentic(hosts: set<string>, steps: seq<Step>, verify: Verify, s: State, link: Link)
    requires Run(Initial(hosts), steps, verify) == Some(s)
    requires link < |s.peers| && s.peers[link].conn.accepted
    ensures var c := s.peers[link].conn;
      && c.token.Some? && c.identity.Some?
      && Challenged(link, c.token.value) in s.log
      && (forall other | 0 <= other < |s.peers| && other != link :: s.peers[other].conn.token != c.token)
      && TokenVerified(s, link, c.identity.value.publicKey, c.token.value, verify)
      && WasLetThrough(s, link, c.identity.value.fingerprint)
  {
    RunKeepsInv(Initial(hosts), steps, verify);
    assert PeerSound(s, link);
  }

  /** Nothing but kernel frames is handed on before that. */
  lemma NothingBeforeAcceptance(hosts: set<string>, steps: seq<Step>, verify: Verify, s: State, k: nat)
    requires Run(Initial(hosts), steps, verify) == Some(s)
    requires k < |s.log| && s.log[k].Dispatched? && !s.log[k].family.Kernel?
    ensures exists j | 0 <= j < k :: s.log[j].Verified? && s.log[j].link == s.log[k].link
  {
    RunKeepsInv(Initial(hosts), steps, verify);
  }

  /** A step added the event, when the trusted hosts were those it notes and its key was one of them. */
  ghost predicate TrustedAt(start: State, steps: seq<Step>, verify: Verify, k: nat, e: Event)
    requires k < |steps| && e.LetThrough? && e.grounds.Trusted?
  {
    var before := Run(start, steps[..k], verify);
    && before.Some? && e !in before.value.log
    && e.grounds.hosts == before.value.hosts && Trim(e.fingerprint) in before.value.hosts
    && (steps[k] == Submit(e.link) || (steps[k].Receive? && steps[k].link == e.link))
  }

  lemma TrustedNow(s: State, step: Step, verify: Verify, e: Event)
    requires Inv(s, verify) && Enabled(s, step)
    requires e in Apply(s, step, verify).log && e !in s.log && e.LetThrough? && e.grounds.Trusted?
    ensures e.grounds.hosts == s.hosts && Trim(e.fingerprint) in s.hosts
    ensures step == Submit(e.link) || (step.Receive? && step.link == e.link)
  {
    StepKeepsInv(s, step, verify);
    assert EventSound(Apply(s, step, verify), e, verify);
  }

  /** In any run, a key that is let through as trusted is trusted at the very step that lets it through. */
  lemma {:induction false} TrustIsOfTheMoment(start: State, steps: seq<Step>, verify: Verify, e: Event)
    requires Inv(start, verify) && Run(start, steps, verify).Some? && e in Run(start, steps, verify).value.log
    requires e !in start.log && e.LetThrough? && e.grounds.Trusted?
    ensures exists k: nat :: k < |steps| && TrustedAt(start, steps, verify, k, e)
    decreases |steps|
  {
    var n := |steps| - 1;
    var front := steps[..n];
    var before := Run(start, front, verify).value;
    RunKeepsInv(start, front, verify);
    if e in before.log {
      TrustIsOfTheMoment(start, front, verify, e);
      var k: nat :| k < |front| && TrustedAt(start, front, verify, k, e);
      assert front[..k] == steps[..k];
      assert TrustedAt(start, steps, verify, k, e);
    } else {
      TrustedNow(before, steps[n], verify, e);
      assert TrustedAt(start, steps, verify, n, e);
    }
  }

  /** One of the steps allows that key forever. */
  ghost predicate AllowedForever(steps: seq<Step>, waiters: seq<Waiter>, key: string) {
    exists k :: 0 <= k < |steps| && steps[k].Decide? && steps[k].decision.AllowForever?
      && steps[k].request < |waiters| && waiters[steps[k].request].fingerprint == key
  }

  /** A key that is not trusted becomes so only by being allowed forever. */
  lemma {:induction false} TrustIsGiven(s: State, steps: seq<Step>, verify: Verify, key: string)
    requires Inv(s, verify) && Run(s, steps, verify).Some? && key !in s.hosts
    requires key in Run(s, steps, verify).value.hosts
    ensures AllowedForever(steps, Run(s, steps, verify).value.waiters, key)
    decreases |steps|
  {
    var n := |steps| - 1;
    var front := steps[..n];
    var before, after := Run(s, front, verify).value, Run(s, steps, verify).value;
    RunKeepsInv(s, front, verify);
    StepKeepsInv(before, steps[n], verify);
    if key in before.hosts {
      TrustIsGiven(s, front, verify, key);
      MoreSteps(front, before, steps, after, key);
    } else {
      assert steps[n].Decide?;
    }
  }

  lemma MoreSteps(front: seq<Step>, before: State, steps: seq<Step>, after: State, key: string)
    requires AllowedForever(front, before.waiters, key) && front <= steps && Grows(before, after)
    ensures AllowedForever(steps, after.waiters, key)
  {
    var k :| 0 <= k < |front| && front[k].Decide? && front[k].decision.AllowForever?
      && front[k].request < |before.waiters| && before.waiters[front[k].request].fingerprint == key;
    assert steps[k] == front[k];
  }

  /** A key that is not trusted, or no longer, is let through as trusted only after it has been allowed
      forever since. */
  lemma RevokedStaysOut(hosts: set<string>, steps: seq<Step>, more: seq<Step>, verify: Verify, s: State, end: State, e: Event)
    requires Run(Initial(hosts), steps, verify) == Some(s) && Run(s, more, verify) == Some(end)
    requires e in end.log && e !in s.log && e.LetThrough? && e.grounds.Trusted? && Trim(e.fingerprint) !in s.hosts
    ensures AllowedForever(more, end.waiters, Trim(e.fingerprint))
  {
    RunKeepsInv(Initial(hosts), steps, verify);
    TrustIsOfTheMoment(s, more, verify, e);
    var k: nat :| k < |more| && TrustedAt(s, more, verify, k, e);
    var trusted := Run(s, more[..k], verify).value;
    TrustIsGiven(s, more[..k], verify, Trim(e.fingerprint));
    RunKeepsInv(s, more[..k], verify);
    RunGrows(s, more, k, verify);
    MoreSteps(more[..k], trusted, more, end, Trim(e.fingerprint));
  }

  /** What grows goes on growing. */
  lemma {:induction false} RunGrows(s: State, steps: seq<Step>, k: nat, verify: Verify)
    requires Inv(s, verify) && k <= |steps| && Run(s, steps, verify).Some?
    ensures Run(s, steps[..k], verify).Some? && Grows(Run(s, steps[..k], verify).value, Run(s, steps, verify).value)
    decreases |steps|
  {
    if k == |steps| {
      assert steps[..k] == steps;
    } else {
      var front := steps[..|steps| - 1];
      assert front[..k] == steps[..k];
      RunGrows(s, front, k, verify);
      RunKeepsInv(s, front, verify);
      StepKeepsInv(Run(s, front, verify).value, steps[|steps| - 1], verify);
    }
  }

  /** A decision that has been delivered is never replaced. */
  lemma DecisionStands(hosts: set<string>, steps: seq<Step>, more: seq<Step>, verify: Verify, s: State, end: State, request: Request)
    requires Run(Initial(hosts), steps, verify) == Some(s) && Run(s, more, verify) == Some(end)
    requires request < |s.waiters| && s.waiters[request].result.Some?
    ensures request < |end.waiters| && end.waiters[request].result == s.waiters[request].result
  {
    RunKeepsInv(Initial(hosts), steps, verify);
    RunKeepsInv(s, more, verify);
  }

  // ---------- the registry as it is ----------

  predicate FingerprintMatch(stored: string, selector: string) {
    stored != "" && selector != "" && selector <= stored
  }

  /** By the whole key or a beginning of it. */
  lemma MatchIsBeginning(stored: string, selector: string)
    ensures FingerprintMatch(stored, selector) <==>
      0 < |selector| <= |stored| && forall i | 0 <= i < |selector| :: stored[i] == selector[i]
  {
  }

  /** Trusted hosts and pending requests; every lock-held region is a method. */
  class HostRegistry {
    var hosts: set<string>
    var waiters: seq<Waiter>
    var pending: set<Request>

    constructor (hosts: set<string>)
      ensures this.hosts == hosts && waiters == [] && pending == {}
    {
      this.hosts, waiters, pending := hosts, [], {};
    }

    predicate Valid()
      reads this
    {
      forall r | r in pending :: r < |waiters|
    }

    /** Submit up to the wait: allowed at once, or a request whose channel is still empty. */
    method Submit(link: Link, fingerprint: string) returns (allowed: bool, request: Option<Request>)
      requires Valid()
      modifies this
      ensures Valid() && hosts == old(hosts)
      ensures allowed <==> Trim(fingerprint) != "" && Trim(fingerprint) in hosts
      ensures request.Some? <==> Trim(fingerprint) != "" && Trim(fingerprint) !in hosts
      ensures request.Some? ==>
        && request.value == |old(waiters)| && waiters == old(waiters) + [Waiter(link, Trim(fingerprint), None)]
        && pending == old(pending) + {request.value}
      ensures request.None? ==> waiters == old(waiters) && pending == old(pending)
    {
      var key := Trim(fingerprint);
      if key == "" { return false, None; }
      if key in hosts { return true, None; }
      request := Some(|waiters|);
      waiters, pending := waiters + [Waiter(link, key, None)], pending + {|waiters|};
      allowed := false;
    }

    /** Decide up to the channel, for the pending request of that id, else for one whose key matches. */
    method Decide(byId: Option<Request>, selector: string, decision: Decision) returns (found: Option<Request>)
      requires Valid() && (byId.Some? ==> byId.value in pending)
      modifies this
      ensures Valid() && waiters == old(waiters) && pending == old(pending)
      ensures found.Some? ==>
        && found.value in pending
        && (found == byId || (byId.None? && FingerprintMatch(waiters[found.value].fingerprint, Trim(selector))))
      ensures found.None? <==>
        Trim(selector) == "" || decision.Expired?
        || (byId.None? && forall r | r in pending :: !FingerprintMatch(waiters[r].fingerprint, Trim(selector)))
      ensures hosts ==
        if found.Some? && decision.AllowForever? then old(hosts) + {waiters[found.value].fingerprint} else old(hosts)
    {
      var text := Trim(selector);
      if text == "" || decision.Expired? { return None; }
      found := byId;
      if found.None? {
        var todo := pending;
        while todo != {}
          invariant todo <= pending && found.None?
          invariant forall r | r in pending && r !in todo :: !FingerprintMatch(waiters[r].fingerprint, text)
          decreases todo
        {
          var r :| r in todo;
          if FingerprintMatch(waiters[r].fingerprint, text) {
            found := Some(r);
            break;
          }
          todo := todo - {r};
        }
      }
      if found.Some? && decision.AllowForever? {
        hosts := hosts + {waiters[found.value].fingerprint};
      }
    }

    /** The non-blocking send to a channel that holds one decision. */
    method Deliver(request: Request, decision: Decision)
      requires Valid() && request < |waiters|
      modifies this`waiters
      ensures Valid() && waiters == Delivered(old(waiters), request, decision)
    {
      if waiters[request].result.None? {
        waiters := waiters[request := waiters[request].(result := Some(decision))];
      }
    }

    /** Revoke: that very key, else the only one it is a prefix of. */
    method Revoke(fingerprint: string) returns (revoked: Option<string>)
      modifies this`hosts
      ensures revoked.Some? ==>
        && revoked.value in old(hosts) && hosts == old(hosts) - {revoked.value}
        && (revoked.value == Trim(fingerprint)
            || (FingerprintMatch(revoked.value, Trim(fingerprint)) && Trim(fingerprint) !in old(hosts)
                && forall h | h in old(hosts) && FingerprintMatch(h, Trim(fingerprint)) :: h == revoked.value))
      ensures revoked.None? ==>
        && hosts == old(hosts) && Trim(fingerprint) !in hosts
        && ((forall h | h in hosts :: !FingerprintMatch(h, Trim(fingerprint)))
            || exists g, h | g in hosts && h in hosts && g != h ::
                 FingerprintMatch(g, Trim(fingerprint)) && FingerprintMatch(h, Trim(fingerprint)))
    {
      var key := Trim(fingerprint);
      if key in hosts {
        revoked := Some(key);
      } else {
        revoked := None;
        var todo := hosts;
        while todo != {}
          invariant todo <= hosts && hosts == old(hosts)
          invariant revoked.Some? ==>
            revoked.value in hosts && revoked.value !in todo && FingerprintMatch(revoked.value, key)
          invariant forall h | h in hosts && h !in todo && FingerprintMatch(h, key) :: revoked == Some(h)
          decreases todo
        {
          var h :| h in todo;
          todo := todo - {h};
          if FingerprintMatch(h, key) {
            if revoked.Some? { return None; }
            revoked := Some(h);
          }
        }
      }
      if revoked.Some? {
        hosts := hosts - {revoked.value};
      }
    }
  }
}
