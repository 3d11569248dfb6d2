/** Leases, bindings and listeners (internal/remote/manager.go, ports.go and the listener table of
    internal/gateway/gateway.go) as a transition system: every lock-held region is a step, and steps
    of any number of callers interleave. */
module Lease {
  import opened Text
  import Ports

  type Device = string
  type BindingId = nat
  type LeaseId = nat
  type Listener = nat
  type Task = nat

  datatype BindingStatus = Reserved | Listening | Frozen

  datatype Binding = Binding(id: BindingId, device: Device, port: int, status: BindingStatus)

  datatype LeaseStatus = Active | Releasing

  datatype Lease = Lease(
    id: LeaseId, device: Device, binding: BindingId, owner: string, status: LeaseStatus, expiresAt: int, connections: nat)

  /** What a listener admits by. */
  datatype Grant = Grant(lease: LeaseId, binding: BindingId, expiresAt: int)

  /** A listener in the gateway's table: the object, and the lease it was bound for. */
  datatype Entry = Entry(listener: Listener, boundBy: LeaseId)

  /** How far the one operation on a device in flight has got. */
  datatype Stage =
    | Allocating(second: bool)
    | Probing(port: int, second: bool)
    | Retrying
    | HasPort(port: int)
    | Saving(binding: BindingId)
    | Rollback(port: int)
    | ToBind(binding: BindingId)
    | InBind(lease: Lease)
    | ToCommit(lease: Lease)
    | ToUnbind(released: LeaseId, binding: BindingId)
    | Unbound(released: LeaseId)
    | Done

  /** A renewal on its way to the listener. */
  datatype Renewal = ToLookup(grant: Grant) | ToApply(listener: Listener, grant: Grant)

  datatype State = State(
    bindingsByDevice: map<Device, Binding>, bindingsById: map<BindingId, Binding>,
    leasesByDevice: map<Device, Lease>, leasesById: map<LeaseId, Lease>,
    ops: map<Device, Stage>, pool: Ports.Pool,
    listeners: map<BindingId, Entry>, grants: map<Listener, Grant>, renewals: map<Task, Renewal>,
    nextBinding: BindingId, nextLease: LeaseId, nextListener: Listener, nextTask: Task)

  // ---------- steps ----------

  datatype Step =
    | StartAcquire(device: Device)
    | TakePort(device: Device)
    | ProbeEnds(device: Device, free: bool)
    | RoundEnds(device: Device)
    | Retry(device: Device)
    | EnterBinding(device: Device)
    | SaveEnds(device: Device, saved: bool)
    | FreePort(device: Device)
    | BindCheck(device: Device, owner: string, expiresAt: int)
    | BindInsert(device: Device, listening: bool)
    | Commit(device: Device)
    | Finish(device: Device)
    | StartRelease(lease: LeaseId)
    | Unbind(device: Device)
    | DeleteLease(device: Device, status: BindingStatus)
    | Renew(device: Device, expiresAt: int)
    | FindListener(task: Task)
    | UpdateGrant(task: Task)
    | ConnectionOpened(lease: LeaseId)
    | ConnectionClosed(lease: LeaseId)
    | Reconcile(device: Device, status: BindingStatus)

  /** The stage of the operation on a device, if one is in flight. */
  function StageOf(s: State, device: Device): Option<Stage> {
    if device in s.ops then Some(s.ops[device]) else None
  }

  predicate Enabled(s: State, step: Step) {
    match step
    case StartAcquire(d) => d !in s.ops && !(d in s.leasesByDevice && s.leasesByDevice[d].status.Active?)
    case TakePort(d) => d in s.ops && s.ops[d].Allocating? && |s.pool.available| > 0
    case ProbeEnds(d, _) => d in s.ops && s.ops[d].Probing?
    case RoundEnds(d) => d in s.ops && s.ops[d].Allocating? && |s.pool.available| == 0
    case Retry(d) => d in s.ops && s.ops[d].Retrying?
    case EnterBinding(d) => d in s.ops && s.ops[d].HasPort?
    case SaveEnds(d, _) => d in s.ops && s.ops[d].Saving? && d in s.bindingsByDevice
    case FreePort(d) => d in s.ops && s.ops[d].Rollback?
    case BindCheck(d, _, _) => d in s.ops && s.ops[d].ToBind?
    case BindInsert(d, _) => d in s.ops && s.ops[d].InBind?
    case Commit(d) => d in s.ops && s.ops[d].ToCommit? && d in s.bindingsByDevice
    case Finish(d) => d in s.ops && s.ops[d].Done?
    case StartRelease(l) => l in s.leasesById && s.leasesById[l].device !in s.ops
    case Unbind(d) => d in s.ops && s.ops[d].ToUnbind?
    case DeleteLease(d, status) =>
      d in s.ops && s.ops[d].Unbound? && d in s.leasesByDevice && d in s.bindingsByDevice && !status.Listening?
    case Renew(d, _) => d !in s.ops && d in s.leasesByDevice && s.leasesByDevice[d].status.Active?
    case FindListener(t) => t in s.renewals && s.renewals[t].ToLookup?
    case UpdateGrant(t) => t in s.renewals && s.renewals[t].ToApply?
    case ConnectionOpened(l) => l in s.leasesById && s.leasesById[l].status.Active?
    case ConnectionClosed(l) => l in s.leasesById
    case Reconcile(d, status) => d in s.bindingsByDevice && d !in s.leasesByDevice && !status.Listening?
  }

  function GrantOf(l: Lease): Grant {
    Grant(l.id, l.binding, l.expiresAt)
  }

  /** Acquire up to the in-flight mark: a device that is neither busy nor leased. */
  function StartAcquireStep(s: State, d: Device): State
    requires d !in s.ops && !(d in s.leasesByDevice && s.leasesByDevice[d].status.Active?)
  {
    s.(ops := s.ops[d := if d in s.bindingsByDevice then ToBind(s.bindingsByDevice[d].id) else Allocating(false)])
  }

  /** allocateOnce takes a port before probing it. */
  function TakePortStep(s: State, d: Device): State
    requires d in s.ops && s.ops[d].Allocating? && |s.pool.available| > 0
  {
    s.(ops := s.ops[d := Probing(s.pool.available[0], s.ops[d].second)], pool := s.pool.TakeFirst())
  }

  /** A port that cannot be listened on is blocked. */
  function ProbeEndsStep(s: State, d: Device, free: bool): State
    requires d in s.ops && s.ops[d].Probing?
  {
    s.(ops := s.ops[d := if free then HasPort(s.ops[d].port) else Allocating(s.ops[d].second)],
       pool := if free then s.pool else s.pool.Block(s.ops[d].port))
  }

  /** allocateOnce has run out of ports. */
  function RoundEndsStep(s: State, d: Device): State
    requires d in s.ops && s.ops[d].Allocating? && |s.pool.available| == 0
  {
    s.(ops := s.ops[d := if s.ops[d].second then Done else Retrying])
  }

  /** allocate puts the blocked ports back for a second round. */
  function RetryStep(s: State, d: Device): State
    requires d in s.ops && s.ops[d].Retrying?
  {
    var retryable := s.pool.blocked != {} || |s.pool.available| > 0;
    s.(ops := s.ops[d := if retryable then Allocating(true) else Done], pool := if retryable then s.pool.Recycle() else s.pool)
  }

  /** createBinding enters the new binding in both maps before saving. */
  function EnterBindingStep(s: State, d: Device): State
    requires d in s.ops && s.ops[d].HasPort?
  {
    var b := Binding(s.nextBinding, d, s.ops[d].port, Reserved);
    s.(ops := s.ops[d := Saving(b.id)], nextBinding := s.nextBinding + 1,
       bindingsByDevice := s.bindingsByDevice[d := b], bindingsById := s.bindingsById[b.id := b])
  }

  /** A binding that could not be saved is taken out again. */
  function SaveEndsStep(s: State, d: Device, saved: bool): State
    requires d in s.ops && s.ops[d].Saving? && d in s.bindingsByDevice
  {
    var id := s.ops[d].binding;
    s.(ops := s.ops[d := if saved then ToBind(id) else Rollback(s.bindingsByDevice[d].port)],
       bindingsByDevice := if saved then s.bindingsByDevice else s.bindingsByDevice - {d},
       bindingsById := if saved then s.bindingsById else s.bindingsById - {id})
  }

  /** and its port released. */
  function FreePortStep(s: State, d: Device): State
    requires d in s.ops && s.ops[d].Rollback?
  {
    s.(ops := s.ops[d := Done], pool := s.pool.Release(s.ops[d].port))
  }

  /** The lease is made, and Bind looks for a listener under its binding. */
  function BindCheckStep(s: State, d: Device, owner: string, expiresAt: int): State
    requires d in s.ops && s.ops[d].ToBind?
  {
    var lease := Lease(s.nextLease, d, s.ops[d].binding, owner, Active, expiresAt, 0);
    s.(ops := s.ops[d := if lease.binding in s.listeners then ToCommit(lease) else InBind(lease)], nextLease := s.nextLease + 1)
  }

  /** Bind enters its listener, or fails to listen. */
  function BindInsertStep(s: State, d: Device, listening: bool): State
    requires d in s.ops && s.ops[d].InBind?
  {
    var lease := s.ops[d].lease;
    var entered := listening && lease.binding !in s.listeners;
    s.(ops := s.ops[d := if listening then ToCommit(lease) else Done],
       listeners := if entered then s.listeners[lease.binding := Entry(s.nextListener, lease.id)] else s.listeners,
       grants := if entered then s.grants[s.nextListener := GrantOf(lease)] else s.grants,
       nextListener := if entered then s.nextListener + 1 else s.nextListener)
  }

  /** Acquire commits the lease and the LISTENING binding. */
  function CommitStep(s: State, d: Device): State
    requires d in s.ops && s.ops[d].ToCommit? && d in s.bindingsByDevice
  {
    var b, l := s.bindingsByDevice[d].(status := Listening), s.ops[d].lease;
    s.(ops := s.ops[d := Done], bindingsByDevice := s.bindingsByDevice[d := b], bindingsById := s.bindingsById[b.id := b],
       leasesByDevice := s.leasesByDevice[d := l], leasesById := s.leasesById[l.id := l])
  }

  /** clearInflight. */
  function FinishStep(s: State, d: Device): State
    requires d in s.ops && s.ops[d].Done?
  {
    s.(ops := s.ops - {d})
  }

  /** releaseLease up to Unbind: the lease is RELEASING and the device busy. */
  function StartReleaseStep(s: State, l: LeaseId): State
    requires l in s.leasesById && s.leasesById[l].device !in s.ops
  {
    var lease := s.leasesById[l].(status := Releasing);
    s.(ops := s.ops[lease.device := ToUnbind(l, lease.binding)],
       leasesByDevice := s.leasesByDevice[lease.device := lease], leasesById := s.leasesById[l := lease])
  }

  /** Unbind takes the listener out of the table, whichever it is. */
  function UnbindStep(s: State, d: Device): State
    requires d in s.ops && s.ops[d].ToUnbind?
  {
    s.(ops := s.ops[d := Unbound(s.ops[d].released)], listeners := s.listeners - {s.ops[d].binding})
  }

  /** releaseLease forgets the lease and sets the binding by what the registry says. */
  function DeleteLeaseStep(s: State, d: Device, status: BindingStatus): State
    requires d in s.ops && s.ops[d].Unbound? && d in s.leasesByDevice && d in s.bindingsByDevice && !status.Listening?
  {
    var b := s.bindingsByDevice[d].(status := status);
    s.(ops := s.ops[d := Done], bindingsByDevice := s.bindingsByDevice[d := b], bindingsById := s.bindingsById[b.id := b],
       leasesById := s.leasesById - {s.ops[d].released},
       leasesByDevice := if s.leasesByDevice[d].id == s.ops[d].released then s.leasesByDevice - {d} else s.leasesByDevice)
  }

  /** The same owner acquires again: both maps get the new expiry, the listener later. */
  function RenewStep(s: State, d: Device, expiresAt: int): State
    requires d !in s.ops && d in s.leasesByDevice && s.leasesByDevice[d].status.Active?
  {
    var lease := s.leasesByDevice[d].(expiresAt := expiresAt);
    s.(leasesByDevice := s.leasesByDevice[d := lease], leasesById := s.leasesById[lease.id := lease],
       renewals := s.renewals[s.nextTask := ToLookup(GrantOf(lease))], nextTask := s.nextTask + 1)
  }

  /** UpdateGrant looks the listener up, */
  function FindListenerStep(s: State, t: Task): State
    requires t in s.renewals && s.renewals[t].ToLookup?
  {
    var grant := s.renewals[t].grant;
    if grant.binding !in s.listeners then s.(renewals := s.renewals - {t})
    else s.(renewals := s.renewals[t := ToApply(s.listeners[grant.binding].listener, grant)])
  }

  /** and then changes the grant of the one it found. */
  function UpdateGrantStep(s: State, t: Task): State
    requires t in s.renewals && s.renewals[t].ToApply?
  {
    s.(grants := s.grants[s.renewals[t].listener := s.renewals[t].grant], renewals := s.renewals - {t})
  }

  /** The gateway reports a connection on an ACTIVE lease, */
  function ConnectionOpenedStep(s: State, l: LeaseId): State
    requires l in s.leasesById && s.leasesById[l].status.Active?
  {
    var lease := s.leasesById[l].(connections := s.leasesById[l].connections + 1);
    s.(leasesByDevice := s.leasesByDevice[lease.device := lease], leasesById := s.leasesById[l := lease])
  }

  /** or its end on any lease still known. */
  function ConnectionClosedStep(s: State, l: LeaseId): State
    requires l in s.leasesById
  {
    var n := s.leasesById[l].connections;
    var lease := s.leasesById[l].(connections := if n > 0 then n - 1 else 0);
    s.(leasesByDevice := s.leasesByDevice[lease.device := lease], leasesById := s.leasesById[l := lease])
  }

  /** reconcileBindings, for one binding without a lease. */
  function ReconcileStep(s: State, d: Device, status: BindingStatus): State
    requires d in s.bindingsByDevice && d !in s.leasesByDevice && !status.Listening?
  {
    var b := s.bindingsByDevice[d].(status := status);
    s.(bindingsByDevice := s.bindingsByDevice[d := b], bindingsById := s.bindingsById[b.id := b])
  }

  function Apply(s: State, step: Step): State
    requires Enabled(s, step)
  {
    match step
    case StartAcquire(d) => StartAcquireStep(s, d)
    case TakePort(d) => TakePortStep(s, d)
    case ProbeEnds(d, free) => ProbeEndsStep(s, d, free)
    case RoundEnds(d) => RoundEndsStep(s, d)
    case Retry(d) => RetryStep(s, d)
    case EnterBinding(d) => EnterBindingStep(s, d)
    case SaveEnds(d, saved) => SaveEndsStep(s, d, saved)
    case FreePort(d) => FreePortStep(s, d)
    case BindCheck(d, owner, expiresAt) => BindCheckStep(s, d, owner, expiresAt)
    case BindInsert(d, listening) => BindInsertStep(s, d, listening)
    case Commit(d) => CommitStep(s, d)
    case Finish(d) => FinishStep(s, d)
    case StartRelease(l) => StartReleaseStep(s, l)
    case Unbind(d) => UnbindStep(s, d)
    case DeleteLease(d, status) => DeleteLeaseStep(s, d, status)
    case Renew(d, expiresAt) => RenewStep(s, d, expiresAt)
    case FindListener(t) => FindListenerStep(s, t)
    case UpdateGrant(t) => UpdateGrantStep(s, t)
    case ConnectionOpened(l) => ConnectionOpenedStep(s, l)
    case ConnectionClosed(l) => ConnectionClosedStep(s, l)
    case Reconcile(d, status) => ReconcileStep(s, d, status)
  }

  // ---------- what every step keeps ----------

  /** The two binding maps hold the same bindings, one a device and one an id. */
  ghost predicate BindingsAgree(s: State) {
    && (forall d | d in s.bindingsByDevice ::
          var b := s.bindingsByDevice[d];
          b.device == d && b.id in s.bindingsById && s.bindingsById[b.id] == b)
    && (forall i | i in s.bindingsById ::
          var b := s.bindingsById[i];
          b.id == i < s.nextBinding && b.device in s.bindingsByDevice && s.bindingsByDevice[b.device] == b)
  }

  /** So do the two lease maps, and a lease is for its device's binding. */
  ghost predicate LeasesAgree(s: State) {
    && (forall d | d in s.leasesByDevice ::
          var l := s.leasesByDevice[d];
          && l.device == d && l.id in s.leasesById && s.leasesById[l.id] == l
          && d in s.bindingsByDevice && s.bindingsByDevice[d].id == l.binding)
    && (forall i | i in s.leasesById ::
          var l := s.leasesById[i];
          l.id == i < s.nextLease && l.device in s.leasesByDevice && s.leasesByDevice[l.device] == l)
    && (forall i | i in s.listeners :: i in s.bindingsById)
  }

  predicate Listens(s: State, d: Device) {
    d in s.bindingsByDevice && s.bindingsByDevice[d].id in s.listeners
  }

  predicate BoundBy(s: State, d: Device, lease: LeaseId) {
    Listens(s, d) && s.listeners[s.bindingsByDevice[d].id].boundBy == lease
  }

  /** A device at rest has a listener exactly when it has its lease, which is then ACTIVE and the one
      the listener was bound for, and its binding is LISTENING. */
  predicate AtRest(s: State, d: Device) {
    if d in s.leasesByDevice then
      && s.leasesByDevice[d].status.Active? && BoundBy(s, d, s.leasesByDevice[d].id)
      && s.bindingsByDevice[d].status.Listening?
    else !Listens(s, d)
  }

  predicate Bare(s: State, d: Device) {
    d !in s.leasesByDevice && !Listens(s, d)
  }

  /** What the operation in flight on a device has left of that. */
  predicate StageSound(s: State, d: Device) {
    match StageOf(s, d)
    case None => AtRest(s, d)
    case Some(Done) => AtRest(s, d)
    case Some(Saving(b)) => Bare(s, d) && d in s.bindingsByDevice && s.bindingsByDevice[d].id == b
    case Some(ToBind(b)) => Bare(s, d) && d in s.bindingsByDevice && s.bindingsByDevice[d].id == b
    case Some(InBind(l)) =>
      && Bare(s, d) && d in s.bindingsByDevice && s.bindingsByDevice[d].id == l.binding
      && l.device == d && l.status.Active? && l.id < s.nextLease && l.id !in s.leasesById
    case Some(ToCommit(l)) =>
      && d !in s.leasesByDevice && BoundBy(s, d, l.id) && s.bindingsByDevice[d].id == l.binding
      && l.device == d && l.status.Active? && l.id < s.nextLease && l.id !in s.leasesById
    case Some(ToUnbind(l, b)) =>
      && d in s.leasesByDevice && s.leasesByDevice[d].id == l && s.leasesByDevice[d].status.Releasing?
      && BoundBy(s, d, l) && s.bindingsByDevice[d].id == b
    case Some(Unbound(l)) =>
      && d in s.leasesByDevice && s.leasesByDevice[d].id == l && s.leasesByDevice[d].status.Releasing?
      && d in s.bindingsByDevice && !Listens(s, d)
    case Some(_) => Bare(s, d) && d !in s.bindingsByDevice
  }

  /** The lease an operation has made but not committed. */
  function PendingLease(s: State, d: Device): Option<LeaseId> {
    match StageOf(s, d)
    case Some(InBind(l)) => Some(l.id)
    case Some(ToCommit(l)) => Some(l.id)
    case _ => None
  }

  ghost predicate PendingDiffer(s: State) {
    forall d, e :: d != e && PendingLease(s, d).Some? ==> PendingLease(s, d) != PendingLease(s, e)
  }

  /** The port a device holds: its binding's, or the one being found or given back for it. */
  function PortOf(s: State, d: Device): Option<int> {
    match StageOf(s, d)
    case Some(Probing(port, _)) => Some(port)
    case Some(HasPort(port)) => Some(port)
    case Some(Rollback(port)) => Some(port)
    case _ => if d in s.bindingsByDevice then Some(s.bindingsByDevice[d].port) else None
  }

  ghost predicate HasHolder(s: State, port: int) {
    exists d :: PortOf(s, d) == Some(port)
  }

  /** Ports of different devices are different, and the reserved ports are exactly those. */
  ghost predicate PortsOwned(s: State) {
    && s.pool.Valid() && s.pool.minPort > 0
    && (forall d :: PortOf(s, d).Some? ==> PortOf(s, d).value in s.pool.reserved)
    && (forall d, e :: d != e && PortOf(s, d).Some? ==> PortOf(s, d) != PortOf(s, e))
    && (forall p | p in s.pool.reserved :: HasHolder(s, p))
  }

  ghost predicate StagesSound(s: State) {
    forall d :: StageSound(s, d)
  }

  ghost predicate Inv(s: State) {
    BindingsAgree(s) && LeasesAgree(s) && StagesSound(s) && PendingDiffer(s) && PortsOwned(s)
  }

  // ---------- bindings ----------

  lemma SameBindings(s: State, next: State)
    requires BindingsAgree(s) && next.nextBinding >= s.nextBinding
    requires next.bindingsByDevice == s.bindingsByDevice && next.bindingsById == s.bindingsById
    ensures BindingsAgree(next)
  {
  }

  lemma StatusBindings(s: State, next: State, d: Device, status: BindingStatus)
    requires BindingsAgree(s) && d in s.bindingsByDevice && next.nextBinding == s.nextBinding
    requires var b := s.bindingsByDevice[d].(status := status);
      next.bindingsByDevice == s.bindingsByDevice[d := b] && next.bindingsById == s.bindingsById[b.id := b]
    ensures BindingsAgree(next)
  {
  }

  lemma NewBinding(s: State, next: State, b: Binding)
    requires BindingsAgree(s) && b.device !in s.bindingsByDevice && b.id == s.nextBinding < next.nextBinding
    requires next.bindingsByDevice == s.bindingsByDevice[b.device := b] && next.bindingsById == s.bindingsById[b.id := b]
    ensures BindingsAgree(next)
  {
  }

  lemma DroppedBinding(s: State, next: State, d: Device)
    requires BindingsAgree(s) && d in s.bindingsByDevice && next.nextBinding == s.nextBinding
    requires next.bindingsByDevice == s.bindingsByDevice - {d}
    requires next.bindingsById == s.bindingsById - {s.bindingsByDevice[d].id}
    ensures BindingsAgree(next)
  {
  }

  // ---------- leases ----------

  lemma SameLeases(s: State, next: State)
    requires LeasesAgree(s) && next.nextLease >= s.nextLease
    requires next.leasesByDevice == s.leasesByDevice && next.leasesById == s.leasesById
    requires forall d | d in s.leasesByDevice ::
      d in next.bindingsByDevice && next.bindingsByDevice[d].id == s.bindingsByDevice[d].id
    requires forall i | i in next.listeners :: i in next.bindingsById
    ensures LeasesAgree(next)
  {
  }

  /** A lease changes, or comes, for a device with a binding. */
  lemma PutLeaseAgrees(s: State, next: State, l: Lease)
    requires LeasesAgree(s) && l.id < next.nextLease && next.nextLease >= s.nextLease
    requires if l.device in s.leasesByDevice then s.leasesByDevice[l.device].id == l.id else l.id !in s.leasesById
    requires next.leasesByDevice == s.leasesByDevice[l.device := l] && next.leasesById == s.leasesById[l.id := l]
    requires forall d | d in s.leasesByDevice ::
      d in next.bindingsByDevice && next.bindingsByDevice[d].id == s.bindingsByDevice[d].id
    requires l.device in next.bindingsByDevice && next.bindingsByDevice[l.device].id == l.binding
    requires forall i | i in next.listeners :: i in next.bindingsById
    ensures LeasesAgree(next)
  {
  }

  lemma DroppedLease(s: State, next: State, d: Device)
    requires LeasesAgree(s) && d in s.leasesByDevice && next.nextLease == s.nextLease
    requires next.leasesByDevice == s.leasesByDevice - {d} && next.leasesById == s.leasesById - {s.leasesByDevice[d].id}
    requires forall e | e in s.leasesByDevice ::
      e in next.bindingsByDevice && next.bindingsByDevice[e].id == s.bindingsByDevice[e].id
    requires forall i | i in next.listeners :: i in next.bindingsById
    ensures LeasesAgree(next)
  {
  }

  // ---------- what a step can change ----------

  ghost predicate SameElsewhere<K(!new), V>(a: map<K, V>, b: map<K, V>, key: K) {
    forall k :: k != key ==> (k in a <==> k in b) && (k in a ==> a[k] == b[k])
  }

  /** A binding that has been saved, or restored. */
  predicate Saved(s: State, d: Device) {
    d in s.bindingsByDevice && !(d in s.ops && s.ops[d].Saving?)
  }

  predicate StaysBound(s: State, next: State, d: Device) {
    && Saved(s, d) && Saved(next, d)
    && next.bindingsByDevice[d].id == s.bindingsByDevice[d].id
    && next.bindingsByDevice[d].port == s.bindingsByDevice[d].port
  }

  predicate KeepsBinding(s: State, next: State, d: Device) {
    Saved(s, d) ==> StaysBound(s, next, d)
  }

  /** What belongs to one device: its stage, lease and binding, whose id and port stay once it is saved, and
      the listener at its binding's id.  Grants and renewals are only added to. */
  ghost predicate Footprint(s: State, next: State, d: Device) {
    && SameElsewhere(s.ops, next.ops, d) && SameElsewhere(s.leasesByDevice, next.leasesByDevice, d)
    && SameElsewhere(s.bindingsByDevice, next.bindingsByDevice, d) && KeepsBinding(s, next, d)
    && (next.listeners == s.listeners
        || (d in s.bindingsByDevice && SameElsewhere(s.listeners, next.listeners, s.bindingsByDevice[d].id)))
    && SameElsewhere(s.grants, next.grants, s.nextListener) && s.nextListener <= next.nextListener
    && SameElsewhere(s.renewals, next.renewals, s.nextTask) && s.nextTask <= next.nextTask
  }

  function DeviceOf(s: State, step: Step): Device
    requires Enabled(s, step) && !step.FindListener? && !step.UpdateGrant?
  {
    if step.StartRelease? || step.ConnectionOpened? || step.ConnectionClosed? then s.leasesById[step.lease].device
    else step.device
  }

  lemma ProbingFootprint(s: State, step: Step)
    requires Enabled(s, step) && (step.StartAcquire? || step.TakePort? || step.ProbeEnds?) && StageSound(s, DeviceOf(s, step))
    ensures Footprint(s, Apply(s, step), DeviceOf(s, step))
  {
  }

  lemma PortFootprint(s: State, step: Step)
    requires Enabled(s, step) && (step.RoundEnds? || step.Retry? || step.FreePort?) && StageSound(s, DeviceOf(s, step))
    ensures Footprint(s, Apply(s, step), DeviceOf(s, step))
  {
  }

  lemma EnterFootprint(s: State, step: Step)
    requires Enabled(s, step) && (step.EnterBinding? || step.Finish? || step.BindCheck?) && StageSound(s, DeviceOf(s, step))
    ensures Footprint(s, Apply(s, step), DeviceOf(s, step))
  {
  }

  lemma SaveFootprint(s: State, step: Step)
    requires Enabled(s, step) && step.SaveEnds? && StageSound(s, DeviceOf(s, step))
    ensures Footprint(s, Apply(s, step), DeviceOf(s, step))
  {
  }

  /** The leases a step on a device may bring: the one it has made. */
  ghost predicate LeaseIds(s: State, next: State, d: Device) {
    && next.nextLease >= s.nextLease
    && PendingLease(next, d) in {None, PendingLease(s, d), Some(s.nextLease)}
    && forall i | i in next.leasesById :: i in s.leasesById || PendingLease(s, d) == Some(i)
  }

  /** A device with a binding, of which no more than the status changes. */
  ghost predicate OnlyStatus(s: State, next: State, d: Device) {
    && d in s.bindingsByDevice && d in next.bindingsByDevice
    && next.pool == s.pool && next.nextBinding == s.nextBinding && PortOf(next, d) == PortOf(s, d)
    && var b := s.bindingsByDevice[d].(status := next.bindingsByDevice[d].status);
       || (next.bindingsByDevice == s.bindingsByDevice && next.bindingsById == s.bindingsById)
       || (next.bindingsByDevice == s.bindingsByDevice[d := b] && next.bindingsById == s.bindingsById[b.id := b])
  }

  ghost predicate DeviceMove(s: State, next: State, d: Device) {
    Footprint(s, next, d) && OnlyStatus(s, next, d) && StageSound(next, d) && LeaseIds(s, next, d)
  }

  predicate HasLease(s: State, l: LeaseId) {
    && l in s.leasesById && s.leasesById[l].id == l
    && var lease := s.leasesById[l];
       && lease.device in s.leasesByDevice && s.leasesByDevice[lease.device] == lease
       && lease.device in s.bindingsByDevice && s.bindingsByDevice[lease.device].id == lease.binding
  }

  lemma BindInsertMoves(s: State, d: Device, listening: bool)
    requires StageSound(s, d) && d in s.ops && s.ops[d].InBind?
    ensures DeviceMove(s, BindInsertStep(s, d, listening), d)
  {
  }

  lemma CommitMoves(s: State, d: Device)
    requires StageSound(s, d) && d in s.ops && s.ops[d].ToCommit? && d in s.bindingsByDevice
    ensures DeviceMove(s, CommitStep(s, d), d)
  {
  }

  lemma StartReleaseMoves(s: State, l: LeaseId)
    requires HasLease(s, l) && StageSound(s, s.leasesById[l].device) && s.leasesById[l].device !in s.ops
    ensures DeviceMove(s, StartReleaseStep(s, l), s.leasesById[l].device)
  {
  }

  lemma UnbindMoves(s: State, d: Device)
    requires StageSound(s, d) && d in s.ops && s.ops[d].ToUnbind?
    ensures DeviceMove(s, UnbindStep(s, d), d)
  {
  }

  lemma DeleteLeaseMoves(s: State, d: Device, status: BindingStatus)
    requires StageSound(s, d) && d in s.ops && s.ops[d].Unbound? && d in s.leasesByDevice && d in s.bindingsByDevice && !status.Listening?
    ensures DeviceMove(s, DeleteLeaseStep(s, d, status), d)
  {
  }

  lemma RenewMoves(s: State, d: Device, expiresAt: int)
    requires d in s.leasesByDevice && HasLease(s, s.leasesByDevice[d].id) && s.leasesByDevice[d].device == d
    requires StageSound(s, d) && d !in s.ops && d in s.leasesByDevice && s.leasesByDevice[d].status.Active?
    ensures DeviceMove(s, RenewStep(s, d, expiresAt), d)
  {
  }

  lemma ConnectionOpenedMoves(s: State, l: LeaseId)
    requires HasLease(s, l) && StageSound(s, s.leasesById[l].device) && s.leasesById[l].status.Active?
    ensures DeviceMove(s, ConnectionOpenedStep(s, l), s.leasesById[l].device)
  {
  }

  lemma ConnectionClosedMoves(s: State, l: LeaseId)
    requires HasLease(s, l) && StageSound(s, s.leasesById[l].device)
    ensures DeviceMove(s, ConnectionClosedStep(s, l), s.leasesById[l].device)
  {
  }

  lemma ReconcileMoves(s: State, d: Device, status: BindingStatus)
    requires StageSound(s, d) && d in s.bindingsByDevice && d !in s.leasesByDevice && !status.Listening?
    ensures DeviceMove(s, ReconcileStep(s, d, status), d)
  {
  }

  lemma OperationFootprint(s: State, step: Step)
    requires step.StartAcquire? || step.TakePort? || step.ProbeEnds? || step.RoundEnds? || step.Retry? || step.FreePort?
      || step.EnterBinding? || step.Finish? || step.BindCheck? || step.SaveEnds?
    requires Enabled(s, step) && StageSound(s, DeviceOf(s, step))
    ensures Footprint(s, Apply(s, step), DeviceOf(s, step))
  {
    if step.StartAcquire? || step.TakePort? || step.ProbeEnds? {
      ProbingFootprint(s, step);
    } else if step.RoundEnds? || step.Retry? || step.FreePort? {
      PortFootprint(s, step);
    } else if step.EnterBinding? || step.Finish? || step.BindCheck? {
      EnterFootprint(s, step);
    } else {
      SaveFootprint(s, step);
    }
  }

  lemma BoundFootprint(s: State, step: Step)
    requires step.BindInsert? || step.Commit? || step.Unbind? || step.DeleteLease? || step.Reconcile?
    requires Enabled(s, step) && StageSound(s, DeviceOf(s, step))
    ensures Footprint(s, Apply(s, step), DeviceOf(s, step))
  {
    match step
    case BindInsert(d, listening) => BindInsertMoves(s, d, listening);
    case Commit(d) => CommitMoves(s, d);
    case Unbind(d) => UnbindMoves(s, d);
    case DeleteLease(d, status) => DeleteLeaseMoves(s, d, status);
    case Reconcile(d, status) => ReconcileMoves(s, d, status);
  }

  lemma LeasedFootprint(s: State, step: Step)
    requires step.StartRelease? || step.Renew? || step.ConnectionOpened? || step.ConnectionClosed?
    requires LeasesAgree(s) && Enabled(s, step) && StageSound(s, DeviceOf(s, step))
    ensures Footprint(s, Apply(s, step), DeviceOf(s, step))
  {
    match step
    case StartRelease(l) => StartReleaseMoves(s, l);
    case Renew(d, expiresAt) => RenewMoves(s, d, expiresAt);
    case ConnectionOpened(l) => ConnectionOpenedMoves(s, l);
    case ConnectionClosed(l) => ConnectionClosedMoves(s, l);
  }

  /** Every step but those of a renewal touches what belongs to its own device, and nothing else. */
  lemma StepFootprint(s: State, step: Step)
    requires LeasesAgree(s) && StagesSound(s) && Enabled(s, step) && !step.FindListener? && !step.UpdateGrant?
    ensures Footprint(s, Apply(s, step), DeviceOf(s, step))
  {
    assert StageSound(s, DeviceOf(s, step));
    if step.BindInsert? || step.Commit? || step.Unbind? || step.DeleteLease? || step.Reconcile? {
      BoundFootprint(s, step);
    } else if step.StartRelease? || step.Renew? || step.ConnectionOpened? || step.ConnectionClosed? {
      LeasedFootprint(s, step);
    } else {
      OperationFootprint(s, step);
    }
  }

  /** The steps of a renewal touch what listeners admit by. */
  predicate OnlyRenewals(s: State, next: State) {
    next == s.(grants := next.grants, renewals := next.renewals)
  }

  lemma RenewalStep(s: State, step: Step)
    requires Enabled(s, step) && (step.FindListener? || step.UpdateGrant?)
    ensures OnlyRenewals(s, Apply(s, step))
  {
  }

  // ---------- stages ----------

  /** A step on one device leaves what StageSound says of another as it is. */
  predicate Untouched(s: State, next: State, e: Device) {
    && StageOf(next, e) == StageOf(s, e)
    && (e in next.leasesByDevice <==> e in s.leasesByDevice)
    && (e in s.leasesByDevice ==> next.leasesByDevice[e] == s.leasesByDevice[e])
    && (e in next.bindingsByDevice <==> e in s.bindingsByDevice)
    && (e in s.bindingsByDevice ==> next.bindingsByDevice[e] == s.bindingsByDevice[e])
    && (Listens(next, e) <==> Listens(s, e))
    && (Listens(s, e) ==> next.listeners[s.bindingsByDevice[e].id] == s.listeners[s.bindingsByDevice[e].id])
  }

  lemma FootprintUntouched(s: State, next: State, d: Device, e: Device)
    requires BindingsAgree(s) && Footprint(s, next, d) && e != d
    ensures Untouched(s, next, e)
  {
    assert d in s.bindingsByDevice && e in s.bindingsByDevice ==> s.bindingsByDevice[e].id != s.bindingsByDevice[d].id;
  }

  /** If a step leaves its own device sound, every device is. */
  lemma OthersSound(s: State, next: State, d: Device)
    requires BindingsAgree(s) && StagesSound(s) && PendingDiffer(s) && Footprint(s, next, d)
    requires StageSound(next, d) && LeaseIds(s, next, d)
    ensures StagesSound(next) && PendingDiffer(next)
  {
    forall e ensures StageSound(next, e) && (e != d ==> Untouched(s, next, e)) {
      assert StageSound(s, e);
      if e != d {
        FootprintUntouched(s, next, d, e);
        UntouchedSound(s, next, d, e);
      }
    }
    forall e, f | e != f && PendingLease(next, e).Some? ensures PendingLease(next, e) != PendingLease(next, f) {
      if e != d {
        assert StageSound(s, e);
        FootprintUntouched(s, next, d, e);
      }
      if f != d {
        assert StageSound(s, f);
        FootprintUntouched(s, next, d, f);
      }
      assert PendingLease(s, e).Some? ==> PendingLease(s, e) != PendingLease(s, f);
    }
  }

  lemma UntouchedSound(s: State, next: State, d: Device, e: Device)
    requires StageSound(s, e) && PendingDiffer(s) && Untouched(s, next, e) && LeaseIds(s, next, d) && e != d
    ensures StageSound(next, e)
  {
    assert PendingLease(s, e).Some? ==> PendingLease(s, e) != PendingLease(s, d);
  }

  // ---------- ports ----------

  /** A step on a device changes only whether its own port is reserved. */
  ghost predicate PortsMove(s: State, next: State, d: Device) {
    && next.pool.Valid() && next.pool.minPort == s.pool.minPort
    && (PortOf(next, d) in {None, PortOf(s, d)} || PortOf(next, d).value !in s.pool.reserved)
    && (PortOf(next, d).Some? ==> PortOf(next, d).value in next.pool.reserved)
    && (PortOf(s, d).Some? && PortOf(s, d) != PortOf(next, d) ==> PortOf(s, d).value !in next.pool.reserved)
    && forall p :: Some(p) != PortOf(s, d) && Some(p) != PortOf(next, d) ==> (p in s.pool.reserved <==> p in next.pool.reserved)
  }

  lemma PortsKept(s: State, next: State, d: Device)
    requires PortsOwned(s) && Footprint(s, next, d) && PortsMove(s, next, d)
    ensures PortsOwned(next)
  {
    forall e | e != d ensures PortOf(next, e) == PortOf(s, e) {}
    forall e ensures PortOf(next, e).Some? ==> PortOf(next, e).value in next.pool.reserved {
      assert PortOf(s, d) != PortOf(s, e) || e == d || PortOf(s, e).None?;
    }
    forall e, f | e != f && PortOf(next, e).Some? ensures PortOf(next, e) != PortOf(next, f) {
      assert PortOf(s, e).Some? ==> PortOf(s, e) != PortOf(s, f) && PortOf(s, e).value in s.pool.reserved;
      assert PortOf(s, f).Some? ==> PortOf(s, f) != PortOf(s, e) && PortOf(s, f).value in s.pool.reserved;
    }
    forall p | p in next.pool.reserved ensures HasHolder(next, p) {
      if PortOf(next, d) != Some(p) {
        assert HasHolder(s, p);
        var e :| PortOf(s, e) == Some(p);
        assert PortOf(next, e) == Some(p);
      }
    }
  }

  // ---------- every step ----------

  /** A step that only moves one operation on, and perhaps the pool. */
  lemma StageOnly(s: State, next: State, d: Device)
    requires Inv(s) && Footprint(s, next, d) && PortsMove(s, next, d) && StageSound(next, d) && LeaseIds(s, next, d)
    requires next.bindingsByDevice == s.bindingsByDevice && next.bindingsById == s.bindingsById
    requires next.leasesByDevice == s.leasesByDevice && next.leasesById == s.leasesById
    requires next.listeners == s.listeners && next.nextBinding == s.nextBinding
    ensures Inv(next)
  {
    SameBindings(s, next);
    SameLeases(s, next);
    PortsKept(s, next, d);
    OthersSound(s, next, d);
  }

  lemma StartAcquireKeeps(s: State, d: Device)
    requires Inv(s) && d !in s.ops && !(d in s.leasesByDevice && s.leasesByDevice[d].status.Active?)
    ensures Inv(StartAcquireStep(s, d))
  {
    assert StageSound(s, d);
    assert PortOf(s, d) == PortOf(StartAcquireStep(s, d), d);
    ProbingFootprint(s, StartAcquire(d));
    StageOnly(s, StartAcquireStep(s, d), d);
  }

  lemma TakePortKeeps(s: State, d: Device)
    requires Inv(s) && d in s.ops && s.ops[d].Allocating? && |s.pool.available| > 0
    ensures Inv(TakePortStep(s, d))
  {
    assert StageSound(s, d);
    Ports.TakeFirstKeeps(s.pool);
    ProbingFootprint(s, TakePort(d));
    StageOnly(s, TakePortStep(s, d), d);
  }

  lemma ProbeEndsKeeps(s: State, d: Device, free: bool)
    requires Inv(s) && d in s.ops && s.ops[d].Probing?
    ensures Inv(ProbeEndsStep(s, d, free))
  {
    assert StageSound(s, d);
    assert PortOf(s, d) == Some(s.ops[d].port);
    Ports.BlockKeeps(s.pool, s.ops[d].port);
    ProbingFootprint(s, ProbeEnds(d, free));
    StageOnly(s, ProbeEndsStep(s, d, free), d);
  }

  lemma RoundEndsKeeps(s: State, d: Device)
    requires Inv(s) && d in s.ops && s.ops[d].Allocating? && |s.pool.available| == 0
    ensures Inv(RoundEndsStep(s, d))
  {
    assert StageSound(s, d);
    PortFootprint(s, RoundEnds(d));
    StageOnly(s, RoundEndsStep(s, d), d);
  }

  lemma RetryKeeps(s: State, d: Device)
    requires Inv(s) && d in s.ops && s.ops[d].Retrying?
    ensures Inv(RetryStep(s, d))
  {
    assert StageSound(s, d);
    Ports.RecycleKeeps(s.pool);
    PortFootprint(s, Retry(d));
    StageOnly(s, RetryStep(s, d), d);
  }

  lemma FreePortKeeps(s: State, d: Device)
    requires Inv(s) && d in s.ops && s.ops[d].Rollback?
    ensures Inv(FreePortStep(s, d))
  {
    assert StageSound(s, d);
    assert PortOf(s, d) == Some(s.ops[d].port);
    Ports.ReleaseKeeps(s.pool, s.ops[d].port);
    PortFootprint(s, FreePort(d));
    StageOnly(s, FreePortStep(s, d), d);
  }

  lemma BindCheckKeeps(s: State, d: Device, owner: string, expiresAt: int)
    requires Inv(s) && d in s.ops && s.ops[d].ToBind?
    ensures Inv(BindCheckStep(s, d, owner, expiresAt))
  {
    assert StageSound(s, d);
    assert PortOf(s, d) == PortOf(BindCheckStep(s, d, owner, expiresAt), d);
    EnterFootprint(s, BindCheck(d, owner, expiresAt));
    StageOnly(s, BindCheckStep(s, d, owner, expiresAt), d);
  }

  lemma FinishKeeps(s: State, d: Device)
    requires Inv(s) && d in s.ops && s.ops[d].Done?
    ensures Inv(FinishStep(s, d))
  {
    assert StageSound(s, d);
    assert PortOf(s, d) == PortOf(FinishStep(s, d), d);
    EnterFootprint(s, Finish(d));
    StageOnly(s, FinishStep(s, d), d);
  }

  /** What StageOnly asks for, where the binding comes or goes. */
  ghost predicate BindingMove(s: State, next: State, d: Device) {
    && Footprint(s, next, d) && StageSound(next, d) && LeaseIds(s, next, d)
    && next.pool == s.pool && PortOf(next, d) == PortOf(s, d)
  }

  lemma EnterBindingMoves(s: State, d: Device)
    requires d in s.ops && s.ops[d].HasPort? && StageSound(s, d) && s.nextBinding !in s.listeners
    ensures BindingMove(s, EnterBindingStep(s, d), d)
  {
    EnterFootprint(s, EnterBinding(d));
  }

  lemma UnsavedMoves(s: State, d: Device)
    requires d in s.ops && s.ops[d].Saving? && StageSound(s, d)
    ensures BindingMove(s, SaveEndsStep(s, d, false), d)
  {
    SaveFootprint(s, SaveEnds(d, false));
  }

  lemma EnterBindingKeeps(s: State, d: Device)
    requires Inv(s) && d in s.ops && s.ops[d].HasPort?
    ensures Inv(EnterBindingStep(s, d))
  {
    var next := EnterBindingStep(s, d);
    assert StageSound(s, d);
    EnterBindingMoves(s, d);
    NewBinding(s, next, next.bindingsByDevice[d]);
    SameLeases(s, next);
    PortsKept(s, next, d);
    OthersSound(s, next, d);
  }

  lemma SavedKeeps(s: State, d: Device)
    requires Inv(s) && d in s.ops && s.ops[d].Saving? && d in s.bindingsByDevice
    ensures Inv(SaveEndsStep(s, d, true))
  {
    assert StageSound(s, d);
    assert PortOf(s, d) == PortOf(SaveEndsStep(s, d, true), d);
    SaveFootprint(s, SaveEnds(d, true));
    StageOnly(s, SaveEndsStep(s, d, true), d);
  }

  lemma UnsavedKeeps(s: State, d: Device)
    requires Inv(s) && d in s.ops && s.ops[d].Saving? && d in s.bindingsByDevice
    ensures Inv(SaveEndsStep(s, d, false))
  {
    var next := SaveEndsStep(s, d, false);
    assert StageSound(s, d);
    UnsavedMoves(s, d);
    DroppedBinding(s, next, d);
    SameLeases(s, next);
    PortsKept(s, next, d);
    OthersSound(s, next, d);
  }

  lemma OnlyStatusBindings(s: State, next: State, d: Device)
    requires BindingsAgree(s) && OnlyStatus(s, next, d)
    ensures BindingsAgree(next)
  {
    if next.bindingsByDevice == s.bindingsByDevice && next.bindingsById == s.bindingsById {
      SameBindings(s, next);
    } else {
      StatusBindings(s, next, d, next.bindingsByDevice[d].status);
    }
  }

  lemma DeviceStep(s: State, next: State, d: Device)
    requires Inv(s) && LeasesAgree(next) && DeviceMove(s, next, d)
    ensures Inv(next)
  {
    OnlyStatusBindings(s, next, d);
    OthersSound(s, next, d);
    assert StageSound(s, d);
    assert PortOf(s, d).Some? ==> PortOf(s, d).value in s.pool.reserved;
    PortsKept(s, next, d);
  }

  lemma BindInsertKeeps(s: State, d: Device, listening: bool)
    requires Inv(s) && d in s.ops && s.ops[d].InBind?
    ensures Inv(BindInsertStep(s, d, listening))
  {
    var next := BindInsertStep(s, d, listening);
    assert StageSound(s, d);
    BindInsertMoves(s, d, listening);
    SameLeases(s, next);
    DeviceStep(s, next, d);
  }

  lemma CommitKeeps(s: State, d: Device)
    requires Inv(s) && d in s.ops && s.ops[d].ToCommit? && d in s.bindingsByDevice
    ensures Inv(CommitStep(s, d))
  {
    var next := CommitStep(s, d);
    assert StageSound(s, d);
    CommitMoves(s, d);
    PutLeaseAgrees(s, next, s.ops[d].lease);
    DeviceStep(s, next, d);
  }

  lemma StartReleaseKeeps(s: State, l: LeaseId)
    requires Inv(s) && l in s.leasesById && s.leasesById[l].device !in s.ops
    ensures Inv(StartReleaseStep(s, l))
  {
    var next := StartReleaseStep(s, l);
    var d := s.leasesById[l].device;
    assert StageSound(s, d);
    StartReleaseMoves(s, l);
    PutLeaseAgrees(s, next, s.leasesById[l].(status := Releasing));
    DeviceStep(s, next, d);
  }

  lemma UnbindKeeps(s: State, d: Device)
    requires Inv(s) && d in s.ops && s.ops[d].ToUnbind?
    ensures Inv(UnbindStep(s, d))
  {
    var next := UnbindStep(s, d);
    assert StageSound(s, d);
    UnbindMoves(s, d);
    SameLeases(s, next);
    DeviceStep(s, next, d);
  }

  lemma DeleteLeaseKeeps(s: State, d: Device, status: BindingStatus)
    requires Inv(s) && d in s.ops && s.ops[d].Unbound? && d in s.leasesByDevice && d in s.bindingsByDevice && !status.Listening?
    ensures Inv(DeleteLeaseStep(s, d, status))
  {
    var next := DeleteLeaseStep(s, d, status);
    assert StageSound(s, d);
    DeleteLeaseMoves(s, d, status);
    DroppedLease(s, next, d);
    DeviceStep(s, next, d);
  }

  lemma RenewKeeps(s: State, d: Device, expiresAt: int)
    requires Inv(s) && d !in s.ops && d in s.leasesByDevice && s.leasesByDevice[d].status.Active?
    ensures Inv(RenewStep(s, d, expiresAt))
  {
    var next := RenewStep(s, d, expiresAt);
    assert StageSound(s, d);
    RenewMoves(s, d, expiresAt);
    PutLeaseAgrees(s, next, next.leasesByDevice[d]);
    DeviceStep(s, next, d);
  }

  lemma ConnectionOpenedKeeps(s: State, l: LeaseId)
    requires Inv(s) && l in s.leasesById && s.leasesById[l].status.Active?
    ensures Inv(ConnectionOpenedStep(s, l))
  {
    var next := ConnectionOpenedStep(s, l);
    var d := s.leasesById[l].device;
    assert StageSound(s, d);
    ConnectionOpenedMoves(s, l);
    PutLeaseAgrees(s, next, next.leasesById[l]);
    DeviceStep(s, next, d);
  }

  lemma ConnectionClosedKeeps(s: State, l: LeaseId)
    requires Inv(s) && l in s.leasesById
    ensures Inv(ConnectionClosedStep(s, l))
  {
    var next := ConnectionClosedStep(s, l);
    var d := s.leasesById[l].device;
    assert StageSound(s, d);
    ConnectionClosedMoves(s, l);
    PutLeaseAgrees(s, next, next.leasesById[l]);
    DeviceStep(s, next, d);
  }

  lemma ReconcileKeeps(s: State, d: Device, status: BindingStatus)
    requires Inv(s) && d in s.bindingsByDevice && d !in s.leasesByDevice && !status.Listening?
    ensures Inv(ReconcileStep(s, d, status))
  {
    var next := ReconcileStep(s, d, status);
    assert StageSound(s, d);
    ReconcileMoves(s, d, status);
    SameLeases(s, next);
    DeviceStep(s, next, d);
  }

  lemma RenewalKeeps(s: State, next: State)
    requires Inv(s) && OnlyRenewals(s, next)
    ensures Inv(next)
  {
    SameBindings(s, next);
    SameLeases(s, next);
    forall d ensures StageSound(next, d) { assert StageSound(s, d); }
    forall d, e | d != e && PendingLease(next, d).Some? ensures PendingLease(next, d) != PendingLease(next, e) {
      assert PendingLease(s, d) == PendingLease(next, d) && PendingLease(s, e) == PendingLease(next, e);
    }
    forall d ensures PortOf(next, d) == PortOf(s, d) {}
  }

  lemma AllocatingStepKeeps(s: State, step: Step)
    requires Inv(s) && Enabled(s, step)
    requires step.StartAcquire? || step.TakePort? || step.ProbeEnds? || step.RoundEnds? || step.Retry? || step.EnterBinding?
    ensures Inv(Apply(s, step))
  {
    match step
    case StartAcquire(d) => StartAcquireKeeps(s, d);
    case TakePort(d) => TakePortKeeps(s, d);
    case ProbeEnds(d, free) => ProbeEndsKeeps(s, d, free);
    case RoundEnds(d) => RoundEndsKeeps(s, d);
    case Retry(d) => RetryKeeps(s, d);
    case EnterBinding(d) => EnterBindingKeeps(s, d);
  }

  lemma BindingStepKeeps(s: State, step: Step)
    requires Inv(s) && Enabled(s, step)
    requires step.SaveEnds? || step.FreePort? || step.BindCheck? || step.BindInsert? || step.Commit? || step.Finish?
    ensures Inv(Apply(s, step))
  {
    match step
    case SaveEnds(d, saved) => if saved { SavedKeeps(s, d); } else { UnsavedKeeps(s, d); }
    case FreePort(d) => FreePortKeeps(s, d);
    case BindCheck(d, owner, expiresAt) => BindCheckKeeps(s, d, owner, expiresAt);
    case BindInsert(d, listening) => BindInsertKeeps(s, d, listening);
    case Commit(d) => CommitKeeps(s, d);
    case Finish(d) => FinishKeeps(s, d);
  }

  lemma ReleaseStepKeeps(s: State, step: Step)
    requires Inv(s) && Enabled(s, step)
    requires step.StartRelease? || step.Unbind? || step.DeleteLease? || step.Reconcile?
    ensures Inv(Apply(s, step))
  {
    match step
    case StartRelease(l) => StartReleaseKeeps(s, l);
    case Unbind(d) => UnbindKeeps(s, d);
    case DeleteLease(d, status) => DeleteLeaseKeeps(s, d, status);
    case Reconcile(d, status) => ReconcileKeeps(s, d, status);
  }

  lemma LeaseStepKeeps(s: State, step: Step)
    requires Inv(s) && Enabled(s, step)
    requires step.Renew? || step.ConnectionOpened? || step.ConnectionClosed?
    ensures Inv(Apply(s, step))
  {
    match step
    case Renew(d, expiresAt) => RenewKeeps(s, d, expiresAt);
    case ConnectionOpened(l) => ConnectionOpenedKeeps(s, l);
    case ConnectionClosed(l) => ConnectionClosedKeeps(s, l);
  }

  lemma StepKeepsInv(s: State, step: Step)
    requires Inv(s) && Enabled(s, step)
    ensures Inv(Apply(s, step))
  {
    if step.StartAcquire? || step.TakePort? || step.ProbeEnds? || step.RoundEnds? || step.Retry? || step.EnterBinding? {
      AllocatingStepKeeps(s, step);
    } else if step.SaveEnds? || step.FreePort? || step.BindCheck? || step.BindInsert? || step.Commit? || step.Finish? {
      BindingStepKeeps(s, step);
    } else if step.StartRelease? || step.Unbind? || step.DeleteLease? || step.Reconcile? {
      ReleaseStepKeeps(s, step);
    } else if step.FindListener? || step.UpdateGrant? {
      RenewalStep(s, step);
      RenewalKeeps(s, Apply(s, step));
    } else {
      LeaseStepKeeps(s, step);
    }
  }

  // ---------- whole runs ----------

  /** A manager as NewManager leaves it: restored bindings, and nothing else. */
  ghost predicate Initial(s: State) {
    && BindingsAgree(s) && PortsOwned(s)
    && s.leasesByDevice == map[] && s.leasesById == map[] && s.ops == map[]
    && s.listeners == map[] && s.grants == map[] && s.renewals == map[]
  }

  function Next(s: Option<State>, step: Step): Option<State> {
    if s.Some? && Enabled(s.value, step) then Some(Apply(s.value, step)) else None
  }

  function Run(s: State, steps: seq<Step>): Option<State> {
    if |steps| == 0 then Some(s) else Next(Run(s, steps[..|steps| - 1]), steps[|steps| - 1])
  }

  lemma InitialInv(s: State)
    requires Initial(s)
    ensures Inv(s)
  {
    forall d ensures StageSound(s, d) {}
  }

  lemma {:induction false} RunKeepsInv(s: State, steps: seq<Step>)
    requires Inv(s) && Run(s, steps).Some?
    ensures Inv(Run(s, steps).value)
    decreases |steps|
  {
    if |steps| > 0 {
      RunKeepsInv(s, steps[..|steps| - 1]);
      StepKeepsInv(Run(s, steps[..|steps| - 1]).value, steps[|steps| - 1]);
    }
  }

  /** However the callers interleave: a device with nothing in flight has a listener exactly when it
      has a lease, which is its only one, ACTIVE, in both maps, and the one the listener was bound for;
      and different devices hold different reserved ports. */
  lemma LeaseAndListenerAgree(start: State, steps: seq<Step>, s: State, d: Device)
    requires Initial(start) && Run(start, steps) == Some(s) && d !in s.ops
    ensures Listens(s, d) <==> d in s.leasesByDevice
    ensures d in s.leasesByDevice ==>
      var l := s.leasesByDevice[d];
      && l.status.Active? && l.device == d && BoundBy(s, d, l.id) && s.bindingsByDevice[d].status.Listening?
      && l.id in s.leasesById && s.leasesById[l.id] == l
      && s.bindingsByDevice[d].id == l.binding
    ensures forall i | i in s.leasesById && s.leasesById[i].device == d ::
      d in s.leasesByDevice && s.leasesByDevice[d] == s.leasesById[i]
    ensures d in s.bindingsByDevice ==> s.bindingsByDevice[d].port in s.pool.reserved
    ensures forall e | e != d && d in s.bindingsByDevice && e in s.bindingsByDevice ::
      s.bindingsByDevice[e].port != s.bindingsByDevice[d].port
  {
    InitialInv(start);
    RunKeepsInv(start, steps);
    assert StageSound(s, d);
    DistinctPorts(s);
  }

  lemma DistinctPorts(s: State)
    requires Inv(s)
    ensures forall d | d in s.bindingsByDevice :: s.bindingsByDevice[d].port in s.pool.reserved
    ensures forall d, e | d in s.bindingsByDevice && e in s.bindingsByDevice && d != e ::
      s.bindingsByDevice[d].port != s.bindingsByDevice[e].port
  {
    forall d | d in s.bindingsByDevice ensures PortOf(s, d) == Some(s.bindingsByDevice[d].port) {
      assert StageSound(s, d);
    }
  }

  /** No port leaks: one is reserved exactly while a binding has it or an operation is about to give it to
      one or back; between operations, exactly while a binding has it. */
  lemma NoPortLeaks(start: State, steps: seq<Step>, s: State, port: int)
    requires Initial(start) && Run(start, steps) == Some(s)
    ensures port in s.pool.reserved <==> HasHolder(s, port)
    ensures s.ops == map[] ==>
      (port in s.pool.reserved <==> exists d | d in s.bindingsByDevice :: s.bindingsByDevice[d].port == port)
  {
    InitialInv(start);
    RunKeepsInv(start, steps);
    if s.ops == map[] && port in s.pool.reserved {
      assert HasHolder(s, port);
      var d :| PortOf(s, d) == Some(port);
      assert d in s.bindingsByDevice && s.bindingsByDevice[d].port == port;
    }
    if d :| s.ops == map[] && d in s.bindingsByDevice && s.bindingsByDevice[d].port == port {
      assert PortOf(s, d) == Some(port);
    }
  }

  /** Unbind finds the listener of the lease being released, never a later one's. */
  lemma ReleaseTakesItsOwnListener(start: State, steps: seq<Step>, s: State, d: Device)
    requires Initial(start) && Run(start, steps) == Some(s) && Enabled(s, Unbind(d))
    ensures s.ops[d].binding in s.listeners && s.listeners[s.ops[d].binding].boundBy == s.ops[d].released
  {
    InitialInv(start);
    RunKeepsInv(start, steps);
    assert StageSound(s, d);
  }

  /** Bind never finds a listener that is already there, so success always means its own. */
  lemma BindIsNeverIdempotent(start: State, steps: seq<Step>, s: State, d: Device)
    requires Initial(start) && Run(start, steps) == Some(s) && d in s.ops
    ensures s.ops[d].ToBind? ==> s.ops[d].binding !in s.listeners
    ensures s.ops[d].InBind? ==> s.ops[d].lease.binding !in s.listeners
  {
    InitialInv(start);
    RunKeepsInv(start, steps);
    assert StageSound(s, d);
  }

  // ---------- bindings are stable ----------

  lemma FootprintStays(s: State, next: State, d: Device, e: Device)
    requires Footprint(s, next, d) && Saved(s, e)
    ensures StaysBound(s, next, e)
  {
  }

  lemma StepKeepsBinding(s: State, step: Step, d: Device)
    requires Inv(s) && Enabled(s, step) && Saved(s, d)
    ensures StaysBound(s, Apply(s, step), d)
  {
    if step.FindListener? || step.UpdateGrant? {
      RenewalStep(s, step);
    } else {
      StepFootprint(s, step);
      FootprintStays(s, Apply(s, step), DeviceOf(s, step), d);
    }
  }

  /** The id and port of a saved binding never change again, over any history of leases. */
  lemma {:induction false} BindingIsStable(s: State, steps: seq<Step>, d: Device)
    requires Inv(s) && Saved(s, d) && Run(s, steps).Some?
    ensures StaysBound(s, Run(s, steps).value, d)
    decreases |steps|
  {
    if |steps| > 0 {
      var front := steps[..|steps| - 1];
      RunKeepsInv(s, front);
      BindingIsStable(s, front, d);
      StepKeepsBinding(Run(s, front).value, steps[|steps| - 1], d);
    }
  }
}
