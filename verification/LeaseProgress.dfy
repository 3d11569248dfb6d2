/** What an acquire and a release come to when they are carried through, whatever the callers for other devices
    do in between (internal/remote/manager.go, Acquire, createBinding and releaseLease). */
module LeaseProgress {
  import opened Text
  import opened Lease

  /** The step is one of that device's own. */
  predicate IsOf(s: State, step: Step, d: Device) {
    Enabled(s, step) && !step.FindListener? && !step.UpdateGrant? && DeviceOf(s, step) == d
  }

  /** Nothing but steps of other devices and of renewals. */
  predicate Leaves(s: State, steps: seq<Step>, d: Device)
    decreases |steps|
  {
    |steps| > 0 ==>
      var front := steps[..|steps| - 1];
      Leaves(s, front, d) && (Run(s, front).Some? ==> !IsOf(Run(s, front).value, steps[|steps| - 1], d))
  }

  /** One step of a device's operation, with what others do before it. */
  datatype Turn = Turn(gap: seq<Step>, before: State, step: Step, next: State)

  ghost predicate Takes(s: State, turn: Turn, d: Device) {
    && Run(s, turn.gap) == Some(turn.before) && Leaves(s, turn.gap, d)
    && Enabled(turn.before, turn.step) && turn.next == Apply(turn.before, turn.step)
  }

  lemma UntouchedChain(a: State, b: State, c: State, d: Device)
    requires Untouched(a, b, d) && Untouched(b, c, d)
    ensures Untouched(a, c, d)
  {
  }

  lemma OtherStep(s: State, step: Step, d: Device)
    requires Inv(s) && Enabled(s, step) && !IsOf(s, step, d)
    ensures Untouched(s, Apply(s, step), d)
  {
    if step.FindListener? || step.UpdateGrant? {
      RenewalStep(s, step);
    } else {
      StepFootprint(s, step);
      FootprintUntouched(s, Apply(s, step), DeviceOf(s, step), d);
    }
  }

  lemma {:induction false} Waits(s: State, steps: seq<Step>, d: Device)
    requires Inv(s) && Run(s, steps).Some? && Leaves(s, steps, d)
    ensures Untouched(s, Run(s, steps).value, d) && Inv(Run(s, steps).value)
    decreases |steps|
  {
    if |steps| > 0 {
      var front := steps[..|steps| - 1];
      var before := Run(s, front).value;
      Waits(s, front, d);
      OtherStep(before, steps[|steps| - 1], d);
      StepKeepsInv(before, steps[|steps| - 1]);
      UntouchedChain(s, before, Run(s, steps).value, d);
    }
  }

  /** A turn finds the device as the one before has left it. */
  lemma TurnFinds(s: State, turn: Turn, d: Device)
    requires Inv(s) && Takes(s, turn, d)
    ensures Untouched(s, turn.before, d) && Inv(turn.before) && Inv(turn.next)
  {
    Waits(s, turn.gap, d);
    StepKeepsInv(turn.before, turn.step);
  }

  // ---------- how far an operation is ----------

  /** The device has that binding and no lease, and its operation has got that far. */
  predicate IsAt(s: State, d: Device, stage: Option<Stage>, b: Binding) {
    StageOf(s, d) == stage && d !in s.leasesByDevice && d in s.bindingsByDevice && s.bindingsByDevice[d] == b
  }

  /** The device has neither. */
  predicate IsNew(s: State, d: Device, stage: Option<Stage>) {
    StageOf(s, d) == stage && d !in s.leasesByDevice && d !in s.bindingsByDevice
  }

  /** It has that lease, a LISTENING binding and a listener bound for the lease. */
  predicate IsGranted(s: State, d: Device, stage: Option<Stage>, b: Binding, l: Lease) {
    && StageOf(s, d) == stage && d in s.leasesByDevice && s.leasesByDevice[d] == l
    && d in s.bindingsByDevice && s.bindingsByDevice[d] == b.(status := Listening) && BoundBy(s, d, l.id)
  }

  // ---------- acquiring ----------

  lemma AcquireBegins(s: State, turn: Turn, d: Device, b: Binding)
    requires Inv(s) && IsAt(s, d, None, b) && Takes(s, turn, d) && turn.step == StartAcquire(d)
    ensures Inv(turn.next) && IsAt(turn.next, d, Some(ToBind(b.id)), b)
  {
    TurnFinds(s, turn, d);
  }

  /** The lease gets the next number. */
  lemma LeaseIsMade(s: State, turn: Turn, d: Device, b: Binding, owner: string, expiresAt: int)
    requires Inv(s) && IsAt(s, d, Some(ToBind(b.id)), b) && Takes(s, turn, d) && turn.step == BindCheck(d, owner, expiresAt)
    ensures Inv(turn.next)
    ensures IsAt(turn.next, d, Some(InBind(Lease(turn.before.nextLease, d, b.id, owner, Active, expiresAt, 0))), b)
  {
    TurnFinds(s, turn, d);
    assert StageSound(turn.before, d);
  }

  /** If its port can be listened on, a listener is entered that admits by the lease; otherwise nothing is. */
  lemma ListenerIsEntered(s: State, turn: Turn, d: Device, b: Binding, l: Lease, listening: bool)
    requires Inv(s) && IsAt(s, d, Some(InBind(l)), b) && Takes(s, turn, d) && turn.step == BindInsert(d, listening)
    ensures Inv(turn.next) && IsAt(turn.next, d, Some(if listening then ToCommit(l) else Done), b)
    ensures listening ==>
      && BoundBy(turn.next, d, l.id)
      && turn.next.listeners[b.id].listener in turn.next.grants
      && turn.next.grants[turn.next.listeners[b.id].listener] == Grant(l.id, l.binding, l.expiresAt)
  {
    TurnFinds(s, turn, d);
    assert StageSound(turn.before, d);
  }

  lemma LeaseIsCommitted(s: State, turn: Turn, d: Device, b: Binding, l: Lease)
    requires Inv(s) && IsAt(s, d, Some(ToCommit(l)), b) && Takes(s, turn, d) && turn.step == Commit(d)
    ensures Inv(turn.next) && IsGranted(turn.next, d, Some(Done), b, l)
    ensures l.id in turn.next.leasesById && turn.next.leasesById[l.id] == l
  {
    TurnFinds(s, turn, d);
    assert StageSound(turn.before, d);
  }

  lemma AcquireEnds(s: State, turn: Turn, d: Device, b: Binding, l: Lease)
    requires Inv(s) && IsGranted(s, d, Some(Done), b, l) && Takes(s, turn, d) && turn.step == Finish(d)
    ensures Inv(turn.next) && IsGranted(turn.next, d, None, b, l)
  {
    TurnFinds(s, turn, d);
  }

  /** Binding and committing, from the moment the device has a binding to bind. */
  lemma BindGrants(
      s: State, d: Device, b: Binding, owner: string, expiresAt: int, check: Turn, insert: Turn, commit: Turn, finish: Turn)
    requires Inv(s) && IsAt(s, d, Some(ToBind(b.id)), b)
    requires Takes(s, check, d) && Takes(check.next, insert, d) && Takes(insert.next, commit, d) && Takes(commit.next, finish, d)
    requires check.step == BindCheck(d, owner, expiresAt) && insert.step == BindInsert(d, true)
    requires commit.step == Commit(d) && finish.step == Finish(d)
    ensures IsGranted(finish.next, d, None, b, Lease(check.before.nextLease, d, b.id, owner, Active, expiresAt, 0))
  {
    var l := Lease(check.before.nextLease, d, b.id, owner, Active, expiresAt, 0);
    LeaseIsMade(s, check, d, b, owner, expiresAt);
    ListenerIsEntered(check.next, insert, d, b, l, true);
    LeaseIsCommitted(insert.next, commit, d, b, l);
    AcquireEnds(commit.next, finish, d, b, l);
  }

  /** In any run: an acquire of a device that has a binding and nothing in flight, carried through with a port that
      can be listened on, ends with a new ACTIVE lease of that owner and term and a listener bound for it. */
  lemma AcquireGrants(
      start: State, steps: seq<Step>, s: State, d: Device, b: Binding, owner: string, expiresAt: int,
      begin: Turn, check: Turn, insert: Turn, commit: Turn, finish: Turn)
    requires Initial(start) && Run(start, steps) == Some(s)
    requires d !in s.ops && d !in s.leasesByDevice && d in s.bindingsByDevice && s.bindingsByDevice[d] == b
    requires Takes(s, begin, d) && Takes(begin.next, check, d) && Takes(check.next, insert, d)
    requires Takes(insert.next, commit, d) && Takes(commit.next, finish, d)
    requires begin.step == StartAcquire(d) && check.step == BindCheck(d, owner, expiresAt)
    requires insert.step == BindInsert(d, true) && commit.step == Commit(d) && finish.step == Finish(d)
    ensures IsGranted(finish.next, d, None, b, Lease(check.before.nextLease, d, b.id, owner, Active, expiresAt, 0))
  {
    InitialInv(start);
    RunKeepsInv(start, steps);
    AcquireBegins(s, begin, d, b);
    BindGrants(begin.next, d, b, owner, expiresAt, check, insert, commit, finish);
  }

  // ---------- a device without a binding ----------

  lemma NewAcquireBegins(s: State, turn: Turn, d: Device)
    requires Inv(s) && IsNew(s, d, None) && Takes(s, turn, d) && turn.step == StartAcquire(d)
    ensures Inv(turn.next) && IsNew(turn.next, d, Some(Allocating(false)))
  {
    TurnFinds(s, turn, d);
  }

  /** The first available port is taken, */
  lemma PortIsTaken(s: State, turn: Turn, d: Device, second: bool)
    requires Inv(s) && IsNew(s, d, Some(Allocating(second))) && Takes(s, turn, d) && turn.step == TakePort(d)
    ensures Inv(turn.next) && |turn.before.pool.available| > 0
    ensures IsNew(turn.next, d, Some(Probing(turn.before.pool.available[0], second)))
    ensures turn.next.pool.available == turn.before.pool.available[1..]
  {
    TurnFinds(s, turn, d);
  }

  /** and kept if it can be listened on, or else the next one tried, */
  lemma PortIsProbed(s: State, turn: Turn, d: Device, port: int, second: bool, free: bool)
    requires Inv(s) && IsNew(s, d, Some(Probing(port, second))) && Takes(s, turn, d) && turn.step == ProbeEnds(d, free)
    ensures Inv(turn.next) && IsNew(turn.next, d, Some(if free then HasPort(port) else Allocating(second)))
  {
    TurnFinds(s, turn, d);
  }

  lemma BindingIsEntered(s: State, turn: Turn, d: Device, port: int)
    requires Inv(s) && IsNew(s, d, Some(HasPort(port))) && Takes(s, turn, d) && turn.step == EnterBinding(d)
    ensures Inv(turn.next)
    ensures IsAt(turn.next, d, Some(Saving(turn.before.nextBinding)), Binding(turn.before.nextBinding, d, port, Reserved))
  {
    TurnFinds(s, turn, d);
  }

  /** and it is bound once it is saved, or else taken out and its port given back. */
  lemma BindingIsSaved(s: State, turn: Turn, d: Device, b: Binding, saved: bool)
    requires Inv(s) && IsAt(s, d, Some(Saving(b.id)), b) && Takes(s, turn, d) && turn.step == SaveEnds(d, saved)
    ensures Inv(turn.next)
    ensures if saved then IsAt(turn.next, d, Some(ToBind(b.id)), b) else IsNew(turn.next, d, Some(Rollback(b.port)))
  {
    TurnFinds(s, turn, d);
  }

  lemma PortIsGivenBack(s: State, turn: Turn, d: Device, port: int)
    requires Inv(s) && IsNew(s, d, Some(Rollback(port))) && Takes(s, turn, d) && turn.step == FreePort(d)
    ensures Inv(turn.next) && IsNew(turn.next, d, Some(Done))
    ensures port in turn.before.pool.reserved && turn.next.pool.reserved == turn.before.pool.reserved - {port}
  {
    TurnFinds(s, turn, d);
    assert PortOf(turn.before, d) == Some(port);
    Ports.ReleaseKeeps(turn.before.pool, port);
  }

  /** A device without a binding gets one, on the first available port if it can be listened on, and is then bound
      like any other. */
  lemma NewDeviceIsGranted(
      start: State, steps: seq<Step>, s: State, d: Device, b: Binding, owner: string, expiresAt: int,
      begin: Turn, take: Turn, probe: Turn, enter: Turn, save: Turn, check: Turn, insert: Turn, commit: Turn, finish: Turn)
    requires Initial(start) && Run(start, steps) == Some(s)
    requires d !in s.ops && d !in s.leasesByDevice && d !in s.bindingsByDevice
    requires Takes(s, begin, d) && Takes(begin.next, take, d) && Takes(take.next, probe, d) && Takes(probe.next, enter, d)
    requires Takes(enter.next, save, d) && Takes(save.next, check, d) && Takes(check.next, insert, d)
    requires Takes(insert.next, commit, d) && Takes(commit.next, finish, d)
    requires begin.step == StartAcquire(d) && take.step == TakePort(d) && probe.step == ProbeEnds(d, true)
    requires enter.step == EnterBinding(d) && save.step == SaveEnds(d, true)
    requires check.step == BindCheck(d, owner, expiresAt) && insert.step == BindInsert(d, true)
    requires commit.step == Commit(d) && finish.step == Finish(d)
    requires |take.before.pool.available| > 0
    requires b == Binding(enter.before.nextBinding, d, take.before.pool.available[0], Reserved)
    ensures IsGranted(finish.next, d, None, b, Lease(check.before.nextLease, d, b.id, owner, Active, expiresAt, 0))
  {
    InitialInv(start);
    RunKeepsInv(start, steps);
    NewAcquireBegins(s, begin, d);
    PortIsTaken(begin.next, take, d, false);
    PortIsProbed(take.next, probe, d, b.port, false, true);
    BindingIsEntered(probe.next, enter, d, b.port);
    BindingIsSaved(enter.next, save, d, b, true);
    BindGrants(save.next, d, b, owner, expiresAt, check, insert, commit, finish);
  }

  // ---------- releasing ----------

  lemma ReleaseBegins(s: State, turn: Turn, d: Device, b: Binding, l: Lease)
    requires Inv(s) && IsGranted(s, d, None, b, l) && l.device == d && l.binding == b.id
    requires Takes(s, turn, d) && turn.step == StartRelease(l.id)
    ensures Inv(turn.next) && IsGranted(turn.next, d, Some(ToUnbind(l.id, b.id)), b, l.(status := Releasing))
  {
    TurnFinds(s, turn, d);
  }

  lemma ListenerIsTakenOut(s: State, turn: Turn, d: Device, b: Binding, l: Lease)
    requires Inv(s) && IsGranted(s, d, Some(ToUnbind(l.id, b.id)), b, l) && Takes(s, turn, d) && turn.step == Unbind(d)
    ensures Inv(turn.next) && !Listens(turn.next, d) && StageOf(turn.next, d) == Some(Unbound(l.id))
    ensures d in turn.next.bindingsByDevice && turn.next.bindingsByDevice[d] == b.(status := Listening)
  {
    TurnFinds(s, turn, d);
  }

  lemma LeaseIsDeleted(s: State, turn: Turn, d: Device, b: Binding, id: LeaseId, status: BindingStatus)
    requires Inv(s) && !Listens(s, d) && StageOf(s, d) == Some(Unbound(id))
    requires d in s.bindingsByDevice && s.bindingsByDevice[d] == b.(status := Listening)
    requires Takes(s, turn, d) && turn.step == DeleteLease(d, status)
    ensures Inv(turn.next) && IsAt(turn.next, d, Some(Done), b.(status := status)) && !Listens(turn.next, d)
    ensures id !in turn.next.leasesById
  {
    TurnFinds(s, turn, d);
    assert StageSound(turn.before, d);
  }

  lemma ReleaseEnds(s: State, turn: Turn, d: Device, b: Binding)
    requires Inv(s) && IsAt(s, d, Some(Done), b) && !Listens(s, d) && Takes(s, turn, d) && turn.step == Finish(d)
    ensures Inv(turn.next) && IsAt(turn.next, d, None, b) && !Listens(turn.next, d)
  {
    TurnFinds(s, turn, d);
  }

  lemma GrantIsWithdrawn(
      s: State, d: Device, b: Binding, l: Lease, status: BindingStatus, begin: Turn, unbind: Turn, delete: Turn, finish: Turn)
    requires Inv(s) && IsGranted(s, d, None, b, l) && l.device == d && l.binding == b.id
    requires Takes(s, begin, d) && Takes(begin.next, unbind, d) && Takes(unbind.next, delete, d) && Takes(delete.next, finish, d)
    requires begin.step == StartRelease(l.id) && unbind.step == Unbind(d) && delete.step == DeleteLease(d, status)
    requires finish.step == Finish(d)
    ensures IsAt(finish.next, d, None, b.(status := status)) && !Listens(finish.next, d)
  {
    ReleaseBegins(s, begin, d, b, l);
    ListenerIsTakenOut(begin.next, unbind, d, b, l.(status := Releasing));
    LeaseIsDeleted(unbind.next, delete, d, b, l.id, status);
    ReleaseEnds(delete.next, finish, d, b.(status := status));
  }

  lemma RestIsGranted(s: State, d: Device, b: Binding, l: Lease)
    requires Inv(s) && d !in s.ops && d in s.leasesByDevice && s.leasesByDevice[d] == l
    requires d in s.bindingsByDevice && s.bindingsByDevice[d] == b
    ensures IsGranted(s, d, None, b, l) && l.device == d && l.binding == b.id
  {
    assert StageSound(s, d);
    assert b == b.(status := Listening);
  }

  /** In any run: a release of a device's lease, carried through, leaves it without lease and listener, and its
      binding, on the same port, as the registry has it. */
  lemma ReleaseWithdraws(
      start: State, steps: seq<Step>, s: State, d: Device, b: Binding, l: Lease, status: BindingStatus,
      begin: Turn, unbind: Turn, delete: Turn, finish: Turn)
    requires Initial(start) && Run(start, steps) == Some(s)
    requires d !in s.ops && d in s.leasesByDevice && s.leasesByDevice[d] == l
    requires d in s.bindingsByDevice && s.bindingsByDevice[d] == b
    requires Takes(s, begin, d) && Takes(begin.next, unbind, d) && Takes(unbind.next, delete, d) && Takes(delete.next, finish, d)
    requires begin.step == StartRelease(l.id) && unbind.step == Unbind(d) && delete.step == DeleteLease(d, status)
    requires finish.step == Finish(d)
    ensures IsAt(finish.next, d, None, b.(status := status)) && !Listens(finish.next, d)
  {
    InitialInv(start);
    RunKeepsInv(start, steps);
    RestIsGranted(s, d, b, l);
    GrantIsWithdrawn(s, d, b, l, status, begin, unbind, delete, finish);
  }

  // ---------- connections ----------

  /** Connections are counted, and never below zero. */
  lemma ConnectionsAreCounted(s: State, id: LeaseId)
    requires LeasesAgree(s) && id in s.leasesById
    ensures s.leasesById[id].status.Active? ==>
      ConnectionOpenedStep(s, id).leasesById[id] == s.leasesById[id].(connections := s.leasesById[id].connections + 1)
    ensures ConnectionClosedStep(s, id).leasesById[id]
      == s.leasesById[id].(connections := if s.leasesById[id].connections == 0 then 0 else s.leasesById[id].connections - 1)
  {
  }
}
