/** What holds in addition when acquisitions, releases and renewals come from one goroutine, as they do
    from the manager's Run: a listener admits by its lease as it is now. */
module LeaseGrants {
  import opened Text
  import opened Lease

  /** One caller starts nothing before it has finished what it was doing. */
  predicate Sequential(s: State, step: Step) {
    step.StartAcquire? || step.StartRelease? || step.Renew? ==> s.ops == map[] && s.renewals == map[]
  }

  ghost predicate ListenersDiffer(s: State) {
    && (forall i | i in s.listeners :: s.listeners[i].listener in s.grants && s.listeners[i].listener < s.nextListener)
    && (forall i, j | i in s.listeners && j in s.listeners && i != j :: s.listeners[i].listener != s.listeners[j].listener)
  }

  ghost predicate Renewing(s: State, grant: Grant) {
    exists t | t in s.renewals :: s.renewals[t].grant == grant
  }

  /** A listener's grant is that of the lease it was bound for, unless a renewal is on its way. */
  ghost predicate GrantCurrent(s: State, i: BindingId)
    requires i in s.listeners && s.listeners[i].listener in s.grants
  {
    var entry := s.listeners[i];
    entry.boundBy in s.leasesById ==>
      var grant := GrantOf(s.leasesById[entry.boundBy]);
      s.grants[entry.listener] == grant || Renewing(s, grant)
  }

  ghost predicate CommitCurrent(s: State, d: Device) {
    d in s.ops && s.ops[d].ToCommit? && s.ops[d].lease.binding in s.listeners ==>
      var entry := s.listeners[s.ops[d].lease.binding];
      entry.listener in s.grants && s.grants[entry.listener] == GrantOf(s.ops[d].lease)
  }

  /** At most one renewal is on its way, and it carries its lease as it is. */
  ghost predicate RenewalCurrent(s: State, t: Task)
    requires t in s.renewals
  {
    var grant := s.renewals[t].grant;
    && s.ops == map[] && (forall u | u in s.renewals :: u == t)
    && grant.lease in s.leasesById && grant == GrantOf(s.leasesById[grant.lease])
    && (s.renewals[t].ToApply? ==>
          grant.binding in s.listeners && s.listeners[grant.binding].listener == s.renewals[t].listener)
  }

  ghost predicate Current(s: State) {
    && ListenersDiffer(s)
    && (forall i | i in s.listeners :: GrantCurrent(s, i))
    && (forall d :: CommitCurrent(s, d))
    && (forall t | t in s.renewals :: RenewalCurrent(s, t))
  }

  // ---------- whose listener is it ----------

  lemma EntryOwner(s: State, i: BindingId)
    requires Inv(s) && i in s.listeners && s.listeners[i].boundBy in s.leasesById
    ensures s.leasesById[s.listeners[i].boundBy].binding == i
  {
    assert StageSound(s, s.bindingsById[i].device);
  }

  lemma EntryPending(s: State, i: BindingId, d: Device)
    requires Inv(s) && i in s.listeners && d in s.ops && s.ops[d].ToCommit? && s.listeners[i].boundBy == s.ops[d].lease.id
    ensures s.ops[d].lease.binding == i
  {
    var e := s.bindingsById[i].device;
    assert StageSound(s, e) && StageSound(s, d);
    assert PendingLease(s, e) == PendingLease(s, d);
  }

  // ---------- every step ----------

  /** Steps that leave listeners, grants and renewals alone, and what leases grant. */
  lemma NothingGranted(s: State, next: State)
    requires Current(s)
    requires next.listeners == s.listeners && next.grants == s.grants && next.renewals == s.renewals
    requires next.nextListener == s.nextListener
    requires forall l | l in next.leasesById :: l in s.leasesById && GrantOf(next.leasesById[l]) == GrantOf(s.leasesById[l])
    requires forall d | d in next.ops && next.ops[d].ToCommit? :: d in s.ops && s.ops[d] == next.ops[d]
    requires s.renewals != map[] ==> next.ops == map[] && next.leasesById.Keys == s.leasesById.Keys
    ensures Current(next)
  {
    forall i | i in next.listeners ensures GrantCurrent(next, i) { assert GrantCurrent(s, i); }
    forall d ensures CommitCurrent(next, d) { assert CommitCurrent(s, d); }
    forall t | t in next.renewals ensures RenewalCurrent(next, t) { assert RenewalCurrent(s, t); }
  }

  /** An operation in flight means no renewal is. */
  lemma BusyMeansNoRenewal(s: State, d: Device)
    requires Current(s) && d in s.ops
    ensures s.renewals == map[]
  {
    forall t ensures t !in s.renewals { assert t in s.renewals ==> RenewalCurrent(s, t); }
  }

  lemma BindInsertCurrent(s: State, d: Device, listening: bool)
    requires Inv(s) && Current(s) && d in s.ops && s.ops[d].InBind?
    ensures Current(BindInsertStep(s, d, listening))
  {
    var next := BindInsertStep(s, d, listening);
    BusyMeansNoRenewal(s, d);
    assert StageSound(s, d);
    if !listening {
      NothingGranted(s, next);
    } else {
      var lease := s.ops[d].lease;
      forall i | i in next.listeners ensures GrantCurrent(next, i) {
        if i != lease.binding { assert GrantCurrent(s, i); }
      }
      forall e ensures CommitCurrent(next, e) {
        assert CommitCurrent(s, e);
        if e != d && e in s.ops && s.ops[e].ToCommit? {
          assert StageSound(s, e);
          assert s.ops[e].lease.binding != lease.binding;
        }
      }
    }
  }

  lemma CommitKeepsCurrent(s: State, d: Device)
    requires Inv(s) && Current(s) && d in s.ops && s.ops[d].ToCommit? && d in s.bindingsByDevice
    ensures Current(CommitStep(s, d))
  {
    var next := CommitStep(s, d);
    BusyMeansNoRenewal(s, d);
    assert StageSound(s, d) && CommitCurrent(s, d);
    forall i | i in next.listeners ensures GrantCurrent(next, i) {
      assert GrantCurrent(s, i);
      if s.listeners[i].boundBy == s.ops[d].lease.id { EntryPending(s, i, d); }
    }
    forall e ensures CommitCurrent(next, e) { assert CommitCurrent(s, e); }
  }

  lemma UnbindCurrent(s: State, d: Device)
    requires Inv(s) && Current(s) && d in s.ops && s.ops[d].ToUnbind?
    ensures Current(UnbindStep(s, d))
  {
    var next := UnbindStep(s, d);
    BusyMeansNoRenewal(s, d);
    forall i | i in next.listeners ensures GrantCurrent(next, i) { assert GrantCurrent(s, i); }
    forall e ensures CommitCurrent(next, e) { assert CommitCurrent(s, e); }
  }

  lemma RenewCurrent(s: State, d: Device, expiresAt: int)
    requires Inv(s) && Current(s) && s.ops == map[] && s.renewals == map[]
    requires d in s.leasesByDevice && s.leasesByDevice[d].status.Active?
    ensures Current(RenewStep(s, d, expiresAt))
  {
    var next := RenewStep(s, d, expiresAt);
    var lease := next.leasesByDevice[d];
    assert s.nextTask in next.renewals && next.renewals[s.nextTask].grant == GrantOf(lease);
    forall i | i in next.listeners ensures GrantCurrent(next, i) { assert GrantCurrent(s, i); }
    forall e ensures CommitCurrent(next, e) { assert CommitCurrent(s, e); }
    forall t | t in next.renewals ensures RenewalCurrent(next, t) {}
  }

  lemma FindListenerCurrent(s: State, t: Task)
    requires Inv(s) && Current(s) && t in s.renewals && s.renewals[t].ToLookup?
    ensures Current(FindListenerStep(s, t))
  {
    var next := FindListenerStep(s, t);
    var grant := s.renewals[t].grant;
    assert RenewalCurrent(s, t);
    forall i | i in next.listeners ensures GrantCurrent(next, i) {
      assert GrantCurrent(s, i);
      if s.listeners[i].boundBy in s.leasesById {
        EntryOwner(s, i);
        if grant.binding in s.listeners { assert t in next.renewals && next.renewals[t].grant == grant; }
      }
    }
    forall e ensures CommitCurrent(next, e) { assert CommitCurrent(s, e); }
    forall u | u in next.renewals ensures RenewalCurrent(next, u) { assert RenewalCurrent(s, u); }
  }

  lemma UpdateGrantCurrent(s: State, t: Task)
    requires Inv(s) && Current(s) && t in s.renewals && s.renewals[t].ToApply?
    ensures Current(UpdateGrantStep(s, t))
  {
    var next := UpdateGrantStep(s, t);
    var grant := s.renewals[t].grant;
    assert RenewalCurrent(s, t);
    assert next.renewals == map[];
    var owner := s.leasesById[grant.lease].device;
    assert StageSound(s, owner);
    assert s.listeners[grant.binding].boundBy == grant.lease;
    forall i | i in next.listeners ensures GrantCurrent(next, i) {
      assert GrantCurrent(s, i);
      if i != grant.binding && s.listeners[i].boundBy in s.leasesById { EntryOwner(s, i); }
    }
    forall e ensures CommitCurrent(next, e) { assert CommitCurrent(s, e); }
  }

  /** A step that only moves an operation on, before anything is bound. */
  lemma StageStepCurrent(s: State, next: State, d: Device)
    requires Current(s) && d in next.ops && !next.ops[d].ToCommit? && (d in s.ops || s.renewals == map[])
    requires next.listeners == s.listeners && next.grants == s.grants && next.renewals == s.renewals
    requires next.nextListener == s.nextListener && next.leasesById == s.leasesById
    requires next.ops == s.ops[d := next.ops[d]]
    ensures Current(next)
  {
    if d in s.ops { BusyMeansNoRenewal(s, d); }
    NothingGranted(s, next);
  }

  lemma StartAcquireCurrent(s: State, d: Device)
    requires Current(s) && s.ops == map[] && s.renewals == map[] && !(d in s.leasesByDevice && s.leasesByDevice[d].status.Active?)
    ensures Current(StartAcquireStep(s, d))
  {
    StageStepCurrent(s, StartAcquireStep(s, d), d);
  }

  lemma TakePortCurrent(s: State, d: Device)
    requires Current(s) && d in s.ops && s.ops[d].Allocating? && |s.pool.available| > 0
    ensures Current(TakePortStep(s, d))
  {
    StageStepCurrent(s, TakePortStep(s, d), d);
  }

  lemma ProbeEndsCurrent(s: State, d: Device, free: bool)
    requires Current(s) && d in s.ops && s.ops[d].Probing?
    ensures Current(ProbeEndsStep(s, d, free))
  {
    StageStepCurrent(s, ProbeEndsStep(s, d, free), d);
  }

  lemma RoundEndsCurrent(s: State, d: Device)
    requires Current(s) && d in s.ops && s.ops[d].Allocating? && |s.pool.available| == 0
    ensures Current(RoundEndsStep(s, d))
  {
    StageStepCurrent(s, RoundEndsStep(s, d), d);
  }

  lemma RetryCurrent(s: State, d: Device)
    requires Current(s) && d in s.ops && s.ops[d].Retrying?
    ensures Current(RetryStep(s, d))
  {
    StageStepCurrent(s, RetryStep(s, d), d);
  }

  lemma EnterBindingCurrent(s: State, d: Device)
    requires Current(s) && d in s.ops && s.ops[d].HasPort?
    ensures Current(EnterBindingStep(s, d))
  {
    StageStepCurrent(s, EnterBindingStep(s, d), d);
  }

  lemma SaveEndsCurrent(s: State, d: Device, saved: bool)
    requires Current(s) && d in s.ops && s.ops[d].Saving? && d in s.bindingsByDevice
    ensures Current(SaveEndsStep(s, d, saved))
  {
    StageStepCurrent(s, SaveEndsStep(s, d, saved), d);
  }

  lemma FreePortCurrent(s: State, d: Device)
    requires Current(s) && d in s.ops && s.ops[d].Rollback?
    ensures Current(FreePortStep(s, d))
  {
    StageStepCurrent(s, FreePortStep(s, d), d);
  }

  /** BindCheck does not find a listener, so nothing is committed without one of its own. */
  lemma BindCheckCurrent(s: State, d: Device, owner: string, expiresAt: int)
    requires Inv(s) && Current(s) && d in s.ops && s.ops[d].ToBind?
    ensures Current(BindCheckStep(s, d, owner, expiresAt))
  {
    assert StageSound(s, d);
    BusyMeansNoRenewal(s, d);
    NothingGranted(s, BindCheckStep(s, d, owner, expiresAt));
  }

  lemma ReleaseStepCurrent(s: State, step: Step)
    requires Inv(s) && Current(s) && Enabled(s, step) && Sequential(s, step)
    requires step.Finish? || step.StartRelease? || step.DeleteLease?
    ensures Current(Apply(s, step))
  {
    if !step.StartRelease? { BusyMeansNoRenewal(s, step.device); }
    NothingGranted(s, Apply(s, step));
  }

  /** What the gateway and the registry report changes no grant. */
  lemma FactCurrent(s: State, next: State)
    requires Current(s) && next.ops == s.ops
    requires next.listeners == s.listeners && next.grants == s.grants && next.renewals == s.renewals
    requires next.nextListener == s.nextListener && next.leasesById.Keys == s.leasesById.Keys
    requires forall l | l in s.leasesById :: GrantOf(next.leasesById[l]) == GrantOf(s.leasesById[l])
    ensures Current(next)
  {
    forall t | t in s.renewals ensures s.ops == map[] { assert RenewalCurrent(s, t); }
    NothingGranted(s, next);
  }

  lemma ConnectionOpenedCurrent(s: State, l: LeaseId)
    requires Inv(s) && Current(s) && l in s.leasesById && s.leasesById[l].status.Active?
    ensures Current(ConnectionOpenedStep(s, l))
  {
    FactCurrent(s, ConnectionOpenedStep(s, l));
  }

  lemma ConnectionClosedCurrent(s: State, l: LeaseId)
    requires Inv(s) && Current(s) && l in s.leasesById
    ensures Current(ConnectionClosedStep(s, l))
  {
    FactCurrent(s, ConnectionClosedStep(s, l));
  }

  lemma ReconcileCurrent(s: State, d: Device, status: BindingStatus)
    requires Inv(s) && Current(s) && d in s.bindingsByDevice && d !in s.leasesByDevice && !status.Listening?
    ensures Current(ReconcileStep(s, d, status))
  {
    FactCurrent(s, ReconcileStep(s, d, status));
  }

  lemma OperationCurrent(s: State, step: Step)
    requires Inv(s) && Current(s) && Enabled(s, step) && Sequential(s, step)
    requires !step.ConnectionOpened? && !step.ConnectionClosed? && !step.Reconcile?
    requires !step.Renew? && !step.FindListener? && !step.UpdateGrant?
    ensures Current(Apply(s, step))
  {
    match step
    case BindCheck(d, owner, expiresAt) => BindCheckCurrent(s, d, owner, expiresAt);
    case BindInsert(d, listening) => BindInsertCurrent(s, d, listening);
    case Commit(d) => CommitKeepsCurrent(s, d);
    case Unbind(d) => UnbindCurrent(s, d);
    case Finish(_) => ReleaseStepCurrent(s, step);
    case StartRelease(_) => ReleaseStepCurrent(s, step);
    case DeleteLease(_, _) => ReleaseStepCurrent(s, step);
    case StartAcquire(d) => StartAcquireCurrent(s, d);
    case TakePort(d) => TakePortCurrent(s, d);
    case ProbeEnds(d, free) => ProbeEndsCurrent(s, d, free);
    case RoundEnds(d) => RoundEndsCurrent(s, d);
    case Retry(d) => RetryCurrent(s, d);
    case EnterBinding(d) => EnterBindingCurrent(s, d);
    case SaveEnds(d, saved) => SaveEndsCurrent(s, d, saved);
    case FreePort(d) => FreePortCurrent(s, d);
  }

  lemma RenewalStepCurrent(s: State, step: Step)
    requires Inv(s) && Current(s) && Enabled(s, step) && Sequential(s, step)
    requires step.Renew? || step.FindListener? || step.UpdateGrant?
    ensures Current(Apply(s, step))
  {
    match step
    case Renew(d, expiresAt) => RenewCurrent(s, d, expiresAt);
    case FindListener(t) => FindListenerCurrent(s, t);
    case UpdateGrant(t) => UpdateGrantCurrent(s, t);
  }

  lemma FactStepCurrent(s: State, step: Step)
    requires Inv(s) && Current(s) && Enabled(s, step)
    requires step.ConnectionOpened? || step.ConnectionClosed? || step.Reconcile?
    ensures Current(Apply(s, step))
  {
    match step
    case ConnectionOpened(l) => ConnectionOpenedCurrent(s, l);
    case ConnectionClosed(l) => ConnectionClosedCurrent(s, l);
    case Reconcile(d, status) => ReconcileCurrent(s, d, status);
  }

  lemma StepKeepsCurrent(s: State, step: Step)
    requires Inv(s) && Current(s) && Enabled(s, step) && Sequential(s, step)
    ensures Current(Apply(s, step))
  {
    if step.Renew? || step.FindListener? || step.UpdateGrant? {
      RenewalStepCurrent(s, step);
    } else if step.ConnectionOpened? || step.ConnectionClosed? || step.Reconcile? {
      FactStepCurrent(s, step);
    } else {
      OperationCurrent(s, step);
    }
  }

  // ---------- whole runs ----------

  /** A run in which every step is one that a single caller, and the gateway's callbacks, can take. */
  ghost predicate SequentialRun(s: State, steps: seq<Step>)
    decreases |steps|
  {
    |steps| > 0 ==>
      var front := steps[..|steps| - 1];
      SequentialRun(s, front) && Run(s, front).Some? && Sequential(Run(s, front).value, steps[|steps| - 1])
  }

  lemma {:induction false} RunKeepsCurrent(s: State, steps: seq<Step>)
    requires Inv(s) && Current(s) && Run(s, steps).Some? && SequentialRun(s, steps)
    ensures Current(Run(s, steps).value)
    decreases |steps|
  {
    if |steps| > 0 {
      var front := steps[..|steps| - 1];
      RunKeepsInv(s, front);
      RunKeepsCurrent(s, front);
      StepKeepsCurrent(Run(s, front).value, steps[|steps| - 1]);
    }
  }

  /** With one caller, between its calls every listener admits by its device's lease: the same id and
      binding, and the expiry of its last renewal. */
  lemma GrantFollowsLease(start: State, steps: seq<Step>, s: State, d: Device)
    requires Initial(start) && Run(start, steps) == Some(s) && SequentialRun(start, steps)
    requires s.ops == map[] && s.renewals == map[] && d in s.leasesByDevice
    ensures var l := s.leasesByDevice[d];
      && l.binding in s.listeners && s.listeners[l.binding].listener in s.grants
      && s.grants[s.listeners[l.binding].listener] == Grant(l.id, l.binding, l.expiresAt)
  {
    LeaseAndListenerAgree(start, steps, s, d);
    InitialInv(start);
    RunKeepsCurrent(start, steps);
    assert GrantCurrent(s, s.leasesByDevice[d].binding);
  }
}
