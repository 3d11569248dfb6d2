/** Renewals with any number of callers: when a listener admits by its lease although renewals of it, or of
    earlier leases, are still on their way. */
module LeaseRenewals {
  import opened Text
  import opened Lease
  import opened LeaseGrants

  // ---------- what reaches a listener ----------

  function ListenerOf(s: State, d: Device): Listener
    requires Listens(s, d)
  {
    s.listeners[s.bindingsByDevice[d].id].listener
  }

  /** A renewal on its way to the listener of a device: it is going to look for it, or has found it. */
  predicate Reaches(s: State, t: Task, d: Device)
    requires t in s.renewals && Listens(s, d)
  {
    match s.renewals[t]
    case ToLookup(grant) => grant.binding == s.bindingsByDevice[d].id
    case ToApply(listener, _) => listener == ListenerOf(s, d)
  }

  /** Listeners and renewals are new when they are entered. */
  ghost predicate Numbered(s: State) {
    ListenersDiffer(s) && forall t | t in s.renewals :: t < s.nextTask
  }

  /** A device at rest that has its lease. */
  ghost predicate Leased(s: State, d: Device) {
    Numbered(s) && d !in s.ops && d in s.leasesByDevice && Listens(s, d)
  }

  function CurrentGrant(s: State, d: Device): Grant
    requires d in s.leasesByDevice
  {
    GrantOf(s.leasesByDevice[d])
  }

  /** The listener of the device admits by that grant. */
  predicate Admits(s: State, d: Device, grant: Grant)
    requires Listens(s, d)
  {
    ListenerOf(s, d) in s.grants && s.grants[ListenerOf(s, d)] == grant
  }

  ghost predicate NoneReaches(s: State, d: Device)
    requires Listens(s, d)
  {
    forall t | t in s.renewals :: !Reaches(s, t, d)
  }

  /** Every renewal that reaches the device's listener brings that grant, which is there if none does. */
  ghost predicate AllBring(s: State, d: Device, grant: Grant)
    requires Listens(s, d)
  {
    && (forall t | t in s.renewals && Reaches(s, t, d) :: s.renewals[t].grant == grant)
    && (NoneReaches(s, d) ==> Admits(s, d, grant))
  }

  // ---------- in any run ----------

  lemma BindInsertNumbered(s: State, d: Device, listening: bool)
    requires Numbered(s) && d in s.ops && s.ops[d].InBind?
    ensures Numbered(BindInsertStep(s, d, listening))
  {
  }

  lemma RenewNumbered(s: State, d: Device, expiresAt: int)
    requires Numbered(s) && d !in s.ops && d in s.leasesByDevice && s.leasesByDevice[d].status.Active?
    ensures Numbered(RenewStep(s, d, expiresAt))
  {
  }

  lemma UnbindNumbered(s: State, d: Device)
    requires Numbered(s) && d in s.ops && s.ops[d].ToUnbind?
    ensures Numbered(UnbindStep(s, d))
  {
  }

  lemma FindListenerNumbered(s: State, t: Task)
    requires Numbered(s) && t in s.renewals && s.renewals[t].ToLookup?
    ensures Numbered(FindListenerStep(s, t))
  {
  }

  lemma UpdateGrantNumbered(s: State, t: Task)
    requires Numbered(s) && t in s.renewals && s.renewals[t].ToApply?
    ensures Numbered(UpdateGrantStep(s, t))
  {
  }

  predicate SameTables(s: State, next: State) {
    && next.listeners == s.listeners && next.grants == s.grants && next.renewals == s.renewals
    && next.nextListener == s.nextListener && next.nextTask == s.nextTask
  }

  lemma AllocatingTables(s: State, step: Step)
    requires Enabled(s, step)
    requires step.StartAcquire? || step.TakePort? || step.ProbeEnds? || step.RoundEnds? || step.Retry? || step.EnterBinding?
    ensures SameTables(s, Apply(s, step))
  {
  }

  lemma BindingTables(s: State, step: Step)
    requires Enabled(s, step)
    requires step.SaveEnds? || step.FreePort? || step.BindCheck? || step.Commit? || step.Finish? || step.StartRelease?
    ensures SameTables(s, Apply(s, step))
  {
  }

  lemma FactTables(s: State, step: Step)
    requires Enabled(s, step)
    requires step.DeleteLease? || step.ConnectionOpened? || step.ConnectionClosed? || step.Reconcile?
    ensures SameTables(s, Apply(s, step))
  {
  }

  lemma StepKeepsNumbered(s: State, step: Step)
    requires Numbered(s) && Enabled(s, step)
    ensures Numbered(Apply(s, step))
  {
    match step
    case BindInsert(d, listening) => BindInsertNumbered(s, d, listening);
    case Renew(d, expiresAt) => RenewNumbered(s, d, expiresAt);
    case Unbind(d) => UnbindNumbered(s, d);
    case FindListener(t) => FindListenerNumbered(s, t);
    case UpdateGrant(t) => UpdateGrantNumbered(s, t);
    case _ => OtherTables(s, step);
  }

  lemma OtherTables(s: State, step: Step)
    requires Enabled(s, step)
    requires !step.BindInsert? && !step.Renew? && !step.Unbind? && !step.FindListener? && !step.UpdateGrant?
    ensures SameTables(s, Apply(s, step))
  {
    if step.StartAcquire? || step.TakePort? || step.ProbeEnds? || step.RoundEnds? || step.Retry? || step.EnterBinding? {
      AllocatingTables(s, step);
    } else if step.DeleteLease? || step.ConnectionOpened? || step.ConnectionClosed? || step.Reconcile? {
      FactTables(s, step);
    } else {
      BindingTables(s, step);
    }
  }

  lemma {:induction false} RunKeepsNumbered(s: State, steps: seq<Step>)
    requires Numbered(s) && Run(s, steps).Some?
    ensures Numbered(Run(s, steps).value)
    decreases |steps|
  {
    if |steps| > 0 {
      var front := steps[..|steps| - 1];
      RunKeepsNumbered(s, front);
      StepKeepsNumbered(Run(s, front).value, steps[|steps| - 1]);
    }
  }

  // ---------- while the lease lasts and is not renewed again ----------

  /** The device still has its lease, its binding and its listener. */
  ghost predicate StaysLeased(s: State, next: State, d: Device)
    requires Leased(s, d)
  {
    && Leased(next, d) && next.leasesByDevice[d].id == s.leasesByDevice[d].id
    && CurrentGrant(next, d) == CurrentGrant(s, d) && ListenerOf(next, d) == ListenerOf(s, d)
    && next.bindingsByDevice[d].id == s.bindingsByDevice[d].id
  }

  /** A step that neither releases the device's lease nor renews it. */
  predicate LeavesAlone(step: Step, d: Device, lease: LeaseId) {
    step != StartRelease(lease) && !(step.Renew? && step.device == d)
  }

  lemma ForeignKeepsLease(s: State, next: State, e: Device, d: Device)
    requires BindingsAgree(s) && d !in s.ops && d in s.leasesByDevice && Listens(s, d) && Footprint(s, next, e) && e != d
    ensures d !in next.ops && d in next.leasesByDevice && next.leasesByDevice[d] == s.leasesByDevice[d] && Listens(next, d)
    ensures ListenerOf(next, d) == ListenerOf(s, d) && next.bindingsByDevice[d].id == s.bindingsByDevice[d].id
  {
    FootprintUntouched(s, next, e, d);
  }

  /** A renewal that is new does not look for the device's binding. */
  predicate NoneNew(s: State, next: State, d: Device) {
    s.nextTask in next.renewals && Listens(next, d) ==> !Reaches(next, s.nextTask, d)
  }

  /** Grants and renewals are only added to, and no new renewal is for the device. */
  lemma ForeignBrings(s: State, next: State, d: Device, grant: Grant)
    requires Numbered(s) && Listens(s, d) && Listens(next, d) && AllBring(s, d, grant)
    requires ListenerOf(next, d) == ListenerOf(s, d) && next.bindingsByDevice[d].id == s.bindingsByDevice[d].id
    requires SameElsewhere(s.grants, next.grants, s.nextListener) && SameElsewhere(s.renewals, next.renewals, s.nextTask)
    requires NoneNew(s, next, d)
    ensures AllBring(next, d, grant)
  {
    assert forall t | t in s.renewals :: t in next.renewals && (Reaches(next, t, d) <==> Reaches(s, t, d));
  }

  lemma SameRenewals(s: State, step: Step)
    requires Enabled(s, step) && !step.Renew? && !step.FindListener? && !step.UpdateGrant?
    ensures Apply(s, step).renewals == s.renewals
  {
    match step
    case BindInsert(d, listening) => assert BindInsertStep(s, d, listening).renewals == s.renewals;
    case Unbind(d) => assert UnbindStep(s, d).renewals == s.renewals;
    case _ => OtherTables(s, step);
  }

  lemma RenewIsForeign(s: State, e: Device, expiresAt: int, d: Device)
    requires BindingsAgree(s) && LeasesAgree(s) && Listens(s, d) && e != d
    requires e !in s.ops && e in s.leasesByDevice && s.leasesByDevice[e].status.Active?
    ensures NoneNew(s, RenewStep(s, e, expiresAt), d)
  {
  }

  lemma NewRenewalIsForeign(s: State, step: Step, d: Device)
    requires BindingsAgree(s) && LeasesAgree(s) && Leased(s, d) && Enabled(s, step)
    requires !step.FindListener? && !step.UpdateGrant? && DeviceOf(s, step) != d
    ensures NoneNew(s, Apply(s, step), d)
  {
    match step
    case Renew(e, expiresAt) => RenewIsForeign(s, e, expiresAt, d);
    case _ => SameRenewals(s, step);
  }

  lemma ForeignStep(s: State, step: Step, d: Device, grant: Grant)
    requires Inv(s) && Leased(s, d) && AllBring(s, d, grant) && Enabled(s, step)
    requires !step.FindListener? && !step.UpdateGrant? && DeviceOf(s, step) != d
    ensures StaysLeased(s, Apply(s, step), d) && AllBring(Apply(s, step), d, grant)
  {
    var next := Apply(s, step);
    StepFootprint(s, step);
    StepKeepsNumbered(s, step);
    ForeignKeepsLease(s, next, DeviceOf(s, step), d);
    NewRenewalIsForeign(s, step, d);
    ForeignBrings(s, next, d, grant);
  }

  /** Left alone, the device itself sees only connections come and go. */
  lemma OwnStep(s: State, step: Step, d: Device)
    requires LeasesAgree(s) && AtRest(s, d) && Leased(s, d) && Enabled(s, step) && LeavesAlone(step, d, s.leasesByDevice[d].id)
    requires !step.FindListener? && !step.UpdateGrant? && DeviceOf(s, step) == d
    ensures step.ConnectionOpened? || step.ConnectionClosed?
  {
  }

  predicate SameLease(s: State, next: State, d: Device)
    requires d in s.leasesByDevice
  {
    && next.ops == s.ops && next.bindingsByDevice == s.bindingsByDevice && d in next.leasesByDevice
    && next.leasesByDevice[d].id == s.leasesByDevice[d].id && CurrentGrant(next, d) == CurrentGrant(s, d)
  }

  lemma SameTablesLeave(s: State, next: State, d: Device, grant: Grant)
    requires Leased(s, d) && AllBring(s, d, grant) && SameTables(s, next) && SameLease(s, next, d)
    ensures StaysLeased(s, next, d) && AllBring(next, d, grant)
  {
    assert forall t | t in s.renewals :: Reaches(next, t, d) <==> Reaches(s, t, d);
  }

  lemma ConnectionOpenedLeaves(s: State, l: LeaseId, d: Device, grant: Grant)
    requires LeasesAgree(s) && Leased(s, d) && AllBring(s, d, grant) && l in s.leasesById && s.leasesById[l].status.Active?
    ensures StaysLeased(s, ConnectionOpenedStep(s, l), d) && AllBring(ConnectionOpenedStep(s, l), d, grant)
  {
    SameTablesLeave(s, ConnectionOpenedStep(s, l), d, grant);
  }

  lemma ConnectionClosedLeaves(s: State, l: LeaseId, d: Device, grant: Grant)
    requires LeasesAgree(s) && Leased(s, d) && AllBring(s, d, grant) && l in s.leasesById
    ensures StaysLeased(s, ConnectionClosedStep(s, l), d) && AllBring(ConnectionClosedStep(s, l), d, grant)
  {
    SameTablesLeave(s, ConnectionClosedStep(s, l), d, grant);
  }

  lemma FindListenerLeaves(s: State, t: Task, d: Device, grant: Grant)
    requires Leased(s, d) && AllBring(s, d, grant) && t in s.renewals && s.renewals[t].ToLookup?
    ensures StaysLeased(s, FindListenerStep(s, t), d) && AllBring(FindListenerStep(s, t), d, grant)
  {
    var next := FindListenerStep(s, t);
    FindListenerNumbered(s, t);
    if Reaches(s, t, d) { assert t in next.renewals && Reaches(next, t, d); }
    assert forall u | u in s.renewals && u != t :: u in next.renewals && (Reaches(next, u, d) <==> Reaches(s, u, d));
  }

  lemma UpdateGrantLeaves(s: State, t: Task, d: Device, grant: Grant)
    requires Leased(s, d) && AllBring(s, d, grant) && t in s.renewals && s.renewals[t].ToApply?
    ensures StaysLeased(s, UpdateGrantStep(s, t), d) && AllBring(UpdateGrantStep(s, t), d, grant)
  {
    var next := UpdateGrantStep(s, t);
    UpdateGrantNumbered(s, t);
    assert forall u | u in s.renewals && u != t :: u in next.renewals && (Reaches(next, u, d) <==> Reaches(s, u, d));
  }

  lemma StepLeaves(s: State, step: Step, d: Device, grant: Grant)
    requires Inv(s) && Leased(s, d) && AllBring(s, d, grant) && Enabled(s, step)
    requires LeavesAlone(step, d, s.leasesByDevice[d].id)
    ensures StaysLeased(s, Apply(s, step), d) && AllBring(Apply(s, step), d, grant)
  {
    if step.FindListener? {
      FindListenerLeaves(s, step.task, d, grant);
    } else if step.UpdateGrant? {
      UpdateGrantLeaves(s, step.task, d, grant);
    } else if DeviceOf(s, step) != d {
      ForeignStep(s, step, d, grant);
    } else {
      assert StageSound(s, d);
      OwnStep(s, step, d);
      if step.ConnectionOpened? {
        ConnectionOpenedLeaves(s, step.lease, d, grant);
      } else {
        ConnectionClosedLeaves(s, step.lease, d, grant);
      }
    }
  }

  lemma {:induction false} RunLeaves(s: State, steps: seq<Step>, d: Device, grant: Grant)
    requires Inv(s) && Leased(s, d) && AllBring(s, d, grant) && Run(s, steps).Some?
    requires forall step <- steps :: LeavesAlone(step, d, s.leasesByDevice[d].id)
    ensures StaysLeased(s, Run(s, steps).value, d) && AllBring(Run(s, steps).value, d, grant)
    decreases |steps|
  {
    if |steps| > 0 {
      var front := steps[..|steps| - 1];
      RunKeepsInv(s, front);
      RunLeaves(s, front, d, grant);
      StepLeaves(Run(s, front).value, steps[|steps| - 1], d, grant);
    }
  }

  // ---------- finishing the renewals ----------

  predicate Draining(steps: seq<Step>) {
    forall step <- steps :: step.FindListener? || step.UpdateGrant?
  }

  lemma LastOfBoth(steps: seq<Step>, more: seq<Step>)
    requires |more| > 0
    ensures var all := steps + more;
      all[..|all| - 1] == steps + more[..|more| - 1] && all[|all| - 1] == more[|more| - 1]
  {
  }

  lemma {:induction false} RunAppend(s: State, steps: seq<Step>, more: seq<Step>)
    requires Run(s, steps).Some?
    ensures Run(s, steps + more) == Run(Run(s, steps).value, more)
    decreases |more|
  {
    if |more| == 0 {
      assert steps + more == steps;
    } else {
      LastOfBoth(steps, more);
      RunAppend(s, steps, more[..|more| - 1]);
    }
  }

  lemma RunOne(s: State, step: Step)
    requires Enabled(s, step)
    ensures Run(s, [step]) == Some(Apply(s, step))
  {
    assert [step][..0] == [];
  }

  /** One renewal can be finished before any other. */
  lemma DrainFound(s: State, t: Task)
    requires t in s.renewals && s.renewals[t].ToApply?
    ensures Run(s, [UpdateGrant(t)]) == Some(UpdateGrantStep(s, t))
    ensures var end := UpdateGrantStep(s, t); OnlyRenewals(s, end) && end.renewals == s.renewals - {t}
  {
    RunOne(s, UpdateGrant(t));
  }

  lemma DrainSought(s: State, t: Task) returns (steps: seq<Step>, end: State)
    requires t in s.renewals && s.renewals[t].ToLookup?
    ensures Run(s, steps) == Some(end) && Draining(steps)
    ensures OnlyRenewals(s, end) && end.renewals == s.renewals - {t}
  {
    var found := FindListenerStep(s, t);
    steps, end := [FindListener(t)], found;
    RunOne(s, FindListener(t));
    if t in found.renewals {
      DrainFound(found, t);
      RunAppend(s, steps, [UpdateGrant(t)]);
      steps, end := steps + [UpdateGrant(t)], UpdateGrantStep(found, t);
    }
  }

  lemma DrainOne(s: State, t: Task) returns (steps: seq<Step>, end: State)
    requires t in s.renewals
    ensures Run(s, steps) == Some(end) && Draining(steps)
    ensures OnlyRenewals(s, end) && end.renewals == s.renewals - {t}
  {
    if s.renewals[t].ToApply? {
      DrainFound(s, t);
      steps, end := [UpdateGrant(t)], UpdateGrantStep(s, t);
    } else {
      steps, end := DrainSought(s, t);
    }
  }

  lemma {:induction false} DrainAllBut(s: State, kept: set<Task>) returns (steps: seq<Step>, end: State)
    ensures Run(s, steps) == Some(end) && Draining(steps)
    ensures OnlyRenewals(s, end) && forall t :: t in end.renewals <==> t in s.renewals && t in kept
    ensures forall t | t in end.renewals :: end.renewals[t] == s.renewals[t]
    decreases |s.renewals.Keys - kept|
  {
    if t :| t in s.renewals && t !in kept {
      var first, next := DrainOne(s, t);
      assert next.renewals.Keys - kept == (s.renewals.Keys - kept) - {t};
      var rest;
      rest, end := DrainAllBut(next, kept);
      RunAppend(s, first, rest);
      steps := first + rest;
    } else {
      steps, end := [], s;
    }
  }

  ghost predicate AdmitsCurrent(s: State, d: Device) {
    d in s.leasesByDevice && Listens(s, d) && Admits(s, d, CurrentGrant(s, d))
  }

  /** Whatever else happens, as long as the lease lasts and is not renewed again: once no renewal reaches the
      device's listener any more, it admits by the lease. */
  ghost predicate EveryRunEndsRight(s: State, d: Device)
    requires Leased(s, d)
  {
    forall more | Run(s, more).Some? && forall step <- more :: LeavesAlone(step, d, s.leasesByDevice[d].id) ::
      var end := Run(s, more).value;
      Listens(end, d) && (NoneReaches(end, d) ==> AdmitsCurrent(end, d))
  }

  /** The same, if nothing happens but that the pending renewals are finished, in any order. */
  ghost predicate EveryOrderEndsRight(s: State, d: Device) {
    forall more | Run(s, more).Some? && Draining(more) && Run(s, more).value.renewals == map[] ::
      AdmitsCurrent(Run(s, more).value, d)
  }

  lemma RightIfAllBring(s: State, d: Device)
    requires Inv(s) && Leased(s, d) && AllBring(s, d, CurrentGrant(s, d))
    ensures EveryRunEndsRight(s, d)
  {
    forall more | Run(s, more).Some? && forall step <- more :: LeavesAlone(step, d, s.leasesByDevice[d].id)
      ensures var end := Run(s, more).value; Listens(end, d) && (NoneReaches(end, d) ==> AdmitsCurrent(end, d))
    {
      RunLeaves(s, more, d, CurrentGrant(s, d));
    }
  }

  lemma OrdersAreRuns(s: State, d: Device)
    requires Leased(s, d) && EveryRunEndsRight(s, d)
    ensures EveryOrderEndsRight(s, d)
  {
    forall more | Run(s, more).Some? && Draining(more) && Run(s, more).value.renewals == map[]
      ensures AdmitsCurrent(Run(s, more).value, d)
    {
      assert forall step <- more :: LeavesAlone(step, d, s.leasesByDevice[d].id);
    }
  }

  /** What the last renewals bring is what remains. */
  lemma LastRenewalWins(s: State, d: Device, grant: Grant) returns (rest: seq<Step>)
    requires Inv(s) && Leased(s, d) && AllBring(s, d, grant) && grant != CurrentGrant(s, d)
    ensures Run(s, rest).Some? && Draining(rest)
    ensures Run(s, rest).value.renewals == map[] && !AdmitsCurrent(Run(s, rest).value, d)
  {
    var end;
    rest, end := DrainAllBut(s, {});
    RunLeaves(s, rest, d, grant);
    assert NoneReaches(end, d);
  }

  lemma WrongOrder(s: State, d: Device, grant: Grant, before: seq<Step>, last: State)
    requires Inv(s) && Leased(s, d) && Run(s, before) == Some(last) && Draining(before)
    requires Leased(last, d) && AllBring(last, d, grant) && grant != CurrentGrant(last, d)
    ensures !EveryOrderEndsRight(s, d)
  {
    RunKeepsInv(s, before);
    var rest := LastRenewalWins(last, d, grant);
    RunAppend(s, before, rest);
    assert Draining(before + rest);
  }

  lemma OnlyRenewalsLeased(s: State, steps: seq<Step>, next: State, d: Device)
    requires Leased(s, d) && Run(s, steps) == Some(next) && OnlyRenewals(s, next)
    ensures Leased(next, d) && CurrentGrant(next, d) == CurrentGrant(s, d)
    ensures next.bindingsByDevice[d].id == s.bindingsByDevice[d].id && ListenerOf(next, d) == ListenerOf(s, d)
  {
    RunKeepsNumbered(s, steps);
  }

  lemma AllBringIfRight(s: State, d: Device)
    requires Inv(s) && Leased(s, d) && EveryOrderEndsRight(s, d)
    ensures AllBring(s, d, CurrentGrant(s, d))
  {
    var current := CurrentGrant(s, d);
    forall t | t in s.renewals && Reaches(s, t, d) ensures s.renewals[t].grant == current {
      if s.renewals[t].grant != current {
        var before, last := DrainAllBut(s, {t});
        OnlyRenewalsLeased(s, before, last, d);
        assert AllBring(last, d, s.renewals[t].grant) by { assert Reaches(last, t, d); }
        WrongOrder(s, d, s.renewals[t].grant, before, last);
      }
    }
    if NoneReaches(s, d) && !Admits(s, d, current) {
      assert AllBring(s, d, s.grants[ListenerOf(s, d)]);
      WrongOrder(s, d, s.grants[ListenerOf(s, d)], [], s);
    }
  }

  /** With any number of callers: a leased device's listener will admit by the lease as it is, whatever else
      happens while the lease lasts and is not renewed again, exactly when every renewal on its way to that
      listener brings the current grant, and the listener has it already if there is none.  If not, some
      order of finishing the renewals alone leaves a grant that is not the lease's. */
  lemma GrantFollowsIffAllBring(start: State, steps: seq<Step>, s: State, d: Device)
    requires Initial(start) && Run(start, steps) == Some(s) && d !in s.ops && d in s.leasesByDevice
    ensures Leased(s, d)
    ensures AllBring(s, d, CurrentGrant(s, d)) <==> EveryRunEndsRight(s, d)
    ensures AllBring(s, d, CurrentGrant(s, d)) <==> EveryOrderEndsRight(s, d)
  {
    InitialInv(start);
    RunKeepsInv(start, steps);
    RunKeepsNumbered(start, steps);
    assert StageSound(s, d);
    if AllBring(s, d, CurrentGrant(s, d)) { RightIfAllBring(s, d); }
    if EveryRunEndsRight(s, d) { OrdersAreRuns(s, d); }
    if EveryOrderEndsRight(s, d) { AllBringIfRight(s, d); }
  }

  // ---------- it can happen ----------

  /** Some run of steps leads from one state to the other. */
  ghost predicate LeadsTo(s: State, end: State) {
    exists steps :: Run(s, steps) == Some(end)
  }

  lemma LeadsOn(s: State, mid: State, step: Step)
    requires LeadsTo(s, mid) && Enabled(mid, step)
    ensures LeadsTo(s, Apply(mid, step))
  {
    var steps :| Run(s, steps) == Some(mid);
    RunOne(mid, step);
    RunAppend(s, steps, [step]);
  }

  lemma StartAcquireLeads(s: State, mid: State, d: Device)
    requires LeadsTo(s, mid) && d !in mid.ops && d !in mid.leasesByDevice
    ensures LeadsTo(s, StartAcquireStep(mid, d))
  {
    LeadsOn(s, mid, StartAcquire(d));
  }

  lemma BindCheckLeads(s: State, mid: State, d: Device, owner: string, expiresAt: int)
    requires LeadsTo(s, mid) && d in mid.ops && mid.ops[d].ToBind?
    ensures LeadsTo(s, BindCheckStep(mid, d, owner, expiresAt))
  {
    LeadsOn(s, mid, BindCheck(d, owner, expiresAt));
  }

  lemma BindInsertLeads(s: State, mid: State, d: Device)
    requires LeadsTo(s, mid) && d in mid.ops && mid.ops[d].InBind?
    ensures LeadsTo(s, BindInsertStep(mid, d, true))
  {
    LeadsOn(s, mid, BindInsert(d, true));
  }

  lemma CommitLeads(s: State, mid: State, d: Device)
    requires LeadsTo(s, mid) && d in mid.ops && mid.ops[d].ToCommit? && d in mid.bindingsByDevice
    ensures LeadsTo(s, CommitStep(mid, d))
  {
    LeadsOn(s, mid, Commit(d));
  }

  lemma FinishLeads(s: State, mid: State, d: Device)
    requires LeadsTo(s, mid) && d in mid.ops && mid.ops[d].Done?
    ensures LeadsTo(s, FinishStep(mid, d))
  {
    LeadsOn(s, mid, Finish(d));
  }

  lemma StartReleaseLeads(s: State, mid: State, l: LeaseId)
    requires LeadsTo(s, mid) && l in mid.leasesById && mid.leasesById[l].device !in mid.ops
    ensures LeadsTo(s, StartReleaseStep(mid, l))
  {
    LeadsOn(s, mid, StartRelease(l));
  }

  lemma UnbindLeads(s: State, mid: State, d: Device)
    requires LeadsTo(s, mid) && d in mid.ops && mid.ops[d].ToUnbind?
    ensures LeadsTo(s, UnbindStep(mid, d))
  {
    LeadsOn(s, mid, Unbind(d));
  }

  lemma DeleteLeaseLeads(s: State, mid: State, d: Device)
    requires LeadsTo(s, mid) && d in mid.ops && mid.ops[d].Unbound? && d in mid.leasesByDevice && d in mid.bindingsByDevice
    ensures LeadsTo(s, DeleteLeaseStep(mid, d, Reserved))
  {
    LeadsOn(s, mid, DeleteLease(d, Reserved));
  }

  lemma RenewLeads(s: State, mid: State, d: Device, expiresAt: int)
    requires LeadsTo(s, mid) && d !in mid.ops && d in mid.leasesByDevice && mid.leasesByDevice[d].status.Active?
    ensures LeadsTo(s, RenewStep(mid, d, expiresAt))
  {
    LeadsOn(s, mid, Renew(d, expiresAt));
  }

  lemma RenewalLeads(s: State, mid: State, t: Task, found: State)
    requires LeadsTo(s, mid) && t in mid.renewals && mid.renewals[t].ToLookup? && found == FindListenerStep(mid, t)
    requires t in found.renewals && found.renewals[t].ToApply?
    ensures LeadsTo(s, UpdateGrantStep(found, t))
  {
    LeadsOn(s, mid, FindListener(t));
    LeadsOn(s, found, UpdateGrant(t));
  }

  /** A device with a binding and nothing else. */
  predicate Idle(s: State, d: Device) {
    && d !in s.ops && d !in s.leasesByDevice
    && d in s.bindingsByDevice && s.bindingsByDevice[d].device == d && s.bindingsByDevice[d].id !in s.listeners
  }

  predicate SamePending(s: State, next: State) {
    next.ops == s.ops && next.renewals == s.renewals && next.nextTask == s.nextTask
  }

  /** What is left of a device that has just been acquired. */
  predicate Acquired(s: State, next: State, d: Device, expiresAt: int)
    requires d in s.bindingsByDevice
  {
    && d in next.leasesByDevice
    && var lease := next.leasesByDevice[d];
       && lease.id == s.nextLease && lease.device == d && lease.binding == s.bindingsByDevice[d].id
       && lease.status.Active? && lease.expiresAt == expiresAt
       && lease.id in next.leasesById && next.leasesById[lease.id] == lease && next.nextLease == s.nextLease + 1
       && d in next.bindingsByDevice && next.bindingsByDevice[d].id == lease.binding && next.bindingsByDevice[d].device == d
       && lease.binding in next.listeners && next.listeners[lease.binding] == Entry(s.nextListener, lease.id)
       && s.nextListener in next.grants && next.grants[s.nextListener] == GrantOf(lease)
  }

  lemma ToListenLeads(start: State, s: State, d: Device, lease: Lease) returns (next: State)
    requires LeadsTo(start, s) && Idle(s, d)
    requires lease == Lease(s.nextLease, d, s.bindingsByDevice[d].id, lease.owner, Active, lease.expiresAt, 0)
    ensures LeadsTo(start, next) && next == s.(ops := s.ops[d := InBind(lease)], nextLease := s.nextLease + 1)
  {
    StartAcquireLeads(start, s, d);
    next := StartAcquireStep(s, d);
    BindCheckLeads(start, next, d, lease.owner, lease.expiresAt);
    next := BindCheckStep(next, d, lease.owner, lease.expiresAt);
    assert next.ops == s.ops[d := InBind(lease)];
  }

  lemma ListenLeads(start: State, s: State, d: Device, lease: Lease) returns (next: State)
    requires LeadsTo(start, s) && Idle(s, d)
    requires lease == Lease(s.nextLease, d, s.bindingsByDevice[d].id, lease.owner, Active, lease.expiresAt, 0)
    ensures LeadsTo(start, next)
    ensures next == s.(ops := s.ops[d := ToCommit(lease)], nextLease := s.nextLease + 1,
      listeners := s.listeners[lease.binding := Entry(s.nextListener, lease.id)],
      grants := s.grants[s.nextListener := GrantOf(lease)], nextListener := s.nextListener + 1)
  {
    next := ToListenLeads(start, s, d, lease);
    BindInsertLeads(start, next, d);
    next := BindInsertStep(next, d, true);
    assert next.ops == s.ops[d := ToCommit(lease)];
  }

  lemma FinishedAcquire(s: State, d: Device, lease: Lease, mid: State)
    requires Idle(s, d) && lease.id == s.nextLease && lease.device == d && lease.binding == s.bindingsByDevice[d].id
    requires lease.status.Active?
    requires mid == s.(ops := s.ops[d := ToCommit(lease)], nextLease := s.nextLease + 1,
      listeners := s.listeners[lease.binding := Entry(s.nextListener, lease.id)],
      grants := s.grants[s.nextListener := GrantOf(lease)], nextListener := s.nextListener + 1)
    ensures var done := CommitStep(mid, d);
      && d in done.ops && done.ops[d].Done?
      && SamePending(s, FinishStep(done, d)) && Acquired(s, FinishStep(done, d), d, lease.expiresAt)
  {
  }

  lemma AcquireLeads(start: State, s: State, d: Device, owner: string, expiresAt: int) returns (next: State)
    requires LeadsTo(start, s) && Idle(s, d)
    ensures LeadsTo(start, next) && SamePending(s, next) && Acquired(s, next, d, expiresAt)
  {
    var lease := Lease(s.nextLease, d, s.bindingsByDevice[d].id, owner, Active, expiresAt, 0);
    var mid := ListenLeads(start, s, d, lease);
    FinishedAcquire(s, d, lease, mid);
    CommitLeads(start, mid, d);
    FinishLeads(start, CommitStep(mid, d), d);
    next := FinishStep(CommitStep(mid, d), d);
  }

  lemma WithdrawLeads(start: State, s: State, d: Device, lease: Lease) returns (next: State)
    requires LeadsTo(start, s) && d !in s.ops && lease.id in s.leasesById && s.leasesById[lease.id] == lease && lease.device == d
    ensures LeadsTo(start, next)
    ensures var l := lease.(status := Releasing);
      next == s.(ops := s.ops[d := Unbound(l.id)], listeners := s.listeners - {l.binding},
        leasesByDevice := s.leasesByDevice[d := l], leasesById := s.leasesById[l.id := l])
  {
    StartReleaseLeads(start, s, lease.id);
    next := StartReleaseStep(s, lease.id);
    UnbindLeads(start, next, d);
    next := UnbindStep(next, d);
    assert next.ops == s.ops[d := Unbound(lease.id)];
  }

  /** Releasing makes the device idle again, and leaves renewals alone. */
  lemma ReleaseLeads(start: State, s: State, d: Device, lease: Lease) returns (next: State)
    requires LeadsTo(start, s) && d !in s.ops && lease.id in s.leasesById && s.leasesById[lease.id] == lease && lease.device == d
    requires d in s.bindingsByDevice && s.bindingsByDevice[d].device == d && s.bindingsByDevice[d].id == lease.binding
    ensures LeadsTo(start, next) && SamePending(s, next) && Idle(next, d) && next.nextLease == s.nextLease
    ensures next.bindingsByDevice[d].id == s.bindingsByDevice[d].id
  {
    next := WithdrawLeads(start, s, d, lease);
    DeleteLeaseLeads(start, next, d);
    next := DeleteLeaseStep(next, d, Reserved);
    FinishLeads(start, next, d);
    next := FinishStep(next, d);
  }

  lemma InitialIdle(start: State, d: Device)
    requires Initial(start) && d in start.bindingsByDevice
    ensures Idle(start, d) && LeadsTo(start, start)
  {
    assert Run(start, []) == Some(start);
  }

  /** A run that ends with nothing under way and a listener that admits by a lease long released: acquire,
      renew, release and acquire again, and only then does the renewal get to the listener. */
  lemma LateRenewalReplacesGrant(start: State, d: Device, first: int, renewed: int, second: int) returns (end: State)
    requires Initial(start) && d in start.bindingsByDevice
    ensures LeadsTo(start, end) && end.ops == map[] && end.renewals == map[]
    ensures d in end.leasesByDevice && Listens(end, d) && end.leasesByDevice[d].id == start.nextLease + 1
    ensures Admits(end, d, Grant(start.nextLease, start.bindingsByDevice[d].id, renewed))
    ensures !AdmitsCurrent(end, d)
  {
    InitialIdle(start, d);
    var s := AcquireLeads(start, start, d, "owner", first);
    RenewLeads(start, s, d, renewed);
    s := RenewStep(s, d, renewed);
    s := ReleaseLeads(start, s, d, s.leasesByDevice[d]);
    s := AcquireLeads(start, s, d, "owner", second);
    RenewalLeads(start, s, start.nextTask, FindListenerStep(s, start.nextTask));
    end := UpdateGrantStep(FindListenerStep(s, start.nextTask), start.nextTask);
  }

  /** Nor need the renewal be of an earlier lease: when two renewals of the same one overtake each other, the
      listener is left with the older expiry. */
  lemma OvertakenRenewalIsStale(start: State, d: Device, first: int, older: int, newer: int) returns (end: State)
    requires Initial(start) && d in start.bindingsByDevice && older != newer
    ensures LeadsTo(start, end) && end.ops == map[] && end.renewals == map[]
    ensures d in end.leasesByDevice && Listens(end, d) && end.leasesByDevice[d].expiresAt == newer
    ensures Admits(end, d, CurrentGrant(end, d).(expiresAt := older)) && !AdmitsCurrent(end, d)
  {
    InitialIdle(start, d);
    var s := AcquireLeads(start, start, d, "owner", first);
    RenewLeads(start, s, d, older);
    s := RenewStep(s, d, older);
    RenewLeads(start, s, d, newer);
    s := RenewStep(s, d, newer);
    RenewalLeads(start, s, start.nextTask + 1, FindListenerStep(s, start.nextTask + 1));
    s := UpdateGrantStep(FindListenerStep(s, start.nextTask + 1), start.nextTask + 1);
    RenewalLeads(start, s, start.nextTask, FindListenerStep(s, start.nextTask));
    end := UpdateGrantStep(FindListenerStep(s, start.nextTask), start.nextTask);
  }
}
