/** One turn of the manager's Run loop (internal/remote/manager.go): reconcile, then AutoExpose, called
    from one goroutine over a registry that does not change meanwhile. */
module Tick {
  import opened Text
  import L = Lease
  import LeaseGrants
  import Ports

  type Device = string

  const AUTO := "auto"

  datatype DeviceInfo = DeviceInfo(connectKey: string, usb: bool, online: bool)

  datatype Env = Env(devices: map<Device, DeviceInfo>, now: int, maxTtl: int)
  {
    /** What reconcile looks at, */
    predicate Eligible(d: Device) {
      d in devices && devices[d].usb && devices[d].online
    }

    /** and what Acquire asks for. */
    predicate Exposable(d: Device) {
      Eligible(d) && Trim(devices[d].connectKey) != ""
    }

    function BindingStatusOf(d: Device): L.BindingStatus {
      if Eligible(d) then L.Reserved else L.Frozen
    }
  }

  // ---------- the maps ----------

  /** A point of a tick. */
  datatype Point = Point(facts: Facts, pool: Ports.Pool, nextBinding: nat, nextLease: nat)

  datatype Facts = Facts(
    bindingsByDevice: map<Device, L.Binding>, bindingsById: map<L.BindingId, L.Binding>,
    leasesByDevice: map<Device, L.Lease>, leasesById: map<L.LeaseId, L.Lease>,
    listeners: map<L.BindingId, L.Grant>)

  /** All that the maps say about one device. */
  datatype View = View(binding: Option<L.Binding>, lease: Option<L.Lease>, grant: Option<L.Grant>)

  function Of(f: Facts, d: Device): View {
    var binding := if d in f.bindingsByDevice then Some(f.bindingsByDevice[d]) else None;
    View(binding,
      if d in f.leasesByDevice then Some(f.leasesByDevice[d]) else None,
      if binding.Some? && binding.value.id in f.listeners then Some(f.listeners[binding.value.id]) else None)
  }

  ghost predicate BindingsAgree(f: Facts, nextBinding: nat) {
    && (forall d | d in f.bindingsByDevice ::
          var b := f.bindingsByDevice[d];
          b.device == d && b.id in f.bindingsById && f.bindingsById[b.id] == b)
    && (forall i | i in f.bindingsById ::
          var b := f.bindingsById[i];
          b.id == i < nextBinding && b.device in f.bindingsByDevice && f.bindingsByDevice[b.device] == b)
    && (forall i | i in f.listeners :: i in f.bindingsById)
  }

  ghost predicate LeasesAgree(f: Facts, nextLease: nat) {
    && (forall d | d in f.leasesByDevice ::
          var l := f.leasesByDevice[d]; l.device == d && l.id in f.leasesById && f.leasesById[l.id] == l)
    && (forall i | i in f.leasesById ::
          var l := f.leasesById[i];
          l.id == i < nextLease && l.device in f.leasesByDevice && f.leasesByDevice[l.device] == l)
  }

  /** A device is exposed, or it is not: nothing in between. */
  predicate Settled(v: View) {
    if v.lease.Some? then
      && v.lease.value.status.Active?
      && v.binding.Some? && v.binding.value.status.Listening? && v.binding.value.id == v.lease.value.binding
      && v.grant == Some(L.GrantOf(v.lease.value))
    else v.grant.None?
  }

  /** Between two calls. */
  ghost predicate Rest(f: Facts, nextBinding: nat, nextLease: nat) {
    BindingsAgree(f, nextBinding) && LeasesAgree(f, nextLease) && forall d :: Settled(Of(f, d))
  }

  ghost predicate OthersSame(f: Facts, next: Facts, d: Device) {
    forall e | e != d :: Of(next, e) == Of(f, e)
  }

  function PutBinding(f: Facts, b: L.Binding): Facts {
    f.(bindingsByDevice := f.bindingsByDevice[b.device := b], bindingsById := f.bindingsById[b.id := b])
  }

  function PutLease(f: Facts, l: L.Lease): Facts {
    f.(leasesByDevice := f.leasesByDevice[l.device := l], leasesById := f.leasesById[l.id := l])
  }

  /** After releaseLease. */
  function Withdrawn(f: Facts, d: Device, status: L.BindingStatus): Facts
    requires d in f.leasesByDevice && d in f.bindingsByDevice
  {
    var l := f.leasesByDevice[d];
    PutBinding(f, f.bindingsByDevice[d].(status := status)).(
      leasesByDevice := f.leasesByDevice - {d}, leasesById := f.leasesById - {l.id}, listeners := f.listeners - {l.binding})
  }

  /** After a renewal, grant included. */
  function Renewed(f: Facts, d: Device, expiresAt: int): Facts
    requires d in f.leasesByDevice
  {
    var l := f.leasesByDevice[d].(expiresAt := expiresAt);
    PutLease(f, l).(listeners := f.listeners[l.binding := L.GrantOf(l)])
  }

  /** After Acquire has committed. */
  function Exposed(f: Facts, d: Device, l: L.Lease): Facts
    requires d in f.bindingsByDevice
  {
    PutLease(PutBinding(f, f.bindingsByDevice[d].(status := L.Listening)), l).(
      listeners := f.listeners[l.binding := L.GrantOf(l)])
  }

  lemma WithdrawnRests(f: Facts, nextBinding: nat, nextLease: nat, d: Device, status: L.BindingStatus)
    requires Rest(f, nextBinding, nextLease) && d in f.leasesByDevice && d in f.bindingsByDevice
    ensures var next := Withdrawn(f, d, status);
      && Rest(next, nextBinding, nextLease) && OthersSame(f, next, d)
      && Of(next, d) == View(Some(f.bindingsByDevice[d].(status := status)), None, None)
  {
    var next := Withdrawn(f, d, status);
    assert Settled(Of(f, d));
    forall e | e != d ensures Of(next, e) == Of(f, e) {}
    forall e ensures Settled(Of(next, e)) { assert Settled(Of(f, e)); }
  }

  lemma RenewedRests(f: Facts, nextBinding: nat, nextLease: nat, d: Device, expiresAt: int)
    requires Rest(f, nextBinding, nextLease) && d in f.leasesByDevice
    ensures var next := Renewed(f, d, expiresAt);
      && Rest(next, nextBinding, nextLease) && OthersSame(f, next, d)
      && Of(next, d).binding == Of(f, d).binding
      && Of(next, d).lease == Some(f.leasesByDevice[d].(expiresAt := expiresAt))
  {
    var next := Renewed(f, d, expiresAt);
    assert Settled(Of(f, d));
    forall e | e != d ensures Of(next, e) == Of(f, e) {}
    forall e ensures Settled(Of(next, e)) { assert Settled(Of(f, e)); }
  }

  lemma ExposedRests(f: Facts, nextBinding: nat, nextLease: nat, d: Device, l: L.Lease)
    requires Rest(f, nextBinding, nextLease) && d in f.bindingsByDevice && d !in f.leasesByDevice
    requires l.device == d && l.binding == f.bindingsByDevice[d].id && l.status.Active?
    requires l.id == nextLease
    ensures var next := Exposed(f, d, l);
      && Rest(next, nextBinding, nextLease + 1) && OthersSame(f, next, d)
      && Of(next, d).lease == Some(l) && Of(next, d).binding == Some(f.bindingsByDevice[d].(status := L.Listening))
  {
    var next := Exposed(f, d, l);
    assert Settled(Of(f, d));
    forall e | e != d ensures Of(next, e) == Of(f, e) {}
    forall e ensures Settled(Of(next, e)) { assert Settled(Of(f, e)); }
  }

  lemma BoundRests(f: Facts, nextBinding: nat, nextLease: nat, b: L.Binding)
    requires Rest(f, nextBinding, nextLease) && b.device !in f.bindingsByDevice && b.id == nextBinding
    ensures var next := PutBinding(f, b);
      && Rest(next, nextBinding + 1, nextLease) && OthersSame(f, next, b.device)
      && Of(next, b.device) == View(Some(b), None, None)
      && next.(bindingsByDevice := next.bindingsByDevice - {b.device}, bindingsById := next.bindingsById - {b.id}) == f
  {
    var next := PutBinding(f, b);
    assert Settled(Of(f, b.device));
    forall e | e != b.device ensures Of(next, e) == Of(f, e) {}
    forall e ensures Settled(Of(next, e)) { assert Settled(Of(f, e)); }
  }

  lemma StatusRests(f: Facts, nextBinding: nat, nextLease: nat, d: Device, status: L.BindingStatus)
    requires Rest(f, nextBinding, nextLease) && d in f.bindingsByDevice && d !in f.leasesByDevice
    ensures var next := PutBinding(f, f.bindingsByDevice[d].(status := status));
      && Rest(next, nextBinding, nextLease) && OthersSame(f, next, d)
      && Of(next, d) == Of(f, d).(binding := Some(f.bindingsByDevice[d].(status := status)))
  {
    var next := PutBinding(f, f.bindingsByDevice[d].(status := status));
    forall e | e != d ensures Of(next, e) == Of(f, e) {}
    forall e ensures Settled(Of(next, e)) { assert Settled(Of(f, e)); }
  }

  // ---------- ports ----------

  function PortsOf(bindings: map<Device, L.Binding>): set<int> {
    set d | d in bindings :: bindings[d].port
  }

  /** The reserved ports are those of the bindings: none is shared with anything else, none has leaked. */
  ghost predicate PortsHeld(f: Facts, pool: Ports.Pool) {
    pool.Valid() && pool.minPort > 0 && pool.reserved == PortsOf(f.bindingsByDevice)
  }

  /** Neither round of an allocation finds a port. */
  ghost predicate Exhausted(pool: Ports.Pool, faults: Faults) {
    && (forall p <- pool.available :: p in faults.busy)
    && NoneLeft(pool, faults)
  }

  /** Every port of the range is reserved, or cannot be listened on even when it is tried again. */
  ghost predicate NoneLeft(pool: Ports.Pool, faults: Faults) {
    forall p | pool.minPort <= p <= pool.maxPort && p !in pool.reserved :: p in faults.stillBusy
  }

  /** The same range, with at least the same ports reserved. */
  predicate Fuller(pool: Ports.Pool, next: Ports.Pool) {
    next.minPort == pool.minPort && next.maxPort == pool.maxPort && pool.reserved <= next.reserved
  }

  lemma SamePorts(f: Facts, next: Facts)
    requires forall d :: Of(next, d).binding.Some? <==> Of(f, d).binding.Some?
    requires forall d | Of(f, d).binding.Some? :: Of(next, d).binding.value.port == Of(f, d).binding.value.port
    ensures PortsOf(next.bindingsByDevice) == PortsOf(f.bindingsByDevice)
  {
    assert forall d :: (d in f.bindingsByDevice <==> Of(f, d).binding.Some?) && (d in next.bindingsByDevice <==> Of(next, d).binding.Some?);
    forall p ensures p in PortsOf(next.bindingsByDevice) <==> p in PortsOf(f.bindingsByDevice) {
      if d :| d in f.bindingsByDevice && f.bindingsByDevice[d].port == p { assert next.bindingsByDevice[d].port == p; }
      if d :| d in next.bindingsByDevice && next.bindingsByDevice[d].port == p { assert f.bindingsByDevice[d].port == p; }
    }
  }

  lemma MorePorts(bindings: map<Device, L.Binding>, d: Device, b: L.Binding)
    requires d in bindings ==> bindings[d].port == b.port
    ensures PortsOf(bindings[d := b]) == PortsOf(bindings) + {b.port}
  {
    var next := bindings[d := b];
    assert next[d].port == b.port;
    assert forall e | e in bindings :: next[e].port == bindings[e].port;
  }

  // ---------- requests ----------

  /** Who asks, and for how long. */
  datatype Request = Request(owner: string, ttl: int)

  /** normalizeAcquire: defaults for what is missing, and no term beyond the longest. */
  function Normalize(env: Env, r: Request): Option<Request> {
    var owner := if Trim(r.owner) == "" then "default" else Trim(r.owner);
    var ttl := if r.ttl <= 0 then env.maxTtl else r.ttl;
    if ttl > env.maxTtl then None else Some(Request(owner, ttl))
  }

  /** What AutoExpose asks for. */
  function AutoRequest(env: Env): Request {
    Request(AUTO, env.maxTtl)
  }

  lemma AutoIsNormal(env: Env)
    ensures Normalize(env, AutoRequest(env)) == Some(AutoRequest(env))
  {
    assert Trim(AUTO) == AUTO;
  }

  // ---------- the registry ----------

  /** Ids are trimmed, and no connect key is an id. */
  ghost predicate IdsAreNotKeys(env: Env, ids: set<Device>) {
    && (forall d | d in ids :: Trim(d) == d)
    && (forall d, e | d in ids && e in env.devices :: env.devices[e].connectKey != d)
  }

  lemma FewerIds(env: Env, more: set<Device>, fewer: set<Device>)
    requires IdsAreNotKeys(env, more) && fewer <= more
    ensures IdsAreNotKeys(env, fewer)
  {
  }

  /** Find: by id, else by connect key, any of those that match. */
  method Find(env: Env, identifier: string) returns (found: Option<Device>)
    ensures found.Some? ==> found.value in env.devices
    ensures Trim(identifier) in env.devices ==> found == Some(Trim(identifier))
    ensures Trim(identifier) !in env.devices ==>
      (found.Some? <==> exists e :: e in env.devices && env.devices[e].connectKey == Trim(identifier))
    ensures Trim(identifier) !in env.devices && found.Some? ==> env.devices[found.value].connectKey == Trim(identifier)
    ensures forall ids | identifier in ids && IdsAreNotKeys(env, ids) ::
      found == if identifier in env.devices then Some(identifier) else None
  {
    var id := Trim(identifier);
    if id in env.devices { return Some(id); }
    if exists e :: e in env.devices && env.devices[e].connectKey == id {
      var e :| e in env.devices && env.devices[e].connectKey == id;
      return Some(e);
    }
    found := None;
  }

  // ---------- the manager ----------

  /** What goes wrong for one device during a tick. */
  datatype Faults = Faults(busy: set<int>, stillBusy: set<int>, notSaved: bool, notListening: bool)

  class Manager {
    const pool: Ports.PortPool
    var bindingsByDevice: map<Device, L.Binding>
    var bindingsById: map<L.BindingId, L.Binding>
    var leasesByDevice: map<Device, L.Lease>
    var leasesById: map<L.LeaseId, L.Lease>
    var inflight: set<Device>
    var listeners: map<L.BindingId, L.Grant>
    var nextBinding: L.BindingId
    var nextLease: L.LeaseId

    constructor (pool: Ports.PortPool)
      requires pool.Value().Valid() && pool.minPort > 0 && pool.reserved == {}
      ensures this.pool == pool && Value() == Facts(map[], map[], map[], map[], map[]) && AtRest()
    {
      this.pool := pool;
      bindingsByDevice, bindingsById, leasesByDevice, leasesById := map[], map[], map[], map[];
      inflight, listeners, nextBinding, nextLease := {}, map[], 0, 0;
    }

    function Value(): Facts
      reads this
    {
      Facts(bindingsByDevice, bindingsById, leasesByDevice, leasesById, listeners)
    }

    /** The maps, the pool and the numbers given out. */
    ghost function At(): Point
      reads this, pool
    {
      Point(Value(), pool.Value(), nextBinding, nextLease)
    }

    ghost predicate AtRest()
      reads this, pool
    {
      PortsHeld(Value(), pool.Value()) && inflight == {} && Rest(Value(), nextBinding, nextLease)
    }

    ghost predicate Known(env: Env)
      reads this
    {
      IdsAreNotKeys(env, env.devices.Keys + bindingsByDevice.Keys)
    }

    /** releaseLease; saving may fail, which changes nothing here. */
    method ReleaseLease(env: Env, id: L.LeaseId)
      requires Leased(Value(), id) && leasesById[id].device !in inflight && Known(env)
      modifies this`leasesById, this`leasesByDevice, this`bindingsById, this`bindingsByDevice, this`listeners, this`inflight
      ensures inflight == old(inflight)
      ensures var d := old(leasesById[id].device); Value() == Withdrawn(old(Value()), d, env.BindingStatusOf(d))
    {
      ghost var before := Value();
      var lease := leasesById[id];
      var d := lease.device;
      assert d in env.devices.Keys + bindingsByDevice.Keys;
      if d in inflight { return; }
      inflight := inflight + {d};
      lease := lease.(status := L.Releasing);
      leasesById, leasesByDevice := leasesById[id := lease], leasesByDevice[d := lease];
      var binding := bindingsById[lease.binding];
      listeners := listeners - {binding.id};
      var found := Find(env, d);
      leasesById := leasesById - {id};
      if d in leasesByDevice && leasesByDevice[d].id == id { leasesByDevice := leasesByDevice - {d}; }
      var eligible := found.Some? && env.devices[found.value].usb && env.devices[found.value].online;
      binding := binding.(status := if eligible then L.Reserved else L.Frozen);
      bindingsById, bindingsByDevice := bindingsById[binding.id := binding], bindingsByDevice[d := binding];
      inflight := inflight - {d};
      PutThenRemoved(before.leasesById, id, lease);
      PutThenRemoved(before.leasesByDevice, d, lease);
    }

    /** The pool's allocate and release, by what they do to the reserved ports. */
    method AllocatePort(faults: Faults) returns (port: Option<int>)
      requires pool.Value().Valid()
      modifies pool
      ensures pool.Value().Valid() && (port.None? <==> Exhausted(old(pool.Value()), faults))
      ensures port.None? ==> pool.reserved == old(pool.reserved)
      ensures port.Some? ==> port.value !in old(pool.reserved) && pool.reserved == old(pool.reserved) + {port.value}
    {
      Ports.AllocateFailsOnlyWhenExhausted(pool.Value(), faults.busy, faults.stillBusy);
      port := pool.Allocate(faults.busy, faults.stillBusy);
    }

    method ReleasePort(port: int)
      requires pool.Value().Valid() && pool.minPort > 0 && port in pool.reserved
      modifies pool
      ensures pool.Value().Valid() && pool.reserved == old(pool.reserved) - {port}
    {
      Ports.ReleaseKeeps(pool.Value(), port);
      pool.Release(port);
    }

    /** createBinding: a binding that cannot be saved is taken out again and its port released. */
    method CreateBinding(d: Device, faults: Faults) returns (created: Option<L.Binding>)
      requires pool.Value().Valid() && pool.minPort > 0 && d !in bindingsByDevice && nextBinding !in bindingsById
      modifies this`bindingsByDevice, this`bindingsById, this`nextBinding, pool
      ensures pool.Value().Valid() && nextBinding >= old(nextBinding)
      ensures created.None? <==> Exhausted(old(pool.Value()), faults) || faults.notSaved
      ensures created.None? ==> Value() == old(Value()) && nextBinding <= old(nextBinding) + 1 && pool.reserved == old(pool.reserved)
      ensures created.Some? ==>
        && Value() == PutBinding(old(Value()), created.value) && nextBinding == old(nextBinding) + 1
        && created.value == L.Binding(old(nextBinding), d, created.value.port, L.Reserved)
        && created.value.port !in old(pool.reserved) && pool.reserved == old(pool.reserved) + {created.value.port}
    {
      var port := AllocatePort(faults);
      if port.None? { return None; }
      ghost var before := Value();
      var binding := L.Binding(nextBinding, d, port.value, L.Reserved);
      nextBinding := nextBinding + 1;
      bindingsByDevice, bindingsById := bindingsByDevice[d := binding], bindingsById[binding.id := binding];
      if faults.notSaved {
        bindingsByDevice, bindingsById := bindingsByDevice - {d}, bindingsById - {binding.id};
        PutThenRemoved(before.bindingsByDevice, d, binding);
        PutThenRemoved(before.bindingsById, binding.id, binding);
        ReleasePort(port.value);
        return None;
      }
      created := Some(binding);
    }

    /** Acquire on a leased device: the same owner gets a later expiry, and the listener its grant; any
        other is turned away. */
    method RenewLease(env: Env, d: Device, r: Request) returns (ok: bool)
      requires d in leasesByDevice && leasesByDevice[d].binding in listeners
      requires leasesByDevice[d].device == d
      modifies this`leasesById, this`leasesByDevice, this`listeners
      ensures ok <==> old(leasesByDevice)[d].owner == r.owner
      ensures Value() == if ok then Renewed(old(Value()), d, env.now + r.ttl) else old(Value())
    {
      var lease := leasesByDevice[d];
      if lease.owner != r.owner { return false; }
      lease := lease.(expiresAt := env.now + r.ttl);
      leasesById, leasesByDevice := leasesById[lease.id := lease], leasesByDevice[d := lease];
      if lease.binding in listeners { listeners := listeners[lease.binding := L.GrantOf(lease)]; }
      ok := true;
    }

    /** Acquire on a device with a binding and no lease: Bind, then the commit. */
    method BindAndCommit(env: Env, d: Device, r: Request, faults: Faults) returns (ok: bool)
      requires d in bindingsByDevice && bindingsByDevice[d].device == d && bindingsByDevice[d].id !in listeners
      modifies this`leasesById, this`leasesByDevice, this`bindingsById, this`bindingsByDevice, this`listeners, this`nextLease
      ensures nextLease == old(nextLease) + 1 && (ok <==> !faults.notListening)
      ensures Value() ==
        if ok then Exposed(old(Value()), d, NewLease(env, r, old(nextLease), d, old(bindingsByDevice[d].id))) else old(Value())
    {
      var binding := bindingsByDevice[d];
      var lease := L.Lease(nextLease, d, binding.id, r.owner, L.Active, env.now + r.ttl, 0);
      nextLease := nextLease + 1;
      if binding.id !in listeners {
        if faults.notListening { return false; }
        listeners := listeners[binding.id := L.GrantOf(lease)];
      }
      binding := binding.(status := L.Listening);
      bindingsByDevice, bindingsById := bindingsByDevice[d := binding], bindingsById[binding.id := binding];
      leasesByDevice, leasesById := leasesByDevice[d := lease], leasesById[lease.id := lease];
      ok := true;
    }

    /** Acquire, for any owner and term. */
    method Acquire(env: Env, d: Device, request: Request, faults: Faults) returns (ok: bool)
      requires Known(env) && d in env.devices && inflight == {} && pool.Value().Valid() && pool.minPort > 0
      requires Ready(Value(), d, nextBinding)
      modifies this`leasesById, this`leasesByDevice, this`bindingsById, this`bindingsByDevice, this`listeners,
        this`inflight, this`nextBinding, this`nextLease, pool
      ensures inflight == {} && pool.Value().Valid()
      ensures Acquired(env, d, request, faults, old(At()), At(), ok)
    {
      var normalized := Normalize(env, request);
      if normalized.None? { return false; }
      assert d in env.devices.Keys + bindingsByDevice.Keys;
      var found := Find(env, d);
      if found.None? || !env.Exposable(found.value) { return false; }
      ok := AcquireFor(env, d, normalized.value, faults);
    }

    /** The rest of it, for a device that is online over USB. */
    method AcquireFor(env: Env, d: Device, r: Request, faults: Faults) returns (ok: bool)
      requires inflight == {} && pool.Value().Valid() && pool.minPort > 0 && Ready(Value(), d, nextBinding)
      modifies this`leasesById, this`leasesByDevice, this`bindingsById, this`bindingsByDevice, this`listeners,
        this`inflight, this`nextBinding, this`nextLease, pool
      ensures inflight == {} && pool.Value().Valid()
      ensures AcquiredFor(env, d, r, faults, old(At()), At(), ok)
    {
      if d in inflight { return false; }
      if d in leasesByDevice && leasesByDevice[d].status.Active? {
        ok := RenewLease(env, d, r);
        return;
      }
      inflight := inflight + {d};
      if d !in bindingsByDevice {
        var created := CreateBinding(d, faults);
        if created.None? {
          inflight := inflight - {d};
          return false;
        }
      }
      ghost var bound := At();
      ok := BindAndCommit(env, d, r, faults);
      inflight := inflight - {d};
      assert At() == bound.(facts := Value(), nextLease := nextLease);
    }

    /** One turn of reconcile over its copy of the leases. */
    method ReleaseIfStale(env: Env, lease: L.Lease)
      requires Leased(Value(), lease.id) && leasesById[lease.id] == lease && inflight == {} && Known(env)
      modifies this`leasesById, this`leasesByDevice, this`bindingsById, this`bindingsByDevice, this`listeners, this`inflight
      ensures inflight == {} && Known(env)
      ensures Value() == ReleasedIfStale(env, old(Value()), lease)
    {
      assert lease.device in env.devices.Keys + bindingsByDevice.Keys;
      ghost var ids := env.devices.Keys + bindingsByDevice.Keys;
      var found := Find(env, lease.device);
      if env.now >= lease.expiresAt || found.None? || !env.Eligible(found.value) {
        ReleaseLease(env, lease.id);
        assert env.devices.Keys + bindingsByDevice.Keys == ids;
      }
    }

    /** The same, among the others. */
    method ReleaseOne(env: Env, lease: L.Lease, ghost before: Facts, ghost todo: set<L.LeaseId>)
      requires inflight == {} && Known(env) && lease.id in todo && lease.id in before.leasesById
      requires before.leasesById[lease.id] == lease && Releasing(env, before, Value(), nextBinding, nextLease, todo)
      modifies this`leasesById, this`leasesByDevice, this`bindingsById, this`bindingsByDevice, this`listeners, this`inflight
      ensures inflight == {} && Known(env)
      ensures Releasing(env, before, Value(), nextBinding, nextLease, todo - {lease.id})
    {
      ghost var now := Value();
      StillThere(env, before, now, nextBinding, nextLease, todo, lease.id);
      ReleaseIfStale(env, lease);
      ReleaseTurn(env, before, now, Value(), nextBinding, nextLease, todo, lease.id);
    }

    /** reconcile, its first half: leases that have expired or lost their device are released. */
    method ReleaseStale(env: Env)
      requires AtRest() && Known(env)
      modifies this`leasesById, this`leasesByDevice, this`bindingsById, this`bindingsByDevice, this`listeners, this`inflight
      ensures AtRest() && Known(env) && bindingsByDevice.Keys == old(bindingsByDevice.Keys)
      ensures AllReleased(env, old(Value()), Value())
      ensures OnlyRunning(env, old(leasesByDevice), leasesByDevice)
    {
      ghost var before := Value();
      var leases := leasesById;
      var todo := leasesById.Keys;
      ReleasingStarts(env, before, nextBinding, nextLease);
      while todo != {}
        invariant inflight == {} && todo <= leases.Keys && Known(env)
        invariant Releasing(env, before, Value(), nextBinding, nextLease, todo)
        decreases todo
      {
        var id :| id in todo;
        ReleaseOne(env, leases[id], before, todo);
        todo := todo - {id};
      }
      ReleasingEnds(env, before, Value(), nextBinding, nextLease, pool.Value());
    }

    /** reconcileBindings, for one binding. */
    method SetStatus(env: Env, d: Device)
      requires Known(env) && d in bindingsByDevice && bindingsByDevice[d].device == d
      modifies this`bindingsById, this`bindingsByDevice
      ensures Known(env)
      ensures Value() == StatusSet(env, old(Value()), d)
    {
      ghost var ids := env.devices.Keys + bindingsByDevice.Keys;
      if d in leasesByDevice { return; }
      assert d in env.devices.Keys + bindingsByDevice.Keys;
      var found := Find(env, d);
      var status := if found.Some? && env.Eligible(found.value) then L.Reserved else L.Frozen;
      var binding := bindingsByDevice[d];
      if binding.status != status {
        binding := binding.(status := status);
        bindingsByDevice, bindingsById := bindingsByDevice[d := binding], bindingsById[binding.id := binding];
        assert env.devices.Keys + bindingsByDevice.Keys == ids;
      }
    }

    /** One turn of reconcileBindings. */
    method ReconcileOne(env: Env, d: Device, ghost before: Facts, ghost todo: set<Device>)
      requires Known(env) && d in todo && Reconciling(env, before, Value(), nextBinding, nextLease, todo)
      modifies this`bindingsById, this`bindingsByDevice
      ensures Known(env) && Reconciling(env, before, Value(), nextBinding, nextLease, todo - {d})
    {
      ghost var now := Value();
      assert d in bindingsByDevice.Keys;
      RestIsBound(now, nextBinding, nextLease, d);
      SetStatus(env, d);
      ReconcileTurn(env, before, now, Value(), nextBinding, nextLease, todo, d);
    }

    /** reconcile, its second half: bindings without a lease follow the registry. */
    method ReconcileBindings(env: Env)
      requires AtRest() && Known(env)
      modifies this`bindingsById, this`bindingsByDevice
      ensures AtRest() && Known(env)
      ensures AllReconciled(env, old(Value()), Value())
      ensures UnleasedFollow(env, leasesByDevice, bindingsByDevice)
    {
      ghost var before := Value();
      var todo := bindingsByDevice.Keys;
      ReconcilingStarts(env, before, nextBinding, nextLease);
      while todo != {}
        invariant Known(env) && Reconciling(env, before, Value(), nextBinding, nextLease, todo)
        decreases todo
      {
        var d :| d in todo;
        ReconcileOne(env, d, before, todo);
        todo := todo - {d};
      }
      ReconcilingEnds(env, before, Value(), nextBinding, nextLease, pool.Value());
    }

    /** One turn of AutoExpose. */
    method ExposeOne(env: Env, d: Device, faults: Faults) returns (ok: bool)
      requires AtRest() && Known(env) && d in env.devices
      modifies this`leasesById, this`leasesByDevice, this`bindingsById, this`bindingsByDevice, this`listeners,
        this`inflight, this`nextBinding, this`nextLease, pool
      ensures AtRest() && Known(env) && OthersSame(old(Value()), Value(), d) && Fuller(old(pool.Value()), pool.Value())
      ensures nextLease >= old(nextLease)
      ensures Outcome(env, faults, pool.Value(), old(nextLease), Of(old(Value()), d), Of(Value(), d), d, true, ok)
    {
      if !env.devices[d].usb || !env.devices[d].online { return false; }
      ghost var before := At();
      RestIsReady(before.facts, before.nextBinding, before.nextLease, d);
      ok := Acquire(env, d, AutoRequest(env), faults);
      AutoAcquired(env, d, faults, before, At(), ok);
      FewerIds(env, env.devices.Keys + before.facts.bindingsByDevice.Keys, env.devices.Keys + bindingsByDevice.Keys);
    }

    /** AutoExpose: Acquire for every device that is online over USB, as the registry lists them. */
    method AutoExpose(env: Env, listed: seq<Device>, faults: map<Device, Faults>) returns (exposed: set<Device>)
      requires AtRest() && Known(env) && ListedOnce(env, listed, faults)
      modifies this, pool
      ensures AtRest() && Known(env) && Exposing(env, faults, pool.Value(), old(nextLease), old(Value()), Value(), listed, exposed)
    {
      ghost var before, unused := Value(), nextLease;
      exposed := {};
      for i := 0 to |listed|
        invariant AtRest() && Known(env)
        invariant nextLease >= unused && Exposing(env, faults, pool.Value(), unused, before, Value(), listed[..i], exposed)
      {
        var d := listed[i];
        ghost var now, ports, next := Value(), pool.Value(), nextLease;
        var ok := ExposeOne(env, d, faults[d]);
        ExposeTurn(env, faults, ports, pool.Value(), unused, next, before, now, Value(), listed, i, exposed, ok);
        if ok { exposed := exposed + {d}; }
      }
      assert listed[..|listed|] == listed;
    }

    /** One tick of Run: reconcile, then AutoExpose. */
    method Tick(env: Env, listed: seq<Device>, faults: map<Device, Faults>) returns (exposed: set<Device>)
      requires AtRest() && Known(env) && ListedOnce(env, listed, faults)
      modifies this, pool
      ensures AtRest() && Known(env)
      ensures Converged(env, faults, pool.Value(), old(nextLease), old(Value()), Value(), exposed)
      ensures KeptOrReplaced(env, old(leasesByDevice), old(bindingsByDevice), leasesByDevice, bindingsByDevice)
    {
      ghost var before, unused := Value(), nextLease;
      ReleaseStale(env);
      ghost var released := Value();
      ReconcileBindings(env);
      ghost var reconciled := Value();
      exposed := AutoExpose(env, listed, faults);
      TickConverges(env, listed, faults, pool.Value(), unused, before, released, reconciled, Value(), exposed);
      LeasesInPlainTerms(env, faults, pool.Value(), unused, before, Value(), exposed);
    }
  }

  /** What a tick has made of one device: one that is not online over USB has no lease, no listener and a
      FROZEN binding, if any; every other one that has a connect key has been exposed for the full term,
      with an ACTIVE lease, a LISTENING binding and a listener that admits by that lease -- unless another
      owner has a lease of it that has not expired, which is left as it was, or its port
      could not be listened on, or it had no binding and the new one could not be saved or the pool, as it
      is now, has no port left that can be listened on. */
  ghost predicate ConvergedAt(
      env: Env, faults: Faults, pool: Ports.Pool, unused: nat, v: View, now: View, d: Device, exposed: bool)
  {
    && (!env.Eligible(d) ==> now.lease.None? && now.grant.None? && (now.binding.Some? ==> now.binding.value.status.Frozen?))
    && (exposed ==> IsExposed(env, now))
    && (env.Exposable(d) && !exposed ==>
          HeldByOther(env, v, now) || faults.notListening || (v.binding.None? && now.binding.None? && (faults.notSaved || NoneLeft(pool, faults))))
    && (now.binding.Some? ==> v.binding.Some? || env.Exposable(d))
    && (env.Eligible(d) && now.lease.None? && now.binding.Some? ==> now.binding.value.status.Reserved?)
    && LeaseLives(env, unused, v, now, d)
    && (v.binding.Some? ==> now.binding.Some? && now.binding.value == v.binding.value.(status := now.binding.value.status))
  }

  /** A lease that has not run out, on a device that is still online over USB, stays, renewed if it is the
      automatic owner's; any other lease goes, and what may take its place is new. */
  predicate LeaseLives(env: Env, unused: nat, v: View, now: View, d: Device) {
    v.lease.Some? ==>
      var l := v.lease.value;
      if env.now < l.expiresAt && env.Eligible(d) then
        && now.lease == Some(if l.owner == AUTO && env.Exposable(d) then l.(expiresAt := env.now + env.maxTtl) else l)
        && Settled(now)
      else now.lease.Some? ==> now.lease.value.id >= unused
  }

  /** The same of the maps: a lease keeps everything but its expiry as long as it runs and its device is online
      over USB, and otherwise goes; a binding keeps its id and port in any case. */
  ghost predicate KeptOrReplaced(
      env: Env, leases: map<Device, L.Lease>, bindings: map<Device, L.Binding>,
      leases': map<Device, L.Lease>, bindings': map<Device, L.Binding>)
  {
    && (forall d | d in leases ::
          var l := leases[d];
          if env.now < l.expiresAt && d in env.devices && env.devices[d].usb && env.devices[d].online then
            && d in leases'
            && leases'[d] == l.(expiresAt :=
                 if l.owner == "auto" && Trim(env.devices[d].connectKey) != "" then env.now + env.maxTtl else l.expiresAt)
          else d in leases' ==> leases'[d].id != l.id)
    && (forall d | d in bindings ::
          d in bindings' && bindings'[d].id == bindings[d].id && bindings'[d].port == bindings[d].port)
  }

  lemma LeasesInPlainTerms(
      env: Env, faults: map<Device, Faults>, pool: Ports.Pool, unused: nat, f: Facts, next: Facts, exposed: set<Device>)
    requires Converged(env, faults, pool, unused, f, next, exposed) && LeasesAgree(f, unused)
    ensures KeptOrReplaced(env, f.leasesByDevice, f.bindingsByDevice, next.leasesByDevice, next.bindingsByDevice)
  {
    forall d ensures ConvergedAt(env, FaultsOf(faults, d), pool, unused, Of(f, d), Of(next, d), d, d in exposed) {}
    forall d | d in f.leasesByDevice ensures f.leasesByDevice[d].id < unused {}
    forall d | d in f.leasesByDevice || d in f.bindingsByDevice
      ensures LeaseLives(env, unused, Of(f, d), Of(next, d), d)
      ensures d in f.bindingsByDevice ==>
        (d in next.bindingsByDevice
         && next.bindingsByDevice[d].id == f.bindingsByDevice[d].id && next.bindingsByDevice[d].port == f.bindingsByDevice[d].port)
    {
      assert ConvergedAt(env, FaultsOf(faults, d), pool, unused, Of(f, d), Of(next, d), d, d in exposed);
    }
  }

  /** Somebody else's lease, still running, in all its parts. */
  predicate HeldByOther(env: Env, v: View, now: View) {
    && v.lease.Some? && v.lease.value.owner != AUTO && env.now < v.lease.value.expiresAt
    && now.lease == v.lease && Settled(now)
  }

  ghost predicate Converged(
      env: Env, faults: map<Device, Faults>, pool: Ports.Pool, unused: nat, f: Facts, next: Facts, exposed: set<Device>)
  {
    forall d :: ConvergedAt(env, FaultsOf(faults, d), pool, unused, Of(f, d), Of(next, d), d, d in exposed)
  }

  predicate IsExposed(env: Env, v: View) {
    && v.lease.Some? && v.lease.value.status.Active? && v.lease.value.owner == AUTO
    && v.lease.value.expiresAt == env.now + env.maxTtl
    && v.binding.Some? && v.binding.value.status.Listening? && v.binding.value.id == v.lease.value.binding
    && v.grant == Some(L.Grant(v.lease.value.id, v.binding.value.id, env.now + env.maxTtl))
  }

  lemma TickConverges(
      env: Env, listed: seq<Device>, faults: map<Device, Faults>, pool: Ports.Pool, unused: nat,
      f: Facts, released: Facts, reconciled: Facts, next: Facts, exposed: set<Device>)
    requires ListedOnce(env, listed, faults)
    requires forall d :: Settled(Of(f, d))
    requires AllReleased(env, f, released) && AllReconciled(env, released, reconciled)
    requires Exposing(env, faults, pool, unused, reconciled, next, listed, exposed)
    ensures Converged(env, faults, pool, unused, f, next, exposed)
  {
    forall d ensures ConvergedAt(env, FaultsOf(faults, d), pool, unused, Of(f, d), Of(next, d), d, d in exposed) {
      assert Settled(Of(f, d)) && Of(released, d) == Released(env, d, Of(f, d));
      assert Of(reconciled, d) == Reconciled(env, d, Of(released, d));
      assert Outcome(env, FaultsOf(faults, d), pool, unused, Of(reconciled, d), Of(next, d), d, d in listed, d in exposed);
    }
  }

  // ---------- when nothing fails and there is room ----------

  /** The devices that have a binding or are to have one. */
  function Wanted(env: Env, f: Facts): set<Device> {
    f.bindingsByDevice.Keys + set d | d in env.devices && env.Exposable(d)
  }

  function RangeSize(pool: Ports.Pool): int {
    pool.maxPort - pool.minPort + 1
  }

  /** No call made for a device that can be exposed fails. */
  predicate NothingFails(env: Env, faults: map<Device, Faults>) {
    forall d | d in env.devices && env.Exposable(d) ::
      var g := FaultsOf(faults, d); !g.notListening && !g.notSaved && g.stillBusy == {}
  }

  lemma {:induction false} FewerPortsThanBindings(bindings: map<Device, L.Binding>)
    ensures |PortsOf(bindings)| <= |bindings.Keys|
    decreases |bindings.Keys|
  {
    if d :| d in bindings {
      var rest := bindings - {d};
      FewerPortsThanBindings(rest);
      assert bindings == rest[d := bindings[d]];
      MorePorts(rest, d, bindings[d]);
      assert bindings.Keys == rest.Keys + {d};
    } else {
      assert bindings == map[] && PortsOf(bindings) == {};
    }
  }

  lemma {:induction false} RangeFits(lo: int, hi: int, ports: set<int>)
    requires forall p | lo <= p <= hi :: p in ports
    ensures hi - lo + 1 <= |ports|
    decreases hi - lo
  {
    if lo <= hi { RangeFits(lo, hi - 1, ports - {hi}); }
  }

  lemma SmallerSet<T>(a: set<T>, b: set<T>)
    requires a <= b
    ensures |a| <= |b|
  {
    assert b == a + (b - a);
  }

  /** If nothing fails, nobody else has a lease and the range has a port for every device that has a binding
      or is to have one, a tick exposes every device that can be. */
  lemma EveryDeviceIsExposed(
      env: Env, faults: map<Device, Faults>, pool: Ports.Pool, unused: nat, f: Facts, next: Facts, exposed: set<Device>)
    requires Converged(env, faults, pool, unused, f, next, exposed) && PortsHeld(next, pool)
    requires forall d | Of(f, d).lease.Some? :: Of(f, d).lease.value.owner == AUTO
    requires NothingFails(env, faults) && |Wanted(env, f)| <= RangeSize(pool)
    ensures forall d | env.Exposable(d) :: IsExposed(env, Of(next, d))
  {
    forall d | env.Exposable(d) ensures IsExposed(env, Of(next, d)) {
      assert ConvergedAt(env, FaultsOf(faults, d), pool, unused, Of(f, d), Of(next, d), d, d in exposed);
      if d !in exposed { ThereIsRoom(env, faults, pool, unused, f, next, exposed, d); }
    }
  }

  lemma ThereIsRoom(
      env: Env, faults: map<Device, Faults>, pool: Ports.Pool, unused: nat, f: Facts, next: Facts, exposed: set<Device>, d: Device)
    requires Converged(env, faults, pool, unused, f, next, exposed) && PortsHeld(next, pool)
    requires env.Exposable(d) && d !in next.bindingsByDevice
    requires |Wanted(env, f)| <= RangeSize(pool)
    ensures exists p :: pool.minPort <= p <= pool.maxPort && p !in pool.reserved
  {
    var bound, wanted := next.bindingsByDevice.Keys, Wanted(env, f);
    forall e | e in bound ensures e in wanted - {d} {
      assert ConvergedAt(env, FaultsOf(faults, e), pool, unused, Of(f, e), Of(next, e), e, e in exposed);
    }
    SmallerSet(bound, wanted - {d});
    FewerPortsThanBindings(next.bindingsByDevice);
    if forall p | pool.minPort <= p <= pool.maxPort :: p in pool.reserved {
      RangeFits(pool.minPort, pool.maxPort, pool.reserved);
    }
  }

  /** The registry lists each device once. */
  ghost predicate ListedOnce(env: Env, listed: seq<Device>, faults: map<Device, Faults>) {
    && (forall d <- listed :: d in env.devices && d in faults)
    && (forall d | d in env.devices :: d in listed)
    && forall i, j | 0 <= i < j < |listed| :: listed[i] != listed[j]
  }

  /** What AutoExpose makes of one device; unused is a number no lease had before, nor any above it. */
  ghost predicate Outcome(
      env: Env, faults: Faults, pool: Ports.Pool, unused: nat, v: View, next: View, d: Device, listed: bool, exposed: bool)
  {
    if !listed || !env.Exposable(d) then !exposed && next == v
    else if exposed then
      && Settled(next) && next.lease.Some?
      && next.lease.value.owner == AUTO && next.lease.value.expiresAt == env.now + env.maxTtl
      && (if v.lease.Some? then v.lease.value.owner == AUTO && next.lease.value == v.lease.value.(expiresAt := env.now + env.maxTtl)
          else next.lease.value.id >= unused)
      && (v.binding.Some? ==> next.binding == Some(v.binding.value.(status := L.Listening)))
    else if v.lease.Some? then v.lease.value.owner != AUTO && next == v
    else
      && next.lease.None? && next.grant == v.grant
      && (faults.notListening || (v.binding.None? && next.binding.None? && (faults.notSaved || NoneLeft(pool, faults))))
      && (next.binding == v.binding
          || (v.binding.None? && next.binding.Some? && next.binding.value.status.Reserved?))
  }

  function StatusSet(env: Env, f: Facts, d: Device): Facts
    requires d in f.bindingsByDevice
  {
    if d in f.leasesByDevice || f.bindingsByDevice[d].status == env.BindingStatusOf(d) then f
    else PutBinding(f, f.bindingsByDevice[d].(status := env.BindingStatusOf(d)))
  }

  function Reconciled(env: Env, d: Device, v: View): View {
    if v.lease.None? && v.binding.Some? then v.(binding := Some(v.binding.value.(status := env.BindingStatusOf(d)))) else v
  }

  /** Half-way through the bindings. */
  ghost predicate Reconciling(env: Env, f: Facts, now: Facts, nextBinding: nat, nextLease: nat, todo: set<Device>) {
    && Rest(now, nextBinding, nextLease) && todo <= f.bindingsByDevice.Keys
    && now.bindingsByDevice.Keys == f.bindingsByDevice.Keys
    && forall d :: Of(now, d) == if d in todo then Of(f, d) else Reconciled(env, d, Of(f, d))
  }

  lemma RestIsBound(f: Facts, nextBinding: nat, nextLease: nat, d: Device)
    requires Rest(f, nextBinding, nextLease) && d in f.bindingsByDevice
    ensures f.bindingsByDevice[d].device == d
  {
  }

  lemma ReconcileTurn(
      env: Env, f: Facts, now: Facts, next: Facts, nextBinding: nat, nextLease: nat, todo: set<Device>, d: Device)
    requires Reconciling(env, f, now, nextBinding, nextLease, todo) && d in todo
    requires next == StatusSet(env, now, d)
    ensures Reconciling(env, f, next, nextBinding, nextLease, todo - {d})
  {
    if next != now { StatusRests(now, nextBinding, nextLease, d, env.BindingStatusOf(d)); }
    forall e ensures Of(next, e) == if e in todo - {d} then Of(f, e) else Reconciled(env, e, Of(f, e)) {
      assert Of(now, e) == if e in todo then Of(f, e) else Reconciled(env, e, Of(f, e));
    }
  }

  /** An Acquire leaves everything at rest and touches no other device. */
  lemma AcquiredRests(env: Env, d: Device, request: Request, faults: Faults, p: Point, q: Point, ok: bool)
    requires Rest(p.facts, p.nextBinding, p.nextLease) && Acquired(env, d, request, faults, p, q, ok)
    ensures Rest(q.facts, q.nextBinding, q.nextLease) && OthersSame(p.facts, q.facts, d)
  {
    var f := p.facts;
    if q != p {
      var r := Normalize(env, request).value;
      if d in f.leasesByDevice {
        RenewedRests(f, p.nextBinding, p.nextLease, d, env.now + r.ttl);
      } else if d in f.bindingsByDevice {
        CommittedRests(env, d, r, f, p.nextBinding, p.nextLease, q.facts, ok);
      } else if Exhausted(p.pool, faults) || faults.notSaved {
        MoreIdsRest(f, p.nextBinding, p.nextLease, q.nextBinding, q.nextLease);
      } else {
        NewlyBoundRests(env, d, r, faults, p, q, ok);
      }
    }
  }

  lemma NewlyBoundRests(env: Env, d: Device, r: Request, faults: Faults, p: Point, q: Point, ok: bool)
    requires Rest(p.facts, p.nextBinding, p.nextLease) && AcquiredUnbound(env, d, r, faults, p, q, ok)
    requires d !in p.facts.leasesByDevice && d !in p.facts.bindingsByDevice && !Exhausted(p.pool, faults) && !faults.notSaved
    ensures Rest(q.facts, q.nextBinding, q.nextLease) && OthersSame(p.facts, q.facts, d)
    ensures ok ==> Of(q.facts, d).lease == Some(NewLease(env, r, p.nextLease, d, p.nextBinding))
    ensures !ok ==> Of(q.facts, d) == View(Some(q.facts.bindingsByDevice[d]), None, None)
    ensures q.facts.bindingsByDevice[d].status == if ok then L.Listening else L.Reserved
  {
    var b := L.Binding(p.nextBinding, d, q.facts.bindingsByDevice[d].port, L.Reserved);
    BoundRests(p.facts, p.nextBinding, p.nextLease, b);
    CommittedRests(env, d, r, PutBinding(p.facts, b), q.nextBinding, p.nextLease, q.facts, ok);
  }

  /** In plain terms: the owner and term asked for, or the defaults, for a device that can be exposed; the same
      owner's lease is renewed, another's stays, and where there is none a new one is made. */
  lemma AcquireInPlainTerms(env: Env, d: Device, request: Request, faults: Faults, p: Point, q: Point, ok: bool)
    requires Acquired(env, d, request, faults, p, q, ok)
    ensures
      var owner := if Trim(request.owner) == "" then "default" else Trim(request.owner);
      var ttl := if request.ttl <= 0 then env.maxTtl else request.ttl;
      var leases, bindings := p.facts.leasesByDevice, p.facts.bindingsByDevice;
      var leases', bindings' := q.facts.leasesByDevice, q.facts.bindingsByDevice;
      if ttl > env.maxTtl || d !in env.devices || !env.devices[d].usb || !env.devices[d].online
         || Trim(env.devices[d].connectKey) == ""
      then !ok && q == p
      else if d in leases then
        && (ok <==> leases[d].owner == owner) && (!ok ==> q == p)
        && (ok ==> leases[d].device == d ==> d in leases' && leases'[d] == leases[d].(expiresAt := env.now + ttl))
      else
        && (d in bindings ==> (ok <==> !faults.notListening))
        && (ok ==> d in bindings ==> bindings[d].device == d ==>
              && d in leases' && leases'[d] == L.Lease(p.nextLease, d, bindings[d].id, owner, L.Active, env.now + ttl, 0)
              && d in bindings' && bindings'[d] == bindings[d].(status := L.Listening))
        && (ok ==> d !in bindings ==>
              && d in bindings' && bindings'[d].id == p.nextBinding && bindings'[d].status.Listening?
              && bindings'[d].port !in p.pool.reserved && q.pool.reserved == p.pool.reserved + {bindings'[d].port}
              && d in leases'
              && leases'[d] == L.Lease(p.nextLease, d, p.nextBinding, owner, L.Active, env.now + ttl, 0))
        && (!ok ==> leases' == leases)
  {
  }

  /** For the automatic owner it either exposes the device for the full term or leaves it as it was, but
      perhaps for a new RESERVED binding. */
  lemma AcquiredOutcome(env: Env, d: Device, faults: Faults, p: Point, q: Point, ok: bool)
    requires Rest(p.facts, p.nextBinding, p.nextLease) && Rest(q.facts, q.nextBinding, q.nextLease)
    requires Acquired(env, d, AutoRequest(env), faults, p, q, ok)
    ensures Outcome(env, faults, q.pool, p.nextLease, Of(p.facts, d), Of(q.facts, d), d, true, ok)
  {
    var f, r := p.facts, AutoRequest(env);
    AutoIsNormal(env);
    assert Settled(Of(f, d)) && Settled(Of(q.facts, d));
    if q != p {
      if d in f.leasesByDevice {
        RenewedRests(f, p.nextBinding, p.nextLease, d, env.now + r.ttl);
      } else if d in f.bindingsByDevice {
        CommittedRests(env, d, r, f, p.nextBinding, p.nextLease, q.facts, ok);
      } else if !Exhausted(p.pool, faults) && !faults.notSaved {
        NewlyBoundRests(env, d, r, faults, p, q, ok);
      }
    }
  }

  /** It keeps the reserved ports those of the bindings. */
  lemma AcquiredPorts(env: Env, d: Device, request: Request, faults: Faults, p: Point, q: Point, ok: bool)
    requires Rest(p.facts, p.nextBinding, p.nextLease) && PortsHeld(p.facts, p.pool) && q.pool.Valid()
    requires Acquired(env, d, request, faults, p, q, ok)
    ensures PortsHeld(q.facts, q.pool) && Fuller(p.pool, q.pool)
  {
    var f, g := p.facts, q.facts;
    if q == p || d in f.leasesByDevice {
    } else if d in f.bindingsByDevice {
      MorePorts(f.bindingsByDevice, d, f.bindingsByDevice[d].(status := L.Listening));
    } else if Exhausted(p.pool, faults) || faults.notSaved {
    } else {
      var b := L.Binding(p.nextBinding, d, g.bindingsByDevice[d].port, L.Reserved);
      MorePorts(f.bindingsByDevice, d, b);
      MorePorts(PutBinding(f, b).bindingsByDevice, d, b.(status := L.Listening));
    }
  }

  /** BindAndCommit, successful or not. */
  lemma CommittedRests(env: Env, d: Device, r: Request, f: Facts, b0: nat, l0: nat, next: Facts, ok: bool)
    requires Rest(f, b0, l0) && d in f.bindingsByDevice && d !in f.leasesByDevice
    requires next == if ok then Exposed(f, d, NewLease(env, r, l0, d, f.bindingsByDevice[d].id)) else f
    ensures Rest(next, b0, l0 + 1) && OthersSame(f, next, d)
    ensures ok ==> Settled(Of(next, d)) && Of(next, d).lease == Some(NewLease(env, r, l0, d, f.bindingsByDevice[d].id))
  {
    if ok {
      ExposedRests(f, b0, l0, d, NewLease(env, r, l0, d, f.bindingsByDevice[d].id));
      assert Settled(Of(next, d));
    } else {
      MoreIdsRest(f, b0, l0, b0, l0 + 1);
    }
  }

  lemma MoreIdsRest(f: Facts, b0: nat, l0: nat, b1: nat, l1: nat)
    requires Rest(f, b0, l0) && b0 <= b1 && l0 <= l1
    ensures Rest(f, b1, l1)
  {
  }

  /** All of that, for the automatic owner. */
  lemma AutoAcquired(env: Env, d: Device, faults: Faults, p: Point, q: Point, ok: bool)
    requires Rest(p.facts, p.nextBinding, p.nextLease) && PortsHeld(p.facts, p.pool) && q.pool.Valid()
    requires Ready(p.facts, d, p.nextBinding) && Acquired(env, d, AutoRequest(env), faults, p, q, ok)
    ensures Rest(q.facts, q.nextBinding, q.nextLease) && OthersSame(p.facts, q.facts, d)
    ensures PortsHeld(q.facts, q.pool) && Fuller(p.pool, q.pool) && q.nextLease >= p.nextLease
    ensures q.facts.bindingsByDevice.Keys <= p.facts.bindingsByDevice.Keys + {d}
    ensures Outcome(env, faults, q.pool, p.nextLease, Of(p.facts, d), Of(q.facts, d), d, true, ok)
  {
    AcquiredRests(env, d, AutoRequest(env), faults, p, q, ok);
    AcquiredOutcome(env, d, faults, p, q, ok);
    AcquiredPorts(env, d, AutoRequest(env), faults, p, q, ok);
    AcquiredKeys(env, d, AutoRequest(env), faults, p, q, ok);
  }

  lemma AcquiredKeys(env: Env, d: Device, request: Request, faults: Faults, p: Point, q: Point, ok: bool)
    requires Ready(p.facts, d, p.nextBinding) && Acquired(env, d, request, faults, p, q, ok)
    ensures q.facts.bindingsByDevice.Keys <= p.facts.bindingsByDevice.Keys + {d}
  {
  }

  const FINE := Faults({}, {}, false, false)

  function FaultsOf(faults: map<Device, Faults>, d: Device): Faults {
    if d in faults then faults[d] else FINE
  }

  /** Half-way through the devices. */
  ghost predicate Exposing(
      env: Env, faults: map<Device, Faults>, pool: Ports.Pool, unused: nat, f: Facts, now: Facts, done: seq<Device>, exposed: set<Device>)
  {
    forall d :: Outcome(env, FaultsOf(faults, d), pool, unused, Of(f, d), Of(now, d), d, d in done, d in exposed)
  }

  lemma ExposeTurn(
      env: Env, faults: map<Device, Faults>, pool: Ports.Pool, later: Ports.Pool, unused: nat, nextLease: nat, f: Facts, now: Facts, next: Facts,
      listed: seq<Device>, i: nat, exposed: set<Device>, ok: bool)
    requires ListedOnce(env, listed, faults) && i < |listed| && Fuller(pool, later)
    requires nextLease >= unused && Exposing(env, faults, pool, unused, f, now, listed[..i], exposed)
    requires OthersSame(now, next, listed[i])
    requires Outcome(env, faults[listed[i]], later, nextLease, Of(now, listed[i]), Of(next, listed[i]), listed[i], true, ok)
    ensures Exposing(env, faults, later, unused, f, next, listed[..i + 1], if ok then exposed + {listed[i]} else exposed)
  {
    var d := listed[i];
    assert listed[..i + 1] == listed[..i] + [d];
    assert d !in listed[..i] && d in listed;
    forall e ensures Outcome(env, FaultsOf(faults, e), later, unused, Of(f, e), Of(next, e), e, e in listed[..i + 1],
      e in (if ok then exposed + {d} else exposed))
    {
      assert Outcome(env, FaultsOf(faults, e), pool, unused, Of(f, e), Of(now, e), e, e in listed[..i], e in exposed);
    }
  }

  function ReleasedIfStale(env: Env, f: Facts, lease: L.Lease): Facts
    requires Leased(f, lease.id) && f.leasesById[lease.id] == lease
  {
    if env.now >= lease.expiresAt || !env.Eligible(lease.device) then
      Withdrawn(f, lease.device, env.BindingStatusOf(lease.device))
    else f
  }

  /** What reconcile leaves of a leased device. */
  function Released(env: Env, d: Device, v: View): View {
    if v.lease.Some? && (env.now >= v.lease.value.expiresAt || !env.Eligible(d)) then
      View(if v.binding.Some? then Some(v.binding.value.(status := env.BindingStatusOf(d))) else None, None, None)
    else v
  }

  ghost predicate AllReleased(env: Env, f: Facts, next: Facts) {
    forall d :: Of(next, d) == Released(env, d, Of(f, d))
  }

  ghost predicate AllReconciled(env: Env, f: Facts, next: Facts) {
    forall d :: Of(next, d) == Reconciled(env, d, Of(f, d))
  }

  /** What is left are the leases that run, unchanged, on devices that are online over USB. */
  ghost predicate OnlyRunning(env: Env, leases: map<Device, L.Lease>, leases': map<Device, L.Lease>) {
    && (forall d :: d in leases' <==>
          d in leases && env.now < leases[d].expiresAt && d in env.devices && env.devices[d].usb && env.devices[d].online)
    && (forall d | d in leases' :: d in leases && leases'[d] == leases[d])
  }

  lemma ReleasedInPlainTerms(env: Env, f: Facts, next: Facts)
    requires AllReleased(env, f, next)
    ensures OnlyRunning(env, f.leasesByDevice, next.leasesByDevice)
  {
    forall d ensures Of(next, d) == Released(env, d, Of(f, d)) {}
    forall d ensures d in next.leasesByDevice <==> Of(next, d).lease.Some? {}
  }

  lemma ReleasingStarts(env: Env, f: Facts, nextBinding: nat, nextLease: nat)
    requires Rest(f, nextBinding, nextLease)
    ensures Releasing(env, f, f, nextBinding, nextLease, f.leasesById.Keys)
  {
  }

  lemma ReleasingEnds(env: Env, f: Facts, next: Facts, nextBinding: nat, nextLease: nat, pool: Ports.Pool)
    requires Releasing(env, f, next, nextBinding, nextLease, {}) && PortsHeld(f, pool)
    ensures Rest(next, nextBinding, nextLease) && PortsHeld(next, pool)
    ensures next.bindingsByDevice.Keys == f.bindingsByDevice.Keys
    ensures AllReleased(env, f, next) && OnlyRunning(env, f.leasesByDevice, next.leasesByDevice)
  {
    forall d ensures Of(next, d) == Released(env, d, Of(f, d)) { assert Of(next, d) == ReleasedSoFar(env, f, {}, d); }
    SamePorts(f, next);
    ReleasedInPlainTerms(env, f, next);
  }

  /** A binding without a lease is RESERVED while its device is online over USB, and otherwise FROZEN. */
  ghost predicate UnleasedFollow(env: Env, leases: map<Device, L.Lease>, bindings: map<Device, L.Binding>) {
    forall d | d in bindings && d !in leases ::
      if d in env.devices && env.devices[d].usb && env.devices[d].online
      then bindings[d].status.Reserved? else bindings[d].status.Frozen?
  }

  lemma ReconciledInPlainTerms(env: Env, f: Facts, next: Facts)
    requires AllReconciled(env, f, next)
    ensures UnleasedFollow(env, next.leasesByDevice, next.bindingsByDevice)
  {
    forall d | d in next.bindingsByDevice && d !in next.leasesByDevice
      ensures next.bindingsByDevice[d].status == env.BindingStatusOf(d)
    {
      assert Of(next, d) == Reconciled(env, d, Of(f, d));
    }
  }

  lemma ReconcilingStarts(env: Env, f: Facts, nextBinding: nat, nextLease: nat)
    requires Rest(f, nextBinding, nextLease)
    ensures Reconciling(env, f, f, nextBinding, nextLease, f.bindingsByDevice.Keys)
  {
  }

  lemma ReconcilingEnds(env: Env, f: Facts, next: Facts, nextBinding: nat, nextLease: nat, pool: Ports.Pool)
    requires Reconciling(env, f, next, nextBinding, nextLease, {}) && PortsHeld(f, pool)
    ensures Rest(next, nextBinding, nextLease) && PortsHeld(next, pool)
    ensures AllReconciled(env, f, next) && UnleasedFollow(env, next.leasesByDevice, next.bindingsByDevice)
  {
    forall d ensures Of(next, d) == Reconciled(env, d, Of(f, d)) {}
    SamePorts(f, next);
    ReconciledInPlainTerms(env, f, next);
  }

  function ReleasedSoFar(env: Env, f: Facts, todo: set<L.LeaseId>, d: Device): View {
    if d in f.leasesByDevice && f.leasesByDevice[d].id in todo then Of(f, d) else Released(env, d, Of(f, d))
  }

  /** Half-way through the leases. */
  ghost predicate Releasing(env: Env, f: Facts, now: Facts, nextBinding: nat, nextLease: nat, todo: set<L.LeaseId>) {
    && LeasesAgree(f, nextLease) && Rest(now, nextBinding, nextLease) && todo <= f.leasesById.Keys
    && now.bindingsByDevice.Keys == f.bindingsByDevice.Keys
    && forall d :: Of(now, d) == ReleasedSoFar(env, f, todo, d)
  }

  lemma StillThere(env: Env, f: Facts, now: Facts, nextBinding: nat, nextLease: nat, todo: set<L.LeaseId>, id: L.LeaseId)
    requires Releasing(env, f, now, nextBinding, nextLease, todo) && id in todo
    ensures id in now.leasesById && now.leasesById[id] == f.leasesById[id] && Leased(now, id) && f.leasesById[id].id == id
  {
    var d := f.leasesById[id].device;
    assert Of(now, d) == ReleasedSoFar(env, f, todo, d) == Of(f, d);
    RestIsLeased(now, nextBinding, nextLease, id);
  }

  lemma ReleaseTurn(
      env: Env, f: Facts, now: Facts, next: Facts, nextBinding: nat, nextLease: nat, todo: set<L.LeaseId>, id: L.LeaseId)
    requires Releasing(env, f, now, nextBinding, nextLease, todo) && id in todo && Leased(now, id)
    requires now.leasesById[id] == f.leasesById[id] && f.leasesById[id].id == id
    requires next == ReleasedIfStale(env, now, f.leasesById[id])
    ensures Releasing(env, f, next, nextBinding, nextLease, todo - {id})
  {
    var l := f.leasesById[id];
    if next != now { WithdrawnRests(now, nextBinding, nextLease, l.device, env.BindingStatusOf(l.device)); }
    forall d ensures Of(next, d) == ReleasedSoFar(env, f, todo - {id}, d) {
      assert Of(now, d) == ReleasedSoFar(env, f, todo, d);
      assert d in f.leasesByDevice && d != l.device ==> f.leasesByDevice[d].id != id;
    }
  }

  /** What Acquire relies on, for a device at rest. */
  predicate Ready(f: Facts, d: Device, nextBinding: nat) {
    && nextBinding !in f.bindingsById && nextBinding !in f.listeners
    && (d in f.bindingsByDevice ==> f.bindingsByDevice[d].device == d)
    && (d in f.leasesByDevice ==>
          && f.leasesByDevice[d].device == d && f.leasesByDevice[d].status.Active?
          && f.leasesByDevice[d].binding in f.listeners)
    && (d !in f.leasesByDevice && d in f.bindingsByDevice ==> f.bindingsByDevice[d].id !in f.listeners)
  }

  lemma RestIsReady(f: Facts, nextBinding: nat, nextLease: nat, d: Device)
    requires Rest(f, nextBinding, nextLease)
    ensures Ready(f, d, nextBinding)
  {
    assert Settled(Of(f, d));
  }

  function NewLease(env: Env, r: Request, id: L.LeaseId, d: Device, binding: L.BindingId): L.Lease {
    L.Lease(id, d, binding, r.owner, L.Active, env.now + r.ttl, 0)
  }

  /** All that an Acquire can have done. */
  ghost predicate Acquired(env: Env, d: Device, request: Request, faults: Faults, p: Point, q: Point, ok: bool) {
    if Normalize(env, request).None? || !env.Exposable(d) then !ok && q == p
    else AcquiredFor(env, d, Normalize(env, request).value, faults, p, q, ok)
  }

  ghost predicate AcquiredFor(env: Env, d: Device, r: Request, faults: Faults, p: Point, q: Point, ok: bool) {
    var f := p.facts;
    if d in f.leasesByDevice then
      && (ok <==> f.leasesByDevice[d].owner == r.owner)
      && q == if ok then p.(facts := Renewed(f, d, env.now + r.ttl)) else p
    else if d in f.bindingsByDevice then
      && (ok <==> !faults.notListening)
      && q == p.(nextLease := p.nextLease + 1,
           facts := if ok then Exposed(f, d, NewLease(env, r, p.nextLease, d, f.bindingsByDevice[d].id)) else f)
    else AcquiredUnbound(env, d, r, faults, p, q, ok)
  }

  /** For a device without a binding. */
  ghost predicate AcquiredUnbound(env: Env, d: Device, r: Request, faults: Faults, p: Point, q: Point, ok: bool) {
    var f, next := p.facts, q.facts;
    if Exhausted(p.pool, faults) || faults.notSaved then
      && !ok && next == f && p.nextBinding <= q.nextBinding <= p.nextBinding + 1 && q.nextLease == p.nextLease
      && Fuller(p.pool, q.pool) && q.pool.reserved == p.pool.reserved
    else
      && d in next.bindingsByDevice
      && var b := L.Binding(p.nextBinding, d, next.bindingsByDevice[d].port, L.Reserved);
         && q.nextBinding == p.nextBinding + 1 && q.nextLease == p.nextLease + 1 && (ok <==> !faults.notListening)
         && Fuller(p.pool, q.pool) && b.port !in p.pool.reserved && q.pool.reserved == p.pool.reserved + {b.port}
         && next == if ok then Exposed(PutBinding(f, b), d, NewLease(env, r, p.nextLease, d, p.nextBinding)) else PutBinding(f, b)
  }

  lemma PutThenRemoved<K, V>(m: map<K, V>, k: K, v: V)
    ensures m[k := v] - {k} == m - {k}
  {
  }

  /** A lease of a device, with its binding, in all the maps. */
  predicate Leased(f: Facts, id: L.LeaseId) {
    && id in f.leasesById && f.leasesById[id].id == id
    && var l := f.leasesById[id];
       && l.device in f.leasesByDevice && f.leasesByDevice[l.device] == l
       && l.device in f.bindingsByDevice && f.bindingsByDevice[l.device].device == l.device
       && f.bindingsByDevice[l.device].id == l.binding
       && l.binding in f.bindingsById && f.bindingsById[l.binding] == f.bindingsByDevice[l.device]
  }

  lemma RestIsLeased(f: Facts, nextBinding: nat, nextLease: nat, id: L.LeaseId)
    requires Rest(f, nextBinding, nextLease) && id in f.leasesById
    ensures Leased(f, id)
  {
    assert Settled(Of(f, f.leasesById[id].device));
  }

  // ---------- where a tick starts ----------

  /** The manager's maps in a state of the transition system, with each listener's grant as it is. */
  function FactsOf(s: L.State): Facts {
    Facts(s.bindingsByDevice, s.bindingsById, s.leasesByDevice, s.leasesById,
      map i | i in s.listeners && s.listeners[i].listener in s.grants :: s.grants[s.listeners[i].listener])
  }

  lemma BetweenCallsHeld(start: L.State, steps: seq<L.Step>, s: L.State)
    requires L.Initial(start) && L.Run(start, steps) == Some(s) && s.ops == map[]
    ensures s.pool.reserved == PortsOf(s.bindingsByDevice)
  {
    forall p ensures p in s.pool.reserved <==> p in PortsOf(s.bindingsByDevice) {
      L.NoPortLeaks(start, steps, s, p);
    }
  }

  /** Between two calls of any run with one caller, the maps are as Tick asks for them. */
  lemma BetweenCallsIsRest(start: L.State, steps: seq<L.Step>, s: L.State)
    requires L.Initial(start) && L.Run(start, steps) == Some(s) && LeaseGrants.SequentialRun(start, steps)
    requires s.ops == map[] && s.renewals == map[]
    ensures Rest(FactsOf(s), s.nextBinding, s.nextLease) && PortsHeld(FactsOf(s), s.pool)
  {
    L.InitialInv(start);
    L.RunKeepsInv(start, steps);
    forall d ensures Settled(Of(FactsOf(s), d)) {
      L.LeaseAndListenerAgree(start, steps, s, d);
      if d in s.leasesByDevice { LeaseGrants.GrantFollowsLease(start, steps, s, d); }
    }
    BetweenCallsHeld(start, steps, s);
  }
}
