/** Restoring bindings at start: NewManager of internal/remote/manager.go over the snapshot store and
    the port pool. */
module Restore {
  import opened Text
  import Ports
  import Snapshot
  import L = Lease

  type Binding = Snapshot.Binding

  /** The manager's two binding maps and its pool. */
  datatype Restored = Restored(pool: Ports.Pool, byDevice: map<string, Binding>, byId: map<string, Binding>)

  function Fresh(range: Snapshot.Range): Ports.Pool {
    var size := if range.minPort <= range.maxPort then range.maxPort - range.minPort + 1 else 0;
    Ports.Pool(range.minPort, range.maxPort, seq(size, i => range.minPort + i), {}, {})
  }

  /** One turn of the loop: the port is reserved, and the binding entered under device and id. */
  function RestoreOne(r: Restored, b: Binding, publicHost: string): Option<Restored> {
    match r.pool.Reserve(b.port)
    case None => None
    case Some(pool) =>
      var restored := b.(publicHost := publicHost, status := Snapshot.Reserved);
      Some(Restored(pool, r.byDevice[b.deviceId := restored], r.byId[b.id := restored]))
  }

  function RestoreAll(range: Snapshot.Range, bindings: seq<Binding>, publicHost: string): Option<Restored> {
    if |bindings| == 0 then Some(Restored(Fresh(range), map[], map[]))
    else
      match RestoreAll(range, bindings[..|bindings| - 1], publicHost)
      case None => None
      case Some(r) => RestoreOne(r, bindings[|bindings| - 1], publicHost)
  }

  method RestoreLoop(range: Snapshot.Range, bindings: seq<Binding>, publicHost: string)
    returns (pool: Ports.PortPool, byDevice: map<string, Binding>, byId: map<string, Binding>, ok: bool)
    ensures fresh(pool) && (ok <==> RestoreAll(range, bindings, publicHost).Some?)
    ensures ok ==> RestoreAll(range, bindings, publicHost).value == Restored(pool.Value(), byDevice, byId)
  {
    pool := new Ports.PortPool(range.minPort, range.maxPort);
    byDevice, byId := map[], map[];
    FreshIsValue(range, pool.Value());
    for i := 0 to |bindings|
      invariant fresh(pool) && pool.Value().Valid()
      invariant RestoreAll(range, bindings[..i], publicHost) == Some(Restored(pool.Value(), byDevice, byId))
    {
      assert bindings[..i + 1][..i] == bindings[..i];
      ok := pool.Reserve(bindings[i].port);
      if !ok {
        FailureLasts(range, bindings, publicHost, i + 1);
        return;
      }
      var b := bindings[i].(publicHost := publicHost, status := Snapshot.Reserved);
      byDevice, byId := byDevice[b.deviceId := b], byId[b.id := b];
    }
    assert bindings[..|bindings|] == bindings;
    ok := true;
  }

  lemma FreshIsValid(range: Snapshot.Range)
    ensures Fresh(range).Valid()
  {
    var ports := Fresh(range).available;
    forall p | range.minPort <= p <= range.maxPort ensures p in ports {
      assert ports[p - range.minPort] == p;
    }
  }

  lemma FreshIsValue(range: Snapshot.Range, pool: Ports.Pool)
    requires pool.Valid() && pool.minPort == range.minPort && pool.maxPort == range.maxPort
    requires pool.reserved == {} && pool.blocked == {}
    ensures pool == Fresh(range)
  {
    FreshIsValid(range);
    Ports.SameMembersSameList(pool.available, Fresh(range).available);
  }

  lemma {:induction false} FailureLasts(range: Snapshot.Range, bindings: seq<Binding>, publicHost: string, n: nat)
    requires n <= |bindings| && RestoreAll(range, bindings[..n], publicHost).None?
    ensures RestoreAll(range, bindings, publicHost).None?
    decreases |bindings|
  {
    if n == |bindings| {
      assert bindings[..n] == bindings;
    } else {
      assert bindings[..|bindings| - 1][..n] == bindings[..n];
      FailureLasts(range, bindings[..|bindings| - 1], publicHost, n);
    }
  }

  // ---------- restoring never fails ----------

  lemma AcceptableFront(range: Snapshot.Range, bindings: seq<Binding>)
    requires Snapshot.Acceptable(range, bindings) && |bindings| > 0
    ensures var front, last := bindings[..|bindings| - 1], bindings[|bindings| - 1];
      && Snapshot.Acceptable(range, front) && Snapshot.Complete(range, last)
      && (forall b <- front :: b.port != last.port && b.deviceId != last.deviceId)
      && (forall b :: b in bindings <==> b in front || b == last)
  {
    var front, last := bindings[..|bindings| - 1], bindings[|bindings| - 1];
    assert bindings == front + [last] && last in bindings;
    Snapshot.AcceptableSnoc(range, front, last);
  }

  lemma {:induction false} PortsRestored(range: Snapshot.Range, bindings: seq<Binding>, publicHost: string)
    requires Snapshot.Acceptable(range, bindings)
    ensures var r := RestoreAll(range, bindings, publicHost);
      && r.Some? && r.value.pool.Valid() && r.value.pool.blocked == {}
      && r.value.pool.minPort == range.minPort && r.value.pool.maxPort == range.maxPort
      && (forall p :: p in r.value.pool.reserved <==> exists b <- bindings :: b.port == p)
    decreases |bindings|
  {
    if |bindings| == 0 {
      FreshIsValid(range);
    } else {
      var front, last := bindings[..|bindings| - 1], bindings[|bindings| - 1];
      AcceptableFront(range, bindings);
      PortsRestored(range, front, publicHost);
      Ports.ReserveKeeps(RestoreAll(range, front, publicHost).value.pool, last.port);
    }
  }

  /** What the last turn of the loop does to the maps. */
  lemma LastRestored(range: Snapshot.Range, bindings: seq<Binding>, publicHost: string)
    requires Snapshot.Acceptable(range, bindings) && |bindings| > 0
    ensures var front, last := bindings[..|bindings| - 1], bindings[|bindings| - 1];
      var all, before := RestoreAll(range, bindings, publicHost), RestoreAll(range, front, publicHost);
      var b := last.(publicHost := publicHost, status := Snapshot.Reserved);
      && all.Some? && before.Some?
      && all.value.byDevice == before.value.byDevice[last.deviceId := b]
      && all.value.byId == before.value.byId[last.id := b]
  {
    AcceptableFront(range, bindings);
    PortsRestored(range, bindings, publicHost);
  }

  lemma {:induction false} DevicesRestored(range: Snapshot.Range, bindings: seq<Binding>, publicHost: string)
    requires Snapshot.Acceptable(range, bindings)
    ensures var r := RestoreAll(range, bindings, publicHost);
      && r.Some?
      && (forall d :: d in r.value.byDevice <==> exists b <- bindings :: b.deviceId == d)
      && (forall b <- bindings ::
            r.value.byDevice[b.deviceId] == b.(publicHost := publicHost, status := Snapshot.Reserved))
    decreases |bindings|
  {
    if |bindings| > 0 {
      AcceptableFront(range, bindings);
      LastRestored(range, bindings, publicHost);
      DevicesRestored(range, bindings[..|bindings| - 1], publicHost);
    }
  }

  /** Whatever Load accepts is restored: every device has its own binding, on its own reserved port. */
  lemma RestoreNeverFails(range: Snapshot.Range, bindings: seq<Binding>, publicHost: string)
    requires Snapshot.Acceptable(range, bindings)
    ensures var r := RestoreAll(range, bindings, publicHost);
      && r.Some? && r.value.pool.Valid()
      && (forall p :: p in r.value.pool.reserved <==> exists b <- bindings :: b.port == p)
      && (forall d :: d in r.value.byDevice <==> exists b <- bindings :: b.deviceId == d)
      && (forall b <- bindings ::
            r.value.byDevice[b.deviceId] == b.(publicHost := publicHost, status := Snapshot.Reserved))
  {
    PortsRestored(range, bindings, publicHost);
    DevicesRestored(range, bindings, publicHost);
  }

  // ---------- when the two maps agree ----------

  ghost predicate DistinctIds(bindings: seq<Binding>) {
    forall i, j | 0 <= i < j < |bindings| :: bindings[i].id != bindings[j].id
  }

  /** Every device's binding can also be found by its id. */
  ghost predicate MapsAgree(r: Restored) {
    forall d | d in r.byDevice :: r.byDevice[d].id in r.byId && r.byId[r.byDevice[d].id] == r.byDevice[d]
  }

  /** Validation does not look at ids, and the maps agree exactly when the snapshot repeats none. */
  lemma MapsAgreeIffIdsDiffer(range: Snapshot.Range, bindings: seq<Binding>, publicHost: string)
    requires Snapshot.Acceptable(range, bindings)
    ensures RestoreAll(range, bindings, publicHost).Some?
    ensures MapsAgree(RestoreAll(range, bindings, publicHost).value) <==> DistinctIds(bindings)
  {
    RestoreNeverFails(range, bindings, publicHost);
    var r := RestoreAll(range, bindings, publicHost).value;
    if DistinctIds(bindings) {
      forall d | d in r.byDevice ensures r.byDevice[d].id in r.byId && r.byId[r.byDevice[d].id] == r.byDevice[d] {
        var b :| b in bindings && b.deviceId == d;
        LastOfId(range, bindings, publicHost, b);
      }
    } else {
      var i, j :| 0 <= i < j < |bindings| && bindings[i].id == bindings[j].id;
      assert bindings[i] in bindings && bindings[j] in bindings;
      assert r.byDevice[bindings[i].deviceId].id == r.byDevice[bindings[j].deviceId].id;
      assert r.byDevice[bindings[i].deviceId] != r.byDevice[bindings[j].deviceId];
    }
  }

  lemma {:induction false} LastOfId(range: Snapshot.Range, bindings: seq<Binding>, publicHost: string, b: Binding)
    requires Snapshot.Acceptable(range, bindings) && DistinctIds(bindings) && b in bindings
    ensures var r := RestoreAll(range, bindings, publicHost);
      && r.Some? && b.id in r.value.byId
      && r.value.byId[b.id] == b.(publicHost := publicHost, status := Snapshot.Reserved)
    decreases |bindings|
  {
    var front, last := bindings[..|bindings| - 1], bindings[|bindings| - 1];
    AcceptableFront(range, bindings);
    LastRestored(range, bindings, publicHost);
    if b != last {
      LastOfId(range, front, publicHost, b);
      var i :| 0 <= i < |front| && front[i] == b;
      assert bindings[i].id != bindings[|bindings| - 1].id;
    }
  }

  /** A snapshot that is accepted although two devices share an id; only the last is found by it. */
  lemma SharedIdIsAccepted(range: Snapshot.Range, publicHost: string)
    requires range.minPort < range.maxPort
    ensures var a := Snapshot.Binding("id", "a", "host", range.minPort, Snapshot.Reserved, 0, 0);
      var b := Snapshot.Binding("id", "b", "host", range.maxPort, Snapshot.Reserved, 0, 0);
      && Snapshot.Acceptable(range, [a, b])
      && RestoreAll(range, [a, b], publicHost).Some?
      && !MapsAgree(RestoreAll(range, [a, b], publicHost).value)
  {
    var a := Snapshot.Binding("id", "a", "host", range.minPort, Snapshot.Reserved, 0, 0);
    var b := Snapshot.Binding("id", "b", "host", range.maxPort, Snapshot.Reserved, 0, 0);
    assert [a, b][0].id == [a, b][1].id;
    MapsAgreeIffIdsDiffer(range, [a, b], publicHost);
  }

  // ---------- where the manager starts ----------

  /** Every binding found by an id is the restored one of some device. */
  lemma {:induction false} IdsRestored(range: Snapshot.Range, bindings: seq<Binding>, publicHost: string)
    requires Snapshot.Acceptable(range, bindings)
    ensures var r := RestoreAll(range, bindings, publicHost);
      && r.Some?
      && forall i | i in r.value.byId :: r.value.byId[i].id == i
           && exists b <- bindings :: r.value.byId[i] == b.(publicHost := publicHost, status := Snapshot.Reserved)
    decreases |bindings|
  {
    RestoreNeverFails(range, bindings, publicHost);
    if |bindings| > 0 {
      var front, last := bindings[..|bindings| - 1], bindings[|bindings| - 1];
      AcceptableFront(range, bindings);
      LastRestored(range, bindings, publicHost);
      IdsRestored(range, front, publicHost);
      var before, after := RestoreAll(range, front, publicHost).value, RestoreAll(range, bindings, publicHost).value;
      forall i | i in after.byId ensures after.byId[i].id == i
        && exists b <- bindings :: after.byId[i] == b.(publicHost := publicHost, status := Snapshot.Reserved)
      {
        if i == last.id {
          assert last in bindings;
        } else {
          var b :| b in front && before.byId[i] == b.(publicHost := publicHost, status := Snapshot.Reserved);
          assert b in bindings;
        }
      }
    }
  }

  /** A binding as the transition system has it, its id numbered. */
  function Numbered(b: Binding, number: string -> nat): L.Binding {
    L.Binding(number(b.id), b.deviceId, b.port, L.Reserved)
  }

  predicate NumbersDiffer(r: Restored, number: string -> nat, nextBinding: nat) {
    && (forall i | i in r.byId :: number(i) < nextBinding)
    && (forall i, j | i in r.byId && j in r.byId && number(i) == number(j) :: i == j)
  }

  /** The manager that NewManager returns: restored bindings, their ports, and nothing else. */
  function Manager(r: Restored, number: string -> nat, nextBinding: nat): L.State
    requires NumbersDiffer(r, number, nextBinding)
  {
    L.State(
      map d | d in r.byDevice :: Numbered(r.byDevice[d], number),
      map i | i in r.byId :: number(i) := Numbered(r.byId[i], number),
      map[], map[], map[], r.pool, map[], map[], map[], nextBinding, 0, 0, 0)
  }

  lemma RestoredBindingsAgree(
      range: Snapshot.Range, bindings: seq<Binding>, publicHost: string, r: Restored, number: string -> nat, nextBinding: nat)
    requires Snapshot.Acceptable(range, bindings) && DistinctIds(bindings)
    requires RestoreAll(range, bindings, publicHost) == Some(r) && NumbersDiffer(r, number, nextBinding)
    ensures L.BindingsAgree(Manager(r, number, nextBinding))
  {
    var s := Manager(r, number, nextBinding);
    RestoreNeverFails(range, bindings, publicHost);
    IdsRestored(range, bindings, publicHost);
    MapsAgreeIffIdsDiffer(range, bindings, publicHost);
    forall i | i in r.byId ensures r.byId[i].deviceId in r.byDevice && r.byDevice[r.byId[i].deviceId] == r.byId[i] {
      var b :| b in bindings && r.byId[i] == b.(publicHost := publicHost, status := Snapshot.Reserved);
    }
    forall n | n in s.bindingsById
      ensures s.bindingsById[n].id == n && s.bindingsById[n].device in s.bindingsByDevice
      ensures s.bindingsByDevice[s.bindingsById[n].device] == s.bindingsById[n]
    {
      var i :| i in r.byId && number(i) == n;
      assert s.bindingsById[n] == Numbered(r.byId[i], number);
    }
  }

  predicate HasPort(r: Restored, d: string, port: int) {
    d in r.byDevice && r.byDevice[d].port == port
  }

  /** A restored device, and the binding it comes from. */
  lemma DeviceRestored(range: Snapshot.Range, bindings: seq<Binding>, publicHost: string, r: Restored, d: string)
    returns (b: Binding)
    requires Snapshot.Acceptable(range, bindings) && RestoreAll(range, bindings, publicHost) == Some(r) && d in r.byDevice
    ensures b in bindings && b.deviceId == d && r.byDevice[d].port == b.port && b.port in r.pool.reserved
  {
    RestoreNeverFails(range, bindings, publicHost);
    b :| b in bindings && b.deviceId == d;
  }

  lemma PortRestored(range: Snapshot.Range, bindings: seq<Binding>, publicHost: string, r: Restored, port: int)
    requires Snapshot.Acceptable(range, bindings) && RestoreAll(range, bindings, publicHost) == Some(r)
    requires port in r.pool.reserved
    ensures exists d :: HasPort(r, d, port)
  {
    RestoreNeverFails(range, bindings, publicHost);
    var b :| b in bindings && b.port == port;
    assert HasPort(r, b.deviceId, port);
  }

  lemma RestoredPortsOwned(
      range: Snapshot.Range, bindings: seq<Binding>, publicHost: string, r: Restored, number: string -> nat, nextBinding: nat)
    requires Snapshot.Acceptable(range, bindings) && range.minPort > 0
    requires RestoreAll(range, bindings, publicHost) == Some(r) && NumbersDiffer(r, number, nextBinding)
    ensures L.PortsOwned(Manager(r, number, nextBinding))
  {
    var s := Manager(r, number, nextBinding);
    PortsRestored(range, bindings, publicHost);
    forall d | L.PortOf(s, d).Some? ensures HasPort(r, d, L.PortOf(s, d).value) && L.PortOf(s, d).value in r.pool.reserved {
      var b := DeviceRestored(range, bindings, publicHost, r, d);
    }
    forall d, e | d != e && L.PortOf(s, d).Some? ensures L.PortOf(s, d) != L.PortOf(s, e) {
      if L.PortOf(s, e).Some? {
        var b := DeviceRestored(range, bindings, publicHost, r, d);
        var c := DeviceRestored(range, bindings, publicHost, r, e);
        PortsDiffer(range, bindings, b, c);
      }
    }
    forall p | p in s.pool.reserved ensures L.HasHolder(s, p) {
      PortRestored(range, bindings, publicHost, r, p);
      var d :| HasPort(r, d, p);
      assert L.PortOf(s, d) == Some(p);
    }
  }

  lemma PortsDiffer(range: Snapshot.Range, bindings: seq<Binding>, b: Binding, c: Binding)
    requires Snapshot.Acceptable(range, bindings) && b in bindings && c in bindings && b.deviceId != c.deviceId
    ensures b.port != c.port
  {
    var i :| 0 <= i < |bindings| && bindings[i] == b;
    var j :| 0 <= j < |bindings| && bindings[j] == c;
    assert i < j || j < i;
  }

  /** What is restored from any snapshot without a repeated id is a state in which every run of the manager
      may start, however its ids are numbered. */
  lemma RestoredIsInitial(
      range: Snapshot.Range, bindings: seq<Binding>, publicHost: string, r: Restored, number: string -> nat, nextBinding: nat)
    requires Snapshot.Acceptable(range, bindings) && DistinctIds(bindings) && range.minPort > 0
    requires RestoreAll(range, bindings, publicHost) == Some(r) && NumbersDiffer(r, number, nextBinding)
    ensures L.Initial(Manager(r, number, nextBinding))
  {
    RestoredBindingsAgree(range, bindings, publicHost, r, number, nextBinding);
    RestoredPortsOwned(range, bindings, publicHost, r, number, nextBinding);
  }
}
