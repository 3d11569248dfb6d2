/** The proxy port pool of internal/remote/ports.go.  Every lock-held region is a method of its own,
    so what each keeps holds at every lock boundary, whatever else runs in between. */
module Ports {
  import opened Text

  datatype Pool = Pool(minPort: int, maxPort: int, available: seq<int>, reserved: set<int>, blocked: set<int>)
  {
    /** Every port of the range is in exactly one of the three, and the available ones ascend. */
    ghost predicate Valid() {
      && Ascending(available)
      && (forall p :: minPort <= p <= maxPort <==> p in available || p in reserved || p in blocked)
      && (forall p :: p in available ==> p !in reserved && p !in blocked)
      && reserved !! blocked
    }

    function Reserve(port: int): Option<Pool> {
      if port < minPort || port > maxPort || port in reserved then None
      else if port in available then
        Some(this.(available := Without(available, port), reserved := reserved + {port}))
      else if port in blocked then
        Some(this.(blocked := blocked - {port}, reserved := reserved + {port}))
      else None
    }

    function TakeFirst(): Pool
      requires |available| > 0
    {
      this.(available := available[1..], reserved := reserved + {available[0]})
    }

    function Block(port: int): Pool {
      this.(reserved := reserved - {port}, blocked := blocked + {port})
    }

    function Recycle(): Pool {
      this.(available := Merge(available, Listed(minPort, maxPort, blocked)), blocked := {})
    }

    function Release(port: int): Pool {
      if port <= 0 || port !in reserved then this
      else this.(reserved := reserved - {port}, available := Merge(available, [port]))
    }
  }

  // ---------- ascending lists ----------

  predicate Ascending(s: seq<int>) {
    forall i, j | 0 <= i < j < |s| :: s[i] < s[j]
  }

  /** The members of a set from lo to hi, in order. */
  function Listed(lo: int, hi: int, members: set<int>): seq<int>
    decreases hi - lo
  {
    if lo > hi then [] else (if lo in members then [lo] else []) + Listed(lo + 1, hi, members)
  }

  function Merge(a: seq<int>, b: seq<int>): seq<int>
    decreases |a| + |b|
  {
    if |a| == 0 then b
    else if |b| == 0 then a
    else if a[0] <= b[0] then [a[0]] + Merge(a[1..], b)
    else [b[0]] + Merge(a, b[1..])
  }

  function Without(s: seq<int>, p: int): seq<int> {
    if |s| == 0 then [] else if s[0] == p then s[1..] else [s[0]] + Without(s[1..], p)
  }

  lemma {:induction false} ListedIsExact(lo: int, hi: int, members: set<int>)
    ensures Ascending(Listed(lo, hi, members))
    ensures forall p :: p in Listed(lo, hi, members) <==> lo <= p <= hi && p in members
    decreases hi - lo
  {
    if lo <= hi {
      ListedIsExact(lo + 1, hi, members);
      if lo in members { ConsAscending(lo, Listed(lo + 1, hi, members)); }
    }
  }

  lemma {:induction false} MergeIsExact(a: seq<int>, b: seq<int>)
    requires Ascending(a) && Ascending(b) && forall p <- a :: p !in b
    ensures Ascending(Merge(a, b))
    ensures forall p :: p in Merge(a, b) <==> p in a || p in b
    decreases |a| + |b|
  {
    if |a| == 0 || |b| == 0 {
    } else if a[0] <= b[0] {
      HeadBelow(a);
      HeadBelow(b);
      MergeIsExact(a[1..], b);
      ConsAscending(a[0], Merge(a[1..], b));
    } else {
      HeadBelow(a);
      HeadBelow(b);
      MergeIsExact(a, b[1..]);
      ConsAscending(b[0], Merge(a, b[1..]));
    }
  }

  lemma HeadBelow(s: seq<int>)
    requires Ascending(s) && |s| > 0
    ensures Ascending(s[1..]) && forall p <- s[1..] :: s[0] < p
    ensures forall p :: p in s <==> p == s[0] || p in s[1..]
  {
    assert s == [s[0]] + s[1..];
  }

  lemma ConsAscending(head: int, tail: seq<int>)
    requires Ascending(tail) && forall p <- tail :: head < p
    ensures Ascending([head] + tail)
  {
    var s := [head] + tail;
    forall i, j | 0 <= i < j < |s| ensures s[i] < s[j] {
      assert s[j] == tail[j - 1] && tail[j - 1] in tail;
    }
  }

  lemma {:induction false} WithoutIsExact(s: seq<int>, port: int)
    requires Ascending(s)
    ensures Ascending(Without(s, port))
    ensures forall p :: p in Without(s, port) <==> p in s && p != port
    decreases |s|
  {
    if |s| > 0 {
      HeadBelow(s);
      WithoutIsExact(s[1..], port);
      if s[0] != port { ConsAscending(s[0], Without(s[1..], port)); }
    }
  }

  lemma MembersOfNonEmpty(s: seq<int>)
    ensures |s| > 0 ==> s[0] in s
  {
  }

  /** An ascending list is determined by its members. */
  lemma {:induction false} SameMembersSameList(a: seq<int>, b: seq<int>)
    requires Ascending(a) && Ascending(b) && forall p :: p in a <==> p in b
    ensures a == b
    decreases |a|
  {
    if |a| == 0 {
      MembersOfNonEmpty(b);
    } else {
      assert a[0] in a && a[0] in b && b[0] in b;
      HeadBelow(a);
      HeadBelow(b);
      SameMembersSameList(a[1..], b[1..]);
    }
  }

  // ---------- every operation keeps the partition ----------

  lemma ReserveKeeps(pool: Pool, port: int)
    requires pool.Valid()
    ensures pool.Reserve(port).Some? <==> pool.minPort <= port <= pool.maxPort && port !in pool.reserved
    ensures pool.Reserve(port).Some? ==>
      pool.Reserve(port).value.Valid() && pool.Reserve(port).value.reserved == pool.reserved + {port}
  {
    WithoutIsExact(pool.available, port);
  }

  lemma TakeFirstKeeps(pool: Pool)
    requires pool.Valid() && |pool.available| > 0
    ensures pool.TakeFirst().Valid() && pool.available[0] !in pool.reserved
  {
    HeadBelow(pool.available);
  }

  lemma BlockKeeps(pool: Pool, port: int)
    requires pool.Valid() && port in pool.reserved
    ensures pool.Block(port).Valid()
  {
  }

  lemma RecycleKeeps(pool: Pool)
    requires pool.Valid()
    ensures pool.Recycle().Valid() && pool.Recycle().reserved == pool.reserved
    ensures forall p :: p in pool.Recycle().available <==> p in pool.available || p in pool.blocked
  {
    ListedIsExact(pool.minPort, pool.maxPort, pool.blocked);
    MergeIsExact(pool.available, Listed(pool.minPort, pool.maxPort, pool.blocked));
  }

  lemma ReleaseKeeps(pool: Pool, port: int)
    requires pool.Valid()
    ensures pool.Release(port).Valid()
    ensures port > 0 ==> pool.Release(port).reserved == pool.reserved - {port}
  {
    if port > 0 && port in pool.reserved { MergeIsExact(pool.available, [port]); }
  }

  // ---------- allocation ----------

  /** allocateOnce, while some ports are busy: the first available one that is not. */
  function ProbeOnce(pool: Pool, busy: set<int>): (Pool, Option<int>)
    decreases |pool.available|
  {
    if |pool.available| == 0 then (pool, None)
    else
      var port := pool.available[0];
      if port in busy then ProbeOnce(pool.TakeFirst().Block(port), busy)
      else (pool.TakeFirst(), Some(port))
  }

  /** allocate: a second round, over everything that is not reserved, when the first finds nothing. */
  function ProbeTwice(pool: Pool, busy: set<int>, stillBusy: set<int>): (Pool, Option<int>) {
    var (next, port) := ProbeOnce(pool, busy);
    if port.Some? || (|next.available| == 0 && next.blocked == {}) then (next, port)
    else ProbeOnce(next.Recycle(), stillBusy)
  }

  lemma {:induction false} AllocateOnceIsFirstFree(pool: Pool, busy: set<int>)
    requires pool.Valid()
    ensures var (next, port) := ProbeOnce(pool, busy);
      && next.Valid() && next.minPort == pool.minPort && next.maxPort == pool.maxPort
      && (port.None? ==>
            && (forall p <- pool.available :: p in busy) && next.reserved == pool.reserved
            && next.available == [] && (forall p :: p in next.blocked <==> p in pool.blocked || p in pool.available))
      && (port.Some? ==>
            && port.value in pool.available && port.value !in busy && next.reserved == pool.reserved + {port.value}
            && forall p <- pool.available :: p < port.value ==> p in busy)
    decreases |pool.available|
  {
    if |pool.available| > 0 {
      var port := pool.available[0];
      HeadBelow(pool.available);
      TakeFirstKeeps(pool);
      if port in busy {
        BlockKeeps(pool.TakeFirst(), port);
        assert pool.TakeFirst().Block(port).reserved == pool.reserved;
        AllocateOnceIsFirstFree(pool.TakeFirst().Block(port), busy);
      }
    }
  }

  /** Allocation fails only when every port that is not reserved is busy, and the port it takes was
      not reserved by anyone. */
  lemma AllocateFailsOnlyWhenExhausted(pool: Pool, busy: set<int>, stillBusy: set<int>)
    requires pool.Valid()
    ensures var (next, port) := ProbeTwice(pool, busy, stillBusy);
      && next.Valid()
      && (port.None? <==>
            && (forall p <- pool.available :: p in busy)
            && (forall p | pool.minPort <= p <= pool.maxPort && p !in pool.reserved :: p in stillBusy))
      && next.reserved == (if port.Some? then pool.reserved + {port.value} else pool.reserved)
      && (port.Some? ==> port.value !in pool.reserved && pool.minPort <= port.value <= pool.maxPort)
  {
    AllocateOnceIsFirstFree(pool, busy);
    var (next, port) := ProbeOnce(pool, busy);
    if port.None? {
      if |next.available| == 0 && next.blocked == {} {
        NothingIsFree(pool, next);
      } else {
        SecondRound(pool, next, stillBusy);
        assert ProbeTwice(pool, busy, stillBusy) == ProbeOnce(next.Recycle(), stillBusy);
      }
    }
  }

  lemma SecondRound(pool: Pool, next: Pool, stillBusy: set<int>)
    requires pool.Valid() && next.Valid() && next.available == []
    requires next.minPort == pool.minPort && next.maxPort == pool.maxPort && next.reserved == pool.reserved
    requires forall p :: p in next.blocked <==> p in pool.blocked || p in pool.available
    ensures var (end, port) := ProbeOnce(next.Recycle(), stillBusy);
      && end.Valid()
      && (port.None? <==> forall p | pool.minPort <= p <= pool.maxPort && p !in pool.reserved :: p in stillBusy)
      && end.reserved == (if port.Some? then pool.reserved + {port.value} else pool.reserved)
      && (port.Some? ==> port.value !in pool.reserved && pool.minPort <= port.value <= pool.maxPort)
  {
    RecycleKeeps(next);
    RecycledIsUnreserved(pool, next);
    AllocateOnceIsFirstFree(next.Recycle(), stillBusy);
    var (end, port) := ProbeOnce(next.Recycle(), stillBusy);
    if port.None? {
      forall p | pool.minPort <= p <= pool.maxPort && p !in pool.reserved ensures p in stillBusy {
        assert p in next.Recycle().available;
      }
    } else {
      assert port.value in next.Recycle().available;
    }
  }

  lemma NothingIsFree(pool: Pool, next: Pool)
    requires pool.Valid() && next.available == [] && next.blocked == {}
    requires forall p :: p in next.blocked <==> p in pool.blocked || p in pool.available
    ensures forall p :: pool.minPort <= p <= pool.maxPort ==> p in pool.reserved
  {
  }

  lemma RecycledIsUnreserved(pool: Pool, next: Pool)
    requires pool.Valid() && next.Valid() && next.available == [] && next.Recycle().Valid()
    requires forall p :: p in next.blocked <==> p in pool.blocked || p in pool.available
    requires forall p :: p in next.Recycle().available <==> p in next.available || p in next.blocked
    ensures forall p :: p in next.Recycle().available <==> pool.minPort <= p <= pool.maxPort && p !in pool.reserved
  {
  }

  // ---------- the pool as it is ----------

  /** sort.Ints. */
  method SortInts(s: seq<int>) returns (r: seq<int>)
    requires forall i, j | 0 <= i < j < |s| :: s[i] != s[j]
    ensures Ascending(r) && forall p :: p in r <==> p in s
  {
    r := [];
    for i := 0 to |s|
      invariant Ascending(r) && forall p :: p in r <==> p in s[..i]
    {
      assert s[..i + 1] == s[..i] + [s[i]];
      assert s[i] !in s[..i];
      MergeIsExact(r, [s[i]]);
      r := Merge(r, [s[i]]);
    }
    assert s[..|s|] == s;
  }

  class PortPool {
    const minPort: int
    const maxPort: int
    var available: seq<int>
    var reserved: set<int>
    var blocked: set<int>

    ghost function Value(): Pool
      reads this
    {
      Pool(minPort, maxPort, available, reserved, blocked)
    }

    constructor (minPort: int, maxPort: int)
      ensures Value().Valid() && this.minPort == minPort && this.maxPort == maxPort
      ensures reserved == {} && blocked == {}
    {
      this.minPort, this.maxPort, reserved, blocked := minPort, maxPort, {}, {};
      available := [];
      new;
      var port := minPort;
      while port <= maxPort
        invariant minPort <= port && port <= (if minPort <= maxPort then maxPort + 1 else minPort)
        invariant Ascending(available) && forall p :: p in available <==> minPort <= p < port
        invariant this.minPort == minPort && this.maxPort == maxPort && reserved == {} && blocked == {}
        decreases maxPort - port + 1
      {
        ghost var before := available;
        assert forall i | 0 <= i < |before| :: before[i] in before;
        available := available + [port];
        assert forall p :: p in available <==> p in before || p == port;
        port := port + 1;
      }
      assert port == maxPort + 1 || (port == minPort && minPort > maxPort);
      assert forall p :: p in available <==> minPort <= p <= maxPort;
    }

    /** reserve, which also takes a port whose last probe failed. */
    method Reserve(port: int) returns (ok: bool)
      requires Value().Valid()
      modifies this
      ensures Value().Valid()
      ensures ok <==> old(Value()).Reserve(port).Some?
      ensures Value() == if ok then old(Value()).Reserve(port).value else old(Value())
    {
      ReserveKeeps(Value(), port);
      if port < minPort || port > maxPort { return false; }
      if port in reserved { return false; }
      var index := 0;
      while index < |available|
        invariant 0 <= index <= |available| && unchanged(this)
        invariant port !in available[..index]
      {
        if available[index] == port {
          RemoveAt(available, index);
          available, reserved := available[..index] + available[index + 1..], reserved + {port};
          return true;
        }
        index := index + 1;
      }
      if port in blocked {
        blocked, reserved := blocked - {port}, reserved + {port};
        return true;
      }
      ok := false;
    }

    /** The region of allocateOnce that takes the first available port before it is probed. */
    method TakeFirst() returns (port: Option<int>)
      requires Value().Valid()
      modifies this
      ensures Value().Valid()
      ensures port.None? <==> |old(available)| == 0
      ensures port.None? ==> Value() == old(Value())
      ensures port.Some? ==> port.value == old(available)[0] && Value() == old(Value()).TakeFirst()
    {
      if |available| == 0 { return None; }
      TakeFirstKeeps(Value());
      port := Some(available[0]);
      available, reserved := available[1..], reserved + {available[0]};
    }

    /** The region of allocateOnce after a failed probe. */
    method Block(port: int)
      requires Value().Valid() && port in reserved
      modifies this
      ensures Value().Valid() && Value() == old(Value()).Block(port)
    {
      BlockKeeps(Value(), port);
      reserved, blocked := reserved - {port}, blocked + {port};
    }

    method AllocateOnce(busy: set<int>) returns (port: Option<int>)
      requires Value().Valid()
      modifies this
      ensures Value().Valid() && (Value(), port) == ProbeOnce(old(Value()), busy)
    {
      while true
        invariant Value().Valid()
        invariant ProbeOnce(Value(), busy) == ProbeOnce(old(Value()), busy)
        decreases |available|
      {
        port := TakeFirst();
        if port.None? || port.value !in busy { return; }
        Block(port.value);
      }
    }

    /** recycleBlockedLocked. */
    method Recycle()
      requires Value().Valid()
      modifies this
      ensures Value().Valid() && Value() == old(Value()).Recycle()
    {
      RecycleKeeps(Value());
      if blocked == {} {
        SameMembersSameList(available, Value().Recycle().available);
        return;
      }
      ghost var target := Value().Recycle().available;
      var ports := available;
      while blocked != {}
        invariant forall i, j | 0 <= i < j < |ports| :: ports[i] != ports[j]
        invariant forall p :: p in target <==> p in ports || p in blocked
        invariant forall p <- ports :: p !in blocked
        invariant available == old(available) && reserved == old(reserved)
        decreases blocked
      {
        var port :| port in blocked;
        ports, blocked := ports + [port], blocked - {port};
      }
      available := SortInts(ports);
      SameMembersSameList(available, target);
    }

    method Release(port: int)
      requires Value().Valid()
      modifies this
      ensures Value().Valid() && Value() == old(Value()).Release(port)
    {
      if port <= 0 { return; }
      if port !in reserved { return; }
      ReleaseKeeps(Value(), port);
      MergeIsExact(available, [port]);
      ghost var target := Merge(available, [port]);
      reserved := reserved - {port};
      available := SortInts(available + [port]);
      SameMembersSameList(available, target);
    }

    method Allocate(busy: set<int>, stillBusy: set<int>) returns (port: Option<int>)
      requires Value().Valid()
      modifies this
      ensures Value().Valid() && (Value(), port) == ProbeTwice(old(Value()), busy, stillBusy)
    {
      port := AllocateOnce(busy);
      if port.Some? { return; }
      var retryable := blocked != {} || |available| > 0;
      if !retryable {
        return None;
      }
      Recycle();
      port := AllocateOnce(stillBusy);
    }
  }

  lemma {:induction false} RemoveAt(s: seq<int>, index: nat)
    requires Ascending(s) && index < |s|
    ensures s[..index] + s[index + 1..] == Without(s, s[index])
    decreases |s|
  {
    if index == 0 {
      assert s[..0] + s[1..] == s[1..];
    } else {
      var tail := s[1..];
      RemoveAt(tail, index - 1);
      assert s[..index] == [s[0]] + tail[..index - 1] && s[index + 1..] == tail[index..];
      assert ([s[0]] + tail[..index - 1]) + tail[index..] == [s[0]] + (tail[..index - 1] + tail[index..]);
    }
  }
}
