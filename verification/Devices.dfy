/** The device snapshot of internal/device/registry.go, and the scan history it stands for. */
module Devices {
  import opened Text

  datatype Status = Online | Offline | Unknown | OtherStatus

  datatype Device = Device(id: string, connectKey: string, usb: bool, status: Status, updatedAt: int)

  /** staleAfter, and how long a device that is no longer listed is kept. */
  datatype Limits = Limits(staleAfter: int, retainOffline: int)

  datatype State = State(devices: map<string, Device>, offlineSince: map<string, int>, lastSuccess: int, ready: bool)

  const NEVER := State(map[], map[], 0, false)

  // ---------- one scan ----------

  /** The listed devices by id; blank ids are skipped and later entries win. */
  function Listed(visible: seq<Device>, now: int): map<string, Device> {
    if |visible| == 0 then map[]
    else
      var last := visible[|visible| - 1];
      var front := Listed(visible[..|visible| - 1], now);
      if Trim(last.id) == "" then front else front[last.id := last.(updatedAt := now)]
  }

  function Since(s: State, id: string, now: int): int {
    if id in s.offlineSince then s.offlineSince[id] else now
  }

  /** A device that is not listed is kept as OFFLINE until it has been missing for too long. */
  predicate Kept(limits: Limits, s: State, id: string, now: int) {
    id in s.devices && now - Since(s, id, now) <= limits.retainOffline
  }

  function WentOffline(device: Device, now: int): Device {
    if device.status.Offline? then device else device.(status := Offline, updatedAt := now)
  }

  /** The devices after a successful scan, */
  function NextDevices(limits: Limits, s: State, listed: map<string, Device>, now: int): map<string, Device> {
    map id | id in s.devices.Keys + listed.Keys && (id in listed || Kept(limits, s, id, now)) ::
      if id in listed then listed[id] else WentOffline(s.devices[id], now)
  }

  /** and since when those not listed have been missed. */
  function NextSince(limits: Limits, s: State, listed: map<string, Device>, now: int): map<string, int> {
    map id | id in s.devices && id !in listed && Kept(limits, s, id, now) :: Since(s, id, now)
  }

  /** refresh after a successful scan. */
  function Refreshed(limits: Limits, s: State, visible: seq<Device>, now: int): State {
    var listed := Listed(visible, now);
    State(NextDevices(limits, s, listed, now), NextSince(limits, s, listed, now), now, true)
  }

  /** markStale, after a failed one: statuses become UNKNOWN once the last success is too old. */
  function Stale(limits: Limits, s: State, now: int): State {
    if !s.ready || now - s.lastSuccess < limits.staleAfter then s
    else
      s.(devices := map id | id in s.devices ::
        if s.devices[id].status.Unknown? then s.devices[id] else s.devices[id].(status := Unknown, updatedAt := now))
  }

  class Registry {
    const limits: Limits
    var devices: map<string, Device>
    var offlineSince: map<string, int>
    var lastSuccess: int
    var ready: bool

    constructor (limits: Limits)
      ensures this.limits == limits && Value() == NEVER
    {
      this.limits := limits;
      devices, offlineSince, lastSuccess, ready := map[], map[], 0, false;
    }

    function Value(): State
      reads this
    {
      State(devices, offlineSince, lastSuccess, ready)
    }

    method MarkStale(now: int)
      modifies this`devices
      ensures Value() == Stale(limits, old(Value()), now)
    {
      if !ready || now - lastSuccess < limits.staleAfter { return; }
      var todo := devices.Keys;
      while todo != {}
        invariant todo <= devices.Keys == old(devices).Keys
        invariant forall id | id in devices ::
          devices[id] == if id in todo || old(devices)[id].status.Unknown? then old(devices)[id]
            else old(devices)[id].(status := Unknown, updatedAt := now)
        decreases todo
      {
        var id :| id in todo;
        todo := todo - {id};
        var device := devices[id];
        if !device.status.Unknown? {
          devices := devices[id := device.(status := Unknown, updatedAt := now)];
        }
      }
    }

    /** refresh: error when the scan failed. */
    method Refresh(visible: seq<Device>, error: bool, now: int)
      modifies this
      ensures Value() == if error then Stale(limits, old(Value()), now) else Refreshed(limits, old(Value()), visible, now)
    {
      if error {
        MarkStale(now);
        return;
      }
      ghost var before := Value();
      var next: map<string, Device> := map[];
      for i := 0 to |visible|
        invariant Value() == before && next == Listed(visible[..i], now)
      {
        assert visible[..i + 1][..i] == visible[..i];
        var device := visible[i];
        if Trim(device.id) != "" {
          next := next[device.id := device.(updatedAt := now)];
        }
      }
      assert visible[..|visible|] == visible;
      var since;
      next, since := KeepMissing(limits, Value(), next, now);
      devices, offlineSince, lastSuccess, ready := next, since, now, true;
    }
  }

  /** Half-way through the devices it knew. */
  ghost predicate Keeping(
      limits: Limits, s: State, listed: map<string, Device>, now: int, todo: set<string>,
      next: map<string, Device>, since: map<string, int>)
  {
    && (forall id :: id in next <==> id in listed || (id in s.devices && id !in todo && Kept(limits, s, id, now)))
    && (forall id | id in next :: next[id] == if id in listed then listed[id] else WentOffline(s.devices[id], now))
    && (forall id :: id in since <==>
          if id in todo then id in s.offlineSince else id in s.devices && id !in listed && Kept(limits, s, id, now))
    && (forall id | id in since :: since[id] == Since(s, id, now))
  }

  /** One turn of the loop. */
  method KeepOne(
      limits: Limits, s: State, listed: map<string, Device>, now: int, ghost todo: set<string>, id: string,
      next: map<string, Device>, since: map<string, int>)
    returns (next': map<string, Device>, since': map<string, int>)
    requires todo <= s.devices.Keys && id in todo && Keeping(limits, s, listed, now, todo, next, since)
    ensures Keeping(limits, s, listed, now, todo - {id}, next', since')
  {
    next', since' := next, since;
    if id in listed {
      since' := since' - {id};
      return;
    }
    if id !in since' { since' := since'[id := now]; }
    if now - since'[id] > limits.retainOffline {
      since' := since' - {id};
    } else {
      next' := next'[id := WentOffline(s.devices[id], now)];
    }
  }

  lemma KeepingDone(
      limits: Limits, s: State, listed: map<string, Device>, now: int, next: map<string, Device>, since: map<string, int>)
    requires Keeping(limits, s, listed, now, {}, next, since)
    ensures next == NextDevices(limits, s, listed, now) && since == NextSince(limits, s, listed, now)
  {
  }

  /** The loop of refresh over the devices it knew. */
  method KeepMissing(limits: Limits, s: State, listed: map<string, Device>, now: int)
    returns (next: map<string, Device>, since: map<string, int>)
    ensures next == NextDevices(limits, s, listed, now) && since == NextSince(limits, s, listed, now)
  {
    next, since := listed, map id | id in s.offlineSince && id in s.devices :: s.offlineSince[id];
    var todo := s.devices.Keys;
    while todo != {}
      invariant todo <= s.devices.Keys && Keeping(limits, s, listed, now, todo, next, since)
      decreases todo
    {
      var id :| id in todo;
      next, since := KeepOne(limits, s, listed, now, todo, id, next, since);
      todo := todo - {id};
    }
    KeepingDone(limits, s, listed, now, next, since);
  }

  // ---------- what a scan lists ----------

  /** The k-th entry is the last one with that id, which is not blank. */
  predicate LastEntry(visible: seq<Device>, k: nat, id: string) {
    && k < |visible| && visible[k].id == id && Trim(id) != ""
    && forall i | k < i < |visible| :: visible[i].id != id
  }

  ghost predicate Names(visible: seq<Device>, id: string) {
    exists k: nat :: LastEntry(visible, k, id)
  }

  /** A scan lists the devices its entries name, each as its last entry says, but for the time. */
  lemma {:induction false} ListedIsLastEntry(visible: seq<Device>, now: int, id: string)
    ensures id in Listed(visible, now) <==> Names(visible, id)
    ensures forall k: nat | LastEntry(visible, k, id) :: Listed(visible, now)[id] == visible[k].(updatedAt := now)
    decreases |visible|
  {
    if |visible| > 0 {
      var n := |visible| - 1;
      var front := visible[..n];
      ListedIsLastEntry(front, now, id);
      if visible[n].id == id {
        if Trim(id) != "" { assert LastEntry(visible, n, id); }
      } else {
        if Names(front, id) {
          var k: nat :| LastEntry(front, k, id);
          assert LastEntry(visible, k, id);
        }
        forall k: nat | LastEntry(visible, k, id) ensures LastEntry(front, k, id) {}
      }
    }
  }

  // ---------- the history ----------

  datatype Scan = Scanned(at: int, visible: seq<Device>) | Failed(at: int)

  function Play(limits: Limits, history: seq<Scan>): State {
    if |history| == 0 then NEVER
    else
      var before := Play(limits, history[..|history| - 1]);
      match history[|history| - 1]
      case Scanned(now, visible) => Refreshed(limits, before, visible, now)
      case Failed(now) => Stale(limits, before, now)
  }

  /** Times do not go back. */
  predicate Ordered(history: seq<Scan>) {
    forall i, j | 0 <= i < j < |history| :: history[i].at <= history[j].at
  }

  /** What a scan says of one device. */
  datatype Mark = Seen(at: int) | Unseen(at: int) | NoScan(at: int)

  ghost function MarkOf(scan: Scan, id: string): Mark {
    match scan
    case Failed(at) => NoScan(at)
    case Scanned(at, visible) => if Names(visible, id) then Seen(at) else Unseen(at)
  }

  ghost function Marks(history: seq<Scan>, id: string): (marks: seq<Mark>)
    ensures |marks| == |history| && forall i | 0 <= i < |marks| :: marks[i] == MarkOf(history[i], id)
  {
    seq(|history|, i requires 0 <= i < |history| => MarkOf(history[i], id))
  }

  /** The last successful scan lists the device, at i. */
  predicate LastSeenAt(marks: seq<Mark>, i: nat) {
    i < |marks| && marks[i].Seen? && forall k | i < k < |marks| :: marks[k].NoScan?
  }

  /** It was last listed at i and first missed at j. */
  predicate MissedAt(marks: seq<Mark>, i: nat, j: nat) {
    && i < j < |marks| && marks[i].Seen? && marks[j].Unseen?
    && (forall k | i < k < j :: marks[k].NoScan?)
    && (forall k | i < k < |marks| :: !marks[k].Seen?)
  }

  ghost predicate Present(history: seq<Scan>, id: string) {
    exists i: nat :: LastSeenAt(Marks(history, id), i)
  }

  /** Missed from that time on. */
  ghost predicate MissedSince(history: seq<Scan>, id: string, since: int) {
    exists i: nat, j: nat :: MissedAt(Marks(history, id), i, j) && history[j].at == since
  }

  function LastSuccess(history: seq<Scan>): Option<int> {
    if |history| == 0 then None
    else if history[|history| - 1].Scanned? then Some(history[|history| - 1].at)
    else LastSuccess(history[..|history| - 1])
  }

  // ---------- the same, followed along ----------

  predicate Listing(marks: seq<Mark>) {
    |marks| > 0 &&
    if marks[|marks| - 1].NoScan? then Listing(marks[..|marks| - 1]) else marks[|marks| - 1].Seen?
  }

  function FirstMiss(marks: seq<Mark>): Option<int> {
    if |marks| == 0 then None
    else
      var front, last := marks[..|marks| - 1], marks[|marks| - 1];
      if last.NoScan? then FirstMiss(front)
      else if last.Seen? then None
      else if FirstMiss(front).Some? then FirstMiss(front)
      else if Listing(front) then Some(last.at)
      else None
  }

  lemma {:induction false} ListingIsLastSeen(marks: seq<Mark>)
    ensures Listing(marks) ==> exists i: nat :: LastSeenAt(marks, i)
    ensures forall i: nat | LastSeenAt(marks, i) :: Listing(marks) && FirstMiss(marks) == None
    decreases |marks|
  {
    if |marks| > 0 {
      var n := |marks| - 1;
      var front := marks[..n];
      ListingIsLastSeen(front);
      if Listing(marks) {
        if marks[n].NoScan? {
          var i: nat :| LastSeenAt(front, i);
          assert LastSeenAt(marks, i);
        } else {
          assert LastSeenAt(marks, n);
        }
      }
      forall i: nat | LastSeenAt(marks, i) ensures Listing(marks) && FirstMiss(marks) == None {
        if i < n { assert LastSeenAt(front, i); }
      }
    }
  }

  lemma {:induction false} FirstMissIsMissed(marks: seq<Mark>)
    ensures FirstMiss(marks).Some? ==>
      exists i: nat, j: nat :: MissedAt(marks, i, j) && marks[j].at == FirstMiss(marks).value
    ensures forall i: nat, j: nat | MissedAt(marks, i, j) :: FirstMiss(marks) == Some(marks[j].at)
    decreases |marks|
  {
    if |marks| > 0 {
      var n := |marks| - 1;
      var front := marks[..n];
      FirstMissIsMissed(front);
      ListingIsLastSeen(front);
      if FirstMiss(marks).Some? {
        if FirstMiss(front).Some? {
          var i: nat, j: nat :| MissedAt(front, i, j) && front[j].at == FirstMiss(front).value;
          assert MissedAt(marks, i, j);
        } else {
          var i: nat :| LastSeenAt(front, i);
          assert MissedAt(marks, i, n);
        }
      }
      forall i: nat, j: nat | MissedAt(marks, i, j) ensures FirstMiss(marks) == Some(marks[j].at) {
        if j < n { assert MissedAt(front, i, j); } else { assert LastSeenAt(front, i); }
      }
    }
  }

  // ---------- the snapshot follows the history ----------

  ghost predicate Retained(limits: Limits, history: seq<Scan>, id: string) {
    && FirstMiss(Marks(history, id)).Some? && LastSuccess(history).Some?
    && LastSuccess(history).value - FirstMiss(Marks(history, id)).value <= limits.retainOffline
  }

  /** Table and miss times, in terms of what is followed along. */
  ghost predicate Follows(limits: Limits, history: seq<Scan>, s: State, id: string) {
    && (id in s.devices <==> Listing(Marks(history, id)) || Retained(limits, history, id))
    && (id in s.offlineSince <==> Retained(limits, history, id))
    && (id in s.offlineSince ==> Some(s.offlineSince[id]) == FirstMiss(Marks(history, id)))
  }

  lemma MarksSnoc(history: seq<Scan>, id: string)
    requires |history| > 0
    ensures Marks(history, id)[..|history| - 1] == Marks(history[..|history| - 1], id)
    ensures Marks(history, id)[|history| - 1] == MarkOf(history[|history| - 1], id)
  {
  }

  lemma {:induction false} LastSuccessIsPast(history: seq<Scan>, next: Scan)
    requires Ordered(history + [next])
    ensures LastSuccess(history).Some? ==> LastSuccess(history).value <= next.at
    decreases |history|
  {
    if |history| > 0 {
      var n := |history| - 1;
      var all := history + [next];
      assert all[n] == history[n] && all[|history|] == next;
      forall i, j | 0 <= i < j < n + 1 ensures (history[..n] + [next])[i].at <= (history[..n] + [next])[j].at {
        assert all[i].at <= all[j].at && all[i].at <= all[|history|].at;
      }
      LastSuccessIsPast(history[..n], next);
    }
  }

  lemma ListedIsNotMissing(marks: seq<Mark>)
    ensures Listing(marks) ==> FirstMiss(marks) == None
  {
    ListingIsLastSeen(marks);
    if Listing(marks) {
      var i: nat :| LastSeenAt(marks, i);
    }
  }

  /** One more successful scan. */
  lemma RefreshFollows(limits: Limits, front: seq<Scan>, s: State, now: int, visible: seq<Device>, id: string)
    requires limits.retainOffline >= 0 && Follows(limits, front, s, id)
    requires LastSuccess(front).Some? ==> LastSuccess(front).value <= now
    requires FirstMiss(Marks(front, id)).Some? ==> LastSuccess(front).Some?
    ensures var history := front + [Scanned(now, visible)];
      Follows(limits, history, Refreshed(limits, s, visible, now), id) && LastSuccess(history) == Some(now)
  {
    var history := front + [Scanned(now, visible)];
    MarksSnoc(history, id);
    assert history[..|front|] == front;
    ListedIsLastEntry(visible, now, id);
    ListedIsNotMissing(Marks(front, id));
  }

  lemma StaleFollows(limits: Limits, front: seq<Scan>, s: State, now: int, id: string)
    requires Follows(limits, front, s, id)
    ensures Follows(limits, front + [Failed(now)], Stale(limits, s, now), id)
  {
    var history := front + [Failed(now)];
    MarksSnoc(history, id);
    assert history[..|front|] == front;
  }

  lemma {:induction false} PlayFollows(limits: Limits, history: seq<Scan>, id: string)
    requires Ordered(history) && limits.retainOffline >= 0
    ensures Follows(limits, history, Play(limits, history), id)
    ensures Play(limits, history).ready <==> LastSuccess(history).Some?
    ensures LastSuccess(history).Some? ==> Play(limits, history).lastSuccess == LastSuccess(history).value
    ensures FirstMiss(Marks(history, id)).Some? ==> LastSuccess(history).Some?
    decreases |history|
  {
    if |history| > 0 {
      var n := |history| - 1;
      var front := history[..n];
      assert history == front + [history[n]];
      MarksSnoc(history, id);
      PlayFollows(limits, front, id);
      LastSuccessIsPast(front, history[n]);
      match history[n]
      case Scanned(now, visible) => RefreshFollows(limits, front, Play(limits, front), now, visible, id);
      case Failed(now) => StaleFollows(limits, front, Play(limits, front), now, id);
    }
  }

  /** A device is in the table exactly when the last successful scan lists it, or it was once listed and
      has been missed, at that scan, for at most retainOffline since its first miss after it was last
      listed; offlineSince holds exactly those first misses.  Failed scans change neither. */
  lemma SnapshotIsHistory(limits: Limits, history: seq<Scan>, id: string)
    requires Ordered(history) && limits.retainOffline >= 0
    ensures var s := Play(limits, history);
      && (id in s.devices <==> Present(history, id) || id in s.offlineSince)
      && (forall since: int :: id in s.offlineSince && s.offlineSince[id] == since <==>
            MissedSince(history, id, since) && LastSuccess(history).Some?
            && LastSuccess(history).value - since <= limits.retainOffline)
  {
    PlayFollows(limits, history, id);
    ListingIsLastSeen(Marks(history, id));
    FirstMissIsMissed(Marks(history, id));
  }

  // ---------- statuses ----------

  /** Since the last successful scan, one failed that came too late for it to be trusted. */
  predicate Distrusted(limits: Limits, history: seq<Scan>) {
    |history| > 0 &&
    var n := |history| - 1;
    history[n].Failed? && (Distrusted(limits, history[..n])
      || (LastSuccess(history[..n]).Some? && history[n].at - LastSuccess(history[..n]).value >= limits.staleAfter))
  }

  /** The device as the last entry of the scan at i has it, taken over at that time. */
  ghost predicate ListedAs(history: seq<Scan>, i: nat, id: string, device: Device) {
    && i < |history| && history[i].Scanned?
    && exists k: nat :: LastEntry(history[i].visible, k, id) && device == history[i].visible[k].(updatedAt := history[i].at)
  }

  /** That is what the last successful scan lists. */
  ghost predicate LastListedAs(history: seq<Scan>, id: string, device: Device) {
    exists i: nat :: LastSeenAt(Marks(history, id), i) && ListedAs(history, i, id, device)
  }

  lemma StillListedAs(front: seq<Scan>, last: Scan, id: string, device: Device)
    requires LastListedAs(front, id, device) && last.Failed?
    ensures LastListedAs(front + [last], id, device)
  {
    var history := front + [last];
    var i: nat :| LastSeenAt(Marks(front, id), i) && ListedAs(front, i, id, device);
    MarksSnoc(history, id);
    assert history[..|front|] == front;
    assert LastSeenAt(Marks(history, id), i) && ListedAs(history, i, id, device);
  }

  lemma NowListedAs(front: seq<Scan>, now: int, visible: seq<Device>, id: string)
    requires id in Listed(visible, now)
    ensures LastListedAs(front + [Scanned(now, visible)], id, Listed(visible, now)[id])
  {
    var history := front + [Scanned(now, visible)];
    MarksSnoc(history, id);
    ListedIsLastEntry(visible, now, id);
    var k: nat :| LastEntry(visible, k, id);
    assert LastSeenAt(Marks(history, id), |front|) && ListedAs(history, |front|, id, Listed(visible, now)[id]);
  }

  /** A device in the table is UNKNOWN after too long without a successful scan; otherwise it is OFFLINE
      when the last one missed it, and exactly as listed when the last one lists it. */
  lemma {:induction false} StatusIsHistory(limits: Limits, history: seq<Scan>, id: string)
    requires Ordered(history) && limits.retainOffline >= 0 && id in Play(limits, history).devices
    ensures var device := Play(limits, history).devices[id];
      && (Distrusted(limits, history) ==> device.status.Unknown?)
      && (!Distrusted(limits, history) && FirstMiss(Marks(history, id)).Some? ==> device.status.Offline?)
      && (!Distrusted(limits, history) && Listing(Marks(history, id)) ==> LastListedAs(history, id, device))
    decreases |history|
  {
    var n := |history| - 1;
    var front := history[..n];
    assert history == front + [history[n]];
    PlayFollows(limits, history, id);
    PlayFollows(limits, front, id);
    MarksSnoc(history, id);
    match history[n]
    case Failed(_) =>
      StatusIsHistory(limits, front, id);
      var device := Play(limits, front).devices[id];
      if !Distrusted(limits, history) && Listing(Marks(history, id)) { StillListedAs(front, history[n], id, device); }
    case Scanned(now, visible) =>
      ListedIsLastEntry(visible, now, id);
      if Listing(Marks(history, id)) { NowListedAs(front, now, visible, id); }
  }

  /** The same in terms of the scans: a device is listed or missed. */
  lemma StatusIsWhatWasListed(limits: Limits, history: seq<Scan>, id: string)
    requires Ordered(history) && limits.retainOffline >= 0 && id in Play(limits, history).devices
    ensures var device := Play(limits, history).devices[id];
      if Distrusted(limits, history) then device.status.Unknown?
      else if Present(history, id) then LastListedAs(history, id, device)
      else device.status.Offline?
  {
    StatusIsHistory(limits, history, id);
    PlayFollows(limits, history, id);
    ListingIsLastSeen(Marks(history, id));
  }

  /** The scan at i was the last one to list the device, and apart from status and time this is what it said. */
  ghost predicate StillIs(history: seq<Scan>, i: nat, id: string, device: Device) {
    && i < |history| && history[i].Scanned?
    && (forall k | i < k < |history| && history[k].Scanned? :: !Names(history[k].visible, id))
    && exists k: nat :: LastEntry(history[i].visible, k, id)
         && device == history[i].visible[k].(status := device.status, updatedAt := device.updatedAt)
  }

  /** A device in the table, missed or not, is the one that was last listed under that id. */
  lemma {:induction false} DeviceStaysItself(limits: Limits, history: seq<Scan>, id: string)
    requires id in Play(limits, history).devices
    ensures exists i: nat :: StillIs(history, i, id, Play(limits, history).devices[id])
    decreases |history|
  {
    var n := |history| - 1;
    var front, device := history[..n], Play(limits, history).devices[id];
    if history[n].Scanned? && Names(history[n].visible, id) {
      ListedIsLastEntry(history[n].visible, history[n].at, id);
      assert StillIs(history, n, id, device);
    } else {
      if history[n].Scanned? { ListedIsLastEntry(history[n].visible, history[n].at, id); }
      DeviceStaysItself(limits, front, id);
      var i: nat :| StillIs(front, i, id, Play(limits, front).devices[id]);
      assert StillIs(history, i, id, device);
    }
  }
}
