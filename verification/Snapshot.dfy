/** The crash-safe binding snapshot of internal/store/bindings.go. */
module Snapshot {
  import opened Text

  datatype BindingStatus = Reserved | Listening | Frozen | Released | FailedStatus

  datatype Binding = Binding(
    id: string, deviceId: string, publicHost: string, port: int, status: BindingStatus, createdAt: int, updatedAt: int)

  datatype Range = Range(minPort: int, maxPort: int)

  // ---------- validate ----------

  predicate Complete(range: Range, b: Binding) {
    && Trim(b.id) != "" && Trim(b.deviceId) != "" && Trim(b.publicHost) != ""
    && range.minPort <= b.port <= range.maxPort
  }

  predicate NoDuplicates(bindings: seq<Binding>) {
    forall i, j | 0 <= i < j < |bindings| ::
      bindings[i].deviceId != bindings[j].deviceId && bindings[i].port != bindings[j].port
  }

  predicate Acceptable(range: Range, bindings: seq<Binding>) {
    (forall b <- bindings :: Complete(range, b)) && NoDuplicates(bindings)
  }

  /** Byte-wise order of device ids. */
  predicate Less(a: string, b: string) {
    if |a| == 0 || |b| == 0 then |a| < |b|
    else a[0] < b[0] || (a[0] == b[0] && Less(a[1..], b[1..]))
  }

  predicate Sorted(bindings: seq<Binding>) {
    forall i, j | 0 <= i < j < |bindings| :: Less(bindings[i].deviceId, bindings[j].deviceId)
  }

  function Insert(b: Binding, sorted: seq<Binding>): seq<Binding> {
    if |sorted| == 0 then [b]
    else if Less(sorted[0].deviceId, b.deviceId) then [sorted[0]] + Insert(b, sorted[1..])
    else [b] + sorted
  }

  function Sort(bindings: seq<Binding>): seq<Binding> {
    if |bindings| == 0 then [] else Insert(bindings[0], Sort(bindings[1..]))
  }

  function AllReserved(bindings: seq<Binding>): (r: seq<Binding>)
    ensures |r| == |bindings| && forall i | 0 <= i < |r| :: r[i] == bindings[i].(status := Reserved)
  {
    seq(|bindings|, i requires 0 <= i < |bindings| => bindings[i].(status := Reserved))
  }

  /** validate: the bindings by device, all RESERVED, or nothing when any of them is unacceptable. */
  function Validate(range: Range, bindings: seq<Binding>): Option<seq<Binding>> {
    if Acceptable(range, bindings) then Some(Sort(AllReserved(bindings))) else None
  }

  /** In plain terms: every binding has an id, a device, a host and a port of the range, and no two have a device
      or a port in common. */
  lemma AcceptsExactly(range: Range, bindings: seq<Binding>)
    ensures Validate(range, bindings).Some? <==>
      && (forall i | 0 <= i < |bindings| ::
            && Trim(bindings[i].id) != "" && Trim(bindings[i].deviceId) != "" && Trim(bindings[i].publicHost) != ""
            && range.minPort <= bindings[i].port <= range.maxPort)
      && (forall i, j | 0 <= i < j < |bindings| ::
            bindings[i].deviceId != bindings[j].deviceId && bindings[i].port != bindings[j].port)
  {
    forall i | 0 <= i < |bindings| ensures bindings[i] in bindings {}
  }

  predicate FirstDifference(a: string, b: string, i: nat) {
    i <= |a| && i < |b| && a[..i] == b[..i] && (i == |a| || a[i] < b[i])
  }

  /** The order is that of the first byte that differs, a beginning coming first. */
  lemma {:induction false} LessIsFirstDifference(a: string, b: string)
    ensures Less(a, b) <==> exists i: nat :: FirstDifference(a, b, i)
    decreases |a|
  {
    if |a| == 0 {
      assert |b| > 0 ==> FirstDifference(a, b, 0);
    } else if |b| > 0 && a[0] == b[0] {
      LessIsFirstDifference(a[1..], b[1..]);
      if i: nat :| FirstDifference(a[1..], b[1..], i) {
        assert a[..i + 1] == [a[0]] + a[1..][..i] && b[..i + 1] == [b[0]] + b[1..][..i];
        assert FirstDifference(a, b, i + 1);
      }
      if i: nat :| FirstDifference(a, b, i) {
        assert i > 0;
        assert a[1..][..i - 1] == a[..i][1..] && b[1..][..i - 1] == b[..i][1..];
        assert FirstDifference(a[1..], b[1..], i - 1);
      }
    } else if |b| > 0 && a[0] < b[0] {
      assert FirstDifference(a, b, 0);
    } else if |b| > 0 {
      forall i: nat | i > 0 && i <= |a| && i <= |b| ensures a[..i] != b[..i] { assert a[..i][0] == a[0] && b[..i][0] == b[0]; }
    }
  }

  lemma {:induction false} LessIsTotal(a: string, b: string)
    ensures a == b || Less(a, b) || Less(b, a)
    ensures !(Less(a, b) && Less(b, a)) && !Less(a, a)
    decreases |a|
  {
    if |a| > 0 && |b| > 0 {
      LessIsTotal(a[1..], b[1..]);
      assert a == [a[0]] + a[1..] && b == [b[0]] + b[1..];
    }
    if |a| > 0 { LessIsTotal(a[1..], a[1..]); }
  }

  lemma {:induction false} LessIsTransitive(a: string, b: string, c: string)
    requires Less(a, b) && Less(b, c)
    ensures Less(a, c)
    decreases |a|
  {
    if |a| > 0 && |b| > 0 && |c| > 0 && a[0] == b[0] == c[0] { LessIsTransitive(a[1..], b[1..], c[1..]); }
  }

  lemma {:induction false} InsertAdds(b: Binding, sorted: seq<Binding>)
    ensures |Insert(b, sorted)| == |sorted| + 1
    ensures forall other :: other in Insert(b, sorted) <==> other in sorted || other == b
    decreases |sorted|
  {
    if |sorted| > 0 {
      assert sorted == [sorted[0]] + sorted[1..];
      InsertAdds(b, sorted[1..]);
    }
  }

  lemma BelowHeadIsBelowAll(b: Binding, sorted: seq<Binding>)
    requires Sorted(sorted) && |sorted| > 0 && Less(b.deviceId, sorted[0].deviceId)
    ensures forall other <- sorted :: Less(b.deviceId, other.deviceId)
  {
    forall other | other in sorted ensures Less(b.deviceId, other.deviceId) {
      var i :| 0 <= i < |sorted| && sorted[i] == other;
      if i > 0 { LessIsTransitive(b.deviceId, sorted[0].deviceId, other.deviceId); }
    }
  }

  lemma {:induction false} InsertSorts(b: Binding, sorted: seq<Binding>)
    requires Sorted(sorted) && forall other <- sorted :: other.deviceId != b.deviceId
    ensures Sorted(Insert(b, sorted))
    decreases |sorted|
  {
    if |sorted| > 0 {
      var rest := sorted[1..];
      assert sorted == [sorted[0]] + rest && sorted[0] in sorted;
      if Less(sorted[0].deviceId, b.deviceId) {
        InsertSorts(b, rest);
        InsertAdds(b, rest);
        PrependSorted(sorted[0], Insert(b, rest));
      } else {
        LessIsTotal(b.deviceId, sorted[0].deviceId);
        BelowHeadIsBelowAll(b, sorted);
        PrependSorted(b, sorted);
      }
    }
  }

  lemma PrependSorted(b: Binding, sorted: seq<Binding>)
    requires Sorted(sorted) && forall other <- sorted :: Less(b.deviceId, other.deviceId)
    ensures Sorted([b] + sorted)
  {
    var all := [b] + sorted;
    forall i, j | 0 <= i < j < |all| ensures Less(all[i].deviceId, all[j].deviceId) {
      assert all[j] == sorted[j - 1] && sorted[j - 1] in sorted;
    }
  }

  lemma {:induction false} SortSorts(bindings: seq<Binding>)
    requires forall i, j | 0 <= i < j < |bindings| :: bindings[i].deviceId != bindings[j].deviceId
    ensures Sorted(Sort(bindings)) && |Sort(bindings)| == |bindings|
    ensures forall b :: b in Sort(bindings) <==> b in bindings
    decreases |bindings|
  {
    if |bindings| > 0 {
      var rest := bindings[1..];
      SortSorts(rest);
      assert bindings == [bindings[0]] + rest;
      forall other | other in Sort(rest) ensures other.deviceId != bindings[0].deviceId {
        var i :| 0 <= i < |rest| && rest[i] == other;
        assert bindings[i + 1] == other;
      }
      InsertAdds(bindings[0], Sort(rest));
      InsertSorts(bindings[0], Sort(rest));
    }
  }

  lemma {:induction false} SortedStays(bindings: seq<Binding>)
    requires Sorted(bindings)
    ensures Sort(bindings) == bindings
    decreases |bindings|
  {
    if |bindings| > 0 {
      SortedStays(bindings[1..]);
      if |bindings| > 1 { LessIsTotal(bindings[0].deviceId, bindings[1].deviceId); }
      assert bindings == [bindings[0]] + bindings[1..];
    }
  }

  /** A list without duplicates keeps none when it is sorted. */
  lemma SortedHasNoDuplicates(bindings: seq<Binding>)
    requires NoDuplicates(bindings)
    ensures NoDuplicates(Sort(bindings))
  {
    SortSorts(bindings);
    var sorted := Sort(bindings);
    forall i, j | 0 <= i < j < |sorted|
      ensures sorted[i].deviceId != sorted[j].deviceId && sorted[i].port != sorted[j].port
    {
      LessIsTotal(sorted[i].deviceId, sorted[j].deviceId);
      assert sorted[i] in bindings && sorted[j] in bindings;
    }
  }

  /** What validate returns is acceptable, sorted by device and all RESERVED, and it is the same
      bindings otherwise; validating it again changes nothing. */
  lemma ValidateIsIdempotent(range: Range, bindings: seq<Binding>)
    requires Validate(range, bindings).Some?
    ensures var valid := Validate(range, bindings).value;
      && Acceptable(range, valid) && Sorted(valid) && |valid| == |bindings|
      && (forall b <- valid :: b.status == Reserved)
      && (forall b <- bindings :: b.(status := Reserved) in valid)
      && Validate(range, valid) == Some(valid)
  {
    var reserved := AllReserved(bindings);
    SortSorts(reserved);
    SortedHasNoDuplicates(reserved);
    var valid := Sort(reserved);
    forall b | b in bindings ensures b.(status := Reserved) in valid {
      var i :| 0 <= i < |bindings| && bindings[i] == b;
      assert reserved[i] in reserved;
    }
    forall b | b in valid ensures Complete(range, b) && b.status == Reserved {
      var i :| 0 <= i < |reserved| && reserved[i] == b;
      assert bindings[i] in bindings;
    }
    assert AllReserved(valid) == valid;
    SortedStays(valid);
  }

  function DeviceIds(bindings: seq<Binding>): set<string> {
    set b | b in bindings :: b.deviceId
  }

  function PortsOf(bindings: seq<Binding>): set<int> {
    set b | b in bindings :: b.port
  }

  lemma AcceptableSnoc(range: Range, front: seq<Binding>, b: Binding)
    ensures Acceptable(range, front + [b]) <==>
      Acceptable(range, front) && Complete(range, b) && b.deviceId !in DeviceIds(front) && b.port !in PortsOf(front)
    ensures DeviceIds(front + [b]) == DeviceIds(front) + {b.deviceId}
    ensures PortsOf(front + [b]) == PortsOf(front) + {b.port}
  {
    var all := front + [b];
    assert forall other :: other in all <==> other in front || other == b;
    assert all[|front|] == b && forall i | 0 <= i < |front| :: all[i] == front[i];
  }

  lemma AcceptablePrefix(range: Range, bindings: seq<Binding>, n: nat)
    requires n <= |bindings| && Acceptable(range, bindings)
    ensures Acceptable(range, bindings[..n])
  {
  }

  /** The loop of validate: the devices and ports seen so far, and statuses written in place. */
  method ValidateLoop(range: Range, bindings: seq<Binding>) returns (result: Option<seq<Binding>>)
    ensures result == Validate(range, bindings)
  {
    var copy := bindings;
    var deviceIds: set<string>, ports: set<int> := {}, {};
    for i := 0 to |copy|
      invariant |copy| == |bindings| && copy[..i] == AllReserved(bindings[..i]) && copy[i..] == bindings[i..]
      invariant Acceptable(range, bindings[..i])
      invariant deviceIds == DeviceIds(bindings[..i]) && ports == PortsOf(bindings[..i])
    {
      var b := copy[i];
      assert b == copy[i..][0] == bindings[i];
      assert bindings[..i + 1] == bindings[..i] + [b];
      AcceptableSnoc(range, bindings[..i], b);
      if !Complete(range, b) || b.deviceId in deviceIds || b.port in ports {
        if Acceptable(range, bindings) { AcceptablePrefix(range, bindings, i + 1); }
        return None;
      }
      deviceIds, ports := deviceIds + {b.deviceId}, ports + {b.port};
      ReserveNext(bindings, copy, i);
      copy := copy[i := b.(status := Reserved)];
    }
    assert bindings[..|bindings|] == bindings && copy[..|copy|] == copy;
    result := Some(Sort(copy));
  }

  lemma ReserveNext(bindings: seq<Binding>, copy: seq<Binding>, i: nat)
    requires i < |copy| == |bindings| && copy[..i] == AllReserved(bindings[..i]) && copy[i..] == bindings[i..]
    ensures var next := copy[i := bindings[i].(status := Reserved)];
      next[..i + 1] == AllReserved(bindings[..i + 1]) && next[i + 1..] == bindings[i + 1..]
  {
    var next := copy[i := bindings[i].(status := Reserved)];
    assert next[i + 1..] == copy[i..][1..] && bindings[i + 1..] == bindings[i..][1..];
    assert forall k | 0 <= k < i :: next[k] == copy[..i][k];
  }

  // ---------- files ----------

  datatype Path = Primary | Backup | Temporary

  /** A file that holds a snapshot of this schema version, or anything else. */
  datatype Content = Saved(bindings: seq<Binding>) | Garbage

  type Files = map<Path, Content>

  datatype FileLoad = Missing | Unreadable | Readable(bindings: seq<Binding>)

  function LoadFile(range: Range, files: Files, path: Path): FileLoad {
    if path !in files then Missing
    else if files[path].Garbage? then Unreadable
    else
      match Validate(range, files[path].bindings)
      case Some(bindings) => Readable(bindings)
      case None => Unreadable
  }

  /** Load: the primary, else the backup, else nothing when there are none, else an error. */
  function Load(range: Range, files: Files): Option<seq<Binding>> {
    match LoadFile(range, files, Primary)
    case Readable(bindings) => Some(bindings)
    case primary =>
      match LoadFile(range, files, Backup)
      case Readable(bindings) => Some(bindings)
      case backup => if primary.Missing? && backup.Missing? then Some([]) else None
  }

  /** Which of Save's file-system calls fail. */
  datatype Faults = Faults(
    mkdir: bool, open: bool, write: bool, removeTemporary: bool, removeBackup: bool,
    toBackup: bool, toPrimary: bool, back: bool)

  /** os.Rename, which leaves everything as it was when it fails. */
  function Rename(files: Files, from: Path, to: Path, fails: bool): Files {
    if fails || from !in files then files else (files - {from})[to := files[from]]
  }

  function Remove(files: Files, path: Path, fails: bool): Files {
    if fails then files else files - {path}
  }

  /** The states Save leaves on disk after each of its calls, in order, and whether it succeeds.  A
      crash leaves one of them, or the state before. */
  function SaveRun(files: Files, snapshot: seq<Binding>, faults: Faults): (seq<Files>, bool) {
    if faults.mkdir || faults.open then ([], false)
    else
      var truncated := files[Temporary := Garbage];
      if faults.write then ([truncated, Remove(truncated, Temporary, faults.removeTemporary)], false)
      else
        var written := truncated[Temporary := Saved(snapshot)];
        var cleared := Remove(written, Backup, faults.removeBackup);
        if faults.toBackup then
          ([truncated, written, cleared, Remove(cleared, Temporary, faults.removeTemporary)], false)
        else
          var moved := Rename(cleared, Primary, Backup, false);
          if faults.toPrimary then
            var restored := Rename(moved, Backup, Primary, faults.back);
            ([truncated, written, cleared, moved, restored, Remove(restored, Temporary, faults.removeTemporary)], false)
          else ([truncated, written, cleared, moved, Rename(moved, Temporary, Primary, false)], true)
  }

  /** The disk as Save changes it; the ghost trace collects what a crash could leave. */
  class Disk {
    var files: Files
    ghost var trace: seq<Files>

    constructor (files: Files)
      ensures this.files == files && trace == [files]
    {
      this.files, trace := files, [files];
    }

    method Become(files: Files)
      modifies this
      ensures this.files == files && trace == old(trace) + [files]
    {
      this.files, trace := files, trace + [files];
    }

    /** Save, after its arguments have been validated. */
    method Write(snapshot: seq<Binding>, faults: Faults) returns (ok: bool)
      requires |trace| > 0 && trace[|trace| - 1] == files
      modifies this
      ensures trace == old(trace) + SaveRun(old(files), snapshot, faults).0
      ensures ok == SaveRun(old(files), snapshot, faults).1
      ensures |trace| > 0 && trace[|trace| - 1] == files
    {
      if faults.mkdir { return false; }
      if faults.open { return false; }
      Become(files[Temporary := Garbage]);
      if faults.write {
        Become(Remove(files, Temporary, faults.removeTemporary));
        return false;
      }
      Become(files[Temporary := Saved(snapshot)]);
      Become(Remove(files, Backup, faults.removeBackup));
      if faults.toBackup {
        Become(Remove(files, Temporary, faults.removeTemporary));
        return false;
      }
      Become(Rename(files, Primary, Backup, false));
      if faults.toPrimary {
        Become(Rename(files, Backup, Primary, faults.back));
        Become(Remove(files, Temporary, faults.removeTemporary));
        return false;
      }
      Become(Rename(files, Temporary, Primary, false));
      ok := true;
    }

    method Save(range: Range, bindings: seq<Binding>, faults: Faults) returns (ok: bool)
      requires |trace| > 0 && trace[|trace| - 1] == files
      modifies this
      ensures |trace| > 0 && trace[|trace| - 1] == files
      ensures match Validate(range, bindings)
        case Some(snapshot) =>
          && trace == old(trace) + SaveRun(old(files), snapshot, faults).0
          && ok == SaveRun(old(files), snapshot, faults).1
        case None => trace == old(trace) && !ok
    {
      var normalized := ValidateLoop(range, bindings);
      if normalized.None? { return false; }
      ok := Write(normalized.value, faults);
    }
  }

  // ---------- crash atomicity ----------

  /** The primary can be loaded, or the backup is not what Load would fall back to. */
  predicate Safe(range: Range, files: Files) {
    match LoadFile(range, files, Primary)
    case Readable(_) => true
    case Missing => LoadFile(range, files, Backup) in {Missing, Readable([])}
    case Unreadable => !LoadFile(range, files, Backup).Readable?
  }

  function Lookup(files: Files, path: Path): Option<Content> {
    if path in files then Some(files[path]) else None
  }

  lemma LoadReadsTwoFiles(range: Range, a: Files, b: Files)
    requires Lookup(a, Primary) == Lookup(b, Primary) && Lookup(a, Backup) == Lookup(b, Backup)
    ensures Load(range, a) == Load(range, b)
  {
  }

  lemma WithoutBackup(range: Range, files: Files, cleared: Files)
    requires Safe(range, files) && Lookup(cleared, Primary) == Lookup(files, Primary)
    requires Lookup(cleared, Backup) == Lookup(files, Backup) || Backup !in cleared
    ensures Load(range, cleared) == Load(range, files) && Safe(range, cleared)
  {
  }

  lemma PrimaryAsBackup(range: Range, files: Files, moved: Files)
    requires Safe(range, files) && Primary !in moved
    requires Lookup(moved, Backup) == if Primary in files then Lookup(files, Primary) else Lookup(files, Backup)
    ensures Load(range, moved) == Load(range, files)
  {
  }

  lemma BackupAsPrimary(range: Range, moved: Files, restored: Files)
    requires Primary !in moved && Backup !in restored
    requires Lookup(restored, Primary) == Lookup(moved, Backup)
    ensures Load(range, restored) == Load(range, moved)
  {
  }

  lemma SavedPrimaryLoads(range: Range, snapshot: seq<Binding>, files: Files)
    requires Lookup(files, Primary) == Some(Saved(snapshot)) && Validate(range, snapshot) == Some(snapshot)
    ensures Load(range, files) == Some(snapshot)
  {
  }

  /** Up to the first rename the old snapshot is still there. */
  lemma WrittenAndCleared(range: Range, files: Files, snapshot: seq<Binding>, faults: Faults)
    requires Safe(range, files)
    ensures var truncated := files[Temporary := Garbage];
      var written := truncated[Temporary := Saved(snapshot)];
      var cleared := Remove(written, Backup, faults.removeBackup);
      && Load(range, truncated) == Load(range, files)
      && Load(range, Remove(truncated, Temporary, faults.removeTemporary)) == Load(range, files)
      && Load(range, written) == Load(range, files)
      && Load(range, cleared) == Load(range, files) && Safe(range, cleared)
      && Load(range, Remove(cleared, Temporary, faults.removeTemporary)) == Load(range, files)
  {
    var truncated := files[Temporary := Garbage];
    var written := truncated[Temporary := Saved(snapshot)];
    var cleared := Remove(written, Backup, faults.removeBackup);
    LoadReadsTwoFiles(range, truncated, files);
    LoadReadsTwoFiles(range, Remove(truncated, Temporary, faults.removeTemporary), files);
    LoadReadsTwoFiles(range, written, files);
    WithoutBackup(range, files, cleared);
    LoadReadsTwoFiles(range, Remove(cleared, Temporary, faults.removeTemporary), cleared);
  }

  /** After it, as the backup, until the new one replaces it or it is put back. */
  lemma MovedAndReplaced(range: Range, cleared: Files, snapshot: seq<Binding>, faults: Faults)
    requires Safe(range, cleared) && Lookup(cleared, Temporary) == Some(Saved(snapshot))
    requires Validate(range, snapshot) == Some(snapshot)
    ensures var moved := Rename(cleared, Primary, Backup, false);
      var restored := Rename(moved, Backup, Primary, faults.back);
      && Load(range, moved) == Load(range, cleared)
      && Load(range, restored) == Load(range, cleared)
      && Load(range, Remove(restored, Temporary, faults.removeTemporary)) == Load(range, cleared)
      && Load(range, Rename(moved, Temporary, Primary, false)) == Some(snapshot)
  {
    var moved := Rename(cleared, Primary, Backup, false);
    var restored := Rename(moved, Backup, Primary, faults.back);
    PrimaryAsBackup(range, cleared, moved);
    if restored != moved { BackupAsPrimary(range, moved, restored); }
    LoadReadsTwoFiles(range, Remove(restored, Temporary, faults.removeTemporary), restored);
    assert Lookup(moved, Temporary) == Some(Saved(snapshot));
    SavedPrimaryLoads(range, snapshot, Rename(moved, Temporary, Primary, false));
  }

  ghost predicate OldOrNew(range: Range, files: Files, snapshot: seq<Binding>, states: seq<Files>) {
    forall state <- states :: Load(range, state) == Load(range, files) || Load(range, state) == Some(snapshot)
  }

  /** The run ended well with the new snapshot, or badly with the old one. */
  ghost predicate EndsRight(range: Range, files: Files, snapshot: seq<Binding>, states: seq<Files>, ok: bool) {
    && (ok ==> |states| > 0 && Load(range, states[|states| - 1]) == Some(snapshot))
    && (!ok && |states| > 0 ==> Load(range, states[|states| - 1]) == Load(range, files))
  }

  lemma FailingEarlyIsAtomic(range: Range, files: Files, snapshot: seq<Binding>, faults: Faults)
    requires Safe(range, files) && (faults.mkdir || faults.open || faults.write || faults.toBackup)
    ensures var (states, ok) := SaveRun(files, snapshot, faults);
      !ok && OldOrNew(range, files, snapshot, states) && EndsRight(range, files, snapshot, states, ok)
  {
    WrittenAndCleared(range, files, snapshot, faults);
  }

  lemma FailingLateIsAtomic(range: Range, files: Files, snapshot: seq<Binding>, faults: Faults)
    requires Safe(range, files) && Validate(range, snapshot) == Some(snapshot)
    requires !faults.mkdir && !faults.open && !faults.write && !faults.toBackup && faults.toPrimary
    ensures var (states, ok) := SaveRun(files, snapshot, faults);
      !ok && OldOrNew(range, files, snapshot, states) && EndsRight(range, files, snapshot, states, ok)
  {
    var written := files[Temporary := Garbage][Temporary := Saved(snapshot)];
    WrittenAndCleared(range, files, snapshot, faults);
    MovedAndReplaced(range, Remove(written, Backup, faults.removeBackup), snapshot, faults);
  }

  lemma SucceedingIsAtomic(range: Range, files: Files, snapshot: seq<Binding>, faults: Faults)
    requires Safe(range, files) && Validate(range, snapshot) == Some(snapshot)
    requires !faults.mkdir && !faults.open && !faults.write && !faults.toBackup && !faults.toPrimary
    ensures var (states, ok) := SaveRun(files, snapshot, faults);
      ok && OldOrNew(range, files, snapshot, states) && EndsRight(range, files, snapshot, states, ok)
  {
    var written := files[Temporary := Garbage][Temporary := Saved(snapshot)];
    WrittenAndCleared(range, files, snapshot, faults);
    MovedAndReplaced(range, Remove(written, Backup, faults.removeBackup), snapshot, faults);
  }

  /** Whatever fails and wherever it crashes, Load gives the old snapshot or the new one; in the end it
      gives the new one exactly when Save says so. */
  lemma SaveIsAtomic(range: Range, files: Files, bindings: seq<Binding>, faults: Faults)
    requires Validate(range, bindings).Some? && Safe(range, files)
    ensures var snapshot := Validate(range, bindings).value;
      var (states, ok) := SaveRun(files, snapshot, faults);
      OldOrNew(range, files, snapshot, states) && EndsRight(range, files, snapshot, states, ok)
  {
    var snapshot := Validate(range, bindings).value;
    ValidateIsIdempotent(range, bindings);
    if faults.mkdir || faults.open || faults.write || faults.toBackup {
      FailingEarlyIsAtomic(range, files, snapshot, faults);
    } else if faults.toPrimary {
      FailingLateIsAtomic(range, files, snapshot, faults);
    } else {
      SucceedingIsAtomic(range, files, snapshot, faults);
    }
  }

  // ---------- exactly when ----------

  /** Wherever it crashes the old snapshot or the new one is loaded, and in the end the right one. */
  ghost predicate Atomic(range: Range, files: Files, snapshot: seq<Binding>, faults: Faults) {
    var (states, ok) := SaveRun(files, snapshot, faults);
    OldOrNew(range, files, snapshot, states) && EndsRight(range, files, snapshot, states, ok)
  }

  const NOTHING_FAILS := Faults(false, false, false, false, false, false, false, false)

  const LAST_RENAME_FAILS := NOTHING_FAILS.(toPrimary := true)

  /** In a state that is not safe, a crash right after the backup has been removed loses the old snapshot
      before the new one is in place -- unless what is loaded then, when there is no primary file either,
      is the empty snapshot that is being saved. */
  lemma CrashLosesOld(range: Range, files: Files, bindings: seq<Binding>)
    requires Validate(range, bindings).Some? && !Safe(range, files)
    requires bindings != [] || Primary in files
    ensures var snapshot := Validate(range, bindings).value;
      !OldOrNew(range, files, snapshot, SaveRun(files, snapshot, NOTHING_FAILS).0)
  {
    ValidateIsIdempotent(range, bindings);
    var snapshot := Validate(range, bindings).value;
    var states := SaveRun(files, snapshot, NOTHING_FAILS).0;
    var cleared := files[Temporary := Garbage][Temporary := Saved(snapshot)] - {Backup};
    assert states[2] == cleared && cleared in states;
  }

  /** Then a failure of the last rename loses it for good. */
  lemma FailureLosesOld(range: Range, files: Files)
    requires !Safe(range, files) && Primary !in files
    ensures var (states, ok) := SaveRun(files, [], LAST_RENAME_FAILS); !EndsRight(range, files, [], states, ok)
  {
    var cleared := files[Temporary := Garbage][Temporary := Saved([])] - {Backup};
    var (states, ok) := SaveRun(files, [], LAST_RENAME_FAILS);
    assert states[5] == cleared - {Temporary};
  }

  /** Saving is atomic, whatever fails, exactly in the safe states. */
  lemma SaveIsAtomicIffSafe(range: Range, files: Files, bindings: seq<Binding>)
    requires Validate(range, bindings).Some?
    ensures Safe(range, files) <==> forall faults :: Atomic(range, files, Validate(range, bindings).value, faults)
  {
    var snapshot := Validate(range, bindings).value;
    ValidateIsIdempotent(range, bindings);
    if Safe(range, files) {
      forall faults ensures Atomic(range, files, snapshot, faults) { SaveIsAtomic(range, files, bindings, faults); }
    } else if bindings != [] || Primary in files {
      CrashLosesOld(range, files, bindings);
      assert !Atomic(range, files, snapshot, NOTHING_FAILS);
    } else {
      FailureLosesOld(range, files);
      assert !Atomic(range, files, snapshot, LAST_RENAME_FAILS);
    }
  }

  /** A crash alone, without a failure, can also do no harm where the empty snapshot replaces one of which
      there is only the backup. */
  lemma CrashesAreHarmlessIff(range: Range, files: Files, bindings: seq<Binding>)
    requires Validate(range, bindings).Some?
    ensures var snapshot := Validate(range, bindings).value;
      OldOrNew(range, files, snapshot, SaveRun(files, snapshot, NOTHING_FAILS).0)
      <==> Safe(range, files) || (bindings == [] && Primary !in files)
  {
    var snapshot := Validate(range, bindings).value;
    ValidateIsIdempotent(range, bindings);
    if Safe(range, files) {
      SaveIsAtomic(range, files, bindings, NOTHING_FAILS);
    } else if bindings != [] || Primary in files {
      CrashLosesOld(range, files, bindings);
    } else {
      assert snapshot == [];
      var truncated := files[Temporary := Garbage];
      LoadReadsTwoFiles(range, truncated, files);
      LoadReadsTwoFiles(range, truncated[Temporary := Saved([])], files);
    }
  }

  // ---------- how a save leaves an unsafe state ----------

  /** The old snapshot or the new one is the primary, or there is none and the old one is the backup. */
  predicate Kept(files: Files, snapshot: seq<Binding>, state: Files) {
    || Lookup(state, Primary) in {Lookup(files, Primary), Some(Saved(snapshot))}
    || (Primary !in state && Lookup(state, Backup) == Lookup(files, Primary))
  }

  lemma KeptIsSafe(range: Range, files: Files, snapshot: seq<Binding>, state: Files)
    requires LoadFile(range, files, Primary).Readable? && LoadFile(range, files, Primary).bindings != []
    requires Validate(range, snapshot) == Some(snapshot) && Kept(files, snapshot, state)
    ensures Safe(range, state) <==> Primary in state
  {
  }

  lemma SaveKeeps(files: Files, snapshot: seq<Binding>, faults: Faults)
    requires Primary in files
    ensures forall state <- SaveRun(files, snapshot, faults).0 :: Kept(files, snapshot, state)
  {
  }

  /** From a snapshot that can be loaded a save only goes through states in which the primary, where it
      exists, can be loaded: they are safe exactly when it exists. */
  lemma SafeWhilePrimaryExists(range: Range, files: Files, bindings: seq<Binding>, faults: Faults)
    requires LoadFile(range, files, Primary).Readable? && LoadFile(range, files, Primary).bindings != []
    requires Validate(range, bindings).Some?
    ensures forall state <- SaveRun(files, Validate(range, bindings).value, faults).0 ::
      Safe(range, state) <==> Primary in state
  {
    var snapshot := Validate(range, bindings).value;
    ValidateIsIdempotent(range, bindings);
    SaveKeeps(files, snapshot, faults);
    forall state <- SaveRun(files, snapshot, faults).0 ensures Safe(range, state) <==> Primary in state {
      KeptIsSafe(range, files, snapshot, state);
    }
  }

  /** That is so between the two renames. */
  lemma CrashLeavesUnsafe(range: Range, files: Files, bindings: seq<Binding>)
    requires LoadFile(range, files, Primary).Readable? && LoadFile(range, files, Primary).bindings != []
    requires Validate(range, bindings).Some?
    ensures var (states, ok) := SaveRun(files, Validate(range, bindings).value, NOTHING_FAILS);
      |states| == 5 && !Safe(range, states[3]) && Load(range, states[3]) == Load(range, files)
  {
    ValidateIsIdempotent(range, bindings);
  }

  /** Two crashes, each during a save that does not fail, lose everything: the first after the primary has
      become the backup, the second after that backup has been removed. */
  lemma TwoCrashesLoseEverything(range: Range, files: Files, first: seq<Binding>, second: seq<Binding>)
    requires LoadFile(range, files, Primary).Readable? && LoadFile(range, files, Primary).bindings != []
    requires Validate(range, first).Some? && Validate(range, second).Some?
    ensures var crashed := SaveRun(files, Validate(range, first).value, NOTHING_FAILS).0[3];
      var states := SaveRun(crashed, Validate(range, second).value, NOTHING_FAILS).0;
      && Load(range, crashed) == Load(range, files) == Some(LoadFile(range, files, Primary).bindings)
      && |states| == 5 && Load(range, states[2]) == Some([])
      && (second != [] ==> !OldOrNew(range, crashed, Validate(range, second).value, states))
  {
    CrashLeavesUnsafe(range, files, first);
    var crashed := SaveRun(files, Validate(range, first).value, NOTHING_FAILS).0[3];
    if second != [] { CrashLosesOld(range, crashed, second); }
  }
}
