/** Uploads, downloads and app installs of any number of connections sharing one temporary store
    (internal/bridge/file.go, app.go and temp_store.go): every lock-held region is a step, and steps of
    all handlers and goroutines interleave. */
module TempQuota {
  import opened Text
  import opened TempStore

  type Connection = nat

  /** Every connection has bridges of its own, with channels of their own. */
  datatype Channel = Channel(connection: Connection, number: nat)

  type Id = nat
  type SessionId = nat

  datatype Use = ForUpload(channel: Channel) | ForDownload(channel: Channel) | ForSession(session: SessionId)

  /** Who has to close an allocation. */
  datatype Place =
    | Making(use: Use)               // quota taken, file not made yet
    | Placing(use: Use)              // made, not in a session map yet
    | InUploads(channel: Channel)
    | InDownloads(channel: Channel)
    | InTransfer(session: SessionId) // a running install
    | InCommand(session: SessionId)  // handed over to the goroutine that installs the package
    | Closing                        // taken out of its map by someone about to close it
    | Gone

  /** Held is charged at its size; Returning has been closed but not yet subtracted. */
  datatype Status = Held | Returning(amount: nat) | Returned

  /** running: the goroutine that receives the file has not yet settled or given up. */
  datatype Alloc = Alloc(size: nat, status: Status, place: Place, download: bool, settled: bool, running: bool)
  {
    function Charge(): nat {
      match status
      case Held => size
      case Returning(amount) => amount
      case Returned => 0
    }
  }

  datatype Session = Session(closed: bool, commandRunning: bool, transfer: Option<Id>, making: Option<Id>)
  {
    predicate Available() {
      !closed && !commandRunning && transfer.None? && making.None?
    }
  }

  datatype Limits = Limits(maxBytes: nat, maxFileBytes: nat, maxAppBytes: nat)

  datatype State = State(
    used: int, allocs: seq<Alloc>,
    fileClosed: set<Connection>, uploads: map<Channel, Id>, downloads: map<Channel, Id>,
    appClosed: set<Connection>, appChannels: map<Channel, SessionId>, sessions: seq<Session>, ending: set<SessionId>)

  const START := State(0, [], {}, map[], map[], {}, map[], [], {})

  // ---------- steps ----------

  datatype Step =
    | Check(channel: Channel, size: nat)
    | RecvInit(channel: Channel)
    | MakeFile(id: Id, made: bool)
    | Place(id: Id)
    | RemoveUpload(channel: Channel)
    | RemoveDownload(channel: Channel)
    | CloseFiles(connection: Connection)
    | FinishRun(id: Id, actual: Option<nat>)
    | Close(id: Id)
    | Return(id: Id)
    | GetOrCreate(channel: Channel)
    | InstallCheck(session: SessionId, size: nat)
    | CompleteInstall(session: SessionId)
    | StartCommand(session: SessionId)
    | FinishCommand(session: SessionId)
    | FinishInstall(id: Id, current: bool)
    | ProtocolFailure(session: SessionId)
    | DropSession(channel: Channel)
    | CloseApps(connection: Connection)
    | EndSession(session: SessionId)

  predicate Unlocked(s: State, session: SessionId) {
    session < |s.sessions| && s.sessions[session].making.None?
  }

  predicate Enabled(limits: Limits, s: State, step: Step) {
    match step
    case Check(_, size) => size <= limits.maxFileBytes
    case InstallCheck(session, size) =>
      size <= limits.maxAppBytes && session < |s.sessions| && s.sessions[session].Available()
    case MakeFile(id, _) => id < |s.allocs| && s.allocs[id].place.Making?
    case Place(id) => id < |s.allocs| && s.allocs[id].place.Placing? && !s.allocs[id].place.use.ForSession?
    case RemoveUpload(channel) => channel in s.uploads && s.uploads[channel] < |s.allocs|
    case RemoveDownload(channel) => channel in s.downloads && s.downloads[channel] < |s.allocs|
    case FinishRun(id, actual) =>
      id < |s.allocs| && s.allocs[id].running && (actual.Some? ==> actual.value <= limits.maxFileBytes)
    case Close(id) => // by its owner, or early, by a timeout or the size guard
      id < |s.allocs| && (s.allocs[id].place.Closing? || s.allocs[id].place.InUploads? || s.allocs[id].place.InDownloads?)
    case Return(id) => id < |s.allocs| && s.allocs[id].status.Returning?
    case CompleteInstall(session) =>
      && Unlocked(s, session) && !s.sessions[session].closed && !s.sessions[session].commandRunning
      && s.sessions[session].transfer.Some? && s.sessions[session].transfer.value < |s.allocs|
    case StartCommand(session) => session < |s.sessions| && s.sessions[session].Available()
    case FinishCommand(session) => Unlocked(s, session)
    case FinishInstall(id, _) =>
      id < |s.allocs| && s.allocs[id].place.InCommand? && Unlocked(s, s.allocs[id].place.session)
    case ProtocolFailure(session) => Unlocked(s, session)
    case DropSession(channel) => channel in s.appChannels
    case EndSession(session) => Unlocked(s, session) && session in s.ending
    case _ => true
  }

  /** allocate and prepareDownload up to the counter; without quota nothing happens. */
  function Reserve(limits: Limits, s: State, size: nat, use: Use): State {
    if size > limits.maxBytes - s.used then s
    else
      s.(used := s.used + size,
         allocs := s.allocs + [Alloc(size, Held, Making(use), use.ForDownload?, false, false)])
  }

  function Move(s: State, id: Id, place: Place): State
    requires id < |s.allocs|
  {
    s.(allocs := s.allocs[id := s.allocs[id].(place := place)])
  }

  function SetSession(s: State, session: SessionId, value: Session): State
    requires session < |s.sessions|
  {
    s.(sessions := s.sessions[session := value])
  }

  /** A session lets go of its transfer, which its caller then closes. */
  function DropTransfer(s: State, session: SessionId, closed: bool): State
    requires session < |s.sessions|
  {
    var transfer := s.sessions[session].transfer;
    var next := SetSession(s, session, Session(closed, false, None, s.sessions[session].making));
    if transfer.Some? && transfer.value < |s.allocs| then Move(next, transfer.value, Closing) else next
  }

  function MakeFileStep(s: State, id: Id, made: bool): State
    requires id < |s.allocs| && s.allocs[id].place.Making?
  {
    var alloc := s.allocs[id];
    var use := alloc.place.use;
    var unlocked :=
      if use.ForSession? && use.session < |s.sessions| then
        SetSession(s, use.session,
          s.sessions[use.session].(making := None, transfer := if made then Some(id) else None))
      else s;
    if !made then
      Move(unlocked, id, Gone).(
        used := Released(s.used, alloc.size),
        allocs := s.allocs[id := alloc.(status := Returned, place := Gone)])
    else if use.ForSession? then Move(unlocked, id, InTransfer(use.session))
    else Move(unlocked, id, Placing(use))
  }

  function PlaceStep(s: State, id: Id): State
    requires id < |s.allocs| && s.allocs[id].place.Placing?
  {
    match s.allocs[id].place.use
    case ForUpload(channel) =>
      if channel.connection in s.fileClosed || channel in s.uploads then Move(s, id, Closing)
      else Move(s, id, InUploads(channel)).(uploads := s.uploads[channel := id])
    case ForDownload(channel) =>
      if channel.connection in s.fileClosed || channel in s.downloads || channel in s.uploads then Move(s, id, Closing)
      else
        s.(downloads := s.downloads[channel := id],
           allocs := s.allocs[id := s.allocs[id].(place := InDownloads(channel), running := true)])
    case ForSession(_) => s
  }

  /** settle, or nothing when the goroutine gave up or the allocation is already closed. */
  function FinishRunStep(s: State, id: Id, actual: Option<nat>): State
    requires id < |s.allocs|
  {
    var alloc := s.allocs[id].(running := false);
    if actual.None? || !alloc.status.Held? then s.(allocs := s.allocs[id := alloc])
    else
      s.(used := Settled(s.used, alloc.size, actual.value),
         allocs := s.allocs[id := alloc.(size := actual.value, settled := true)])
  }

  /** close, up to the counter: only the first call takes the charge. */
  function Closed(a: Alloc): Alloc {
    var place := if a.place.Closing? then Gone else a.place;
    if a.status.Held? then a.(size := 0, status := Returning(a.size), place := place) else a.(place := place)
  }

  function TakenOut(alloc: Alloc, connection: Connection): Alloc {
    if (alloc.place.InUploads? || alloc.place.InDownloads?) && alloc.place.channel.connection == connection
    then alloc.(place := Closing) else alloc
  }

  function Others<V>(entries: map<Channel, V>, connection: Connection): map<Channel, V> {
    map channel | channel in entries && channel.connection != connection :: entries[channel]
  }

  function Own<V>(entries: map<Channel, V>, connection: Connection): set<V> {
    set channel | channel in entries && channel.connection == connection :: entries[channel]
  }

  function Apply(limits: Limits, s: State, step: Step): State
    requires Enabled(limits, s, step)
  {
    match step
    case Check(channel, size) => Reserve(limits, s, size, ForUpload(channel))
    case RecvInit(channel) =>
      if limits.maxFileBytes == 0 then s else Reserve(limits, s, limits.maxFileBytes, ForDownload(channel))
    case MakeFile(id, made) => MakeFileStep(s, id, made)
    case Place(id) => PlaceStep(s, id)
    case RemoveUpload(channel) => Move(s, s.uploads[channel], Closing).(uploads := s.uploads - {channel})
    case RemoveDownload(channel) => Move(s, s.downloads[channel], Closing).(downloads := s.downloads - {channel})
    case CloseFiles(connection) =>
      s.(fileClosed := s.fileClosed + {connection},
         uploads := Others(s.uploads, connection), downloads := Others(s.downloads, connection),
         allocs := seq(|s.allocs|, i requires 0 <= i < |s.allocs| => TakenOut(s.allocs[i], connection)))
    case FinishRun(id, actual) => FinishRunStep(s, id, actual)
    case Close(id) => s.(allocs := s.allocs[id := Closed(s.allocs[id])])
    case Return(id) =>
      s.(used := Released(s.used, s.allocs[id].status.amount),
         allocs := s.allocs[id := s.allocs[id].(status := Returned)])
    case GetOrCreate(channel) =>
      if channel.connection in s.appClosed || channel in s.appChannels then s
      else
        s.(sessions := s.sessions + [Session(false, false, None, None)],
           appChannels := s.appChannels[channel := |s.sessions|])
    case InstallCheck(session, size) =>
      var next := Reserve(limits, s, size, ForSession(session));
      if next == s then s else SetSession(next, session, s.sessions[session].(making := Some(|s.allocs|)))
    case CompleteInstall(session) =>
      var id := s.sessions[session].transfer.value;
      SetSession(Move(s, id, InCommand(session)), session, s.sessions[session].(transfer := None, commandRunning := true))
    case StartCommand(session) => SetSession(s, session, s.sessions[session].(commandRunning := true))
    case FinishCommand(session) => SetSession(s, session, s.sessions[session].(commandRunning := false))
    case FinishInstall(id, current) =>
      var session := s.allocs[id].place.session;
      var next := Move(s, id, Closing);
      if current then SetSession(next, session, s.sessions[session].(commandRunning := false)) else next
    case ProtocolFailure(session) =>
      if s.sessions[session].closed then s else DropTransfer(s, session, false)
    case DropSession(channel) =>
      s.(appChannels := s.appChannels - {channel}, ending := s.ending + {s.appChannels[channel]})
    case CloseApps(connection) =>
      s.(appClosed := s.appClosed + {connection}, appChannels := Others(s.appChannels, connection),
         ending := s.ending + Own(s.appChannels, connection))
    case EndSession(session) => DropTransfer(s, session, true).(ending := s.ending - {session})
  }

  // ---------- what every step keeps ----------

  function Charges(allocs: seq<Alloc>): nat {
    if |allocs| == 0 then 0 else Charges(allocs[..|allocs| - 1]) + allocs[|allocs| - 1].Charge()
  }

  /** An allocation that is still charged is where its place says, and a download that has not been
      settled is charged at the most it may be. */
  ghost predicate Placed(s: State, id: Id)
    requires id < |s.allocs|
  {
    match s.allocs[id].place
    case Making(ForSession(session)) => session < |s.sessions| && s.sessions[session].making == Some(id)
    case Making(_) => true
    case Placing(use) => !use.ForSession?
    case InUploads(channel) => channel in s.uploads && s.uploads[channel] == id
    case InDownloads(channel) => channel in s.downloads && s.downloads[channel] == id
    case InTransfer(session) => session < |s.sessions| && s.sessions[session].transfer == Some(id)
    case InCommand(session) => session < |s.sessions|
    case Closing => true
    case Gone => true
  }

  predicate Accounted(limits: Limits, a: Alloc) {
    && (a.place.Making? || a.place.Placing? ==> a.status.Held? && !a.running && !a.settled)
    && (a.place.Making? || a.place.Placing? ==> (a.download <==> a.place.use.ForDownload?))
    && (a.place.Gone? ==> !a.status.Held?)
    && (a.running ==> a.download && !a.settled)
    && (a.download && !a.settled && !a.status.Returned? ==> a.Charge() == limits.maxFileBytes)
  }

  ghost predicate TransferLinked(s: State, session: SessionId)
    requires session < |s.sessions|
  {
    var t := s.sessions[session];
    && (t.closed ==> t.transfer.None? && t.making.None?)
    && (t.making.Some? ==> t.transfer.None?)
    && (t.transfer.Some? ==>
          t.transfer.value < |s.allocs| && s.allocs[t.transfer.value].place == InTransfer(session))
  }

  /** The counter is the sum of the charges. */
  ghost predicate Balanced(limits: Limits, s: State) {
    && s.used == Charges(s.allocs) <= limits.maxBytes
    && (forall a <- s.allocs :: Accounted(limits, a))
  }

  /** Allocations, the upload and download maps, and sessions point at each other. */
  ghost predicate Linked(s: State) {
    && (forall id | 0 <= id < |s.allocs| :: Placed(s, id))
    && (forall session | 0 <= session < |s.sessions| :: TransferLinked(s, session))
    && (forall channel | channel in s.uploads ::
          s.uploads[channel] < |s.allocs| && s.allocs[s.uploads[channel]].place == InUploads(channel))
    && (forall channel | channel in s.downloads ::
          s.downloads[channel] < |s.allocs| && s.allocs[s.downloads[channel]].place == InDownloads(channel))
  }

  /** Nothing enters a closed bridge, and a session that is not closed can still be found and closed. */
  ghost predicate Findable(s: State) {
    && (forall channel | channel in s.appChannels :: s.appChannels[channel] < |s.sessions|)
    && (forall session | 0 <= session < |s.sessions| && !s.sessions[session].closed ::
          session in s.appChannels.Values || session in s.ending)
    && (forall channel | channel in s.uploads || channel in s.downloads :: channel.connection !in s.fileClosed)
    && (forall channel | channel in s.appChannels :: channel.connection !in s.appClosed)
  }

  ghost predicate Inv(limits: Limits, s: State) {
    Balanced(limits, s) && Linked(s) && Findable(s)
  }

  lemma {:induction false} ChargesAfterUpdate(allocs: seq<Alloc>, id: Id, alloc: Alloc)
    requires id < |allocs|
    ensures Charges(allocs[id := alloc]) == Charges(allocs) - allocs[id].Charge() + alloc.Charge()
    ensures allocs[id].Charge() <= Charges(allocs)
    decreases |allocs|
  {
    var last := |allocs| - 1;
    if id == last {
      assert allocs[id := alloc][..last] == allocs[..last];
    } else {
      assert allocs[id := alloc][..last] == allocs[..last][id := alloc];
      ChargesAfterUpdate(allocs[..last], id, alloc);
    }
  }

  lemma {:induction false} ChargesAlike(a: seq<Alloc>, b: seq<Alloc>)
    requires |a| == |b| && forall i | 0 <= i < |a| :: a[i].Charge() == b[i].Charge()
    ensures Charges(a) == Charges(b)
    decreases |a|
  {
    if |a| > 0 {
      ChargesAlike(a[..|a| - 1], b[..|b| - 1]);
    }
  }

  // ---------- the counter ----------

  /** One allocation changes, and the counter with its charge. */
  lemma UpdateBalanced(limits: Limits, s: State, next: State, id: Id, alloc: Alloc)
    requires Balanced(limits, s) && id < |s.allocs| && next.allocs == s.allocs[id := alloc]
    requires Accounted(limits, alloc) && alloc.Charge() <= s.allocs[id].Charge()
    requires next.used == s.used - s.allocs[id].Charge() + alloc.Charge()
    ensures Balanced(limits, next)
  {
    ChargesAfterUpdate(s.allocs, id, alloc);
    forall a <- next.allocs ensures Accounted(limits, a) {
      assert a == alloc || a in s.allocs;
    }
  }

  lemma ChargeIsCounted(limits: Limits, s: State, id: Id)
    requires Balanced(limits, s) && id < |s.allocs|
    ensures Accounted(limits, s.allocs[id]) && s.allocs[id].Charge() <= s.used
  {
    ChargesAfterUpdate(s.allocs, id, s.allocs[id]);
    assert s.allocs[id] in s.allocs;
  }

  lemma ChargesSnoc(allocs: seq<Alloc>, alloc: Alloc)
    ensures Charges(allocs + [alloc]) == Charges(allocs) + alloc.Charge()
  {
    assert (allocs + [alloc])[..|allocs|] == allocs;
  }

  lemma ReserveBalanced(limits: Limits, s: State, size: nat, use: Use)
    requires Balanced(limits, s) && (use.ForDownload? ==> size == limits.maxFileBytes)
    ensures Balanced(limits, Reserve(limits, s, size, use))
  {
    var alloc := Alloc(size, Held, Making(use), use.ForDownload?, false, false);
    var next := Reserve(limits, s, size, use);
    if next != s {
      ChargesSnoc(s.allocs, alloc);
      forall a <- next.allocs ensures Accounted(limits, a) {
        assert a in s.allocs || a == alloc;
      }
    }
  }

  lemma MakeFileBalanced(limits: Limits, s: State, id: Id, made: bool)
    requires Balanced(limits, s) && Enabled(limits, s, MakeFile(id, made))
    ensures Balanced(limits, Apply(limits, s, MakeFile(id, made)))
  {
    ChargeIsCounted(limits, s, id);
    var next := Apply(limits, s, MakeFile(id, made));
    UpdateBalanced(limits, s, next, id, next.allocs[id]);
  }

  lemma PlaceBalanced(limits: Limits, s: State, id: Id)
    requires Balanced(limits, s) && Enabled(limits, s, Step.Place(id))
    ensures Balanced(limits, Apply(limits, s, Step.Place(id)))
  {
    ChargeIsCounted(limits, s, id);
    var next := Apply(limits, s, Step.Place(id));
    UpdateBalanced(limits, s, next, id, next.allocs[id]);
  }

  lemma FinishRunBalanced(limits: Limits, s: State, id: Id, actual: Option<nat>)
    requires Balanced(limits, s) && Enabled(limits, s, FinishRun(id, actual))
    ensures Balanced(limits, Apply(limits, s, FinishRun(id, actual)))
  {
    ChargeIsCounted(limits, s, id);
    var next := Apply(limits, s, FinishRun(id, actual));
    UpdateBalanced(limits, s, next, id, next.allocs[id]);
  }

  lemma CloseBalanced(limits: Limits, s: State, id: Id)
    requires Balanced(limits, s) && Enabled(limits, s, Step.Close(id))
    ensures Balanced(limits, Apply(limits, s, Step.Close(id)))
  {
    ChargeIsCounted(limits, s, id);
    var next := Apply(limits, s, Step.Close(id));
    UpdateBalanced(limits, s, next, id, next.allocs[id]);
  }

  lemma ReturnBalanced(limits: Limits, s: State, id: Id)
    requires Balanced(limits, s) && Enabled(limits, s, Return(id))
    ensures Balanced(limits, Apply(limits, s, Return(id)))
  {
    ChargeIsCounted(limits, s, id);
    var next := Apply(limits, s, Return(id));
    UpdateBalanced(limits, s, next, id, next.allocs[id]);
  }

  lemma MoveBalanced(limits: Limits, s: State, id: Id, next: State)
    requires Balanced(limits, s) && id < |s.allocs| && next.used == s.used
    requires |next.allocs| == |s.allocs| && (next.allocs[id].place.InCommand? || next.allocs[id].place.Closing?)
    requires next.allocs == s.allocs[id := s.allocs[id].(place := next.allocs[id].place)]
    ensures Balanced(limits, next)
  {
    ChargeIsCounted(limits, s, id);
    UpdateBalanced(limits, s, next, id, next.allocs[id]);
  }

  // ---------- the links ----------

  /** Places nobody points at. */
  predicate Unlinked(place: Place) {
    match place
    case Making(use) => !use.ForSession?
    case Placing(use) => !use.ForSession?
    case Closing => true
    case Gone => true
    case _ => false
  }

  lemma UpdateLinked(s: State, next: State, id: Id)
    requires Linked(s) && id < |s.allocs| && |next.allocs| == |s.allocs|
    requires forall i | 0 <= i < |s.allocs| && i != id :: next.allocs[i].place == s.allocs[i].place
    requires next.uploads == s.uploads && next.downloads == s.downloads && next.sessions == s.sessions
    requires next.allocs[id].place == s.allocs[id].place
          || (Unlinked(s.allocs[id].place) && Unlinked(next.allocs[id].place))
    ensures Linked(next)
  {
    forall i | 0 <= i < |next.allocs| ensures Placed(next, i) { assert Placed(s, i); }
    forall other | 0 <= other < |next.sessions| ensures TransferLinked(next, other) { assert TransferLinked(s, other); }
  }

  /** One allocation and one session change, and at most each other's links with them. */
  lemma UpdateBothLinked(s: State, next: State, id: Id, session: SessionId)
    requires Linked(s) && id < |s.allocs| && |next.allocs| == |s.allocs|
    requires session < |s.sessions| && |next.sessions| == |s.sessions|
    requires forall i | 0 <= i < |s.allocs| && i != id :: next.allocs[i].place == s.allocs[i].place
    requires forall i | 0 <= i < |s.sessions| && i != session :: next.sessions[i] == s.sessions[i]
    requires next.uploads == s.uploads && next.downloads == s.downloads
    requires s.allocs[id].place in {Making(ForSession(session)), InTransfer(session), InCommand(session)}
    requires s.sessions[session].transfer in {None, Some(id)} && s.sessions[session].making in {None, Some(id)}
    requires Placed(next, id) && TransferLinked(next, session)
    ensures Linked(next)
  {
    forall i | 0 <= i < |next.allocs| ensures Placed(next, i) { assert Placed(s, i); }
    forall other | 0 <= other < |next.sessions| ensures TransferLinked(next, other) { assert TransferLinked(s, other); }
  }

  /** A new allocation, which at most one session points at. */
  lemma AppendLinked(s: State, next: State, use: Use)
    requires Linked(s) && |next.allocs| == |s.allocs| + 1
    requires forall i | 0 <= i < |s.allocs| :: next.allocs[i] == s.allocs[i]
    requires next.allocs[|s.allocs|].place == Making(use)
    requires |next.sessions| == |s.sessions| && next.uploads == s.uploads && next.downloads == s.downloads
    requires if use.ForSession? then
        && use.session < |s.sessions| && s.sessions[use.session].Available()
        && next.sessions == s.sessions[use.session := s.sessions[use.session].(making := Some(|s.allocs|))]
      else next.sessions == s.sessions
    ensures Linked(next)
  {
    forall i | 0 <= i < |next.allocs| ensures Placed(next, i) { if i < |s.allocs| { assert Placed(s, i); } }
    forall other | 0 <= other < |next.sessions| ensures TransferLinked(next, other) { assert TransferLinked(s, other); }
  }

  lemma ReserveLinked(limits: Limits, s: State, size: nat, use: Use)
    requires Linked(s) && !use.ForSession?
    ensures Linked(Reserve(limits, s, size, use))
  {
    var next := Reserve(limits, s, size, use);
    if next != s { AppendLinked(s, next, use); }
  }

  lemma MakeFileLinked(limits: Limits, s: State, id: Id, made: bool)
    requires Linked(s) && Enabled(limits, s, MakeFile(id, made))
    ensures Linked(MakeFileStep(s, id, made))
  {
    var next := MakeFileStep(s, id, made);
    var use := s.allocs[id].place.use;
    assert Placed(s, id);
    if use.ForSession? {
      assert TransferLinked(s, use.session);
      UpdateBothLinked(s, next, id, use.session);
    } else {
      UpdateLinked(s, next, id);
    }
  }

  lemma PlaceInUploadsLinked(s: State, id: Id, channel: Channel)
    requires Linked(s) && id < |s.allocs| && s.allocs[id].place == Placing(ForUpload(channel))
    requires channel.connection !in s.fileClosed && channel !in s.uploads
    ensures Linked(PlaceStep(s, id))
  {
    var next := PlaceStep(s, id);
    assert next.allocs[id].place == InUploads(channel) && next.uploads == s.uploads[channel := id];
    forall i | 0 <= i < |next.allocs| ensures Placed(next, i) { assert Placed(s, i); }
    forall other | 0 <= other < |next.sessions| ensures TransferLinked(next, other) { assert TransferLinked(s, other); }
  }

  lemma PlaceInDownloadsLinked(s: State, id: Id, channel: Channel)
    requires Linked(s) && id < |s.allocs| && s.allocs[id].place == Placing(ForDownload(channel))
    requires channel.connection !in s.fileClosed && channel !in s.uploads && channel !in s.downloads
    ensures Linked(PlaceStep(s, id))
  {
    var next := PlaceStep(s, id);
    assert next.allocs[id].place == InDownloads(channel) && next.downloads == s.downloads[channel := id];
    forall i | 0 <= i < |next.allocs| ensures Placed(next, i) { assert Placed(s, i); }
    forall other | 0 <= other < |next.sessions| ensures TransferLinked(next, other) { assert TransferLinked(s, other); }
  }

  lemma PlaceLinked(limits: Limits, s: State, id: Id)
    requires Linked(s) && Enabled(limits, s, Step.Place(id))
    ensures Linked(PlaceStep(s, id))
  {
    match s.allocs[id].place.use
    case ForUpload(channel) =>
      if channel.connection in s.fileClosed || channel in s.uploads { UpdateLinked(s, PlaceStep(s, id), id); }
      else { PlaceInUploadsLinked(s, id, channel); }
    case ForDownload(channel) =>
      if channel.connection in s.fileClosed || channel in s.downloads || channel in s.uploads { UpdateLinked(s, PlaceStep(s, id), id); }
      else { PlaceInDownloadsLinked(s, id, channel); }
  }

  lemma RemoveUploadLinked(limits: Limits, s: State, channel: Channel)
    requires Linked(s) && Enabled(limits, s, RemoveUpload(channel))
    ensures Linked(Apply(limits, s, RemoveUpload(channel)))
  {
    var next := Apply(limits, s, RemoveUpload(channel));
    forall i | 0 <= i < |next.allocs| ensures Placed(next, i) { if i < |s.allocs| { assert Placed(s, i); } }
    forall other | 0 <= other < |next.sessions| ensures TransferLinked(next, other) {
      if other < |s.sessions| { assert TransferLinked(s, other); }
    }
  }

  lemma RemoveDownloadLinked(limits: Limits, s: State, channel: Channel)
    requires Linked(s) && Enabled(limits, s, RemoveDownload(channel))
    ensures Linked(Apply(limits, s, RemoveDownload(channel)))
  {
    var next := Apply(limits, s, RemoveDownload(channel));
    forall i | 0 <= i < |next.allocs| ensures Placed(next, i) { if i < |s.allocs| { assert Placed(s, i); } }
    forall other | 0 <= other < |next.sessions| ensures TransferLinked(next, other) {
      if other < |s.sessions| { assert TransferLinked(s, other); }
    }
  }

  lemma CloseFilesLinked(limits: Limits, s: State, connection: Connection)
    requires Linked(s) && Enabled(limits, s, CloseFiles(connection))
    ensures Linked(Apply(limits, s, CloseFiles(connection)))
  {
    var next := Apply(limits, s, CloseFiles(connection));
    forall i | 0 <= i < |next.allocs| ensures Placed(next, i) { if i < |s.allocs| { assert Placed(s, i); } }
    forall other | 0 <= other < |next.sessions| ensures TransferLinked(next, other) {
      if other < |s.sessions| { assert TransferLinked(s, other); }
    }
  }

  lemma InstallCheckLinked(limits: Limits, s: State, session: SessionId, size: nat)
    requires Linked(s) && Enabled(limits, s, InstallCheck(session, size))
    ensures Linked(Apply(limits, s, InstallCheck(session, size)))
  {
    var next := Apply(limits, s, InstallCheck(session, size));
    if next != s { AppendLinked(s, next, ForSession(session)); }
  }

  lemma CompleteInstallLinked(limits: Limits, s: State, session: SessionId)
    requires Linked(s) && Enabled(limits, s, CompleteInstall(session))
    ensures Linked(Apply(limits, s, CompleteInstall(session)))
  {
    assert TransferLinked(s, session);
    UpdateBothLinked(s, Apply(limits, s, CompleteInstall(session)), s.sessions[session].transfer.value, session);
  }

  lemma DropTransferLinked(s: State, session: SessionId, closed: bool)
    requires Linked(s) && Unlocked(s, session)
    ensures Linked(DropTransfer(s, session, closed))
  {
    var next := DropTransfer(s, session, closed);
    var transfer := s.sessions[session].transfer;
    assert TransferLinked(s, session);
    if transfer.Some? {
      UpdateBothLinked(s, next, transfer.value, session);
    } else {
      forall i | 0 <= i < |next.allocs| ensures Placed(next, i) { assert Placed(s, i); }
      forall other | 0 <= other < |next.sessions| ensures TransferLinked(next, other) { assert TransferLinked(s, other); }
    }
  }

  lemma CommandRunningLinked(s: State, session: SessionId, running: bool)
    requires Linked(s) && session < |s.sessions|
    ensures Linked(SetSession(s, session, s.sessions[session].(commandRunning := running)))
  {
    SessionLinked(s, SetSession(s, session, s.sessions[session].(commandRunning := running)));
  }

  lemma FinishInstallLinked(limits: Limits, s: State, id: Id, current: bool)
    requires Linked(s) && Enabled(limits, s, FinishInstall(id, current))
    ensures Linked(Apply(limits, s, FinishInstall(id, current)))
  {
    var moved := Move(s, id, Closing);
    forall i | 0 <= i < |moved.allocs| ensures Placed(moved, i) { assert Placed(s, i); }
    forall other | 0 <= other < |moved.sessions| ensures TransferLinked(moved, other) { assert TransferLinked(s, other); }
    if current { CommandRunningLinked(moved, s.allocs[id].place.session, false); }
  }

  lemma SessionLinked(s: State, next: State)
    requires Linked(s) && next.allocs == s.allocs && next.uploads == s.uploads && next.downloads == s.downloads
    requires |s.sessions| <= |next.sessions|
    requires forall i | 0 <= i < |s.sessions| :: next.sessions[i].(commandRunning := s.sessions[i].commandRunning) == s.sessions[i]
    requires forall i | |s.sessions| <= i < |next.sessions| :: next.sessions[i].transfer.None? && next.sessions[i].making.None?
    ensures Linked(next)
  {
    forall i | 0 <= i < |next.allocs| ensures Placed(next, i) { assert Placed(s, i); }
    forall other | 0 <= other < |next.sessions| ensures TransferLinked(next, other) {
      if other < |s.sessions| { assert TransferLinked(s, other); }
    }
  }

  lemma FinishRunLinked(s: State, id: Id, actual: Option<nat>)
    requires Linked(s) && id < |s.allocs|
    ensures Linked(FinishRunStep(s, id, actual))
  {
    UpdateLinked(s, FinishRunStep(s, id, actual), id);
  }

  lemma CloseLinked(limits: Limits, s: State, id: Id)
    requires Linked(s) && Enabled(limits, s, Step.Close(id))
    ensures Linked(Apply(limits, s, Step.Close(id)))
  {
    UpdateLinked(s, Apply(limits, s, Step.Close(id)), id);
  }

  lemma ReturnLinked(limits: Limits, s: State, id: Id)
    requires Linked(s) && Enabled(limits, s, Return(id))
    ensures Linked(Apply(limits, s, Return(id)))
  {
    UpdateLinked(s, Apply(limits, s, Return(id)), id);
  }

  lemma SessionStepLinked(limits: Limits, s: State, step: Step)
    requires Linked(s) && Enabled(limits, s, step)
    requires step.GetOrCreate? || step.StartCommand? || step.FinishCommand? || step.DropSession? || step.CloseApps?
    ensures Linked(Apply(limits, s, step))
  {
    SessionLinked(s, Apply(limits, s, step));
  }

  lemma StepLinked(limits: Limits, s: State, step: Step)
    requires Linked(s) && Enabled(limits, s, step)
    ensures Linked(Apply(limits, s, step))
  {
    match step
    case Check(channel, size) => ReserveLinked(limits, s, size, ForUpload(channel));
    case RecvInit(channel) => ReserveLinked(limits, s, limits.maxFileBytes, ForDownload(channel));
    case MakeFile(id, made) => MakeFileLinked(limits, s, id, made);
    case Place(id) => PlaceLinked(limits, s, id);
    case RemoveUpload(channel) => RemoveUploadLinked(limits, s, channel);
    case RemoveDownload(channel) => RemoveDownloadLinked(limits, s, channel);
    case CloseFiles(connection) => CloseFilesLinked(limits, s, connection);
    case FinishRun(id, actual) => FinishRunLinked(s, id, actual);
    case Close(id) => CloseLinked(limits, s, id);
    case Return(id) => ReturnLinked(limits, s, id);
    case InstallCheck(session, size) => InstallCheckLinked(limits, s, session, size);
    case CompleteInstall(session) => CompleteInstallLinked(limits, s, session);
    case FinishInstall(id, current) => FinishInstallLinked(limits, s, id, current);
    case ProtocolFailure(session) => ProtocolFailureLinked(limits, s, session);
    case EndSession(session) => EndSessionLinked(limits, s, session);
    case _ => SessionStepLinked(limits, s, step);
  }

  lemma ProtocolFailureLinked(limits: Limits, s: State, session: SessionId)
    requires Linked(s) && Enabled(limits, s, ProtocolFailure(session))
    ensures Linked(Apply(limits, s, ProtocolFailure(session)))
  {
    if !s.sessions[session].closed { DropTransferLinked(s, session, false); }
  }

  lemma EndSessionLinked(limits: Limits, s: State, session: SessionId)
    requires Linked(s) && Enabled(limits, s, EndSession(session))
    ensures Linked(Apply(limits, s, EndSession(session)))
  {
    DropTransferLinked(s, session, true);
    SessionLinked(DropTransfer(s, session, true), Apply(limits, s, EndSession(session)));
  }

  // ---------- sessions can be found, and closed bridges stay empty ----------

  lemma StepFindable(limits: Limits, s: State, step: Step)
    requires Findable(s) && Enabled(limits, s, step)
    ensures Findable(Apply(limits, s, step))
  {
    match step
    case GetOrCreate(channel) => GetOrCreateFindable(limits, s, channel);
    case DropSession(channel) => DropSessionFindable(limits, s, channel);
    case EndSession(session) => EndSessionFindable(limits, s, session);
    case CloseApps(connection) => CloseAppsFindable(limits, s, connection);
    case Check(_, _) => FileStepFindable(limits, s, step);
    case RecvInit(_) => FileStepFindable(limits, s, step);
    case Place(_) => FileStepFindable(limits, s, step);
    case RemoveUpload(_) => FileStepFindable(limits, s, step);
    case RemoveDownload(_) => FileStepFindable(limits, s, step);
    case CloseFiles(_) => FileStepFindable(limits, s, step);
    case FinishRun(_, _) => FileStepFindable(limits, s, step);
    case Close(_) => FileStepFindable(limits, s, step);
    case Return(_) => FileStepFindable(limits, s, step);
    case MakeFile(id, made) => MakeFileFindable(limits, s, id, made);
    case ProtocolFailure(session) => ProtocolFailureFindable(s, session);
    case _ => InstallStepFindable(limits, s, step);
  }

  lemma GetOrCreateFindable(limits: Limits, s: State, channel: Channel)
    requires Findable(s)
    ensures Findable(Apply(limits, s, GetOrCreate(channel)))
  {
    var next := Apply(limits, s, GetOrCreate(channel));
    if next != s {
      assert next.appChannels[channel] == |s.sessions|;
      forall session | 0 <= session < |next.sessions| && !next.sessions[session].closed
        ensures session in next.appChannels.Values || session in next.ending
      {
        if session in s.appChannels.Values {
          var other :| other in s.appChannels && s.appChannels[other] == session;
          assert next.appChannels[other] == session;
        }
      }
    }
  }

  lemma DropSessionFindable(limits: Limits, s: State, channel: Channel)
    requires Findable(s) && Enabled(limits, s, DropSession(channel))
    ensures Findable(Apply(limits, s, DropSession(channel)))
  {
    var next := Apply(limits, s, DropSession(channel));
    forall session | 0 <= session < |next.sessions| && !next.sessions[session].closed
      ensures session in next.appChannels.Values || session in next.ending
    {
      if session in s.appChannels.Values {
        var other :| other in s.appChannels && s.appChannels[other] == session;
        if other != channel { assert other in next.appChannels && next.appChannels[other] == session; }
      }
    }
  }

  lemma EndSessionFindable(limits: Limits, s: State, session: SessionId)
    requires Findable(s) && Enabled(limits, s, EndSession(session))
    ensures Findable(Apply(limits, s, EndSession(session)))
  {
    var next := Apply(limits, s, EndSession(session));
    assert next.appChannels == s.appChannels && next.ending == s.ending - {session};
    assert |next.sessions| == |s.sessions| && next.sessions[session].closed;
    assert forall i | 0 <= i < |s.sessions| && i != session :: next.sessions[i] == s.sessions[i];
  }

  lemma AlikeFindable(s: State, next: State)
    requires Findable(s) && next.appChannels == s.appChannels && next.ending == s.ending && next.appClosed == s.appClosed
    requires |next.sessions| == |s.sessions|
    requires forall i | 0 <= i < |s.sessions| :: next.sessions[i].closed == s.sessions[i].closed
    requires forall channel | channel in next.uploads || channel in next.downloads :: channel.connection !in next.fileClosed
    ensures Findable(next)
  {
  }

  lemma FileStepFindable(limits: Limits, s: State, step: Step)
    requires Findable(s) && Enabled(limits, s, step)
    requires step.Check? || step.RecvInit? || step.Place? || step.RemoveUpload? || step.RemoveDownload?
          || step.CloseFiles? || step.FinishRun? || step.Close? || step.Return?
    ensures Findable(Apply(limits, s, step))
  {
    AlikeFindable(s, Apply(limits, s, step));
  }

  lemma InstallStepFindable(limits: Limits, s: State, step: Step)
    requires Findable(s) && Enabled(limits, s, step)
    requires step.InstallCheck? || step.CompleteInstall? || step.StartCommand? || step.FinishCommand? || step.FinishInstall?
    ensures Findable(Apply(limits, s, step))
  {
    AlikeFindable(s, Apply(limits, s, step));
  }

  lemma MakeFileFindable(limits: Limits, s: State, id: Id, made: bool)
    requires Findable(s) && Enabled(limits, s, MakeFile(id, made))
    ensures Findable(MakeFileStep(s, id, made))
  {
    AlikeFindable(s, MakeFileStep(s, id, made));
  }

  lemma ProtocolFailureFindable(s: State, session: SessionId)
    requires Findable(s) && session < |s.sessions|
    ensures !s.sessions[session].closed ==> Findable(DropTransfer(s, session, false))
  {
    if !s.sessions[session].closed { AlikeFindable(s, DropTransfer(s, session, false)); }
  }

  lemma CloseAppsFindable(limits: Limits, s: State, connection: Connection)
    requires Findable(s)
    ensures Findable(Apply(limits, s, CloseApps(connection)))
  {
    var next := Apply(limits, s, CloseApps(connection));
    forall session | 0 <= session < |next.sessions| && !next.sessions[session].closed
      ensures session in next.appChannels.Values || session in next.ending
    {
      if channel :| channel in s.appChannels && s.appChannels[channel] == session {
        if channel.connection != connection { assert next.appChannels[channel] == session; }
      }
    }
  }

  // ---------- whole runs ----------

  lemma StepBalanced(limits: Limits, s: State, step: Step)
    requires Balanced(limits, s) && Linked(s) && Enabled(limits, s, step)
    ensures Balanced(limits, Apply(limits, s, step))
  {
    match step
    case Check(channel, size) => ReserveBalanced(limits, s, size, ForUpload(channel));
    case RecvInit(channel) => ReserveBalanced(limits, s, limits.maxFileBytes, ForDownload(channel));
    case InstallCheck(session, size) => ReserveBalanced(limits, s, size, ForSession(session));
    case MakeFile(id, made) => MakeFileBalanced(limits, s, id, made);
    case Place(id) => PlaceBalanced(limits, s, id);
    case FinishRun(id, actual) => FinishRunBalanced(limits, s, id, actual);
    case Close(id) => CloseBalanced(limits, s, id);
    case Return(id) => ReturnBalanced(limits, s, id);
    case CloseFiles(connection) => CloseFilesBalanced(limits, s, connection);
    case RemoveUpload(channel) => MoveBalanced(limits, s, s.uploads[channel], Apply(limits, s, step));
    case RemoveDownload(channel) => MoveBalanced(limits, s, s.downloads[channel], Apply(limits, s, step));
    case _ => InstallStepBalanced(limits, s, step);
  }

  lemma CloseFilesBalanced(limits: Limits, s: State, connection: Connection)
    requires Balanced(limits, s)
    ensures Balanced(limits, Apply(limits, s, CloseFiles(connection)))
  {
    var next := Apply(limits, s, CloseFiles(connection));
    ChargesAlike(s.allocs, next.allocs);
    forall a <- next.allocs ensures Accounted(limits, a) {
      var i :| 0 <= i < |next.allocs| && next.allocs[i] == a;
      assert s.allocs[i] in s.allocs;
    }
  }

  lemma DropTransferBalanced(limits: Limits, s: State, session: SessionId, closed: bool)
    requires Balanced(limits, s) && session < |s.sessions|
    ensures Balanced(limits, DropTransfer(s, session, closed))
  {
    var next := DropTransfer(s, session, closed);
    if next.allocs != s.allocs { MoveBalanced(limits, s, s.sessions[session].transfer.value, next); }
  }

  lemma InstallStepBalanced(limits: Limits, s: State, step: Step)
    requires Balanced(limits, s) && Enabled(limits, s, step)
    requires step.CompleteInstall? || step.StartCommand? || step.FinishCommand? || step.FinishInstall?
          || step.ProtocolFailure? || step.EndSession? || step.GetOrCreate? || step.DropSession? || step.CloseApps?
    ensures Balanced(limits, Apply(limits, s, step))
  {
    var next := Apply(limits, s, step);
    match step
    case CompleteInstall(session) => MoveBalanced(limits, s, s.sessions[session].transfer.value, next);
    case FinishInstall(id, _) => MoveBalanced(limits, s, id, next);
    case ProtocolFailure(session) => DropTransferBalanced(limits, s, session, false);
    case EndSession(session) => DropTransferBalanced(limits, s, session, true);
    case _ =>
  }

  /** The state after a run from an empty store, if every step was enabled where it was taken. */
  function Run(limits: Limits, steps: seq<Step>): Option<State> {
    if |steps| == 0 then Some(START)
    else
      match Run(limits, steps[..|steps| - 1])
      case Some(s) =>
        var last := steps[|steps| - 1];
        if Enabled(limits, s, last) then Some(Apply(limits, s, last)) else None
      case None => None
  }

  lemma {:induction false} RunKeepsInv(limits: Limits, steps: seq<Step>)
    requires Run(limits, steps).Some?
    ensures Inv(limits, Run(limits, steps).value)
    decreases |steps|
  {
    if |steps| > 0 {
      var before, last := Run(limits, steps[..|steps| - 1]).value, steps[|steps| - 1];
      RunKeepsInv(limits, steps[..|steps| - 1]);
      StepBalanced(limits, before, last);
      StepLinked(limits, before, last);
      StepFindable(limits, before, last);
    }
  }

  // ---------- what follows ----------

  /** The downloads whose size is not known yet. */
  function Unsettled(allocs: seq<Alloc>): nat {
    if |allocs| == 0 then 0
    else
      var last := allocs[|allocs| - 1];
      Unsettled(allocs[..|allocs| - 1]) + if last.download && !last.settled && !last.status.Returned? then 1 else 0
  }

  lemma {:induction false} UnsettledAreCharged(limits: Limits, allocs: seq<Alloc>)
    requires forall a <- allocs :: Accounted(limits, a)
    ensures Unsettled(allocs) * limits.maxFileBytes <= Charges(allocs)
    decreases |allocs|
  {
    if |allocs| > 0 {
      var last := allocs[|allocs| - 1];
      UnsettledAreCharged(limits, allocs[..|allocs| - 1]);
      assert last in allocs;
    }
  }

  /** In every run the counter is the sum of the charges not yet returned and never above the quota;
      so many receives may be under way at once as the quota has room for whole files. */
  lemma QuotaIsConserved(limits: Limits, steps: seq<Step>, s: State)
    requires Run(limits, steps) == Some(s)
    ensures 0 <= s.used == Charges(s.allocs) <= limits.maxBytes
    ensures Unsettled(s.allocs) * limits.maxFileBytes <= limits.maxBytes
  {
    RunKeepsInv(limits, steps);
    UnsettledAreCharged(limits, s.allocs);
  }

  /** Neither the clamp in release nor reserveExtra is ever used. */
  lemma NeverClamped(limits: Limits, steps: seq<Step>, s: State, id: Id)
    requires Run(limits, steps) == Some(s) && id < |s.allocs|
    ensures s.allocs[id].Charge() <= s.used
    ensures forall actual: nat | Enabled(limits, s, FinishRun(id, Some(actual))) && s.allocs[id].status.Held? ::
      actual <= s.allocs[id].size
  {
    RunKeepsInv(limits, steps);
    ChargeIsCounted(limits, s, id);
  }

  /** No bridge, open or closed, holds a file, and no handler or goroutine has one on its way. */
  ghost predicate Quiet(s: State) {
    && s.uploads == map[] && s.downloads == map[]
    && (forall session | 0 <= session < |s.sessions| :: s.sessions[session].transfer.None?)
    && (forall a <- s.allocs ::
          !a.place.Making? && !a.place.Placing? && !a.place.InCommand? && !a.place.Closing? && !a.status.Returning?)
  }

  /** The bridges of all connections that have used them are closed, and everything has come to an end. */
  ghost predicate AllClosed(s: State) {
    && (forall channel | channel in s.uploads || channel in s.downloads :: channel.connection in s.fileClosed)
    && (forall channel | channel in s.appChannels :: channel.connection in s.appClosed) && s.ending == {}
    && (forall a <- s.allocs ::
          !a.place.Making? && !a.place.Placing? && !a.place.InCommand? && !a.place.Closing? && !a.status.Returning?)
  }

  lemma {:induction false} ReturnedIsFree(allocs: seq<Alloc>)
    requires forall a <- allocs :: a.status.Returned?
    ensures Charges(allocs) == 0
    decreases |allocs|
  {
    if |allocs| > 0 {
      assert allocs[|allocs| - 1] in allocs;
      ReturnedIsFree(allocs[..|allocs| - 1]);
    }
  }

  /** Then nothing is charged any more, whatever happened before. */
  lemma AllIsReturned(limits: Limits, steps: seq<Step>, s: State)
    requires Run(limits, steps) == Some(s) && Quiet(s)
    ensures s.used == 0
  {
    RunKeepsInv(limits, steps);
    forall a | a in s.allocs ensures a.status.Returned? {
      var id :| 0 <= id < |s.allocs| && s.allocs[id] == a;
      assert Placed(s, id) && Accounted(limits, a);
    }
    ReturnedIsFree(s.allocs);
  }

  /** Closing all bridges is enough for that. */
  lemma ClosedIsQuiet(limits: Limits, steps: seq<Step>, s: State)
    requires Run(limits, steps) == Some(s) && AllClosed(s)
    ensures Quiet(s) && s.used == 0
  {
    RunKeepsInv(limits, steps);
    forall session | 0 <= session < |s.sessions| ensures s.sessions[session].transfer.None? {
      assert TransferLinked(s, session);
    }
    AllIsReturned(limits, steps, s);
  }
}
