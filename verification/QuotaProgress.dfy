/** What transfers come to when they are carried through: a file that fits is received and charged at its size, and
    all of it is given back in the end (internal/bridge/file.go, app.go and temp_store.go). */
module QuotaProgress {
  import opened Text
  import opened TempStore
  import opened TempQuota

  /** One region after the other. */
  ghost predicate Then(limits: Limits, s: State, step: Step, next: State) {
    Enabled(limits, s, step) && next == Apply(limits, s, step)
  }

  predicate HasAlloc(s: State, id: Id, alloc: Alloc) {
    id < |s.allocs| && s.allocs[id] == alloc
  }

  // ---------- uploads ----------

  /** A file that fits is charged at its size and entered for its channel, */
  lemma UploadIsEntered(limits: Limits, s: State, channel: Channel, size: nat, checked: State, made: State, placed: State)
    requires size <= limits.maxFileBytes && size <= limits.maxBytes - s.used
    requires channel.connection !in s.fileClosed && channel !in s.uploads
    requires Then(limits, s, Check(channel, size), checked)
    requires Then(limits, checked, MakeFile(|s.allocs|, true), made) && Then(limits, made, Step.Place(|s.allocs|), placed)
    ensures placed == s.(used := s.used + size, uploads := s.uploads[channel := |s.allocs|],
      allocs := s.allocs + [Alloc(size, Held, InUploads(channel), false, false, false)])
  {
    var id := |s.allocs|;
    assert checked.allocs[id] == Alloc(size, Held, Making(ForUpload(channel)), false, false, false);
    assert made.allocs == s.allocs + [Alloc(size, Held, Placing(ForUpload(channel)), false, false, false)];
  }

  /** one that does not fit is refused without a trace, */
  lemma TooLargeIsRefused(limits: Limits, s: State, channel: Channel, size: nat, checked: State)
    requires size > limits.maxBytes - s.used && Then(limits, s, Check(channel, size), checked)
    ensures checked == s
  {
  }

  /** and where the file cannot be made the charge is given back at once. */
  lemma UnmadeIsGivenBack(limits: Limits, s: State, channel: Channel, size: nat, checked: State, unmade: State)
    requires size <= limits.maxFileBytes && size <= limits.maxBytes - s.used && s.used >= 0
    requires Then(limits, s, Check(channel, size), checked) && Then(limits, checked, MakeFile(|s.allocs|, false), unmade)
    ensures unmade == s.(allocs := s.allocs + [Alloc(size, Returned, Gone, false, false, false)])
  {
  }

  /** What has been taken out of its map, closed and returned is charged no more. */
  lemma ClosedIsGivenBack(limits: Limits, s: State, id: Id, size: nat, closed: State, returned: State)
    requires id < |s.allocs| && s.allocs[id].place.Closing? && s.allocs[id].status.Held? && s.allocs[id].size == size
    requires size <= s.used
    requires Then(limits, s, Step.Close(id), closed) && Then(limits, closed, Return(id), returned)
    ensures returned == s.(used := s.used - size,
      allocs := s.allocs[id := s.allocs[id].(size := 0, status := Returned, place := Gone)])
  {
  }

  /** In any run: an upload that is removed and closed gives its whole charge back. */
  lemma UploadIsGivenBack(
      limits: Limits, steps: seq<Step>, s: State, channel: Channel, id: Id, removed: State, closed: State, returned: State)
    requires Run(limits, steps) == Some(s) && channel in s.uploads && s.uploads[channel] == id
    requires id < |s.allocs| && s.allocs[id].status.Held?
    requires Then(limits, s, RemoveUpload(channel), removed) && Then(limits, removed, Step.Close(id), closed)
    requires Then(limits, closed, Return(id), returned)
    ensures returned == s.(used := s.used - s.allocs[id].size, uploads := s.uploads - {channel},
      allocs := s.allocs[id := s.allocs[id].(size := 0, status := Returned, place := Gone)])
  {
    RunKeepsInv(limits, steps);
    ChargeIsCounted(limits, s, id);
    ClosedIsGivenBack(limits, removed, id, s.allocs[id].size, closed, returned);
  }

  // ---------- downloads ----------

  /** A download is charged at the most a file may have and starts to run, */
  lemma DownloadIsEntered(limits: Limits, s: State, channel: Channel, begun: State, made: State, placed: State)
    requires 0 < limits.maxFileBytes <= limits.maxBytes - s.used
    requires channel.connection !in s.fileClosed && channel !in s.uploads && channel !in s.downloads
    requires Then(limits, s, RecvInit(channel), begun)
    requires Then(limits, begun, MakeFile(|s.allocs|, true), made) && Then(limits, made, Step.Place(|s.allocs|), placed)
    ensures placed == s.(used := s.used + limits.maxFileBytes, downloads := s.downloads[channel := |s.allocs|],
      allocs := s.allocs + [Alloc(limits.maxFileBytes, Held, InDownloads(channel), true, false, true)])
  {
    var id := |s.allocs|;
    assert begun.allocs[id] == Alloc(limits.maxFileBytes, Held, Making(ForDownload(channel)), true, false, false);
    assert made.allocs == s.allocs + [Alloc(limits.maxFileBytes, Held, Placing(ForDownload(channel)), true, false, false)];
  }

  /** until the file has come and only its own size is charged. */
  lemma DownloadIsSettled(limits: Limits, steps: seq<Step>, s: State, id: Id, actual: nat, settled: State)
    requires Run(limits, steps) == Some(s) && id < |s.allocs| && s.allocs[id].status.Held?
    requires Then(limits, s, FinishRun(id, Some(actual)), settled)
    ensures settled == s.(used := s.used - limits.maxFileBytes + actual,
      allocs := s.allocs[id := s.allocs[id].(size := actual, settled := true, running := false)])
  {
    RunKeepsInv(limits, steps);
    ChargeIsCounted(limits, s, id);
  }

  lemma DownloadIsGivenBack(
      limits: Limits, steps: seq<Step>, s: State, channel: Channel, id: Id, removed: State, closed: State, returned: State)
    requires Run(limits, steps) == Some(s) && channel in s.downloads && s.downloads[channel] == id
    requires id < |s.allocs| && s.allocs[id].status.Held?
    requires Then(limits, s, RemoveDownload(channel), removed) && Then(limits, removed, Step.Close(id), closed)
    requires Then(limits, closed, Return(id), returned)
    ensures returned == s.(used := s.used - s.allocs[id].size, downloads := s.downloads - {channel},
      allocs := s.allocs[id := s.allocs[id].(size := 0, status := Returned, place := Gone)])
  {
    RunKeepsInv(limits, steps);
    ChargeIsCounted(limits, s, id);
    ClosedIsGivenBack(limits, removed, id, s.allocs[id].size, closed, returned);
  }

  // ---------- installs ----------

  /** A channel of an open bridge gets a session, once. */
  lemma SessionIsOpened(limits: Limits, s: State, channel: Channel, next: State)
    requires channel.connection !in s.appClosed && Then(limits, s, GetOrCreate(channel), next)
    ensures if channel in s.appChannels then next == s
      else next == s.(appChannels := s.appChannels[channel := |s.sessions|],
             sessions := s.sessions + [Session(false, false, None, None)])
  {
  }

  /** A package that fits is charged at its size and held by its session, */
  lemma PackageIsHeld(limits: Limits, s: State, session: SessionId, size: nat, checked: State, made: State)
    requires session < |s.sessions| && s.sessions[session] == Session(false, false, None, None)
    requires size <= limits.maxAppBytes && size <= limits.maxBytes - s.used
    requires Then(limits, s, InstallCheck(session, size), checked) && Then(limits, checked, MakeFile(|s.allocs|, true), made)
    ensures made == s.(used := s.used + size,
      sessions := s.sessions[session := Session(false, false, Some(|s.allocs|), None)],
      allocs := s.allocs + [Alloc(size, Held, InTransfer(session), false, false, false)])
  {
    var id := |s.allocs|;
    assert checked.allocs == s.allocs + [Alloc(size, Held, Making(ForSession(session)), false, false, false)];
    assert checked.sessions == s.sessions[session := Session(false, false, None, Some(id))];
    assert checked.allocs[id := checked.allocs[id].(place := InTransfer(session))]
      == s.allocs + [Alloc(size, Held, InTransfer(session), false, false, false)];
    assert checked.sessions[session := Session(false, false, Some(id), None)]
      == s.sessions[session := Session(false, false, Some(id), None)];
  }

  lemma InstallIsHandedOver(
      limits: Limits, s: State, session: SessionId, id: Id, complete: State, finished: State)
    requires session < |s.sessions| && id < |s.allocs| && s.sessions[session] == Session(false, false, Some(id), None)
    requires Then(limits, s, CompleteInstall(session), complete) && Then(limits, complete, FinishInstall(id, true), finished)
    ensures HasAlloc(complete, id, s.allocs[id].(place := InCommand(session)))
    ensures finished == s.(
      sessions := s.sessions[session := Session(false, false, None, None)],
      allocs := s.allocs[id := s.allocs[id].(place := Closing)])
  {
    assert complete.sessions == s.sessions[session := Session(false, true, None, None)];
    assert complete.allocs == s.allocs[id := s.allocs[id].(place := InCommand(session))];
  }

  /** handed over when it is complete, and given back after the install, when the session is free again. */
  lemma InstallIsFinished(
      limits: Limits, steps: seq<Step>, s: State, session: SessionId, id: Id,
      complete: State, finished: State, closed: State, returned: State)
    requires Run(limits, steps) == Some(s) && session < |s.sessions| && id < |s.allocs|
    requires s.sessions[session] == Session(false, false, Some(id), None) && s.allocs[id].status.Held?
    requires Then(limits, s, CompleteInstall(session), complete) && Then(limits, complete, FinishInstall(id, true), finished)
    requires Then(limits, finished, Step.Close(id), closed) && Then(limits, closed, Return(id), returned)
    ensures HasAlloc(complete, id, s.allocs[id].(place := InCommand(session)))
    ensures returned == s.(used := s.used - s.allocs[id].size,
      sessions := s.sessions[session := Session(false, false, None, None)],
      allocs := s.allocs[id := s.allocs[id].(size := 0, status := Returned, place := Gone)])
  {
    RunKeepsInv(limits, steps);
    ChargeIsCounted(limits, s, id);
    InstallIsHandedOver(limits, s, session, id, complete, finished);
    ClosedIsGivenBack(limits, finished, id, s.allocs[id].size, closed, returned);
  }
}
