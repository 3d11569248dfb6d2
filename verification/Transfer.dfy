/** Chunked file transfer of internal/bridge/file.go: the receiver of an upload and the sender of a
    download, which are each other's protocol. */
module Transfer {
  import opened Text
  import opened Varint
  import opened Messages

  const CHUNK := 60 * 1024
  const COMPRESSION_NONE := 0
  const FINISH_ALL := 0

  // ---------- receiving ----------

  datatype Upload = Upload(expected: nat, received: nat, stored: Bytes, started: bool, closed: bool)

  function NewUpload(expected: nat): Upload {
    Upload(expected, 0, [], false, false)
  }

  /** fileUpload.writeChunk: only the next bytes, and no more than were declared. */
  function WriteChunk(u: Upload, index: nat, data: Bytes): Option<Upload> {
    if u.closed || u.started || index != u.received then None
    else if |data| > u.expected - u.received then None
    else Some(u.(received := u.received + |data|, stored := u.stored + data))
  }

  /** prepareTargetTransfer, when sealing and renaming the file succeed. */
  function PrepareTarget(u: Upload): Option<Upload> {
    if u.closed || u.started || u.received != u.expected then None else Some(u.(started := true))
  }

  /** handleFinish on a channel with an upload. */
  function HandleFinish(u: Upload, payload: Bytes, renamed: bool): (Upload, bool) {
    if |payload| != 1 || payload[0] != FINISH_ALL then (u.(closed := true), false)
    else
      match PrepareTarget(u)
      case Some(next) => if renamed then (next, true) else (u.(closed := true), false)
      case None => (u.(closed := true), false)
  }

  datatype Reply = Silent | FinishCurrentFile | Refused

  function SizeLimit(maxFileBytes: nat): nat {
    if maxFileBytes < U32 - 1 then maxFileBytes else U32 - 1
  }

  /** handleData on a channel with an upload: a refused chunk closes it. */
  function HandleData(u: Upload, payload: Bytes, maxFileBytes: nat): (Upload, Reply) {
    match DecodeTransferData(payload, SizeLimit(maxFileBytes))
    case None => (u.(closed := true), Refused)
    case Some((header, data)) =>
      if header.compression != COMPRESSION_NONE then (u.(closed := true), Refused)
      else if header.compressedSize != header.uncompressedSize then (u.(closed := true), Refused)
      else
        match WriteChunk(u, header.index, data)
        case None => (u.(closed := true), Refused)
        case Some(next) => (next, if next.received == next.expected then FinishCurrentFile else Silent)
  }

  /** The same on a disk that takes only so many bytes: a chunk that would be accepted but is cut short is
      refused, and what was written of it stays in the file. */
  function HandleDataOn(u: Upload, payload: Bytes, maxFileBytes: nat, taken: nat): (Upload, Reply) {
    var (next, reply) := HandleData(u, payload, maxFileBytes);
    if reply.Refused? || next.received - u.received <= taken then (next, reply)
    else (u.(closed := true, stored := next.stored[..|u.stored| + taken]), Refused)
  }

  /** What a list of frames, or of anything else that is handled one by one, does to an upload. */
  function Receive<F>(u: Upload, frames: seq<F>, handle: (Upload, F) -> (Upload, Reply)): (Upload, seq<Reply>)
    decreases |frames|
  {
    if |frames| == 0 then (u, [])
    else
      var (next, reply) := handle(u, frames[0]);
      var (end, replies) := Receive(next, frames[1..], handle);
      (end, [reply] + replies)
  }

  function FrameHandler(maxFileBytes: nat): (Upload, Bytes) -> (Upload, Reply) {
    (u, frame) => HandleData(u, frame, maxFileBytes)
  }

  /** The upload as it is: its fields, and the bytes of its temporary file. */
  class FileUpload {
    const expectedSize: nat
    var receivedSize: nat
    var file: Bytes
    var fileOpen: bool
    var transferStarted: bool
    var closed: bool

    constructor (expectedSize: nat)
      ensures Value() == NewUpload(expectedSize) && fileOpen && Valid()
    {
      this.expectedSize := expectedSize;
      receivedSize, file, fileOpen, transferStarted, closed := 0, [], true, false, false;
    }

    function Value(): Upload
      reads this
    {
      Upload(expectedSize, receivedSize, file, transferStarted, closed)
    }

    predicate Bounded()
      reads this
    {
      && receivedSize <= |file| && receivedSize <= expectedSize
      && (transferStarted ==> receivedSize == |file| == expectedSize && !fileOpen)
    }

    /** Until it is closed the file is the bytes received so far, and stays open for more until it is
        handed on. */
    predicate Valid()
      reads this
    {
      && Bounded()
      && (!closed ==> receivedSize == |file|)
      && (!closed && !transferStarted ==> fileOpen)
    }

    method Close()
      requires Bounded()
      modifies this
      ensures Valid() && Value() == old(Value()).(closed := true)
    {
      closed, fileOpen := true, false;
    }

    /** writeChunk, on a disk that takes only so many bytes at a time. */
    method Write(index: nat, data: Bytes, taken: nat) returns (complete: bool, ok: bool)
      requires Valid()
      modifies this
      ensures Bounded() && (ok ==> Valid())
      ensures match WriteChunk(old(Value()), index, data)
        case Some(next) =>
          if |data| <= taken then ok && Value() == next && (complete <==> next.received == next.expected)
          else !ok && !complete && Value() == old(Value()).(stored := next.stored[..|old(file)| + taken])
        case None => !ok && !complete && Value() == old(Value())
    {
      if closed || transferStarted || index != receivedSize { return false, false; }
      if |data| > expectedSize - receivedSize { return false, false; }
      var written := if |data| <= taken then |data| else taken;
      assert (file + data)[..|file| + written] == file + data[..written];
      file := file + data[..written];
      if written != |data| { return false, false; }
      assert data[..written] == data;
      receivedSize := receivedSize + written;
      return receivedSize == expectedSize, true;
    }

    /** prepareTargetTransfer, with renamed telling whether the file could be given its name. */
    method Prepare(renamed: bool) returns (ok: bool)
      requires Valid()
      modifies this
      ensures Bounded()
      ensures ok <==> PrepareTarget(old(Value())).Some? && renamed
      ensures ok ==> Valid() && PrepareTarget(old(Value())) == Some(Value())
      ensures !ok ==> Value() == old(Value())
    {
      if closed || transferStarted || receivedSize != expectedSize { return false; }
      fileOpen := false;
      if !renamed { return false; }
      transferStarted := true;
      ok := true;
    }

    /** handleFinish: a finish that is refused closes the upload. */
    method Finish(payload: Bytes, renamed: bool) returns (ok: bool)
      requires Valid()
      modifies this
      ensures Valid() && (Value(), ok) == HandleFinish(old(Value()), payload, renamed)
    {
      if |payload| != 1 || payload[0] != FINISH_ALL {
        Close();
        return false;
      }
      ok := Prepare(renamed);
      if !ok {
        closed, fileOpen := true, false;
      }
    }

    method Handle(payload: Bytes, maxFileBytes: nat, taken: nat) returns (reply: Reply)
      requires Valid()
      modifies this
      ensures Valid() && (Value(), reply) == HandleDataOn(old(Value()), payload, maxFileBytes, taken)
    {
      match DecodeTransferData(payload, SizeLimit(maxFileBytes))
      case None =>
        Close();
        return Refused;
      case Some((header, data)) =>
        if header.compression != COMPRESSION_NONE || header.compressedSize != header.uncompressedSize {
          Close();
          return Refused;
        }
        var complete, ok := Write(header.index, data, taken);
        if !ok {
          Close();
          return Refused;
        }
        reply := if complete then FinishCurrentFile else Silent;
    }
  }

  // ---------- sending ----------

  /** A piece of the file and where it starts. */
  datatype Chunk = Chunk(index: nat, data: Bytes)

  function Encode(chunk: Chunk): Option<Bytes> {
    EncodeTransferData(TransferPayload(chunk.index, COMPRESSION_NONE, |chunk.data|, |chunk.data|), chunk.data)
  }

  /** A file is read in pieces: what each Read returned, in order.  A Read may return any number of
      bytes up to the buffer, none included. */
  predicate ReadsOf(content: Bytes, pieces: seq<Bytes>) {
    && Joined(pieces) == content
    && forall piece <- pieces :: |piece| <= 61440
  }

  function Joined(pieces: seq<Bytes>): Bytes {
    if |pieces| == 0 then [] else pieces[0] + Joined(pieces[1..])
  }

  function ChunkOf(index: nat, piece: Bytes): seq<Chunk> {
    if |piece| == 0 then [] else [Chunk(index, piece)]
  }

  /** One chunk for every piece that is not empty. */
  function Chunks(index: nat, pieces: seq<Bytes>): seq<Chunk>
    decreases |pieces|
  {
    if |pieces| == 0 then []
    else ChunkOf(index, pieces[0]) + Chunks(index + |pieces[0]|, pieces[1..])
  }

  ghost predicate Carry<F>(frames: seq<F>, chunks: seq<Chunk>, encode: Chunk -> Option<F>) {
    |frames| == |chunks| && forall i | 0 <= i < |chunks| :: encode(chunks[i]) == Some(frames[i])
  }

  lemma ConcatAssociates<T>(a: seq<T>, b: seq<T>, c: seq<T>)
    ensures (a + b) + c == a + (b + c)
  {
  }

  lemma {:induction false} ChunksSnoc(index: nat, pieces: seq<Bytes>, piece: Bytes)
    ensures Chunks(index, pieces + [piece]) == Chunks(index, pieces) + ChunkOf(index + |Joined(pieces)|, piece)
    ensures |Joined(pieces + [piece])| == |Joined(pieces)| + |piece|
    decreases |pieces|
  {
    if |pieces| == 0 {
      assert (pieces + [piece])[1..] == [];
    } else {
      var next := index + |pieces[0]|;
      assert (pieces + [piece])[1..] == pieces[1..] + [piece];
      ChunksSnoc(next, pieces[1..], piece);
      ConcatAssociates(ChunkOf(index, pieces[0]), Chunks(next, pieces[1..]), ChunkOf(index + |Joined(pieces)|, piece));
    }
  }

  /** The loop of sendDownloadData, on a connection that stays open: one encoded frame a chunk. */
  method SendPieces(pieces: seq<Bytes>, encode: Chunk -> Option<Bytes>) returns (frames: seq<Bytes>, ok: bool)
    ensures ok ==> Carry(frames, Chunks(0, pieces), encode)
    ensures !ok ==> exists chunk <- Chunks(0, pieces) :: encode(chunk).None?
  {
    frames, ok := [], true;
    var index: nat := 0;
    for i := 0 to |pieces|
      invariant index == |Joined(pieces[..i])|
      invariant Carry(frames, Chunks(0, pieces[..i]), encode)
      invariant Chunks(0, pieces[..i]) <= Chunks(0, pieces)
    {
      ChunksSnoc(0, pieces[..i], pieces[i]);
      assert pieces[..i + 1] == pieces[..i] + [pieces[i]];
      ChunksPrefix(0, pieces, i + 1);
      if |pieces[i]| > 0 {
        var frame := encode(Chunk(index, pieces[i]));
        if frame.None? {
          assert Chunks(0, pieces)[|frames|] == Chunk(index, pieces[i]);
          return frames, false;
        }
        frames, index := frames + [frame.value], index + |pieces[i]|;
      }
    }
    assert pieces[..|pieces|] == pieces;
  }

  lemma {:induction false} ChunksPrefix(index: nat, pieces: seq<Bytes>, k: nat)
    requires k <= |pieces|
    ensures Chunks(index, pieces[..k]) <= Chunks(index, pieces)
    decreases |pieces|
  {
    if k == 0 {
      assert pieces[..0] == [];
    } else {
      assert pieces[..k][1..] == pieces[1..][..k - 1];
      ChunksPrefix(index + |pieces[0]|, pieces[1..], k - 1);
    }
  }

  // ---------- chunks ----------

  function HandleChunk(u: Upload, chunk: Chunk): (Upload, Reply) {
    match WriteChunk(u, chunk.index, chunk.data)
    case None => (u.(closed := true), Refused)
    case Some(next) => (next, if next.received == next.expected then FinishCurrentFile else Silent)
  }

  /** Chunks of some content: the next bytes, one after the other, to the end. */
  ghost predicate Tile(content: Bytes, index: nat, chunks: seq<Chunk>)
    decreases |chunks|
  {
    if |chunks| == 0 then index == |content|
    else
      && chunks[0].index == index && 0 < |chunks[0].data| <= CHUNK
      && index + |chunks[0].data| <= |content|
      && chunks[0].data == content[index..index + |chunks[0].data|]
      && Tile(content, index + |chunks[0].data|, chunks[1..])
  }

  lemma NextPiece(content: Bytes, index: nat, pieces: seq<Bytes>)
    requires index <= |content| && content[index..] == Joined(pieces) && |pieces| > 0
    ensures var next := index + |pieces[0]|;
      next <= |content| && content[next..] == Joined(pieces[1..]) && content[index..next] == pieces[0]
  {
    var piece, rest := pieces[0], Joined(pieces[1..]);
    var next := index + |piece|;
    assert content[index..] == piece + rest;
    assert |content| == index + |piece| + |rest|;
    assert content[next..] == content[index..][|piece|..];
    assert content[index..next] == content[index..][..|piece|];
  }

  lemma FirstChunk(index: nat, pieces: seq<Bytes>)
    requires |pieces| > 0
    ensures var chunks, rest := Chunks(index, pieces), Chunks(index + |pieces[0]|, pieces[1..]);
      if |pieces[0]| == 0 then chunks == rest
      else |chunks| > 0 && chunks[0] == Chunk(index, pieces[0]) && chunks[1..] == rest
  {
  }

  lemma {:induction false} ChunksTile(content: Bytes, index: nat, pieces: seq<Bytes>)
    requires index <= |content| && content[index..] == Joined(pieces)
    requires forall piece <- pieces :: |piece| <= 61440
    ensures Tile(content, index, Chunks(index, pieces))
    decreases |pieces|
  {
    if |pieces| > 0 {
      var piece, next := pieces[0], index + |pieces[0]|;
      assert piece in pieces;
      NextPiece(content, index, pieces);
      ChunksTile(content, next, pieces[1..]);
      FirstChunk(index, pieces);
    }
  }

  /** The upload of some content when its first bytes have arrived. */
  function At(content: Bytes, received: nat): Upload
    requires received <= |content|
  {
    Upload(|content|, received, content[..received], false, false)
  }

  function Replies(count: nat, total: nat): seq<Reply> {
    seq(count, i requires 0 <= i < count => if i == total - 1 then FinishCurrentFile else Silent)
  }

  /** Where the k-th chunk starts, or the content ends. */
  function Start(content: Bytes, chunks: seq<Chunk>, k: nat): nat
    requires k <= |chunks|
  {
    if k < |chunks| then chunks[k].index else |content|
  }

  lemma {:induction false} StartsRise(content: Bytes, index: nat, chunks: seq<Chunk>, j: nat, k: nat)
    requires Tile(content, index, chunks) && j <= k <= |chunks|
    ensures index <= Start(content, chunks, j) <= Start(content, chunks, k) <= |content|
    ensures j < k ==> Start(content, chunks, j) < Start(content, chunks, k)
    decreases |chunks|
  {
    if |chunks| > 0 {
      var next := index + |chunks[0].data|;
      StartsRise(content, next, chunks[1..], if j > 0 then j - 1 else 0, if k > 0 then k - 1 else 0);
    }
  }

  lemma {:induction false} ReceivePrefix(content: Bytes, index: nat, chunks: seq<Chunk>, k: nat)
    requires Tile(content, index, chunks) && index <= |content| && k <= |chunks|
    ensures Start(content, chunks, k) <= |content|
    ensures Receive(At(content, index), chunks[..k], HandleChunk)
      == (At(content, Start(content, chunks, k)), Replies(k, |chunks|))
    decreases |chunks|
  {
    if k == 0 {
      assert chunks[..0] == [] && Replies(0, |chunks|) == [];
    } else {
      var next := index + |chunks[0].data|;
      assert content[..index] + content[index..next] == content[..next];
      assert chunks[..k][0] == chunks[0] && chunks[..k][1..] == chunks[1..][..k - 1];
      StartsRise(content, next, chunks[1..], 0, |chunks| - 1);
      ReceivePrefix(content, next, chunks[1..], k - 1);
      var first := if |chunks| == 1 then FinishCurrentFile else Silent;
      assert HandleChunk(At(content, index), chunks[0]) == (At(content, next), first);
      assert Replies(k, |chunks|) == [first] + Replies(k - 1, |chunks| - 1);
    }
  }

  // ---------- frames ----------

  /** A handler that treats every frame as it would treat its chunk treats lists of them alike. */
  lemma {:induction false} ReceiveCarried<F(!new)>(
      u: Upload, frames: seq<F>, chunks: seq<Chunk>, encode: Chunk -> Option<F>, handle: (Upload, F) -> (Upload, Reply))
    requires Carry(frames, chunks, encode)
    requires forall v, i | 0 <= i < |chunks| :: handle(v, frames[i]) == HandleChunk(v, chunks[i])
    ensures Receive(u, frames, handle) == Receive(u, chunks, HandleChunk)
    decreases |chunks|
  {
    if |chunks| > 0 {
      ReceiveCarried(handle(u, frames[0]).0, frames[1..], chunks[1..], encode, handle);
    }
  }

  /** A chunk's frame is accepted exactly when the chunk is. */
  lemma FrameIsChunk(u: Upload, chunk: Chunk, maxFileBytes: nat)
    requires 0 < |chunk.data| <= CHUNK && |chunk.data| <= maxFileBytes && chunk.index < U64
    ensures Encode(chunk).Some? && HandleData(u, Encode(chunk).value, maxFileBytes) == HandleChunk(u, chunk)
  {
    DataRoundTrip(TransferPayload(chunk.index, COMPRESSION_NONE, |chunk.data|, |chunk.data|), chunk.data, SizeLimit(maxFileBytes));
  }

  lemma {:induction false} TileBounds(content: Bytes, index: nat, chunks: seq<Chunk>, k: nat)
    requires Tile(content, index, chunks) && k < |chunks|
    ensures 0 < |chunks[k].data| <= CHUNK && chunks[k].index + |chunks[k].data| <= |content|
    decreases |chunks|
  {
    if k > 0 { TileBounds(content, index + |chunks[0].data|, chunks[1..], k - 1); }
  }

  lemma FramesHandled(content: Bytes, chunks: seq<Chunk>, frames: seq<Bytes>, maxFileBytes: nat)
    requires Tile(content, 0, chunks) && |content| <= maxFileBytes < U64 && Carry(frames, chunks, Encode)
    ensures forall v, i | 0 <= i < |chunks| :: FrameHandler(maxFileBytes)(v, frames[i]) == HandleChunk(v, chunks[i])
  {
    forall v, i | 0 <= i < |chunks|
      ensures FrameHandler(maxFileBytes)(v, frames[i]) == HandleChunk(v, chunks[i])
    {
      TileBounds(content, 0, chunks, i);
      FrameIsChunk(v, chunks[i], maxFileBytes);
    }
  }

  lemma NothingFailsToEncode(content: Bytes, pieces: seq<Bytes>)
    requires ReadsOf(content, pieces) && |content| < U64
    ensures forall chunk <- Chunks(0, pieces) :: Encode(chunk).Some?
  {
    assert content[0..] == content;
    ChunksTile(content, 0, pieces);
    forall chunk | chunk in Chunks(0, pieces) ensures Encode(chunk).Some? {
      var i :| 0 <= i < |Chunks(0, pieces)| && Chunks(0, pieces)[i] == chunk;
      TileBounds(content, 0, Chunks(0, pieces), i);
      FrameIsChunk(NewUpload(0), chunk, |chunk.data|);
    }
  }

  lemma ReceiveFrames(content: Bytes, chunks: seq<Chunk>, frames: seq<Bytes>, k: nat, maxFileBytes: nat)
    requires Tile(content, 0, chunks) && |content| <= maxFileBytes < U64 && Carry(frames, chunks, Encode)
    requires k <= |frames|
    ensures Start(content, chunks, k) <= |content|
    ensures Receive(At(content, 0), frames[..k], FrameHandler(maxFileBytes))
      == (At(content, Start(content, chunks, k)), Replies(k, |chunks|))
  {
    FramesHandled(content, chunks, frames, maxFileBytes);
    ReceivePrefix(content, 0, chunks, k);
    ReceiveCarried(At(content, 0), frames[..k], chunks[..k], Encode, FrameHandler(maxFileBytes));
  }

  /** sendDownloadData: no frame is ever too large to encode. */
  method SendDownloadData(content: Bytes, pieces: seq<Bytes>) returns (frames: seq<Bytes>)
    requires ReadsOf(content, pieces) && |content| < U64
    ensures Carry(frames, Chunks(0, pieces), Encode)
  {
    NothingFailsToEncode(content, pieces);
    var ok;
    frames, ok := SendPieces(pieces, Encode);
  }

  /** However a file is read, its frames are accepted one after the other, the receiver holds a prefix
      of it that grows with each, and it reports completion exactly on the last, when it has it all. */
  lemma TransferIsIdentity(content: Bytes, pieces: seq<Bytes>, frames: seq<Bytes>, k: nat, maxFileBytes: nat)
    requires 0 < |content| <= maxFileBytes < U64 && ReadsOf(content, pieces)
    requires Carry(frames, Chunks(0, pieces), Encode) && k <= |frames|
    ensures var (u, replies) := Receive(NewUpload(|content|), frames[..k], FrameHandler(maxFileBytes));
      && u.received <= |content| && u == At(content, u.received)
      && u.received == Start(content, Chunks(0, pieces), k)
      && (k == |frames| <==> u.stored == content)
      && replies == Replies(k, |frames|)
  {
    assert content[0..] == content && content[..0] == [];
    ChunksTile(content, 0, pieces);
    var chunks := Chunks(0, pieces);
    ReceiveFrames(content, chunks, frames, k, maxFileBytes);
    StartsRise(content, 0, chunks, k, |chunks|);
    assert content[..|content|] == content;
  }

  /** After some frames only the next one is accepted: an earlier one, a repeated one or a later one
      is refused and closes the upload. */
  lemma OnlyTheNextFrame(content: Bytes, pieces: seq<Bytes>, frames: seq<Bytes>, j: nat, k: nat, maxFileBytes: nat)
    requires 0 < |content| <= maxFileBytes < U64 && ReadsOf(content, pieces)
    requires Carry(frames, Chunks(0, pieces), Encode) && j <= |frames| && k < |frames| && k != j
    ensures var u := Receive(NewUpload(|content|), frames[..j], FrameHandler(maxFileBytes)).0;
      HandleData(u, frames[k], maxFileBytes) == (u.(closed := true), Refused)
  {
    assert content[0..] == content && content[..0] == [];
    ChunksTile(content, 0, pieces);
    var chunks := Chunks(0, pieces);
    ReceiveFrames(content, chunks, frames, j, maxFileBytes);
    FramesHandled(content, chunks, frames, maxFileBytes);
    var u := Receive(At(content, 0), frames[..j], FrameHandler(maxFileBytes)).0;
    assert FrameHandler(maxFileBytes)(u, frames[k]) == HandleChunk(u, chunks[k]);
    if j < k { StartsRise(content, 0, chunks, j, k); } else { StartsRise(content, 0, chunks, k, j); }
  }

  /** A chunk that would take the upload past its declared size is refused wherever it comes. */
  lemma OverlongIsRefused(u: Upload, chunk: Chunk, maxFileBytes: nat)
    requires 0 < |chunk.data| <= CHUNK && |chunk.data| <= maxFileBytes && chunk.index < U64
    requires u.received + |chunk.data| > u.expected
    ensures Encode(chunk).Some? && HandleData(u, Encode(chunk).value, maxFileBytes) == (u.(closed := true), Refused)
  {
    FrameIsChunk(u, chunk, maxFileBytes);
  }

  // ---------- what is handed on ----------

  /** What a client may send on a channel with an upload, and what the disk does about it. */
  datatype Input = Data(payload: Bytes, taken: nat) | Finish(payload: Bytes, renamed: bool)

  function HandleInput(u: Upload, input: Input, maxFileBytes: nat): Upload {
    match input
    case Data(payload, taken) => HandleDataOn(u, payload, maxFileBytes, taken).0
    case Finish(payload, renamed) => HandleFinish(u, payload, renamed).0
  }

  function HandleInputs(u: Upload, inputs: seq<Input>, maxFileBytes: nat): Upload
    decreases |inputs|
  {
    if |inputs| == 0 then u else HandleInputs(HandleInput(u, inputs[0], maxFileBytes), inputs[1..], maxFileBytes)
  }

  /** The files that are handed on to a device, in order. */
  function HandedOn(u: Upload, inputs: seq<Input>, maxFileBytes: nat): seq<Bytes>
    decreases |inputs|
  {
    if |inputs| == 0 then []
    else
      (if inputs[0].Finish? && HandleFinish(u, inputs[0].payload, inputs[0].renamed).1 then [u.stored] else [])
      + HandedOn(HandleInput(u, inputs[0], maxFileBytes), inputs[1..], maxFileBytes)
  }

  /** An upload that is closed or handed on takes nothing more. */
  lemma {:induction false} OverIsOver(u: Upload, inputs: seq<Input>, maxFileBytes: nat)
    requires u.closed || u.started
    ensures HandedOn(u, inputs, maxFileBytes) == [] && HandleInputs(u, inputs, maxFileBytes).stored == u.stored
    decreases |inputs|
  {
    if |inputs| > 0 { OverIsOver(HandleInput(u, inputs[0], maxFileBytes), inputs[1..], maxFileBytes); }
  }

  lemma {:induction false} HandedOnWhole(u: Upload, inputs: seq<Input>, maxFileBytes: nat)
    requires !u.closed && !u.started && |u.stored| == u.received <= u.expected
    ensures |HandedOn(u, inputs, maxFileBytes)| <= 1
    ensures forall file <- HandedOn(u, inputs, maxFileBytes) ::
      |file| == u.expected && u.stored <= file && HandleInputs(u, inputs, maxFileBytes).stored == file
    decreases |inputs|
  {
    if |inputs| > 0 {
      var next := HandleInput(u, inputs[0], maxFileBytes);
      if next.closed || next.started {
        OverIsOver(next, inputs[1..], maxFileBytes);
      } else {
        HandedOnWhole(next, inputs[1..], maxFileBytes);
      }
    }
  }

  /** Whatever a client sends, at most one file is handed on; it has exactly the declared size, and nothing
      that is sent afterwards changes it. */
  lemma OnlyWholeFilesAreHandedOn(expected: nat, inputs: seq<Input>, maxFileBytes: nat)
    ensures var files := HandedOn(NewUpload(expected), inputs, maxFileBytes);
      && |files| <= 1
      && forall file <- files :: |file| == expected && HandleInputs(NewUpload(expected), inputs, maxFileBytes).stored == file
  {
    HandedOnWhole(NewUpload(expected), inputs, maxFileBytes);
  }

  /** The frames of a download, on a disk that takes them. */
  function Arriving(frames: seq<Bytes>): (inputs: seq<Input>)
    ensures |inputs| == |frames| && forall i | 0 <= i < |frames| :: inputs[i] == Data(frames[i], |frames[i]|)
  {
    seq(|frames|, i requires 0 <= i < |frames| => Data(frames[i], |frames[i]|))
  }

  lemma {:induction false} ArrivingIsReceived(u: Upload, frames: seq<Bytes>, more: seq<Input>, maxFileBytes: nat)
    ensures var end := Receive(u, frames, FrameHandler(maxFileBytes)).0;
      HandedOn(u, Arriving(frames) + more, maxFileBytes) == HandedOn(end, more, maxFileBytes)
    decreases |frames|
  {
    var inputs := Arriving(frames) + more;
    if |frames| == 0 {
      assert inputs == more;
    } else {
      assert inputs[1..] == Arriving(frames[1..]) + more;
      ArrivingIsReceived(HandleData(u, frames[0], maxFileBytes).0, frames[1..], more, maxFileBytes);
    }
  }

  /** A file that is downloaded, however it is read, and sent on as an upload of its size is what is handed
      on when the finish frame comes. */
  lemma WholeFileIsHandedOn(content: Bytes, pieces: seq<Bytes>, frames: seq<Bytes>, maxFileBytes: nat)
    requires 0 < |content| <= maxFileBytes < U64 && ReadsOf(content, pieces)
    requires Carry(frames, Chunks(0, pieces), Encode)
    ensures HandedOn(NewUpload(|content|), Arriving(frames) + [Finish([0x00], true)], maxFileBytes) == [content]
  {
    var end := Receive(NewUpload(|content|), frames, FrameHandler(maxFileBytes)).0;
    assert frames[..|frames|] == frames;
    TransferIsIdentity(content, pieces, frames, |frames|, maxFileBytes);
    ArrivingIsReceived(NewUpload(|content|), frames, [Finish([0x00], true)], maxFileBytes);
    assert HandedOn(end, [Finish([0x00], true)], maxFileBytes) == [content];
  }

  // ---------- a data frame, in numerals ----------

  /** What the sender puts in front of a piece: its offset, no compression, its length twice, and zeros up to
      64 bytes. */
  lemma ChunkLayout(chunk: Chunk)
    requires chunk.index < 0x1_0000_0000_0000_0000 && |chunk.data| < 0x1_0000_0000
    ensures var header := ([0x08] + AppendUvarint(chunk.index)) + [0x10, 0x00]
        + ([0x18] + AppendUvarint(|chunk.data|)) + ([0x20] + AppendUvarint(|chunk.data|));
      |header| <= 26 && Encode(chunk) == Some(header + Zeros(64 - |header|) + chunk.data)
  {
    var header := TransferPayload(chunk.index, 0, |chunk.data|, |chunk.data|);
    HeaderFits(header);
    PayloadLayout(header);
    assert [0x10] + AppendUvarint(0) == [0x10, 0x00];
  }

  /** What makes a data frame acceptable to an upload. */
  predicate AcceptableData(u: Upload, header: TransferPayload, maxFileBytes: nat) {
    && header.compression == 0 && header.compressedSize == header.uncompressedSize
    && header.uncompressedSize <= maxFileBytes && header.uncompressedSize <= 0xffff_ffff
    && !u.closed && !u.started && header.index == u.received && u.received + header.compressedSize <= u.expected
  }

  /** A data frame is stored behind what is there exactly when it is acceptable, and otherwise closes the
      upload; and it is answered when it was the last. */
  lemma DataFrameDecides(u: Upload, header: TransferPayload, data: Bytes, maxFileBytes: nat)
    requires header.InRange() && |data| == header.compressedSize && u.received <= u.expected
    ensures EncodeTransferData(header, data).Some?
    ensures HandleData(u, EncodeTransferData(header, data).value, maxFileBytes)
      == if AcceptableData(u, header, maxFileBytes) then
           (u.(received := u.received + |data|, stored := u.stored + data),
            if u.received + |data| == u.expected then FinishCurrentFile else Silent)
         else (u.(closed := true), Refused)
  {
    DataRoundTrip(header, data, SizeLimit(maxFileBytes));
  }
}
