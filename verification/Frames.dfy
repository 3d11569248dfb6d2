/** Daemon frames: ReadFrame, Decode and EncodeFrame of internal/protocol/daemon.go. */
module Frames {
  import opened Text
  import opened Varint
  import opened Fields
  import Messages

  const HEADER := 11
  const VCODE := 9
  const VERSION := 1

  // ---------- the protect section ----------

  /** command is None until its field is seen. */
  datatype Protect = Protect(channelId: nat, command: Option<nat>, checksum: nat, vcode: nat)
  {
    predicate InRange() {
      channelId < U32 && (command.Some? ==> command.value < U32) && checksum < U8 && vcode < U8
    }
  }

  function ProtectNumber(p: Protect, number: nat, value: nat): Protect {
    match number
    case 1 => p.(channelId := value)
    case 2 => p.(command := Some(value))
    case 3 => p.(checksum := value)
    case 4 => p.(vcode := value)
    case _ => p
  }

  function ProtectString(p: Protect, number: nat, value: Bytes): Protect {
    p
  }

  /** An unseen command has no field: a string at its number is skipped like any other. */
  function ProtectField(p: Protect, number: nat): Field {
    match number
    case 1 => VarintField(1, p.channelId)
    case 2 => if p.command.Some? then VarintField(2, p.command.value) else StringField(2, [])
    case 3 => VarintField(3, p.checksum)
    case _ => VarintField(4, p.vcode)
  }

  /** The one lenient message: anything that is not a varint is skipped. */
  const PROTECT := Schema(Protect(0, None, 0, 0), false, false,
    map[1 := U32, 2 := U32, 3 := U8, 4 := U8], {}, ProtectNumber, ProtectString, ProtectField)

  lemma ProtectKnown(number: nat)
    ensures PROTECT.Known(number) <==> 1 <= number <= 4
  {
  }

  lemma ProtectLawful()
    ensures Lawful(PROTECT)
  {
    forall a, b | Agree(PROTECT, a, b) ensures a == b {
      assert PROTECT.get(a, 1) == PROTECT.get(b, 1) && PROTECT.get(a, 2) == PROTECT.get(b, 2);
      assert PROTECT.get(a, 3) == PROTECT.get(b, 3) && PROTECT.get(a, 4) == PROTECT.get(b, 4);
    }
  }

  /** The protect section that goes in front of a payload. */
  function ProtectBytes(channelId: nat, command: nat, checksum: nat, vcode: nat): Bytes {
    ([0x08] + AppendUvarint(channelId)) + ([0x10] + AppendUvarint(command))
    + ([0x18] + AppendUvarint(checksum)) + ([0x20] + AppendUvarint(vcode))
  }

  lemma ProtectLayout(channelId: nat, command: nat, checksum: nat, vcode: nat)
    ensures PROTECT.Encoded(4, Protect(channelId, Some(command), checksum, vcode))
      == ProtectBytes(channelId, command, checksum, vcode)
  {
    Messages.Keys();
    var p := Protect(channelId, Some(command), checksum, vcode);
    assert PROTECT.Encoded(1, p) == [0x08] + AppendUvarint(channelId);
    assert PROTECT.Encoded(2, p) == PROTECT.Encoded(1, p) + ([0x10] + AppendUvarint(command));
    assert PROTECT.Encoded(3, p) == PROTECT.Encoded(2, p) + ([0x18] + AppendUvarint(checksum));
    assert PROTECT.Encoded(4, p) == PROTECT.Encoded(3, p) + ([0x20] + AppendUvarint(vcode));
  }

  method EncodeProtect(channelId: nat, command: nat, checksum: nat) returns (r: Bytes)
    ensures r == PROTECT.Encoded(4, Protect(channelId, Some(command), checksum, VCODE))
    ensures r == ProtectBytes(channelId, command, checksum, 0x09)
  {
    ProtectLayout(channelId, command, checksum, 0x09);
    ghost var p := Protect(channelId, Some(command), checksum, VCODE);
    r := Messages.AppendVarintField([], 1, channelId, PROTECT, p);
    r := Messages.AppendVarintField(r, 2, command, PROTECT, p);
    r := Messages.AppendVarintField(r, 3, checksum, PROTECT, p);
    r := Messages.AppendVarintField(r, 4, VCODE, PROTECT, p);
  }

  function DecodeProtect(s: Bytes): Option<Protect> {
    match PROTECT.Decode(s)
    case Some(p) => if p.command.Some? then Some(p) else None
    case None => None
  }

  lemma DecodedProtectInRange(s: Bytes)
    ensures DecodeProtect(s).Some? ==> DecodeProtect(s).value.InRange()
  {
    DecodeKeeps(PROTECT, (p: Protect) => p.InRange(), s, PROTECT.empty);
  }

  lemma ProtectRoundTrip(p: Protect)
    requires p.InRange() && p.command.Some?
    ensures DecodeProtect(PROTECT.Encoded(4, p)) == Some(p)
  {
    ProtectLawful();
    forall number: nat ensures PROTECT.Known(number) <==> 1 <= number <= 4 { ProtectKnown(number); }
    EncodedDecodes(PROTECT, 4, p, []);
    assert PROTECT.Encoded(4, p) + [] == PROTECT.Encoded(4, p);
  }

  /** At most 18 bytes, and 16 with the checksum 0 and the vcode an encoder writes: far below what
      the uint16 in the header can say. */
  lemma ProtectFits(p: Protect)
    requires p.InRange() && p.command.Some?
    ensures 0 < |PROTECT.Encoded(4, p)| <= 18
    ensures p.checksum < 128 && p.vcode < 128 ==> |PROTECT.Encoded(4, p)| <= 16
  {
    UvarintLengths(p.channelId);
    UvarintLengths(p.command.value);
    UvarintLengths(p.checksum);
    UvarintLengths(p.vcode);
    UvarintLengths(8);
    UvarintLengths(16);
    UvarintLengths(24);
    UvarintLengths(32);
    assert 0 < |PROTECT.Encoded(1, p)| <= 6;
    assert |PROTECT.Encoded(2, p)| <= 12;
    assert |PROTECT.Encoded(3, p)| <= 15 && (p.checksum < 128 ==> |PROTECT.Encoded(3, p)| <= 14);
  }

  // ---------- header ----------

  /** Big-endian, truncated to the width as the conversions to uint16 and uint32 do. */
  function Put16(n: nat): Bytes {
    [n / 0x100 % 0x100, n % 0x100]
  }

  function Put32(n: nat): Bytes {
    Put16(n / U16) + Put16(n)
  }

  function Get16(s: Bytes): nat
    requires |s| == 2
  {
    var high: nat, low: nat := s[0], s[1];
    high * 0x100 + low
  }

  function Get32(s: Bytes): nat
    requires |s| == 4
  {
    Get16(s[..2]) * U16 + Get16(s[2..])
  }

  lemma Put16Gets(n: nat)
    ensures Get16(Put16(n)) == n % U16
  {
  }

  lemma Put32Gets(n: nat)
    requires n < U32
    ensures Get32(Put32(n)) == n
  {
    assert Put32(n)[..2] == Put16(n / U16) && Put32(n)[2..] == Put16(n);
    Put16Gets(n / U16);
    Put16Gets(n);
  }

  function EncodeHeader(protectSize: nat, payloadSize: nat): Bytes {
    ['H' as int, 'W' as int, 0, 0, VERSION] + Put16(protectSize) + Put32(payloadSize)
  }

  datatype Sizes = Sizes(protect: nat, payload: nat)

  /** decodeFrameHeader. */
  function DecodeHeader(header: Bytes): Option<Sizes> {
    if |header| != HEADER || header[0] != 'H' as int || header[1] != 'W' as int then None
    else if header[2] != 0 || header[3] != 0 then None
    else if header[4] != VERSION then None
    else
      var sizes := Sizes(Get16(header[5..7]), Get32(header[7..11]));
      if sizes.protect == 0 then None else Some(sizes)
  }

  lemma HeaderRoundTrip(protectSize: nat, payloadSize: nat)
    requires 0 < protectSize < U16 && payloadSize < U32
    ensures |EncodeHeader(protectSize, payloadSize)| == HEADER
    ensures DecodeHeader(EncodeHeader(protectSize, payloadSize)) == Some(Sizes(protectSize, payloadSize))
  {
    var header := EncodeHeader(protectSize, payloadSize);
    assert header[5..7] == Put16(protectSize) && header[7..11] == Put32(payloadSize);
    Put16Gets(protectSize);
    Put32Gets(payloadSize);
  }

  // ---------- frames ----------

  datatype Frame = Frame(channelId: nat, command: nat, checksum: nat, vcode: nat, payload: Bytes)

  /** A frame with any protect section. */
  function Build(p: Protect, payload: Bytes): Bytes {
    var protect := PROTECT.Encoded(4, p);
    EncodeHeader(|protect|, |payload|) + protect + payload
  }

  function EncodeFrame(channelId: nat, command: nat, payload: Bytes): Bytes {
    Build(Protect(channelId, Some(command), 0, VCODE), payload)
  }

  function Checksum(payload: Bytes): Byte {
    if |payload| == 0 then 0 else (Checksum(payload[..|payload| - 1]) + payload[|payload| - 1]) % 0x100
  }

  method ChecksumLoop(payload: Bytes) returns (checksum: Byte)
    ensures checksum == Checksum(payload)
  {
    checksum := 0;
    for i := 0 to |payload|
      invariant checksum == Checksum(payload[..i])
    {
      assert payload[..i + 1][..i] == payload[..i];
      checksum := (checksum + payload[i]) % 0x100;
    }
    assert payload[..|payload|] == payload;
  }

  function Decode(raw: Bytes, maxBytes: nat): Option<Frame> {
    if |raw| < HEADER || |raw| > maxBytes then None
    else
      match DecodeHeader(raw[..HEADER])
      case None => None
      case Some(sizes) =>
        if HEADER + sizes.protect + sizes.payload != |raw| then None
        else
          match DecodeProtect(raw[HEADER..HEADER + sizes.protect])
          case None => None
          case Some(p) =>
            var payload := raw[HEADER + sizes.protect..];
            if p.vcode != VCODE then None
            else if p.checksum != 0 && p.checksum != Checksum(payload) then None
            else Some(Frame(p.channelId, p.command.value, p.checksum, p.vcode, payload))
  }

  // ---------- reading from a stream ----------

  datatype ReadError = LimitTooSmall | EndOfStream | CutShort | BadHeader | TooLarge

  datatype RawRead = Raw(raw: Bytes, rest: Bytes) | Failed(error: ReadError)

  /** What ReadFrame takes off the front of a stream. */
  function ReadFrame(stream: Bytes, maxBytes: int): RawRead {
    if maxBytes <= HEADER then Failed(LimitTooSmall)
    else if |stream| == 0 then Failed(EndOfStream)
    else if |stream| < HEADER then Failed(CutShort)
    else
      match DecodeHeader(stream[..HEADER])
      case None => Failed(BadHeader)
      case Some(sizes) =>
        var size := sizes.protect + sizes.payload;
        if size > maxBytes - HEADER then Failed(TooLarge)
        else if |stream| == HEADER then Failed(EndOfStream)
        else if |stream| < HEADER + size then Failed(CutShort)
        else Raw(stream[..HEADER + size], stream[HEADER + size..])
  }

  /** The connection a codec reads from: what has not been read yet. */
  class Stream {
    var remaining: Bytes

    constructor (bytes: Bytes)
      ensures remaining == bytes
    {
      remaining := bytes;
    }

    /** io.ReadFull: all n bytes, or an error that tells nothing from too little. */
    method ReadFull(n: nat) returns (bytes: Bytes, error: Option<ReadError>)
      requires n > 0
      modifies this
      ensures error.None? <==> n <= |old(remaining)|
      ensures error.None? ==> bytes + remaining == old(remaining) && |bytes| == n
      ensures error.Some? ==> error.value == (if |old(remaining)| == 0 then EndOfStream else CutShort)
    {
      if n > |remaining| {
        error := Some(if |remaining| == 0 then EndOfStream else CutShort);
        bytes, remaining := remaining, [];
      } else {
        bytes, remaining, error := remaining[..n], remaining[n..], None;
      }
    }

    method Read(maxBytes: int) returns (raw: Bytes, error: Option<ReadError>)
      modifies this
      ensures match ReadFrame(old(remaining), maxBytes)
        case Raw(bytes, rest) => error.None? && raw == bytes && remaining == rest
        case Failed(e) => error == Some(e)
    {
      ghost var stream := remaining;
      if maxBytes <= HEADER { return [], Some(LimitTooSmall); }
      var header;
      header, error := ReadFull(HEADER);
      if error.Some? { return [], error; }
      assert stream[..HEADER] == header && stream[HEADER..] == remaining;
      var sizes := DecodeHeader(header);
      if sizes.None? { return [], Some(BadHeader); }
      var size := sizes.value.protect + sizes.value.payload;
      if size > maxBytes - HEADER { return [], Some(TooLarge); }
      assert sizes.value.protect > 0;
      var body;
      body, error := ReadFull(size);
      if error.Some? { return [], error; }
      raw := header + body;
      assert raw + remaining == stream;
    }
  }

  // ---------- round trips ----------

  lemma BuildParts(p: Protect, payload: Bytes)
    requires p.InRange() && p.command.Some? && |payload| < U32
    ensures var n := |PROTECT.Encoded(4, p)|; var raw := Build(p, payload);
      && 0 < n <= 18 && |raw| == HEADER + n + |payload|
      && DecodeHeader(raw[..HEADER]) == Some(Sizes(n, |payload|))
      && raw[HEADER..HEADER + n] == PROTECT.Encoded(4, p)
      && raw[HEADER + n..] == payload
  {
    ProtectFits(p);
    var n := |PROTECT.Encoded(4, p)|;
    HeaderRoundTrip(n, |payload|);
    assert Build(p, payload)[..HEADER] == EncodeHeader(n, |payload|);
  }

  /** A frame is accepted exactly when it is within the limit, its vcode is 9 and its checksum is
      absent or right; and then it is given back unchanged. */
  lemma DecodeAccepts(p: Protect, payload: Bytes, maxBytes: nat)
    requires p.InRange() && p.command.Some? && |payload| < U32
    ensures Decode(Build(p, payload), maxBytes)
      == if |Build(p, payload)| <= maxBytes && p.vcode == VCODE && (p.checksum == 0 || p.checksum == Checksum(payload))
         then Some(Frame(p.channelId, p.command.value, p.checksum, p.vcode, payload)) else None
  {
    BuildParts(p, payload);
    ProtectRoundTrip(p);
  }

  lemma ReadBuilt(p: Protect, payload: Bytes, maxBytes: nat, suffix: Bytes)
    requires p.InRange() && p.command.Some? && |payload| < U32
    requires |Build(p, payload)| <= maxBytes
    ensures ReadFrame(Build(p, payload) + suffix, maxBytes) == Raw(Build(p, payload), suffix)
  {
    BuildParts(p, payload);
    var raw := Build(p, payload);
    assert (raw + suffix)[..HEADER] == raw[..HEADER];
    assert (raw + suffix)[..|raw|] == raw && (raw + suffix)[|raw|..] == suffix;
  }

  /** No proper prefix of a frame is read: it is reported as an end of the stream. */
  lemma NoPrefixIsRead(p: Protect, payload: Bytes, maxBytes: nat, k: nat)
    requires p.InRange() && p.command.Some? && |payload| < U32
    requires |Build(p, payload)| <= maxBytes && k < |Build(p, payload)|
    ensures ReadFrame(Build(p, payload)[..k], maxBytes) in {Failed(EndOfStream), Failed(CutShort)}
  {
    BuildParts(p, payload);
    var raw := Build(p, payload);
    if k >= HEADER { assert raw[..k][..HEADER] == raw[..HEADER]; }
  }

  /** What a sender puts on the wire. */
  datatype Message = Message(channelId: nat, command: nat, payload: Bytes)
  {
    predicate Sendable(maxBytes: nat) {
      && channelId < U32 && command < U32 && |payload| < U32
      && |EncodeFrame(channelId, command, payload)| <= maxBytes
    }
  }

  function EncodeAll(messages: seq<Message>): Bytes {
    if |messages| == 0 then []
    else EncodeFrame(messages[0].channelId, messages[0].command, messages[0].payload) + EncodeAll(messages[1..])
  }

  /** ReadFrame and Decode, count times: the messages and the rest of the stream. */
  function ReadAll(stream: Bytes, count: nat, maxBytes: nat): Option<(seq<Message>, Bytes)> {
    if count == 0 then Some(([], stream))
    else
      match ReadFrame(stream, maxBytes)
      case Failed(_) => None
      case Raw(raw, rest) =>
        match Decode(raw, maxBytes)
        case None => None
        case Some(frame) =>
          match ReadAll(rest, count - 1, maxBytes)
          case None => None
          case Some((messages, end)) => Some(([Message(frame.channelId, frame.command, frame.payload)] + messages, end))
  }

  /** Every list of messages comes back from the stream as it was sent, and what follows is untouched. */
  lemma {:induction false} StreamRoundTrip(messages: seq<Message>, maxBytes: nat, suffix: Bytes)
    requires forall m <- messages :: m.Sendable(maxBytes)
    ensures ReadAll(EncodeAll(messages) + suffix, |messages|, maxBytes) == Some((messages, suffix))
    decreases |messages|
  {
    if |messages| == 0 {
      assert EncodeAll(messages) + suffix == suffix;
    } else {
      var m := messages[0];
      assert m in messages && messages == [m] + messages[1..];
      var p := Protect(m.channelId, Some(m.command), 0, VCODE);
      var rest := EncodeAll(messages[1..]) + suffix;
      assert EncodeAll(messages) + suffix == Build(p, m.payload) + rest;
      ReadBuilt(p, m.payload, maxBytes, rest);
      DecodeAccepts(p, m.payload, maxBytes);
      StreamRoundTrip(messages[1..], maxBytes, suffix);
    }
  }
}
