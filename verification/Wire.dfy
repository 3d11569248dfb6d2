/** What stands on the wire, byte by byte: the layouts of internal/protocol/daemon.go and transfer.go in
    numerals, apart from the schemas that the codecs are described by. */
module Wire {
  import opened Text
  import opened Varint
  import opened Fields
  import opened Messages
  import opened Frames
  import Tlv

  // ---------- varints ----------

  /** The k-th group of seven bits, the lowest first. */
  function Group(value: nat, k: nat): nat {
    if k == 0 then value % 128 else Group(value / 128, k - 1)
  }

  /** Seven bits a byte, the lowest first; all bytes but the last have their top bit set, and the last is zero
      only when it is all there is. */
  lemma {:induction false} UvarintLayout(value: nat, k: nat)
    requires k < |AppendUvarint(value)|
    ensures var s := AppendUvarint(value);
      && s[k] == Group(value, k) + (if k < |s| - 1 then 128 else 0)
      && (k == |s| - 1 ==> s[k] != 0 || value == 0)
    decreases value
  {
    if value >= 128 {
      if k > 0 { UvarintLayout(value / 128, k - 1); }
    }
  }

  /** The sum of the groups of the first n bytes. */
  function GroupSum(s: Bytes): nat {
    if |s| == 0 then 0 else s[0] % 128 + 128 * GroupSum(s[1..])
  }

  /** At most nine bytes with their top bit set and one without are read as the sum of their groups, if that
      fits 64 bits; the bytes behind are left. */
  lemma {:induction false} UvarintReads(s: Bytes, i: nat, rest: Bytes)
    requires 0 < |s| && i + |s| <= 9 && s[|s| - 1] < 128 && forall k | 0 <= k < |s| - 1 :: s[k] >= 128
    ensures ReadUvarint(s + rest, i) == Got(GroupSum(s), rest)
    decreases |s|
  {
    if |s| == 1 {
      assert (s + rest)[1..] == rest;
    } else {
      assert (s + rest)[1..] == s[1..] + rest;
      UvarintReads(s[1..], i + 1, rest);
    }
  }

  // ---------- frames ----------

  /** 'H', 'W', two zeros and the version, then both lengths, high byte first. */
  function HeaderBytes(protectSize: nat, payloadSize: nat): Bytes {
    [0x48, 0x57, 0x00, 0x00, 0x01]
    + [protectSize / 0x100 % 0x100, protectSize % 0x100]
    + [payloadSize / 0x100_0000 % 0x100, payloadSize / 0x1_0000 % 0x100, payloadSize / 0x100 % 0x100, payloadSize % 0x100]
  }

  function FrameBytes(channelId: nat, command: nat, checksum: nat, vcode: nat, payload: Bytes): Bytes {
    var protect := ProtectBytes(channelId, command, checksum, vcode);
    HeaderBytes(|protect|, |payload|) + protect + payload
  }

  lemma HeaderLayout(protectSize: nat, payloadSize: nat)
    ensures EncodeHeader(protectSize, payloadSize) == HeaderBytes(protectSize, payloadSize)
  {
    assert payloadSize / 0x1_0000 / 0x100 == payloadSize / 0x100_0000;
    assert 'H' as int == 0x48 && 'W' as int == 0x57;
  }

  /** EncodeFrame writes checksum 0 and vcode 9. */
  lemma FrameLayout(channelId: nat, command: nat, payload: Bytes)
    ensures EncodeFrame(channelId, command, payload) == FrameBytes(channelId, command, 0x00, 0x09, payload)
  {
    ProtectLayout(channelId, command, 0x00, 0x09);
    HeaderLayout(|ProtectBytes(channelId, command, 0x00, 0x09)|, |payload|);
  }

  /** The bytes of a payload added up. */
  function Sum(payload: Bytes): nat {
    if |payload| == 0 then 0 else Sum(payload[..|payload| - 1]) + payload[|payload| - 1]
  }

  lemma {:induction false} ChecksumIsSum(payload: Bytes)
    ensures Checksum(payload) == Sum(payload) % 0x100
    decreases |payload|
  {
    if |payload| > 0 { ChecksumIsSum(payload[..|payload| - 1]); }
  }

  /** A frame of that layout is accepted exactly when it is no longer than the limit, its vcode is 9 and its
      checksum is 0 or the sum of the payload's bytes modulo 256, and gives back what it was made of. */
  lemma FrameReads(channelId: nat, command: nat, checksum: nat, vcode: nat, payload: Bytes, maxBytes: nat)
    requires channelId < 0x1_0000_0000 && command < 0x1_0000_0000 && checksum < 0x100 && vcode < 0x100
    requires |payload| < 0x1_0000_0000
    ensures var raw := FrameBytes(channelId, command, checksum, vcode, payload);
      Decode(raw, maxBytes) ==
        if |raw| <= maxBytes && vcode == 9 && (checksum == 0 || checksum == Sum(payload) % 0x100)
        then Some(Frame(channelId, command, checksum, 9, payload)) else None
  {
    var p := Protect(channelId, Some(command), checksum, vcode);
    ProtectLayout(channelId, command, checksum, vcode);
    HeaderLayout(|ProtectBytes(channelId, command, checksum, vcode)|, |payload|);
    ChecksumIsSum(payload);
    DecodeAccepts(p, payload, maxBytes);
  }

  /** A header is read exactly when its eleven bytes begin with 'H', 'W', two zeros and a one and the protect
      section is not empty. */
  lemma HeaderReads(header: Bytes)
    requires |header| == 11
    ensures DecodeHeader(header).Some? <==> header[..5] == [0x48, 0x57, 0x00, 0x00, 0x01] && header[5..7] != [0, 0]
    ensures DecodeHeader(header).Some? ==>
      var h: seq<int> := header;
      && DecodeHeader(header).value.protect == 0x100 * h[5] + h[6]
      && DecodeHeader(header).value.payload == 0x100_0000 * h[7] + 0x1_0000 * h[8] + 0x100 * h[9] + h[10]
  {
    assert header[5..7] == [header[5], header[6]];
    assert header[7..11][..2] == [header[7], header[8]] && header[7..11][2..] == [header[9], header[10]];
    assert header[..5] == [header[0], header[1], header[2], header[3], header[4]];
    assert 'H' as int == 0x48 && 'W' as int == 0x57;
  }

  // ---------- data headers ----------

  /** EncodeTransferData pads the header with zeros to 64 bytes. */
  lemma DataLayout(header: TransferPayload, data: Bytes)
    requires header.index < 0x1_0000_0000_0000_0000 && header.compression < 0x100
    requires header.compressedSize < 0x1_0000_0000 && header.uncompressedSize < 0x1_0000_0000
    ensures |PayloadBytes(header)| <= 26
    ensures EncodeTransferData(header, data)
      == if |data| == header.compressedSize
         then Some(PayloadBytes(header) + seq(64 - |PayloadBytes(header)|, _ => 0x00) + data) else None
  {
    PayloadLayout(header);
    HeaderFits(header);
    assert Zeros(64 - |PayloadBytes(header)|) == seq(64 - |PayloadBytes(header)|, _ => 0x00);
  }

  // ---------- what is read of those layouts ----------

  /** Sixty-four bits, eight, and any text that fits in memory. */
  predicate ConfigInRange(c: TransferConfig) {
    && c.fileSize < 0x1_0000_0000_0000_0000 && c.aTime < 0x1_0000_0000_0000_0000 && c.mTime < 0x1_0000_0000_0000_0000
    && c.compression < 0x100
    && |c.options| < 0x1_0000_0000_0000_0000 && |c.path| < 0x1_0000_0000_0000_0000
    && |c.optionalName| < 0x1_0000_0000_0000_0000 && |c.functionName| < 0x1_0000_0000_0000_0000
    && |c.clientCwd| < 0x1_0000_0000_0000_0000 && |c.reserve1| < 0x1_0000_0000_0000_0000
    && |c.reserve2| < 0x1_0000_0000_0000_0000
  }

  lemma ConfigReads(c: TransferConfig)
    requires ConfigInRange(c)
    ensures CONFIG.Decode(ConfigBytes(c, 13)) == Some(c)
  {
    ConfigLayout(c, 13);
    ConfigRoundTrip(c);
  }

  lemma PayloadReads(p: TransferPayload)
    requires p.index < 0x1_0000_0000_0000_0000 && p.compression < 0x100
    requires p.compressedSize < 0x1_0000_0000 && p.uncompressedSize < 0x1_0000_0000
    ensures PAYLOAD.Decode(PayloadBytes(p)) == Some(p)
  {
    PayloadLayout(p);
    PayloadRoundTrip(p);
  }

  lemma HandshakeReads(h: SessionHandshake)
    requires h.authType < 0x100 && h.sessionId < 0x1_0000_0000
    requires |h.banner| < 0x1_0000_0000_0000_0000 && |h.connectKey| < 0x1_0000_0000_0000_0000
    requires |h.buffer| < 0x1_0000_0000_0000_0000 && |h.version| < 0x1_0000_0000_0000_0000
    ensures HANDSHAKE.Decode(HandshakeBytes(h)) == Some(h)
  {
    HandshakeLayout(h);
    HandshakeRoundTrip(h);
  }

  // ---------- what is refused or passed over ----------

  lemma OneField<M>(schema: Schema<M>, field: Field, key: Bytes, rest: Bytes)
    requires field.WellFormed() && AppendUvarint(field.Key()) == key
    ensures !schema.Accepts(field) ==> schema.Decode(key + field.Body() + rest) == None
    ensures schema.Accepts(field) && !schema.Takes(field) ==> schema.Decode(key + field.Body() + rest) == schema.Decode(rest)
  {
    DecodeOneMore(schema, schema.empty, field, rest);
    assert key + field.Body() + rest == EncodeField(field) + rest;
  }

  /** A number that is too wide for its field is refused, never cut to its width. */
  lemma WidthsAreChecked(value: nat, rest: Bytes)
    requires value < 0x1_0000_0000_0000_0000
    ensures value >= 0x100 ==> CONFIG.Decode([0x40] + AppendUvarint(value) + rest) == None
    ensures value >= 0x100 ==> PAYLOAD.Decode([0x10] + AppendUvarint(value) + rest) == None
    ensures value >= 0x1_0000_0000 ==> PAYLOAD.Decode([0x18] + AppendUvarint(value) + rest) == None
    ensures value >= 0x1_0000_0000 ==> PAYLOAD.Decode([0x20] + AppendUvarint(value) + rest) == None
    ensures value >= 0x100 ==> HANDSHAKE.Decode([0x10] + AppendUvarint(value) + rest) == None
    ensures value >= 0x1_0000_0000 ==> HANDSHAKE.Decode([0x18] + AppendUvarint(value) + rest) == None
  {
    Keys();
    OneField(CONFIG, VarintField(8, value), [0x40], rest);
    OneField(PAYLOAD, VarintField(2, value), [0x10], rest);
    OneField(PAYLOAD, VarintField(3, value), [0x18], rest);
    OneField(PAYLOAD, VarintField(4, value), [0x20], rest);
    OneField(HANDSHAKE, VarintField(2, value), [0x10], rest);
    OneField(HANDSHAKE, VarintField(3, value), [0x18], rest);
  }

  lemma ProtectWidthsAreChecked(value: nat, rest: Bytes)
    requires value < 0x1_0000_0000_0000_0000
    ensures value >= 0x1_0000_0000 ==> PROTECT.Decode([0x08] + AppendUvarint(value) + rest) == None
    ensures value >= 0x1_0000_0000 ==> PROTECT.Decode([0x10] + AppendUvarint(value) + rest) == None
    ensures value >= 0x100 ==> PROTECT.Decode([0x18] + AppendUvarint(value) + rest) == None
    ensures value >= 0x100 ==> PROTECT.Decode([0x20] + AppendUvarint(value) + rest) == None
  {
    Keys();
    OneField(PROTECT, VarintField(1, value), [0x08], rest);
    OneField(PROTECT, VarintField(2, value), [0x10], rest);
    OneField(PROTECT, VarintField(3, value), [0x18], rest);
    OneField(PROTECT, VarintField(4, value), [0x20], rest);
  }

  /** A text where a number should be, and the other way round, is refused by the messages and passed over in
      a protect section. */
  lemma WireTypesAreChecked(value: nat, text: Bytes, rest: Bytes)
    requires value < 0x1_0000_0000_0000_0000 && |text| < 0x1_0000_0000_0000_0000
    ensures CONFIG.Decode([0x0a] + StringBytes(text) + rest) == None
    ensures CONFIG.Decode([0x20] + AppendUvarint(value) + rest) == None
    ensures PAYLOAD.Decode([0x22] + StringBytes(text) + rest) == None
    ensures HANDSHAKE.Decode([0x08] + AppendUvarint(value) + rest) == None
    ensures HANDSHAKE.Decode([0x1a] + StringBytes(text) + rest) == None
    ensures PROTECT.Decode([0x0a] + StringBytes(text) + rest) == PROTECT.Decode(rest)
  {
    Keys();
    assert AppendUvarint(0x1a) == [0x1a];
    OneField(CONFIG, StringField(1, text), [0x0a], rest);
    OneField(CONFIG, VarintField(4, value), [0x20], rest);
    OneField(PAYLOAD, StringField(4, text), [0x22], rest);
    OneField(HANDSHAKE, VarintField(1, value), [0x08], rest);
    OneField(HANDSHAKE, StringField(3, text), [0x1a], rest);
    OneField(PROTECT, StringField(1, text), [0x0a], rest);
  }

  ghost predicate PassesOver<M>(schema: Schema<M>, field: Bytes, rest: Bytes) {
    schema.Decode(field + rest) == schema.Decode(rest)
  }

  /** An unknown field is passed over by its wire type: a varint, eight bytes, a text, or four bytes. */
  lemma UnknownIsPassedOver<M>(schema: Schema<M>, number: nat, value: nat, text: Bytes, eight: Bytes, four: Bytes, rest: Bytes)
    requires !schema.Known(number) && 0 < number < 0x1000_0000
    requires value < 0x1_0000_0000_0000_0000 && |text| < 0x1_0000_0000_0000_0000 && |eight| == 8 && |four| == 4
    ensures PassesOver(schema, AppendUvarint(8 * number) + AppendUvarint(value), rest)
    ensures PassesOver(schema, AppendUvarint(8 * number + 1) + eight, rest)
    ensures PassesOver(schema, AppendUvarint(8 * number + 2) + StringBytes(text), rest)
    ensures PassesOver(schema, AppendUvarint(8 * number + 5) + four, rest)
  {
    OneField(schema, VarintField(number, value), AppendUvarint(8 * number), rest);
    OneField(schema, Fixed64Field(number, eight), AppendUvarint(8 * number + 1), rest);
    OneField(schema, StringField(number, text), AppendUvarint(8 * number + 2), rest);
    OneField(schema, Fixed32Field(number, four), AppendUvarint(8 * number + 5), rest);
  }

  /** Which numbers are known. */
  lemma KnownNumbers(number: nat)
    ensures CONFIG.Known(number) <==> 1 <= number <= 13
    ensures PAYLOAD.Known(number) <==> 1 <= number <= 4
    ensures HANDSHAKE.Known(number) <==> 1 <= number <= 6
    ensures PROTECT.Known(number) <==> 1 <= number <= 4
  {
    ConfigKnown(number);
    PayloadKnown(number);
    HandshakeKnown(number);
    ProtectKnown(number);
  }

  // ---------- the handshake TLV ----------

  /** Decimal digits, the highest first. */
  lemma DecimalLayout(n: nat, d: nat)
    requires d < 10
    ensures Tlv.Decimal(d) == ["0123456789"[d]]
    ensures n > 0 ==> Tlv.Decimal(10 * n + d) == Tlv.Decimal(n) + ["0123456789"[d]]
  {
  }

  lemma {:induction false} SixteenDigits(n: nat, k: nat)
    requires 1 <= k <= 16 && n < [10, 100, 1000, 1_0000, 10_0000, 100_0000, 1000_0000, 1_0000_0000, 10_0000_0000,
      100_0000_0000, 1000_0000_0000, 1_0000_0000_0000, 10_0000_0000_0000, 100_0000_0000_0000, 1000_0000_0000_0000,
      1_0000_0000_0000_0000][k - 1]
    ensures |Tlv.Decimal(n)| <= k
    decreases k
  {
    if n >= 10 { SixteenDigits(n / 10, k - 1); }
  }

  /** Sixteen characters of tag, sixteen of length, both left-justified, then the value. */
  lemma RowLayout(tag: string, value: string)
    requires |tag| <= 16 && |value| < 1_0000_0000_0000_0000
    ensures |Tlv.Decimal(|value|)| <= 16
    ensures Tlv.Row(tag, value)
      == tag + seq(16 - |tag|, _ => ' ') + Tlv.Decimal(|value|) + seq(16 - |Tlv.Decimal(|value|)|, _ => ' ') + value
  {
    SixteenDigits(|value|, 16);
    assert Tlv.Spaces(16 - |tag|) == seq(16 - |tag|, _ => ' ');
    assert Tlv.Spaces(16 - |Tlv.Decimal(|value|)|) == seq(16 - |Tlv.Decimal(|value|)|, _ => ' ');
  }

  /** A longer tag is cut to its first sixteen characters. */
  lemma LongTagIsCut(tag: string, value: string)
    requires |tag| > 16
    ensures Tlv.Row(tag, value) == Tlv.Row(tag[..16], value)
  {
  }
}
