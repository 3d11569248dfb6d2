/** The transfer and handshake messages of internal/protocol/transfer.go and daemon.go. */
module Messages {
  import opened Text
  import opened Varint
  import opened Fields

  /** appendVarintField and appendStringField, used to append the next field of a message. */
  method AppendVarintField<M>(target: Bytes, number: nat, value: nat, ghost schema: Schema<M>, ghost m: M)
    returns (r: Bytes)
    requires number > 0 && target == schema.Encoded(number - 1, m)
    requires schema.get(m, number) == VarintField(number, value)
    ensures r == schema.Encoded(number, m)
  {
    r := target + AppendUvarint(number * 8) + AppendUvarint(value);
  }

  method AppendStringField<M>(target: Bytes, number: nat, value: Bytes, ghost schema: Schema<M>, ghost m: M)
    returns (r: Bytes)
    requires number > 0 && target == schema.Encoded(number - 1, m)
    requires schema.get(m, number) == StringField(number, value)
    ensures r == schema.Encoded(number, m)
  {
    r := target + AppendUvarint(number * 8 + 2) + AppendUvarint(|value|) + value;
    assert EncodeField(StringField(number, value))
      == AppendUvarint(number * 8 + 2) + (AppendUvarint(|value|) + value);
  }

  function BoolValue(b: bool): nat {
    if b then 1 else 0
  }

  method AppendBool<M>(target: Bytes, number: nat, value: bool, ghost schema: Schema<M>, ghost m: M)
    returns (r: Bytes)
    requires number > 0 && target == schema.Encoded(number - 1, m)
    requires schema.get(m, number) == VarintField(number, BoolValue(value))
    ensures r == schema.Encoded(number, m)
  {
    if value {
      r := AppendVarintField(target, number, 1, schema, m);
    } else {
      r := AppendVarintField(target, number, 0, schema, m);
    }
  }

  // ---------- bytes ----------

  lemma Keys()
    ensures AppendUvarint(0x08) == [0x08] && AppendUvarint(0x10) == [0x10] && AppendUvarint(0x18) == [0x18]
    ensures AppendUvarint(0x20) == [0x20] && AppendUvarint(0x22) == [0x22] && AppendUvarint(0x2a) == [0x2a]
    ensures AppendUvarint(0x32) == [0x32] && AppendUvarint(0x38) == [0x38] && AppendUvarint(0x40) == [0x40]
    ensures AppendUvarint(0x48) == [0x48] && AppendUvarint(0x52) == [0x52] && AppendUvarint(0x5a) == [0x5a]
    ensures AppendUvarint(0x62) == [0x62] && AppendUvarint(0x6a) == [0x6a] && AppendUvarint(0x0a) == [0x0a]
  {
  }

  function StringBytes(s: Bytes): Bytes {
    AppendUvarint(|s|) + s
  }

  function BoolByte(b: bool): Bytes {
    if b then [0x01] else [0x00]
  }

  // ---------- transfer config ----------

  datatype TransferConfig = TransferConfig(
    fileSize: nat, aTime: nat, mTime: nat, options: Bytes, path: Bytes, optionalName: Bytes,
    updateIfNew: bool, compression: nat, holdTimestamp: bool,
    functionName: Bytes, clientCwd: Bytes, reserve1: Bytes, reserve2: Bytes)
  {
    /** The widths of the fields. */
    predicate InRange() {
      && fileSize < U64 && aTime < U64 && mTime < U64 && compression < U8
      && |options| < U64 && |path| < U64 && |optionalName| < U64
      && |functionName| < U64 && |clientCwd| < U64 && |reserve1| < U64 && |reserve2| < U64
    }
  }

  const NO_CONFIG := TransferConfig(0, 0, 0, [], [], [], false, 0, false, [], [], [], [])

  function ConfigNumber(c: TransferConfig, number: nat, value: nat): TransferConfig {
    match number
    case 1 => c.(fileSize := value)
    case 2 => c.(aTime := value)
    case 3 => c.(mTime := value)
    case 7 => c.(updateIfNew := value != 0)
    case 8 => c.(compression := value)
    case 9 => c.(holdTimestamp := value != 0)
    case _ => c
  }

  function ConfigString(c: TransferConfig, number: nat, value: Bytes): TransferConfig {
    match number
    case 4 => c.(options := value)
    case 5 => c.(path := value)
    case 6 => c.(optionalName := value)
    case 10 => c.(functionName := value)
    case 11 => c.(clientCwd := value)
    case 12 => c.(reserve1 := value)
    case 13 => c.(reserve2 := value)
    case _ => c
  }

  function ConfigField(c: TransferConfig, number: nat): Field {
    match number
    case 1 => VarintField(1, c.fileSize)
    case 2 => VarintField(2, c.aTime)
    case 3 => VarintField(3, c.mTime)
    case 4 => StringField(4, c.options)
    case 5 => StringField(5, c.path)
    case 6 => StringField(6, c.optionalName)
    case 7 => VarintField(7, BoolValue(c.updateIfNew))
    case 8 => VarintField(8, c.compression)
    case 9 => VarintField(9, BoolValue(c.holdTimestamp))
    case 10 => StringField(10, c.functionName)
    case 11 => StringField(11, c.clientCwd)
    case 12 => StringField(12, c.reserve1)
    case _ => StringField(13, c.reserve2)
  }

  const CONFIG := Schema(NO_CONFIG, true, true,
    map[1 := U64, 2 := U64, 3 := U64, 7 := U64, 8 := U8, 9 := U64], {4, 5, 6, 10, 11, 12, 13},
    ConfigNumber, ConfigString, ConfigField)

  lemma ConfigSetsNothingElse(c: TransferConfig, field: Field, number: nat)
    requires CONFIG.Takes(field) && CONFIG.Known(number) && number != field.number
    ensures ConfigField(CONFIG.Set(c, field), number) == ConfigField(c, number)
  {
  }

  lemma ConfigSetsWhatItGets(c: TransferConfig, from: TransferConfig, number: nat)
    requires CONFIG.Takes(ConfigField(from, number)) && ConfigField(from, number).number == number
    ensures ConfigField(CONFIG.Set(c, ConfigField(from, number)), number) == ConfigField(from, number)
  {
  }

  lemma ConfigGetsEverything(a: TransferConfig, b: TransferConfig)
    requires forall number: nat | 1 <= number <= 13 :: ConfigField(a, number) == ConfigField(b, number)
    ensures a == b
  {
    assert ConfigField(a, 1) == ConfigField(b, 1);
    assert ConfigField(a, 2) == ConfigField(b, 2);
    assert ConfigField(a, 3) == ConfigField(b, 3);
    assert ConfigField(a, 4) == ConfigField(b, 4);
    assert ConfigField(a, 5) == ConfigField(b, 5);
    assert ConfigField(a, 6) == ConfigField(b, 6);
    assert ConfigField(a, 7) == ConfigField(b, 7);
    assert ConfigField(a, 8) == ConfigField(b, 8);
    assert ConfigField(a, 9) == ConfigField(b, 9);
    assert ConfigField(a, 10) == ConfigField(b, 10);
    assert ConfigField(a, 11) == ConfigField(b, 11);
    assert ConfigField(a, 12) == ConfigField(b, 12);
    assert ConfigField(a, 13) == ConfigField(b, 13);
  }

  lemma ConfigKnown(number: nat)
    ensures CONFIG.Known(number) <==> 1 <= number <= 13
  {
  }

  lemma ConfigLawful()
    ensures Lawful(CONFIG)
  {
    forall c, from, number
      {:trigger CONFIG.Set(c, CONFIG.get(from, number))}
      | CONFIG.Takes(CONFIG.get(from, number)) && CONFIG.get(from, number).number == number
      ensures CONFIG.get(CONFIG.Set(c, CONFIG.get(from, number)), number) == CONFIG.get(from, number)
    {
      ConfigSetsWhatItGets(c, from, number);
    }
    forall c, field, number | CONFIG.Takes(field) && CONFIG.Known(number) && number != field.number
      ensures CONFIG.get(CONFIG.Set(c, field), number) == CONFIG.get(c, number)
    {
      ConfigSetsNothingElse(c, field, number);
    }
    forall a, b | Agree(CONFIG, a, b) ensures a == b {
      forall number: nat | 1 <= number <= 13 ensures ConfigField(a, number) == ConfigField(b, number) {
        ConfigKnown(number);
        assert CONFIG.get(a, number) == CONFIG.get(b, number);
      }
      ConfigGetsEverything(a, b);
    }
  }

  /** The n-th field of a transfer config. */
  function ConfigFieldBytes(c: TransferConfig, n: nat): Bytes {
    match n
    case 1 => [0x08] + AppendUvarint(c.fileSize)
    case 2 => [0x10] + AppendUvarint(c.aTime)
    case 3 => [0x18] + AppendUvarint(c.mTime)
    case 4 => [0x22] + StringBytes(c.options)
    case 5 => [0x2a] + StringBytes(c.path)
    case 6 => [0x32] + StringBytes(c.optionalName)
    case 7 => [0x38] + BoolByte(c.updateIfNew)
    case 8 => [0x40] + AppendUvarint(c.compression)
    case 9 => [0x48] + BoolByte(c.holdTimestamp)
    case 10 => [0x52] + StringBytes(c.functionName)
    case 11 => [0x5a] + StringBytes(c.clientCwd)
    case 12 => [0x62] + StringBytes(c.reserve1)
    case _ => [0x6a] + StringBytes(c.reserve2)
  }

  function ConfigBytes(c: TransferConfig, n: nat): Bytes {
    Rows(k => ConfigFieldBytes(c, k), n)
  }

  lemma ConfigFieldLayout(c: TransferConfig, n: nat)
    requires 1 <= n <= 13
    ensures EncodeField(CONFIG.get(c, n)) == ConfigFieldBytes(c, n)
  {
    Keys();
    assert AppendUvarint(1) == [0x01] && AppendUvarint(0) == [0x00];
  }

  lemma ConfigLayout(c: TransferConfig, n: nat)
    requires n <= 13
    ensures CONFIG.Encoded(n, c) == ConfigBytes(c, n)
  {
    forall k: nat | 1 <= k <= n ensures EncodeField(CONFIG.get(c, k)) == ConfigFieldBytes(c, k) { ConfigFieldLayout(c, k); }
    EncodedIsRows(CONFIG, c, k => ConfigFieldBytes(c, k), n);
  }

  method EncodeTransferConfig(c: TransferConfig) returns (r: Bytes)
    ensures r == CONFIG.Encoded(13, c) == ConfigBytes(c, 13)
  {
    ConfigLayout(c, 13);
    r := EncodeOptionFields(c);
    r := AppendStringField(r, 10, c.functionName, CONFIG, c);
    r := AppendStringField(r, 11, c.clientCwd, CONFIG, c);
    r := AppendStringField(r, 12, c.reserve1, CONFIG, c);
    r := AppendStringField(r, 13, c.reserve2, CONFIG, c);
  }

  /** The first nine of them. */
  method EncodeOptionFields(c: TransferConfig) returns (r: Bytes)
    ensures r == CONFIG.Encoded(9, c)
  {
    r := EncodeFileFields(c);
    r := AppendStringField(r, 6, c.optionalName, CONFIG, c);
    r := AppendBool(r, 7, c.updateIfNew, CONFIG, c);
    r := AppendVarintField(r, 8, c.compression, CONFIG, c);
    r := AppendBool(r, 9, c.holdTimestamp, CONFIG, c);
  }

  /** The first five of them. */
  method EncodeFileFields(c: TransferConfig) returns (r: Bytes)
    ensures r == CONFIG.Encoded(5, c)
  {
    r := AppendVarintField([], 1, c.fileSize, CONFIG, c);
    r := AppendVarintField(r, 2, c.aTime, CONFIG, c);
    r := AppendVarintField(r, 3, c.mTime, CONFIG, c);
    r := AppendStringField(r, 4, c.options, CONFIG, c);
    r := AppendStringField(r, 5, c.path, CONFIG, c);
  }

  lemma ConfigFits(c: TransferConfig)
    requires c.InRange()
    ensures CONFIG.Fits(c)
  {
  }

  /** What is decoded is in range: the range checks miss nothing. */
  lemma DecodedConfigInRange(payload: Bytes)
    ensures CONFIG.Decode(payload).Some? ==> CONFIG.Decode(payload).value.InRange()
  {
    DecodeKeeps(CONFIG, (c: TransferConfig) => c.InRange(), payload, CONFIG.empty);
  }

  lemma ConfigRoundTrip(c: TransferConfig)
    requires c.InRange()
    ensures CONFIG.Decode(CONFIG.Encoded(13, c)) == Some(c)
  {
    ConfigFits(c);
    ConfigLawful();
    forall number: nat ensures CONFIG.Known(number) <==> 1 <= number <= 13 { ConfigKnown(number); }
    EncodedDecodes(CONFIG, 13, c, []);
    assert CONFIG.Encoded(13, c) + [] == CONFIG.Encoded(13, c);
  }

  /** Unknown fields anywhere, known ones in any order and superseded ones change nothing. */
  lemma ConfigReadsSpliced(c: TransferConfig, fields: seq<Field>)
    requires AllWellFormed(fields) && CONFIG.AllAccepted(fields) && CONFIG.Carries(fields, c)
    ensures CONFIG.Decode(EncodeFields(fields)) == Some(c)
  {
    ConfigLawful();
    CarriedMessageDecodes(CONFIG, fields, c, []);
    assert EncodeFields(fields) + [] == EncodeFields(fields);
  }

  // ---------- transfer payload ----------

  datatype TransferPayload = TransferPayload(index: nat, compression: nat, compressedSize: nat, uncompressedSize: nat)
  {
    predicate InRange() {
      index < U64 && compression < U8 && compressedSize < U32 && uncompressedSize < U32
    }
  }

  function PayloadNumber(p: TransferPayload, number: nat, value: nat): TransferPayload {
    match number
    case 1 => p.(index := value)
    case 2 => p.(compression := value)
    case 3 => p.(compressedSize := value)
    case 4 => p.(uncompressedSize := value)
    case _ => p
  }

  function PayloadString(p: TransferPayload, number: nat, value: Bytes): TransferPayload {
    p
  }

  function PayloadField(p: TransferPayload, number: nat): Field {
    match number
    case 1 => VarintField(1, p.index)
    case 2 => VarintField(2, p.compression)
    case 3 => VarintField(3, p.compressedSize)
    case _ => VarintField(4, p.uncompressedSize)
  }

  const PAYLOAD := Schema(TransferPayload(0, 0, 0, 0), true, true,
    map[1 := U64, 2 := U8, 3 := U32, 4 := U32], {}, PayloadNumber, PayloadString, PayloadField)

  lemma PayloadKnown(number: nat)
    ensures PAYLOAD.Known(number) <==> 1 <= number <= 4
  {
  }

  lemma PayloadLawful()
    ensures Lawful(PAYLOAD)
  {
    forall a, b | Agree(PAYLOAD, a, b) ensures a == b {
      assert PAYLOAD.get(a, 1) == PAYLOAD.get(b, 1) && PAYLOAD.get(a, 2) == PAYLOAD.get(b, 2);
      assert PAYLOAD.get(a, 3) == PAYLOAD.get(b, 3) && PAYLOAD.get(a, 4) == PAYLOAD.get(b, 4);
    }
  }

  function PayloadBytes(p: TransferPayload): Bytes {
    ([0x08] + AppendUvarint(p.index)) + ([0x10] + AppendUvarint(p.compression))
    + ([0x18] + AppendUvarint(p.compressedSize)) + ([0x20] + AppendUvarint(p.uncompressedSize))
  }

  lemma PayloadLayout(p: TransferPayload)
    ensures PAYLOAD.Encoded(4, p) == PayloadBytes(p)
  {
    Keys();
    assert PAYLOAD.Encoded(1, p) == [0x08] + AppendUvarint(p.index);
    assert PAYLOAD.Encoded(2, p) == PAYLOAD.Encoded(1, p) + ([0x10] + AppendUvarint(p.compression));
    assert PAYLOAD.Encoded(3, p) == PAYLOAD.Encoded(2, p) + ([0x18] + AppendUvarint(p.compressedSize));
    assert PAYLOAD.Encoded(4, p) == PAYLOAD.Encoded(3, p) + ([0x20] + AppendUvarint(p.uncompressedSize));
  }

  method EncodeTransferPayload(p: TransferPayload) returns (r: Bytes)
    ensures r == PAYLOAD.Encoded(4, p) == PayloadBytes(p)
  {
    PayloadLayout(p);
    r := AppendVarintField([], 1, p.index, PAYLOAD, p);
    r := AppendVarintField(r, 2, p.compression, PAYLOAD, p);
    r := AppendVarintField(r, 3, p.compressedSize, PAYLOAD, p);
    r := AppendVarintField(r, 4, p.uncompressedSize, PAYLOAD, p);
  }

  lemma PayloadFits(c: TransferPayload)
    requires c.InRange()
    ensures PAYLOAD.Fits(c)
  {
  }

  /** What is decoded is in range: the range checks miss nothing. */
  lemma DecodedPayloadInRange(payload: Bytes)
    ensures PAYLOAD.Decode(payload).Some? ==> PAYLOAD.Decode(payload).value.InRange()
  {
    DecodeKeeps(PAYLOAD, (c: TransferPayload) => c.InRange(), payload, PAYLOAD.empty);
  }

  lemma PayloadRoundTrip(c: TransferPayload)
    requires c.InRange()
    ensures PAYLOAD.Decode(PAYLOAD.Encoded(4, c)) == Some(c)
  {
    PayloadFits(c);
    PayloadLawful();
    forall number: nat ensures PAYLOAD.Known(number) <==> 1 <= number <= 4 { PayloadKnown(number); }
    EncodedDecodes(PAYLOAD, 4, c, []);
    assert PAYLOAD.Encoded(4, c) + [] == PAYLOAD.Encoded(4, c);
  }

  /** Unknown fields anywhere, known ones in any order and superseded ones change nothing. */
  lemma PayloadReadsSpliced(c: TransferPayload, fields: seq<Field>)
    requires AllWellFormed(fields) && PAYLOAD.AllAccepted(fields) && PAYLOAD.Carries(fields, c)
    ensures PAYLOAD.Decode(EncodeFields(fields)) == Some(c)
  {
    PayloadLawful();
    CarriedMessageDecodes(PAYLOAD, fields, c, []);
    assert EncodeFields(fields) + [] == EncodeFields(fields);
  }

  // ---------- session handshake ----------

  datatype SessionHandshake = SessionHandshake(
    banner: Bytes, authType: nat, sessionId: nat, connectKey: Bytes, buffer: Bytes, version: Bytes)
  {
    predicate InRange() {
      && authType < U8 && sessionId < U32
      && |banner| < U64 && |connectKey| < U64 && |buffer| < U64 && |version| < U64
    }
  }

  function HandshakeNumber(h: SessionHandshake, number: nat, value: nat): SessionHandshake {
    match number
    case 2 => h.(authType := value)
    case 3 => h.(sessionId := value)
    case _ => h
  }

  function HandshakeString(h: SessionHandshake, number: nat, value: Bytes): SessionHandshake {
    match number
    case 1 => h.(banner := value)
    case 4 => h.(connectKey := value)
    case 5 => h.(buffer := value)
    case 6 => h.(version := value)
    case _ => h
  }

  function HandshakeField(h: SessionHandshake, number: nat): Field {
    match number
    case 1 => StringField(1, h.banner)
    case 2 => VarintField(2, h.authType)
    case 3 => VarintField(3, h.sessionId)
    case 4 => StringField(4, h.connectKey)
    case 5 => StringField(5, h.buffer)
    case _ => StringField(6, h.version)
  }

  const HANDSHAKE := Schema(SessionHandshake([], 0, 0, [], [], []), true, false,
    map[2 := U8, 3 := U32], {1, 4, 5, 6}, HandshakeNumber, HandshakeString, HandshakeField)

  lemma HandshakeKnown(number: nat)
    ensures HANDSHAKE.Known(number) <==> 1 <= number <= 6
  {
  }

  lemma HandshakeLawful()
    ensures Lawful(HANDSHAKE)
  {
    forall a, b | Agree(HANDSHAKE, a, b) ensures a == b {
      assert HANDSHAKE.get(a, 1) == HANDSHAKE.get(b, 1) && HANDSHAKE.get(a, 2) == HANDSHAKE.get(b, 2);
      assert HANDSHAKE.get(a, 3) == HANDSHAKE.get(b, 3) && HANDSHAKE.get(a, 4) == HANDSHAKE.get(b, 4);
      assert HANDSHAKE.get(a, 5) == HANDSHAKE.get(b, 5) && HANDSHAKE.get(a, 6) == HANDSHAKE.get(b, 6);
    }
  }

  /** The n-th field of a session handshake. */
  function HandshakeFieldBytes(h: SessionHandshake, n: nat): Bytes {
    match n
    case 1 => [0x0a] + StringBytes(h.banner)
    case 2 => [0x10] + AppendUvarint(h.authType)
    case 3 => [0x18] + AppendUvarint(h.sessionId)
    case 4 => [0x22] + StringBytes(h.connectKey)
    case 5 => [0x2a] + StringBytes(h.buffer)
    case _ => [0x32] + StringBytes(h.version)
  }

  function HandshakeBytes(h: SessionHandshake): Bytes {
    Rows(k => HandshakeFieldBytes(h, k), 6)
  }

  lemma HandshakeFieldLayout(h: SessionHandshake, n: nat)
    requires 1 <= n <= 6
    ensures EncodeField(HANDSHAKE.get(h, n)) == HandshakeFieldBytes(h, n)
  {
    Keys();
  }

  lemma HandshakeLayout(h: SessionHandshake)
    ensures HANDSHAKE.Encoded(6, h) == HandshakeBytes(h)
  {
    forall k: nat | 1 <= k <= 6 ensures EncodeField(HANDSHAKE.get(h, k)) == HandshakeFieldBytes(h, k) { HandshakeFieldLayout(h, k); }
    EncodedIsRows(HANDSHAKE, h, k => HandshakeFieldBytes(h, k), 6);
  }

  method EncodeSessionHandshake(h: SessionHandshake) returns (r: Bytes)
    ensures r == HANDSHAKE.Encoded(6, h) == HandshakeBytes(h)
  {
    HandshakeLayout(h);
    r := AppendStringField([], 1, h.banner, HANDSHAKE, h);
    r := AppendVarintField(r, 2, h.authType, HANDSHAKE, h);
    r := AppendVarintField(r, 3, h.sessionId, HANDSHAKE, h);
    r := AppendStringField(r, 4, h.connectKey, HANDSHAKE, h);
    r := AppendStringField(r, 5, h.buffer, HANDSHAKE, h);
    r := AppendStringField(r, 6, h.version, HANDSHAKE, h);
  }

  lemma HandshakeFits(c: SessionHandshake)
    requires c.InRange()
    ensures HANDSHAKE.Fits(c)
  {
  }

  /** What is decoded is in range: the range checks miss nothing. */
  lemma DecodedHandshakeInRange(payload: Bytes)
    ensures HANDSHAKE.Decode(payload).Some? ==> HANDSHAKE.Decode(payload).value.InRange()
  {
    DecodeKeeps(HANDSHAKE, (c: SessionHandshake) => c.InRange(), payload, HANDSHAKE.empty);
  }

  lemma HandshakeRoundTrip(c: SessionHandshake)
    requires c.InRange()
    ensures HANDSHAKE.Decode(HANDSHAKE.Encoded(6, c)) == Some(c)
  {
    HandshakeFits(c);
    HandshakeLawful();
    forall number: nat ensures HANDSHAKE.Known(number) <==> 1 <= number <= 6 { HandshakeKnown(number); }
    EncodedDecodes(HANDSHAKE, 6, c, []);
    assert HANDSHAKE.Encoded(6, c) + [] == HANDSHAKE.Encoded(6, c);
  }

  /** Unknown fields anywhere, known ones in any order and superseded ones change nothing. */
  lemma HandshakeReadsSpliced(c: SessionHandshake, fields: seq<Field>)
    requires AllWellFormed(fields) && HANDSHAKE.AllAccepted(fields) && HANDSHAKE.Carries(fields, c)
    ensures HANDSHAKE.Decode(EncodeFields(fields)) == Some(c)
  {
    HandshakeLawful();
    CarriedMessageDecodes(HANDSHAKE, fields, c, []);
    assert EncodeFields(fields) + [] == EncodeFields(fields);
  }

  // ---------- data frames ----------

  const PREFIX := 64

  function Zeros(n: nat): Bytes {
    seq(n, _ => 0)
  }

  /** EncodeTransferData: the header, padded with NUL to 64 bytes, then the data. */
  function EncodeTransferData(header: TransferPayload, data: Bytes): Option<Bytes> {
    var serialized := PAYLOAD.Encoded(4, header);
    if |data| != header.compressedSize || |serialized| + 1 > PREFIX then None
    else Some(serialized + Zeros(PREFIX - |serialized|) + data)
  }

  function DecodeTransferData(payload: Bytes, maxUncompressed: nat): Option<(TransferPayload, Bytes)> {
    if |payload| < PREFIX then None
    else
      match PAYLOAD.Decode(payload[..PREFIX])
      case None => None
      case Some(header) =>
        if header.compressedSize > |payload| - PREFIX || header.uncompressedSize > maxUncompressed then None
        else Some((header, payload[PREFIX..PREFIX + header.compressedSize]))
  }

  /** A header in range takes at most 26 of the 64 bytes. */
  lemma HeaderFits(header: TransferPayload)
    requires header.InRange()
    ensures |PAYLOAD.Encoded(4, header)| <= 26
  {
    UvarintLengths(header.index);
    UvarintLengths(header.compression);
    UvarintLengths(header.compressedSize);
    UvarintLengths(header.uncompressedSize);
    UvarintLengths(8);
    UvarintLengths(16);
    UvarintLengths(24);
    UvarintLengths(32);
    assert |PAYLOAD.Encoded(1, header)| <= 11;
    assert |PAYLOAD.Encoded(2, header)| <= 14;
    assert |PAYLOAD.Encoded(3, header)| <= 20;
  }

  lemma PaddingStops(header: TransferPayload, n: nat)
    requires n > 0
    ensures PAYLOAD.DecodeFrom(Zeros(n), header) == Got(header, Zeros(n)[1..])
  {
    assert Zeros(n)[0] == 0;
  }

  lemma PaddedHeaderDecodes(header: TransferPayload)
    requires header.InRange()
    ensures |PAYLOAD.Encoded(4, header)| < PREFIX
    ensures var serialized := PAYLOAD.Encoded(4, header);
      PAYLOAD.Decode(serialized + Zeros(PREFIX - |serialized|)) == Some(header)
  {
    HeaderFits(header);
    PayloadFits(header);
    PayloadLawful();
    forall number: nat ensures PAYLOAD.Known(number) <==> 1 <= number <= 4 { PayloadKnown(number); }
    var left := PREFIX - |PAYLOAD.Encoded(4, header)|;
    EncodedDecodes(PAYLOAD, 4, header, Zeros(left));
    PaddingStops(header, left);
  }

  /** Data is framed exactly when its length is the header's compressed size, and reads back, header
      and all, exactly when its uncompressed size is within the reader's limit. */
  lemma DataRoundTrip(header: TransferPayload, data: Bytes, maxUncompressed: nat)
    requires header.InRange()
    ensures var frame := EncodeTransferData(header, data);
      && (frame.Some? <==> |data| == header.compressedSize)
      && (frame.Some? ==> |frame.value| == PREFIX + |data|)
      && (frame.Some? ==>
            DecodeTransferData(frame.value, maxUncompressed)
            == (if header.uncompressedSize <= maxUncompressed then Some((header, data)) else None))
  {
    PaddedHeaderDecodes(header);
    var serialized := PAYLOAD.Encoded(4, header);
    var frame := serialized + Zeros(PREFIX - |serialized|) + data;
    assert frame[..PREFIX] == serialized + Zeros(PREFIX - |serialized|);
    assert frame[PREFIX..PREFIX + |data|] == data;
  }
}
