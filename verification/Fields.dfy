/** Tagged fields over varints (Protocol Buffers encoding, "Message Structure"): what the cursor and
    the append helpers of internal/protocol/daemon.go do for any message. */
module Fields {
  import opened Text
  import opened Varint

  // ---------- reading ----------

  function VarintValue(wire: nat, s: Bytes): (r: Read<nat>)
    ensures r.Got? ==> |r.rest| < |s|
  {
    if wire != 0 then Invalid else ReadVarint(s)
  }

  function TakeBytes(length: nat, s: Bytes): (r: Read<Bytes>)
    ensures r.Got? ==> |r.rest| <= |s|
  {
    if length > |s| then Truncated else Got(s[..length], s[length..])
  }

  /** stringValue: a length and that many bytes. */
  function StringValue(wire: nat, s: Bytes): (r: Read<Bytes>)
    ensures r.Got? ==> |r.rest| < |s|
  {
    if wire != 2 then Invalid
    else
      match ReadVarint(s)
      case Got(length, rest) => TakeBytes(length, rest)
      case Truncated => Truncated
      case Invalid => Invalid
  }

  /** skip: passes over the value of an unknown field, by wire type. */
  function Skip(wire: nat, s: Bytes): (r: Read<Bytes>)
    ensures r.Got? ==> |r.rest| <= |s|
  {
    if wire == 0 then
      match ReadVarint(s)
      case Got(_, rest) => Got([], rest)
      case Truncated => Truncated
      case Invalid => Invalid
    else if wire == 1 then TakeBytes(8, s)
    else if wire == 2 then StringValue(2, s)
    else if wire == 5 then TakeBytes(4, s)
    else Invalid
  }

  // ---------- fields and their encoding ----------

  datatype Field =
    | VarintField(number: nat, value: nat)
    | StringField(number: nat, bytes: Bytes)
    | Fixed64Field(number: nat, bytes: Bytes)
    | Fixed32Field(number: nat, bytes: Bytes)
  {
    function Wire(): nat {
      match this
      case VarintField(_, _) => 0
      case Fixed64Field(_, _) => 1
      case StringField(_, _) => 2
      case Fixed32Field(_, _) => 5
    }

    function Key(): nat {
      8 * number + Wire()
    }

    function Body(): Bytes {
      match this
      case VarintField(_, value) => AppendUvarint(value)
      case StringField(_, bytes) => AppendUvarint(|bytes|) + bytes
      case Fixed64Field(_, bytes) => bytes
      case Fixed32Field(_, bytes) => bytes
    }

    predicate WellFormed() {
      && 0 < Key() < U64
      && match this
         case VarintField(_, value) => value < U64
         case StringField(_, bytes) => |bytes| < U64
         case Fixed64Field(_, bytes) => |bytes| == 8
         case Fixed32Field(_, bytes) => |bytes| == 4
    }
  }

  function EncodeField(field: Field): Bytes {
    AppendUvarint(field.Key()) + field.Body()
  }

  function EncodeFields(fields: seq<Field>): Bytes {
    if |fields| == 0 then [] else EncodeField(fields[0]) + EncodeFields(fields[1..])
  }

  predicate AllWellFormed(fields: seq<Field>) {
    forall field <- fields :: field.WellFormed()
  }

  // ---------- messages ----------

  /** A message, as its decoder's switch describes it: which numbers carry varints (each below its
      limit) and which carry strings, and what each sets.  A strict decoder refuses a known number
      with another wire type, a lenient one skips it.  A transfer message ends at a zero key, which
      is how the zero padding of a data header is recognised.  get is the field an encoder writes. */
  datatype Schema<!M> = Schema(
    empty: M, strict: bool, stopAtZero: bool,
    limits: map<nat, nat>, strings: set<nat>,
    setNumber: (M, nat, nat) -> M, setString: (M, nat, Bytes) -> M, get: (M, nat) -> Field)
  {
    predicate Known(number: nat) {
      number in limits || number in strings
    }

    predicate IsNumber(number: nat, wire: nat) {
      number in limits && (strict || wire == 0)
    }

    predicate IsString(number: nat, wire: nat) {
      number in strings && (strict || wire == 2)
    }

    /** One turn of the switch: a field number, a wire type and the bytes behind the key. */
    function Handle(m: M, number: nat, wire: nat, s: Bytes): (r: Read<M>)
      ensures r.Got? ==> |r.rest| <= |s|
    {
      if IsNumber(number, wire) then
        match VarintValue(wire, s)
        case Got(value, rest) =>
          if value < limits[number] then Got(setNumber(m, number, value), rest) else Invalid
        case Truncated => Truncated
        case Invalid => Invalid
      else if IsString(number, wire) then
        match StringValue(wire, s)
        case Got(bytes, rest) => Got(setString(m, number, bytes), rest)
        case Truncated => Truncated
        case Invalid => Invalid
      else
        match Skip(wire, s)
        case Got(_, rest) => Got(m, rest)
        case Truncated => Truncated
        case Invalid => Invalid
    }

    /** The same for a field apart from its bytes: it sets something, is ignored, or is refused. */
    predicate Takes(field: Field) {
      if IsNumber(field.number, field.Wire()) then field.VarintField? && field.value < limits[field.number]
      else IsString(field.number, field.Wire()) && field.StringField?
    }

    predicate Accepts(field: Field) {
      Takes(field) || (!IsNumber(field.number, field.Wire()) && !IsString(field.number, field.Wire()))
    }

    predicate AllAccepted(fields: seq<Field>) {
      forall field <- fields :: Accepts(field)
    }

    function Set(m: M, field: Field): M {
      if !Takes(field) then m
      else if field.VarintField? then setNumber(m, field.number, field.value)
      else if field.StringField? then setString(m, field.number, field.bytes)
      else m
    }

    function SetAll(m: M, fields: seq<Field>): M
      decreases |fields|
    {
      if |fields| == 0 then m else SetAll(Set(m, fields[0]), fields[1..])
    }

    /** The decoding loop. */
    function DecodeFrom(s: Bytes, m: M): Read<M>
      decreases |s|
    {
      if |s| == 0 then Got(m, [])
      else
        match ReadVarint(s)
        case Truncated => Truncated
        case Invalid => Invalid
        case Got(key, body) =>
          if key == 0 && stopAtZero then Got(m, body)
          else
            match Handle(m, key / 8, key % 8, body)
            case Truncated => Truncated
            case Invalid => Invalid
            case Got(m', rest) => DecodeFrom(rest, m')
    }

    function Decode(s: Bytes): Option<M> {
      match DecodeFrom(s, empty)
      case Got(m, _) => Some(m)
      case Truncated => None
      case Invalid => None
    }

    /** The fields an encoder writes: 1 to count, in order. */
    function Canonical(count: nat, m: M): seq<Field> {
      if count == 0 then [] else Canonical(count - 1, m) + [get(m, count)]
    }

    /** What it has appended after them. */
    function Encoded(count: nat, m: M): Bytes {
      if count == 0 then [] else Encoded(count - 1, m) + EncodeField(get(m, count))
    }

    /** The last field of that number that a decoder takes. */
    function LastTaken(fields: seq<Field>, number: nat): Option<Field>
      decreases |fields|
    {
      if |fields| == 0 then None
      else
        match LastTaken(fields[1..], number)
        case Some(field) => Some(field)
        case None => if fields[0].number == number && Takes(fields[0]) then Some(fields[0]) else None
    }

    /** Every known number's last field is m's own; any others may stand anywhere between. */
    ghost predicate Carries(fields: seq<Field>, m: M) {
      forall number :: Known(number) ==> LastTaken(fields, number) == Some(get(m, number))
    }

    /** All of m is in range, so that an encoder's fields can be read back. */
    ghost predicate Fits(m: M) {
      forall number :: Known(number) ==>
        get(m, number).number == number && get(m, number).WellFormed() && Takes(get(m, number))
    }
  }

  /** The first n pieces, one behind the other. */
  function Rows(piece: nat -> Bytes, n: nat): Bytes {
    if n == 0 then [] else Rows(piece, n - 1) + piece(n)
  }

  /** An encoder's bytes are those of its fields. */
  lemma {:induction false} EncodedIsRows<M>(schema: Schema<M>, m: M, piece: nat -> Bytes, n: nat)
    requires forall k: nat | 1 <= k <= n :: EncodeField(schema.get(m, k)) == piece(k)
    ensures schema.Encoded(n, m) == Rows(piece, n)
    decreases n
  {
    if n > 0 { EncodedIsRows(schema, m, piece, n - 1); }
  }

  method DecodeLoop<M>(schema: Schema<M>, s: Bytes) returns (r: Option<M>)
    ensures r == schema.Decode(s)
  {
    var remaining, message := s, schema.empty;
    while |remaining| > 0
      invariant schema.DecodeFrom(s, schema.empty) == schema.DecodeFrom(remaining, message)
      decreases |remaining|
    {
      var key := ReadUvarintLoop(remaining);
      if !key.Got? { return None; }
      if key.value == 0 && schema.stopAtZero { return Some(message); }
      var field := schema.Handle(message, key.value / 8, key.value % 8, key.rest);
      if !field.Got? { return None; }
      remaining, message := field.rest, field.value;
    }
    r := Some(message);
  }

  // ---------- what encoded fields decode to ----------

  lemma BodyReads(field: Field, rest: Bytes)
    requires field.WellFormed()
    ensures VarintValue(field.Wire(), field.Body() + rest)
      == if field.VarintField? then Got(field.value, rest) else Invalid
    ensures StringValue(field.Wire(), field.Body() + rest)
      == if field.StringField? then Got(field.bytes, rest) else Invalid
    ensures Skip(field.Wire(), field.Body() + rest).Got? && Skip(field.Wire(), field.Body() + rest).rest == rest
  {
    match field
    case VarintField(_, value) => UvarintRoundTrip(value, rest);
    case StringField(_, bytes) =>
      assert field.Body() + rest == AppendUvarint(|bytes|) + (bytes + rest);
      UvarintRoundTrip(|bytes|, bytes + rest);
    case Fixed64Field(_, bytes) =>
    case Fixed32Field(_, bytes) =>
  }

  lemma HandleEncoded<M>(schema: Schema<M>, m: M, field: Field, rest: Bytes)
    requires field.WellFormed()
    ensures schema.Accepts(field) ==>
      schema.Handle(m, field.number, field.Wire(), field.Body() + rest) == Got(schema.Set(m, field), rest)
    ensures !schema.Accepts(field) ==>
      !schema.Handle(m, field.number, field.Wire(), field.Body() + rest).Got?
  {
    BodyReads(field, rest);
  }

  lemma DecodeOneMore<M>(schema: Schema<M>, m: M, field: Field, rest: Bytes)
    requires field.WellFormed()
    ensures schema.Accepts(field) ==>
      schema.DecodeFrom(EncodeField(field) + rest, m) == schema.DecodeFrom(rest, schema.Set(m, field))
    ensures !schema.Accepts(field) ==> !schema.DecodeFrom(EncodeField(field) + rest, m).Got?
  {
    var s := EncodeField(field) + rest;
    assert s == AppendUvarint(field.Key()) + (field.Body() + rest);
    UvarintRoundTrip(field.Key(), field.Body() + rest);
    assert field.Key() / 8 == field.number && field.Key() % 8 == field.Wire();
    HandleEncoded(schema, m, field, rest);
  }

  /** Decoding encoded fields sets them one by one and goes on behind them, or fails if one is refused. */
  lemma {:induction false} DecodeEncoded<M>(schema: Schema<M>, fields: seq<Field>, m: M, tail: Bytes)
    requires AllWellFormed(fields)
    ensures schema.AllAccepted(fields) ==>
      schema.DecodeFrom(EncodeFields(fields) + tail, m) == schema.DecodeFrom(tail, schema.SetAll(m, fields))
    ensures !schema.AllAccepted(fields) ==> !schema.DecodeFrom(EncodeFields(fields) + tail, m).Got?
    decreases |fields|
  {
    if |fields| == 0 {
      assert EncodeFields(fields) + tail == tail;
    } else {
      var field, rest := fields[0], EncodeFields(fields[1..]) + tail;
      assert fields == [field] + fields[1..];
      assert EncodeFields(fields) + tail == EncodeField(field) + rest;
      DecodeOneMore(schema, m, field, rest);
      DecodeEncoded(schema, fields[1..], schema.Set(m, field), tail);
    }
  }

  // ---------- when they decode to a given message ----------

  ghost predicate Agree<M>(schema: Schema<M>, a: M, b: M) {
    forall number :: schema.Known(number) ==> schema.get(a, number) == schema.get(b, number)
  }

  /** Setting what get gave elsewhere makes get give it here too. */
  ghost predicate SetsWhatItGets<M(!new)>(schema: Schema<M>) {
    forall m, m', number {:trigger schema.Set(m, schema.get(m', number))} ::
      schema.Takes(schema.get(m', number)) && schema.get(m', number).number == number ==>
        schema.get(schema.Set(m, schema.get(m', number)), number) == schema.get(m', number)
  }

  /** Setting one number leaves the others alone. */
  ghost predicate SetsNothingElse<M(!new)>(schema: Schema<M>) {
    forall m, field, number :: schema.Takes(field) && schema.Known(number) && number != field.number ==>
      schema.get(schema.Set(m, field), number) == schema.get(m, number)
  }

  /** The known numbers make up the whole message. */
  ghost predicate GetsEverything<M(!new)>(schema: Schema<M>) {
    forall a, b :: Agree(schema, a, b) ==> a == b
  }

  ghost predicate Lawful<M(!new)>(schema: Schema<M>) {
    SetsWhatItGets(schema) && SetsNothingElse(schema) && GetsEverything(schema)
  }

  /** Fields settle each known number to m's: by the last field taken for it, or from the start. */
  ghost predicate Settles<M>(schema: Schema<M>, fields: seq<Field>, start: M, m: M) {
    forall number :: schema.Known(number) ==>
      match schema.LastTaken(fields, number)
      case Some(field) => field == schema.get(m, number)
      case None => schema.get(start, number) == schema.get(m, number)
  }

  lemma {:induction false} SetAllSettles<M(!new)>(schema: Schema<M>, fields: seq<Field>, start: M, m: M)
    requires Lawful(schema) && Settles(schema, fields, start, m)
    ensures schema.SetAll(start, fields) == m
    decreases |fields|
  {
    if |fields| == 0 {
      assert Agree(schema, start, m);
    } else {
      var next := schema.Set(start, fields[0]);
      forall number | schema.Known(number)
        ensures match schema.LastTaken(fields[1..], number)
          case Some(field) => field == schema.get(m, number)
          case None => schema.get(next, number) == schema.get(m, number)
      {
        SettlesOn(schema, fields, start, m, number);
      }
      SetAllSettles(schema, fields[1..], next, m);
    }
  }

  lemma SettlesOn<M(!new)>(schema: Schema<M>, fields: seq<Field>, start: M, m: M, number: nat)
    requires Lawful(schema) && Settles(schema, fields, start, m)
    requires |fields| > 0 && schema.Known(number)
    ensures match schema.LastTaken(fields[1..], number)
      case Some(field) => field == schema.get(m, number)
      case None => schema.get(schema.Set(start, fields[0]), number) == schema.get(m, number)
  {
    var field := fields[0];
    if schema.LastTaken(fields[1..], number).None? && schema.Takes(field) && field.number == number {
      assert schema.LastTaken(fields, number) == Some(field);
      assert schema.Set(start, schema.get(m, number)) == schema.Set(start, field);
    }
  }

  /** Fields that carry a message decode to it, whatever unknown or superseded fields stand among
      them, and the rest is decoded behind them. */
  lemma CarriedMessageDecodes<M(!new)>(schema: Schema<M>, fields: seq<Field>, m: M, tail: Bytes)
    requires Lawful(schema)
    requires AllWellFormed(fields) && schema.AllAccepted(fields) && schema.Carries(fields, m)
    ensures schema.DecodeFrom(EncodeFields(fields) + tail, schema.empty) == schema.DecodeFrom(tail, m)
  {
    SetAllSettles(schema, fields, schema.empty, m);
    DecodeEncoded(schema, fields, schema.empty, tail);
  }

  lemma {:induction false} EncodeSnoc(fields: seq<Field>, field: Field)
    ensures EncodeFields(fields + [field]) == EncodeFields(fields) + EncodeField(field)
    decreases |fields|
  {
    if |fields| == 0 {
      assert (fields + [field])[1..] == [];
    } else {
      assert (fields + [field])[1..] == fields[1..] + [field];
      EncodeSnoc(fields[1..], field);
    }
  }

  lemma {:induction false} EncodedIsCanonical<M>(schema: Schema<M>, count: nat, m: M)
    ensures schema.Encoded(count, m) == EncodeFields(schema.Canonical(count, m))
  {
    if count > 0 {
      EncodedIsCanonical(schema, count - 1, m);
      EncodeSnoc(schema.Canonical(count - 1, m), schema.get(m, count));
    }
  }

  lemma {:induction false} LastTakenSnoc<M>(schema: Schema<M>, fields: seq<Field>, field: Field, number: nat)
    ensures schema.LastTaken(fields + [field], number)
      == if field.number == number && schema.Takes(field) then Some(field) else schema.LastTaken(fields, number)
    decreases |fields|
  {
    if |fields| == 0 {
      assert (fields + [field])[1..] == [];
    } else {
      assert (fields + [field])[1..] == fields[1..] + [field];
      LastTakenSnoc(schema, fields[1..], field, number);
    }
  }

  /** The fields an encoder writes are in range and carry the message. */
  lemma {:induction false} CanonicalCarries<M>(schema: Schema<M>, count: nat, m: M)
    requires schema.Fits(m) && forall number :: 1 <= number <= count ==> schema.Known(number)
    ensures AllWellFormed(schema.Canonical(count, m)) && schema.AllAccepted(schema.Canonical(count, m))
    ensures forall number: nat ::
      schema.LastTaken(schema.Canonical(count, m), number)
      == (if 1 <= number <= count then Some(schema.get(m, number)) else None)
  {
    if count > 0 {
      assert schema.Known(count);
      CanonicalCarries(schema, count - 1, m);
      forall number: nat
        ensures schema.LastTaken(schema.Canonical(count, m), number)
          == if 1 <= number <= count then Some(schema.get(m, number)) else None
      {
        LastTakenSnoc(schema, schema.Canonical(count - 1, m), schema.get(m, count), number);
      }
    }
  }

  /** What an encoder writes decodes to what it was given. */
  lemma EncodedDecodes<M(!new)>(schema: Schema<M>, count: nat, m: M, tail: Bytes)
    requires Lawful(schema) && schema.Fits(m)
    requires forall number: nat :: schema.Known(number) <==> 1 <= number <= count
    ensures schema.DecodeFrom(schema.Encoded(count, m) + tail, schema.empty) == schema.DecodeFrom(tail, m)
  {
    EncodedIsCanonical(schema, count, m);
    CanonicalCarries(schema, count, m);
    CarriedMessageDecodes(schema, schema.Canonical(count, m), m, tail);
  }

  // ---------- what any bytes decode to ----------

  /** Numbers below their limits and strings no longer than a varint can say keep an invariant. */
  ghost predicate Keeps<M(!new)>(schema: Schema<M>, inv: M -> bool) {
    && (forall m, number, value: nat :: inv(m) && number in schema.limits && value < schema.limits[number] && value < U64
          ==> inv(schema.setNumber(m, number, value)))
    && (forall m, number, bytes :: inv(m) && number in schema.strings && |bytes| < U64
          ==> inv(schema.setString(m, number, bytes)))
  }

  lemma HandleKeeps<M(!new)>(schema: Schema<M>, inv: M -> bool, m: M, number: nat, wire: nat, s: Bytes)
    requires Keeps(schema, inv) && inv(m)
    ensures var r := schema.Handle(m, number, wire, s); r.Got? ==> inv(r.value)
  {
    if ReadVarint(s).Got? { UvarintFits(s); }
  }

  /** So does whatever a decoder accepts. */
  lemma {:induction false} DecodeKeeps<M(!new)>(schema: Schema<M>, inv: M -> bool, s: Bytes, m: M)
    requires Keeps(schema, inv) && inv(m)
    ensures var r := schema.DecodeFrom(s, m); r.Got? ==> inv(r.value)
    decreases |s|
  {
    if |s| > 0 {
      var key := ReadVarint(s);
      if key.Got? && !(key.value == 0 && schema.stopAtZero) {
        HandleKeeps(schema, inv, m, key.value / 8, key.value % 8, key.rest);
        var field := schema.Handle(m, key.value / 8, key.value % 8, key.rest);
        if field.Got? { DecodeKeeps(schema, inv, field.rest, field.value); }
      }
    }
  }
}
