/** Base-128 varints as encoding/binary writes and reads them, bounded to 64 bits. */
module Varint {

  type Byte = b: int | 0 <= b < 256
  type Bytes = seq<Byte>

  const U8: nat := 0x100
  const U16: nat := 0x1_0000
  const U32: nat := 0x1_0000_0000
  const U64: nat := 0x1_0000_0000_0000_0000

  /** What a read from the front of some bytes gives: a value and the bytes behind it, too few bytes,
      or bytes that cannot be read that way. */
  datatype Read<+T> = Got(value: T, rest: Bytes) | Truncated | Invalid

  function AppendUvarint(value: nat): Bytes {
    if value < 128 then [value] else [value % 128 + 128] + AppendUvarint(value / 128)
  }

  /** ReadUvarint from its i-th byte on: at most ten bytes, and the tenth adds one bit. */
  function ReadUvarint(s: Bytes, i: nat): (r: Read<nat>)
    requires i <= 10
    ensures r.Got? ==> |r.rest| < |s|
    decreases |s|
  {
    if i == 10 then Invalid
    else if |s| == 0 then Truncated
    else if s[0] < 128 then
      if i == 9 && s[0] > 1 then Invalid else Got(s[0], s[1..])
    else
      match ReadUvarint(s[1..], i + 1)
      case Got(value, rest) => Got(s[0] - 128 + 128 * value, rest)
      case bad => bad
  }

  function ReadVarint(s: Bytes): Read<nat> {
    ReadUvarint(s, 0)
  }

  /** A left shift by seven bits, i times. */
  function Shift(value: nat, i: nat): nat {
    if i == 0 then value else 128 * Shift(value, i - 1)
  }

  lemma {:induction false} ShiftAdds(low: nat, high: nat, i: nat)
    ensures Shift(low + 128 * high, i) == Shift(low, i) + Shift(high, i + 1)
  {
    if i > 0 { ShiftAdds(low, high, i - 1); }
  }

  function Shifted(x: nat, i: nat, r: Read<nat>): Read<nat> {
    match r
    case Got(value, rest) => Got(x + Shift(value, i), rest)
    case bad => bad
  }

  /** Seven more bits move from the bytes into the value so far. */
  lemma StepShift(s: Bytes, i: nat, x: nat)
    requires i < 10 && |s| > 0 && s[0] >= 128
    ensures Shifted(x, i, ReadUvarint(s, i)) == Shifted(x + Shift(s[0] - 128, i), i + 1, ReadUvarint(s[1..], i + 1))
  {
    var next := ReadUvarint(s[1..], i + 1);
    if next.Got? { ShiftAdds(s[0] - 128, next.value, i); }
  }

  /** The loop of ReadUvarint, which collects the value so far. */
  method ReadUvarintLoop(s: Bytes) returns (r: Read<nat>)
    ensures r == ReadVarint(s)
  {
    var remaining, x: nat, i := s, 0, 0;
    while i < 10
      invariant 0 <= i <= 10
      invariant ReadVarint(s) == Shifted(x, i, ReadUvarint(remaining, i))
    {
      if |remaining| == 0 { return Truncated; }
      var b := remaining[0];
      if b < 128 {
        if i == 9 && b > 1 { return Invalid; }
        return Got(x + Shift(b, i), remaining[1..]);
      }
      StepShift(remaining, i, x);
      x, remaining, i := x + Shift(b - 128, i), remaining[1..], i + 1;
    }
    r := Invalid;
  }

  /** One more than the largest value that fits from the i-th byte on. */
  function Room(i: nat): (room: nat)
    requires i < 10
    ensures room >= 2
    decreases 10 - i
  {
    if i == 9 then 2 else 128 * Room(i + 1)
  }

  lemma RoomForAll()
    ensures Room(0) == U64
  {
    assert Room(8) == 256;
    assert Room(7) == 32768;
    assert Room(6) == 0x40_0000;
    assert Room(5) == 0x2000_0000;
    assert Room(4) == 0x10_0000_0000;
    assert Room(3) == 0x800_0000_0000;
    assert Room(2) == 0x4_0000_0000_0000;
    assert Room(1) == 0x200_0000_0000_0000;
  }

  lemma SplitOff(value: nat, i: nat)
    requires i < 10 && 128 <= value < Room(i)
    ensures i < 9 && value / 128 < Room(i + 1) && value == value % 128 + 128 * (value / 128)
  {
  }

  lemma {:induction false} UvarintRoundTripFrom(value: nat, i: nat, rest: Bytes)
    requires i < 10 && value < Room(i)
    ensures ReadUvarint(AppendUvarint(value) + rest, i) == Got(value, rest)
    decreases value
  {
    var s := AppendUvarint(value) + rest;
    if value < 128 {
      assert s[1..] == rest;
    } else {
      SplitOff(value, i);
      UvarintRoundTripFrom(value / 128, i + 1, rest);
      assert s == [value % 128 + 128] + (AppendUvarint(value / 128) + rest);
    }
  }

  /** Every 64-bit value reads back, whatever follows it. */
  lemma UvarintRoundTrip(value: nat, rest: Bytes)
    requires value < U64
    ensures ReadVarint(AppendUvarint(value) + rest) == Got(value, rest)
  {
    RoomForAll();
    UvarintRoundTripFrom(value, 0, rest);
  }

  lemma {:induction false} ReadBelowRoom(s: Bytes, i: nat)
    requires i < 10 && ReadUvarint(s, i).Got?
    ensures ReadUvarint(s, i).value < Room(i)
    decreases 10 - i
  {
    if i < 9 {
      assert Room(i) == 128 * Room(i + 1);
      if s[0] >= 128 { ReadBelowRoom(s[1..], i + 1); }
    }
  }

  /** Whatever is read fits 64 bits. */
  lemma UvarintFits(s: Bytes)
    requires ReadVarint(s).Got?
    ensures ReadVarint(s).value < U64
  {
    RoomForAll();
    ReadBelowRoom(s, 0);
  }

  /** A value that has been cut short is never read. */
  lemma {:induction false} UvarintCutShort(value: nat, i: nat, k: nat)
    requires i < 10 && value < Room(i) && k < |AppendUvarint(value)|
    ensures ReadUvarint(AppendUvarint(value)[..k], i) == Truncated
    decreases value
  {
    var s := AppendUvarint(value);
    if value >= 128 && k > 0 {
      assert s[..k][1..] == AppendUvarint(value / 128)[..k - 1];
      UvarintCutShort(value / 128, i + 1, k - 1);
    }
  }

  function Power128(k: nat): nat {
    if k == 0 then 1 else 128 * Power128(k - 1)
  }

  /** Seven bits a byte. */
  lemma {:induction false} UvarintLength(value: nat, k: nat)
    requires k > 0 && value < Power128(k)
    ensures 1 <= |AppendUvarint(value)| <= k
    decreases k
  {
    assert Power128(1) == 128;
    if value >= 128 {
      UvarintLength(value / 128, k - 1);
    }
  }

  lemma UvarintLengths(value: nat)
    ensures value < 128 ==> |AppendUvarint(value)| == 1
    ensures value < U8 ==> 1 <= |AppendUvarint(value)| <= 2
    ensures value < U32 ==> 1 <= |AppendUvarint(value)| <= 5
    ensures value < U64 ==> 1 <= |AppendUvarint(value)| <= 10
  {
    assert Power128(2) == 128 * Power128(1) && Power128(1) == 128;
    assert Power128(4) == 128 * Power128(3) && Power128(3) == 128 * Power128(2);
    assert Power128(6) == 128 * Power128(5) && Power128(5) == 128 * Power128(4);
    assert Power128(8) == 128 * Power128(7) && Power128(7) == 128 * Power128(6);
    assert Power128(10) == 128 * Power128(9) && Power128(9) == 128 * Power128(8);
    if value < U8 { UvarintLength(value, 2); }
    if value < U32 { UvarintLength(value, 5); }
    if value < U64 { UvarintLength(value, 10); }
  }
}
