/** The fixed-width handshake TLV of internal/protocol/daemon.go: a 16-character tag, a 16-character
    decimal length, then the value. */
module Tlv {
  import opened Text

  const WIDTH := 16

  // ---------- decimal numbers ----------

  function Digit(d: nat): char
    requires d < 10
  {
    d as char + '0'
  }

  predicate IsDigit(c: char) {
    '0' <= c <= '9'
  }

  function Decimal(n: nat): string {
    if n < 10 then [Digit(n)] else Decimal(n / 10) + [Digit(n % 10)]
  }

  function ParseDecimal(s: string): Option<nat> {
    if |s| == 0 then Some(0)
    else
      match ParseDecimal(s[..|s| - 1])
      case Some(n) =>
        var c := s[|s| - 1];
        if IsDigit(c) then Some(n * 10 + (c as int - '0' as int)) else None
      case None => None
  }

  /** The digit loop of ParseHandshakeTLV. */
  method ParseDecimalLoop(s: string) returns (length: Option<nat>)
    ensures length == ParseDecimal(s)
  {
    var n := 0;
    for i := 0 to |s|
      invariant ParseDecimal(s[..i]) == Some(n)
    {
      assert s[..i + 1][..i] == s[..i];
      if !IsDigit(s[i]) {
        NoDigitNoNumber(s, i);
        return None;
      }
      n := n * 10 + (s[i] as int - '0' as int);
    }
    assert s[..|s|] == s;
    length := Some(n);
  }

  lemma {:induction false} NoDigitNoNumber(s: string, i: nat)
    requires i < |s| && !IsDigit(s[i])
    ensures ParseDecimal(s) == None
    decreases |s|
  {
    if i < |s| - 1 { NoDigitNoNumber(s[..|s| - 1], i); }
  }

  lemma {:induction false} DecimalRoundTrip(n: nat)
    ensures ParseDecimal(Decimal(n)) == Some(n)
  {
    if n < 10 {
      assert Decimal(n)[..0] == [];
    } else {
      DecimalRoundTrip(n / 10);
      assert Decimal(n)[..|Decimal(n)| - 1] == Decimal(n / 10);
    }
  }

  function Power10(k: nat): nat {
    if k == 0 then 1 else 10 * Power10(k - 1)
  }

  lemma {:induction false} DecimalLength(n: nat, k: nat)
    requires k > 0 && n < Power10(k)
    ensures 1 <= |Decimal(n)| <= k
    decreases k
  {
    assert Power10(1) == 10;
    if n >= 10 { DecimalLength(n / 10, k - 1); }
  }

  lemma {:induction false} DecimalIsDigits(n: nat)
    ensures |Decimal(n)| > 0 && forall c <- Decimal(n) :: IsDigit(c)
  {
    if n >= 10 { DecimalIsDigits(n / 10); }
  }

  // ---------- padding and trimming ----------

  function Spaces(n: nat): string {
    seq(n, _ => ' ')
  }

  /** Left-justified in the width, and longer when it does not fit. */
  function Pad(s: string): string {
    if |s| < WIDTH then s + Spaces(WIDTH - |s|) else s
  }

  lemma {:induction false} TrimSpacesBehind(s: string, n: nat)
    ensures Trim(s + Spaces(n)) == Trim(s)
    decreases |s| + n
  {
    if n == 0 {
      assert s + Spaces(0) == s;
    } else if |s| > 0 && IsSpace(s[0]) {
      assert (s + Spaces(n))[1..] == s[1..] + Spaces(n);
      TrimSpacesBehind(s[1..], n);
    } else if |s| == 0 {
      assert s + Spaces(n) == Spaces(n) && Spaces(n)[1..] == s + Spaces(n - 1);
      TrimSpacesBehind(s, n - 1);
    } else {
      assert (s + Spaces(n))[..|s| + n - 1] == s + Spaces(n - 1);
      TrimSpacesBehind(s, n - 1);
    }
  }

  lemma TrimPadded(s: string)
    ensures Trim(Pad(s)) == Trim(s)
  {
    if |s| < WIDTH { TrimSpacesBehind(s, WIDTH - |s|); }
  }

  lemma TrimDecimal(n: nat)
    ensures Trim(Decimal(n)) == Decimal(n)
  {
    DecimalIsDigits(n);
    assert Decimal(n)[0] in Decimal(n) && Decimal(n)[|Decimal(n)| - 1] in Decimal(n);
  }

  // ---------- append and parse ----------

  type Fields = map<string, string>

  function Cut(tag: string): (cut: string) {
    if |tag| > WIDTH then tag[..WIDTH] else tag
  }

  function Row(tag: string, value: string): string {
    Pad(Cut(tag)) + Pad(Decimal(|value|)) + value
  }

  /** AppendHandshakeTLV. */
  function Append(buffer: string, tag: string, value: string): string {
    buffer + Row(tag, value)
  }

  /** A blank tag is dropped, a repeated one overwritten. */
  function Put(fields: Fields, tag: string, value: string): Fields {
    if tag == "" then fields else fields[tag := value]
  }

  /** The next value's length, or None when the buffer is malformed here. */
  function NextLength(remaining: string): (length: Option<nat>)
    ensures length.Some? ==> 2 * WIDTH + length.value <= |remaining|
  {
    if |remaining| < 2 * WIDTH then None
    else
      match ParseDecimal(Trim(remaining[WIDTH..2 * WIDTH]))
      case Some(n) => if 2 * WIDTH + n > |remaining| then None else Some(n)
      case None => None
  }

  /** ParseHandshakeTLV. */
  function ParseFrom(remaining: string, fields: Fields): Option<Fields>
    decreases |remaining|
  {
    if remaining == "" then Some(fields)
    else
      match NextLength(remaining)
      case None => None
      case Some(n) =>
        var start := 2 * WIDTH;
        ParseFrom(remaining[start + n..], Put(fields, Trim(remaining[..WIDTH]), remaining[start..start + n]))
  }

  function Parse(buffer: string): Option<Fields> {
    ParseFrom(buffer, map[])
  }

  method ParseLoop(buffer: string) returns (result: Option<Fields>)
    ensures result == Parse(buffer)
  {
    var fields: Fields, remaining := map[], buffer;
    while remaining != ""
      invariant ParseFrom(buffer, map[]) == ParseFrom(remaining, fields)
      decreases |remaining|
    {
      if |remaining| < 2 * WIDTH { return None; }
      var tag := Trim(remaining[..WIDTH]);
      var length := ParseDecimalLoop(Trim(remaining[WIDTH..2 * WIDTH]));
      if length.None? { return None; }
      var start := 2 * WIDTH;
      if start + length.value > |remaining| { return None; }
      if tag != "" { fields := fields[tag := remaining[start..start + length.value]]; }
      remaining := remaining[start + length.value..];
    }
    result := Some(fields);
  }

  // ---------- round trip ----------

  /** Any length a 64-bit program can hold, as far as 16 digits reach. */
  predicate LengthFits(value: string) {
    |value| < Power10(WIDTH)
  }

  lemma RowFront(tag: string, value: string)
    requires LengthFits(value)
    ensures var s := Row(tag, value);
      && |s| == 2 * WIDTH + |value|
      && s[..WIDTH] == Pad(Cut(tag))
      && s[WIDTH..2 * WIDTH] == Pad(Decimal(|value|))
      && s[2 * WIDTH..] == value
  {
    DecimalLength(|value|, WIDTH);
  }

  lemma RowParses(tag: string, value: string, fields: Fields)
    requires LengthFits(value)
    ensures ParseFrom(Row(tag, value), fields) == Some(Put(fields, Trim(Cut(tag)), value))
  {
    RowFront(tag, value);
    TrimPadded(Cut(tag));
    TrimPadded(Decimal(|value|));
    TrimDecimal(|value|);
    DecimalRoundTrip(|value|);
    var s := Row(tag, value);
    assert s[2 * WIDTH..2 * WIDTH + |value|] == value && s[2 * WIDTH + |value|..] == "";
  }

  /** A buffer that parses on its own is passed over. */
  lemma {:induction false} ParseBehind(s: string, t: string, fields: Fields)
    requires ParseFrom(s, fields).Some?
    ensures ParseFrom(s + t, fields) == ParseFrom(t, ParseFrom(s, fields).value)
    decreases |s|
  {
    if s == "" {
      assert s + t == t;
    } else {
      var n := NextLength(s).value;
      var end := 2 * WIDTH + n;
      assert (s + t)[..WIDTH] == s[..WIDTH] && (s + t)[WIDTH..2 * WIDTH] == s[WIDTH..2 * WIDTH];
      assert (s + t)[2 * WIDTH..end] == s[2 * WIDTH..end] && (s + t)[end..] == s[end..] + t;
      ParseBehind(s[end..], t, Put(fields, Trim(s[..WIDTH]), s[2 * WIDTH..end]));
    }
  }

  /** Appending to a buffer that parses sets one field: that of the tag's first 16 characters
      without surrounding space, unless they are blank. */
  lemma AppendParses(buffer: string, tag: string, value: string)
    requires Parse(buffer).Some? && LengthFits(value)
    ensures Parse(Append(buffer, tag, value)) == Some(Put(Parse(buffer).value, Trim(Cut(tag)), value))
  {
    ParseBehind(buffer, Row(tag, value), map[]);
    RowParses(tag, value, Parse(buffer).value);
  }

  datatype Item = Item(tag: string, value: string)

  function AppendAll(items: seq<Item>): string {
    if |items| == 0 then ""
    else
      var last := items[|items| - 1];
      Append(AppendAll(items[..|items| - 1]), last.tag, last.value)
  }

  predicate ProperTag(tag: string) {
    0 < |tag| <= WIDTH && !IsSpace(tag[0]) && !IsSpace(tag[|tag| - 1])
  }

  lemma TrimProper(tag: string)
    requires ProperTag(tag)
    ensures Trim(Cut(tag)) == tag
  {
  }

  /** The value of the last item with that tag. */
  function LastValue(items: seq<Item>, tag: string): Option<string> {
    if |items| == 0 then None
    else
      var last := items[|items| - 1];
      if last.tag == tag then Some(last.value) else LastValue(items[..|items| - 1], tag)
  }

  function Lookup(fields: Fields, tag: string): Option<string> {
    if tag in fields then Some(fields[tag]) else None
  }

  /** Whatever list of items is appended, it parses, and every tag has its last value and no other. */
  lemma {:induction false} AppendedListParses(items: seq<Item>)
    requires forall item <- items :: ProperTag(item.tag) && LengthFits(item.value)
    ensures Parse(AppendAll(items)).Some?
    ensures forall tag :: Lookup(Parse(AppendAll(items)).value, tag) == LastValue(items, tag)
    decreases |items|
  {
    if |items| > 0 {
      var front, last := items[..|items| - 1], items[|items| - 1];
      assert last in items && forall item <- front :: item in items;
      AppendedListParses(front);
      ProperAppendParses(AppendAll(front), last.tag, last.value);
    }
  }

  lemma ProperAppendParses(buffer: string, tag: string, value: string)
    requires Parse(buffer).Some? && LengthFits(value) && ProperTag(tag)
    ensures Parse(Append(buffer, tag, value)) == Some(Parse(buffer).value[tag := value])
  {
    AppendParses(buffer, tag, value);
    TrimProper(tag);
  }

  // ---------- the authentication status ----------

  function AuthStatus(deviceName: string, message: string, status: string): string {
    var buffer := Append("", "emgmsg", message);
    var named := Append(buffer, "devname", deviceName);
    var judged := Append(named, "daemonauthstatus", status);
    Append(judged, "1200", "enable")
  }

  /** buildAuthStatusTLV parses back to its four fields, whatever they hold. */
  lemma AuthStatusParses(deviceName: string, message: string, status: string)
    requires LengthFits(deviceName) && LengthFits(message) && LengthFits(status)
    ensures Parse(AuthStatus(deviceName, message, status)) == Some(map[
      "emgmsg" := message, "devname" := deviceName, "daemonauthstatus" := status, "1200" := "enable"])
  {
    var buffer := Append("", "emgmsg", message);
    var named := Append(buffer, "devname", deviceName);
    var judged := Append(named, "daemonauthstatus", status);
    ProperAppendParses("", "emgmsg", message);
    ProperAppendParses(buffer, "devname", deviceName);
    ProperAppendParses(named, "daemonauthstatus", status);
    EnableFits();
    ProperAppendParses(judged, "1200", "enable");
  }

  lemma EnableFits()
    ensures LengthFits("enable")
  {
    assert Power10(1) == 10;
  }
}
