/** Whole command lines: words and redirects, however quoted, spaced and joined, are lexed into one segment
    for each command, with its words, the files it is redirected to and whether its input is piped
    (internal/policy/shell.go, lexShellSegments). */
module ShellLines {
  import opened Text
  import opened ShellLexer
  import opened ShellQuoting
  import opened ShellPipes

  // ---------- command lines and what they mean ----------

  /** A word of a command, or the file it is redirected to, with the blanks in front. */
  datatype Item =
    | Arg(gap: string, word: Word)
    | Redirect(gap: string, op: string, space: string, word: Word)

  /** A command, the blanks behind it and what joins it to the next. */
  datatype Part = Part(items: seq<Item>, tail: string, joiner: string)

  /** Commands, each joined to the next, up to a last one. */
  datatype Line = Line(parts: seq<Part>, items: seq<Item>)

  predicate IsJoiner(joiner: string) {
    joiner in {";", "&", "&&", "|", "||", "(", ")", "\n", "\r", "\0"}
  }

  predicate IsPipe(joiner: string) {
    joiner == "|" || joiner == "||"
  }

  predicate ItemOk(item: Item) {
    && IsBlanks(item.gap) && CanRender(item.word.text, item.word.style)
    && (item.Redirect? ==> IsRedirect(item.op) && IsBlanks(item.space))
  }

  /** Words are kept apart by blanks. */
  predicate ItemsOk(items: seq<Item>) {
    && (forall item <- items :: ItemOk(item))
    && (forall i | 0 < i < |items| && items[i].Arg? :: items[i].gap != "")
  }

  /** A pipe joins commands, and is kept apart from the target of a redirect. */
  predicate PartOk(part: Part) {
    && ItemsOk(part.items) && IsBlanks(part.tail) && IsJoiner(part.joiner)
    && (IsPipe(part.joiner) ==> |part.items| > 0 && (part.items[|part.items| - 1].Redirect? ==> part.tail != ""))
  }

  predicate LineOk(line: Line) {
    (forall part <- line.parts :: PartOk(part)) && ItemsOk(line.items)
  }

  function RenderItem(item: Item): string {
    match item
    case Arg(gap, word) => gap + Render(word.text, word.style)
    case Redirect(gap, op, space, word) => gap + (op + space + Render(word.text, word.style))
  }

  function RenderItems(items: seq<Item>): string {
    if |items| == 0 then "" else RenderItem(items[0]) + RenderItems(items[1..])
  }

  function RenderPart(part: Part): string {
    RenderItems(part.items) + part.tail + part.joiner
  }

  function RenderLine(line: Line): string
    decreases |line.parts|
  {
    if |line.parts| == 0 then RenderItems(line.items)
    else RenderPart(line.parts[0]) + RenderLine(Line(line.parts[1..], line.items))
  }

  /** The words of a command. */
  function Args(items: seq<Item>): seq<string> {
    if |items| == 0 then []
    else (if items[0].Arg? then [items[0].word.text] else []) + Args(items[1..])
  }

  /** The files it is redirected to. */
  function Targets(items: seq<Item>): seq<string> {
    if |items| == 0 then []
    else (if items[0].Redirect? then [items[0].word.text] else []) + Targets(items[1..])
  }

  /** One segment for each command that is not empty; only `|` pipes, over empty commands too. */
  function Meaning(line: Line, piped: bool): seq<Segment>
    decreases |line.parts|
  {
    var items := if |line.parts| == 0 then line.items else line.parts[0].items;
    var first := if |items| == 0 then [] else [Segment(Args(items), Targets(items), [], piped, false)];
    if |line.parts| == 0 then first
    else
      var feeds := line.parts[0].joiner == "|" || (|items| == 0 && piped);
      first + Meaning(Line(line.parts[1..], line.items), feeds)
  }

  // ---------- items ----------

  /** Outside quotes, with nothing of a token or redirect left over. */
  predicate Tidy(st: Scan) {
    st.mode.Closed() && (!st.tokenStarted ==> st.token == "" && !st.pendingRedirect)
  }

  function ItemEnd(st: Scan, item: Item): Scan {
    AtWordEnd(if item.Arg? then st.FlushToken() else Redirecting(st), item.word.text)
  }

  lemma LeadsGap(st: Scan, blanks: string)
    requires Tidy(st) && IsBlanks(blanks)
    ensures Leads(st, blanks, if blanks == "" then st else st.FlushToken())
  {
    if blanks == "" {
      LeadsNowhere(st);
    } else {
      assert blanks[0] in blanks;
      LeadsStep(st, blanks[0], EndToken);
      assert forall c <- blanks[1..] :: c in blanks;
      LeadsBlanks(st.FlushToken(), blanks[1..]);
      LeadsChain(st, [blanks[0]], st.FlushToken(), blanks[1..], st.FlushToken());
      assert [blanks[0]] + blanks[1..] == blanks;
    }
  }

  lemma LeadsArg(st: Scan, gap: string, word: Word)
    requires Tidy(st) && IsBlanks(gap) && CanRender(word.text, word.style) && (gap == "" ==> !st.tokenStarted)
    ensures Leads(st, gap + Render(word.text, word.style), AtWordEnd(st.FlushToken(), word.text))
  {
    LeadsGap(st, gap);
    assert gap == "" ==> st.FlushToken() == st;
    LeadsWord(st.FlushToken(), word);
    LeadsChain(st, gap, st.FlushToken(), Render(word.text, word.style), AtWordEnd(st.FlushToken(), word.text));
  }

  lemma LeadsItem(st: Scan, item: Item)
    requires Tidy(st) && ItemOk(item) && (item.Arg? && item.gap == "" ==> !st.tokenStarted)
    ensures Leads(st, RenderItem(item), ItemEnd(st, item)) && Tidy(ItemEnd(st, item)) && ItemEnd(st, item).tokenStarted
  {
    match item
    case Arg(gap, word) => LeadsArg(st, gap, word);
    case Redirect(gap, op, space, word) =>
      var behind := if gap == "" then st else st.FlushToken();
      LeadsGap(st, gap);
      assert Redirecting(behind) == Redirecting(st);
      LeadsTarget(behind, op, space, word);
      LeadsChain(st, gap, behind, op + space + Render(word.text, word.style), ItemEnd(st, item));
  }

  function ItemsEnd(st: Scan, items: seq<Item>): Scan
    decreases |items|
  {
    if |items| == 0 then st else ItemsEnd(ItemEnd(st, items[0]), items[1..])
  }

  lemma {:induction false} LeadsItems(st: Scan, items: seq<Item>)
    requires Tidy(st) && ItemsOk(items)
    requires |items| > 0 && items[0].Arg? && items[0].gap == "" ==> !st.tokenStarted
    ensures Leads(st, RenderItems(items), ItemsEnd(st, items)) && Tidy(ItemsEnd(st, items))
    ensures |items| > 0 && items[|items| - 1].Arg? ==> !ItemsEnd(st, items).pendingRedirect
    ensures |items| == 0 ==> ItemsEnd(st, items) == st
    decreases |items|
  {
    if |items| == 0 {
      LeadsNowhere(st);
    } else {
      var rest := items[1..];
      assert items[0] in items && forall item <- rest :: item in items;
      LeadsItem(st, items[0]);
      LeadsItems(ItemEnd(st, items[0]), rest);
      LeadsChain(st, RenderItem(items[0]), ItemEnd(st, items[0]), RenderItems(rest), ItemsEnd(st, items));
      if |items| == 1 { assert items[0].Arg? ==> !ItemEnd(st, items[0]).pendingRedirect; }
    }
  }

  function WithItems(st: Scan, items: seq<Item>): Scan {
    st.(current := st.current.(
          tokens := st.current.tokens + Args(items), redirects := st.current.redirects + Targets(items)))
  }

  lemma ItemFlushed(st: Scan, item: Item)
    requires Tidy(st)
    ensures ItemEnd(st, item).FlushToken() == WithItems(st.FlushToken(), [item])
  {
    var y := st.FlushToken();
    assert Args([item]) == if item.Arg? then [item.word.text] else [];
    assert Targets([item]) == if item.Redirect? then [item.word.text] else [];
    assert y.current.tokens + [] == y.current.tokens && y.current.redirects + [] == y.current.redirects;
  }

  lemma WithMoreItems(st: Scan, item: Item, rest: seq<Item>)
    ensures WithItems(WithItems(st, [item]), rest) == WithItems(st, [item] + rest)
  {
    assert ([item] + rest)[1..] == rest;
    assert Args([item] + rest) == Args([item]) + Args(rest);
    assert Targets([item] + rest) == Targets([item]) + Targets(rest);
    assert st.current.tokens + (Args([item]) + Args(rest)) == st.current.tokens + Args([item]) + Args(rest);
    assert st.current.redirects + (Targets([item]) + Targets(rest)) == st.current.redirects + Targets([item]) + Targets(rest);
  }

  lemma {:induction false} ItemsFlushed(st: Scan, items: seq<Item>)
    requires Tidy(st) && ItemsOk(items)
    requires |items| > 0 && items[0].Arg? && items[0].gap == "" ==> !st.tokenStarted
    ensures ItemsEnd(st, items).FlushToken() == WithItems(st.FlushToken(), items)
    decreases |items|
  {
    if |items| == 0 {
      var y := st.FlushToken();
      assert y.current.tokens + [] == y.current.tokens && y.current.redirects + [] == y.current.redirects;
    } else {
      var rest := items[1..];
      assert items[0] in items && forall item <- rest :: item in items;
      LeadsItem(st, items[0]);
      ItemFlushed(st, items[0]);
      ItemsFlushed(ItemEnd(st, items[0]), rest);
      WithMoreItems(st.FlushToken(), items[0], rest);
      assert [items[0]] + rest == items;
    }
  }

  // ---------- lines ----------

  /** Where a command begins. */
  function Start(segments: seq<Segment>, piped: bool): Scan {
    Scan(segments, FreshSegment(piped), "", false, false, Mode(false, false, 0, false))
  }

  function SegmentsOf(items: seq<Item>, piped: bool): seq<Segment> {
    if |items| == 0 then [] else [Segment(Args(items), Targets(items), [], piped, false)]
  }

  lemma {:induction false} SomethingThere(items: seq<Item>)
    ensures |items| > 0 ==> |Args(items)| > 0 || |Targets(items)| > 0
  {
  }

  /** A command has been read and is cut off. */
  lemma CommandCut(segments: seq<Segment>, piped: bool, items: seq<Item>, next: bool)
    ensures WithItems(Start(segments, piped), items).CloseSegment(next)
      == Start(segments + SegmentsOf(items, piped), next || (|items| == 0 && piped))
  {
    SomethingThere(items);
    assert [] + Args(items) == Args(items) && [] + Targets(items) == Targets(items);
    assert segments + [] == segments;
  }

  lemma LeadsCut(st: Scan, c: char)
    requires st.mode.Closed() && IsSegmentSeparator(c)
    ensures Leads(st, [c], st.FlushSegment(false))
  {
    LeadsStep(st, c, Cut(false));
    assert Apply(st, Cut(false)) == st.FlushSegment(false);
  }

  lemma CutTwice(st: Scan)
    requires Tidy(st)
    ensures st.FlushSegment(false).FlushSegment(false) == st.FlushSegment(false)
  {
  }

  predicate NoPipe(rest: string) {
    |rest| > 0 ==> rest[0] != '|'
  }

  /** Scanning s takes the scanner from one state to the other, unless a pipe comes behind it. */
  ghost predicate LeadsUnlessPipe(before: Scan, s: string, after: Scan) {
    forall rest {:trigger Run(before, s + rest)} | NoPipe(rest) :: Run(before, s + rest) == Run(after, rest)
  }

  lemma LeadsAnyway(a: Scan, s: string, b: Scan)
    requires Leads(a, s, b)
    ensures LeadsUnlessPipe(a, s, b)
  {
  }

  lemma LeadsOn(a: Scan, s: string, b: Scan, t: string, c: Scan)
    requires Leads(a, s, b) && LeadsUnlessPipe(b, t, c)
    ensures LeadsUnlessPipe(a, s + t, c)
  {
    forall rest | NoPipe(rest) ensures Run(a, s + t + rest) == Run(c, rest) {
      var tail := t + rest;
      assert Run(a, s + tail) == Run(b, tail) == Run(c, rest);
      assert s + t + rest == s + tail;
    }
  }

  lemma LeadsPipe(st: Scan)
    requires st.mode.Closed() && !st.pendingRedirect
    ensures LeadsUnlessPipe(st, "|", st.FlushSegment(true)) && Leads(st, "||", st.FlushSegment(false))
  {
    forall rest | NoPipe(rest) ensures Run(st, "|" + rest) == Run(st.FlushSegment(true), rest) { CutAtPipe(st, rest); }
    forall rest ensures Run(st, "||" + rest) == Run(st.FlushSegment(false), rest) { CutAtOr(st, rest); }
  }

  /** The joiner, whatever comes behind it. */
  lemma Joins(st: Scan, joiner: string)
    requires Tidy(st) && IsJoiner(joiner) && (IsPipe(joiner) ==> !st.pendingRedirect)
    ensures LeadsUnlessPipe(st, joiner, st.FlushSegment(joiner == "|"))
  {
    if IsPipe(joiner) {
      LeadsPipe(st);
      if joiner == "||" { LeadsAnyway(st, joiner, st.FlushSegment(false)); }
    } else {
      LeadsCut(st, joiner[0]);
      if joiner == "&&" {
        LeadsCut(st.FlushSegment(false), '&');
        CutTwice(st);
        LeadsChain(st, "&", st.FlushSegment(false), "&", st.FlushSegment(false));
        assert joiner == "&" + "&";
      } else {
        assert joiner == [joiner[0]];
      }
      LeadsAnyway(st, joiner, st.FlushSegment(false));
    }
  }

  /** A line never begins with a pipe. */
  lemma ItemStart(item: Item)
    requires ItemOk(item)
    ensures |RenderItem(item)| > 0 && RenderItem(item)[0] != '|'
  {
    RenderStart(item.word);
    if item.gap != "" {
      assert item.gap[0] in item.gap && RenderItem(item)[0] == item.gap[0];
    } else if item.Redirect? {
      assert RenderItem(item)[0] == item.op[0] == '>';
    } else {
      assert RenderItem(item)[0] == Render(item.word.text, item.word.style)[0];
    }
  }

  lemma RenderStart(word: Word)
    ensures |Render(word.text, word.style)| > 0 && Render(word.text, word.style)[0] in {'\'', '\"', '\\'}
  {
  }

  lemma LineStart(line: Line)
    requires LineOk(line) && |RenderLine(line)| > 0
    ensures RenderLine(line)[0] != '|'
  {
    if |line.parts| == 0 {
      assert line.items[0] in line.items;
      ItemStart(line.items[0]);
    } else {
      var part := line.parts[0];
      assert part in line.parts;
      assert RenderLine(line)[0] == RenderPart(part)[0];
      if |part.items| > 0 {
        assert part.items[0] in part.items;
        ItemStart(part.items[0]);
      } else if part.tail != "" {
        assert RenderPart(part)[0] == part.tail[0] && part.tail[0] in part.tail;
      } else {
        assert RenderPart(part) == part.joiner;
      }
    }
  }

  /** A command has been read up to its joiner. */
  function CommandEnd(st: Scan, items: seq<Item>, tail: string): Scan {
    if tail == "" then ItemsEnd(st, items) else ItemsEnd(st, items).FlushToken()
  }

  lemma CommandRead(st: Scan, items: seq<Item>, tail: string)
    requires Tidy(st) && !st.tokenStarted && ItemsOk(items) && IsBlanks(tail)
    ensures Leads(st, RenderItems(items) + tail, CommandEnd(st, items, tail)) && Tidy(CommandEnd(st, items, tail))
    ensures CommandEnd(st, items, tail).FlushToken() == WithItems(st, items)
    ensures |items| > 0 && (items[|items| - 1].Redirect? ==> tail != "") ==> !CommandEnd(st, items, tail).pendingRedirect
  {
    var end := ItemsEnd(st, items);
    LeadsItems(st, items);
    ItemsFlushed(st, items);
    LeadsGap(end, tail);
    LeadsChain(st, RenderItems(items), end, tail, CommandEnd(st, items, tail));
  }

  lemma StartIsTidy(segments: seq<Segment>, piped: bool)
    ensures Tidy(Start(segments, piped)) && !Start(segments, piped).tokenStarted
  {
  }

  /** A command with its joiner is scanned into its segment. */
  lemma PartScanned(segments: seq<Segment>, piped: bool, part: Part)
    requires PartOk(part)
    ensures LeadsUnlessPipe(Start(segments, piped), RenderPart(part),
      Start(segments + SegmentsOf(part.items, piped), part.joiner == "|" || (|part.items| == 0 && piped)))
  {
    var st := Start(segments, piped);
    var end := CommandEnd(st, part.items, part.tail);
    StartIsTidy(segments, piped);
    CommandRead(st, part.items, part.tail);
    Joins(end, part.joiner);
    CommandCut(segments, piped, part.items, part.joiner == "|");
    LeadsOn(st, RenderItems(part.items) + part.tail, end, part.joiner, end.FlushSegment(part.joiner == "|"));
  }

  lemma LeadsPast(a: Scan, s: string, b: Scan, t: string, c: Scan)
    requires LeadsUnlessPipe(a, s, b) && LeadsUnlessPipe(b, t, c) && NoPipe(t)
    ensures LeadsUnlessPipe(a, s + t, c)
  {
    forall rest | NoPipe(rest) ensures Run(a, s + t + rest) == Run(c, rest) {
      var tail := t + rest;
      assert NoPipe(tail);
      assert Run(a, s + tail) == Run(b, tail) == Run(c, rest);
      assert s + t + rest == s + tail;
    }
  }

  /** Where the scanner is behind a line. */
  function LineEnd(segments: seq<Segment>, piped: bool, line: Line): Scan
    decreases |line.parts|
  {
    if |line.parts| == 0 then ItemsEnd(Start(segments, piped), line.items)
    else
      var items, joiner := line.parts[0].items, line.parts[0].joiner;
      LineEnd(segments + SegmentsOf(items, piped), joiner == "|" || (|items| == 0 && piped), Line(line.parts[1..], line.items))
  }

  lemma FirstPart(line: Line, piped: bool)
    requires |line.parts| > 0
    ensures var items, joiner := line.parts[0].items, line.parts[0].joiner;
      Meaning(line, piped) == SegmentsOf(items, piped)
        + Meaning(Line(line.parts[1..], line.items), joiner == "|" || (|items| == 0 && piped))
  {
  }

  lemma OtherParts(line: Line)
    requires LineOk(line) && |line.parts| > 0
    ensures PartOk(line.parts[0]) && LineOk(Line(line.parts[1..], line.items))
  {
    assert line.parts[0] in line.parts && forall p <- line.parts[1..] :: p in line.parts;
  }

  lemma {:induction false} LineScanned(segments: seq<Segment>, piped: bool, line: Line)
    requires LineOk(line)
    ensures LeadsUnlessPipe(Start(segments, piped), RenderLine(line), LineEnd(segments, piped, line))
    decreases |line.parts|
  {
    StartIsTidy(segments, piped);
    if |line.parts| == 0 {
      LeadsItems(Start(segments, piped), line.items);
      LeadsAnyway(Start(segments, piped), RenderItems(line.items), ItemsEnd(Start(segments, piped), line.items));
    } else {
      var part, rest := line.parts[0], Line(line.parts[1..], line.items);
      var front, feeds := SegmentsOf(part.items, piped), part.joiner == "|" || (|part.items| == 0 && piped);
      OtherParts(line);
      if |RenderLine(rest)| > 0 { LineStart(rest); }
      PartScanned(segments, piped, part);
      LineScanned(segments + front, feeds, rest);
      LeadsPast(Start(segments, piped), RenderPart(part), Start(segments + front, feeds), RenderLine(rest),
        LineEnd(segments, piped, line));
    }
  }

  /** Flushed there, it has the segments that the line means. */
  lemma {:induction false} LineFlushed(segments: seq<Segment>, piped: bool, line: Line)
    requires LineOk(line)
    ensures LineEnd(segments, piped, line).mode.Closed()
    ensures LineEnd(segments, piped, line).FlushSegment(false).segments == segments + Meaning(line, piped)
    decreases |line.parts|
  {
    StartIsTidy(segments, piped);
    if |line.parts| == 0 {
      var st := Start(segments, piped);
      LeadsItems(st, line.items);
      ItemsFlushed(st, line.items);
      CommandCut(segments, piped, line.items, false);
    } else {
      var part, rest := line.parts[0], Line(line.parts[1..], line.items);
      var front, feeds := SegmentsOf(part.items, piped), part.joiner == "|" || (|part.items| == 0 && piped);
      OtherParts(line);
      LineFlushed(segments + front, feeds, rest);
      FirstPart(line, piped);
      assert segments + front + Meaning(rest, feeds) == segments + (front + Meaning(rest, feeds));
    }
  }

  /** The lexer gives back what a line means, however it was written. */
  lemma LexingReadsLines(line: Line)
    requires LineOk(line)
    ensures Lex(RenderLine(line)) == Meaning(line, false)
  {
    assert Start([], false) == INITIAL;
    LineScanned([], false, line);
    LineFlushed([], false, line);
    assert RenderLine(line) + "" == RenderLine(line);
    assert Run(INITIAL, RenderLine(line) + "") == LineEnd([], false, line);
    assert [] + Meaning(line, false) == Meaning(line, false);
  }
}
