/** Recursive expansion of inline `sh -c` commands, for any way of resolving executables and of
    finding the inline text: only the text getting shorter matters here. */
module ShellExpand {
  import opened ShellLexer

  const MAX_INLINE_DEPTH: nat := 8

  datatype Reader = Reader(
    resolve: seq<string> -> seq<string>,
    inline: seq<string> -> string)

  /** No inline text is as long as the words it was found in. */
  ghost predicate Shrinks(reader: Reader) {
    forall tokens :: reader.inline(tokens) == "" || |reader.inline(tokens)| < |Join(tokens)|
  }

  function Resolved(reader: Reader, segment: Segment): Segment {
    segment.(commands := reader.resolve(segment.tokens))
  }

  const UNRESOLVED: Segment := Segment([], [], [], false, true)

  function DepthLeft(depth: nat): nat {
    if depth < MAX_INLINE_DEPTH then MAX_INLINE_DEPTH - depth else 0
  }

  /** One segment with its candidate executables resolved, and its inline command, lexed and
      expanded in turn, right behind it. */
  function Unfold(reader: Reader, segment: Segment, depth: nat): seq<Segment>
    decreases DepthLeft(depth), 0, 0
  {
    var inline := reader.inline(segment.tokens);
    if inline == "" then [Resolved(reader, segment)]
    else if depth >= MAX_INLINE_DEPTH then [Resolved(reader, segment), UNRESOLVED]
    else [Resolved(reader, segment)] + Expand(reader, Lex(inline), depth + 1)
  }

  /** expandSegments. */
  function Expand(reader: Reader, segments: seq<Segment>, depth: nat): seq<Segment>
    decreases DepthLeft(depth), 1, |segments|
  {
    if |segments| == 0 then []
    else Unfold(reader, segments[0], depth) + Expand(reader, segments[1..], depth)
  }

  lemma {:induction false} ExpandConcat(reader: Reader, a: seq<Segment>, b: seq<Segment>, depth: nat)
    ensures Expand(reader, a + b, depth) == Expand(reader, a, depth) + Expand(reader, b, depth)
    decreases |a|
  {
    if |a| == 0 {
      assert a + b == b;
    } else {
      assert (a + b)[1..] == a[1..] + b;
      ExpandConcat(reader, a[1..], b, depth);
    }
  }

  lemma ExpandSnoc(reader: Reader, a: seq<Segment>, segment: Segment, depth: nat)
    ensures Expand(reader, a + [segment], depth) == Expand(reader, a, depth) + Unfold(reader, segment, depth)
  {
    ExpandConcat(reader, a, [segment], depth);
    assert [segment][1..] == [];
    assert Expand(reader, [segment], depth) == Unfold(reader, segment, depth) + [];
  }

  /** expandSegments as it is written: a result list grown segment by segment. */
  method ExpandSegments(reader: Reader, segments: seq<Segment>, depth: nat) returns (result: seq<Segment>)
    ensures result == Expand(reader, segments, depth)
    decreases DepthLeft(depth)
  {
    result := [];
    for i := 0 to |segments|
      invariant result == Expand(reader, segments[..i], depth)
    {
      ExpandSnoc(reader, segments[..i], segments[i], depth);
      assert segments[..i + 1] == segments[..i] + [segments[i]];
      result := result + [segments[i].(commands := reader.resolve(segments[i].tokens))];
      var inline := reader.inline(segments[i].tokens);
      if inline != "" {
        if depth >= MAX_INLINE_DEPTH {
          result := result + [UNRESOLVED];
        } else {
          var lexed := LexShellSegments(inline);
          var inner := ExpandSegments(reader, lexed, depth + 1);
          result := result + inner;
        }
      }
    }
    assert segments[..|segments|] == segments;
  }

  // ---------- expansion without a depth limit ----------

  /** The measure of the recursion: no segment is longer than n when joined. */
  predicate Within(segments: seq<Segment>, n: nat) {
    forall i :: 0 <= i < |segments| ==> |Join(segments[i].tokens)| <= n
  }

  lemma InlineWithin(reader: Reader, segments: seq<Segment>, n: nat)
    requires Shrinks(reader)
    requires |segments| > 0 && Within(segments, n) && reader.inline(segments[0].tokens) != ""
    ensures |reader.inline(segments[0].tokens)| < n
    ensures Within(Lex(reader.inline(segments[0].tokens)), |reader.inline(segments[0].tokens)|)
  {
    SegmentNeverLonger(reader.inline(segments[0].tokens));
  }

  /** Expansion with no limit on nesting; it ends because inline texts shrink. */
  ghost function FullExpand(reader: Reader, segments: seq<Segment>, n: nat): seq<Segment>
    requires Shrinks(reader) && Within(segments, n)
    decreases n, |segments|
  {
    if |segments| == 0 then []
    else
      var inline := reader.inline(segments[0].tokens);
      var expansion :=
        if inline == "" then []
        else (InlineWithin(reader, segments, n); FullExpand(reader, Lex(inline), |inline|));
      [Resolved(reader, segments[0])] + expansion + FullExpand(reader, segments[1..], n)
  }

  /** How deep `sh -c` texts are nested. */
  ghost function Nesting(reader: Reader, segments: seq<Segment>, n: nat): nat
    requires Shrinks(reader) && Within(segments, n)
    decreases n, |segments|
  {
    if |segments| == 0 then 0
    else
      var inline := reader.inline(segments[0].tokens);
      var here :=
        if inline == "" then 0
        else (InlineWithin(reader, segments, n); 1 + Nesting(reader, Lex(inline), |inline|));
      var there := Nesting(reader, segments[1..], n);
      if here > there then here else there
  }

  /** The first segment's own part of the full expansion. */
  ghost function FullUnfold(reader: Reader, segments: seq<Segment>, n: nat): seq<Segment>
    requires Shrinks(reader) && |segments| > 0 && Within(segments, n)
  {
    var inline := reader.inline(segments[0].tokens);
    [Resolved(reader, segments[0])] +
    if inline == "" then [] else (InlineWithin(reader, segments, n); FullExpand(reader, Lex(inline), |inline|))
  }

  lemma FirstOfFull(reader: Reader, segments: seq<Segment>, n: nat)
    requires Shrinks(reader) && |segments| > 0 && Within(segments, n)
    ensures FullExpand(reader, segments, n) == FullUnfold(reader, segments, n) + FullExpand(reader, segments[1..], n)
  {
  }

  lemma FirstOfNesting(reader: Reader, segments: seq<Segment>, n: nat)
    requires Shrinks(reader) && |segments| > 0 && Within(segments, n)
    ensures Nesting(reader, segments[1..], n) <= Nesting(reader, segments, n)
    ensures var inline := reader.inline(segments[0].tokens); inline != "" ==>
      && |inline| < n && Within(Lex(inline), |inline|)
      && Nesting(reader, Lex(inline), |inline|) < Nesting(reader, segments, n)
  {
    if reader.inline(segments[0].tokens) != "" { InlineWithin(reader, segments, n); }
  }

  lemma {:induction false} ExpandUpToLimit(reader: Reader, segments: seq<Segment>, n: nat, depth: nat)
    requires Shrinks(reader) && Within(segments, n) && depth <= MAX_INLINE_DEPTH
    requires Nesting(reader, segments, n) + depth <= MAX_INLINE_DEPTH
    ensures Expand(reader, segments, depth) == FullExpand(reader, segments, n)
    decreases n, |segments|
  {
    if |segments| > 0 {
      var inline := reader.inline(segments[0].tokens);
      FirstOfNesting(reader, segments, n);
      ExpandUpToLimit(reader, segments[1..], n, depth);
      if inline != "" {
        ExpandUpToLimit(reader, Lex(inline), |inline|, depth + 1);
      }
      assert Unfold(reader, segments[0], depth) == FullUnfold(reader, segments, n);
      FirstOfFull(reader, segments, n);
    }
  }

  lemma {:induction false} ExpandPastLimit(reader: Reader, segments: seq<Segment>, n: nat, depth: nat)
    requires Shrinks(reader) && Within(segments, n) && depth <= MAX_INLINE_DEPTH
    requires Nesting(reader, segments, n) + depth > MAX_INLINE_DEPTH
    ensures UNRESOLVED in Expand(reader, segments, depth)
    decreases n, |segments|
  {
    var inline, rest := reader.inline(segments[0].tokens), segments[1..];
    if Nesting(reader, rest, n) + depth > MAX_INLINE_DEPTH {
      ExpandPastLimit(reader, rest, n, depth);
    } else {
      InlineWithin(reader, segments, n);
      if depth < MAX_INLINE_DEPTH {
        ExpandPastLimit(reader, Lex(inline), |inline|, depth + 1);
      }
    }
  }

  /** Up to the limit the bounded expansion is the full one; past it an unresolved segment appears. */
  lemma ExpandMeetsLimit(reader: Reader, segments: seq<Segment>, n: nat, depth: nat)
    requires Shrinks(reader) && Within(segments, n) && depth <= MAX_INLINE_DEPTH
    ensures Nesting(reader, segments, n) + depth <= MAX_INLINE_DEPTH ==> Expand(reader, segments, depth) == FullExpand(reader, segments, n)
    ensures Nesting(reader, segments, n) + depth > MAX_INLINE_DEPTH ==> UNRESOLVED in Expand(reader, segments, depth)
  {
    if Nesting(reader, segments, n) + depth <= MAX_INLINE_DEPTH {
      ExpandUpToLimit(reader, segments, n, depth);
    } else {
      ExpandPastLimit(reader, segments, n, depth);
    }
  }
}
