/** Lexing undoes quoting: however the words of a command are quoted, the lexer of
    internal/policy/shell.go sees the same one segment. */
module ShellQuoting {
  import opened Text
  import opened ShellLexer
  import opened ShellExpand
  import opened ShellRules

  datatype Style = SingleQuotes | DoubleQuotes | Backslashes

  /** Special inside double quotes. */
  predicate NeedsEscape(c: char) {
    c == '\\' || c == '\"' || c == '$' || c == '`'
  }

  function EscapeDouble(word: string): string {
    if |word| == 0 then ""
    else (if NeedsEscape(word[0]) then ['\\', word[0]] else [word[0]]) + EscapeDouble(word[1..])
  }

  function EscapeAll(word: string): string {
    if |word| == 0 then "" else ['\\', word[0]] + EscapeAll(word[1..])
  }

  function Render(word: string, style: Style): string {
    match style
    case SingleQuotes => ['\''] + word + ['\'']
    case DoubleQuotes => ['\"'] + EscapeDouble(word) + ['\"']
    case Backslashes => if word == "" then ['\'', '\''] else EscapeAll(word)
  }

  /** Single quotes cannot hold a single quote; the other styles hold every word. */
  predicate CanRender(word: string, style: Style) {
    style == SingleQuotes ==> '\'' !in word
  }

  datatype Word = Word(text: string, style: Style)

  predicate Renderable(words: seq<Word>) {
    forall word <- words :: CanRender(word.text, word.style)
  }

  function RenderAll(words: seq<Word>): string {
    if |words| == 0 then ""
    else if |words| == 1 then Render(words[0].text, words[0].style)
    else Render(words[0].text, words[0].style) + [' '] + RenderAll(words[1..])
  }

  function Texts(words: seq<Word>): (texts: seq<string>)
    ensures |texts| == |words|
    ensures forall i :: 0 <= i < |words| ==> texts[i] == words[i].text
  {
    seq(|words|, i requires 0 <= i < |words| => words[i].text)
  }

  // ---------- one word ----------

  /** Scanning s takes the scanner from one state to the other, whatever comes behind s. */
  ghost predicate Leads(before: Scan, s: string, after: Scan) {
    forall rest {:trigger Run(before, s + rest)} :: Run(before, s + rest) == Run(after, rest)
  }

  lemma LeadsNowhere(st: Scan)
    ensures Leads(st, "", st)
  {
    forall rest ensures Run(st, "" + rest) == Run(st, rest) { assert "" + rest == rest; }
  }

  lemma LeadsChain(a: Scan, s: string, b: Scan, t: string, c: Scan)
    requires Leads(a, s, b) && Leads(b, t, c)
    ensures Leads(a, s + t, c)
  {
    forall rest ensures Run(a, s + t + rest) == Run(c, rest) {
      var tail := t + rest;
      assert Run(a, s + tail) == Run(b, tail) == Run(c, rest);
      assert s + t + rest == s + tail;
    }
  }

  lemma LeadsStep(st: Scan, c: char, action: Action)
    requires forall next :: Act(st, c, next) == action && Width(st, c, next) == 1
    ensures Leads(st, [c], Apply(st, action))
  {
    forall rest ensures Run(st, [c] + rest) == Run(Apply(st, action), rest) {
      var s := [c] + rest;
      assert s[1..] == rest && Act(st, c, LookAhead(s)) == action;
    }
  }

  lemma LeadsEscape(st: Scan, c: char)
    requires !st.mode.singleQuoted
    ensures Leads(st, ['\\', c], st.WriteRune(c))
  {
    forall rest ensures Run(st, ['\\', c] + rest) == Run(st.WriteRune(c), rest) {
      var s := ['\\', c] + rest;
      assert s[0] == '\\' && LookAhead(s) == Some(c) && s[2..] == rest;
    }
  }

  function Written(st: Scan, word: string): Scan {
    st.(token := st.token + word, tokenStarted := st.tokenStarted || |word| > 0)
  }

  lemma WrittenMore(st: Scan, word: string)
    requires |word| > 0
    ensures Written(st.WriteRune(word[0]), word[1..]) == Written(st, word)
  {
    assert st.token + [word[0]] + word[1..] == st.token + word;
  }

  lemma {:induction false} LeadsInSingle(st: Scan, word: string)
    requires st.mode.singleQuoted && '\'' !in word
    ensures Leads(st, word, Written(st, word))
    decreases |word|
  {
    if |word| == 0 {
      assert Written(st, word) == st by { assert st.token + word == st.token; }
      LeadsNowhere(st);
    } else {
      assert word[0] in word;
      LeadsStep(st, word[0], Write(word[0]));
      LeadsInSingle(st.WriteRune(word[0]), word[1..]);
      WrittenMore(st, word);
      LeadsChain(st, [word[0]], st.WriteRune(word[0]), word[1..], Written(st, word));
      assert [word[0]] + word[1..] == word;
    }
  }

  lemma {:induction false} LeadsInDouble(st: Scan, word: string)
    requires !st.mode.singleQuoted && st.mode.Literal()
    ensures Leads(st, EscapeDouble(word), Written(st, word))
    decreases |word|
  {
    if |word| == 0 {
      assert Written(st, word) == st by { assert st.token + word == st.token; }
      LeadsNowhere(st);
    } else {
      var c := word[0];
      var head := if NeedsEscape(c) then ['\\', c] else [c];
      if NeedsEscape(c) { LeadsEscape(st, c); } else { LeadsStep(st, c, Write(c)); }
      LeadsInDouble(st.WriteRune(c), word[1..]);
      WrittenMore(st, word);
      LeadsChain(st, head, st.WriteRune(c), EscapeDouble(word[1..]), Written(st, word));
    }
  }

  lemma {:induction false} LeadsEscaped(st: Scan, word: string)
    requires !st.mode.singleQuoted
    ensures Leads(st, EscapeAll(word), Written(st, word))
    decreases |word|
  {
    if |word| == 0 {
      assert Written(st, word) == st by { assert st.token + word == st.token; }
      LeadsNowhere(st);
    } else {
      LeadsEscape(st, word[0]);
      LeadsEscaped(st.WriteRune(word[0]), word[1..]);
      WrittenMore(st, word);
      LeadsChain(st, ['\\', word[0]], st.WriteRune(word[0]), EscapeAll(word[1..]), Written(st, word));
    }
  }

  /** Between two words, outside quotes and substitutions. */
  predicate Between(st: Scan) {
    st.mode.Closed() && st.token == "" && !st.tokenStarted
  }

  predicate AtWordStart(st: Scan) {
    Between(st) && !st.pendingRedirect
  }

  function AtWordEnd(st: Scan, text: string): Scan {
    st.(token := text, tokenStarted := true)
  }

  lemma LeadsSingleQuoted(st: Scan, text: string)
    requires Between(st) && '\'' !in text
    ensures Leads(st, ['\''] + text + ['\''], AtWordEnd(st, text))
  {
    var opening := st.StartToken().(mode := st.mode.(singleQuoted := true));
    var closing := Written(opening, text);
    LeadsStep(st, '\'', OpenSingle);
    assert Apply(st, OpenSingle) == opening;
    LeadsInSingle(opening, text);
    LeadsStep(closing, '\'', CloseSingle);
    assert "" + text == text;
    assert Apply(closing, CloseSingle) == AtWordEnd(st, text);
    LeadsChain(st, ['\''], opening, text, closing);
    LeadsChain(st, ['\''] + text, closing, ['\''], AtWordEnd(st, text));
  }

  lemma LeadsDoubleQuoted(st: Scan, text: string)
    requires Between(st)
    ensures Leads(st, ['\"'] + EscapeDouble(text) + ['\"'], AtWordEnd(st, text))
  {
    var opening := st.StartToken().(mode := st.mode.(doubleQuoted := true));
    var closing := Written(opening, text);
    LeadsStep(st, '\"', ToggleDouble);
    assert Apply(st, ToggleDouble) == opening;
    LeadsInDouble(opening, text);
    LeadsStep(closing, '\"', ToggleDouble);
    assert "" + text == text;
    assert Apply(closing, ToggleDouble) == AtWordEnd(st, text);
    LeadsChain(st, ['\"'], opening, EscapeDouble(text), closing);
    LeadsChain(st, ['\"'] + EscapeDouble(text), closing, ['\"'], AtWordEnd(st, text));
  }

  lemma LeadsWord(st: Scan, word: Word)
    requires Between(st) && CanRender(word.text, word.style)
    ensures Leads(st, Render(word.text, word.style), AtWordEnd(st, word.text))
  {
    match word.style
    case SingleQuotes => LeadsSingleQuoted(st, word.text);
    case DoubleQuotes => LeadsDoubleQuoted(st, word.text);
    case Backslashes =>
      if word.text == "" {
        LeadsSingleQuoted(st, "");
        assert ['\''] + "" + ['\''] == ['\'', '\''];
      } else {
        LeadsEscaped(st, word.text);
        assert "" + word.text == word.text;
      }
  }

  // ---------- all words ----------

  function WithTokens(st: Scan, words: seq<string>): Scan {
    st.(current := st.current.(tokens := st.current.tokens + words))
  }

  lemma WordFlushed(st: Scan, text: string)
    requires AtWordStart(st)
    ensures AtWordEnd(st, text).FlushToken() == WithTokens(st, [text])
    ensures AtWordStart(WithTokens(st, [text]))
    ensures Leads(AtWordEnd(st, text), [' '], WithTokens(st, [text]))
  {
    LeadsStep(AtWordEnd(st, text), ' ', EndToken);
  }

  lemma WithMoreTokens(st: Scan, text: string, texts: seq<string>)
    ensures WithTokens(WithTokens(st, [text]), texts) == WithTokens(st, [text] + texts)
  {
    assert st.current.tokens + [text] + texts == st.current.tokens + ([text] + texts);
  }

  lemma {:induction false} LeadsWords(st: Scan, words: seq<Word>) returns (end: Scan)
    requires AtWordStart(st) && |words| > 0 && Renderable(words)
    ensures Leads(st, RenderAll(words), end)
    ensures end.FlushToken() == WithTokens(st, Texts(words))
    decreases |words|
  {
    var text, first, rest := words[0].text, Render(words[0].text, words[0].style), words[1..];
    assert words[0] in words;
    LeadsWord(st, words[0]);
    WordFlushed(st, text);
    if |words| == 1 {
      end := AtWordEnd(st, text);
      assert Texts(words) == [text];
    } else {
      var next := WithTokens(st, [text]);
      assert forall w <- rest :: w in words;
      end := LeadsWords(next, rest);
      LeadsChain(st, first, AtWordEnd(st, text), [' '], next);
      LeadsChain(st, first + [' '], next, RenderAll(rest), end);
      WithMoreTokens(st, text, Texts(rest));
      assert [text] + Texts(rest) == Texts(words);
    }
  }

  /** The lexer gives back exactly the words that were rendered, in one plain segment. */
  lemma LexingUndoesQuoting(words: seq<Word>)
    requires |words| > 0 && Renderable(words)
    ensures Lex(RenderAll(words)) == [Segment(Texts(words), [], [], false, false)]
  {
    var last := LeadsWords(INITIAL, words);
    assert RenderAll(words) + [] == RenderAll(words);
    assert Run(INITIAL, RenderAll(words)) == last;
    InitialWithTokens(Texts(words));
  }

  lemma InitialWithTokens(tokens: seq<string>)
    ensures WithTokens(INITIAL, tokens).current == Segment(tokens, [], [], false, false)
    ensures WithTokens(INITIAL, tokens).segments == []
  {
    assert [] + tokens == tokens;
  }

  // ---------- lower-casing ----------

  function LowerWords(words: seq<Word>): (lower: seq<Word>)
    ensures |lower| == |words|
    ensures forall i :: 0 <= i < |words| ==> lower[i] == Word(Lower(words[i].text), words[i].style)
  {
    seq(|words|, i requires 0 <= i < |words| => Word(Lower(words[i].text), words[i].style))
  }

  lemma {:induction false} LowerEscapeDouble(word: string)
    ensures Lower(EscapeDouble(word)) == EscapeDouble(Lower(word))
    decreases |word|
  {
    if |word| > 0 {
      LowerEscapeDouble(word[1..]);
      assert Lower(word)[1..] == Lower(word[1..]);
      var head := if NeedsEscape(word[0]) then ['\\', word[0]] else [word[0]];
      LowerConcat(head, EscapeDouble(word[1..]));
      assert NeedsEscape(LowerChar(word[0])) == NeedsEscape(word[0]);
      assert Lower(head) == if NeedsEscape(word[0]) then ['\\', LowerChar(word[0])] else [LowerChar(word[0])];
    }
  }

  lemma {:induction false} LowerEscapeAll(word: string)
    ensures Lower(EscapeAll(word)) == EscapeAll(Lower(word))
    decreases |word|
  {
    if |word| > 0 {
      LowerEscapeAll(word[1..]);
      assert Lower(word)[1..] == Lower(word[1..]);
      LowerConcat(['\\', word[0]], EscapeAll(word[1..]));
      assert Lower(['\\', word[0]]) == ['\\', LowerChar(word[0])];
    }
  }

  lemma LowerRender(word: string, style: Style)
    ensures Lower(Render(word, style)) == Render(Lower(word), style)
  {
    LowerEscapeDouble(word);
    LowerEscapeAll(word);
    var body := if style == DoubleQuotes then EscapeDouble(word) else word;
    var quote := if style == DoubleQuotes then '\"' else '\'';
    LowerConcat([quote] + body, [quote]);
    LowerConcat([quote], body);
    assert Lower([quote]) == [quote] && Lower(['\'', '\'']) == ['\'', '\''];
  }

  lemma {:induction false} LowerRenderAll(words: seq<Word>)
    ensures Lower(RenderAll(words)) == RenderAll(LowerWords(words))
    decreases |words|
  {
    if |words| > 0 {
      var first := Render(words[0].text, words[0].style);
      LowerRender(words[0].text, words[0].style);
      if |words| > 1 {
        LowerRenderAll(words[1..]);
        LowerConcat(first + [' '], RenderAll(words[1..]));
        LowerConcat(first, [' ']);
        assert Lower([' ']) == [' '];
        assert LowerWords(words)[1..] == LowerWords(words[1..]);
      }
    }
  }

  function LowerTexts(texts: seq<string>): (lower: seq<string>)
    ensures |lower| == |texts|
    ensures forall i :: 0 <= i < |texts| ==> lower[i] == Lower(texts[i])
  {
    seq(|texts|, i requires 0 <= i < |texts| => Lower(texts[i]))
  }

  lemma LowerMakesNoQuote(text: string)
    ensures '\'' in Lower(text) ==> '\'' in text
  {
  }

  lemma LowerStaysRenderable(words: seq<Word>)
    requires Renderable(words)
    ensures Renderable(LowerWords(words))
    ensures Texts(LowerWords(words)) == LowerTexts(Texts(words))
  {
    var lower := LowerWords(words);
    forall word | word in lower ensures CanRender(word.text, word.style) {
      var i :| 0 <= i < |lower| && lower[i] == word;
      assert CanRender(words[i].text, words[i].style);
      LowerMakesNoQuote(words[i].text);
    }
  }

  lemma ExpandOne(reader: Reader, segment: Segment, depth: nat)
    ensures Expand(reader, [segment], depth) == Unfold(reader, segment, depth)
  {
    ExpandSnoc(reader, [], segment, depth);
    assert [] + [segment] == [segment];
  }

  /** The decision on a quoted command is the decision on its lower-cased words: it does not depend on
      how they were quoted. */
  lemma DecisionIgnoresQuoting(policy: Policy, profile: string, words: seq<Word>)
    requires |words| > 0 && Renderable(words)
    ensures policy.InspectShell(profile, RenderAll(words)) ==
      policy.Judge(profile, Unfold(policy.reader, Segment(LowerTexts(Texts(words)), [], [], false, false), 0))
  {
    LowerRenderAll(words);
    LowerStaysRenderable(words);
    LexingUndoesQuoting(LowerWords(words));
    ExpandOne(policy.reader, Segment(LowerTexts(Texts(words)), [], [], false, false), 0);
  }
}
