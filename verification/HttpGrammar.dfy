/** The language of the request parser: a grammar, its sentences as text, and the proof that the
    byte-driven machine accepts exactly these sentences and reads their meaning. */
module HttpGrammar {
  import opened HttpRequest

  /** A header line, or a folded one that starts with white space. */
  datatype HeaderLine = Field(name: string, value: string) | Folded(blanks: string, value: string)

  datatype Sentence = Sentence(word: string, uri: string, major: string, minor: string, lines: seq<HeaderLine>)

  // ----- the alphabet, byte by byte -----

  /** A byte of a method or of a header name: a letter, a digit or one of fifteen marks. */
  predicate IsTokenByte(c: char) {
    'A' <= c <= 'Z' || 'a' <= c <= 'z' || '0' <= c <= '9' || c in "!#$%&'*+-.^_`|~"
  }

  predicate IsUriChar(c: char) {
    32 < c as int && c as int != 127
  }

  predicate IsValueChar(c: char) {
    31 < c as int && c as int != 127
  }

  predicate IsDecimal(c: char) {
    c in "0123456789"
  }

  /** The classes the machine asks for are these. */
  lemma {:induction false} AlphabetIs(c: char)
    ensures IsToken(c) <==> IsTokenByte(c)
    ensures c != ' ' && !IsCtl(c) <==> IsUriChar(c)
    ensures !IsCtl(c) <==> IsValueChar(c)
    ensures IsDigit(c) <==> IsDecimal(c)
  {
    var marks := "!#$%&'*+-.^_`|~";
    assert c in marks <==> exists i | 0 <= i < 15 :: marks[i] == c;
  }

  predicate IsBlank(c: char) {
    c == ' ' || c == '\t'
  }

  predicate All(P: char -> bool, s: string) {
    forall i | 0 <= i < |s| :: P(s[i])
  }

  predicate ValidLine(line: HeaderLine) {
    match line
    case Field(name, value) => name != "" && All(IsTokenByte, name) && All(IsValueChar, value)
    case Folded(blanks, value) =>
      blanks != "" && All(IsBlank, blanks) && All(IsValueChar, value) && (value != "" ==> value[0] != ' ')
  }

  /** A folded line needs a header line before it. */
  predicate ValidLines(lines: seq<HeaderLine>) {
    && (forall i | 0 <= i < |lines| :: ValidLine(lines[i]))
    && (lines != [] ==> lines[0].Field?)
  }

  predicate ValidSentence(s: Sentence) {
    && s.word != "" && All(IsTokenByte, s.word)
    && All(IsUriChar, s.uri)
    && s.major != "" && All(IsDecimal, s.major)
    && s.minor != "" && All(IsDecimal, s.minor)
    && ValidLines(s.lines)
  }

  function LineText(line: HeaderLine): string {
    match line
    case Field(name, value) => name + (": " + (value + "\r\n"))
    case Folded(blanks, value) => blanks + (value + "\r\n")
  }

  function LinesText(lines: seq<HeaderLine>): string {
    if lines == [] then "" else LineText(lines[0]) + LinesText(lines[1..])
  }

  function RequestLineText(s: Sentence): string {
    s.word + (" " + (s.uri + (" HTTP/" + (s.major + ("." + (s.minor + "\r\n"))))))
  }

  function Text(s: Sentence): string {
    RequestLineText(s) + (LinesText(s.lines) + "\r\n")
  }

  // ----- meaning -----

  /** The number that `digits` continue. */
  function Number(start: int, digits: string): int
    decreases |digits|
  {
    if digits == "" then start else Number(start * 10 + DigitValue(digits[0]), digits[1..])
  }

  /** A later line wins; a folded line is stored under the empty name. */
  function AddLine(headers: map<string, string>, line: HeaderLine): map<string, string> {
    headers[(if line.Field? then line.name else "") := line.value]
  }

  function AddLines(headers: map<string, string>, lines: seq<HeaderLine>): map<string, string>
    decreases |lines|
  {
    if lines == [] then headers else AddLines(AddLine(headers, lines[0]), lines[1..])
  }

  function Meaning(r: Request, s: Sentence): Request {
    r.(uri := r.uri + s.uri, major := Number(0, s.major), minor := Number(0, s.minor),
       headers := AddLines(r.headers, s.lines))
  }

  // ----- runs over a stretch of one class of bytes -----

  /** The length of the longest prefix of bytes in the class. */
  function Span(P: char -> bool, text: string): (n: nat)
    ensures n <= |text|
    ensures All(P, text[..n])
    ensures n < |text| ==> !P(text[n])
  {
    if text == "" || !P(text[0]) then 0
    else
      var n := 1 + Span(P, text[1..]);
      assert forall i | 1 <= i < n :: text[i] == text[1..][..n - 1][i - 1];
      n
  }

  lemma {:induction false} SpanOf(P: char -> bool, s: string, rest: string)
    requires All(P, s) && (rest == "" || !P(rest[0]))
    ensures Span(P, s + rest) == |s|
    decreases |s|
  {
    if s == "" {
      assert s + rest == rest;
    } else {
      assert (s + rest)[1..] == s[1..] + rest;
      SpanOf(P, s[1..], rest);
    }
  }

  lemma {:induction false} RunFirst(p: Parser, r: Request, text: string)
    requires text != ""
    ensures var (verdict, p', r') := Consume(p, r, text[0]);
            Run(p, r, text) == if verdict != Indeterminate then Outcome(verdict, p', r', text[1..])
                               else Run(p', r', text[1..])
  {
    hide Consume;
  }

  lemma {:induction false} RunNothing(p: Parser, r: Request)
    ensures Run(p, r, "") == Outcome(Indeterminate, p, r, "")
  {
  }

  /** How the seven loops of the machine treat one byte. */
  lemma {:induction false} LoopStep(p: Parser, r: Request, c: char)
    ensures p.state == MethodRest ==>
              Consume(p, r, c) == if c == ' ' then Go(p, Uri, r)
                                  else if IsTokenByte(c) then Go(p, p.state, r)
                                  else Fail(p, r)
    ensures p.state == Uri ==>
              Consume(p, r, c) == if c == ' ' then Go(p, VersionH, r)
                                  else if IsUriChar(c) then Go(p, p.state, r.(uri := r.uri + [c])) else Fail(p, r)
    ensures p.state == MajorRest ==>
              Consume(p, r, c) == if c == '.' then Go(p, MinorStart, r)
                                  else if IsDecimal(c) then Go(p, p.state, r.(major := Number(r.major, [c])))
                                  else Fail(p, r)
    ensures p.state == MinorRest ==>
              Consume(p, r, c) == if c == '\r' then Go(p, Newline1, r)
                                  else if IsDecimal(c) then Go(p, p.state, r.(minor := Number(r.minor, [c])))
                                  else Fail(p, r)
    ensures p.state == HeaderName ==>
              Consume(p, r, c) == if c == ':' then Go(p, SpaceBeforeValue, r)
                                  else if IsTokenByte(c) then Go(p.(key := p.key + [c]), p.state, r) else Fail(p, r)
    ensures p.state == HeaderValue ==>
              Consume(p, r, c) == if c == '\r' then Go(p, Newline2, r)
                                  else if IsValueChar(c) then Go(p.(value := p.value + [c]), p.state, r) else Fail(p, r)
  {
    hide IsToken, IsTokenByte, IsCtl, IsUriChar, IsValueChar, IsDigit, IsDecimal;
    AlphabetIs(c);
    SpaceIsNoUriChar();
    assert [c][1..] == "";
  }

  lemma {:induction false} SpaceIsNoUriChar()
    ensures !IsUriChar(' ')
  {
  }

  lemma {:induction false} SpanFirst(P: char -> bool, text: string)
    requires text != "" && P(text[0])
    ensures Span(P, text) == 1 + Span(P, text[1..])
    ensures text[..Span(P, text)] == [text[0]] + text[1..][..Span(P, text) - 1]
  {
  }

  lemma {:induction false} SpanStops(P: char -> bool, text: string)
    requires text == "" || !P(text[0])
    ensures Span(P, text) == 0 && text[..0] == ""
  {
  }

  lemma {:induction false} Separators()
    ensures !IsTokenByte(' ') && !IsTokenByte(':') && !IsUriChar(' ')
    ensures !IsDecimal('.') && !IsDecimal('\r') && !IsValueChar('\r')
    ensures !IsBlank('\r') && !IsValueChar('\t') && IsValueChar(' ')
  {
  }

  function Append(a: string, b: string): string {
    a + b
  }

  lemma {:induction false} AppendFirst(start: string, c: char, tail: string)
    ensures Append(start, [c] + tail) == Append(start + [c], tail)
    ensures Append(start, "") == start
  {
    assert start + [c] + tail == start + ([c] + tail);
  }

  lemma {:induction false} RunWord(p: Parser, r: Request, text: string)
    requires p.state == MethodRest
    ensures var n := Span(IsTokenByte, text);
            var p', r' := p, r;
            Run(p, r, text) ==
            if n == |text| then Outcome(Indeterminate, p', r', "")
            else if text[n] == ' ' then Run(p'.(state := Uri), r', text[n + 1..])
            else Outcome(Bad, p', r', text[n + 1..])
    decreases |text|
  {
    hide Run, Consume, Span, IsTokenByte, IsUriChar, IsDecimal, IsValueChar, Number, Append;
    Separators();
    if text == "" {
      RunNothing(p, r);
      SpanStops(IsTokenByte, text);
    } else {
      RunFirst(p, r, text);
      LoopStep(p, r, text[0]);
      if IsTokenByte(text[0]) {
        SpanFirst(IsTokenByte, text);
        RunWord(p, r, text[1..]);
      } else {
        SpanStops(IsTokenByte, text);
      }
    }
  }

  lemma {:induction false} RunUri(p: Parser, r: Request, text: string)
    requires p.state == Uri
    ensures var n := Span(IsUriChar, text);
            var p', r' := p, r.(uri := Append(r.uri, text[..n]));
            Run(p, r, text) ==
            if n == |text| then Outcome(Indeterminate, p', r', "")
            else if text[n] == ' ' then Run(p'.(state := VersionH), r', text[n + 1..])
            else Outcome(Bad, p', r', text[n + 1..])
    decreases |text|
  {
    hide Run, Consume, Span, IsTokenByte, IsUriChar, IsDecimal, IsValueChar, Number, Append;
    Separators();
    if text == "" {
      RunNothing(p, r);
      SpanStops(IsUriChar, text);
    } else {
      RunFirst(p, r, text);
      LoopStep(p, r, text[0]);
      if IsUriChar(text[0]) {
        SpanFirst(IsUriChar, text);
        var tail := text[1..][..Span(IsUriChar, text) - 1];
        RunUri(p, r.(uri := r.uri + [text[0]]), text[1..]);
        AppendFirst(r.uri, text[0], tail);
      } else {
        SpanStops(IsUriChar, text);
      }
    }
    AppendFirst(r.uri, '0', "");
  }

  lemma {:induction false} NumberFirst(start: int, digit: char, tail: string)
    ensures Number(start, [digit] + tail) == Number(Number(start, [digit]), tail)
    ensures Number(start, "") == start
  {
    assert ([digit] + tail)[1..] == tail && [digit][1..] == "";
  }

  lemma {:induction false} RunMajor(p: Parser, r: Request, text: string)
    requires p.state == MajorRest
    ensures var n := Span(IsDecimal, text);
            var p', r' := p, r.(major := Number(r.major, text[..n]));
            Run(p, r, text) ==
            if n == |text| then Outcome(Indeterminate, p', r', "")
            else if text[n] == '.' then Run(p'.(state := MinorStart), r', text[n + 1..])
            else Outcome(Bad, p', r', text[n + 1..])
    decreases |text|
  {
    hide Run, Consume, Span, IsTokenByte, IsUriChar, IsDecimal, IsValueChar, Number, Append;
    Separators();
    if text == "" {
      RunNothing(p, r);
      SpanStops(IsDecimal, text);
    } else {
      RunFirst(p, r, text);
      LoopStep(p, r, text[0]);
      if IsDecimal(text[0]) {
        SpanFirst(IsDecimal, text);
        var tail := text[1..][..Span(IsDecimal, text) - 1];
        NumberFirst(r.major, text[0], tail);
        RunMajor(p, r.(major := Number(r.major, [text[0]])), text[1..]);
      } else {
        SpanStops(IsDecimal, text);
      }
    }
    NumberFirst(r.major, '0', "");
  }

  lemma {:induction false} RunMinor(p: Parser, r: Request, text: string)
    requires p.state == MinorRest
    ensures var n := Span(IsDecimal, text);
            var p', r' := p, r.(minor := Number(r.minor, text[..n]));
            Run(p, r, text) ==
            if n == |text| then Outcome(Indeterminate, p', r', "")
            else if text[n] == '\r' then Run(p'.(state := Newline1), r', text[n + 1..])
            else Outcome(Bad, p', r', text[n + 1..])
    decreases |text|
  {
    hide Run, Consume, Span, IsTokenByte, IsUriChar, IsDecimal, IsValueChar, Number, Append;
    Separators();
    if text == "" {
      RunNothing(p, r);
      SpanStops(IsDecimal, text);
    } else {
      RunFirst(p, r, text);
      LoopStep(p, r, text[0]);
      if IsDecimal(text[0]) {
        SpanFirst(IsDecimal, text);
        var tail := text[1..][..Span(IsDecimal, text) - 1];
        NumberFirst(r.minor, text[0], tail);
        RunMinor(p, r.(minor := Number(r.minor, [text[0]])), text[1..]);
      } else {
        SpanStops(IsDecimal, text);
      }
    }
    NumberFirst(r.minor, '0', "");
  }

  lemma {:induction false} RunName(p: Parser, r: Request, text: string)
    requires p.state == HeaderName
    ensures var n := Span(IsTokenByte, text);
            var p', r' := p.(key := Append(p.key, text[..n])), r;
            Run(p, r, text) ==
            if n == |text| then Outcome(Indeterminate, p', r', "")
            else if text[n] == ':' then Run(p'.(state := SpaceBeforeValue), r', text[n + 1..])
            else Outcome(Bad, p', r', text[n + 1..])
    decreases |text|
  {
    hide Run, Consume, Span, IsTokenByte, IsUriChar, IsDecimal, IsValueChar, Number, Append;
    Separators();
    if text == "" {
      RunNothing(p, r);
      SpanStops(IsTokenByte, text);
    } else {
      RunFirst(p, r, text);
      LoopStep(p, r, text[0]);
      if IsTokenByte(text[0]) {
        SpanFirst(IsTokenByte, text);
        var tail := text[1..][..Span(IsTokenByte, text) - 1];
        RunName(p.(key := p.key + [text[0]]), r, text[1..]);
        AppendFirst(p.key, text[0], tail);
      } else {
        SpanStops(IsTokenByte, text);
      }
    }
    AppendFirst(p.key, '0', "");
  }

  lemma {:induction false} RunValue(p: Parser, r: Request, text: string)
    requires p.state == HeaderValue
    ensures var n := Span(IsValueChar, text);
            var p', r' := p.(value := Append(p.value, text[..n])), r;
            Run(p, r, text) ==
            if n == |text| then Outcome(Indeterminate, p', r', "")
            else if text[n] == '\r' then Run(p'.(state := Newline2), r', text[n + 1..])
            else Outcome(Bad, p', r', text[n + 1..])
    decreases |text|
  {
    hide Run, Consume, Span, IsTokenByte, IsUriChar, IsDecimal, IsValueChar, Number, Append;
    Separators();
    if text == "" {
      RunNothing(p, r);
      SpanStops(IsValueChar, text);
    } else {
      RunFirst(p, r, text);
      LoopStep(p, r, text[0]);
      if IsValueChar(text[0]) {
        SpanFirst(IsValueChar, text);
        var tail := text[1..][..Span(IsValueChar, text) - 1];
        RunValue(p.(value := p.value + [text[0]]), r, text[1..]);
        AppendFirst(p.value, text[0], tail);
      } else {
        SpanStops(IsValueChar, text);
      }
    }
    AppendFirst(p.value, '0', "");
  }

  /** White space before a folded value; a value, if there is one, starts with another byte. */
  lemma {:induction false} RunLws(p: Parser, r: Request, text: string)
    requires p.state == HeaderLws
    ensures var n := Span(IsBlank, text);
            Run(p, r, text) ==
            if n == |text| then Outcome(Indeterminate, p, r, "")
            else if !IsValueChar(text[n]) && text[n] != '\r' then Outcome(Bad, p, r, text[n + 1..])
            else Run(p.(state := HeaderValue), r, text[n..])
    decreases |text|
  {
    hide Run, Consume, Span, All, IsBlank, IsValueChar;
    if text == "" {
      RunNothing(p, r);
      SpanStops(IsBlank, text);
    } else {
      RunFirst(p, r, text);
      if IsBlank(text[0]) {
        LwsStep(p, r, text[0]);
        SpanFirst(IsBlank, text);
        RunLws(p, r, text[1..]);
        var m := Span(IsBlank, text[1..]);
        assert text[1..][m..] == text[m + 1..];
        assert m + 1 < |text| ==> text[1..][m] == text[m + 1] && text[1..][m + 1..] == text[m + 2..];
      } else {
        LwsAsValue(p, r, text[0]);
        SpanStops(IsBlank, text);
        RunFirst(p.(state := HeaderValue), r, text);
        assert text[0..] == text;
      }
    }
  }

  lemma {:induction false} LwsAsValue(p: Parser, r: Request, c: char)
    requires p.state == HeaderLws && !IsBlank(c)
    ensures Consume(p, r, c) == if !IsValueChar(c) && c != '\r' then Fail(p, r)
                                else Consume(p.(state := HeaderValue), r, c)
  {
    hide Consume, IsBlank, IsValueChar;
    LwsStep(p, r, c);
    LoopStep(p.(state := HeaderValue), r, c);
  }

  lemma {:induction false} LwsStep(p: Parser, r: Request, c: char)
    requires p.state == HeaderLws
    ensures Consume(p, r, c) == if c == '\r' then Go(p, Newline2, r)
                                else if IsBlank(c) then Go(p, HeaderLws, r)
                                else if !IsValueChar(c) then Fail(p, r)
                                else Go(p.(value := p.value + [c]), HeaderValue, r)
    ensures !IsBlank('\r') && !IsValueChar('\r')
  {
    AlphabetIs(c);
    hide IsCtl;
  }
}
