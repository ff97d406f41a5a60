/** What a session does with the bytes of one read: normalisation, the verdict, and the second
    attempt after an indeterminate one. */
module HttpSession {
  import opened HttpRequest
  import opened HttpGrammar
  import opened HttpLanguage

  const BUFFER_SIZE := 1024

  predicate EndsWith(text: string, suffix: string) {
    |suffix| <= |text| && text[|text| - |suffix|..] == suffix
  }

  /** Bytes after the last newline are dropped, but the first byte stays. */
  function DropTail(data: string): (kept: string)
    ensures kept <= data && forall i | |kept| <= i < |data| :: data[i] != '\n'
    ensures |kept| > 1 ==> kept[|kept| - 1] == '\n'
    ensures data != "" ==> kept != ""
  {
    if |data| > 1 && data[|data| - 1] != '\n' then DropTail(data[..|data| - 1]) else data
  }

  function ReplaceNewlines(data: string): string {
    if data == "" then ""
    else ReplaceNewlines(data[..|data| - 1]) + if data[|data| - 1] == '\n' then "\r\n" else [data[|data| - 1]]
  }

  /** The text that is parsed: as it came if it ends in CRLF, otherwise with its line ends rewritten. */
  function Formatted(data: string): string {
    if EndsWith(data, "\r\n") then data else ReplaceNewlines(DropTail(data)) + "\r\n"
  }

  // ----- where a text leaves the parser -----

  /** After a carriage return and a newline the machine is done or at the start of a line. */
  lemma {:induction false} CrlfStep(p: Parser, r: Request)
    ensures var (v1, p1, r1) := Consume(p, r, '\r');
            v1 != Good && (v1 == Indeterminate ==>
              var (v2, p2, r2) := Consume(p1, r1, '\n'); v2 == Indeterminate ==> p2 == LINE_START)
  {
  }

  lemma {:induction false} EndsAtLineStart(p: Parser, r: Request, text: string)
    requires EndsWith(text, "\r\n") && Run(p, r, text).verdict == Indeterminate
    ensures Run(p, r, text).parser == LINE_START
  {
    hide Run, Consume;
    var init := text[..|text| - 2];
    assert text == init + (['\r'] + ['\n']);
    RunConcat(p, r, init, ['\r'] + ['\n']);
    var o := Run(p, r, init);
    CrlfStep(o.parser, o.request);
    TwoBytes(o.parser, o.request, '\r', '\n');
  }

  lemma {:induction false} TwoBytes(p: Parser, r: Request, a: char, b: char)
    ensures var (v1, p1, r1) := Consume(p, r, a);
            var o := Run(p, r, [a] + [b]);
            if v1 != Indeterminate then o.verdict == v1
            else var (v2, p2, r2) := Consume(p1, r1, b); o.verdict == v2 && o.parser == p2 && o.request == r2
  {
    hide Run, Consume;
    assert ([a] + [b])[1..] == [b] && [b][1..] == "";
    RunFirst(p, r, [a] + [b]);
    var (v1, p1, r1) := Consume(p, r, a);
    if v1 == Indeterminate {
      RunFirst(p1, r1, [b]);
      var (v2, p2, r2) := Consume(p1, r1, b);
      RunNothing(p2, r2);
    }
  }

  /** A blank line always gives a verdict. */
  lemma {:induction false} BlankLineDecides(p: Parser, r: Request, text: string)
    requires EndsWith(text, "\r\n\r\n")
    ensures Run(p, r, text).verdict != Indeterminate
  {
    hide Run, Consume;
    var init := text[..|text| - 2];
    assert text == init + "\r\n";
    assert init[|init| - 2..] == text[|text| - 4..][..2] == "\r\n";
    RunConcat(p, r, init, "\r\n");
    if Run(p, r, init).verdict == Indeterminate {
      EndsAtLineStart(p, r, init);
      var r' := Run(p, r, init).request;
      EndRuns(r', "");
      assert "\r\n" + "" == "\r\n";
    }
  }

  // ----- the accepted bytes end at the first blank line -----

  lemma {:induction false} SentenceEnds(s: Sentence)
    ensures EndsWith(Text(s), "\r\n\r\n")
  {
    hide RequestLineText, LinesText;
    var body := RequestLineText(s) + LinesText(s.lines);
    assert Text(s) == body + "\r\n";
    RequestLineEnds(s);
    LinesEnd(s.lines);
    ConcatEnds(RequestLineText(s), LinesText(s.lines));
    BlankLineEnds(body);
  }

  lemma {:induction false} ConcatEnds(a: string, b: string)
    requires EndsWith(a, "\r\n") && (b == "" || EndsWith(b, "\r\n"))
    ensures EndsWith(a + b, "\r\n")
  {
    if b == "" {
      assert a + b == a;
    } else {
      assert (a + b)[|a + b| - 2..] == b[|b| - 2..];
    }
  }

  lemma {:induction false} BlankLineEnds(t: string)
    requires EndsWith(t, "\r\n")
    ensures EndsWith(t + "\r\n", "\r\n\r\n")
  {
    assert (t + "\r\n")[|t| - 2..] == t[|t| - 2..] + "\r\n";
    assert "\r\n" + "\r\n" == "\r\n\r\n";
  }

  lemma {:induction false} RequestLineEnds(s: Sentence)
    ensures EndsWith(RequestLineText(s), "\r\n")
  {
    var init := s.word + (" " + (s.uri + (" HTTP/" + (s.major + ("." + s.minor)))));
    assert RequestLineText(s) == init + "\r\n";
  }

  lemma {:induction false} LinesEnd(lines: seq<HeaderLine>)
    ensures LinesText(lines) == "" || EndsWith(LinesText(lines), "\r\n")
    decreases |lines|
  {
    if lines != [] {
      var line := lines[0];
      var init := match line
                  case Field(name, value) => name + (": " + value)
                  case Folded(blanks, value) => blanks + value;
      assert LineText(line) == init + "\r\n";
      LinesEnd(lines[1..]);
      ConcatEnds(LineText(line), LinesText(lines[1..]));
    }
  }

  /** The machine is good exactly at the end of the first CRLF CRLF. */
  lemma {:induction false} GoodEndsAtBlankLine(r: Request, text: string, k: nat)
    requires r.headers == map[] && k <= |text|
    requires Run(FRESH, r, text).verdict == Good && Run(FRESH, r, text).rest == text[k..]
    ensures EndsWith(text[..k], "\r\n\r\n")
    ensures forall i | 4 <= i < k :: !EndsWith(text[..i], "\r\n\r\n")
  {
    hide Run, Text, ValidSentence;
    var s := AcceptedIsSentence(r, text);
    assert text[..k] == Text(s);
    SentenceEnds(s);
    forall i | 4 <= i < k
      ensures !EndsWith(text[..i], "\r\n\r\n")
    {
      if EndsWith(text[..i], "\r\n\r\n") {
        BlankLineDecides(FRESH, r, text[..i]);
        assert text == text[..i] + text[i..];
        RunConcat(FRESH, r, text[..i], text[i..]);
      }
    }
  }

  // ----- one read -----

  lemma {:induction false} ReplaceEnds(data: string)
    requires EndsWith(data, "\n")
    ensures EndsWith(ReplaceNewlines(data), "\r\n")
  {
    assert data[|data| - 1] == data[|data| - 1..][0];
  }

  lemma {:induction false} DropTailEnds(data: string)
    requires data != ""
    ensures var d := DropTail(data); d != "" && (EndsWith(d, "\n") || (|d| == 1 && d[0] != '\n'))
    decreases |data|
  {
    if |data| > 1 && data[|data| - 1] != '\n' {
      DropTailEnds(data[..|data| - 1]);
    } else if data[|data| - 1] == '\n' {
      assert data[|data| - 1..] == "\n";
    }
  }

  /** Text the session reformatted always gets a verdict at the first attempt. */
  lemma {:induction false} ReformattedDecides(r: Request, data: string)
    requires data != "" && !EndsWith(data, "\r\n")
    ensures Run(FRESH, r, Formatted(data)).verdict != Indeterminate
  {
    hide Run, DropTail, ReplaceNewlines;
    var d := DropTail(data);
    DropTailEnds(data);
    if EndsWith(d, "\n") {
      ReplaceEnds(d);
      var t := ReplaceNewlines(d);
      BlankLineEnds(t);
      BlankLineDecides(FRESH, r, t + "\r\n");
    } else {
      OneByte(d);
      OneByteIsBad(r, d[0]);
    }
  }

  lemma {:induction false} OneByte(d: string)
    requires |d| == 1 && d[0] != '\n'
    ensures ReplaceNewlines(d) == [d[0]]
  {
    assert d[..0] == "" && "" + [d[0]] == [d[0]];
    assert ReplaceNewlines("") == "";
  }

  lemma {:induction false} OneByteIsBad(r: Request, c: char)
    ensures Run(FRESH, r, [c] + "\r\n").verdict == Bad
  {
    hide Run, Consume, IsTokenByte;
    var tail := "\r\n";
    assert ([c] + tail)[1..] == tail;
    RunFirst(FRESH, r, [c] + tail);
    MethodStep(r, c);
    RunFirst(FRESH.(state := MethodRest), r, tail);
    ReturnIsNoToken(r);
  }

  lemma {:induction false} ReturnIsNoToken(r: Request)
    ensures Consume(FRESH.(state := MethodRest), r, '\r') == Fail(FRESH.(state := MethodRest), r)
  {
  }

  /** Past the method word, the text starts with token bytes and a space. */
  lemma {:induction false} PastMethod(r: Request, text: string)
    requires Run(FRESH, r, text).verdict == Indeterminate
    requires Run(FRESH, r, text).parser.state !in {MethodStart, MethodRest}
    ensures text != "" && IsTokenByte(text[0])
    ensures var n := Span(IsTokenByte, text[1..]); n < |text[1..]| && text[1..][n] == ' '
  {
    hide Run, Consume, Span, IsTokenByte;
    if text == "" { RunNothing(FRESH, r); } else { RunFirst(FRESH, r, text); MethodStep(r, text[0]); }
    RunWord(FRESH.(state := MethodRest), r, text[1..]);
  }

  /** A second reading of the same text, from the start of a header line, takes the method word
      for a header name and fails at the space after it. */
  lemma {:induction false} SecondReadingIsBad(r: Request, r': Request, text: string)
    requires Run(FRESH, r, text).verdict == Indeterminate && Run(FRESH, r, text).parser == LINE_START
    ensures Run(LINE_START, r', text).verdict == Bad
  {
    hide Run, Consume, Span, IsTokenByte;
    PastMethod(r, text);
    RunFirst(LINE_START, r', text);
    NameStarts(r', text[0]);
    RunName(Parser(HeaderName, [text[0]], ""), r', text[1..]);
  }

  /** The outcome of a whole read: the first verdict, and the second when the first is indeterminate. */
  datatype ReadResult = Decided(verdict: Verdict) | Retried(verdict: Verdict)

  function ReadTwice(r: Request, data: string): ReadResult {
    var first := Run(FRESH, r, Formatted(data));
    if first.verdict != Indeterminate then Decided(first.verdict)
    else Retried(Run(first.parser, first.request, Formatted(data)).verdict)
  }

  /** A read ends with at most one retry; a retry only happens for text that ended in CRLF, and
      it always ends in a bad request. */
  lemma {:induction false} AtMostOneRetry(r: Request, data: string)
    requires |data| >= 2
    ensures ReadTwice(r, data).Retried? ==>
              EndsWith(data, "\r\n") && Run(FRESH, r, data).parser == LINE_START && ReadTwice(r, data).verdict == Bad
    ensures ReadTwice(r, data).verdict != Indeterminate
  {
    hide Run;
    if Run(FRESH, r, Formatted(data)).verdict == Indeterminate {
      if !EndsWith(data, "\r\n") {
        ReformattedDecides(r, data);
      }
      EndsAtLineStart(FRESH, r, data);
      SecondReadingIsBad(r, Run(FRESH, r, data).request, data);
    }
  }
}
