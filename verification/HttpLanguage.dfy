/** The request parser accepts exactly the sentences of `HttpGrammar`. */
module HttpLanguage {
  import opened Shared
  import opened HttpRequest
  import opened HttpGrammar

  const LINE_START := Parser(HeaderLineStart, "", "")

  // ----- forward: the machine over the parts of a sentence -----

  lemma {:induction false} SkipTo(P: char -> bool, s: string, tail: string)
    requires All(P, s) && tail != "" && !P(tail[0])
    ensures var n := Span(P, s + tail);
            && n == |s| && n < |s + tail| && (s + tail)[n] == tail[0]
            && (s + tail)[..n] == s && (s + tail)[n + 1..] == tail[1..]
            && (s + tail)[n..] == tail
  {
    SpanOf(P, s, tail);
  }

  lemma {:induction false} WordRuns(p: Parser, r: Request, word: string, tail: string)
    requires p.state == MethodRest && All(IsTokenByte, word) && tail != "" && tail[0] == ' '
    ensures Run(p, r, word + tail) == Run(p.(state := Uri), r, tail[1..])
  {
    hide Run, Consume, Span;
    SkipTo(IsTokenByte, word, tail);
    RunWord(p, r, word + tail);
  }

  lemma {:induction false} UriRuns(p: Parser, r: Request, uri: string, tail: string)
    requires p.state == Uri && All(IsUriChar, uri) && tail != "" && tail[0] == ' '
    ensures Run(p, r, uri + tail) == Run(p.(state := VersionH), r.(uri := r.uri + uri), tail[1..])
  {
    hide Run, Consume, Span;
    SkipTo(IsUriChar, uri, tail);
    RunUri(p, r, uri + tail);
  }

  lemma {:induction false} MajorRuns(p: Parser, r: Request, digits: string, tail: string)
    requires p.state == MajorStart && digits != "" && All(IsDecimal, digits) && tail != "" && tail[0] == '.'
    ensures Run(p, r, digits + tail) == Run(p.(state := MinorStart), r.(major := Number(r.major, digits)), tail[1..])
  {
    hide Run, Span, Number, All, IsDecimal, Consume;
    FirstOfAll(IsDecimal, digits);
    Separators();
    var c, more := digits[0], digits[1..];
    assert digits + tail == [c] + (more + tail) && digits == [c] + more;
    DigitStep(p, r, c);
    RunCons(p, r, c, more + tail);
    NumberFirst(r.major, c, more);
    SkipTo(IsDecimal, more, tail);
    RunMajor(p.(state := MajorRest), r.(major := Number(r.major, [c])), more + tail);
  }

  /** The first digit of a version number. */
  lemma {:induction false} DigitStep(p: Parser, r: Request, c: char)
    ensures p.state == MajorStart && IsDecimal(c) ==>
              Consume(p, r, c) == (Indeterminate, p.(state := MajorRest), r.(major := Number(r.major, [c])))
    ensures p.state == MinorStart && IsDecimal(c) ==>
              Consume(p, r, c) == (Indeterminate, p.(state := MinorRest), r.(minor := Number(r.minor, [c])))
    ensures p.state in {MajorStart, MinorStart} && !IsDecimal(c) ==> Consume(p, r, c).0 == Bad
  {
    assert [c][1..] == "";
  }

  lemma {:induction false} MinorRuns(p: Parser, r: Request, digits: string, tail: string)
    requires p.state == MinorStart && digits != "" && All(IsDecimal, digits) && tail != "" && tail[0] == '\r'
    ensures Run(p, r, digits + tail) == Run(p.(state := Newline1), r.(minor := Number(r.minor, digits)), tail[1..])
  {
    hide Run, Span, Number, All, IsDecimal, Consume;
    FirstOfAll(IsDecimal, digits);
    Separators();
    var c, more := digits[0], digits[1..];
    assert digits + tail == [c] + (more + tail) && digits == [c] + more;
    DigitStep(p, r, c);
    RunCons(p, r, c, more + tail);
    NumberFirst(r.minor, c, more);
    SkipTo(IsDecimal, more, tail);
    RunMinor(p.(state := MinorRest), r.(minor := Number(r.minor, [c])), more + tail);
  }

  lemma {:induction false} RunCons(p: Parser, r: Request, c: char, tail: string)
    ensures var (verdict, p', r') := Consume(p, r, c);
            verdict == Indeterminate ==> Run(p, r, [c] + tail) == Run(p', r', tail)
  {
    hide Run, Consume;
    RunFirst(p, r, [c] + tail);
    assert ([c] + tail)[1..] == tail;
  }

  lemma {:induction false} VersionStep(p: Parser, r: Request)
    ensures p.state == VersionH ==> Consume(p, r, 'H') == Go(p, VersionT1, r)
    ensures p.state == VersionT1 ==> Consume(p, r, 'T') == Go(p, VersionT2, r)
    ensures p.state == VersionT2 ==> Consume(p, r, 'T') == Go(p, VersionP, r)
    ensures p.state == VersionP ==> Consume(p, r, 'P') == Go(p, VersionSlash, r)
    ensures p.state == VersionSlash ==> Consume(p, r, '/') == Go(p, MajorStart, r.(major := 0, minor := 0))
  {
  }

  /** `HTTP/` after the URI. */
  lemma {:induction false} VersionRuns(p: Parser, r: Request, tail: string)
    requires p.state == VersionH
    ensures Run(p, r, "HTTP/" + tail) == Run(p.(state := MajorStart), r.(major := 0, minor := 0), tail)
  {
    hide Run, Consume;
    var slash := ['/'] + tail;
    var p4, p3, p2 := ['P'] + slash, ['T'] + (['P'] + slash), ['T'] + (['T'] + (['P'] + slash));
    assert "HTTP/" + tail == ['H'] + p2;
    VersionStep(p, r);
    RunCons(p, r, 'H', p2);
    VersionStep(p.(state := VersionT1), r);
    RunCons(p.(state := VersionT1), r, 'T', p3);
    VersionStep(p.(state := VersionT2), r);
    RunCons(p.(state := VersionT2), r, 'T', p4);
    VersionStep(p.(state := VersionP), r);
    RunCons(p.(state := VersionP), r, 'P', slash);
    VersionStep(p.(state := VersionSlash), r);
    RunCons(p.(state := VersionSlash), r, '/', tail);
  }

  lemma {:induction false} NewlineRuns(p: Parser, r: Request, tail: string)
    requires tail != "" && tail[0] == '\n'
    ensures p.state == Newline1 ==> Run(p, r, tail) == Run(LINE_START, r, tail[1..])
    ensures p.state == Newline2 ==> Run(p, r, tail) == Run(LINE_START, Store(p, r), tail[1..])
  {
    hide Run;
    RunFirst(p, r, tail);
  }

  lemma {:induction false} MethodRuns(r: Request, word: string, tail: string)
    requires word != "" && All(IsTokenByte, word) && tail != "" && tail[0] == ' '
    ensures Run(FRESH, r, word + tail) == Run(FRESH.(state := Uri), r, tail[1..])
  {
    hide Run, All, IsTokenByte;
    FirstOfAll(IsTokenByte, word);
    assert word + tail == [word[0]] + (word[1..] + tail);
    RunCons(FRESH, r, word[0], word[1..] + tail);
    MethodStep(r, word[0]);
    WordRuns(FRESH.(state := MethodRest), r, word[1..], tail);
  }

  lemma {:induction false} VersionLineRuns(p: Parser, r: Request, major: string, minor: string, rest: string)
    requires p.state == VersionH && major != "" && All(IsDecimal, major) && minor != "" && All(IsDecimal, minor)
    ensures Run(p, r, "HTTP/" + (major + ("." + (minor + ("\r\n" + rest))))) ==
            Run(LINE_START, r.(major := Number(0, major), minor := Number(0, minor)), rest)
  {
    hide Run, Consume, Number, All;
    var afterMinor := "\r\n" + rest;
    var afterMajor := "." + (minor + afterMinor);
    VersionRuns(p, r, major + afterMajor);
    var r2 := r.(major := 0, minor := 0);
    MajorRuns(p.(state := MajorStart), r2, major, afterMajor);
    var r3 := r2.(major := Number(0, major));
    assert afterMajor[1..] == minor + afterMinor;
    MinorRuns(p.(state := MinorStart), r3, minor, afterMinor);
    NewlineRuns(p.(state := Newline1), r3.(minor := Number(0, minor)), afterMinor[1..]);
    assert afterMinor[1..][1..] == rest;
  }

  lemma {:induction false} RequestLineRuns(r: Request, s: Sentence, rest: string)
    requires s.word != "" && All(IsTokenByte, s.word) && All(IsUriChar, s.uri)
    requires s.major != "" && All(IsDecimal, s.major) && s.minor != "" && All(IsDecimal, s.minor)
    ensures Run(FRESH, r, RequestLineText(s) + rest) ==
            Run(LINE_START, r.(uri := r.uri + s.uri, major := Number(0, s.major), minor := Number(0, s.minor)), rest)
  {
    hide Run, Consume, Number, All, IsTokenByte;
    var version := "HTTP/" + (s.major + ("." + (s.minor + ("\r\n" + rest))));
    var afterUri := " " + version;
    var afterWord := " " + (s.uri + afterUri);
    RequestLineParts(s, rest, version, afterUri, afterWord);
    MethodRuns(r, s.word, afterWord);
    UriRuns(FRESH.(state := Uri), r, s.uri, afterUri);
    VersionLineRuns(FRESH.(state := VersionH), r.(uri := r.uri + s.uri), s.major, s.minor, rest);
  }

  lemma {:induction false} RequestLineParts(s: Sentence, rest: string, version: string, afterUri: string,
                                            afterWord: string)
    requires version == "HTTP/" + (s.major + ("." + (s.minor + ("\r\n" + rest))))
    requires afterUri == " " + version && afterWord == " " + (s.uri + afterUri)
    ensures RequestLineText(s) + rest == s.word + afterWord
    ensures afterUri[1..] == version && afterWord[1..] == s.uri + afterUri
  {
    assert " HTTP/" == " " + "HTTP/";
  }

  lemma {:induction false} FirstOfAll(P: char -> bool, s: string)
    requires s != "" && All(P, s)
    ensures P(s[0]) && All(P, s[1..])
  {
  }

  lemma {:induction false} ValueRuns(p: Parser, r: Request, value: string, rest: string)
    requires p.state == HeaderValue && All(IsValueChar, value)
    ensures Run(p, r, value + ("\r\n" + rest)) == Run(LINE_START, Store(p.(value := p.value + value), r), rest)
  {
    hide Run, All, Span;
    var tail := "\r\n" + rest;
    SkipTo(IsValueChar, value, tail);
    RunValue(p, r, value + tail);
    NewlineRuns(p.(state := Newline2, value := p.value + value), r, tail[1..]);
    assert tail[1..][1..] == rest;
  }

  lemma {:induction false} NameRuns(r: Request, name: string, tail: string)
    requires name != "" && All(IsTokenByte, name)
    ensures Run(LINE_START, r, name + (":" + (" " + tail))) == Run(Parser(HeaderValue, name, ""), r, tail)
  {
    hide Run, All, IsTokenByte, Span, Consume;
    FirstOfAll(IsTokenByte, name);
    var c, more := name[0], name[1..];
    var colon := ":" + (" " + tail);
    assert name + colon == [c] + (more + colon) && name == [c] + more;
    NameStarts(r, c);
    RunCons(LINE_START, r, c, more + colon);
    Separators();
    SkipTo(IsTokenByte, more, colon);
    RunName(Parser(HeaderName, [c], ""), r, more + colon);
    assert colon[1..] == [' '] + tail;
    SpaceStep(name, r);
    RunCons(Parser(SpaceBeforeValue, name, ""), r, ' ', tail);
  }

  lemma {:induction false} NameStarts(r: Request, c: char)
    requires IsTokenByte(c)
    ensures Consume(LINE_START, r, c) == (Indeterminate, Parser(HeaderName, [c], ""), r)
  {
    hide IsToken, IsTokenByte;
    AlphabetIs(c);
    NotBlankToken(c);
    assert "" + [c] == [c];
  }

  lemma {:induction false} SpaceStep(name: string, r: Request)
    ensures Consume(Parser(SpaceBeforeValue, name, ""), r, ' ') == (Indeterminate, Parser(HeaderValue, name, ""), r)
  {
  }

  lemma {:induction false} FieldRuns(r: Request, name: string, value: string, rest: string)
    requires ValidLine(Field(name, value))
    ensures Run(LINE_START, r, LineText(Field(name, value)) + rest) ==
            Run(LINE_START, r.(headers := r.headers[name := value]), rest)
  {
    hide Run, All;
    var tail := value + ("\r\n" + rest);
    assert ": " == ":" + " ";
    assert LineText(Field(name, value)) + rest == name + (":" + (" " + tail));
    NameRuns(r, name, tail);
    ValueRuns(Parser(HeaderValue, name, ""), r, value, rest);
    assert "" + value == value;
  }

  lemma {:induction false} NotBlankToken(c: char)
    requires IsTokenByte(c)
    ensures c != '\r' && !IsBlank(c)
  {
  }

  lemma {:induction false} FoldedRuns(r: Request, blanks: string, value: string, rest: string)
    requires ValidLine(Folded(blanks, value)) && r.headers != map[]
    ensures Run(LINE_START, r, LineText(Folded(blanks, value)) + rest) ==
            Run(LINE_START, r.(headers := r.headers["" := value]), rest)
  {
    hide Run, All, Span, IsBlank, Consume;
    var tail := value + ("\r\n" + rest);
    FirstOfAll(IsBlank, blanks);
    var more := blanks[1..];
    assert LineText(Folded(blanks, value)) + rest == [blanks[0]] + (more + tail);
    FoldStarts(r, blanks[0]);
    RunCons(LINE_START, r, blanks[0], more + tail);
    FoldedTail(value, rest);
    SkipTo(IsBlank, more, tail);
    RunLws(LINE_START.(state := HeaderLws), r, more + tail);
    ValueRuns(LINE_START.(state := HeaderValue), r, value, rest);
    assert "" + value == value;
  }

  lemma {:induction false} FoldStarts(r: Request, c: char)
    requires IsBlank(c) && r.headers != map[]
    ensures Consume(LINE_START, r, c) == (Indeterminate, LINE_START.(state := HeaderLws), r)
  {
  }

  lemma {:induction false} FoldedTail(value: string, rest: string)
    requires All(IsValueChar, value) && (value != "" ==> value[0] != ' ')
    ensures var tail := value + ("\r\n" + rest);
            tail != "" && !IsBlank(tail[0]) && (!IsValueChar(tail[0]) ==> tail[0] == '\r')
  {
  }

  lemma {:induction false} LineRuns(r: Request, line: HeaderLine, rest: string)
    requires ValidLine(line) && (line.Folded? ==> r.headers != map[])
    ensures Run(LINE_START, r, LineText(line) + rest) ==
            Run(LINE_START, r.(headers := AddLine(r.headers, line)), rest)
  {
    hide Run, ValidLine, LineText;
    match line {
      case Field(name, value) => FieldRuns(r, name, value, rest);
      case Folded(blanks, value) => FoldedRuns(r, blanks, value, rest);
    }
  }

  lemma {:induction false} LinesRun(r: Request, lines: seq<HeaderLine>, rest: string)
    requires forall i | 0 <= i < |lines| :: ValidLine(lines[i])
    requires lines != [] && lines[0].Folded? ==> r.headers != map[]
    ensures Run(LINE_START, r, LinesText(lines) + rest) ==
            Run(LINE_START, r.(headers := AddLines(r.headers, lines)), rest)
    decreases |lines|
  {
    hide Run, ValidLine, LineText;
    if lines == [] {
      assert "" + rest == rest;
    } else {
      var r' := r.(headers := AddLine(r.headers, lines[0]));
      assert LinesText(lines) + rest == LineText(lines[0]) + (LinesText(lines[1..]) + rest);
      LineRuns(r, lines[0], LinesText(lines[1..]) + rest);
      HeadersGrow(r.headers, lines[0]);
      LinesRun(r', lines[1..], rest);
    }
  }

  lemma {:induction false} HeadersGrow(headers: map<string, string>, line: HeaderLine)
    ensures AddLine(headers, line) != map[]
  {
    var name := if line.Field? then line.name else "";
    assert name in AddLine(headers, line);
  }

  lemma {:induction false} EndRuns(r: Request, rest: string)
    ensures Run(LINE_START, r, "\r\n" + rest) == Outcome(Good, Parser(Newline3, "", ""), r, rest)
  {
    hide Run, Consume;
    var last := ['\n'] + rest;
    assert "\r\n" + rest == ['\r'] + last;
    EndSteps(r);
    RunCons(LINE_START, r, '\r', last);
    RunFirst(Parser(Newline3, "", ""), r, last);
    assert last[1..] == rest;
  }

  lemma {:induction false} EndSteps(r: Request)
    ensures Consume(LINE_START, r, '\r') == (Indeterminate, Parser(Newline3, "", ""), r)
    ensures Consume(Parser(Newline3, "", ""), r, '\n') == (Good, Parser(Newline3, "", ""), r)
  {
  }

  /** Every sentence is accepted, read as it is meant, and nothing after it is touched. */
  lemma {:induction false} SentenceAccepted(r: Request, s: Sentence, rest: string)
    requires ValidSentence(s) && r.headers == map[]
    ensures Run(FRESH, r, Text(s) + rest) == Outcome(Good, Parser(Newline3, "", ""), Meaning(r, s), rest)
  {
    hide Run, RequestLineText, LinesText, Number, AddLines;
    assert Text(s) + rest == RequestLineText(s) + (LinesText(s.lines) + ("\r\n" + rest));
    RequestLineRuns(r, s, LinesText(s.lines) + ("\r\n" + rest));
    var r' := r.(uri := r.uri + s.uri, major := Number(0, s.major), minor := Number(0, s.minor));
    LinesRun(r', s.lines, "\r\n" + rest);
    EndRuns(r'.(headers := AddLines(r'.headers, s.lines)), rest);
  }

  // ----- backward: the parts of an accepted text -----

  /** An accepted text has a first byte, and the machine does not fail on it. */
  lemma {:induction false} FirstPeels(p: Parser, r: Request, text: string)
    requires Run(p, r, text).verdict == Good
    ensures text != "" && text == [text[0]] + text[1..]
    ensures var (verdict, p', r') := Consume(p, r, text[0]);
            && verdict != Bad
            && (verdict == Indeterminate ==> Run(p, r, text) == Run(p', r', text[1..]))
            && (verdict == Good ==> Run(p, r, text).rest == text[1..])
  {
    hide Run, Consume;
    if text == "" { RunNothing(p, r); } else { RunFirst(p, r, text); }
  }

  /** An accepted text splits at the end of a stretch of one class. */
  lemma {:induction false} Splits(P: char -> bool, text: string, n: nat)
    requires n == Span(P, text) && n < |text|
    ensures All(P, text[..n]) && text == text[..n] + ([text[n]] + text[n + 1..])
  {
  }

  lemma {:induction false} MethodStep(r: Request, c: char)
    ensures Consume(FRESH, r, c) == if IsTokenByte(c) then Go(FRESH, MethodRest, r) else Fail(FRESH, r)
  {
    hide IsToken, IsTokenByte;
    AlphabetIs(c);
  }

  lemma {:induction false} ConsGlue(text: string, n: nat)
    requires text != "" && n < |text[1..]|
    ensures var more := text[1..]; text == [text[0]] + more[..n] + ([more[n]] + more[n + 1..])
  {
  }

  lemma {:induction false} WordPeels(r: Request, text: string) returns (word: string, rest: string)
    requires Run(FRESH, r, text).verdict == Good
    ensures word != "" && All(IsTokenByte, word) && text == word + (" " + rest)
    ensures Run(FRESH, r, text) == Run(FRESH.(state := Uri), r, rest)
  {
    hide Run, Span, Consume, IsTokenByte, All;
    FirstPeels(FRESH, r, text);
    MethodStep(r, text[0]);
    var more := text[1..];
    var n := Span(IsTokenByte, more);
    RunWord(FRESH.(state := MethodRest), r, more);
    Splits(IsTokenByte, more, n);
    AllCons(IsTokenByte, text[0], more[..n]);
    ConsGlue(text, n);
    word, rest := [text[0]] + more[..n], more[n + 1..];
  }

  lemma {:induction false} UriPeels(p: Parser, r: Request, text: string) returns (uri: string, rest: string)
    requires p.state == Uri && Run(p, r, text).verdict == Good
    ensures All(IsUriChar, uri) && text == uri + (" " + rest)
    ensures Run(p, r, text) == Run(p.(state := VersionH), r.(uri := r.uri + uri), rest)
  {
    hide Run, Span;
    var n := Span(IsUriChar, text);
    RunUri(p, r, text);
    Splits(IsUriChar, text, n);
    uri, rest := text[..n], text[n + 1..];
  }

  lemma {:induction false} VersionStepOnly(p: Parser, r: Request, c: char)
    requires Consume(p, r, c).0 != Bad
    ensures p.state == VersionH ==> c == 'H'
    ensures p.state == VersionT1 ==> c == 'T'
    ensures p.state == VersionT2 ==> c == 'T'
    ensures p.state == VersionP ==> c == 'P'
    ensures p.state == VersionSlash ==> c == '/'
  {
  }

  lemma {:induction false} OneVersionPeels(p: Parser, r: Request, text: string) returns (c: char, rest: string)
    requires p.state in {VersionH, VersionT1, VersionT2, VersionP, VersionSlash} && Run(p, r, text).verdict == Good
    ensures text == [c] + rest && Run(p, r, text) == Run(Consume(p, r, c).1, Consume(p, r, c).2, rest)
    ensures c == match p.state case VersionH => 'H' case VersionP => 'P' case VersionSlash => '/' case _ => 'T'
  {
    hide Run, Consume;
    FirstPeels(p, r, text);
    c, rest := text[0], text[1..];
    VersionStepOnly(p, r, c);
    VersionStep(p, r);
  }

  lemma {:induction false} VersionGlue(text: string, t1: string, t2: string, t3: string, t4: string, rest: string)
    requires text == ['H'] + t1 && t1 == ['T'] + t2 && t2 == ['T'] + t3 && t3 == ['P'] + t4 && t4 == ['/'] + rest
    ensures text == "HTTP/" + rest
  {
  }

  lemma {:induction false} VersionPeels(p: Parser, r: Request, text: string) returns (rest: string)
    requires p.state == VersionH && Run(p, r, text).verdict == Good
    ensures text == "HTTP/" + rest
    ensures Run(p, r, text) == Run(p.(state := MajorStart), r.(major := 0, minor := 0), rest)
  {
    hide Run, Consume;
    VersionStep(p, r);
    var h, t1 := OneVersionPeels(p, r, text);
    VersionStep(p.(state := VersionT1), r);
    var c1, t2 := OneVersionPeels(p.(state := VersionT1), r, t1);
    VersionStep(p.(state := VersionT2), r);
    var c2, t3 := OneVersionPeels(p.(state := VersionT2), r, t2);
    VersionStep(p.(state := VersionP), r);
    var c3, t4 := OneVersionPeels(p.(state := VersionP), r, t3);
    VersionStep(p.(state := VersionSlash), r);
    var c4, t5 := OneVersionPeels(p.(state := VersionSlash), r, t4);
    rest := t5;
    VersionGlue(text, t1, t2, t3, t4, rest);
  }

  lemma {:induction false} DigitsSplit(text: string, n: nat, sep: char)
    requires text != "" && IsDecimal(text[0]) && n == Span(IsDecimal, text[1..])
    requires n < |text[1..]| && text[1..][n] == sep
    ensures var digits := [text[0]] + text[1..][..n];
            All(IsDecimal, digits) && text == digits + ([sep] + text[1..][n + 1..])
  {
    hide Span, IsDecimal, All;
    Splits(IsDecimal, text[1..], n);
    AllCons(IsDecimal, text[0], text[1..][..n]);
    ConsGlue(text, n);
  }

  lemma {:induction false} MajorDigits(p: Parser, r: Request, text: string) returns (n: nat)
    requires p.state == MajorStart && Run(p, r, text).verdict == Good
    ensures text != "" && IsDecimal(text[0]) && n == Span(IsDecimal, text[1..]) && n < |text[1..]|
    ensures var c, more := text[0], text[1..];
            && more[n] == '.'
            && Run(p, r, text)
               == Run(p.(state := MinorStart), r.(major := Number(Number(r.major, [c]), more[..n])), more[n + 1..])
  {
    hide *;
    FirstPeels(p, r, text);
    DigitStep(p, r, text[0]);
    n := Span(IsDecimal, text[1..]);
    RunMajor(p.(state := MajorRest), r.(major := Number(r.major, [text[0]])), text[1..]);
  }

  lemma {:induction false} MajorPeels(p: Parser, r: Request, text: string) returns (digits: string, rest: string)
    requires p.state == MajorStart && Run(p, r, text).verdict == Good
    ensures digits != "" && All(IsDecimal, digits) && text == digits + ("." + rest)
    ensures Run(p, r, text) == Run(p.(state := MinorStart), r.(major := Number(r.major, digits)), rest)
  {
    hide *;
    var n := MajorDigits(p, r, text);
    DigitsSplit(text, n, '.');
    NumberFirst(r.major, text[0], text[1..][..n]);
    digits, rest := [text[0]] + text[1..][..n], text[1..][n + 1..];
  }

  lemma {:induction false} MinorDigits(p: Parser, r: Request, text: string) returns (n: nat)
    requires p.state == MinorStart && Run(p, r, text).verdict == Good
    ensures text != "" && IsDecimal(text[0]) && n == Span(IsDecimal, text[1..]) && n < |text[1..]|
    ensures var c, more := text[0], text[1..];
            && more[n] == '\r'
            && Run(p, r, text)
               == Run(p.(state := Newline1), r.(minor := Number(Number(r.minor, [c]), more[..n])), more[n + 1..])
  {
    hide *;
    FirstPeels(p, r, text);
    DigitStep(p, r, text[0]);
    n := Span(IsDecimal, text[1..]);
    RunMinor(p.(state := MinorRest), r.(minor := Number(r.minor, [text[0]])), text[1..]);
  }

  lemma {:induction false} MinorPeels(p: Parser, r: Request, text: string) returns (digits: string, rest: string)
    requires p.state == MinorStart && Run(p, r, text).verdict == Good
    ensures digits != "" && All(IsDecimal, digits) && text == digits + ("\r" + rest)
    ensures Run(p, r, text) == Run(p.(state := Newline1), r.(minor := Number(r.minor, digits)), rest)
  {
    hide *;
    var n := MinorDigits(p, r, text);
    DigitsSplit(text, n, '\r');
    NumberFirst(r.minor, text[0], text[1..][..n]);
    digits, rest := [text[0]] + text[1..][..n], text[1..][n + 1..];
  }

  lemma {:induction false} NewlinePeels(p: Parser, r: Request, text: string) returns (rest: string)
    requires (p.state == Newline1 || p.state == Newline2) && Run(p, r, text).verdict == Good
    ensures text == "\n" + rest
    ensures Run(p, r, text) == Run(LINE_START, if p.state == Newline1 then r else Store(p, r), rest)
  {
    hide Run;
    FirstPeels(p, r, text);
    rest := text[1..];
  }

  lemma {:induction false} RequestLinePeels(r: Request, text: string)
    returns (word: string, uri: string, major: string, minor: string, rest: string, r': Request)
    requires Run(FRESH, r, text).verdict == Good
    ensures word != "" && All(IsTokenByte, word) && All(IsUriChar, uri)
    ensures major != "" && All(IsDecimal, major) && minor != "" && All(IsDecimal, minor)
    ensures text == RequestLineText(Sentence(word, uri, major, minor, [])) + rest
    ensures Run(FRESH, r, text) == Run(LINE_START, r', rest) && r'.headers == r.headers
  {
    hide Run, All, Number;
    var a, b, c, d, e;
    word, a := WordPeels(r, text);
    uri, b := UriPeels(FRESH.(state := Uri), r, a);
    var r1 := r.(uri := r.uri + uri);
    c := VersionPeels(FRESH.(state := VersionH), r1, b);
    var r2 := r1.(major := 0, minor := 0);
    major, d := MajorPeels(FRESH.(state := MajorStart), r2, c);
    var r3 := r2.(major := Number(0, major));
    minor, e := MinorPeels(FRESH.(state := MinorStart), r3, d);
    r' := r3.(minor := Number(0, minor));
    rest := NewlinePeels(FRESH.(state := Newline1), r', e);
    LineGlue(word, uri, major, minor, rest, a, b, c, d, e, text);
  }

  lemma {:induction false} LineGlue(word: string, uri: string, major: string, minor: string, rest: string,
                                    a: string, b: string, c: string, d: string, e: string, text: string)
    requires text == word + (" " + a) && a == uri + (" " + b) && b == "HTTP/" + c
    requires c == major + ("." + d) && d == minor + ("\r" + e) && e == "\n" + rest
    ensures text == RequestLineText(Sentence(word, uri, major, minor, [])) + rest
  {
    assert "\r" + ("\n" + rest) == "\r\n" + rest;
    assert " " + ("HTTP/" + c) == " HTTP/" + c;
  }

  lemma {:induction false} CrlfGlue(rest: string)
    ensures ['\r'] + ("\n" + rest) == "\r\n" + rest
  {
  }

  lemma {:induction false} StoreIgnoresState(p: Parser, q: Parser, r: Request)
    requires p.key == q.key
    ensures Store(p, r) == Store(q.(value := p.value), r)
  {
  }

  lemma {:induction false} ValuePeels(p: Parser, r: Request, text: string) returns (value: string, rest: string)
    requires p.state == HeaderValue && Run(p, r, text).verdict == Good
    ensures All(IsValueChar, value) && text == value + ("\r\n" + rest)
    ensures Run(p, r, text) == Run(LINE_START, Store(p.(value := p.value + value), r), rest)
  {
    hide Run, Span, Consume, Store, All, IsValueChar;
    var n := Span(IsValueChar, text);
    RunValue(p, r, text);
    Splits(IsValueChar, text, n);
    value := text[..n];
    var after := p.(state := Newline2, value := p.value + value);
    rest := NewlinePeels(after, r, text[n + 1..]);
    StoreIgnoresState(after, p, r);
    CrlfGlue(rest);
  }

  lemma {:induction false} FieldPeels(r: Request, text: string) returns (line: HeaderLine, rest: string)
    requires text != "" && IsTokenByte(text[0]) && Run(LINE_START, r, text).verdict == Good
    ensures line.Field? && ValidLine(line) && text == LineText(line) + rest
    ensures Run(LINE_START, r, text) == Run(LINE_START, r.(headers := AddLine(r.headers, line)), rest)
  {
    hide Run, Span, Consume, IsTokenByte, All;
    FirstPeels(LINE_START, r, text);
    var c, more := text[0], text[1..];
    NameStarts(r, c);
    var n := Span(IsTokenByte, more);
    RunName(Parser(HeaderName, [c], ""), r, more);
    Splits(IsTokenByte, more, n);
    var name, a := [c] + more[..n], more[n + 1..];
    AllCons(IsTokenByte, c, more[..n]);
    FirstPeels(Parser(SpaceBeforeValue, name, ""), r, a);
    SpaceStepOnly(name, r, a[0]);
    SpaceStep(name, r);
    var value;
    value, rest := ValuePeels(Parser(HeaderValue, name, ""), r, a[1..]);
    StoredValue(name, value, r);
    line := Field(name, value);
    ConsGlue(text, n);
    FieldGlue(text, name, a, value, rest);
  }

  lemma {:induction false} StoredValue(name: string, value: string, r: Request)
    ensures Store(Parser(HeaderValue, name, "" + value), r) == r.(headers := r.headers[name := value])
  {
    assert "" + value == value;
  }

  lemma {:induction false} SpaceStepOnly(name: string, r: Request, c: char)
    requires Consume(Parser(SpaceBeforeValue, name, ""), r, c).0 != Bad
    ensures c == ' '
  {
  }

  lemma {:induction false} FieldGlue(text: string, name: string, a: string, value: string, rest: string)
    requires text == name + ([':'] + a) && a == [' '] + (value + ("\r\n" + rest))
    ensures text == LineText(Field(name, value)) + rest
  {
    var end := value + "\r\n";
    Regroup([':'], [' '], value + ("\r\n" + rest));
    assert [':'] + [' '] == ": ";
    Regroup(value, "\r\n", rest);
    Regroup(": ", end, rest);
    Regroup(name, ": " + end, rest);
  }

  lemma {:induction false} AllCons(P: char -> bool, c: char, s: string)
    requires P(c) && All(P, s)
    ensures All(P, [c] + s)
  {
  }

  lemma {:induction false} FoldedPeels(r: Request, text: string) returns (line: HeaderLine, rest: string)
    requires text != "" && IsBlank(text[0]) && Run(LINE_START, r, text).verdict == Good
    ensures line.Folded? && r.headers != map[] && ValidLine(line) && text == LineText(line) + rest
    ensures Run(LINE_START, r, text) == Run(LINE_START, r.(headers := AddLine(r.headers, line)), rest)
  {
    hide Run, Span, Consume, IsBlank, All;
    FirstPeels(LINE_START, r, text);
    FoldNeedsHeader(r, text[0]);
    FoldStarts(r, text[0]);
    var more := text[1..];
    var n := Span(IsBlank, more);
    RunLws(LINE_START.(state := HeaderLws), r, more);
    Splits(IsBlank, more, n);
    var blanks := [text[0]] + more[..n];
    AllCons(IsBlank, text[0], more[..n]);
    var value;
    value, rest := ValuePeels(LINE_START.(state := HeaderValue), r, more[n..]);
    assert "" + value == value;
    assert value != "" ==> value[0] == more[n];
    BlankSpace();
    line := Folded(blanks, value);
    FoldedGlue(text, n, blanks, value, rest);
  }

  lemma {:induction false} FoldedGlue(text: string, n: nat, blanks: string, value: string, rest: string)
    requires text != "" && n <= |text[1..]| && blanks == [text[0]] + text[1..][..n]
    requires text[1..][n..] == value + ("\r\n" + rest)
    ensures text == LineText(Folded(blanks, value)) + rest
  {
    SplitAfterFirst(text, n);
    Regroup(value, "\r\n", rest);
    Regroup(blanks, value + "\r\n", rest);
  }

  lemma {:induction false} SplitAfterFirst(text: string, n: nat)
    requires text != "" && n <= |text[1..]|
    ensures text == [text[0]] + text[1..][..n] + text[1..][n..]
  {
  }

  lemma {:induction false} BlankSpace()
    ensures IsBlank(' ')
  {
  }

  lemma {:induction false} FoldNeedsHeader(r: Request, c: char)
    requires IsBlank(c) && Consume(LINE_START, r, c).0 != Bad
    ensures r.headers != map[]
  {
  }

  lemma {:induction false} LineStartOnly(r: Request, c: char)
    requires Consume(LINE_START, r, c).0 != Bad
    ensures c == '\r' || IsBlank(c) || IsTokenByte(c)
    ensures c == '\r' ==> Consume(LINE_START, r, c) == (Indeterminate, Parser(Newline3, "", ""), r)
  {
    hide IsToken, IsTokenByte;
    AlphabetIs(c);
  }

  lemma {:induction false} LastNewlineOnly(r: Request, c: char)
    requires Consume(Parser(Newline3, "", ""), r, c).0 != Bad
    ensures c == '\n' && Consume(Parser(Newline3, "", ""), r, c).0 == Good
  {
  }

  lemma {:induction false} EndPeels(r: Request, text: string)
    requires text != "" && text[0] == '\r' && Run(LINE_START, r, text).verdict == Good
    ensures text == LinesText([]) + ("\r\n" + Run(LINE_START, r, text).rest)
  {
    hide Run, Consume, LineText;
    FirstPeels(LINE_START, r, text);
    LineStartOnly(r, text[0]);
    FirstPeels(Parser(Newline3, "", ""), r, text[1..]);
    LastNewlineOnly(r, text[1..][0]);
    assert ['\r'] + (['\n'] + text[1..][1..]) == "\r\n" + text[1..][1..];
  }

  lemma {:induction false} LinePeels(r: Request, text: string) returns (line: HeaderLine, rest: string)
    requires text != "" && text[0] != '\r' && Run(LINE_START, r, text).verdict == Good
    ensures ValidLine(line) && (line.Folded? ==> r.headers != map[]) && text == LineText(line) + rest
    ensures Run(LINE_START, r, text) == Run(LINE_START, r.(headers := AddLine(r.headers, line)), rest)
  {
    hide Run, Consume, ValidLine, LineText, IsBlank, IsTokenByte, AddLine;
    FirstPeels(LINE_START, r, text);
    LineStartOnly(r, text[0]);
    if IsTokenByte(text[0]) {
      line, rest := FieldPeels(r, text);
    } else {
      line, rest := FoldedPeels(r, text);
    }
  }

  lemma {:induction false} LinesPeel(r: Request, text: string) returns (lines: seq<HeaderLine>)
    requires Run(LINE_START, r, text).verdict == Good
    ensures forall i | 0 <= i < |lines| :: ValidLine(lines[i])
    ensures lines != [] && lines[0].Folded? ==> r.headers != map[]
    ensures text == LinesText(lines) + ("\r\n" + Run(LINE_START, r, text).rest)
    decreases |text|
  {
    hide Run, ValidLine, LineText, AddLine, LinesText;
    FirstPeels(LINE_START, r, text);
    if text[0] == '\r' {
      EndPeels(r, text);
      lines := [];
    } else {
      var line, tail := LinePeels(r, text);
      LineIsLong(line);
      var more := LinesPeel(r.(headers := AddLine(r.headers, line)), tail);
      lines := [line] + more;
      LinesGlue(line, more, "\r\n" + Run(LINE_START, r, text).rest);
    }
  }

  lemma {:induction false} LinesGlue(line: HeaderLine, more: seq<HeaderLine>, end: string)
    ensures LineText(line) + (LinesText(more) + end) == LinesText([line] + more) + end
  {
    hide LineText;
    assert ([line] + more)[1..] == more;
  }

  lemma {:induction false} LineIsLong(line: HeaderLine)
    ensures |LineText(line)| >= 2
  {
  }

  /** Every accepted text starts with a sentence, and what was not consumed is what follows it. */
  lemma {:induction false} AcceptedIsSentence(r: Request, text: string) returns (s: Sentence)
    requires r.headers == map[] && Run(FRESH, r, text).verdict == Good
    ensures ValidSentence(s) && text == Text(s) + Run(FRESH, r, text).rest
  {
    hide Run, All, ValidLine, RequestLineText, LinesText;
    var word, uri, major, minor, rest, r' := RequestLinePeels(r, text);
    var lines := LinesPeel(r', rest);
    s := Sentence(word, uri, major, minor, lines);
    SameRequestLine(s);
    assert text == RequestLineText(s) + (LinesText(lines) + ("\r\n" + Run(FRESH, r, text).rest));
  }

  lemma {:induction false} SameRequestLine(s: Sentence)
    ensures RequestLineText(s.(lines := [])) == RequestLineText(s)
  {
  }

  /** Main theorem: from a fresh parser and an empty header map, the machine is good after the
      first `k` bytes exactly when these bytes are a sentence; then the request is its meaning. */
  lemma {:induction false} GoodIffSentence(r: Request, text: string, k: nat)
    requires r.headers == map[] && k <= |text|
    ensures Run(FRESH, r, text).verdict == Good && Run(FRESH, r, text).rest == text[k..] <==>
            exists s :: ValidSentence(s) && Text(s) == text[..k]
    ensures forall s | ValidSentence(s) && Text(s) == text[..k] :: Run(FRESH, r, text).request == Meaning(r, s)
  {
    hide Run, ValidSentence, Text, Meaning;
    var o := Run(FRESH, r, text);
    if o.verdict == Good && o.rest == text[k..] {
      var s := AcceptedIsSentence(r, text);
      assert text[..k] == Text(s);
    }
    forall s | ValidSentence(s) && Text(s) == text[..k]
      ensures o.verdict == Good && o.rest == text[k..] && o.request == Meaning(r, s)
    {
      assert text == Text(s) + text[k..];
      SentenceAccepted(r, s, text[k..]);
    }
  }
}
