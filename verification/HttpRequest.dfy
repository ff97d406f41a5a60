/** The byte-driven request parser: twenty states, one step for each byte. */
module HttpRequest {
  import opened Shared

  datatype Method = Get | Head | Post | Put | Delete | Connect | Options | Trace | Patch

  /** A request. `methodType` is none while no method word has been recognised. */
  datatype Request = Request(methodType: Option<Method>, uri: string, headers: map<string, string>,
                             body: string, major: int, minor: int)

  const EMPTY := Request(None, "", map[], "", 0, 0)

  datatype State =
    | MethodStart | MethodRest | Uri
    | VersionH | VersionT1 | VersionT2 | VersionP | VersionSlash
    | MajorStart | MajorRest | MinorStart | MinorRest
    | Newline1 | HeaderLineStart | HeaderLws | HeaderName | SpaceBeforeValue | HeaderValue
    | Newline2 | Newline3

  datatype Verdict = Good | Bad | Indeterminate

  /** The fields of the parser object. */
  datatype Parser = Parser(state: State, key: string, value: string)

  const FRESH := Parser(MethodStart, "", "")

  /** What a step, or a run over a text, leaves behind; `rest` is what was not consumed. */
  datatype Outcome = Outcome(verdict: Verdict, parser: Parser, request: Request, rest: string)

  predicate IsChar(c: char) {
    c as int <= 127
  }

  predicate IsCtl(c: char) {
    c as int <= 31 || c as int == 127
  }

  /** Section 2.2 of RFC 1945. */
  predicate IsTspecial(c: char) {
    c in {'(', ')', '<', '>', '@', ',', ';', ':', '\\', '"', '/', '[', ']', '?', '=', '{', '}', ' ', '\t'}
  }

  predicate IsDigit(c: char) {
    '0' <= c <= '9'
  }

  function DigitValue(c: char): int {
    c as int - '0' as int
  }

  /** A byte that may stand in a method or in a header name. */
  predicate IsToken(c: char) {
    IsChar(c) && !IsCtl(c) && !IsTspecial(c)
  }

  function Go(p: Parser, state: State, r: Request): (Verdict, Parser, Request) {
    (Indeterminate, p.(state := state), r)
  }

  function Fail(p: Parser, r: Request): (Verdict, Parser, Request) {
    (Bad, p, r)
  }

  function Expect(p: Parser, r: Request, c: char, wanted: char, next: State): (Verdict, Parser, Request) {
    if c == wanted then Go(p, next, r) else Fail(p, r)
  }

  /** The header line read so far goes into the map; the parser forgets it. */
  function Store(p: Parser, r: Request): Request {
    r.(headers := r.headers[p.key := p.value])
  }

  function ConsumeRequestLine(p: Parser, r: Request, c: char): (Verdict, Parser, Request) {
    match p.state
    case MethodStart => if IsToken(c) then Go(p, MethodRest, r) else Fail(p, r)
    case MethodRest => if c == ' ' then Go(p, Uri, r) else if IsToken(c) then Go(p, MethodRest, r) else Fail(p, r)
    case Uri =>
      if c == ' ' then Go(p, VersionH, r)
      else if IsCtl(c) then Fail(p, r)
      else Go(p, Uri, r.(uri := r.uri + [c]))
    case VersionH => Expect(p, r, c, 'H', VersionT1)
    case VersionT1 => Expect(p, r, c, 'T', VersionT2)
    case VersionT2 => Expect(p, r, c, 'T', VersionP)
    case VersionP => Expect(p, r, c, 'P', VersionSlash)
    case VersionSlash => Expect(p, if c == '/' then r.(major := 0, minor := 0) else r, c, '/', MajorStart)
    case MajorStart =>
      if IsDigit(c) then Go(p, MajorRest, r.(major := r.major * 10 + DigitValue(c))) else Fail(p, r)
    case MajorRest =>
      if c == '.' then Go(p, MinorStart, r)
      else if IsDigit(c) then Go(p, MajorRest, r.(major := r.major * 10 + DigitValue(c)))
      else Fail(p, r)
    case MinorStart =>
      if IsDigit(c) then Go(p, MinorRest, r.(minor := r.minor * 10 + DigitValue(c))) else Fail(p, r)
    case MinorRest =>
      if c == '\r' then Go(p, Newline1, r)
      else if IsDigit(c) then Go(p, MinorRest, r.(minor := r.minor * 10 + DigitValue(c)))
      else Fail(p, r)
    case Newline1 => if c == '\n' then (Indeterminate, Parser(HeaderLineStart, "", ""), r) else Fail(p, r)
    case _ => Fail(p, r)
  }

  function ConsumeHeader(p: Parser, r: Request, c: char): (Verdict, Parser, Request) {
    match p.state
    case HeaderLineStart =>
      if c == '\r' then
        if p.key != "" then (Indeterminate, Parser(Newline3, "", ""), Store(p, r)) else Go(p, Newline3, r)
      else if r.headers != map[] && (c == ' ' || c == '\t') then Go(p, HeaderLws, r)
      else if IsToken(c) then Go(p.(key := p.key + [c]), HeaderName, r)
      else Fail(p, r)
    case HeaderLws =>
      if c == '\r' then Go(p, Newline2, r)
      else if c == ' ' || c == '\t' then Go(p, HeaderLws, r)
      else if IsCtl(c) then Fail(p, r)
      else Go(p.(value := p.value + [c]), HeaderValue, r)
    case HeaderName =>
      if c == ':' then Go(p, SpaceBeforeValue, r)
      else if IsToken(c) then Go(p.(key := p.key + [c]), HeaderName, r)
      else Fail(p, r)
    case SpaceBeforeValue => Expect(p, r, c, ' ', HeaderValue)
    case HeaderValue =>
      if c == '\r' then Go(p, Newline2, r)
      else if IsCtl(c) then Fail(p, r)
      else Go(p.(value := p.value + [c]), HeaderValue, r)
    case Newline2 =>
      if c == '\n' then (Indeterminate, Parser(HeaderLineStart, "", ""), Store(p, r)) else Fail(p, r)
    case Newline3 => (if c == '\n' then Good else Bad, p, r)
    case _ => Fail(p, r)
  }

  predicate InHeaders(state: State) {
    || state.HeaderLineStart? || state.HeaderLws? || state.HeaderName? || state.SpaceBeforeValue?
    || state.HeaderValue? || state.Newline2? || state.Newline3?
  }

  /** One byte. */
  function Consume(p: Parser, r: Request, c: char): (Verdict, Parser, Request) {
    if InHeaders(p.state) then ConsumeHeader(p, r, c) else ConsumeRequestLine(p, r, c)
  }

  /** Bytes until the verdict is good or bad, or until there are no more. */
  function Run(p: Parser, r: Request, text: string): (o: Outcome)
    ensures |o.rest| <= |text| && o.rest == text[|text| - |o.rest|..]
    ensures o.verdict == Indeterminate ==> o.rest == ""
    decreases |text|, p, r
  {
    if text == "" then Outcome(Indeterminate, p, r, "")
    else
      var (verdict, p', r') := Consume(p, r, text[0]);
      if verdict != Indeterminate then Outcome(verdict, p', r', text[1..]) else Run(p', r', text[1..])
  }

  /** The method by the first three bytes. */
  function MethodOf(word: string): Option<Method> {
    if "GET" <= word then Some(Get)
    else if "HEA" <= word then Some(Head)
    else if "POS" <= word then Some(Post)
    else if "PUT" <= word then Some(Put)
    else if "DEL" <= word then Some(Delete)
    else if "CON" <= word then Some(Connect)
    else if "OPT" <= word then Some(Options)
    else if "TRA" <= word then Some(Trace)
    else if "PAT" <= word then Some(Patch)
    else None
  }

  /** The C string at the start of a memory range: what stands before the first zero byte. */
  function CString(memory: string): (text: string)
    ensures text <= memory && '\0' !in text && (|text| < |memory| ==> memory[|text|] == '\0')
  {
    if memory == "" || memory[0] == '\0' then "" else [memory[0]] + CString(memory[1..])
  }

  /** The body becomes all of the buffer and the method word is looked up, before any byte is
      consumed; an unknown method leaves the old one. */
  function Prepare(r: Request, memory: string): Request {
    r.(body := CString(memory), methodType := if MethodOf(memory).Some? then MethodOf(memory) else r.methodType)
  }

  /** `memory` is the buffer from the start of the text on; the text ends after `length` bytes. */
  function Parse(p: Parser, r: Request, memory: string, length: nat): Outcome
    requires length <= |memory|
  {
    Run(p, Prepare(r, memory), memory[..length])
  }

  lemma {:induction false} RunConcat(p: Parser, r: Request, a: string, b: string)
    ensures var o := Run(p, r, a);
            Run(p, r, a + b) == if o.verdict == Indeterminate then Run(o.parser, o.request, b)
                                else o.(rest := o.rest + b)
    decreases |a|
  {
    hide Consume;
    if a == "" {
      assert a + b == b;
    } else {
      assert (a + b)[1..] == a[1..] + b;
      var (verdict, p', r') := Consume(p, r, a[0]);
      if verdict == Indeterminate {
        RunConcat(p', r', a[1..], b);
      }
    }
  }
}
