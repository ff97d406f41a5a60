/** The request, the parser and the session as the objects they are, proved against the functions
    of `HttpRequest` and `HttpSession`. */
module HttpObjects {
  import opened Shared
  import opened HttpRequest
  import opened HttpGrammar
  import opened HttpLanguage
  import opened HttpSession
  import opened HttpContinuation

  class ClientRequest {
    var methodType: Option<Method>
    var uri: string
    var headers: map<string, string>
    var body: string
    var httpVersionMajor: int
    var httpVersionMinor: int

    function Value(): Request
      reads this
    {
      Request(methodType, uri, headers, body, httpVersionMajor, httpVersionMinor)
    }

    constructor ()
      ensures Value() == EMPTY
    {
      methodType, uri, headers, body, httpVersionMajor, httpVersionMinor := None, "", map[], "", 0, 0;
    }
  }

  // ----- the request parser, its states in five groups -----

  predicate InTarget(state: State) {
    state.MethodStart? || state.MethodRest? || state.Uri?
  }

  predicate InVersionWord(state: State) {
    state.VersionH? || state.VersionT1? || state.VersionT2? || state.VersionP? || state.VersionSlash?
  }

  predicate InVersionNumber(state: State) {
    state.MajorStart? || state.MajorRest? || state.MinorStart? || state.MinorRest? || state.Newline1?
  }

  predicate InName(state: State) {
    state.HeaderLineStart? || state.HeaderName? || state.Newline3?
  }

  predicate InValue(state: State) {
    state.HeaderLws? || state.SpaceBeforeValue? || state.HeaderValue? || state.Newline2?
  }

  class RequestParser {
    var state: State
    var tempKey: string
    var tempValue: string

    function Value(): Parser
      reads this
    {
      Parser(state, tempKey, tempValue)
    }

    constructor ()
      ensures Value() == FRESH
    {
      state, tempKey, tempValue := MethodStart, "", "";
    }

    /** Only the state goes back to the start, but from here on the parser reads every request as a
        new one does. */
    method Reset()
      modifies this
      ensures Value() == old(Value()).(state := MethodStart) && ReadAlike(Value(), FRESH)
    {
      ResetReadsAlike(Value());
      state := MethodStart;
    }

    method ConsumeTarget(req: ClientRequest, input: char) returns (verdict: Verdict)
      requires InTarget(state)
      modifies this, req
      ensures (verdict, Value(), req.Value()) == ConsumeRequestLine(old(Value()), old(req.Value()), input)
    {
      verdict := Bad;
      match state {
        case MethodStart =>
          if IsToken(input) { state, verdict := MethodRest, Indeterminate; }
        case MethodRest =>
          if input == ' ' { state, verdict := Uri, Indeterminate; }
          else if IsToken(input) { verdict := Indeterminate; }
        case Uri =>
          if input == ' ' { state, verdict := VersionH, Indeterminate; }
          else if !IsCtl(input) {
            req.uri := req.uri + [input];
            verdict := Indeterminate;
          }
      }
    }

    method ConsumeVersionWord(req: ClientRequest, input: char) returns (verdict: Verdict)
      requires InVersionWord(state)
      modifies this, req
      ensures (verdict, Value(), req.Value()) == ConsumeRequestLine(old(Value()), old(req.Value()), input)
    {
      verdict := Bad;
      match state {
        case VersionH => if input == 'H' { state, verdict := VersionT1, Indeterminate; }
        case VersionT1 => if input == 'T' { state, verdict := VersionT2, Indeterminate; }
        case VersionT2 => if input == 'T' { state, verdict := VersionP, Indeterminate; }
        case VersionP => if input == 'P' { state, verdict := VersionSlash, Indeterminate; }
        case VersionSlash =>
          if input == '/' {
            req.httpVersionMajor, req.httpVersionMinor := 0, 0;
            state, verdict := MajorStart, Indeterminate;
          }
      }
    }

    method ConsumeVersionNumber(req: ClientRequest, input: char) returns (verdict: Verdict)
      requires InVersionNumber(state)
      modifies this, req
      ensures (verdict, Value(), req.Value()) == ConsumeRequestLine(old(Value()), old(req.Value()), input)
    {
      hide IsDigit, DigitValue;
      verdict := Bad;
      match state {
        case MajorStart =>
          if IsDigit(input) {
            req.httpVersionMajor := req.httpVersionMajor * 10 + DigitValue(input);
            state, verdict := MajorRest, Indeterminate;
          }
        case MajorRest =>
          if input == '.' { state, verdict := MinorStart, Indeterminate; }
          else if IsDigit(input) {
            req.httpVersionMajor := req.httpVersionMajor * 10 + DigitValue(input);
            verdict := Indeterminate;
          }
        case MinorStart =>
          if IsDigit(input) {
            req.httpVersionMinor := req.httpVersionMinor * 10 + DigitValue(input);
            state, verdict := MinorRest, Indeterminate;
          }
        case MinorRest =>
          if input == '\r' { state, verdict := Newline1, Indeterminate; }
          else if IsDigit(input) {
            req.httpVersionMinor := req.httpVersionMinor * 10 + DigitValue(input);
            verdict := Indeterminate;
          }
        case Newline1 =>
          if input == '\n' {
            state, verdict := HeaderLineStart, Indeterminate;
            tempKey, tempValue := "", "";
          }
      }
    }

    method ConsumeName(req: ClientRequest, input: char) returns (verdict: Verdict)
      requires InName(state)
      modifies this, req
      ensures (verdict, Value(), req.Value()) == ConsumeHeader(old(Value()), old(req.Value()), input)
    {
      hide IsToken;
      verdict := Bad;
      match state {
        case HeaderLineStart =>
          if input == '\r' {
            state, verdict := Newline3, Indeterminate;
            if tempKey != "" {
              req.headers := req.headers[tempKey := tempValue];
              tempKey, tempValue := "", "";
            }
          } else if req.headers != map[] && (input == ' ' || input == '\t') {
            state, verdict := HeaderLws, Indeterminate;
          } else if IsToken(input) {
            tempKey := tempKey + [input];
            state, verdict := HeaderName, Indeterminate;
          }
        case HeaderName =>
          if input == ':' { state, verdict := SpaceBeforeValue, Indeterminate; }
          else if IsToken(input) {
            tempKey := tempKey + [input];
            verdict := Indeterminate;
          }
        case Newline3 => verdict := if input == '\n' then Good else Bad;
      }
    }

    method ConsumeValue(req: ClientRequest, input: char) returns (verdict: Verdict)
      requires InValue(state)
      modifies this, req
      ensures (verdict, Value(), req.Value()) == ConsumeHeader(old(Value()), old(req.Value()), input)
    {
      hide IsToken, IsCtl;
      verdict := Bad;
      match state {
        case HeaderLws =>
          if input == '\r' { state, verdict := Newline2, Indeterminate; }
          else if input == ' ' || input == '\t' { verdict := Indeterminate; }
          else if !IsCtl(input) {
            state, verdict := HeaderValue, Indeterminate;
            tempValue := tempValue + [input];
          }
        case SpaceBeforeValue => if input == ' ' { state, verdict := HeaderValue, Indeterminate; }
        case HeaderValue =>
          if input == '\r' { state, verdict := Newline2, Indeterminate; }
          else if !IsCtl(input) {
            tempValue := tempValue + [input];
            verdict := Indeterminate;
          }
        case Newline2 =>
          if input == '\n' {
            state, verdict := HeaderLineStart, Indeterminate;
            req.headers := req.headers[tempKey := tempValue];
            tempKey, tempValue := "", "";
          }
      }
    }

    method Consume(req: ClientRequest, input: char) returns (verdict: Verdict)
      modifies this, req
      ensures (verdict, Value(), req.Value()) == HttpRequest.Consume(old(Value()), old(req.Value()), input)
    {
      hide ConsumeRequestLine, ConsumeHeader;
      if InTarget(state) {
        verdict := ConsumeTarget(req, input);
      } else if InVersionWord(state) {
        verdict := ConsumeVersionWord(req, input);
      } else if InVersionNumber(state) {
        verdict := ConsumeVersionNumber(req, input);
      } else if InName(state) {
        verdict := ConsumeName(req, input);
      } else {
        verdict := ConsumeValue(req, input);
      }
    }

    /** Parses the first `length` bytes of `memory`. The method is looked up in its first three,
        the body is all of it up to a zero byte. */
    method Parse(req: ClientRequest, memory: string, length: nat) returns (verdict: Verdict, consumed: nat)
      requires 3 <= |memory| && length <= |memory|
      modifies this, req
      ensures var o := HttpRequest.Parse(old(Value()), old(req.Value()), memory, length);
              && (verdict, Value(), req.Value()) == (o.verdict, o.parser, o.request)
              && consumed <= length && o.rest == memory[consumed..length]
    {
      hide HttpRequest.Consume, Run, MethodOf, CString;
      req.body := CString(memory);
      var word := memory[..3];
      MethodByThree(memory);
      if MethodOf(word).Some? {
        req.methodType := MethodOf(word);
      }
      ghost var p0, r0 := Value(), req.Value();
      consumed := 0;
      assert memory[0..length] == memory[..length];
      while consumed != length
        invariant consumed <= length
        invariant Run(p0, r0, memory[..length]) == Run(Value(), req.Value(), memory[consumed..length])
        decreases length - consumed
      {
        ghost var text := memory[consumed..length];
        assert text[1..] == memory[consumed + 1..length];
        RunFirst(Value(), req.Value(), text);
        verdict := Consume(req, memory[consumed]);
        consumed := consumed + 1;
        if verdict == Good || verdict == Bad {
          return;
        }
      }
      RunNothing(Value(), req.Value());
      verdict := Indeterminate;
    }
  }

  /** Looking at three bytes is enough to recognise a method. */
  lemma {:induction false} MethodByThree(memory: string)
    requires 3 <= |memory|
    ensures MethodOf(memory[..3]) == MethodOf(memory)
  {
    var word := memory[..3];
    assert forall m: string :: |m| == 3 ==> (m <= memory <==> m <= word);
    assert |"GET"| == |"HEA"| == |"POS"| == |"PUT"| == |"DEL"| == |"CON"| == |"OPT"| == |"TRA"| == |"PAT"| == 3;
  }

  // ----- the session -----

  predicate NulFree(text: string) {
    '\0' !in text
  }

  /** The state a retry starts from. */
  ghost predicate IsRetry(p: Parser, text: string) {
    && p == LINE_START && EndsWith(text, "\r\n")
    && exists r :: Run(FRESH, r, text).verdict == Indeterminate && Run(FRESH, r, text).parser == LINE_START
  }

  class Session {
    const data: array<char>
    const requestParser: RequestParser
    const request: ClientRequest
    var numRequests: nat

    constructor ()
      ensures data.Length == BUFFER_SIZE && requestParser.Value() == FRESH && request.Value() == EMPTY
      ensures numRequests == 0 && fresh(data) && fresh(requestParser) && fresh(request)
    {
      data := new char[BUFFER_SIZE](_ => '\0');
      requestParser := new RequestParser();
      request := new ClientRequest();
      numRequests := 0;
    }

    /** `strcpy` into the buffer, with its zero byte. */
    method CopyIn(text: string)
      requires |text| < data.Length
      modifies data
      ensures data[..|text|] == text && data[|text|] == '\0'
    {
      for i := 0 to |text|
        invariant forall j | 0 <= j < i :: data[j] == text[j]
      {
        data[i] := text[i];
      }
      data[|text|] := '\0';
      assert data[..|text|] == text;
    }

    method Format(raw: string) returns (text: string)
      requires raw != ""
      ensures text == ReplaceNewlines(DropTail(raw)) + "\r\n"
    {
      var kept := raw;
      while |kept| > 1 && kept[|kept| - 1] != '\n'
        invariant kept != "" && DropTail(kept) == DropTail(raw)
        decreases |kept|
      {
        kept := kept[..|kept| - 1];
      }
      text := "";
      for i := 0 to |kept|
        invariant text == ReplaceNewlines(kept[..i])
      {
        assert kept[..i + 1][..i] == kept[..i];
        text := text + if kept[i] == '\n' then "\r\n" else [kept[i]];
      }
      assert kept[..|kept|] == kept;
      text := text + "\r\n";
    }

    /** One read of `n` bytes: 0 for a good request, 1 for a bad one, -1 when the first attempt was
        indeterminate and the method called itself again. */
    method HandleRead(n: nat) returns (code: int)
      requires data.Length == BUFFER_SIZE && 2 <= n <= BUFFER_SIZE
      requires !EndsWith(data[..n], "\r\n") ==> NulFree(data[..n]) && |Formatted(data[..n])| < BUFFER_SIZE
      requires requestParser.Value() == FRESH || IsRetry(requestParser.Value(), data[..n])
      modifies this, data, requestParser, request
      ensures old(requestParser.Value()) == FRESH ==>
                && (match ReadTwice(Prepare(old(request.Value()), data[..]), old(data[..n]))
                    case Decided(verdict) => code == if verdict == Good then 0 else 1
                    case Retried(_) => code == -1)
                && numRequests == old(numRequests) + (if code == -1 then 2 else 1)
                && (code == 0 ==>
                      request.Value()
                      == Run(FRESH, Prepare(old(request.Value()), data[..]), Formatted(old(data[..n]))).request)
      ensures old(requestParser.Value()) != FRESH ==> code == 1 && numRequests == old(numRequests) + 1
      ensures code != 0 ==> request.uri == "/badrequest"
      ensures EndsWith(old(data[..n]), "\r\n") ==> data[..] == old(data[..])
      decreases requestParser.Value() == FRESH
    {
      hide Run, Formatted, Prepare, EndsWith;
      numRequests := numRequests + 1;
      ghost var raw := data[..n];
      ghost var p0, r0 := requestParser.Value(), request.Value();
      var result := ReadOnce(n);
      ghost var r1 := Prepare(r0, data[..]);
      if p0 == FRESH {
        AtMostOneRetry(r1, raw);
      } else {
        RetryIsBad(raw, r1);
      }
      if EndsWith(raw, "\r\n") {
        FormattedAsIs(raw);
      }
      if result == Good {
        return 0;
      } else if result == Bad {
        request.uri := "/badrequest";
        return 1;
      } else {
        assert data[..n] == raw;
        EndsAtLineStart(FRESH, r1, raw);
        code := HandleRead(n);
        return -1;
      }
    }

    /** One reading of the buffer, after reformatting it where that is needed. */
    method ReadOnce(n: nat) returns (result: Verdict)
      requires data.Length == BUFFER_SIZE && 2 <= n <= BUFFER_SIZE
      requires !EndsWith(data[..n], "\r\n") ==> NulFree(data[..n]) && |Formatted(data[..n])| < BUFFER_SIZE
      modifies data, requestParser, request
      ensures var r := Prepare(old(request.Value()), data[..]);
              var o := Run(old(requestParser.Value()), r, Formatted(old(data[..n])));
              (result, requestParser.Value(), request.Value()) == (o.verdict, o.parser, o.request)
      ensures EndsWith(old(data[..n]), "\r\n") ==> data[..] == old(data[..])
    {
      hide Run, ReplaceNewlines, DropTail, MethodOf, CString;
      ghost var raw := data[..n];
      var consumed;
      assert raw[n - 2..] == data[n - 2..n];
      if data[n - 2..n] == "\r\n" {
        assert data[..][..n] == raw;
        result, consumed := requestParser.Parse(request, data[..], n);
      } else {
        var text := Format(data[..n]);
        CopyIn(text);
        assert data[..][..|text|] == text;
        result, consumed := requestParser.Parse(request, data[..], |text|);
      }
    }
  }

  lemma {:induction false} FormattedAsIs(data: string)
    requires EndsWith(data, "\r\n")
    ensures Formatted(data) == data
  {
  }

  lemma {:induction false} RetryIsBad(text: string, r: Request)
    requires IsRetry(LINE_START, text)
    ensures Run(LINE_START, r, text).verdict == Bad
  {
    hide Run;
    var r0 :| Run(FRESH, r0, text).verdict == Indeterminate && Run(FRESH, r0, text).parser == LINE_START;
    SecondReadingIsBad(r0, r, text);
  }
}
