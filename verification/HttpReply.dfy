/** The reply writer, the response reader of the proxy, and the round trip between them. */
module HttpReply {
  import opened Shared
  import opened HttpRequest
  import opened HttpGrammar
  import opened ProxyRequest

  datatype Reply = Reply(code: Option<int>, headers: map<string, string>, body: string)

  // ----- the writer -----

  function Phrase(code: int): Option<string> {
    if code == 200 then Some("OK")
    else if code == 201 then Some("Created")
    else if code == 202 then Some("Accepted")
    else if code == 204 then Some("No Content")
    else if code == 300 then Some("Multiple Choices")
    else if code == 301 then Some("Moved Permanently")
    else if code == 302 then Some("Moved Temporarily")
    else if code == 304 then Some("Not Modified")
    else if code == 400 then Some("Bad Request")
    else if code == 401 then Some("Unauthorized")
    else if code == 403 then Some("Forbidden")
    else if code == 404 then Some("Not Found")
    else if code == 500 then Some("Internal Server Error")
    else if code == 501 then Some("Not Implemented")
    else if code == 502 then Some("Bad Gateway")
    else if code == 503 then Some("Service Unavailable")
    else None
  }

  /** The status the writer falls back to. */
  const SERVER_ERROR := 500

  function ShownCode(code: int): (shown: int)
    ensures Phrase(shown).Some? && 100 <= shown < 1000
  {
    if Phrase(code).Some? then code else SERVER_ERROR
  }

  function DigitChar(n: int): (c: char)
    requires 0 <= n < 10
    ensures IsDigit(c) && DigitValue(c) == n
  {
    ('0' as int + n) as char
  }

  function ThreeDigits(code: int): string
    requires 100 <= code < 1000
  {
    [DigitChar(code / 100), DigitChar(code / 10 % 10), DigitChar(code % 10)]
  }

  /** The status line, without its line end. */
  function StatusLine(code: int): string {
    var shown := ShownCode(code);
    "HTTP/1.0 " + (ThreeDigits(shown) + (" " + Phrase(shown).value))
  }

  /** The sixteen codes as they are written, and their phrases. */
  predicate IsStatus(code: int, digits: string, phrase: string) {
    || (code == 200 && digits == "200" && phrase == "OK")
    || (code == 201 && digits == "201" && phrase == "Created")
    || (code == 202 && digits == "202" && phrase == "Accepted")
    || (code == 204 && digits == "204" && phrase == "No Content")
    || (code == 300 && digits == "300" && phrase == "Multiple Choices")
    || (code == 301 && digits == "301" && phrase == "Moved Permanently")
    || (code == 302 && digits == "302" && phrase == "Moved Temporarily")
    || (code == 304 && digits == "304" && phrase == "Not Modified")
    || (code == 400 && digits == "400" && phrase == "Bad Request")
    || (code == 401 && digits == "401" && phrase == "Unauthorized")
    || (code == 403 && digits == "403" && phrase == "Forbidden")
    || (code == 404 && digits == "404" && phrase == "Not Found")
    || (code == 500 && digits == "500" && phrase == "Internal Server Error")
    || (code == 501 && digits == "501" && phrase == "Not Implemented")
    || (code == 502 && digits == "502" && phrase == "Bad Gateway")
    || (code == 503 && digits == "503" && phrase == "Service Unavailable")
  }

  predicate IsKnown(code: int) {
    || code == 200 || code == 201 || code == 202 || code == 204 || code == 300 || code == 301 || code == 302
    || code == 304 || code == 400 || code == 401 || code == 403 || code == 404 || code == 500 || code == 501
    || code == 502 || code == 503
  }

  /** Each known code is shown with its phrase, and an unknown one as 500. */
  lemma {:induction false} StatusLineIs(code: int, digits: string, phrase: string)
    requires IsStatus(if IsKnown(code) then code else 500, digits, phrase)
    ensures StatusLine(code) == "HTTP/1.0 " + (digits + (" " + phrase))
    ensures Phrase(code).Some? <==> IsKnown(code)
  {
    hide ThreeDigits, IsStatus;
    var shown := if IsKnown(code) then code else 500;
    KnownPhrase(code, digits, phrase);
    WrittenDigits(shown, digits, phrase);
  }

  lemma {:induction false} KnownPhrase(code: int, digits: string, phrase: string)
    ensures Phrase(code).Some? <==> IsKnown(code)
    ensures IsStatus(code, digits, phrase) ==> Phrase(code) == Some(phrase)
    ensures IsStatus(500, digits, phrase) ==> Phrase(500) == Some(phrase)
  {
  }

  lemma {:induction false} WrittenDigits(code: int, digits: string, phrase: string)
    requires IsStatus(code, digits, phrase)
    ensures ThreeDigits(code) == digits
  {
  }

  function HeaderLineText(name: string, value: string): string {
    name + (": " + value)
  }

  /** The header lines in the order in which the map is walked. */
  function HeaderLines(headers: map<string, string>, order: seq<string>): seq<string>
    requires forall name | name in order :: name in headers
  {
    if order == [] then [] else [HeaderLineText(order[0], headers[order[0]])] + HeaderLines(headers, order[1..])
  }

  /** Lines with their line ends. */
  function Block(lines: seq<string>): string {
    if lines == [] then "" else lines[0] + ("\r\n" + Block(lines[1..]))
  }

  function ReplyText(code: int, headers: map<string, string>, order: seq<string>, body: string): string
    requires Lists(order, headers)
  {
    Block([StatusLine(code)] + HeaderLines(headers, order)) + ("\r\n" + body)
  }

  /** What a sequence of buffers puts on the wire. */
  function Wire(buffers: seq<string>): string {
    if buffers == [] then "" else Wire(buffers[..|buffers| - 1]) + buffers[|buffers| - 1]
  }

  lemma {:induction false} WireAppend(buffers: seq<string>, last: string)
    ensures Wire(buffers + [last]) == Wire(buffers) + last
  {
    assert (buffers + [last])[..|buffers|] == buffers;
  }

  lemma {:induction false} BlockAppend(lines: seq<string>, last: string)
    ensures Block(lines + [last]) == Block(lines) + (last + "\r\n")
    decreases |lines|
  {
    if lines == [] {
      assert lines + [last] == [last] && [last][1..] == [];
      assert Block([last]) == last + ("\r\n" + "");
    } else {
      assert (lines + [last])[1..] == lines[1..] + [last];
      BlockAppend(lines[1..], last);
      var first, more, end := lines[0], Block(lines[1..]), last + "\r\n";
      assert first + ("\r\n" + (more + end)) == first + ("\r\n" + more) + end;
    }
  }

  lemma {:induction false} HeaderLinesStep(headers: map<string, string>, order: seq<string>, i: nat)
    requires i < |order| && forall name | name in order :: name in headers
    ensures order[i] in headers
    ensures HeaderLines(headers, order[..i + 1])
         == HeaderLines(headers, order[..i]) + [HeaderLineText(order[i], headers[order[i]])]
    decreases i
  {
    assert order[i] in order && order[0] in order;
    if i == 0 {
      assert order[..1][1..] == [];
    } else {
      assert order[..i + 1][1..] == order[1..][..i] && order[..i][1..] == order[1..][..i - 1];
      HeaderLinesStep(headers, order[1..], i - 1);
    }
  }

  /** One status buffer, four buffers for each header, one for the blank line, one for the body. */
  method ToBuffers(code: int, headers: map<string, string>, order: seq<string>, body: string)
    returns (buffers: seq<string>)
    requires Lists(order, headers)
    ensures Wire(buffers) == ReplyText(code, headers, order, body)
    ensures |buffers| == 3 + 4 * |order|
  {
    hide Wire, Block, HeaderLines, StatusLine;
    var status := StatusLine(code) + "\r\n";
    buffers := [status];
    ghost var lines := [StatusLine(code)];
    StartOfWire(status);
    StartOfBlock(lines[0]);
    assert order[..0] == [];
    NoHeaderLines(headers);
    for i := 0 to |order|
      invariant |buffers| == 1 + 4 * i
      invariant Wire(buffers) == Block(lines) && lines == [StatusLine(code)] + HeaderLines(headers, order[..i])
    {
      HeaderLinesStep(headers, order, i);
      var name, value := order[i], headers[order[i]];
      FourBuffers(buffers, name, value);
      BlockAppend(lines, HeaderLineText(name, value));
      buffers := buffers + [name] + [": "] + [value] + ["\r\n"];
      lines := lines + [HeaderLineText(name, value)];
    }
    assert order[..|order|] == order;
    WireAppend(buffers, "\r\n");
    WireAppend(buffers + ["\r\n"], body);
    buffers := buffers + ["\r\n"] + [body];
  }

  lemma {:induction false} FourBuffers(buffers: seq<string>, name: string, value: string)
    ensures Wire(buffers + [name] + [": "] + [value] + ["\r\n"])
         == Wire(buffers) + (HeaderLineText(name, value) + "\r\n")
  {
    hide Wire;
    WireAppend(buffers, name);
    WireAppend(buffers + [name], ": ");
    WireAppend(buffers + [name] + [": "], value);
    WireAppend(buffers + [name] + [": "] + [value], "\r\n");
  }

  lemma {:induction false} StartOfWire(first: string)
    ensures Wire([first]) == first
  {
    assert [first][..0] == [];
  }

  lemma {:induction false} StartOfBlock(first: string)
    ensures Block([first]) == first + "\r\n"
  {
    assert [first][1..] == [];
  }

  lemma {:induction false} NoHeaderLines(headers: map<string, string>)
    ensures HeaderLines(headers, []) == []
  {
  }

  // ----- the reader -----

  /** The last stretch of exactly three digits seen so far, and how many digits precede. */
  function ScanCode(line: string, pos: nat, counter: nat, code: Option<int>): Option<int>
    requires pos <= |line|
    requires counter <= pos && forall i | pos - counter <= i < pos :: IsDigit(line[i])
    decreases |line| - pos
  {
    if pos == |line| then code
    else
      var counter' := if IsDigit(line[pos]) then counter + 1 else 0;
      ScanCode(line, pos + 1, counter',
               if counter' == 3 then Some(Number(0, line[pos - 2..pos + 1])) else code)
  }

  function StripLeft(s: string): string {
    if s != "" && IsSpace(s[0]) then StripLeft(s[1..]) else s
  }

  function StripRight(s: string): string {
    if s != "" && IsSpace(s[|s| - 1]) then StripRight(s[..|s| - 1]) else s
  }

  function Trim(s: string): string {
    StripLeft(StripRight(s))
  }

  /** The variables of the loop over one header line. */
  datatype LineScan = LineScan(buffer: string, key: string, ignoreBlank: bool, isKey: bool)

  const LINE_SCAN := LineScan("", "", true, true)

  function ScanChar(s: LineScan, c: char): LineScan {
    if s.ignoreBlank then
      if c != ' ' then s.(ignoreBlank := false, buffer := s.buffer + [c]) else s
    else if s.isKey && c == ':' then LineScan("", s.buffer, true, false)
    else s.(buffer := s.buffer + [c])
  }

  function ScanLine(s: LineScan, line: string): LineScan
    decreases |line|, s
  {
    if line == "" then s else ScanLine(ScanChar(s, line[0]), line[1..])
  }

  /** The header loop: each turn consumes a line and the two bytes after it. Without a carriage
      return, or with nothing after it, the original reads out of range: no result. */
  function ReadHeaders(text: string, headers: map<string, string>): Option<map<string, string>>
    decreases |text|
  {
    if text == "" then Some(headers)
    else
      var n := ReturnAt(text);
      if n + 2 > |text| then None
      else
        var s := ScanLine(LINE_SCAN, text[..n]);
        ReadHeaders(text[n + 2..], headers[Trim(s.key) := Trim(s.buffer)])
  }

  lemma {:induction false} FirstLineBefore(response: string, end: nat)
    requires FirstIndex(response, "\r\n\r\n") == Some(end)
    ensures end + 4 <= |response|
    ensures FirstIndex(response, "\r\n").Some? && FirstIndex(response, "\r\n").value <= end
  {
    assert "\r\n" <= response[end..] by {
      assert response[end..][0] == '\r' && response[end..][1] == '\n';
    }
  }

  /** A reply from its status line, its header lines and its body. */
  function Assemble(line: string, headerLines: string, body: string): Option<Reply> {
    match ReadHeaders(headerLines, map[])
    case None => None
    case Some(headers) => Some(Reply(ScanCode(line, 0, 0, None), headers, body))
  }

  /** The whole reader. Without a line end the original cuts out of range. Without a blank line the
      position it did not find wraps around: the headers go on to the end, and the body is all but
      the first three bytes. */
  function ReadReply(response: string): Option<Reply> {
    match FirstIndex(response, "\r\n")
    case None => None
    case Some(n) =>
      match FirstIndex(response, "\r\n\r\n")
      case Some(end) =>
        FirstLineBefore(response, end);
        Assemble(response[..n], response[n + 2..end + 2], response[end + 4..])
      case None =>
        if |response| < 3 then None else Assemble(response[..n], response[n + 2..], response[3..])
  }

  /** `body` is what follows the first blank line. */
  predicate FollowsBlankLine(response: string, body: string) {
    exists i | 0 <= i <= |response| - 4 :: FirstAt(response, "\r\n\r\n", i) && body == response[i + 4..]
  }

  /** The body read back is what follows the first blank line if there is one, and otherwise all but
      the first three bytes. */
  lemma {:induction false} BodyRead(response: string)
    requires ReadReply(response).Some?
    ensures var body := ReadReply(response).value.body;
            if exists i | 0 <= i <= |response| :: "\r\n\r\n" <= response[i..] then FollowsBlankLine(response, body)
            else |response| >= 3 && body == response[3..]
  {
    hide ReadHeaders, ScanCode;
    var blank := FirstIndex(response, "\r\n\r\n");
    if blank.Some? {
      FirstLineBefore(response, blank.value);
      assert FirstAt(response, "\r\n\r\n", blank.value);
    }
  }

  /** The shortest texts: two bytes are no reply, three can be one. */
  lemma {:induction false} ShortestReply(c: char)
    requires c != '\r'
    ensures ReadReply("\r\n") == None
    ensures ReadReply([c] + "\r\n") == Some(Reply(ScanCode([c], 0, 0, None), map[], ""))
  {
    hide ScanCode;
    var text := [c] + "\r\n";
    assert text[0] == c && text[1..] == "\r\n" && text[..1] == [c] && text[3..] == "";
    assert FirstIndex("\r\n", "\r\n") == Some(0);
    assert FirstIndex(text, "\r\n") == Some(1);
    assert FirstIndex(text, "\r\n\r\n").None? && FirstIndex("\r\n", "\r\n\r\n").None?;
    assert ReadHeaders("", map[]) == Some(map[]);
  }

  // ----- which code is read -----

  /** Three digits, the first of a stretch of digits. */
  predicate IsCodeAt(line: string, i: nat) {
    && i + 3 <= |line| && '0' <= line[i] <= '9' && '0' <= line[i + 1] <= '9' && '0' <= line[i + 2] <= '9'
    && (i > 0 ==> !('0' <= line[i - 1] <= '9'))
  }

  predicate IsLastAt(line: string, end: nat, i: nat, code: int) {
    && IsCodeAt(line, i) && i + 3 <= end
    && code == 100 * DigitValue(line[i]) + 10 * DigitValue(line[i + 1]) + DigitValue(line[i + 2])
    && forall j | i < j <= end - 3 :: !IsCodeAt(line, j)
  }

  /** The code is that of the last such stretch before `end`, if there is one. */
  predicate IsLastCode(line: string, end: nat, code: Option<int>) {
    match code
    case None => forall i | 0 <= i <= end - 3 :: !IsCodeAt(line, i)
    case Some(value) => exists i | 0 <= i < |line| :: IsLastAt(line, end, i, value)
  }

  lemma {:induction false} CodeScanned(line: string, pos: nat, counter: nat, code: Option<int>)
    requires pos <= |line| && counter <= pos && forall i | pos - counter <= i < pos :: IsDigit(line[i])
    requires counter < pos ==> !IsDigit(line[pos - counter - 1])
    requires IsLastCode(line, pos, code)
    ensures IsLastCode(line, |line|, ScanCode(line, pos, counter, code))
    decreases |line| - pos
  {
    if pos < |line| {
      ScanStep(line, pos, counter, code);
      if IsDigit(line[pos]) && counter + 1 == 3 {
        CodeFound(line, pos);
        CodeScanned(line, pos + 1, 3, Some(Number(0, line[pos - 2..pos + 1])));
      } else {
        hide Number;
        assert IsLastCode(line, pos + 1, code) by { NoCodeEnds(line, pos, counter, code); }
        CodeScanned(line, pos + 1, if IsDigit(line[pos]) then counter + 1 else 0, code);
      }
    }
  }

  lemma {:induction false} CodeFound(line: string, pos: nat)
    requires 2 <= pos < |line| && IsDigit(line[pos - 2]) && IsDigit(line[pos - 1]) && IsDigit(line[pos])
    requires pos > 2 ==> !IsDigit(line[pos - 3])
    ensures IsLastCode(line, pos + 1, Some(Number(0, line[pos - 2..pos + 1])))
  {
    assert line[pos - 2..pos + 1] == [line[pos - 2], line[pos - 1], line[pos]];
    NumberOfThree(line[pos - 2], line[pos - 1], line[pos]);
    assert IsLastAt(line, pos + 1, pos - 2, Number(0, line[pos - 2..pos + 1]));
  }

  lemma {:induction false} NoCodeEnds(line: string, pos: nat, counter: nat, code: Option<int>)
    requires pos < |line| && counter <= pos && forall i | pos - counter <= i < pos :: IsDigit(line[i])
    requires counter < pos ==> !IsDigit(line[pos - counter - 1])
    requires IsLastCode(line, pos, code) && !(IsDigit(line[pos]) && counter + 1 == 3)
    ensures IsLastCode(line, pos + 1, code)
  {
    assert pos >= 2 ==> !IsCodeAt(line, pos - 2) by {
      if pos >= 2 && IsDigit(line[pos]) {
        if counter == 0 {
          assert !IsDigit(line[pos - 1]);
        } else if counter == 1 {
          assert !IsDigit(line[pos - 2]);
        } else {
          assert IsDigit(line[pos - 3]);
        }
      }
    }
    if code.Some? {
      var i :| 0 <= i < |line| && IsLastAt(line, pos, i, code.value);
      assert IsLastAt(line, pos + 1, i, code.value);
    }
  }

  /** Of a status line the reader takes the first three digits of the last stretch that has as many. */
  lemma {:induction false} LastCodeIsRead(line: string)
    ensures IsLastCode(line, |line|, ScanCode(line, 0, 0, None))
  {
    hide ScanCode;
    CodeScanned(line, 0, 0, None);
  }

  method ReadResponse(response: string) returns (reply: Option<Reply>)
    ensures reply == ReadReply(response)
  {
    hide ScanCode, ReadHeaders, FirstIndex;
    var lineEnd, headerEnd := FirstIndex(response, "\r\n"), FirstIndex(response, "\r\n\r\n");
    if lineEnd.None? {
      return None;
    }
    var requestLine := response[..lineEnd.value];
    var code := ReadCode(requestLine);
    var headerText, body := "", "";
    if headerEnd.Some? {
      FirstLineBefore(response, headerEnd.value);
      headerText, body := response[|requestLine| + 2..headerEnd.value + 2], response[headerEnd.value + 4..];
    } else if |response| < 3 {
      return None;
    } else {
      headerText, body := response[|requestLine| + 2..], response[3..];
    }
    var ok, headers := ReadHeaderBlock(headerText);
    if !ok {
      return None;
    }
    return Some(Reply(code, headers, body));
  }

  method ReadCode(line: string) returns (code: Option<int>)
    ensures code == ScanCode(line, 0, 0, None)
  {
    hide IsDigit, Number;
    var counter := 0;
    code := None;
    for pos := 0 to |line|
      invariant counter <= pos && forall i | pos - counter <= i < pos :: IsDigit(line[i])
      invariant ScanCode(line, pos, counter, code) == ScanCode(line, 0, 0, None)
    {
      if IsDigit(line[pos]) {
        counter := counter + 1;
      } else {
        counter := 0;
      }
      if counter == 3 {
        code := Some(Number(0, line[pos - 2..pos + 1]));
      }
    }
  }

  method ReadHeaderBlock(text: string) returns (ok: bool, headers: map<string, string>)
    ensures ok == ReadHeaders(text, map[]).Some?
    ensures ok ==> Some(headers) == ReadHeaders(text, map[])
  {
    headers := map[];
    var rest := text;
    while rest != ""
      invariant ReadHeaders(rest, headers) == ReadHeaders(text, map[])
      decreases |rest|
    {
      var pos, buffer, key, ignoreBlank, isKey := 0, "", "", true, true;
      while pos < |rest| && rest[pos] != '\r'
        invariant 0 <= pos <= |rest| && forall i | 0 <= i < pos :: rest[i] != '\r'
        invariant LineScan(buffer, key, ignoreBlank, isKey) == ScanLine(LINE_SCAN, rest[..pos])
      {
        assert rest[..pos + 1] == rest[..pos] + [rest[pos]];
        ScanLast(LINE_SCAN, rest[..pos], rest[pos]);
        if ignoreBlank {
          if rest[pos] != ' ' {
            ignoreBlank := false;
            buffer := buffer + [rest[pos]];
          }
        } else if isKey && rest[pos] == ':' {
          key, ignoreBlank, isKey, buffer := buffer, true, false, "";
        } else {
          buffer := buffer + [rest[pos]];
        }
        pos := pos + 1;
      }
      ReturnIs(rest, pos);
      if pos + 2 > |rest| {
        return false, headers;
      }
      headers := headers[Trim(key) := Trim(buffer)];
      rest := rest[pos + 2..];
    }
    ok := true;
  }

  lemma {:induction false} ReturnIs(s: string, n: nat)
    requires n <= |s| && (forall i | 0 <= i < n :: s[i] != '\r') && (n < |s| ==> s[n] == '\r')
    ensures ReturnAt(s) == n
  {
  }

  lemma {:induction false} ScanLast(s: LineScan, line: string, c: char)
    ensures ScanLine(s, line + [c]) == ScanChar(ScanLine(s, line), c)
    decreases |line|
  {
    if line == "" {
      assert line + [c] == [c] && [c][1..] == "";
    } else {
      assert (line + [c])[1..] == line[1..] + [c];
      ScanLast(ScanChar(s, line[0]), line[1..], c);
    }
  }

  // ----- the round trip -----

  predicate NoLateColon(name: string) {
    forall i | 1 <= i < |name| :: name[i] != ':'
  }

  /** What a header must be to survive: no carriage return, no white space at either end, and for a
      name at least one character and no colon but perhaps the first character. */
  predicate GoodName(name: string) {
    name != "" && '\r' !in name && NoLateColon(name) && Trim(name) == name
  }

  predicate GoodValue(value: string) {
    '\r' !in value && Trim(value) == value
  }

  predicate GoodHeaders(headers: map<string, string>) {
    forall name | name in headers :: GoodName(name) && GoodValue(headers[name])
  }

  lemma {:induction false} StripLeftShorter(s: string)
    ensures |StripLeft(s)| <= |s|
    ensures |StripLeft(s)| == |s| ==> s == "" || !IsSpace(s[0])
    decreases |s|
  {
    if s != "" && IsSpace(s[0]) {
      StripLeftShorter(s[1..]);
    }
  }

  lemma {:induction false} StripRightShorter(s: string)
    ensures |StripRight(s)| <= |s| && StripRight(s) <= s
    decreases |s|
  {
    if s != "" && IsSpace(s[|s| - 1]) {
      StripRightShorter(s[..|s| - 1]);
    }
  }

  /** A trimmed string does not begin with a space. */
  lemma {:induction false} TrimmedStart(s: string)
    requires Trim(s) == s && s != ""
    ensures s[0] != ' '
  {
    StripRightShorter(s);
    StripLeftShorter(StripRight(s));
  }

  /** Once a part has begun, its characters are copied. */
  lemma {:induction false} ScanCopies(s: LineScan, text: string)
    requires !s.ignoreBlank && (s.isKey ==> ':' !in text)
    ensures ScanLine(s, text) == s.(buffer := s.buffer + text)
    decreases |text|
  {
    if text == "" {
      assert s.buffer + text == s.buffer;
    } else {
      ScanCopies(s.(buffer := s.buffer + [text[0]]), text[1..]);
      assert s.buffer + [text[0]] + text[1..] == s.buffer + text;
    }
  }

  lemma {:induction false} ScanConcat(s: LineScan, a: string, b: string)
    ensures ScanLine(s, a + b) == ScanLine(ScanLine(s, a), b)
    decreases |a|
  {
    if a == "" {
      assert a + b == b;
    } else {
      assert (a + b)[1..] == a[1..] + b;
      ScanConcat(ScanChar(s, a[0]), a[1..], b);
    }
  }

  /** A part of a line that does not begin with a space, read from its start. */
  lemma {:induction false} ScanPart(s: LineScan, text: string)
    requires s.ignoreBlank && s.buffer == "" && (text != "" ==> text[0] != ' ') && (s.isKey ==> NoLateColon(text))
    ensures ScanLine(s, text) == if text == "" then s else s.(ignoreBlank := false, buffer := text)
  {
    if text != "" {
      assert s.isKey ==> forall i | 0 <= i < |text[1..]| :: text[1..][i] == text[i + 1] != ':';
      ScanCopies(s.(ignoreBlank := false, buffer := "" + [text[0]]), text[1..]);
      assert "" + [text[0]] + text[1..] == text;
    }
  }

  lemma {:induction false} ScanMarks(name: string)
    ensures ScanLine(LineScan(name, "", false, true), ": ") == LineScan("", name, true, false)
  {
    assert ": "[1..] == " " && " "[1..] == "";
    var mid := LineScan("", name, true, false);
    assert ScanLine(mid, " ") == ScanLine(mid, "");
  }

  lemma {:induction false} ScanHeaderLine(name: string, value: string)
    requires GoodName(name) && GoodValue(value)
    ensures var s := ScanLine(LINE_SCAN, HeaderLineText(name, value)); s.key == name && s.buffer == value
  {
    hide ScanLine, Trim;
    TrimmedStart(name);
    if value != "" { TrimmedStart(value); }
    ScanPart(LINE_SCAN, name);
    ScanConcat(LINE_SCAN, name, ": " + value);
    ScanConcat(LineScan(name, "", false, true), ": ", value);
    ScanMarks(name);
    ScanPart(LineScan("", name, true, false), value);
  }

  /** Lines the reader can tell apart: none holds a carriage return. */
  predicate Returnless(lines: seq<string>) {
    forall i | 0 <= i < |lines| :: '\r' !in lines[i]
  }

  lemma {:induction false} HeaderLinesReturnless(headers: map<string, string>, order: seq<string>)
    requires (forall name | name in order :: name in headers) && GoodHeaders(headers)
    ensures Returnless(HeaderLines(headers, order)) && |HeaderLines(headers, order)| == |order|
    ensures forall i | 0 <= i < |order| :: HeaderLines(headers, order)[i] != ""
    decreases |order|
  {
    hide Trim;
    if order != [] {
      assert order[0] in order && forall name | name in order[1..] :: name in order;
      HeaderLinesReturnless(headers, order[1..]);
    }
  }

  /** Which headers a walk in this order has put into the map. */
  function Walked(headers: map<string, string>, start: map<string, string>, order: seq<string>): map<string, string>
    requires forall name | name in order :: name in headers
    decreases |order|
  {
    if order == [] then start else Walked(headers, start[order[0] := headers[order[0]]], order[1..])
  }

  lemma {:induction false} ReadWritten(headers: map<string, string>, start: map<string, string>, order: seq<string>)
    requires (forall name | name in order :: name in headers) && GoodHeaders(headers)
    ensures ReadHeaders(Block(HeaderLines(headers, order)), start) == Some(Walked(headers, start, order))
    decreases |order|
  {
    hide ScanLine, Trim, HeaderLineText;
    if order != [] {
      var name, value := order[0], headers[order[0]];
      assert name in order && forall n | n in order[1..] :: n in order;
      var line, more := HeaderLineText(name, value), HeaderLines(headers, order[1..]);
      assert ([line] + more)[1..] == more;
      var text := line + ("\r\n" + Block(more));
      HeaderLineReturnless(name, value);
      LineEndsAt(line, Block(more));
      ScanHeaderLine(name, value);
      ReadWritten(headers, start[name := value], order[1..]);
    }
  }

  lemma {:induction false} HeaderLineReturnless(name: string, value: string)
    requires GoodName(name) && GoodValue(value)
    ensures '\r' !in HeaderLineText(name, value)
  {
    hide Trim;
  }

  lemma {:induction false} LineEndsAt(line: string, more: string)
    requires '\r' !in line
    ensures var text := line + ("\r\n" + more);
            ReturnAt(text) == |line| && |line| + 2 <= |text| && text[..|line|] == line && text[|line| + 2..] == more
  {
    var text := line + ("\r\n" + more);
    assert forall i | 0 <= i < |line| :: text[i] == line[i];
    ReturnIs(text, |line|);
  }

  lemma {:induction false} WalkedHas(headers: map<string, string>, start: map<string, string>, order: seq<string>)
    requires forall name | name in order :: name in headers
    ensures Walked(headers, start, order) == start + Visited(headers, order)
    decreases |order|
  {
    hide Visited;
    VisitedFirst(headers, order);
    if order == [] {
      assert start + map[] == start;
    } else {
      assert order[0] in order && forall n | n in order[1..] :: n in order;
      WalkedHas(headers, start[order[0] := headers[order[0]]], order[1..]);
    }
  }

  function Visited(headers: map<string, string>, order: seq<string>): map<string, string>
    requires forall name | name in order :: name in headers
  {
    map name | name in order :: headers[name]
  }

  lemma {:induction false} VisitedFirst(headers: map<string, string>, order: seq<string>)
    requires forall name | name in order :: name in headers
    ensures order == [] ==> Visited(headers, order) == map[]
    ensures order != [] ==>
              && order[0] in headers && (forall name | name in order[1..] :: name in headers)
              && forall start: map<string, string> ::
                   start[order[0] := headers[order[0]]] + Visited(headers, order[1..])
                   == start + Visited(headers, order)
  {
    if order != [] {
      assert order[0] in order && order == [order[0]] + order[1..];
    }
  }

  // ----- finding the end of the headers -----

  lemma {:induction false} FirstAtIsFirst(text: string, part: string, p: nat)
    requires FirstAt(text, part, p)
    ensures FirstIndex(text, part) == Some(p)
  {
    var i := FirstIndex(text, part);
  }

  lemma {:induction false} NoReturnHere(text: string, part: string, j: nat)
    requires j < |text| && text[j] != '\r' && part != "" && part[0] == '\r'
    ensures !(part <= text[j..])
  {
    assert text[j..][0] == text[j];
  }

  lemma {:induction false} CrlfAfter(line: string, more: string)
    requires '\r' !in line
    ensures FirstAt(line + ("\r\n" + more), "\r\n", |line|)
  {
    var text := line + ("\r\n" + more);
    assert text[|line|..] == "\r\n" + more;
    forall j | 0 <= j < |line|
      ensures !("\r\n" <= text[j..])
    {
      assert text[j] == line[j];
      NoReturnHere(text, "\r\n", j);
    }
  }

  lemma {:induction false} BlankLineAfterOne(line: string, body: string)
    requires '\r' !in line
    ensures FirstAt(line + ("\r\n" + ("\r\n" + body)), "\r\n\r\n", |line|)
  {
    var text := line + ("\r\n" + ("\r\n" + body));
    assert text[|line|..] == "\r\n\r\n" + body;
    forall j | 0 <= j < |line|
      ensures !("\r\n\r\n" <= text[j..])
    {
      assert text[j] == line[j];
      NoReturnHere(text, "\r\n\r\n", j);
    }
  }

  /** A line in front moves the first blank line, if the text after it starts with a character. */
  lemma {:induction false} BlankLineMoves(line: string, rest: string, p: nat)
    requires '\r' !in line && rest != "" && rest[0] != '\r'
    requires FirstAt(rest, "\r\n\r\n", p)
    ensures FirstAt(line + ("\r\n" + rest), "\r\n\r\n", |line| + 2 + p)
  {
    var text, n, part := line + ("\r\n" + rest), |line|, "\r\n\r\n";
    assert text[n + 2 + p..] == rest[p..];
    forall j | 0 <= j < n + 2 + p
      ensures !(part <= text[j..])
    {
      if j < n {
        assert text[j] == line[j];
        NoReturnHere(text, part, j);
      } else if j == n {
        assert text[j..] == "\r\n" + rest;
        assert text[j..][2] == rest[0] && part[2] == '\r';
      } else if j == n + 1 {
        assert text[j] == '\n';
        NoReturnHere(text, part, j);
      } else {
        assert text[j..] == rest[j - n - 2..];
      }
    }
  }

  lemma {:induction false} BlankLineAt(lines: seq<string>, body: string)
    requires lines != [] && Returnless(lines) && forall i | 1 <= i < |lines| :: lines[i] != ""
    ensures |Block(lines)| >= 2
    ensures FirstAt(Block(lines) + ("\r\n" + body), "\r\n\r\n", |Block(lines)| - 2)
    decreases |lines|
  {
    hide FirstAt;
    var line, more := lines[0], lines[1..];
    if more == [] {
      assert Block(lines) == line + ("\r\n" + "");
      assert Block(lines) + ("\r\n" + body) == line + ("\r\n" + ("\r\n" + body));
      BlankLineAfterOne(line, body);
    } else {
      BlankLineAt(more, body);
      var rest := Block(more) + ("\r\n" + body);
      assert Block(lines) + ("\r\n" + body) == line + ("\r\n" + rest);
      assert Block(more)[0] == more[0][0];
      BlankLineMoves(line, rest, |Block(more)| - 2);
    }
  }

  // ----- the status line -----

  lemma {:induction false} NoMoreDigits(line: string, pos: nat, counter: nat, code: Option<int>)
    requires pos <= |line| && counter <= pos && forall i | pos - counter <= i < pos :: IsDigit(line[i])
    requires forall i | pos <= i < |line| :: !IsDigit(line[i])
    ensures ScanCode(line, pos, counter, code) == code
    decreases |line| - pos
  {
    hide IsDigit, Number;
    if pos < |line| {
      NoMoreDigits(line, pos + 1, 0, code);
    }
  }

  lemma {:induction false} ScanStep(line: string, pos: nat, counter: nat, code: Option<int>)
    requires pos < |line| && counter <= pos && forall i | pos - counter <= i < pos :: IsDigit(line[i])
    ensures !IsDigit(line[pos]) ==> ScanCode(line, pos, counter, code) == ScanCode(line, pos + 1, 0, code)
    ensures IsDigit(line[pos]) && counter + 1 != 3 ==>
              ScanCode(line, pos, counter, code) == ScanCode(line, pos + 1, counter + 1, code)
    ensures IsDigit(line[pos]) && counter + 1 == 3 ==>
              ScanCode(line, pos, counter, code)
              == ScanCode(line, pos + 1, 3, Some(Number(0, line[pos - 2..pos + 1])))
  {
    hide IsDigit, Number;
  }

  /** The version digits are too few to be taken for a code. */
  lemma {:induction false} ScanVersion(line: string)
    requires "HTTP/1.0 " <= line
    ensures ScanCode(line, 0, 0, None) == ScanCode(line, 9, 0, None)
  {
    hide ScanCode;
    assert line[..9] == "HTTP/1.0 ";
    assert line[0] == 'H' && line[1] == 'T' && line[2] == 'T' && line[3] == 'P' && line[4] == '/';
    assert line[5] == '1' && line[6] == '.' && line[7] == '0' && line[8] == ' ';
    ScanStep(line, 0, 0, None);
    ScanStep(line, 1, 0, None);
    ScanStep(line, 2, 0, None);
    ScanStep(line, 3, 0, None);
    ScanStep(line, 4, 0, None);
    ScanStep(line, 5, 0, None);
    ScanStep(line, 6, 1, None);
    ScanStep(line, 7, 0, None);
    ScanStep(line, 8, 1, None);
  }

  lemma {:induction false} DigitsOf(code: int)
    requires 100 <= code < 1000
    ensures code == (code / 100 * 10 + code / 10 % 10) * 10 + code % 10
  {
    var hundreds, rest := code / 100, code % 100;
    assert code == 100 * hundreds + rest;
    assert code / 10 == 10 * hundreds + rest / 10;
    assert code / 10 % 10 == rest / 10 && code % 10 == rest % 10;
  }

  lemma {:induction false} NumberOfThree(a: char, b: char, c: char)
    ensures Number(0, [a, b, c]) == (DigitValue(a) * 10 + DigitValue(b)) * 10 + DigitValue(c)
  {
    hide Number;
    assert [a, b, c] == [a] + ([b] + [c]);
    NumberFirst(0, a, [b] + [c]);
    NumberFirst(Number(0, [a]), b, [c]);
    NumberOne(0, a);
    NumberOne(Number(0, [a]), b);
    NumberOne(Number(Number(0, [a]), [b]), c);
  }

  lemma {:induction false} ThreeDigitsMean(code: int)
    requires 100 <= code < 1000
    ensures Number(0, ThreeDigits(code)) == code
  {
    hide Number, DigitChar, DigitValue, IsDigit;
    DigitsOf(code);
    NumberOfThree(DigitChar(code / 100), DigitChar(code / 10 % 10), DigitChar(code % 10));
  }

  lemma {:induction false} NumberOne(start: int, c: char)
    ensures Number(start, [c]) == start * 10 + DigitValue(c)
  {
    assert [c][1..] == "";
  }

  lemma {:induction false} ScanThree(line: string, digits: string, tail: string)
    requires line == "HTTP/1.0 " + (digits + tail) && |digits| == 3 && All(IsDigit, digits)
    requires All(c => !IsDigit(c), tail)
    ensures ScanCode(line, 0, 0, None) == Some(Number(0, digits))
  {
    hide ScanCode, IsDigit, Number;
    ScanVersion(line);
    assert line[9] == digits[0] && line[10] == digits[1] && line[11] == digits[2];
    assert line[9..12] == digits;
    ScanStep(line, 9, 0, None);
    ScanStep(line, 10, 1, None);
    ScanStep(line, 11, 2, None);
    forall i | 12 <= i < |line|
      ensures !IsDigit(line[i])
    {
      assert line[i] == tail[i - 12];
    }
    NoMoreDigits(line, 12, 3, Some(Number(0, digits)));
  }

  predicate Wordy(s: string) {
    forall i | 0 <= i < |s| :: !IsDigit(s[i]) && s[i] != '\r'
  }

  lemma {:induction false} SuccessIsWordy(code: int)
    requires Phrase(code).Some? && code < 300
    ensures Wordy(Phrase(code).value)
  {
  }

  lemma {:induction false} RedirectIsWordy(code: int)
    requires Phrase(code).Some? && code in {300, 304}
    ensures Wordy(Phrase(code).value)
  {
  }

  lemma {:induction false} MovedIsWordy(code: int)
    requires Phrase(code).Some? && 301 <= code <= 302
    ensures Wordy(Phrase(code).value)
  {
  }

  lemma {:induction false} ClientCodeIsWordy(code: int)
    requires Phrase(code).Some? && 400 <= code < 500
    ensures Wordy(Phrase(code).value)
  {
  }

  lemma {:induction false} FiveHundredIsWordy()
    ensures Phrase(500).Some? && Wordy(Phrase(500).value)
  {
  }

  lemma {:induction false} ServerCodeIsWordy(code: int)
    requires Phrase(code).Some? && 501 <= code <= 502
    ensures Wordy(Phrase(code).value)
  {
  }

  lemma {:induction false} UnavailableIsWordy()
    ensures Phrase(503).Some? && Wordy(Phrase(503).value)
  {
  }

  lemma {:induction false} KnownCodes(code: int)
    requires Phrase(code).Some? && code >= 300
    ensures code < 400 ==> code in {300, 304} || 301 <= code <= 302
    ensures code > 500 ==> code == 503 || 501 <= code <= 502
  {
  }

  lemma {:induction false} PhraseIsWordy(code: int)
    requires Phrase(code).Some?
    ensures Wordy(Phrase(code).value)
  {
    hide Phrase, Wordy;
    if code >= 300 { KnownCodes(code); }
    if code < 300 { SuccessIsWordy(code); }
    else if 301 <= code <= 302 { MovedIsWordy(code); }
    else if code < 400 { RedirectIsWordy(code); }
    else if code < 500 { ClientCodeIsWordy(code); }
    else if code == 500 { FiveHundredIsWordy(); }
    else if code == 503 { UnavailableIsWordy(); }
    else { ServerCodeIsWordy(code); }
  }

  /** The code is read back from the status line; an unknown one was written as 500. */
  lemma {:induction false} StatusLineReads(code: int)
    ensures ScanCode(StatusLine(code), 0, 0, None) == Some(ShownCode(code))
    ensures '\r' !in StatusLine(code)
  {
    hide ScanCode, Phrase, Number;
    var shown := ShownCode(code);
    PhraseIsWordy(shown);
    ThreeDigitsMean(shown);
    ScanThree(StatusLine(code), ThreeDigits(shown), " " + Phrase(shown).value);
  }

  /** Reading back the bytes of a reply with good headers gives its headers and its body, and its
      code exactly when that is one of the sixteen known ones. */
  lemma {:induction false} GoodReplyReads(code: int, headers: map<string, string>, order: seq<string>, body: string)
    requires Lists(order, headers) && GoodHeaders(headers)
    ensures ReadReply(ReplyText(code, headers, order, body)) == Some(Reply(Some(ShownCode(code)), headers, body))
    ensures ShownCode(code) == code <==> Phrase(code).Some?
  {
    hide *;
    ReplyTextIs(code, headers, order, body);
    StatusLineReads(code);
    ShownIff(code);
    var status, more := StatusLine(code), HeaderLines(headers, order);
    HeaderLinesReturnless(headers, order);
    ReplyIsRead(status, more, body);
    ReadWritten(headers, map[], order);
    WalkedIsAll(headers, order);
    Assembled(status, Block(more), body, headers);
  }

  lemma {:induction false} ShownIff(code: int)
    ensures ShownCode(code) == code <==> Phrase(code).Some?
  {
    hide Phrase;
  }

  lemma {:induction false} ReplyTextIs(code: int, headers: map<string, string>, order: seq<string>, body: string)
    requires Lists(order, headers)
    ensures forall name | name in order :: name in headers
    ensures ReplyText(code, headers, order, body)
         == Block([StatusLine(code)] + HeaderLines(headers, order)) + ("\r\n" + body)
  {
  }

  lemma {:induction false} ReadCut(response: string, n: nat, end: nat)
    requires FirstIndex(response, "\r\n") == Some(n) && FirstIndex(response, "\r\n\r\n") == Some(end)
    ensures n <= end && end + 4 <= |response|
    ensures ReadReply(response) == Assemble(response[..n], response[n + 2..end + 2], response[end + 4..])
  {
    hide Assemble, FirstIndex;
    FirstLineBefore(response, end);
  }

  lemma {:induction false} ReplyIsRead(status: string, more: seq<string>, body: string)
    requires '\r' !in status && Returnless(more) && forall i | 0 <= i < |more| :: more[i] != ""
    ensures ReadReply(Block([status] + more) + ("\r\n" + body)) == Assemble(status, Block(more), body)
  {
    hide *;
    ReplyIsCut(status, more, body);
    ReadCut(Block([status] + more) + ("\r\n" + body), |status|, |status| + |Block(more)|);
  }

  lemma {:induction false} Assembled(line: string, headerLines: string, body: string, headers: map<string, string>)
    requires ReadHeaders(headerLines, map[]) == Some(headers)
    ensures Assemble(line, headerLines, body) == Some(Reply(ScanCode(line, 0, 0, None), headers, body))
  {
    hide ReadHeaders, ScanCode;
  }

  lemma {:induction false} WalkedIsAll(headers: map<string, string>, order: seq<string>)
    requires Lists(order, headers)
    ensures Walked(headers, map[], order) == headers
  {
    hide Walked;
    WalkedHas(headers, map[], order);
    assert map[] + Visited(headers, order) == headers;
  }

  /** Where the reader cuts a written reply. */
  lemma {:induction false} ReplyIsCut(status: string, more: seq<string>, body: string)
    requires '\r' !in status && Returnless(more) && forall i | 0 <= i < |more| :: more[i] != ""
    ensures var text := Block([status] + more) + ("\r\n" + body);
            var end := |status| + |Block(more)|;
            && FirstIndex(text, "\r\n") == Some(|status|) && FirstIndex(text, "\r\n\r\n") == Some(end)
            && end + 4 <= |text| && text[..|status|] == status
            && text[|status| + 2..end + 2] == Block(more) && text[end + 4..] == body
  {
    hide FirstIndex, FirstAt, Returnless;
    var lines, block := [status] + more, Block(more);
    var text := Block(lines) + ("\r\n" + body);
    ReplyLines(status, more);
    assert lines[1..] == more;
    BlankLineAt(lines, body);
    FirstAtIsFirst(text, "\r\n\r\n", |Block(lines)| - 2);
    Regroup(status, "\r\n" + block, "\r\n" + body);
    Regroup("\r\n", block, "\r\n" + body);
    CrlfAfter(status, block + ("\r\n" + body));
    FirstAtIsFirst(text, "\r\n", |status|);
    ReplySlices(status, block, body);
  }

  lemma {:induction false} ReplySlices(status: string, block: string, body: string)
    ensures var text, end := status + ("\r\n" + (block + ("\r\n" + body))), |status| + |block|;
            && end + 4 <= |text| && text[..|status|] == status
            && text[|status| + 2..end + 2] == block && text[end + 4..] == body
  {
  }

  /** A reply cut off after its status line still has its code, and a body made of that line. */
  lemma {:induction false} CutReplyReads(code: int)
    ensures var text := StatusLine(code) + "\r\n";
            |text| >= 3 && ReadReply(text) == Some(Reply(Some(ShownCode(code)), map[], text[3..]))
  {
    hide ScanCode, StatusLine, FirstIndex, FirstAt;
    var line, text := StatusLine(code), StatusLine(code) + "\r\n";
    StatusLineReads(code);
    StatusLineIsLong(code);
    assert text == line + ("\r\n" + "");
    CrlfAfter(line, "");
    FirstAtIsFirst(text, "\r\n", |line|);
    NoBlankLine(line);
    assert text[..|line|] == line && text[|line| + 2..] == "";
  }

  lemma {:induction false} StatusLineIsLong(code: int)
    ensures |StatusLine(code)| >= 9
  {
    hide Phrase;
  }

  lemma {:induction false} NoBlankLine(line: string)
    requires '\r' !in line
    ensures FirstIndex(line + "\r\n", "\r\n\r\n").None?
  {
    var text := line + "\r\n";
    forall j | 0 <= j <= |text|
      ensures !("\r\n\r\n" <= text[j..])
    {
      if j < |line| {
        NoReturnHere(text, "\r\n\r\n", j);
      } else {
        assert |text[j..]| < 4;
      }
    }
  }

  lemma {:induction false} ReplyLines(status: string, more: seq<string>)
    requires '\r' !in status && Returnless(more) && forall i | 0 <= i < |more| :: more[i] != ""
    ensures Returnless([status] + more) && forall i | 1 <= i < |[status] + more| :: ([status] + more)[i] != ""
  {
  }
}
