/** The request the reverse proxy writes, and what the request parser makes of it. */
module ProxyRequest {
  import opened Shared
  import opened HttpRequest
  import opened HttpGrammar
  import opened HttpLanguage

  /** Where `part` occurs first, or none. */
  function FirstIndex(text: string, part: string): (i: Option<nat>)
    ensures i.Some? ==> i.value <= |text| && part <= text[i.value..]
    ensures forall j | 0 <= j <= |text| && (i.Some? ==> j < i.value) :: !(part <= text[j..])
  {
    if part <= text then Some(0)
    else if text == "" then None
    else
      assert forall j | 1 <= j <= |text| :: text[j..] == text[1..][j - 1..];
      match FirstIndex(text[1..], part)
      case None => None
      case Some(i) => Some(i + 1)
  }

  /** `part` occurs at `p` and nowhere before. */
  predicate FirstAt(text: string, part: string, p: nat) {
    p <= |text| && part <= text[p..] && forall j | 0 <= j < p :: !(part <= text[j..])
  }

  /** What stands around the first occurrence of `part`, or the whole text if it does not occur. */
  predicate IsErased(text: string, part: string, kept: string) {
    if part != "" && exists i | 0 <= i <= |text| :: FirstAt(text, part, i) then
      exists i | 0 <= i <= |text| - |part| :: FirstAt(text, part, i) && kept == text[..i] + text[i + |part|..]
    else
      kept == text
  }

  /** The request target for a URI under a location: what is left of the URI, or the root. */
  predicate IsTarget(uri: string, location: string, target: string) {
    if target == "/" then IsErased(uri, location, "") || IsErased(uri, location, "/")
    else target != "" && IsErased(uri, location, target)
  }

  /** `erase_first_copy`; an empty part is never found. */
  function EraseFirst(text: string, part: string): (kept: string)
    ensures IsErased(text, part, kept)
  {
    if part == "" then text
    else
      match FirstIndex(text, part)
      case None => text
      case Some(i) => assert FirstAt(text, part, i); text[..i] + text[i + |part|..]
  }

  function RewriteUri(uri: string, location: string): (target: string)
    ensures IsTarget(uri, location, target)
  {
    var rest := EraseFirst(uri, location);
    if rest == "" then "/" else rest
  }

  /** The target of a URI that has the location in it, and of one that has not. */
  lemma {:induction false} TargetIs(uri: string, location: string, i: nat)
    ensures location != "" && FirstAt(uri, location, i) ==>
              i + |location| <= |uri| &&
              var kept := uri[..i] + uri[i + |location|..];
              RewriteUri(uri, location) == if kept == "" then "/" else kept
    ensures location == "" || (forall j | 0 <= j <= |uri| :: !(location <= uri[j..])) ==>
              RewriteUri(uri, location) == if uri == "" then "/" else uri
  {
    if location != "" && FirstAt(uri, location, i) {
      OnlyOneErased(uri, location, i);
    }
  }

  lemma {:induction false} OnlyOneErased(text: string, part: string, i: nat)
    requires part != "" && FirstAt(text, part, i)
    ensures i + |part| <= |text| && EraseFirst(text, part) == text[..i] + text[i + |part|..]
  {
    var kept := EraseFirst(text, part);
    var j :| 0 <= j <= |text| - |part| && FirstAt(text, part, j) && kept == text[..j] + text[j + |part|..];
    assert i == j;
  }

  /** Under its own location a URI goes to what follows the location. */
  lemma {:induction false} LocationIsErased(location: string, rest: string)
    requires location != ""
    ensures RewriteUri(location + rest, location) == if rest == "" then "/" else rest
  {
    var uri := location + rest;
    assert uri[0..] == uri;
    assert FirstAt(uri, location, 0);
    TargetIs(uri, location, 0);
  }

  function MethodWord(m: Option<Method>): (word: string)
    ensures m.Some? ==> |word| >= 3
  {
    match m
    case None => ""
    case Some(Get) => "GET"
    case Some(Head) => "HEAD"
    case Some(Post) => "POST"
    case Some(Put) => "PUT"
    case Some(Delete) => "DELETE"
    case Some(Connect) => "CONNECT"
    case Some(Options) => "OPTIONS"
    case Some(Trace) => "TRACE"
    case Some(Patch) => "PATCH"
  }

  /** `replace_all` of CRLF by nothing. */
  function RemoveCrlf(value: string): string {
    if "\r\n" <= value then RemoveCrlf(value[2..])
    else if value == "" then ""
    else [value[0]] + RemoveCrlf(value[1..])
  }

  predicate IsOverridden(name: string) {
    name == "Host" || name == "Connection"
  }

  function HeaderText(name: string, value: string): string {
    if IsOverridden(name) then "" else name + ": " + RemoveCrlf(value) + "\r\n"
  }

  lemma {:induction false} CrlfIsRemoved(before: string, after: string)
    requires '\r' !in before
    ensures RemoveCrlf(before + ("\r\n" + after)) == before + RemoveCrlf(after)
    decreases |before|
  {
    var value := before + ("\r\n" + after);
    if before == "" {
      assert value == "\r\n" + after && value[2..] == after;
    } else {
      assert value[0] == before[0] && value[1..] == before[1..] + ("\r\n" + after);
      CrlfIsRemoved(before[1..], after);
    }
  }

  /** The headers in the order in which the map is walked. */
  function HeadersText(headers: map<string, string>, order: seq<string>): string
    requires forall name | name in order :: name in headers
  {
    if order == [] then ""
    else HeadersText(headers, order[..|order| - 1]) + HeaderText(order[|order| - 1], headers[order[|order| - 1]])
  }

  /** `order` lists every header name once. */
  predicate Lists(order: seq<string>, headers: map<string, string>) {
    && (forall name | name in order :: name in headers)
    && (forall name | name in headers :: name in order)
    && (forall i, j | 0 <= i < j < |order| :: order[i] != order[j])
  }

  function OpeningText(r: Request, location: string, destination: string): string {
    MethodWord(r.methodType) + " " + RewriteUri(r.uri, location) + " HTTP/1.1\r\n"
    + ("Host: " + destination + "\r\nConnection: close\r\n")
  }

  function ForwardText(r: Request, order: seq<string>, location: string, destination: string): string
    requires Lists(order, r.headers)
  {
    OpeningText(r, location, destination) + HeadersText(r.headers, order) + "\r\n"
  }

  lemma {:induction false} HeadersStep(headers: map<string, string>, order: seq<string>, i: nat)
    requires i < |order| && forall name | name in order :: name in headers
    ensures order[i] in headers
    ensures HeadersText(headers, order[..i + 1])
         == HeadersText(headers, order[..i]) + HeaderText(order[i], headers[order[i]])
  {
    assert order[i] in order && order[..i + 1][..i] == order[..i];
  }

  lemma {:induction false} NoHeaders(headers: map<string, string>)
    ensures HeadersText(headers, []) == ""
  {
  }

  method BuildRequest(r: Request, order: seq<string>, location: string, destination: string)
    returns (httpRequest: string)
    requires Lists(order, r.headers)
    ensures httpRequest == ForwardText(r, order, location, destination)
  {
    hide EraseFirst, MethodWord, RemoveCrlf, HeadersText;
    NoHeaders(r.headers);
    var uri := EraseFirst(r.uri, location);
    if uri == "" {
      uri := "/";
    }
    httpRequest := MethodWord(r.methodType) + " " + uri + " HTTP/1.1\r\n";
    httpRequest := httpRequest + ("Host: " + destination + "\r\nConnection: close\r\n");
    ghost var opening := httpRequest;
    assert opening == OpeningText(r, location, destination);
    for i := 0 to |order|
      invariant httpRequest == opening + HeadersText(r.headers, order[..i])
    {
      HeadersStep(r.headers, order, i);
      var name, value := order[i], r.headers[order[i]];
      if name != "Host" && name != "Connection" {
        value := RemoveCrlf(value);
        httpRequest := httpRequest + (name + ": " + value + "\r\n");
      }
    }
    assert order[..|order|] == order;
    httpRequest := httpRequest + "\r\n";
  }

  // ----- what an accepted request holds -----

  predicate IsName(name: string) {
    name != "" && All(IsTokenByte, name)
  }

  /** Header names are tokens, or empty where a folded line was read; no value holds a control byte. */
  predicate Readable(r: Request) {
    && All(IsUriChar, r.uri)
    && forall name | name in r.headers :: (name == "" || IsName(name)) && All(IsValueChar, r.headers[name])
  }

  lemma {:induction false} LinesReadable(headers: map<string, string>, lines: seq<HeaderLine>)
    requires forall i | 0 <= i < |lines| :: ValidLine(lines[i])
    requires forall name | name in headers :: (name == "" || IsName(name)) && All(IsValueChar, headers[name])
    ensures var hs := AddLines(headers, lines);
            forall name | name in hs :: (name == "" || IsName(name)) && All(IsValueChar, hs[name])
    decreases |lines|
  {
    hide All;
    if lines != [] {
      LinesReadable(AddLine(headers, lines[0]), lines[1..]);
    }
  }

  lemma {:induction false} AcceptedIsReadable(r: Request, text: string)
    requires r.headers == map[] && r.uri == "" && Run(FRESH, r, text).verdict == Good
    ensures Readable(Run(FRESH, r, text).request)
  {
    hide Run, Text, All, AddLines;
    var s := AcceptedIsSentence(r, text);
    SentenceAccepted(r, s, Run(FRESH, r, text).rest);
    LinesReadable(map[], s.lines);
    assert "" + s.uri == s.uri;
  }

  lemma {:induction false} RewrittenIsUri(uri: string, location: string)
    requires All(IsUriChar, uri)
    ensures All(IsUriChar, RewriteUri(uri, location))
  {
  }

  lemma {:induction false} NothingToRemove(value: string)
    requires All(IsValueChar, value)
    ensures RemoveCrlf(value) == value
    decreases |value|
  {
    if value != "" {
      assert value[0] != '\r';
      NothingToRemove(value[1..]);
    }
  }

  // ----- the written text as a sentence -----

  function Fields(headers: map<string, string>, order: seq<string>): seq<HeaderLine>
    requires forall name | name in order :: name in headers
  {
    if order == [] then []
    else
      var name := order[|order| - 1];
      Fields(headers, order[..|order| - 1]) + if IsOverridden(name) then [] else [Field(name, headers[name])]
  }

  function Forwarded(r: Request, order: seq<string>, location: string, destination: string): Sentence
    requires Lists(order, r.headers)
  {
    Sentence(MethodWord(r.methodType), RewriteUri(r.uri, location), "1", "1",
             [Field("Host", destination), Field("Connection", "close")] + Fields(r.headers, order))
  }

  lemma {:induction false} LinesTextConcat(a: seq<HeaderLine>, b: seq<HeaderLine>)
    ensures LinesText(a + b) == LinesText(a) + LinesText(b)
    decreases |a|
  {
    hide LineText;
    if a == [] {
      assert a + b == b;
    } else {
      assert (a + b)[1..] == a[1..] + b;
      LinesTextConcat(a[1..], b);
    }
  }

  lemma {:induction false} OneLineText(line: HeaderLine)
    ensures LinesText([line]) == LineText(line)
  {
    hide LineText;
    assert [line][1..] == [];
    assert LineText(line) + "" == LineText(line);
  }

  lemma {:induction false} FieldsText(r: Request, order: seq<string>)
    requires Readable(r) && forall name | name in order :: name in r.headers
    ensures HeadersText(r.headers, order) == LinesText(Fields(r.headers, order))
    decreases |order|
  {
    hide All, RemoveCrlf, LinesText, IsUriChar;
    if order == [] {
      NoLines();
    } else {
      var init, name := order[..|order| - 1], order[|order| - 1];
      assert name in order && forall n | n in init :: n in order;
      FieldsText(r, init);
      if IsOverridden(name) {
        assert HeadersText(r.headers, init) + "" == HeadersText(r.headers, init);
        assert Fields(r.headers, init) + [] == Fields(r.headers, init);
      } else {
        var value := r.headers[name];
        NothingToRemove(value);
        LinesTextConcat(Fields(r.headers, init), [Field(name, value)]);
        OneLineText(Field(name, value));
        FieldText(name, value);
      }
    }
  }

  lemma {:induction false} FieldText(name: string, value: string)
    ensures name + ": " + value + "\r\n" == LineText(Field(name, value))
  {
  }

  lemma {:induction false} NoLines()
    ensures LinesText([]) == ""
  {
  }

  lemma {:induction false} OpeningIsSentence(r: Request, location: string, destination: string, s: Sentence)
    requires s.word == MethodWord(r.methodType) && s.uri == RewriteUri(r.uri, location)
    requires s.major == "1" && s.minor == "1"
    ensures OpeningText(r, location, destination)
         == RequestLineText(s) + LinesText([Field("Host", destination), Field("Connection", "close")])
  {
    hide RewriteUri, MethodWord;
    var host, connection := Field("Host", destination), Field("Connection", "close");
    LinesTextConcat([host], [connection]);
    OneLineText(host);
    OneLineText(connection);
    assert [host] + [connection] == [host, connection];
    OpeningLine(s);
    OpeningHeaders(destination);
  }

  lemma {:induction false} OpeningLine(s: Sentence)
    requires s.major == "1" && s.minor == "1"
    ensures RequestLineText(s) == s.word + " " + s.uri + " HTTP/1.1\r\n"
  {
    assert " HTTP/" + ("1" + ("." + ("1" + "\r\n"))) == " HTTP/1.1\r\n";
  }

  lemma {:induction false} HostColon()
    ensures "Host" + ": " == "Host: "
  {
  }

  lemma {:induction false} ConnectionLine()
    ensures "Connection" + ": " + "close" + "\r\n" == "Connection: close\r\n"
  {
  }

  lemma {:induction false} TwoLineEnds()
    ensures "\r\n" + "Connection: close\r\n" == "\r\nConnection: close\r\n"
  {
  }

  lemma {:induction false} OpeningHeaders(destination: string)
    ensures LineText(Field("Host", destination)) + LineText(Field("Connection", "close"))
         == "Host: " + destination + "\r\nConnection: close\r\n"
  {
    hide LineText;
    FieldText("Host", destination);
    FieldText("Connection", "close");
    HostColon();
    ConnectionLine();
    TwoLineEnds();
    Regroup("Host: " + destination, "\r\n", "Connection: close\r\n");
  }

  lemma {:induction false} ForwardIsSentence(r: Request, order: seq<string>, location: string, destination: string)
    requires Readable(r) && Lists(order, r.headers)
    ensures ForwardText(r, order, location, destination) == Text(Forwarded(r, order, location, destination))
  {
    hide RequestLineText, LinesText, Fields, HeadersText, OpeningText, Readable, RewriteUri, MethodWord, IsTarget;
    var s := Forwarded(r, order, location, destination);
    var two := [Field("Host", destination), Field("Connection", "close")];
    OpeningIsSentence(r, location, destination, s);
    FieldsText(r, order);
    LinesTextConcat(two, Fields(r.headers, order));
    var line, first, more := RequestLineText(s), LinesText(two), LinesText(Fields(r.headers, order));
    Regroup(line, first, more);
    Regroup(line, first + more, "\r\n");
  }

  // ----- when it is accepted -----

  lemma {:induction false} MethodWordIsToken(m: Option<Method>)
    requires m.Some?
    ensures MethodWord(m) != "" && All(IsTokenByte, MethodWord(m))
  {
  }

  lemma {:induction false} MethodWordRead(m: Option<Method>, tail: string)
    requires m.Some?
    ensures MethodOf(MethodWord(m) + tail) == m
  {
    var text := MethodWord(m) + tail;
    assert text[0] == MethodWord(m)[0] && text[1] == MethodWord(m)[1] && text[2] == MethodWord(m)[2];
  }

  /** The first three bytes are those of the word of a method. */
  predicate BeginsLike(text: string, m: Method) {
    |text| >= 3 && text[..3] == MethodWord(Some(m))[..3]
  }

  /** The method is the one whose word begins with the same three bytes, and there is none otherwise. */
  lemma {:induction false} MethodOfIff(word: string, m: Method)
    ensures MethodOf(word) == Some(m) <==> BeginsLike(word, m)
  {
    var start := MethodWord(Some(m));
    if |word| >= 3 {
      assert word[..3] == start[..3] <==> word[0] == start[0] && word[1] == start[1] && word[2] == start[2];
    }
  }

  /** A method that is not known leaves the old one in the request. */
  lemma {:induction false} UnknownMethodIsKept(r: Request, text: string, m: Method)
    ensures BeginsLike(text, m) ==> Prepare(r, text).methodType == Some(m)
    ensures (forall n :: !BeginsLike(text, n)) ==> Prepare(r, text).methodType == r.methodType
  {
    hide MethodOf, BeginsLike, CString;
    MethodOfIff(text, m);
    if MethodOf(text).Some? { MethodOfIff(text, MethodOf(text).value); }
  }

  lemma {:induction false} FieldsValid(r: Request, order: seq<string>)
    requires Readable(r) && (forall name | name in order :: name in r.headers && name != "")
    ensures forall i | 0 <= i < |Fields(r.headers, order)| :: ValidLine(Fields(r.headers, order)[i])
    decreases |order|
  {
    hide All;
    if order != [] {
      var init, name := order[..|order| - 1], order[|order| - 1];
      assert name in order && forall n | n in init :: n in order;
      FieldsValid(r, init);
    }
  }

  lemma {:induction false} FixedFieldsValid(destination: string)
    requires All(IsValueChar, destination)
    ensures ValidLine(Field("Host", destination)) && ValidLine(Field("Connection", "close"))
    ensures All(IsDecimal, "1")
  {
  }

  lemma {:induction false} ForwardedValid(r: Request, order: seq<string>, location: string, destination: string)
    requires Readable(r) && Lists(order, r.headers) && All(IsValueChar, destination)
    requires r.methodType.Some? && "" !in r.headers
    ensures ValidSentence(Forwarded(r, order, location, destination))
  {
    hide All, ValidLine, RewriteUri, MethodWord;
    MethodWordIsToken(r.methodType);
    RewrittenIsUri(r.uri, location);
    FixedFieldsValid(destination);
    FieldsValid(r, order);
    var lines := Forwarded(r, order, location, destination).lines;
    forall i | 0 <= i < |lines|
      ensures ValidLine(lines[i])
    {
      if i >= 2 { assert lines[i] == Fields(r.headers, order)[i - 2]; }
    }
  }

  /** The original headers, with the two the proxy overrides. */
  function ForwardedHeaders(headers: map<string, string>, destination: string): map<string, string> {
    headers["Host" := destination]["Connection" := "close"]
  }

  lemma {:induction false} AddLinesConcat(headers: map<string, string>, a: seq<HeaderLine>, b: seq<HeaderLine>)
    ensures AddLines(headers, a + b) == AddLines(AddLines(headers, a), b)
    decreases |a|
  {
    if a == [] {
      assert a + b == b;
    } else {
      assert (a + b)[1..] == a[1..] + b;
      AddLinesConcat(AddLine(headers, a[0]), a[1..], b);
    }
  }

  lemma {:induction false} NothingAdded(headers: map<string, string>)
    ensures AddLines(headers, []) == headers
  {
  }

  lemma {:induction false} AddOne(headers: map<string, string>, line: HeaderLine)
    ensures AddLines(headers, [line]) == AddLine(headers, line)
  {
    assert [line][1..] == [];
  }

  /** The headers that are copied. */
  function Picked(headers: map<string, string>, order: seq<string>): map<string, string>
    requires forall name | name in order :: name in headers
  {
    map name | name in order && !IsOverridden(name) :: headers[name]
  }

  lemma {:induction false} FieldsMean(start: map<string, string>, headers: map<string, string>, order: seq<string>)
    requires forall name | name in order :: name in headers
    ensures AddLines(start, Fields(headers, order)) == start + Picked(headers, order)
    decreases |order|
  {
    hide Picked, IsOverridden, AddLines;
    PickedNone(headers);
    if order == [] {
      assert AddLines(start, []) == start by { NothingAdded(start); }
      assert start + Picked(headers, order) == start;
    } else {
      var init, name := order[..|order| - 1], order[|order| - 1];
      assert name in order && forall n | n in init :: n in order;
      SplitLast(order);
      FieldsMean(start, headers, init);
      PickedLast(headers, init, name);
      if IsOverridden(name) {
        assert Fields(headers, init) + [] == Fields(headers, init);
      } else {
        AddLinesConcat(start, Fields(headers, init), [Field(name, headers[name])]);
        AddOne(start + Picked(headers, init), Field(name, headers[name]));
        UpdateRight(start, Picked(headers, init), name, headers[name]);
      }
    }
  }

  lemma {:induction false} PickedNone(headers: map<string, string>)
    ensures Picked(headers, []) == map[]
  {
  }

  lemma {:induction false} PickedLast(headers: map<string, string>, init: seq<string>, name: string)
    requires (forall n | n in init :: n in headers) && name in headers
    ensures forall n | n in init + [name] :: n in headers
    ensures Picked(headers, init + [name])
         == if IsOverridden(name) then Picked(headers, init) else Picked(headers, init)[name := headers[name]]
  {
  }

  lemma {:induction false} ForwardedMeans(r: Request, order: seq<string>, location: string, destination: string)
    requires Lists(order, r.headers)
    ensures AddLines(map[], Forwarded(r, order, location, destination).lines)
         == ForwardedHeaders(r.headers, destination)
  {
    hide AddLines, Fields, RewriteUri, MethodWord;
    var host, connection := Field("Host", destination), Field("Connection", "close");
    assert [host] + [connection] == [host, connection];
    AddLinesConcat(map[], [host, connection], Fields(r.headers, order));
    AddLinesConcat(map[], [host], [connection]);
    AddOne(map[], host);
    AddOne(AddLine(map[], host), connection);
    FieldsMean(map["Host" := destination]["Connection" := "close"], r.headers, order);
  }

  lemma {:induction false} NoMethodIsBad(q: Request, tail: string)
    ensures Run(FRESH, q, " " + tail).verdict == Bad
  {
    hide Run;
    RunFirst(FRESH, q, " " + tail);
  }

  /** A header without a name cannot be read back: the line starts with its colon. */
  lemma {:induction false} NamelessIsBad(q: Request, s: Sentence, lines: seq<HeaderLine>, value: string, rest: string)
    requires s.word != "" && All(IsTokenByte, s.word) && All(IsUriChar, s.uri)
    requires s.major != "" && All(IsDecimal, s.major) && s.minor != "" && All(IsDecimal, s.minor)
    requires ValidLines(lines)
    ensures Run(FRESH, q, RequestLineText(s) + (LinesText(lines) + (LineText(Field("", value)) + rest))).verdict == Bad
  {
    hide Run, RequestLineText, LinesText, Number, All, AddLines, Consume;
    var tail := LineText(Field("", value)) + rest;
    RequestLineRuns(q, s, LinesText(lines) + tail);
    var q' := q.(uri := q.uri + s.uri, major := Number(0, s.major), minor := Number(0, s.minor));
    LinesRun(q', lines, tail);
    assert tail[0] == ':';
    ColonIsBad(q'.(headers := AddLines(q'.headers, lines)));
    RunFirst(LINE_START, q'.(headers := AddLines(q'.headers, lines)), tail);
  }

  lemma {:induction false} ColonIsBad(q: Request)
    ensures Consume(LINE_START, q, ':').0 == Bad
  {
  }

  lemma {:induction false} FieldsAt(headers: map<string, string>, order: seq<string>, i: nat)
    requires (forall name | name in order :: name in headers) && i < |order| && !IsOverridden(order[i])
    ensures forall name | name in order[..i] :: name in headers
    ensures forall name | name in order[i + 1..] :: name in headers
    ensures Fields(headers, order)
         == Fields(headers, order[..i]) + ([Field(order[i], headers[order[i]])] + Fields(headers, order[i + 1..]))
    decreases |order|
  {
    hide IsOverridden;
    var n := |order| - 1;
    var init := order[..n];
    var mid := [Field(order[i], headers[order[i]])];
    if i == n {
      assert order[i + 1..] == [] && mid + [] == mid;
    } else {
      FieldsAt(headers, init, i);
      var after := order[i + 1..];
      CutInit(order, i);
      assert order[n] in order;
      var last := if IsOverridden(order[n]) then [] else [Field(order[n], headers[order[n]])];
      var first, rest := Fields(headers, order[..i]), Fields(headers, init[i + 1..]);
      Regroup(first, mid + rest, last);
      Regroup(mid, rest, last);
    }
  }

  lemma {:induction false} FoldedIsBad(q: Request, r: Request, order: seq<string>, location: string,
                                       destination: string)
    requires Readable(r) && Lists(order, r.headers) && All(IsValueChar, destination)
    requires r.methodType.Some? && "" in r.headers
    ensures Run(FRESH, q, ForwardText(r, order, location, destination)).verdict == Bad
  {
    hide Run, RequestLineText, LinesText, LineText, All, ValidLine, Fields;
    hide RewriteUri, MethodWord, Readable, ForwardText;
    var s := Forwarded(r, order, location, destination);
    var two := [Field("Host", destination), Field("Connection", "close")];
    var i :| 0 <= i < |order| && order[i] == "";
    FieldsAt(r.headers, order, i);
    var before, after := Fields(r.headers, order[..i]), Fields(r.headers, order[i + 1..]);
    var nameless := Field("", r.headers[""]);
    assert two + (before + ([nameless] + after)) == two + before + ([nameless] + after);
    LinesTextConcat(two + before, [nameless] + after);
    LinesTextConcat([nameless], after);
    OneLineText(nameless);
    ForwardIsSentence(r, order, location, destination);
    ReadableParts(r, location);
    MethodWordIsToken(r.methodType);
    FixedFieldsValid(destination);
    FieldsValid(r, order[..i]);
    PrefixValid(two, before);
    NamelessIsBad(q, s, two + before, r.headers[""], LinesText(after) + "\r\n");
    assert LinesText(s.lines) + "\r\n" == LinesText(two + before) + (LineText(nameless) + (LinesText(after) + "\r\n"));
  }

  lemma {:induction false} ReadableParts(r: Request, location: string)
    requires Readable(r)
    ensures All(IsUriChar, RewriteUri(r.uri, location))
  {
    RewrittenIsUri(r.uri, location);
  }

  lemma {:induction false} PrefixValid(two: seq<HeaderLine>, more: seq<HeaderLine>)
    requires |two| == 2 && two[0].Field? && ValidLine(two[0]) && ValidLine(two[1])
    requires forall i | 0 <= i < |more| :: ValidLine(more[i])
    ensures ValidLines(two + more)
  {
    hide ValidLine;
  }

  /** A header map has the empty name exactly when a folded line was read. */
  lemma {:induction false} FoldedIffEmptyName(headers: map<string, string>, lines: seq<HeaderLine>)
    requires forall i | 0 <= i < |lines| :: ValidLine(lines[i])
    ensures "" in AddLines(headers, lines) <==> "" in headers || exists i | 0 <= i < |lines| :: lines[i].Folded?
    decreases |lines|
  {
    if lines != [] {
      FoldedIffEmptyName(AddLine(headers, lines[0]), lines[1..]);
      assert forall i | 1 <= i < |lines| :: lines[1..][i - 1] == lines[i];
    }
  }

  lemma {:induction false} ForwardIsGood(q: Request, r: Request, order: seq<string>, location: string,
                                         destination: string)
    requires Readable(r) && Lists(order, r.headers) && All(IsValueChar, destination) && q.headers == map[]
    requires r.methodType.Some? && "" !in r.headers
    ensures var text := ForwardText(r, order, location, destination);
            && MethodOf(text) == r.methodType
            && Run(FRESH, q, text) == Outcome(Good, Parser(Newline3, "", ""),
                 q.(uri := q.uri + RewriteUri(r.uri, location), major := 1, minor := 1,
                    headers := ForwardedHeaders(r.headers, destination)), "")
  {
    hide Run, Text, ForwardText, Readable, ValidSentence, RewriteUri, All, AddLines, Fields, MethodOf, MethodWord,
         ForwardedHeaders, Number;
    var text := ForwardText(r, order, location, destination);
    var s := Forwarded(r, order, location, destination);
    ForwardIsSentence(r, order, location, destination);
    ForwardedValid(r, order, location, destination);
    SentenceAccepted(q, s, "");
    assert text + "" == text;
    ForwardedMeans(r, order, location, destination);
    OneDigit();
    var tail := TextAfterWord(s);
    MethodWordRead(r.methodType, tail);
  }

  /** Forwarding: the written text is a good request exactly when the method is one of the nine and no
      folded line was read, and a bad one otherwise. A good one has the same method, the rewritten URI,
      version 1.1, and the original headers with the two overridden; nothing of the text is left over. */
  lemma {:induction false} ForwardRoundTrip(q: Request, r: Request, order: seq<string>, location: string,
                                            destination: string)
    requires Readable(r) && Lists(order, r.headers) && All(IsValueChar, destination) && q.headers == map[]
    ensures var text := ForwardText(r, order, location, destination);
            var o := Run(FRESH, q, text);
            && o.verdict == (if r.methodType.Some? && "" !in r.headers then Good else Bad)
            && (o.verdict == Good ==>
                  && o.rest == "" && MethodOf(text) == r.methodType
                  && o.request == q.(uri := q.uri + RewriteUri(r.uri, location), major := 1, minor := 1,
                                     headers := ForwardedHeaders(r.headers, destination)))
  {
    hide *;
    if r.methodType.None? {
      MethodlessIsBad(q, r, order, location, destination);
    } else if "" in r.headers {
      FoldedIsBad(q, r, order, location, destination);
    } else {
      ForwardIsGood(q, r, order, location, destination);
    }
  }

  lemma {:induction false} MethodlessIsBad(q: Request, r: Request, order: seq<string>, location: string,
                                           destination: string)
    requires Readable(r) && Lists(order, r.headers) && r.methodType.None?
    ensures Run(FRESH, q, ForwardText(r, order, location, destination)).verdict == Bad
  {
    hide Run, Text, ForwardText, Readable, RewriteUri, Fields;
    ForwardIsSentence(r, order, location, destination);
    TextOfNoMethod(Forwarded(r, order, location, destination));
    NoMethodIsBad(q, ForwardText(r, order, location, destination)[1..]);
  }

  lemma {:induction false} OneDigit()
    ensures Number(0, "1") == 1
  {
    NumberFirst(10 * 0 + DigitValue('1'), '1', "");
    assert "1"[1..] == "";
  }

  lemma {:induction false} TextAfterWord(s: Sentence) returns (tail: string)
    ensures Text(s) == s.word + tail && tail != "" && tail[0] == ' '
  {
    hide LinesText;
    tail := " " + (s.uri + (" HTTP/" + (s.major + ("." + (s.minor + "\r\n"))))) + (LinesText(s.lines) + "\r\n");
    assert Text(s) == s.word + tail;
  }

  lemma {:induction false} TextOfNoMethod(s: Sentence)
    requires s.word == ""
    ensures Text(s) != "" && Text(s) == " " + Text(s)[1..]
  {
    hide Text;
    var tail := TextAfterWord(s);
    assert s.word + tail == tail;
  }

  /** The same for every text the parser accepted, whatever the method fields of the two requests
      held before they were set: `p` is the request that was read into, `q` the one that is read into
      on the other side. */
  lemma {:induction false} AcceptedRequestForwards(p: Request, q: Request, text: string, order: seq<string>,
                                                   location: string, destination: string)
    requires p.uri == "" && p.headers == map[] && q.uri == "" && q.headers == map[]
    requires Run(FRESH, Prepare(p, text), text).verdict == Good
    requires Lists(order, Run(FRESH, Prepare(p, text), text).request.headers)
    requires All(IsValueChar, destination)
    ensures var r := Run(FRESH, Prepare(p, text), text).request;
            var again := ForwardText(r, order, location, destination);
            var o := Run(FRESH, Prepare(q, again), again);
            && o.verdict == (if r.methodType.Some? && "" !in r.headers then Good else Bad)
            && (o.verdict == Good ==>
                  && o.request.methodType == r.methodType && o.request.uri == RewriteUri(r.uri, location)
                  && (forall rest :: location != "" && r.uri == location + rest ==>
                        o.request.uri == if rest == "" then "/" else rest)
                  && o.request.major == 1 && o.request.minor == 1
                  && o.request.headers == ForwardedHeaders(r.headers, destination))
  {
    hide Run, ForwardText, Readable, RewriteUri, All, MethodOf, CString;
    AcceptedIsReadable(Prepare(p, text), text);
    var r := Run(FRESH, Prepare(p, text), text).request;
    var again := ForwardText(r, order, location, destination);
    ForwardRoundTrip(Prepare(q, again), r, order, location, destination);
    assert "" + RewriteUri(r.uri, location) == RewriteUri(r.uri, location);
    forall rest | location != "" && r.uri == location + rest
      ensures RewriteUri(r.uri, location) == if rest == "" then "/" else rest
    {
      LocationIsErased(location, rest);
    }
  }

  // ----- a request that is lost on the way -----

  /** A request with one header and one folded line. */
  function FoldedExample(): Sentence {
    Sentence("GET", "/", "1", "1", [Field("A", "b"), Folded(" ", "c")])
  }

  /** It is accepted, and what is forwarded for it is bad, in whatever order its headers are written. */
  lemma {:induction false} FoldedRequestIsLost(q: Request, order: seq<string>, location: string, destination: string)
    requires q.headers == map[] && All(IsValueChar, destination)
    requires Lists(order, map["A" := "b", "" := "c"])
    ensures var text := Text(FoldedExample());
            var o := Run(FRESH, Prepare(EMPTY, text), text);
            && o.verdict == Good && o.rest == "" && o.request.headers == map["A" := "b", "" := "c"]
            && Run(FRESH, q, ForwardText(o.request, order, location, destination)).verdict == Bad
  {
    hide Run, ForwardText, All, MethodOf, CString, Text, ValidSentence, Readable, LinesText;
    var s, text := FoldedExample(), Text(FoldedExample());
    ExampleIsValid();
    assert text + "" == text;
    SentenceAccepted(Prepare(EMPTY, text), s, "");
    ExampleMeans();
    var r := Run(FRESH, Prepare(EMPTY, text), text).request;
    AcceptedIsReadable(Prepare(EMPTY, text), text);
    ForwardRoundTrip(q, r, order, location, destination);
  }

  lemma {:induction false} ExampleIsValid()
    ensures ValidSentence(FoldedExample())
  {
  }

  lemma {:induction false} ExampleMeans()
    ensures AddLines(map[], FoldedExample().lines) == map["A" := "b", "" := "c"]
  {
    var lines := FoldedExample().lines;
    assert lines[1..] == [Folded(" ", "c")] && lines[1..][1..] == [];
  }
}
