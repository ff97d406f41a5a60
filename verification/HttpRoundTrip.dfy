/** Which replies come back from the reader as they were written: the exact condition. */
module HttpRoundTrip {
  import opened Shared
  import opened ProxyRequest
  import opened HttpReply

  // ----- trimming -----

  lemma {:induction false} StripRightEnds(s: string)
    ensures StripRight(s) <= s && (StripRight(s) == "" || !IsSpace(StripRight(s)[|StripRight(s)| - 1]))
    decreases |s|
  {
    hide IsSpace;
    if s != "" && IsSpace(s[|s| - 1]) {
      StripRightEnds(s[..|s| - 1]);
    }
  }

  lemma {:induction false} StripLeftCuts(s: string) returns (k: nat)
    ensures k <= |s| && StripLeft(s) == s[k..] && (k < |s| ==> !IsSpace(s[k]))
    decreases |s|
  {
    hide IsSpace;
    if s != "" && IsSpace(s[0]) {
      k := StripLeftCuts(s[1..]);
      assert s[1..][k..] == s[k + 1..];
      k := k + 1;
    } else {
      k := 0;
      assert s[0..] == s;
    }
  }

  /** What trimming leaves is a stretch of the text, without white space at its ends. */
  lemma {:induction false} TrimCuts(s: string) returns (k: nat, m: nat)
    ensures k <= m <= |s| && Trim(s) == s[k..m]
    ensures k < m ==> !IsSpace(s[k]) && !IsSpace(s[m - 1])
  {
    hide IsSpace, StripLeft, StripRight;
    StripRightEnds(s);
    m := |StripRight(s)|;
    k := StripLeftCuts(StripRight(s));
    assert StripRight(s) == s[..m] && s[..m][k..] == s[k..m];
  }

  lemma {:induction false} NothingTrimmed(s: string)
    requires s == "" || (!IsSpace(s[0]) && !IsSpace(s[|s| - 1]))
    ensures Trim(s) == s
  {
  }

  lemma {:induction false} TrimKeepsStart(s: string)
    requires s != "" && !IsSpace(s[0])
    ensures Trim(s) != ""
  {
    hide IsSpace, StripLeft;
    StripRightStart(s);
    var k := StripLeftCuts(StripRight(s));
    assert StripLeft(StripRight(s)) == StripRight(s) by { StartStays(StripRight(s)); }
  }

  lemma {:induction false} StripRightStart(s: string)
    requires s != "" && !IsSpace(s[0])
    ensures StripRight(s) != "" && StripRight(s)[0] == s[0]
    decreases |s|
  {
    hide IsSpace;
    if IsSpace(s[|s| - 1]) {
      StripRightStart(s[..|s| - 1]);
    }
  }

  lemma {:induction false} StartStays(s: string)
    requires s != "" && !IsSpace(s[0])
    ensures StripLeft(s) == s
  {
  }

  // ----- what the reader can return -----

  /** A name or a value as the reader stores it; only a name can be empty of all and still be stored. */
  predicate Storable(s: string) {
    '\r' !in s && Trim(s) == s
  }

  predicate Stored(headers: map<string, string>) {
    forall name | name in headers :: Storable(name) && NoLateColon(name) && Storable(headers[name])
  }

  lemma {:induction false} TrimIsStorable(s: string)
    requires '\r' !in s
    ensures Storable(Trim(s)) && (NoLateColon(s) ==> NoLateColon(Trim(s)))
  {
    hide IsSpace, Trim;
    var k, m := TrimCuts(s);
    assert forall i | 0 <= i < m - k :: s[k..m][i] == s[k + i];
    NothingTrimmed(s[k..m]);
  }

  /** The parts of a line while it is scanned: no carriage return, and no late colon in the name. */
  predicate ScansWell(s: LineScan) {
    && '\r' !in s.buffer && '\r' !in s.key && NoLateColon(s.key)
    && (s.isKey ==> NoLateColon(s.buffer) && (s.ignoreBlank ==> s.buffer == ""))
  }

  lemma {:induction false} LineScansWell(s: LineScan, line: string)
    requires ScansWell(s) && '\r' !in line
    ensures ScansWell(ScanLine(s, line))
    decreases |line|
  {
    if line != "" {
      CharScansWell(s, line[0]);
      hide ScansWell, ScanChar;
      LineScansWell(ScanChar(s, line[0]), line[1..]);
    }
  }

  lemma {:induction false} CharScansWell(s: LineScan, c: char)
    requires ScansWell(s) && c != '\r'
    ensures ScansWell(ScanChar(s, c))
  {
  }

  lemma {:induction false} ReadIsStored(text: string, start: map<string, string>)
    requires Stored(start) && ReadHeaders(text, start).Some?
    ensures Stored(ReadHeaders(text, start).value)
    decreases |text|
  {
    hide ScanLine, Trim, Storable, NoLateColon;
    if text != "" {
      var n := ReturnAt(text);
      var s := ScanLine(LINE_SCAN, text[..n]);
      LineIsStored(text[..n]);
      ReadIsStored(text[n + 2..], start[Trim(s.key) := Trim(s.buffer)]);
    }
  }

  lemma {:induction false} LineIsStored(line: string)
    requires forall i | 0 <= i < |line| :: line[i] != '\r'
    ensures var s := ScanLine(LINE_SCAN, line);
            Storable(Trim(s.key)) && NoLateColon(Trim(s.key)) && Storable(Trim(s.buffer))
  {
    hide ScanLine, Trim, Storable;
    LineScansWell(LINE_SCAN, line);
    var s := ScanLine(LINE_SCAN, line);
    TrimIsStorable(s.key);
    TrimIsStorable(s.buffer);
  }

  lemma {:induction false} ReplyIsStored(response: string)
    requires ReadReply(response).Some?
    ensures Stored(ReadReply(response).value.headers)
  {
    hide ReadHeaders, ScanCode, FirstIndex, Stored;
    assert Stored(map[]) by { NoneIsStored(); }
    forall text | ReadHeaders(text, map[]).Some?
      ensures Stored(ReadHeaders(text, map[]).value)
    {
      ReadIsStored(text, map[]);
    }
  }

  lemma {:induction false} NoneIsStored()
    ensures Stored(map[])
  {
  }

  // ----- a header without a name -----

  /** Once the name is read it stays. */
  lemma {:induction false} KeyStays(s: LineScan, line: string)
    requires !s.isKey
    ensures ScanLine(s, line).key == s.key
    decreases |line|
  {
    if line != "" { KeyStays(ScanChar(s, line[0]), line[1..]); }
  }

  /** The rest of a line that began with a colon: it has no name and more than its value in the
      buffer, or a name that begins with that colon. */
  lemma {:induction false} NamelessRest(seen: string, value: string)
    ensures var s := ScanLine(LineScan(seen, "", false, true), value);
            (s.key == "" && s.buffer == seen + value) || (seen <= s.key)
    decreases |value|
  {
    if value == "" {
      assert seen + value == seen;
    } else if value[0] == ':' {
      KeyStays(LineScan("", seen, true, false), value[1..]);
    } else {
      NamelessRest(seen + [value[0]], value[1..]);
      assert seen + [value[0]] + value[1..] == seen + value;
    }
  }

  lemma {:induction false} ColonSpace(value: string)
    ensures ScanLine(LINE_SCAN, ": " + value) == ScanLine(LineScan(": ", "", false, true), value)
  {
    var line := ": " + value;
    assert line[0] == ':' && line[1..][0] == ' ' && line[1..][1..] == value;
    assert "" + [':'] + [' '] == ": ";
  }

  /** The value of a header without a name is not read back as it was. */
  lemma {:induction false} NamelessIsLost(value: string)
    requires Storable(value)
    ensures var s := ScanLine(LINE_SCAN, HeaderLineText("", value));
            Trim(s.key) == "" ==> Trim(s.buffer) != value
  {
    hide ScanLine, Trim;
    assert HeaderLineText("", value) == ": " + value;
    ColonSpace(value);
    NamelessRest(": ", value);
    var s := ScanLine(LINE_SCAN, ": " + value);
    if s.key != "" {
      assert s.key[0] == ':';
      TrimKeepsStart(s.key);
    } else {
      MoreThanValue(value);
    }
  }

  lemma {:induction false} MoreThanValue(value: string)
    requires Trim(value) == value
    ensures Trim(": " + value) != value
  {
    var text := ": " + value;
    if value == "" {
      assert text == ": ";
      TrimKeepsStart(": ");
    } else {
      var k, m := TrimCuts(value);
      assert k == 0 && m == |value| by { assert |value[k..m]| == m - k; }
      assert text[|text| - 1] == value[|value| - 1];
      NothingTrimmed(text);
    }
  }

  predicate Lacks(headers: map<string, string>, value: string) {
    "" in headers ==> headers[""] != value
  }

  /** With a nameless header among others the map read back lacks its value. */
  lemma {:induction false} NamelessNotRead(headers: map<string, string>, start: map<string, string>, order: seq<string>)
    requires (forall name | name in order :: name in headers) && Stored(headers) && "" in headers
    requires Lacks(start, headers[""])
    ensures var read := ReadHeaders(Block(HeaderLines(headers, order)), start);
            read.Some? && Lacks(read.value, headers[""])
    decreases |order|
  {
    hide *;
    if order == [] {
      NothingToRead(headers, start);
    } else {
      var name, value, rest := order[0], headers[order[0]], order[1..];
      assert name in order && forall n | n in rest :: n in order;
      StoredAt(headers, name);
      BlockFirst(headers, order);
      StoredLineReturnless(name, value);
      var line := HeaderLineText(name, value);
      ReadOneLine(line, Block(HeaderLines(headers, rest)), start);
      var s := ScanLine(LINE_SCAN, line);
      if name == "" {
        NamelessIsLost(value);
      } else {
        StoredLineScans(name, value);
      }
      StillLacks(start, Trim(s.key), Trim(s.buffer), headers[""]);
      NamelessNotRead(headers, start[Trim(s.key) := Trim(s.buffer)], rest);
    }
  }

  lemma {:induction false} NothingToRead(headers: map<string, string>, start: map<string, string>)
    ensures ReadHeaders(Block(HeaderLines(headers, [])), start) == Some(start)
  {
  }

  lemma {:induction false} StoredAt(headers: map<string, string>, name: string)
    requires Stored(headers) && name in headers
    ensures Storable(name) && NoLateColon(name) && Storable(headers[name])
  {
    hide Storable, NoLateColon;
  }

  lemma {:induction false} StillLacks(headers: map<string, string>, name: string, read: string, value: string)
    requires Lacks(headers, value) && (name == "" ==> read != value)
    ensures Lacks(headers[name := read], value)
  {
  }

  lemma {:induction false} BlockFirst(headers: map<string, string>, order: seq<string>)
    requires order != [] && forall name | name in order :: name in headers
    ensures order[0] in headers && forall name | name in order[1..] :: name in headers
    ensures Block(HeaderLines(headers, order))
         == HeaderLineText(order[0], headers[order[0]]) + ("\r\n" + Block(HeaderLines(headers, order[1..])))
  {
    hide HeaderLineText;
    assert order[0] in order && forall name | name in order[1..] :: name in order;
    var line, more := HeaderLineText(order[0], headers[order[0]]), HeaderLines(headers, order[1..]);
    assert ([line] + more)[1..] == more;
  }

  lemma {:induction false} ReadOneLine(line: string, rest: string, start: map<string, string>)
    requires '\r' !in line
    ensures var s := ScanLine(LINE_SCAN, line);
            ReadHeaders(line + ("\r\n" + rest), start) == ReadHeaders(rest, start[Trim(s.key) := Trim(s.buffer)])
  {
    hide ScanLine, Trim, ReturnAt;
    LineEndsAt(line, rest);
  }

  lemma {:induction false} StoredLineReturnless(name: string, value: string)
    requires Storable(name) && Storable(value)
    ensures '\r' !in HeaderLineText(name, value) && HeaderLineText(name, value) != ""
  {
    hide Trim;
  }

  lemma {:induction false} StoredLineScans(name: string, value: string)
    requires Storable(name) && NoLateColon(name) && name != "" && Storable(value)
    ensures var s := ScanLine(LINE_SCAN, HeaderLineText(name, value)); Trim(s.key) == name
  {
    hide ScanLine, Trim, HeaderLineText, NoLateColon;
    ScanHeaderLine(name, value);
  }

  lemma {:induction false} StoredLinesReturnless(headers: map<string, string>, order: seq<string>)
    requires (forall name | name in order :: name in headers) && Stored(headers)
    ensures Returnless(HeaderLines(headers, order))
    ensures forall i | 0 <= i < |HeaderLines(headers, order)| :: HeaderLines(headers, order)[i] != ""
    decreases |order|
  {
    hide HeaderLineText, Storable, NoLateColon;
    if order != [] {
      assert order[0] in order && forall name | name in order[1..] :: name in order;
      StoredLineReturnless(order[0], headers[order[0]]);
      StoredLinesReturnless(headers, order[1..]);
    }
  }

  // ----- the round trip -----

  lemma {:induction false} NamelessReplyIsLost(code: int, headers: map<string, string>, order: seq<string>,
                                               body: string)
    requires Lists(order, headers) && Stored(headers) && "" in headers
    ensures var read := ReadReply(ReplyText(code, headers, order, body));
            read.Some? ==> read.value.headers != headers
  {
    hide *;
    ReplyTextIs(code, headers, order, body);
    StatusLineReads(code);
    var status, more := StatusLine(code), HeaderLines(headers, order);
    StoredLinesReturnless(headers, order);
    ReplyIsRead(status, more, body);
    NothingLacks(headers[""]);
    NamelessNotRead(headers, map[], order);
    Assembled(status, Block(more), body, ReadHeaders(Block(more), map[]).value);
    LackingDiffers(headers, ReadHeaders(Block(more), map[]).value);
  }

  lemma {:induction false} NothingLacks(value: string)
    ensures Lacks(map[], value)
  {
  }

  lemma {:induction false} LackingDiffers(headers: map<string, string>, read: map<string, string>)
    requires "" in headers && Lacks(read, headers[""])
    ensures read != headers
  {
  }

  lemma {:induction false} GoodIsStored(headers: map<string, string>)
    ensures GoodHeaders(headers) <==> Stored(headers) && "" !in headers
  {
    hide Trim, NoLateColon;
  }

  /** Reply round trip: the bytes of a reply are read back with its headers and its body, and with
      the code that was shown, if and only if its headers are good. */
  lemma {:induction false} WriteThenRead(code: int, headers: map<string, string>, order: seq<string>, body: string)
    requires Lists(order, headers)
    ensures ReadReply(ReplyText(code, headers, order, body)) == Some(Reply(Some(ShownCode(code)), headers, body)) <==>
            GoodHeaders(headers)
    ensures ShownCode(code) == code <==> Phrase(code).Some?
  {
    hide *;
    GoodIsStored(headers);
    ShownIff(code);
    var text := ReplyText(code, headers, order, body);
    if GoodHeaders(headers) {
      GoodReplyReads(code, headers, order, body);
    } else {
      if ReadReply(text).Some? { ReplyIsStored(text); }
      if Stored(headers) { NamelessReplyIsLost(code, headers, order, body); }
    }
  }

  /** A name with a colon inside is cut there, so its header is not read back. */
  lemma {:induction false} ColonIsLost(code: int, body: string)
    ensures var headers := map["a:b" := "c"];
            && Trim(ScanLine(LINE_SCAN, HeaderLineText("a:b", "c")).key) == "a"
            && ReadReply(ReplyText(code, headers, ["a:b"], body)) != Some(Reply(Some(ShownCode(code)), headers, body))
  {
    hide ReadReply, ReplyText, ShownCode, ScanLine;
    var headers := map["a:b" := "c"];
    LateColonScans();
    NothingTrimmed("a");
    assert !GoodHeaders(headers) by { assert "a:b"[1] == ':' && !GoodName("a:b"); }
    assert Lists(["a:b"], headers);
    WriteThenRead(code, headers, ["a:b"], body);
  }

  lemma {:induction false} LateColonScans()
    ensures ScanLine(LINE_SCAN, HeaderLineText("a:b", "c")).key == "a"
  {
    var line := HeaderLineText("a:b", "c");
    assert line == "a:b: c";
    assert line[1..] == ":b: c" && line[1..][1..] == "b: c";
    assert ScanChar(LINE_SCAN, 'a') == LineScan("a", "", false, true) by { assert "" + ['a'] == "a"; }
    assert ScanLine(LINE_SCAN, line) == ScanLine(LineScan("a", "", false, true), ":b: c");
    KeyStays(LineScan("", "a", true, false), "b: c");
  }
}
