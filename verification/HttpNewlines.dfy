/** What the session's treatment of newlines does to a request: for texts with the line ends of the
    standard, and for texts with bare newlines. */
module HttpNewlines {
  import opened Shared
  import opened HttpRequest
  import opened HttpGrammar
  import opened HttpLanguage
  import opened HttpSession

  // ----- a sentence with bare newlines -----

  function BareLineText(line: HeaderLine): string {
    match line
    case Field(name, value) => name + ": " + value + "\n"
    case Folded(blanks, value) => blanks + value + "\n"
  }

  function BareLinesText(lines: seq<HeaderLine>): string {
    if lines == [] then "" else BareLineText(lines[0]) + BareLinesText(lines[1..])
  }

  /** The request line without its line end. */
  function RequestHead(s: Sentence): string {
    s.word + " " + s.uri + " HTTP/" + s.major + "." + s.minor
  }

  /** The same sentence as a client that only knows newlines writes it. */
  function BareText(s: Sentence): string {
    RequestHead(s) + "\n" + BareLinesText(s.lines) + "\n"
  }

  // ----- rewriting newlines -----

  lemma {:induction false} ReplaceConcat(a: string, b: string)
    ensures ReplaceNewlines(a + b) == ReplaceNewlines(a) + ReplaceNewlines(b)
    decreases |b|
  {
    if b == "" {
      assert a + b == a;
    } else {
      var n := |b| - 1;
      assert (a + b)[..|a| + n] == a + b[..n];
      ReplaceConcat(a, b[..n]);
    }
  }

  lemma {:induction false} NothingReplaced(text: string)
    requires forall i | 0 <= i < |text| :: text[i] != '\n'
    ensures ReplaceNewlines(text) == text
    decreases |text|
  {
    if text != "" {
      var n := |text| - 1;
      assert forall i | 0 <= i < n :: text[..n][i] == text[i];
      NothingReplaced(text[..n]);
      SplitLast(text);
    }
  }

  lemma {:induction false} NewlineReplaced(text: string)
    requires '\n' !in text
    ensures ReplaceNewlines(text + "\n") == text + "\r\n"
  {
    NothingReplaced(text);
    assert (text + "\n")[..|text|] == text;
  }

  /** No line of a sentence has a newline or a carriage return inside. */
  lemma {:induction false} HeadIsOneLine(s: Sentence)
    requires ValidSentence(s)
    ensures '\n' !in RequestHead(s) && '\r' !in RequestHead(s) && RequestHead(s) != ""
    ensures RequestLineText(s) == RequestHead(s) + "\r\n"
  {
    hide IsTokenByte, IsUriChar, IsDecimal, RequestLineText, ValidLines;
    LineEndsAreOut();
    var version := " HTTP/";
    assert '\n' !in version && '\r' !in version;
    HeadGlue(s);
  }

  lemma {:induction false} HeadGlue(s: Sentence)
    ensures RequestLineText(s) == RequestHead(s) + "\r\n"
  {
  }

  lemma {:induction false} LineEndsAreOut()
    ensures !IsTokenByte('\n') && !IsUriChar('\n') && !IsDecimal('\n') && !IsValueChar('\n') && !IsBlank('\n')
    ensures !IsTokenByte('\r') && !IsUriChar('\r') && !IsDecimal('\r')
  {
  }

  lemma {:induction false} LineReplaced(line: HeaderLine)
    requires ValidLine(line)
    ensures ReplaceNewlines(BareLineText(line)) == LineText(line)
  {
    hide IsTokenByte, IsValueChar, IsBlank;
    LineEndsAreOut();
    match line {
      case Field(name, value) => NewlineReplaced(name + ": " + value);
      case Folded(blanks, value) => NewlineReplaced(blanks + value);
    }
  }

  lemma {:induction false} LinesReplaced(lines: seq<HeaderLine>)
    requires forall i | 0 <= i < |lines| :: ValidLine(lines[i])
    ensures ReplaceNewlines(BareLinesText(lines)) == LinesText(lines)
    decreases |lines|
  {
    hide ValidLine, BareLineText, LineText;
    if lines != [] {
      LineReplaced(lines[0]);
      LinesReplaced(lines[1..]);
      ReplaceConcat(BareLineText(lines[0]), BareLinesText(lines[1..]));
    }
  }

  lemma {:induction false} PartsReplaced(head: string, lines: string)
    requires '\n' !in head
    ensures ReplaceNewlines(head + "\n" + lines + "\n") == head + "\r\n" + ReplaceNewlines(lines) + "\r\n"
  {
    hide ReplaceNewlines;
    NewlineReplaced(head);
    NewlineReplaced("");
    assert "" + "\n" == "\n" && "" + "\r\n" == "\r\n";
    ReplaceConcat(head + "\n", lines);
    ReplaceConcat(head + "\n" + lines, "\n");
  }

  lemma {:induction false} TextParts(s: Sentence)
    requires RequestLineText(s) == RequestHead(s) + "\r\n"
    ensures Text(s) == RequestHead(s) + "\r\n" + LinesText(s.lines) + "\r\n"
  {
    hide RequestHead, RequestLineText, LinesText;
  }

  lemma {:induction false} BareTextReplaced(s: Sentence)
    requires ValidSentence(s)
    ensures ReplaceNewlines(BareText(s)) == Text(s)
  {
    HeadIsOneLine(s);
    LinesReplaced(s.lines);
    hide RequestHead, RequestLineText, LinesText, ReplaceNewlines, Text, BareLinesText;
    PartsReplaced(RequestHead(s), BareLinesText(s.lines));
    TextParts(s);
  }

  /** The tail that is dropped never reaches into a text that ends with a newline. */
  lemma {:induction false} TailStays(text: string, body: string) returns (kept: string)
    requires text != "" && text[|text| - 1] == '\n'
    ensures DropTail(text + body) == text + kept
    decreases |body|
  {
    var data := text + body;
    if body == "" || body[|body| - 1] == '\n' {
      assert data[|data| - 1] == '\n';
      kept := body;
    } else {
      assert data[..|data| - 1] == text + body[..|body| - 1];
      kept := TailStays(text, body[..|body| - 1]);
    }
  }

  // ----- texts that start with a request line -----

  predicate StartsLineEnd(text: string) {
    text != "" && (text[0] == '\r' || text[0] == '\n')
  }

  /** The first line of an accepted text ends with CRLF. */
  lemma {:induction false} FirstLineEnds(r: Request, text: string, head: string, tail: string)
    requires r.headers == map[] && Run(FRESH, r, text).verdict == Good
    requires text == head + tail && '\r' !in head && '\n' !in head
    requires StartsLineEnd(tail)
    ensures "\r\n" <= tail
  {
    hide Run, ValidSentence, RequestHead, RequestLineText, LinesText;
    var s := AcceptedIsSentence(r, text);
    HeadIsOneLine(s);
    var h, rest := RequestHead(s), Run(FRESH, r, text).rest;
    var more := LinesText(s.lines) + "\r\n" + rest;
    Regroup(h + "\r\n", LinesText(s.lines) + "\r\n", rest);
    Regroup(h, "\r\n", more);
    StartsWithCrlf(more);
    SameHead(h, "\r\n" + more, head, tail);
  }

  lemma {:induction false} StartsWithCrlf(more: string)
    ensures StartsLineEnd("\r\n" + more) && "\r\n" <= "\r\n" + more
  {
  }

  lemma {:induction false} HeadNotLonger(a: string, b: string, c: string, d: string)
    requires a + b == c + d && StartsLineEnd(d) && '\r' !in a && '\n' !in a
    ensures |a| <= |c|
  {
    assert (c + d)[|c|] == d[0];
    assert forall i | 0 <= i < |a| :: (a + b)[i] == a[i];
  }

  lemma {:induction false} SameHead(a: string, b: string, c: string, d: string)
    requires a + b == c + d && StartsLineEnd(b) && StartsLineEnd(d)
    requires '\r' !in a && '\n' !in a && '\r' !in c && '\n' !in c
    ensures a == c && b == d
  {
    HeadNotLonger(a, b, c, d);
    HeadNotLonger(c, d, a, b);
    var text := a + b;
    assert text[..|a|] == a && text[..|a|] == c && text[|a|..] == b && text[|a|..] == d;
  }

  lemma {:induction false} TwiceIsBad(r: Request, data: string)
    requires |data| >= 2 && Run(FRESH, r, Formatted(data)).verdict != Good
    ensures ReadTwice(r, data).verdict == Bad
  {
    hide Run, Formatted;
    AtMostOneRetry(r, data);
  }

  // ----- the two kinds of clients -----

  lemma {:induction false} TextEnds(s: Sentence)
    ensures |Text(s)| >= 2 && Text(s)[|Text(s)| - 1] == '\n'
  {
    hide RequestLineText, LinesText;
  }

  /** A request with the standard's line ends and a body is good if and only if the whole read ends
      with CRLF: otherwise its line ends are rewritten a second time, to CR CR LF. */
  lemma {:induction false} StandardRequestIff(r: Request, s: Sentence, body: string)
    requires ValidSentence(s) && r.headers == map[]
    ensures ReadTwice(r, Text(s) + body).verdict == if EndsWith(Text(s) + body, "\r\n") then Good else Bad
  {
    hide Run, ValidSentence, DropTail, ReplaceNewlines, LinesText, RequestLineText, Meaning;
    var data := Text(s) + body;
    TextEnds(s);
    if EndsWith(data, "\r\n") {
      SentenceAccepted(r, s, body);
    } else {
      HeadIsOneLine(s);
      hide RequestHead;
      var kept := TailStays(Text(s), body);
      var head, more := RequestHead(s), LinesText(s.lines) + "\r\n" + kept;
      assert Text(s) + kept == head + "\r\n" + more;
      TwiceReplaced(head, more);
      var tail := "\r\r\n" + (ReplaceNewlines(more) + "\r\n");
      assert Formatted(data) == head + tail;
      assert tail[0] == '\r' && tail[1] == '\r';
      if Run(FRESH, r, Formatted(data)).verdict == Good {
        FirstLineEnds(r, Formatted(data), head, tail);
        assert false;
      }
      TwiceIsBad(r, data);
    }
  }

  /** A request whose body is one letter is refused. */
  lemma {:induction false} BodyIsRefused(r: Request)
    requires r.headers == map[]
    ensures var s := Sentence("POST", "/", "1", "1", []);
            ValidSentence(s) && ReadTwice(r, Text(s) + "x").verdict == Bad
  {
    hide ReadTwice, Text;
    var s := Sentence("POST", "/", "1", "1", []);
    StandardRequestIff(r, s, "x");
    assert (Text(s) + "x")[|Text(s) + "x"| - 1] == 'x';
  }

  lemma {:induction false} TwiceReplaced(head: string, more: string)
    requires '\n' !in head
    ensures ReplaceNewlines(head + "\r\n" + more) == head + "\r\r\n" + ReplaceNewlines(more)
  {
    assert head + "\r\n" == head + "\r" + "\n";
    NewlineReplaced(head + "\r");
    ReplaceConcat(head + "\r\n", more);
    assert head + "\r" + "\r\n" == head + "\r\r\n";
  }

  /** A request with bare newlines and a body is good if and only if the whole read does not end with
      CRLF; it is then read with the meaning of the sentence. */
  lemma {:induction false} BareRequestIff(r: Request, s: Sentence, body: string)
    requires ValidSentence(s) && r.headers == map[]
    ensures ReadTwice(r, BareText(s) + body).verdict == if EndsWith(BareText(s) + body, "\r\n") then Bad else Good
    ensures !EndsWith(BareText(s) + body, "\r\n") ==>
              Run(FRESH, r, Formatted(BareText(s) + body)).request == Meaning(r, s)
  {
    hide Run, ValidSentence, DropTail, ReplaceNewlines, LinesText, RequestLineText, Meaning, Text;
    var data := BareText(s) + body;
    BareEnds(s);
    if EndsWith(data, "\r\n") {
      BareAsItIsBad(r, s, body);
      TwiceIsBad(r, data);
    } else {
      var kept := TailStays(BareText(s), body);
      BareTextReplaced(s);
      ReplaceConcat(BareText(s), kept);
      assert Formatted(data) == Text(s) + (ReplaceNewlines(kept) + "\r\n");
      SentenceAccepted(r, s, ReplaceNewlines(kept) + "\r\n");
    }
  }

  /** A bare text that is not reformatted. */
  lemma {:induction false} BareAsItIsBad(r: Request, s: Sentence, body: string)
    requires r.headers == map[] && ValidSentence(s) && EndsWith(BareText(s) + body, "\r\n")
    ensures Run(FRESH, r, Formatted(BareText(s) + body)).verdict != Good
  {
    hide Run, ValidSentence, LinesText, RequestLineText, Text, DropTail, ReplaceNewlines;
    HeadIsOneLine(s);
    hide RequestHead;
    var data := BareText(s) + body;
    var tail := "\n" + (BareLinesText(s.lines) + "\n" + body);
    assert data == RequestHead(s) + tail;
    assert tail[0] == '\n';
    if Run(FRESH, r, Formatted(data)).verdict == Good {
      FirstLineEnds(r, data, RequestHead(s), tail);
    }
  }

  lemma {:induction false} BareEnds(s: Sentence)
    ensures |BareText(s)| >= 2 && BareText(s)[|BareText(s)| - 1] == '\n'
  {
    hide RequestHead, BareLinesText;
  }
}
