/** Which characters the tokenizer cuts a text at, said character by character, and what follows for
    files laid out in another way than the printer does it. */
module ConfigLayout {
  import opened Shared
  import opened ConfigLexer
  import opened ConfigGrammar
  import opened ConfigText
  import opened ConfigEnding
  import opened ConfigLookup

  // ----- words -----

  /** None of the six characters that end a word, and none in front that starts something else. */
  predicate IsPlainWord(t: string) {
    && t != "" && t[0] != '#' && t[0] != '"' && t[0] != '\'' && t[0] != '\r'
    && forall i | 0 <= i < |t| ::
         t[i] != ' ' && t[i] != '\t' && t[i] != '\n' && t[i] != ';' && t[i] != '{' && t[i] != '}'
  }

  lemma {:induction false} PlainWordIsBare(t: string)
    ensures IsPlainWord(t) <==> BareWord(t)
  {
    if t != "" {
      assert IsPlainWord(t) ==> !EndsWord(t[0]);
    }
  }

  /** A word ends before each of the six characters and takes in every other one. */
  lemma {:induction false} WordEndsBefore(t: string, c: char, rest: string)
    requires IsPlainWord(t)
    ensures if c == ' ' || c == '\t' || c == '\n' || c == ';' || c == '{' || c == '}'
            then Lex(t + ([c] + rest)) == Scan(Normal, t, [c] + rest)
            else Lex(t + [c] + " ") == Scan(Normal, t + [c], " ")
  {
    PlainWordIsBare(t);
    if EndsWord(c) {
      LexBare(t, [c] + rest);
    } else {
      WordGrows(t, c);
      LexBare(t + [c], " ");
    }
  }

  /** Before a token, four characters are skipped. */
  lemma {:induction false} BlankIsSkipped(c: char, rest: string)
    requires c == ' ' || c == '\t' || c == '\n' || c == '\r'
    ensures Lex([c] + rest) == Lex(rest)
  {
    LexBlank([c], rest);
  }

  /** The three marks, and a word in quotes. */
  lemma {:induction false} MarksAreTokens(rest: string)
    ensures Lex(";" + rest) == Scan(StatementEnd, ";", rest)
    ensures Lex("{" + rest) == Scan(StartBlock, "{", rest)
    ensures Lex("}" + rest) == Scan(EndBlock, "}", rest)
  {
    assert (";" + rest)[0] == ';' && (";" + rest)[1..] == rest;
    assert ("{" + rest)[0] == '{' && ("{" + rest)[1..] == rest;
    assert ("}" + rest)[0] == '}' && ("}" + rest)[1..] == rest;
  }

  lemma {:induction false} QuotesEnclose(body: string, rest: string)
    ensures '"' !in body ==> Lex("\"" + body + "\"" + rest) == Scan(Normal, "\"" + body + "\"", rest)
    ensures '\'' !in body ==> Lex("'" + body + "'" + rest) == Scan(Normal, "'" + body + "'", rest)
  {
    hide LexFrom;
    if '"' !in body {
      assert ("\"" + body + "\"")[1..|body| + 1] == body;
      LexQuoted("\"" + body + "\"", '"', rest);
    }
    if '\'' !in body {
      assert ("'" + body + "'")[1..|body| + 1] == body;
      LexQuoted("'" + body + "'", '\'', rest);
    }
  }

  // ----- any layout -----

  /** The position of the first line end of either kind, or the length. */
  function LineEndAt(s: string): (n: nat)
    ensures n <= |s|
    ensures forall i | 0 <= i < n :: s[i] != '\n' && s[i] != '\r'
    ensures n < |s| ==> s[n] == '\n' || s[n] == '\r'
  {
    if s == "" || s[0] == '\n' || s[0] == '\r' then 0 else 1 + LineEndAt(s[1..])
  }

  /** White space and whole comments. */
  predicate IsGap(s: string)
    decreases |s|
  {
    || s == ""
    || ((s[0] == ' ' || s[0] == '\t' || s[0] == '\n' || s[0] == '\r') && IsGap(s[1..]))
    || (s[0] == '#' && LineEndAt(s) < |s| && IsGap(s[LineEndAt(s) + 1..]))
  }

  function Spelled(t: Token): string {
    match t
    case Word(text) => text
    case Semicolon => ";"
    case Open => "{"
    case Close => "}"
  }

  /** Tokens with a gap before each and one after the last. */
  function Spell(ts: seq<Token>, gaps: seq<string>): string
    requires |gaps| == |ts| + 1
    decreases |ts|
  {
    if ts == [] then gaps[0] else gaps[0] + (Spelled(ts[0]) + Spell(ts[1..], gaps[1..]))
  }

  /** A word is followed by a space, a tab or a newline, or straight by a mark. */
  predicate IsLayout(ts: seq<Token>, gaps: seq<string>) {
    && |gaps| == |ts| + 1
    && (forall i | 0 <= i < |gaps| :: IsGap(gaps[i]))
    && forall i | 0 <= i < |ts| && ts[i].Word? ::
         if gaps[i + 1] == "" then i + 1 < |ts| && !ts[i + 1].Word?
         else gaps[i + 1][0] == ' ' || gaps[i + 1][0] == '\t' || gaps[i + 1][0] == '\n'
  }

  lemma {:induction false} GapIsSkipped(gap: string, rest: string)
    requires IsGap(gap)
    ensures Tokenize(gap + rest) == Tokenize(rest)
    decreases |gap|
  {
    hide Tokenize, LineEndAt;
    if gap == "" {
      assert gap + rest == rest;
    } else if gap[0] == '#' {
      var n := LineEndAt(gap);
      var body, tail := gap[1..n], gap[n + 1..];
      assert gap[..n][1..] == body;
      assert gap + rest == "#" + (body + ([gap[n]] + (tail + rest)));
      assert '\n' !in body && '\r' !in body;
      CommentIsSkipped(body, gap[n], tail + rest);
      GapIsSkipped(tail, rest);
    } else {
      assert gap + rest == [gap[0]] + (gap[1..] + rest);
      assert AllBlank([gap[0]]);
      TokenizeBlank([gap[0]], gap[1..] + rest);
      GapIsSkipped(gap[1..], rest);
    }
  }

  lemma {:induction false} SpellStart(ts: seq<Token>, gaps: seq<string>)
    requires ts != [] && ts[0].Word? && IsLayout(ts, gaps)
    ensures var tail := Spell(ts[1..], gaps[1..]); tail != "" && EndsWord(tail[0])
  {
    hide IsGap;
    var more := gaps[1..];
    assert more[0] == gaps[1];
    if gaps[1] == "" {
      assert ts[1..][0] == ts[1];
      var mark := Spelled(ts[1]);
      assert Spell(ts[1..], more) == "" + (mark + Spell(ts[1..][1..], more[1..]));
      assert Spell(ts[1..], more)[0] == mark[0];
    } else {
      assert Spell(ts[1..], more)[0] == gaps[1][0];
    }
  }

  lemma {:induction false} LayoutTail(ts: seq<Token>, gaps: seq<string>)
    requires ts != [] && IsLayout(ts, gaps)
    ensures IsLayout(ts[1..], gaps[1..])
  {
    hide IsGap;
  }

  /** However tokens are laid out, they are read back. */
  lemma {:induction false} TokenizeSpelled(ts: seq<Token>, gaps: seq<string>)
    requires ValidTokens(ts) && IsLayout(ts, gaps)
    ensures Tokenize(Spell(ts, gaps)) == Some(ts)
    decreases |ts|
  {
    hide Tokenize, IsGap, ValidWord, EndsWord;
    assert IsGap(gaps[0]);
    if ts == [] {
      GapIsSkipped(gaps[0], "");
      assert gaps[0] + "" == gaps[0];
      assert Tokenize("") == Some([]) by { TokenizeNothing(); }
    } else {
      var tail := Spell(ts[1..], gaps[1..]);
      GapIsSkipped(gaps[0], Spelled(ts[0]) + tail);
      LayoutTail(ts, gaps);
      TokenizeSpelled(ts[1..], gaps[1..]);
      assert [ts[0]] + ts[1..] == ts;
      if ts[0].Word? {
        SpellStart(ts, gaps);
        TokenizeWord(ts[0].text, tail);
      } else {
        TokenizeMark(Spelled(ts[0]), ts[0], tail);
      }
    }
  }

  lemma {:induction false} TokenizeNothing()
    ensures Tokenize("") == Some([])
  {
  }

  lemma {:induction false} YieldIsValid(c: Config)
    requires Printable(c)
    ensures ValidTokens(Yield(c))
    decreases c, 0
  {
    hide ValidWord;
    if c != [] {
      var init, last := c[..|c| - 1], c[|c| - 1];
      assert last in c && forall s | s in init :: s in c;
      YieldIsValid(init);
      StatementYieldIsValid(last);
    }
  }

  lemma {:induction false} StatementYieldIsValid(s: Statement)
    requires Printable([s])
    ensures ValidTokens(StatementYield(s))
    decreases s, 1
  {
    hide ValidWord;
    assert s in [s];
    assert ValidTokens(Words(s.tokens));
    if s.block.Block? { YieldIsValid(s.block.statements); }
  }

  /** A printable tree is read back from its sentence in any layout, comments included. */
  lemma {:induction false} AnyLayoutParses(c: Config, gaps: seq<string>)
    requires Printable(c) && IsLayout(Yield(c), gaps)
    ensures Parse([], Spell(Yield(c), gaps)) == Some(c)
  {
    hide Tokenize, Printable, Derivable, Yield, Spell, Parse;
    hide IsGap;
    YieldIsValid(c);
    PrintableIsDerivable(c);
    TokenizeSpelled(Yield(c), gaps);
    ParseIffGrammar(Spell(Yield(c), gaps), c);
  }

  /** The layout with a tab between neighbouring words and nothing anywhere else. */
  function TightGaps(ts: seq<Token>): seq<string> {
    seq(|ts| + 1, i requires 0 <= i <= |ts| =>
      if 0 < i < |ts| && ts[i - 1].Word? && ts[i].Word? then "\t" else "")
  }

  function PrintTight(c: Config): string {
    Spell(Yield(c), TightGaps(Yield(c)))
  }

  /** The sentence of a tree has no word at its end. */
  lemma {:induction false} YieldEnds(c: Config)
    ensures c != [] ==> Yield(c) != [] && !Yield(c)[|Yield(c)| - 1].Word?
  {
    hide Yield;
    if c != [] { YieldLast(c); }
  }

  lemma {:induction false} YieldLast(c: Config)
    requires c != []
    ensures Yield(c) == Yield(c[..|c| - 1]) + StatementYield(c[|c| - 1])
    ensures var ts := StatementYield(c[|c| - 1]); ts != [] && !ts[|ts| - 1].Word?
  {
  }

  /** Second printer: what it writes is read back as well. */
  lemma {:induction false} PrintTightThenParse(c: Config)
    requires Printable(c)
    ensures Parse([], PrintTight(c)) == Some(c)
  {
    hide Yield, Printable, Parse, Spell;
    var ts := Yield(c);
    YieldEnds(c);
    assert c == [] ==> ts == [] by { NothingYields(); }
    TightIsLayout(ts);
    AnyLayoutParses(c, TightGaps(ts));
  }

  lemma {:induction false} TightIsLayout(ts: seq<Token>)
    requires ts == [] || !ts[|ts| - 1].Word?
    ensures IsLayout(ts, TightGaps(ts))
  {
    TabIsGap();
    hide IsGap;
    var gaps := TightGaps(ts);
    forall i | 0 <= i < |ts| && ts[i].Word?
      ensures if gaps[i + 1] == "" then i + 1 < |ts| && !ts[i + 1].Word? else gaps[i + 1][0] == '\t'
    {
      if i + 1 < |ts| && ts[i + 1].Word? { assert gaps[i + 1] == "\t"; } else { assert gaps[i + 1] == ""; }
    }
  }

  lemma {:induction false} TabIsGap()
    ensures IsGap("\t") && IsGap("")
  {
    assert "\t"[1..] == "";
  }

  lemma {:induction false} NothingYields()
    ensures Yield([]) == []
  {
  }

  // ----- what printed text looks like -----

  function Spaces(n: nat): string {
    seq(n, _ => ' ')
  }

  function Spaced(words: seq<string>): string {
    if words == [] then "" else if |words| == 1 then words[0] else words[0] + (" " + Spaced(words[1..]))
  }

  /** A statement on a line of its own, two spaces in for each block around it; a block on the lines
      after it, with a brace at the end of its first and alone on its last line. */
  function PrintedLines(c: Config, depth: nat): seq<string>
    decreases c
  {
    if c == [] then []
    else
      var start := Spaces(2 * depth) + Spaced(c[0].tokens);
      (match c[0].block
       case NoBlock => [start + ";"]
       case Block(inner) => [start + " {"] + PrintedLines(inner, depth + 1) + [Spaces(2 * depth) + "}"])
      + PrintedLines(c[1..], depth)
  }

  function EndedLines(lines: seq<string>): string {
    if lines == [] then "" else lines[0] + ("\n" + EndedLines(lines[1..]))
  }

  lemma {:induction false} IndentIsSpaces(depth: nat)
    ensures Indent(depth) == Spaces(2 * depth)
  {
    if depth > 0 { IndentIsSpaces(depth - 1); }
  }

  lemma {:induction false} SpacedLast(words: seq<string>, last: string)
    ensures Spaced(words + [last]) == if words == [] then last else Spaced(words) + (" " + last)
    decreases |words|
  {
    if words != [] {
      assert (words + [last])[1..] == words[1..] + [last];
      SpacedLast(words[1..], last);
      if |words| > 1 {
        var first, more, end := words[0], Spaced(words[1..]), " " + last;
        assert first + (" " + (more + end)) == first + (" " + more) + end;
      }
    }
  }

  lemma {:induction false} JoinIsSpaced(words: seq<string>)
    ensures Join(words) == Spaced(words)
    decreases |words|
  {
    if words != [] {
      var init := words[..|words| - 1];
      SplitLast(words);
      JoinLast(words);
      JoinIsSpaced(init);
      SpacedLast(init, words[|words| - 1]);
      Regroup(Join(init), " ", words[|words| - 1]);
    }
  }

  lemma {:induction false} EndedConcat(a: seq<string>, b: seq<string>)
    ensures EndedLines(a + b) == EndedLines(a) + EndedLines(b)
    decreases |a|
  {
    if a == [] {
      assert a + b == b;
    } else {
      assert (a + b)[1..] == a[1..] + b;
      EndedConcat(a[1..], b);
    }
  }

  lemma {:induction false} OneEnded(line: string)
    ensures EndedLines([line]) == line + "\n"
  {
    assert [line][1..] == [];
    assert "\n" + "" == "\n";
  }

  lemma {:induction false} PrintFirst(c: Config, depth: nat)
    requires c != []
    ensures Print(c, depth) == PrintStatement(c[0], depth) + Print(c[1..], depth)
    decreases |c|
  {
    hide PrintStatement;
    var init, last := c[..|c| - 1], c[|c| - 1];
    if init == [] {
      assert c[1..] == [];
      assert PrintStatement(last, depth) + "" == "" + PrintStatement(last, depth);
    } else {
      PrintFirst(init, depth);
      assert c[1..][..|c| - 2] == init[1..];
      Regroup(PrintStatement(c[0], depth), Print(init[1..], depth), PrintStatement(last, depth));
    }
  }

  lemma {:induction false} StatementIsLines(s: Statement, depth: nat)
    ensures PrintStatement(s, depth) == EndedLines(PrintedLines([s], depth))
    decreases s, 1
  {
    hide Indent, Join, Spaced, Spaces, Print, EndedLines;
    IndentIsSpaces(depth);
    JoinIsSpaced(s.tokens);
    var start := Spaces(2 * depth) + Spaced(s.tokens);
    assert [s][1..] == [];
    match s.block {
      case NoBlock =>
        assert PrintedLines([s], depth) == [start + ";"] by { assert [start + ";"] + [] == [start + ";"]; }
        OneEnded(start + ";");
      case Block(inner) =>
        var lines, end := PrintedLines(inner, depth + 1), Spaces(2 * depth) + "}";
        assert PrintedLines([s], depth) == [start + " {"] + lines + [end];
        PrintIsLines(inner, depth + 1);
        EndedConcat([start + " {"] + lines, [end]);
        EndedConcat([start + " {"], lines);
        OneEnded(start + " {");
        OneEnded(end);
        BlockGlue(start, Print(inner, depth + 1), Spaces(2 * depth));
    }
  }

  lemma {:induction false} BlockGlue(start: string, inner: string, spaces: string)
    ensures start + (" {\n" + inner + spaces + "}") + "\n" == start + " {" + "\n" + inner + (spaces + "}" + "\n")
  {
    assert " {\n" == " {" + "\n";
  }

  /** The printer writes exactly these lines. */
  lemma {:induction false} PrintIsLines(c: Config, depth: nat)
    ensures Print(c, depth) == EndedLines(PrintedLines(c, depth))
    decreases c, 0
  {
    hide PrintStatement, EndedLines, Spaced, Spaces, Print;
    if c == [] {
      NothingPrinted(depth);
    } else {
      PrintFirst(c, depth);
      StatementIsLines(c[0], depth);
      PrintIsLines(c[1..], depth);
      assert [c[0]][1..] == [];
      assert PrintedLines(c, depth) == PrintedLines([c[0]], depth) + PrintedLines(c[1..], depth);
      EndedConcat(PrintedLines([c[0]], depth), PrintedLines(c[1..], depth));
    }
  }

  lemma {:induction false} NothingPrinted(depth: nat)
    ensures Print([], depth) == EndedLines([])
  {
  }

  // ----- one configuration in three layouts -----

  function Listen(): Config {
    [Statement(["server"], Block([Statement(["listen", "80"], NoBlock)]))]
  }

  lemma {:induction false} ListenYields()
    ensures Yield(Listen()) == [Word("server"), Token.Open, Word("listen"), Word("80"), Semicolon, Close]
  {
    var inner := Statement(["listen", "80"], NoBlock);
    assert Yield([inner]) == StatementYield(inner);
    assert StatementYield(inner) == [Word("listen"), Word("80"), Semicolon];
    assert Yield(Listen()) == StatementYield(Listen()[0]);
  }

  lemma {:induction false} ListenSpelled(a: string, b: string, c: string, d: string, e: string)
    ensures Spell([Word("server"), Token.Open, Word("listen"), Word("80"), Semicolon, Close], ["", a, b, c, d, e, ""])
         == "server" + (a + ("{" + (b + ("listen" + (c + ("80" + (d + (";" + (e + "}")))))))))
  {
    var t6 := Spell([], [""]);
    var t5 := Spell([Close], [e, ""]);
    assert t5 == e + "}" by { assert "}" + t6 == "}"; assert [Close][1..] == [] && [e, ""][1..] == [""]; }
    SpellOne(Semicolon, [Close], d, [e, ""]);
    SpellOne(Word("80"), [Semicolon, Close], c, [d, e, ""]);
    SpellOne(Word("listen"), [Word("80"), Semicolon, Close], b, [c, d, e, ""]);
    SpellOne(Token.Open, [Word("listen"), Word("80"), Semicolon, Close], a, [b, c, d, e, ""]);
    SpellOne(Word("server"), [Token.Open, Word("listen"), Word("80"), Semicolon, Close], "", [a, b, c, d, e, ""]);
  }

  lemma {:induction false} SpellOne(t: Token, ts: seq<Token>, gap: string, gaps: seq<string>)
    requires |gaps| == |ts| + 1
    ensures Spell([t] + ts, [gap] + gaps) == gap + (Spelled(t) + Spell(ts, gaps))
  {
    assert ([t] + ts)[1..] == ts && ([gap] + gaps)[1..] == gaps;
  }

  lemma {:induction false} ListenParses(a: string, b: string, c: string, d: string, e: string)
    requires IsLayout([Word("server"), Token.Open, Word("listen"), Word("80"), Semicolon, Close],
                      ["", a, b, c, d, e, ""])
    ensures Parse([], "server" + (a + ("{" + (b + ("listen" + (c + ("80" + (d + (";" + (e + "}")))))))))) ==
            Some(Listen())
  {
    hide Parse, IsLayout, Yield, Spell, IsGap;
    ListenYields();
    ListenSpelled(a, b, c, d, e);
    ListenPrintable();
    AnyLayoutParses(Listen(), ["", a, b, c, d, e, ""]);
  }

  lemma {:induction false} ListenPrintable()
    ensures Printable(Listen())
  {
    var inner: Config := [Statement(["listen", "80"], NoBlock)];
    hide ValidWord;
    assert ValidWord("server") && ValidWord("listen") && ValidWord("80") by {
      PlainWordIsBare("server");
      PlainWordIsBare("listen");
      PlainWordIsBare("80");
      ListenWords();
    }
    assert Printable(inner);
  }

  lemma {:induction false} ListenWords()
    ensures BareWord("server") ==> ValidWord("server")
    ensures BareWord("listen") ==> ValidWord("listen")
    ensures BareWord("80") ==> ValidWord("80")
  {
  }

  /** With tabs and no spaces, with a comment, and as the printer writes it; the port is found. */
  lemma {:induction false} ListenIsRead()
    ensures Parse([], "server{listen\t80;}") == Some(Listen())
    ensures Parse([], "server\n{\n#no\nlisten 80 ;\n}") == Some(Listen())
    ensures Parse([], "server {\n  listen 80;\n}\n") == Some(Listen())
    ensures Print(Listen(), 0) == "server {\n  listen 80;\n}\n"
    ensures GetConfig(Listen(), "listen") == "80"
  {
    hide Parse, Print, IsGap, Listen, GetConfig;
    ListenGaps();
    ListenTexts();
    ListenParses("", "", "\t", "", "");
    ListenParses("\n", "\n#no\n", " ", " ", "\n");
    ListenPrintable();
    PrintThenParse(Listen(), 0);
    ListenPrints();
    ListenIsFound();
  }

  lemma {:induction false} ListenGaps()
    ensures IsGap("\t") && IsGap("") && IsGap(" ") && IsGap("\n") && IsGap("\n#no\n")
  {
    assert "\t"[1..] == "" && " "[1..] == "" && "\n"[1..] == "";
    var s := "#no\n";
    assert "\n#no\n"[1..] == s;
    assert LineEndAt(s) == 3 by { assert s[..3] == "#no" && s[3] == '\n'; }
    assert s[4..] == "";
  }

  lemma {:induction false} ListenTexts()
    ensures "server" + ("" + ("{" + ("" + ("listen" + ("\t" + ("80" + ("" + (";" + ("" + "}")))))))))
         == "server{listen\t80;}"
    ensures "server" + ("\n" + ("{" + ("\n#no\n" + ("listen" + (" " + ("80" + (" " + (";" + ("\n" + "}")))))))))
         == "server\n{\n#no\nlisten 80 ;\n}"
  {
  }

  lemma {:induction false} ListenPrints()
    ensures Print(Listen(), 0) == "server {\n  listen 80;\n}\n"
  {
    hide Print, Spaces, Spaced, EndedLines;
    PrintIsLines(Listen(), 0);
    var inner: Config := [Statement(["listen", "80"], NoBlock)];
    ListenLine();
    assert inner[1..] == [] && Listen()[1..] == [];
    assert PrintedLines(inner, 1) == ["  listen 80" + ";"] + [];
    var lines := PrintedLines(Listen(), 0);
    assert lines == ["server" + " {"] + ["  listen 80" + ";"] + ["" + "}"] + [];
    assert lines == ["server" + " {"] + (["  listen 80" + ";"] + ["" + "}"]);
    EndedConcat(["server" + " {"], ["  listen 80" + ";"] + ["" + "}"]);
    EndedConcat(["  listen 80" + ";"], ["" + "}"]);
    OneEnded("server" + " {");
    OneEnded("  listen 80" + ";");
    OneEnded("" + "}");
    ListenGlue();
  }

  lemma {:induction false} ListenLine()
    ensures Spaces(2 * 1) + Spaced(["listen", "80"]) == "  listen 80"
    ensures Spaces(2 * 0) == "" && Spaces(2 * 0) + Spaced(["server"]) == "server"
  {
    assert ["listen", "80"][1..] == ["80"];
    assert Spaces(2) == "  ";
    assert "listen" + (" " + "80") == "listen 80";
  }

  lemma {:induction false} ListenGlue()
    ensures "server" + " {" + "\n" + ("  listen 80" + ";" + "\n" + ("" + "}" + "\n"))
         == "server {\n  listen 80;\n}\n"
  {
  }

  lemma {:induction false} ListenIsFound()
    ensures GetConfig(Listen(), "listen") == "80"
  {
    var inner: Config := [Statement(["listen", "80"], NoBlock)];
    assert ["listen", "80"][1..] == ["80"] && ["server"][1..] == [];
    assert FindWord(["listen", "80"], "", "listen") == Some("80");
    assert FindWord(["server"], "", "listen") == None;
    assert GetConfig(inner, "listen") == "80";
  }
}
