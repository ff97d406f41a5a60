/** Reading and printing configuration text: parsing, the printer as its inverse, and reading
    as a canonical form. */
module ConfigText {
  import opened Shared
  import opened ConfigLexer
  import opened ConfigGrammar
  import opened ConfigMachine

  /** The parse loop: a token at a time, into the machine. Comments leave the machine as it is. */
  function ParseFrom(m: Machine, input: string): Option<Config>
    requires Ready(m)
    decreases |input|
  {
    var scan := Lex(input);
    match scan.kind
    case Comment => ParseFrom(m, scan.rest)
    case Normal => ParseFrom(PushWord(m, scan.value), scan.rest)
    case StatementEnd => Continue(EndStatement(m), input, scan.rest)
    case StartBlock => Continue(OpenBlock(m), input, scan.rest)
    case EndBlock => Continue(CloseBlock(m), input, scan.rest)
    case EndOfFile => Finish(m)
    case Start => None
    case Error => None
  }

  function Continue(m: Option<Machine>, input: string, rest: string): Option<Config>
    requires m.Some? ==> Ready(m.value)
    requires |rest| < |input|
    decreases |input|, 0
  {
    if m.None? then None else ParseFrom(m.value, rest)
  }

  /** Parsing adds to what the configuration already holds. */
  function Parse(held: Config, input: string): Option<Config> {
    match ParseFrom(FRESH, input)
    case None => None
    case Some(c) => Some(held + c)
  }

  // ----- the token stream of a text -----

  /** All tokens up to the end of the text, without comments; none if a quote is not closed. */
  function Tokenize(input: string): Option<seq<Token>>
    decreases |input|
  {
    var scan := Lex(input);
    match scan.kind
    case Comment => Tokenize(scan.rest)
    case Normal => Prepend([Word(scan.value)], Tokenize(scan.rest))
    case StatementEnd => Prepend([Semicolon], Tokenize(scan.rest))
    case StartBlock => Prepend([Token.Open], Tokenize(scan.rest))
    case EndBlock => Prepend([Close], Tokenize(scan.rest))
    case EndOfFile => Some([])
    case Start => None
    case Error => None
  }

  function Prepend(ts: seq<Token>, rest: Option<seq<Token>>): Option<seq<Token>> {
    match rest
    case None => None
    case Some(more) => Some(ts + more)
  }

  /** The interleaved loop decides what the machine decides on the token stream. */
  lemma {:induction false} ParseIsAccept(m: Machine, input: string)
    requires Ready(m)
    ensures ParseFrom(m, input) == match Tokenize(input) case None => None case Some(ts) => Accept(m, ts)
    decreases |input|, 0
  {
    hide PushWord, EndStatement, OpenBlock, CloseBlock, Finish, LexFrom;
    var scan := Lex(input);
    match scan.kind {
      case Comment => ParseIsAccept(m, scan.rest);
      case Normal => TokenIsTaken(m, Word(scan.value), scan.rest);
      case StatementEnd => TokenIsTaken(m, Semicolon, scan.rest);
      case StartBlock => TokenIsTaken(m, Token.Open, scan.rest);
      case EndBlock => TokenIsTaken(m, Close, scan.rest);
      case EndOfFile =>
      case Start =>
      case Error =>
    }
  }

  lemma {:induction false} TokenIsTaken(m: Machine, t: Token, rest: string)
    requires Ready(m)
    ensures Take(m, t).None? && Tokenize(rest).Some? ==> Accept(m, [t] + Tokenize(rest).value).None?
    ensures Take(m, t).Some? ==>
              ParseFrom(Take(m, t).value, rest) ==
              match Tokenize(rest) case None => None case Some(ts) => Accept(m, [t] + ts)
    decreases |rest|, 1
  {
    hide Take, Finish, ParseFrom, Tokenize;
    if Take(m, t).Some? {
      ParseIsAccept(Take(m, t).value, rest);
    }
    if Tokenize(rest).Some? {
      TakeAllConcat(m, [t], Tokenize(rest).value);
      OneTaken(m, t);
    }
  }

  // ----- the printer -----

  function Indent(depth: nat): string {
    if depth == 0 then "" else Indent(depth - 1) + "  "
  }

  function Join(tokens: seq<string>): string {
    if tokens == [] then ""
    else Join(tokens[..|tokens| - 1]) + (if |tokens| == 1 then "" else " ") + tokens[|tokens| - 1]
  }

  function PrintStatement(s: Statement, depth: nat): string
    decreases s, 1
  {
    Indent(depth) + Join(s.tokens) +
    (match s.block
     case NoBlock => ";"
     case Block(inner) => " {\n" + Print(inner, depth + 1) + Indent(depth) + "}")
    + "\n"
  }

  function Print(c: Config, depth: nat): string
    decreases c, 0
  {
    if c == [] then "" else Print(c[..|c| - 1], depth) + PrintStatement(c[|c| - 1], depth)
  }

  /** The trees that print to text that can be read back: at least one word in each statement,
      and every word bare or in quotes. */
  predicate Printable(c: Config)
    decreases c
  {
    forall s | s in c ::
      s.tokens != [] && (forall t | t in s.tokens :: ValidWord(t)) && (s.block.Block? ==> Printable(s.block.statements))
  }

  lemma {:induction false} PrintableIsDerivable(c: Config)
    requires Printable(c)
    ensures Derivable(c)
    decreases c
  {
    forall s | s in c
      ensures s.tokens != [] && (s.block.Block? ==> Derivable(s.block.statements))
    {
      if s.block.Block? { PrintableIsDerivable(s.block.statements); }
    }
  }

  // ----- tokens of printed text -----

  lemma {:induction false} TokenizeBlank(blank: string, rest: string)
    requires AllBlank(blank)
    ensures Tokenize(blank + rest) == Tokenize(rest)
  {
    hide LexFrom;
    LexBlank(blank, rest);
  }

  lemma {:induction false} TokenizeWord(t: string, rest: string)
    requires ValidWord(t) && rest != "" && EndsWord(rest[0])
    ensures Tokenize(t + rest) == Prepend([Word(t)], Tokenize(rest))
  {
    hide LexFrom;
    LexWord(t, rest);
  }

  /** A single-character token. */
  lemma {:induction false} TokenizeMark(mark: string, t: Token, rest: string)
    requires (mark == ";" && t == Semicolon) || (mark == "{" && t == Token.Open) || (mark == "}" && t == Close)
    ensures Tokenize(mark + rest) == Prepend([t], Tokenize(rest))
  {
    assert (mark + rest)[1..] == rest && (mark + rest)[0] == mark[0];
  }

  lemma {:induction false} PrependTwice(a: seq<Token>, b: seq<Token>, rest: Option<seq<Token>>)
    ensures Prepend(a, Prepend(b, rest)) == Prepend(a + b, rest)
  {
    if rest.Some? {
      assert a + (b + rest.value) == a + b + rest.value;
    }
  }

  lemma {:induction false} IndentIsBlank(depth: nat)
    ensures AllBlank(Indent(depth))
  {
    if depth > 0 {
      IndentIsBlank(depth - 1);
    }
  }

  lemma {:induction false} WordsLast(init: seq<string>, last: string)
    ensures Words(init + [last]) == Words(init) + [Word(last)]
  {
  }

  lemma {:induction false} JoinLast(tokens: seq<string>)
    requires tokens != []
    ensures var n := |tokens| - 1;
            Join(tokens) == if n == 0 then tokens[n] else Join(tokens[..n]) + " " + tokens[n]
  {
    if |tokens| == 1 {
      assert "" + "" + tokens[0] == tokens[0];
    }
  }

  lemma {:induction false} TokenizeJoined(tokens: seq<string>, rest: string)
    requires tokens != [] && (forall t | t in tokens :: ValidWord(t))
    requires rest != "" && EndsWord(rest[0])
    ensures Tokenize(Join(tokens) + rest) == Prepend(Words(tokens), Tokenize(rest))
    decreases |tokens|
  {
    hide Tokenize, ValidWord, Words, Join;
    var n := |tokens| - 1;
    var init, last := tokens[..n], tokens[n];
    assert last in tokens && forall t | t in init :: t in tokens;
    SplitLast(tokens);
    WordsLast(init, last);
    JoinLast(tokens);
    TokenizeWord(last, rest);
    if n == 0 {
      assert Words([]) == [] by { NoWords(); }
      assert [] + [Word(last)] == [Word(last)] && init == [];
    } else {
      Regroup(Join(init) + " ", last, rest);
      Regroup(Join(init), " ", last + rest);
      assert EndsWord(' ') && AllBlank(" ");
      TokenizeJoined(init, " " + (last + rest));
      TokenizeBlank(" ", last + rest);
      PrependTwice(Words(init), [Word(last)], Tokenize(rest));
    }
  }

  lemma {:induction false} NoWords()
    ensures Words([]) == []
  {
  }

  lemma {:induction false} TokenizeStatement(s: Statement, depth: nat, rest: string)
    requires Printable([s])
    ensures Tokenize(PrintStatement(s, depth) + rest) == Prepend(StatementYield(s), Tokenize(rest))
    decreases s, 1
  {
    hide Tokenize, ValidWord, AllBlank, Yield, Print, Join, Words, Indent;
    assert s in [s];
    IndentIsBlank(depth);
    NewlineIsBlank();
    TokenizeBlank("\n", rest);
    match s.block {
      case NoBlock =>
        var tail := ";" + ("\n" + rest);
        assert PrintStatement(s, depth) + rest == Indent(depth) + (Join(s.tokens) + tail);
        TokenizeBlank(Indent(depth), Join(s.tokens) + tail);
        TokenizeJoined(s.tokens, tail);
        TokenizeMark(";", Semicolon, "\n" + rest);
        PrependTwice(Words(s.tokens), [Semicolon], Tokenize(rest));
      case Block(inner) =>
        var close := Indent(depth) + ("}" + ("\n" + rest));
        var tail := " " + ("{" + ("\n" + (Print(inner, depth + 1) + close)));
        BlockText(s, inner, depth, rest, close, tail);
        TokenizeBlank(Indent(depth), Join(s.tokens) + tail);
        TokenizeJoined(s.tokens, tail);
        TokenizeBlank(" ", "{" + ("\n" + (Print(inner, depth + 1) + close)));
        TokenizeMark("{", Token.Open, "\n" + (Print(inner, depth + 1) + close));
        TokenizeBlank("\n", Print(inner, depth + 1) + close);
        TokenizePrint(inner, depth + 1, close);
        TokenizeBlank(Indent(depth), "}" + ("\n" + rest));
        TokenizeMark("}", Close, "\n" + rest);
        PrependTwice(Yield(inner), [Close], Tokenize(rest));
        PrependTwice([Token.Open], Yield(inner) + [Close], Tokenize(rest));
        assert [Token.Open] + (Yield(inner) + [Close]) == [Token.Open] + Yield(inner) + [Close];
        PrependTwice(Words(s.tokens), [Token.Open] + Yield(inner) + [Close], Tokenize(rest));
    }
  }

  lemma {:induction false} NewlineIsBlank()
    ensures AllBlank("\n") && AllBlank(" ")
  {
  }

  lemma {:induction false} BlockText(s: Statement, inner: Config, depth: nat, rest: string, close: string, tail: string)
    requires s.block == Block(inner)
    requires close == Indent(depth) + ("}" + ("\n" + rest))
    requires tail == " " + ("{" + ("\n" + (Print(inner, depth + 1) + close)))
    ensures PrintStatement(s, depth) + rest == Indent(depth) + (Join(s.tokens) + tail)
    ensures tail != "" && EndsWord(tail[0])
  {
    hide Print, Join, Indent;
    var i, j, p := Indent(depth), Join(s.tokens), Print(inner, depth + 1);
    assert PrintStatement(s, depth) == i + j + (" {\n" + p + i + "}") + "\n";
    assert " {\n" == " " + ("{" + "\n");
  }

  /** The tokens of a printed tree are its sentence, whatever follows and at every depth. */
  lemma {:induction false} TokenizePrint(c: Config, depth: nat, rest: string)
    requires Printable(c)
    ensures Tokenize(Print(c, depth) + rest) == Prepend(Yield(c), Tokenize(rest))
    decreases c, 0
  {
    hide Tokenize, PrintStatement, StatementYield;
    if c == [] {
      assert "" + rest == rest;
      if Tokenize(rest).Some? { assert [] + Tokenize(rest).value == Tokenize(rest).value; }
    } else {
      var init, last := c[..|c| - 1], c[|c| - 1];
      assert last in c && forall s | s in init :: s in c;
      assert Print(c, depth) + rest == Print(init, depth) + (PrintStatement(last, depth) + rest);
      TokenizePrint(init, depth, PrintStatement(last, depth) + rest);
      TokenizeStatement(last, depth, rest);
      PrependTwice(Yield(init), StatementYield(last), Tokenize(rest));
    }
  }

  /** What follows a printed tree is tokenized on its own. */
  lemma {:induction false} ParseAfter(c: Config, depth: nat, rest: string)
    requires Printable(c)
    ensures Parse([], Print(c, depth) + rest)
         == if Tokenize(rest).None? then None else Accept(FRESH, Yield(c) + Tokenize(rest).value)
  {
    hide Print, Yield, Accept, Tokenize, ParseFrom;
    TokenizePrint(c, depth, rest);
    var text := Print(c, depth) + rest;
    ParseIsAccept(FRESH, text);
    if ParseFrom(FRESH, text).Some? {
      assert [] + ParseFrom(FRESH, text).value == ParseFrom(FRESH, text).value;
    }
  }

  /** Round trip: a printable tree, printed at any depth and parsed, comes back as it was. */
  lemma {:induction false} PrintThenParse(c: Config, depth: nat)
    requires Printable(c)
    ensures Parse([], Print(c, depth)) == Some(c)
  {
    hide Print, Yield, Derivable, Accept;
    assert Print(c, depth) + "" == Print(c, depth);
    assert Tokenize("") == Some([]);
    assert Yield(c) + [] == Yield(c);
    PrintableIsDerivable(c);
    AcceptIffDerives(Yield(c), c);
    ParseAfter(c, depth, "");
  }

  // ----- reading is canonicalising -----

  predicate ValidTokens(ts: seq<Token>) {
    forall i | 0 <= i < |ts| :: ts[i].Word? ==> ValidWord(ts[i].text)
  }

  lemma {:induction false} TokenizedIsValid(input: string)
    ensures Tokenize(input).Some? ==> ValidTokens(Tokenize(input).value)
    decreases |input|
  {
    hide LexFrom, ValidWord;
    var scan := Lex(input);
    LexedWordIsValid(InitialWhitespace, "", input);
    if scan.kind != EndOfFile && scan.kind != Error {
      TokenizedIsValid(scan.rest);
    }
  }

  lemma {:induction false} ValidYieldIsPrintable(c: Config)
    requires Derivable(c) && ValidTokens(Yield(c))
    ensures Printable(c)
    decreases c
  {
    hide ValidWord;
    if c != [] {
      var init, last := c[..|c| - 1], c[|c| - 1];
      assert c == init + [last];
      assert last in c && forall s | s in init :: s in c;
      var a, b := Yield(init), StatementYield(last);
      assert Yield(c) == a + b;
      assert ValidTokens(a) by { assert forall i | 0 <= i < |a| :: (a + b)[i] == a[i]; }
      assert ValidTokens(b) by { assert forall i | 0 <= i < |b| :: (a + b)[|a| + i] == b[i]; }
      ValidYieldIsPrintable(init);
      ValidStatement(last);
    }
  }

  lemma {:induction false} ValidStatement(s: Statement)
    requires s.tokens != [] && (s.block.Block? ==> Derivable(s.block.statements))
    requires ValidTokens(StatementYield(s))
    ensures forall t | t in s.tokens :: ValidWord(t)
    ensures s.block.Block? ==> Printable(s.block.statements)
    decreases s
  {
    hide ValidWord, Derivable, Printable;
    var ts, n := StatementYield(s), |s.tokens|;
    forall i | 0 <= i < n
      ensures ValidWord(s.tokens[i])
    {
      assert ts[i] == Word(s.tokens[i]);
    }
    if s.block.Block? {
      var inner := Yield(s.block.statements);
      assert forall i | 0 <= i < |inner| :: ts[n + 1 + i] == inner[i];
      ValidYieldIsPrintable(s.block.statements);
    }
  }

  /** Whatever text is accepted, the tree read from it is printable; printing it at any depth
      and reading it again gives the same tree. */
  lemma {:induction false} ParseIsCanonical(input: string, depth: nat)
    requires Parse([], input).Some?
    ensures Printable(Parse([], input).value)
    ensures Parse([], Print(Parse([], input).value, depth)) == Parse([], input)
  {
    hide Tokenize, Accept, ParseFrom, Print;
    var c := ParseFrom(FRESH, input).value;
    assert [] + c == c;
    ParseIsAccept(FRESH, input);
    TokenizedIsValid(input);
    AcceptIffDerives(Tokenize(input).value, c);
    ValidYieldIsPrintable(c);
    PrintThenParse(c, depth);
  }

  /** A text is accepted if and only if it tokenizes and the grammar derives its tokens; the
      tree is the one that derives them. */
  lemma {:induction false} ParseIffGrammar(input: string, c: Config)
    ensures Parse([], input) == Some(c) <==>
            Tokenize(input).Some? && Derivable(c) && Yield(c) == Tokenize(input).value
  {
    hide Tokenize, Accept, ParseFrom, Yield, Derivable;
    ParseIsAccept(FRESH, input);
    if Tokenize(input).Some? {
      AcceptIffDerives(Tokenize(input).value, c);
      if ParseFrom(FRESH, input).Some? {
        assert [] + ParseFrom(FRESH, input).value == ParseFrom(FRESH, input).value;
      }
    }
  }
}
