/** What an accepted text does with more text behind it: a word, a quote or a comment that the end of
    the file cuts off. */
module ConfigEnding {
  import opened Shared
  import opened ConfigLexer
  import opened ConfigGrammar
  import opened ConfigMachine
  import opened ConfigText

  // ----- the state of the tokenizer at the end of a text -----

  /** The state after one more character; a character that ends a bare word is read again. */
  function After(state: LexState, c: char): LexState {
    match Next(state, "", c)
    case Go(next, _) => next
    case Stop(_, _, _) => InitialWhitespace
  }

  /** The state at the end of a text, over all its tokens. */
  function StateAt(state: LexState, input: string): LexState
    decreases |input|
  {
    if input == "" then state else StateAt(After(state, input[0]), input[1..])
  }

  predicate BetweenTokens(input: string) {
    StateAt(InitialWhitespace, input).InitialWhitespace?
  }

  predicate OpenComment(input: string) {
    StateAt(InitialWhitespace, input).InComment?
  }

  /** The text read so far does not decide what a character does, and is empty between tokens. */
  lemma {:induction false} ValueIsCarried(state: LexState, value: string, c: char)
    requires state.InitialWhitespace? ==> value == ""
    ensures var next := Next(state, value, c);
            && (next.Go? ==> next.state == After(state, c) && (next.state.InitialWhitespace? ==> next.value == ""))
            && (next.Stop? && !next.unread ==> After(state, c) == InitialWhitespace)
            && (next.Stop? && next.unread ==> After(state, c) == InitialWhitespace == After(InitialWhitespace, c))
            && (next.Stop? ==> next.kind != EndOfFile && next.kind != Error)
  {
  }

  /** A token that ends within a text ends there whatever follows; one that does not goes on. */
  lemma {:induction false} LexAfter(state: LexState, value: string, input: string, more: string)
    requires state.InitialWhitespace? ==> value == ""
    ensures var scan, further := LexFrom(state, value, input), LexFrom(state, value, input + more);
            var last := StateAt(state, input);
            && (scan.kind != EndOfFile && scan.kind != Error ==>
                  further == scan.(rest := scan.rest + more) && last == StateAt(InitialWhitespace, scan.rest))
            && (scan.kind == EndOfFile || scan.kind == Error ==>
                  further == LexFrom(last, scan.value, more) && (last.InitialWhitespace? ==> scan.value == ""))
    decreases |input|
  {
    hide Next, After;
    var all := input + more;
    if input == "" {
      assert all == more;
    } else {
      assert all[0] == input[0] && all[1..] == input[1..] + more;
      ValueIsCarried(state, value, input[0]);
      match Next(state, value, input[0]) {
        case Stop(_, _, _) =>
        case Go(state', value') => LexAfter(state', value', input[1..], more);
      }
    }
  }

  /** The tokens from one that was scanned on. */
  function Resume(scan: Scan): Option<seq<Token>> {
    match scan.kind
    case Comment => Tokenize(scan.rest)
    case Normal => Prepend([Word(scan.value)], Tokenize(scan.rest))
    case StatementEnd => Prepend([Semicolon], Tokenize(scan.rest))
    case StartBlock => Prepend([Token.Open], Tokenize(scan.rest))
    case EndBlock => Prepend([Close], Tokenize(scan.rest))
    case EndOfFile => Some([])
    case Start => None
    case Error => None
  }

  lemma {:induction false} TokenizeIsResume(input: string)
    ensures Tokenize(input) == Resume(Lex(input))
  {
    hide Lex;
  }

  /** The tokens of a text and more text behind it: those of the text, and then those that the
      tokenizer finds in what follows, in the state and with the pending text it had at the end. */
  lemma {:induction false} TokenizeAfter(input: string, more: string) returns (pending: string)
    requires Tokenize(input).Some?
    ensures var last := StateAt(InitialWhitespace, input);
            && Tokenize(input + more) == Prepend(Tokenize(input).value, Resume(LexFrom(last, pending, more)))
            && (last.InitialWhitespace? ==> pending == "")
    decreases |input|
  {
    hide LexFrom, StateAt;
    var scan := Lex(input);
    LexAfter(InitialWhitespace, "", input, more);
    TokenizeIsResume(input + more);
    if scan.kind == EndOfFile {
      pending := scan.value;
      var found := Resume(LexFrom(StateAt(InitialWhitespace, input), pending, more));
      if found.Some? { assert [] + found.value == found.value; }
    } else {
      pending := TokenizeAfter(scan.rest, more);
      var first := match scan.kind
                   case Normal => [Word(scan.value)]
                   case StatementEnd => [Semicolon]
                   case StartBlock => [Token.Open]
                   case EndBlock => [Close]
                   case _ => [];
      var last := StateAt(InitialWhitespace, input);
      PrependTwice(first, Tokenize(scan.rest).value, Resume(LexFrom(last, pending, more)));
    }
  }

  // ----- pieces that the end of the file cuts off -----

  lemma {:induction false} LexOpenWord(seen: string, tail: string)
    requires forall i | 0 <= i < |tail| :: !EndsWord(tail[i])
    ensures LexFrom(InWord, seen, tail).kind == EndOfFile
    decreases |tail|
  {
    if tail != "" { LexOpenWord(seen + [tail[0]], tail[1..]); }
  }

  lemma {:induction false} LexOpenQuote(state: LexState, quote: char, seen: string, body: string)
    requires (state == SingleQuote && quote == '\'') || (state == DoubleQuote && quote == '"')
    requires quote !in body
    ensures LexFrom(state, seen, body).kind == Error
    decreases |body|
  {
    if body != "" { LexOpenQuote(state, quote, seen + [body[0]], body[1..]); }
  }

  lemma {:induction false} LexOpenComment(seen: string, tail: string)
    requires '\n' !in tail && '\r' !in tail
    ensures LexFrom(InComment, seen, tail).kind == EndOfFile
    decreases |tail|
  {
    if tail != "" { LexOpenComment(seen + [tail[0]], tail[1..]); }
  }

  lemma {:induction false} LexComment(seen: string, body: string, end: char, rest: string)
    requires '\n' !in body && '\r' !in body && (end == '\n' || end == '\r')
    ensures LexFrom(InComment, seen, body + ([end] + rest)) == Scan(Comment, seen + body, rest)
    decreases |body|
  {
    var input := body + ([end] + rest);
    if body == "" {
      assert input[0] == end && input[1..] == rest && seen + body == seen;
    } else {
      assert input[0] == body[0] && input[1..] == body[1..] + ([end] + rest);
      LexComment(seen + [body[0]], body[1..], end, rest);
      assert seen + [body[0]] + body[1..] == seen + body;
    }
  }

  lemma {:induction false} LexCutWord(pending: string, word: string)
    requires BareWord(word)
    ensures Lex(word).kind == EndOfFile && LexFrom(InWord, pending, word).kind == EndOfFile
  {
    LexOpenWord([word[0]], word[1..]);
    LexOpenWord(pending, word);
    assert "" + [word[0]] == [word[0]];
    assert Lex(word) == LexFrom(InWord, [word[0]], word[1..]);
  }

  /** In a comment a word is read up to its first carriage return. */
  lemma {:induction false} LexWordInComment(pending: string, word: string)
    requires BareWord(word)
    ensures var n := ReturnAt(word);
            if n == |word| then LexFrom(InComment, pending, word).kind == EndOfFile
            else LexFrom(InComment, pending, word) == Scan(Comment, pending + word[..n], word[n + 1..])
  {
    hide LexFrom;
    var n := ReturnAt(word);
    assert '\n' !in word;
    if n == |word| {
      LexOpenComment(pending, word);
    } else {
      assert word == word[..n] + (['\r'] + word[n + 1..]);
      LexComment(pending, word[..n], '\r', word[n + 1..]);
    }
  }

  lemma {:induction false} AcceptedTokenizes(input: string)
    requires Parse([], input).Some?
    ensures Tokenize(input).Some?
  {
    hide Tokenize, Accept, ParseFrom;
    ParseIsAccept(FRESH, input);
  }

  lemma {:induction false} PrependNothing(ts: seq<Token>)
    ensures Prepend(ts, Some([])) == Some(ts)
  {
    assert ts + [] == ts;
  }

  /** The tokens of an accepted text with a word behind it. */
  lemma {:induction false} TokensWithWord(input: string, word: string)
    requires Tokenize(input).Some? && BareWord(word)
    ensures var n := ReturnAt(word);
            Tokenize(input + word) == if OpenComment(input) && n < |word|
                                      then Prepend(Tokenize(input).value, Tokenize(word[n + 1..]))
                                      else Tokenize(input)
  {
    hide Tokenize, LexFrom, StateAt, BareWord, ReturnAt;
    var pending := TokenizeAfter(input, word);
    PrependNothing(Tokenize(input).value);
    LexCutWord(pending, word);
    LexWordInComment(pending, word);
    if StateAt(InitialWhitespace, input).SingleQuote? || StateAt(InitialWhitespace, input).DoubleQuote? {
      NoOpenQuote(input);
    }
  }

  /** A text that tokenizes does not end inside a quote. */
  lemma {:induction false} NoOpenQuote(input: string)
    requires Tokenize(input).Some?
    ensures var last := StateAt(InitialWhitespace, input); !last.SingleQuote? && !last.DoubleQuote?
  {
    hide Tokenize, StateAt;
    var pending := TokenizeAfter(input, "");
    assert input + "" == input;
  }

  /** More tokens behind an accepted text never give the same tree. */
  lemma {:induction false} MoreTokensDiffer(ts: seq<Token>, us: seq<Token>)
    requires Accept(FRESH, ts).Some?
    ensures Accept(FRESH, ts + us) == Accept(FRESH, ts) <==> us == []
  {
    hide Accept, Yield, Derivable;
    var c := Accept(FRESH, ts).value;
    AcceptIffDerives(ts, c);
    AcceptIffDerives(ts + us, c);
    assert ts + us == ts <==> us == [] by { assert |ts + us| == |ts| + |us|; }
  }

  lemma {:induction false} ParseIsAccepted(input: string)
    ensures Parse([], input) == if Tokenize(input).None? then None else Accept(FRESH, Tokenize(input).value)
  {
    hide Tokenize, Accept, ParseFrom;
    ParseIsAccept(FRESH, input);
    if ParseFrom(FRESH, input).Some? {
      assert [] + ParseFrom(FRESH, input).value == ParseFrom(FRESH, input).value;
    }
  }

  /** A bare word that the end of the file cuts off is dropped without an error, after whatever accepted
      text, unless it stands in a comment and has a carriage return with tokens, or an open quote, behind it. */
  lemma {:induction false} CutWordIsDropped(input: string, word: string)
    requires Parse([], input).Some? && BareWord(word)
    ensures var n := ReturnAt(word);
            Parse([], input + word) == Parse([], input) <==>
            !OpenComment(input) || n == |word| || Tokenize(word[n + 1..]) == Some([])
  {
    hide Tokenize, Accept, Parse, BareWord, OpenComment, ReturnAt;
    AcceptedTokenizes(input);
    TokensWithWord(input, word);
    ParseIsAccepted(input);
    ParseIsAccepted(input + word);
    var n := ReturnAt(word);
    if OpenComment(input) && n < |word| && Tokenize(word[n + 1..]).Some? {
      MoreTokensDiffer(Tokenize(input).value, Tokenize(word[n + 1..]).value);
    }
  }

  /** A word with a carriage return and a quote after it fails a parse that a comment had ended well. */
  lemma {:induction false} CutWordInComment()
    ensures Parse([], "#") == Some([]) && BareWord("x\r\"") && Parse([], "#" + "x\r\"") == None
  {
    var text := "#" + "x\r\"";
    assert text == "#" + ("x" + (['\r'] + "\""));
    CommentIsSkipped("x", '\r', "\"");
    assert "\"" == ['"'] + "" && "\""[1..] == "";
    LexOpenQuote(DoubleQuote, '"', "\"", "");
    LexQuoteOpens("\"", '"', DoubleQuote);
    ParseIsAccept(FRESH, text);
    assert "#"[1..] == "" && LexFrom(InComment, "#", "").kind == EndOfFile;
    assert Lex("#").kind == EndOfFile;
    var none: Config := [];
    assert none + none == none;
  }

  /** A quote that is not closed before the end of the file fails the whole parse, after every accepted
      text that ends between two tokens. */
  lemma {:induction false} CutQuoteIsRejected(input: string, quote: char, body: string)
    requires Parse([], input).Some? && BetweenTokens(input)
    requires (quote == '"' || quote == '\'') && quote !in body
    ensures Parse([], input + ([quote] + body)) == None
  {
    var state, text := if quote == '"' then DoubleQuote else SingleQuote, [quote] + body;
    assert text[0] == quote && text[1..] == body;
    LexOpenQuote(state, quote, [quote], body);
    LexQuoteOpens(text, quote, state);
    assert Lex(text).kind == Error;
    hide Tokenize, Accept, Parse, StateAt, LexFrom;
    AcceptedTokenizes(input);
    var pending := TokenizeAfter(input, text);
    ParseIsAccepted(input + text);
  }

  /** A comment can stand wherever a token can: it leaves the tokens as they are, so the machine
      goes on as if it were not there. */
  lemma {:induction false} CommentIsSkipped(body: string, end: char, rest: string)
    requires '\n' !in body && '\r' !in body && (end == '\n' || end == '\r')
    ensures Tokenize("#" + (body + ([end] + rest))) == Tokenize(rest)
  {
    var text := "#" + (body + ([end] + rest));
    assert text[0] == '#' && text[1..] == body + ([end] + rest);
    LexComment("#", body, end, rest);
    assert Lex(text) == LexFrom(InComment, "#", text[1..]);
  }
}
