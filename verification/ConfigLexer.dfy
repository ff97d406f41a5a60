/** The tokenizer of configuration files, one character at a time. */
module ConfigLexer {

  datatype TokenType = Start | Normal | StartBlock | EndBlock | Comment | StatementEnd | EndOfFile | Error

  datatype LexState = InitialWhitespace | SingleQuote | DoubleQuote | InComment | InWord

  /** What one call reads: the kind of token, its text, and the input that is left. */
  datatype Scan = Scan(kind: TokenType, value: string, rest: string)

  predicate IsBlank(c: char) {
    c == ' ' || c == '\t' || c == '\n' || c == '\r'
  }

  /** The characters that end a bare word; a carriage return is not one of them. */
  predicate EndsWord(c: char) {
    c == ' ' || c == '\t' || c == '\n' || c == ';' || c == '{' || c == '}'
  }

  /** What one character does: a token ends, with that character or before it, or reading goes on. */
  datatype LexStep = Stop(kind: TokenType, value: string, unread: bool) | Go(state: LexState, value: string)

  function Next(state: LexState, value: string, c: char): LexStep {
    match state
    case InitialWhitespace =>
      if c == '{' then Stop(StartBlock, [c], false)
      else if c == '}' then Stop(EndBlock, [c], false)
      else if c == '#' then Go(InComment, [c])
      else if c == '"' then Go(DoubleQuote, [c])
      else if c == '\'' then Go(SingleQuote, [c])
      else if c == ';' then Stop(StatementEnd, [c], false)
      else if IsBlank(c) then Go(state, value)
      else Go(InWord, value + [c])
    case SingleQuote => if c == '\'' then Stop(Normal, value + [c], false) else Go(state, value + [c])
    case DoubleQuote => if c == '"' then Stop(Normal, value + [c], false) else Go(state, value + [c])
    case InComment => if c == '\n' || c == '\r' then Stop(Comment, value, false) else Go(state, value + [c])
    case InWord => if EndsWord(c) then Stop(Normal, value, true) else Go(state, value + [c])
  }

  function LexFrom(state: LexState, value: string, input: string): (scan: Scan)
    ensures |scan.rest| <= |input|
    ensures state.InitialWhitespace? && scan.kind != EndOfFile && scan.kind != Error ==> |scan.rest| < |input|
    decreases |input|
  {
    if input == "" then
      Scan(if state.SingleQuote? || state.DoubleQuote? then Error else EndOfFile, value, "")
    else
      match Next(state, value, input[0])
      case Stop(kind, text, unread) => Scan(kind, text, if unread then input else input[1..])
      case Go(state', value') => LexFrom(state', value', input[1..])
  }

  function Lex(input: string): Scan {
    LexFrom(InitialWhitespace, "", input)
  }

  // ----- words -----

  /** A word without quotes around it. */
  predicate BareWord(t: string) {
    && t != ""
    && !IsBlank(t[0]) && t[0] != '{' && t[0] != '}' && t[0] != '#' && t[0] != ';' && t[0] != '"' && t[0] != '\''
    && forall i | 0 <= i < |t| :: !EndsWord(t[i])
  }

  /** A word from one quote to the next of the same kind. */
  predicate QuotedWord(t: string, quote: char) {
    && |t| >= 2 && t[0] == quote && t[|t| - 1] == quote
    && quote !in t[1..|t| - 1]
  }

  predicate ValidWord(t: string) {
    BareWord(t) || QuotedWord(t, '"') || QuotedWord(t, '\'')
  }

  lemma {:induction false} DoubleQuotedWord(t: string)
    requires ValidWord(t) && t[0] == '"'
    ensures |t| >= 2 && t[|t| - 1] == '"' && '"' !in t[1..|t| - 1]
  {
  }

  // ----- what the tokenizer returns -----

  /** A state and the text read in it so far. */
  predicate Partial(state: LexState, value: string) {
    match state
    case InitialWhitespace => value == ""
    case SingleQuote => value != "" && value[0] == '\'' && '\'' !in value[1..]
    case DoubleQuote => value != "" && value[0] == '"' && '"' !in value[1..]
    case InComment => true
    case InWord => BareWord(value)
  }

  lemma {:induction false} QuoteGrows(value: string, c: char, quote: char)
    requires value != "" && value[0] == quote && quote !in value[1..]
    ensures c == quote ==> QuotedWord(value + [c], quote)
    ensures c != quote ==> quote !in (value + [c])[1..]
  {
    var longer := value + [c];
    assert longer[1..] == value[1..] + [c];
    assert longer[1..|longer| - 1] == value[1..];
  }

  lemma {:induction false} WordGrows(value: string, c: char)
    requires BareWord(value) && !EndsWord(c)
    ensures BareWord(value + [c])
  {
  }

  /** Every word the tokenizer returns is a valid one. */
  lemma {:induction false} LexedWordIsValid(state: LexState, value: string, input: string)
    requires Partial(state, value)
    ensures var scan := LexFrom(state, value, input);
            scan.kind == Normal ==> ValidWord(scan.value)
    decreases |input|
  {
    hide BareWord, QuotedWord;
    if input != "" {
      var c, rest := input[0], input[1..];
      match state {
        case InitialWhitespace =>
          if c == '#' { LexedWordIsValid(InComment, [c], rest); }
          else if c == '"' { LexedWordIsValid(DoubleQuote, [c], rest); }
          else if c == '\'' { LexedWordIsValid(SingleQuote, [c], rest); }
          else if IsBlank(c) { LexedWordIsValid(state, value, rest); }
          else if c != '{' && c != '}' && c != ';' {
            assert value + [c] == [c];
            OneCharWord(c);
            LexedWordIsValid(InWord, value + [c], rest);
          }
        case SingleQuote =>
          QuoteGrows(value, c, '\'');
          if c != '\'' { LexedWordIsValid(state, value + [c], rest); }
        case DoubleQuote =>
          QuoteGrows(value, c, '"');
          if c != '"' { LexedWordIsValid(state, value + [c], rest); }
        case InComment =>
          if c != '\n' && c != '\r' { LexedWordIsValid(state, value + [c], rest); }
        case InWord =>
          if !EndsWord(c) {
            WordGrows(value, c);
            LexedWordIsValid(state, value + [c], rest);
          }
      }
    }
  }

  /** A token that starts with a double quote is closed by one and has none between. */
  lemma {:induction false} LexedDoubleQuote(input: string)
    requires Lex(input).kind == Normal && "\"" <= Lex(input).value
    ensures var t := Lex(input).value;
            |t| >= 2 && t[|t| - 1] == '"' && '"' !in t[1..|t| - 1]
  {
    hide LexFrom, ValidWord;
    LexedWordIsValid(InitialWhitespace, "", input);
    DoubleQuotedWord(Lex(input).value);
  }

  lemma {:induction false} OneCharWord(c: char)
    requires !IsBlank(c) && c != '{' && c != '}' && c != '#' && c != ';' && c != '"' && c != '\''
    ensures BareWord([c])
  {
  }

  // ----- reading back what was printed -----

  /** A bare word before a character that ends it. */
  lemma {:induction false} LexBareTail(seen: string, tail: string, rest: string)
    requires rest != "" && EndsWord(rest[0])
    requires forall i | 0 <= i < |tail| :: !EndsWord(tail[i])
    ensures LexFrom(InWord, seen, tail + rest) == Scan(Normal, seen + tail, rest)
    decreases |tail|
  {
    if tail == "" {
      assert tail + rest == rest && seen + tail == seen;
    } else {
      assert (tail + rest)[1..] == tail[1..] + rest;
      LexBareTail(seen + [tail[0]], tail[1..], rest);
      assert seen + [tail[0]] + tail[1..] == seen + tail;
    }
  }

  lemma {:induction false} LexQuotedTail(state: LexState, quote: char, seen: string, body: string, rest: string)
    requires (state == SingleQuote && quote == '\'') || (state == DoubleQuote && quote == '"')
    requires quote !in body
    ensures LexFrom(state, seen, body + [quote] + rest) == Scan(Normal, seen + body + [quote], rest)
    decreases |body|
  {
    var input := body + [quote] + rest;
    if body == "" {
      assert input[0] == quote && input[1..] == rest;
      assert seen + body == seen;
    } else {
      assert input[0] == body[0] && input[1..] == body[1..] + [quote] + rest;
      LexQuotedTail(state, quote, seen + [body[0]], body[1..], rest);
      assert seen + [body[0]] + body[1..] == seen + body;
    }
  }

  lemma {:induction false} LexBare(t: string, rest: string)
    requires BareWord(t) && rest != "" && EndsWord(rest[0])
    ensures Lex(t + rest) == Scan(Normal, t, rest)
  {
    var c, tail := t[0], t[1..];
    assert (t + rest)[0] == c && (t + rest)[1..] == tail + rest;
    assert [c] + tail == t && "" + [c] == [c];
    LexBareTail([c], tail, rest);
  }

  lemma {:induction false} LexQuoted(t: string, quote: char, rest: string)
    requires QuotedWord(t, quote) && (quote == '"' || quote == '\'')
    ensures Lex(t + rest) == Scan(Normal, t, rest)
  {
    var body, state := t[1..|t| - 1], if quote == '"' then DoubleQuote else SingleQuote;
    assert t == [quote] + body + [quote];
    assert (t + rest)[0] == quote && (t + rest)[1..] == body + [quote] + rest;
    LexQuotedTail(state, quote, [quote], body, rest);
    LexQuoteOpens(t + rest, quote, state);
  }

  lemma {:induction false} LexQuoteOpens(input: string, quote: char, state: LexState)
    requires input != "" && input[0] == quote
    requires (state == SingleQuote && quote == '\'') || (state == DoubleQuote && quote == '"')
    ensures Lex(input) == LexFrom(state, [quote], input[1..])
  {
  }

  /** A valid word followed by a space or a semicolon is read back whole. */
  lemma {:induction false} LexWord(t: string, rest: string)
    requires ValidWord(t) && rest != "" && EndsWord(rest[0])
    ensures Lex(t + rest) == Scan(Normal, t, rest)
  {
    hide LexFrom;
    if BareWord(t) {
      LexBare(t, rest);
    } else {
      LexQuoted(t, t[0], rest);
    }
  }

  predicate AllBlank(s: string) {
    forall i | 0 <= i < |s| :: IsBlank(s[i])
  }

  /** White space before a token does not matter. */
  lemma {:induction false} LexBlank(blank: string, rest: string)
    requires AllBlank(blank)
    ensures Lex(blank + rest) == Lex(rest)
    decreases |blank|
  {
    if blank == "" {
      assert blank + rest == rest;
    } else {
      assert (blank + rest)[1..] == blank[1..] + rest;
      LexBlank(blank[1..], rest);
    }
  }
}
