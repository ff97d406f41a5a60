/** The configuration classes: statements and blocks linked by references, the stream the text is
    read from, and the parser that grows the tree through a stack of references. */
module ConfigObjects {
  import opened ConfigLexer
  import opened ConfigGrammar
  import opened ConfigText
  import opened ConfigLookup

  /** `std::istream` over a text: `get` and `unget`. */
  class InputStream {
    const text: string
    var pos: nat

    ghost predicate Valid()
      reads this
    {
      pos <= |text|
    }

    ghost function Rest(): string
      requires Valid()
      reads this
    {
      text[pos..]
    }

    constructor (text: string)
      ensures Valid() && Rest() == text
    {
      this.text := text;
      pos := 0;
    }

    method Get() returns (c: char, good: bool)
      requires Valid()
      modifies this
      ensures Valid() && good == (old(Rest()) != "")
      ensures good ==> c == old(Rest())[0] && Rest() == old(Rest())[1..] && pos > 0 && text[pos - 1..] == old(Rest())
      ensures !good ==> Rest() == ""
    {
      good := pos < |text|;
      c := ' ';
      if good {
        c := text[pos];
        pos := pos + 1;
      }
    }

    method Unget()
      requires Valid() && pos > 0
      modifies this
      ensures Valid() && pos == old(pos) - 1
    {
      pos := pos - 1;
    }
  }

  method ParseToken(input: InputStream) returns (kind: TokenType, value: string)
    requires input.Valid()
    modifies input
    ensures input.Valid() && Scan(kind, value, input.Rest()) == Lex(old(input.Rest()))
  {
    hide IsBlank, EndsWord;
    var state := InitialWhitespace;
    value := "";
    while true
      invariant input.Valid()
      invariant LexFrom(state, value, input.Rest()) == Lex(old(input.Rest()))
      decreases |input.Rest()|
    {
      ghost var before := input.Rest();
      var c, good := input.Get();
      if !good {
        break;
      }
      match state {
        case InitialWhitespace =>
          if c == '{' { return StartBlock, [c]; }
          else if c == '}' { return EndBlock, [c]; }
          else if c == '#' { value, state := [c], InComment; }
          else if c == '"' { value, state := [c], DoubleQuote; }
          else if c == '\'' { value, state := [c], SingleQuote; }
          else if c == ';' { return StatementEnd, [c]; }
          else if !IsBlank(c) { value, state := value + [c], InWord; }
        case SingleQuote =>
          value := value + [c];
          if c == '\'' { return Normal, value; }
        case DoubleQuote =>
          value := value + [c];
          if c == '"' { return Normal, value; }
        case InComment =>
          if c == '\n' || c == '\r' { return Comment, value; }
          value := value + [c];
        case InWord =>
          if EndsWord(c) {
            input.Unget();
            return Normal, value;
          }
          value := value + [c];
      }
    }
    kind := if state == SingleQuote || state == DoubleQuote then Error else EndOfFile;
  }

  /** One statement; `view` is the value it stands for once it is complete. */
  class NginxConfigStatement {
    var tokens: seq<string>
    var child: NginxConfig?
    ghost var view: Statement

    constructor (token: string)
      ensures tokens == [token] && child == null
    {
      tokens, child := [token], null;
    }

    method ToString(depth: nat, ghost cs: set<NginxConfig>, ghost ss: set<NginxConfigStatement>) returns (text: string)
      requires Closed(cs, ss) && this in ss
      ensures text == PrintStatement(view, depth)
      decreases view, 1
    {
      hide Indent, Print;
      var indent := IndentText(depth);
      text := indent;
      for i := 0 to |tokens|
        invariant text == Indent(depth) + Join(tokens[..i])
      {
        assert tokens[..i + 1][..i] == tokens[..i];
        if i != 0 {
          text := text + " ";
        }
        text := text + tokens[i];
      }
      assert tokens[..|tokens|] == tokens;
      ghost var words := text;
      if child != null {
        var inner := child.ToString(depth + 1, cs, ss);
        text := text + " {\n" + inner + indent + "}";
        assert text == words + (" {\n" + inner + indent + "}");
      } else {
        text := text + ";";
      }
      text := text + "\n";
    }
  }

  method IndentText(depth: nat) returns (text: string)
    ensures text == Indent(depth)
  {
    text := "";
    for i := 0 to depth
      invariant text == Indent(i)
    {
      text := text + "  ";
    }
  }

  /** One block; `view` is the value it stands for once it is complete. */
  class NginxConfig {
    var statements: seq<NginxConfigStatement>
    ghost var view: Config

    constructor ()
      ensures statements == [] && view == []
    {
      statements, view := [], [];
    }

    method ToString(depth: nat, ghost cs: set<NginxConfig>, ghost ss: set<NginxConfigStatement>) returns (text: string)
      requires Closed(cs, ss) && Lists(statements, view, ss)
      ensures text == Print(view, depth)
      decreases view, 0
    {
      text := "";
      for i := 0 to |statements|
        invariant text == Print(view[..i], depth)
      {
        assert view[..i + 1][..i] == view[..i];
        assert view[i] in view;
        var statement := statements[i].ToString(depth, cs, ss);
        text := text + statement;
      }
      assert view[..|statements|] == view;
    }

    method GetConfig(key: string, ghost cs: set<NginxConfig>, ghost ss: set<NginxConfigStatement>)
      returns (answer: string)
      requires Closed(cs, ss) && Lists(statements, view, ss)
      ensures answer == ConfigLookup.GetConfig(view, key)
      decreases view
    {
      for i := 0 to |statements|
        invariant ConfigLookup.GetConfig(view, key) == ConfigLookup.GetConfig(view[i..], key)
      {
        assert view[i..][0] == view[i] && view[i..][1..] == view[i + 1..];
        assert view[i] in view;
        var statement := statements[i];
        var prev := "";
        for j := 0 to |statement.tokens|
          invariant prev == if j == 0 then "" else statement.tokens[j - 1]
          invariant FindWord(statement.tokens, "", key) == FindWord(statement.tokens[j..], prev, key)
        {
          assert statement.tokens[j..][1..] == statement.tokens[j + 1..];
          if prev == key {
            return statement.tokens[j];
          }
          prev := statement.tokens[j];
        }
        if statement.child != null {
          var inner := statement.child.GetConfig(key, cs, ss);
          if |inner| > 0 {
            return inner;
          }
        }
      }
      return "";
    }
  }

  /** The references of a block stand for the statements of its value. */
  ghost predicate Lists(statements: seq<NginxConfigStatement>, view: Config, ss: set<NginxConfigStatement>)
    reads ss
  {
    && |statements| == |view|
    && forall i | 0 <= i < |view| :: statements[i] in ss && statements[i].view == view[i]
  }

  /** Complete statements and blocks: what each stands for is what its references stand for. */
  ghost predicate Closed(cs: set<NginxConfig>, ss: set<NginxConfigStatement>)
    reads cs, ss
  {
    && (forall c | c in cs :: Lists(c.statements, c.view, ss))
    && (forall s | s in ss :: s.child != null ==> s.child in cs)
    && (forall s | s in ss :: s.view == Statement(s.tokens, if s.child == null then NoBlock else Block(s.child.view)))
  }
}
