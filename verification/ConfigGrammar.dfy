/** The tree a configuration file denotes, the pushdown machine that builds it, and the
    recursive grammar the machine recognises. */
module ConfigGrammar {
  import opened Shared
  import opened ConfigLexer

  /** One statement: its words, and its block if it has one. */
  datatype Statement = Statement(tokens: seq<string>, block: Block)

  datatype Block = NoBlock | Block(statements: seq<Statement>)

  type Config = seq<Statement>

  /** The tokens that matter to the parser; comments are gone. */
  datatype Token = Word(text: string) | Semicolon | Open | Close

  // ----- the grammar: Block = (word+ (";" | "{" Block "}"))* -----

  function Words(tokens: seq<string>): seq<Token> {
    seq(|tokens|, i requires 0 <= i < |tokens| => Word(tokens[i]))
  }

  /** The sentence of one statement. */
  function StatementYield(s: Statement): seq<Token>
    decreases s, 1
  {
    Words(s.tokens) +
    match s.block
    case NoBlock => [Semicolon]
    case Block(statements) => [Open] + Yield(statements) + [Close]
  }

  /** The sentence a tree derives. */
  function Yield(c: Config): seq<Token>
    decreases c, 0
  {
    if c == [] then [] else Yield(c[..|c| - 1]) + StatementYield(c[|c| - 1])
  }

  /** Every statement has at least one word. */
  predicate Derivable(c: Config)
    decreases c
  {
    forall s | s in c :: s.tokens != [] && (s.block.Block? ==> Derivable(s.block.statements))
  }

  // ----- the machine -----

  /** The last token that was not a comment, and the open blocks, outermost first. The number
      of open braces is one less than the height of the stack. */
  datatype Machine = Machine(last: TokenType, stack: seq<Config>)

  const FRESH := Machine(Start, [[]])

  function Top(m: Machine): Config
    requires m.stack != []
  {
    m.stack[|m.stack| - 1]
  }

  function SetTop(m: Machine, c: Config): Machine
    requires m.stack != []
  {
    m.(stack := m.stack[|m.stack| - 1 := c])
  }

  function LastOf(c: Config): Statement
    requires c != []
  {
    c[|c| - 1]
  }

  function SetLast(c: Config, s: Statement): Config
    requires c != []
  {
    c[|c| - 1 := s]
  }

  /** The top block holds a statement the next word or bracket can go to. */
  predicate Ready(m: Machine) {
    && m.stack != []
    && (forall i | 0 <= i < |m.stack| - 1 :: m.stack[i] != [])
    && (m.last == Normal ==> Top(m) != [])
  }

  /** A word goes into the current statement, or starts one. */
  function PushWord(m: Machine, text: string): (r: Machine)
    requires Ready(m)
    ensures Ready(r) && r.last == Normal && |r.stack| == |m.stack|
  {
    var c := Top(m);
    var c' := if m.last == Normal then SetLast(c, LastOf(c).(tokens := LastOf(c).tokens + [text]))
              else c + [Statement([text], NoBlock)];
    SetTop(m, c').(last := Normal)
  }

  function EndStatement(m: Machine): Option<Machine> {
    if m.last != Normal then None else Some(m.(last := StatementEnd))
  }

  function OpenBlock(m: Machine): (r: Option<Machine>)
    requires Ready(m)
    ensures r.Some? <==> m.last == Normal
    ensures r.Some? ==> Ready(r.value) && r.value.last == StartBlock && |r.value.stack| == |m.stack| + 1
  {
    if m.last != Normal then None
    else Some(Machine(StartBlock, SetTop(m, SetLast(Top(m), LastOf(Top(m)).(block := Block([])))).stack + [[]]))
  }

  /** Closing a block hands it to the last statement of the block below. */
  function CloseBlock(m: Machine): (r: Option<Machine>)
    requires Ready(m)
    ensures r.Some? <==> m.last in {StatementEnd, StartBlock, EndBlock} && |m.stack| > 1
    ensures r.Some? ==> Ready(r.value) && r.value.last == EndBlock && |r.value.stack| == |m.stack| - 1
  {
    if (m.last != StatementEnd && m.last != StartBlock && m.last != EndBlock) || |m.stack| - 1 <= 0 then None
    else
      var below := m.(stack := m.stack[..|m.stack| - 1]);
      Some(SetTop(below, SetLast(Top(below), LastOf(Top(below)).(block := Block(Top(m))))).(last := EndBlock))
  }

  function Take(m: Machine, t: Token): (r: Option<Machine>)
    requires Ready(m)
    ensures r.Some? ==> Ready(r.value)
  {
    match t
    case Word(text) => Some(PushWord(m, text))
    case Semicolon => EndStatement(m)
    case Open => OpenBlock(m)
    case Close => CloseBlock(m)
  }

  /** The end of the file: no open block and no unfinished statement. */
  function Finish(m: Machine): Option<Config>
    requires Ready(m)
  {
    if (m.last != StatementEnd && m.last != EndBlock && m.last != Start) || |m.stack| - 1 != 0 then None
    else Some(Top(m))
  }

  function TakeAll(m: Machine, ts: seq<Token>): (r: Option<Machine>)
    requires Ready(m)
    ensures r.Some? ==> Ready(r.value)
    decreases |ts|
  {
    if ts == [] then Some(m)
    else
      match Take(m, ts[0])
      case None => None
      case Some(next) => TakeAll(next, ts[1..])
  }

  function Accept(m: Machine, ts: seq<Token>): Option<Config>
    requires Ready(m)
  {
    match TakeAll(m, ts)
    case None => None
    case Some(end) => Finish(end)
  }

  lemma {:induction false} TakeAllConcat(m: Machine, a: seq<Token>, b: seq<Token>)
    requires Ready(m)
    ensures TakeAll(m, a + b) == match TakeAll(m, a) case None => None case Some(mid) => TakeAll(mid, b)
    decreases |a|
  {
    if a == [] {
      assert a + b == b;
    } else {
      assert (a + b)[1..] == a[1..] + b;
      match Take(m, a[0]) {
        case None =>
        case Some(next) => TakeAllConcat(next, a[1..], b);
      }
    }
  }
}
