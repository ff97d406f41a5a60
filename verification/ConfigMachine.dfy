/** The pushdown machine accepts a token stream exactly when the grammar derives it, and builds
    the tree of that derivation. */
module ConfigMachine {
  import opened Shared
  import opened ConfigLexer
  import opened ConfigGrammar

  // ----- every sentence is accepted -----

  /** The kind of the last token of a sentence. */
  function LastKind(c: Config, before: TokenType): TokenType {
    if c == [] then before else if LastOf(c).block.NoBlock? then StatementEnd else EndBlock
  }

  lemma {:induction false} SetTopTwice(m: Machine, a: Config, b: Config)
    requires m.stack != []
    ensures Top(SetTop(m, a)) == a
    ensures forall last :: SetTop(SetTop(m, a).(last := last), b) == SetTop(m, b).(last := last)
  {
    assert SetTop(SetTop(m, a), b).stack == SetTop(m, b).stack;
  }

  lemma {:induction false} WordsTaken(m: Machine, tokens: seq<string>)
    requires Ready(m) && m.last != Normal && tokens != []
    ensures TakeAll(m, Words(tokens)) == Some(SetTop(m, Top(m) + [Statement(tokens, NoBlock)]).(last := Normal))
    decreases |tokens|
  {
    var n := |tokens| - 1;
    var init, last := tokens[..n], tokens[n];
    assert tokens == init + [last];
    assert Words(tokens) == Words(init) + [Word(last)];
    TakeAllConcat(m, Words(init), [Word(last)]);
    if n == 0 {
      assert [last] == tokens;
      assert TakeAll(m, []) == Some(m);
      OneTaken(m, Word(last));
    } else {
      WordsTaken(m, init);
      var mid := SetTop(m, Top(m) + [Statement(init, NoBlock)]).(last := Normal);
      OneTaken(mid, Word(last));
      SetTopTwice(m, Top(mid), Top(m) + [Statement(tokens, NoBlock)]);
      assert init + [last] == tokens;
      assert SetLast(Top(mid), Statement(tokens, NoBlock)) == Top(m) + [Statement(tokens, NoBlock)];
    }
  }

  lemma {:induction false} OneTaken(m: Machine, t: Token)
    requires Ready(m)
    ensures TakeAll(m, [t]) == Take(m, t)
  {
    match Take(m, t) {
      case None =>
      case Some(next) => assert TakeAll(next, []) == Some(next);
    }
  }

  lemma {:induction false} StatementTaken(m: Machine, s: Statement)
    requires Ready(m) && m.last != Normal && Derivable([s])
    ensures TakeAll(m, StatementYield(s)) == Some(SetTop(m, Top(m) + [s]).(last := LastKind([s], m.last)))
    decreases s, 1
  {
    hide TakeAll, Take;
    assert s in [s];
    var words := Words(s.tokens);
    var mid := SetTop(m, Top(m) + [Statement(s.tokens, NoBlock)]).(last := Normal);
    WordsTaken(m, s.tokens);
    match s.block {
      case NoBlock =>
        TakeAllConcat(m, words, [Semicolon]);
        OneTaken(mid, Semicolon);
        SemicolonTaken(mid);
        assert s == Statement(s.tokens, NoBlock);
      case Block(inner) =>
        BlockTaken(mid, s, inner);
        TakeAllConcat(m, words, [Token.Open] + Yield(inner) + [Close]);
        SetTopTwice(m, Top(mid), Top(m) + [s]);
        assert SetLast(Top(mid), s) == Top(m) + [s];
    }
  }

  lemma {:induction false} SemicolonTaken(m: Machine)
    requires Ready(m) && m.last == Normal
    ensures Take(m, Semicolon) == Some(m.(last := StatementEnd))
  {
  }

  lemma {:induction false} BlockTaken(m: Machine, s: Statement, inner: Config)
    requires Ready(m) && m.last == Normal && LastOf(Top(m)) == Statement(s.tokens, NoBlock)
    requires s.block == Block(inner) && Derivable(inner)
    ensures TakeAll(m, [Token.Open] + Yield(inner) + [Close])
         == Some(SetTop(m, SetLast(Top(m), s)).(last := EndBlock))
    decreases s, 0
  {
    var entered := OpenBlock(m).value;
    assert Take(m, Token.Open) == Some(entered);
    assert Top(entered) == [] && [] + inner == inner;
    YieldTaken(entered, inner);
    var filled := SetTop(entered, inner).(last := LastKind(inner, StartBlock));
    assert filled.stack[..|filled.stack| - 1] == SetTop(m, SetLast(Top(m), Statement(s.tokens, Block([])))).stack;
    OneTaken(m, Token.Open);
    OneTaken(filled, Close);
    TakeAllConcat(m, [Token.Open], Yield(inner));
    TakeAllConcat(m, [Token.Open] + Yield(inner), [Close]);
    CloseTaken(m, filled, s, inner);
  }

  lemma {:induction false} CloseTaken(m: Machine, filled: Machine, s: Statement, inner: Config)
    requires Ready(m) && Ready(filled) && Top(m) != [] && LastOf(Top(m)).tokens == s.tokens && s.block == Block(inner)
    requires filled.last == StatementEnd || filled.last == StartBlock || filled.last == EndBlock
    requires filled.stack == SetTop(m, SetLast(Top(m), Statement(s.tokens, Block([])))).stack + [inner]
    ensures CloseBlock(filled) == Some(SetTop(m, SetLast(Top(m), s)).(last := EndBlock))
  {
    var below := SetTop(m, SetLast(Top(m), Statement(s.tokens, Block([]))));
    assert filled.stack[..|filled.stack| - 1] == below.stack;
    SetTopTwice(m, Top(below), SetLast(Top(m), s));
    assert SetLast(Top(below), s) == SetLast(Top(m), s);
  }

  /** The sentence of a derivable tree is taken, and appends that tree to the open block. */
  lemma {:induction false} YieldTaken(m: Machine, c: Config)
    requires Ready(m) && m.last != Normal && Derivable(c)
    ensures TakeAll(m, Yield(c)) == Some(SetTop(m, Top(m) + c).(last := LastKind(c, m.last)))
    decreases c, 0
  {
    hide Take;
    if c == [] {
      assert Top(m) + c == Top(m);
      assert SetTop(m, Top(m)) == m;
    } else {
      var init, last := c[..|c| - 1], LastOf(c);
      assert last in c && forall s | s in init :: s in c;
      YieldTaken(m, init);
      var mid := SetTop(m, Top(m) + init).(last := LastKind(init, m.last));
      StatementTaken(mid, last);
      SetTopTwice(m, Top(mid), Top(m) + c);
      TakeAllConcat(m, Yield(init), StatementYield(last));
      SplitLast(c);
      Regroup(Top(m), init, [last]);
    }
  }

  // ----- only sentences are accepted -----

  /** What has been read of a block whose last statement is still open. */
  function OpenYield(c: Config): seq<Token>
    requires c != []
  {
    Yield(c[..|c| - 1]) + Words(LastOf(c).tokens)
  }

  function BelowYield(stack: seq<Config>): seq<Token>
    requires forall i | 0 <= i < |stack| :: stack[i] != []
  {
    if stack == [] then [] else BelowYield(stack[..|stack| - 1]) + (OpenYield(stack[|stack| - 1]) + [Token.Open])
  }

  /** Everything the machine has read. */
  function Consumed(m: Machine): seq<Token>
    requires Ready(m)
  {
    BelowYield(m.stack[..|m.stack| - 1]) + if m.last == Normal then OpenYield(Top(m)) else Yield(Top(m))
  }

  predicate OpenDerivable(c: Config) {
    c != [] && Derivable(c[..|c| - 1]) && LastOf(c).tokens != []
  }

  predicate Built(m: Machine) {
    && Ready(m)
    && (forall i | 0 <= i < |m.stack| - 1 :: OpenDerivable(m.stack[i]))
    && (if m.last == Normal then OpenDerivable(Top(m)) && LastOf(Top(m)).block.NoBlock? else Derivable(Top(m)))
  }

  lemma {:induction false} DerivableAppend(c: Config, s: Statement)
    requires Derivable(c) && s.tokens != [] && (s.block.Block? ==> Derivable(s.block.statements))
    ensures Derivable(c + [s])
  {
  }

  lemma {:induction false} YieldAppend(c: Config, s: Statement)
    ensures Yield(c + [s]) == Yield(c) + StatementYield(s)
  {
    assert (c + [s])[..|c|] == c;
  }

  /** One token: what has been read grows by it, and the tree so far stays derivable. */
  lemma {:induction false} TakeReads(m: Machine, t: Token)
    requires Built(m) && Take(m, t).Some?
    ensures Built(Take(m, t).value)
    ensures Consumed(Take(m, t).value) == Consumed(m) + [t]
  {
    match t {
      case Word(text) => WordReads(m, text);
      case Semicolon => SemicolonReads(m);
      case Open => OpenReads(m);
      case Close => CloseReads(m);
    }
  }

  lemma {:induction false} NextWord(c: Config, text: string)
    requires OpenDerivable(c)
    ensures var c' := SetLast(c, LastOf(c).(tokens := LastOf(c).tokens + [text]));
            OpenDerivable(c') && OpenYield(c') == OpenYield(c) + [Word(text)]
  {
    hide Yield, Derivable;
    var tokens := LastOf(c).tokens;
    var c' := SetLast(c, LastOf(c).(tokens := tokens + [text]));
    assert c'[..|c'| - 1] == c[..|c| - 1];
    assert Words(tokens + [text]) == Words(tokens) + [Word(text)];
    Regroup(Yield(c[..|c| - 1]), Words(tokens), [Word(text)]);
  }

  lemma {:induction false} FirstWord(c: Config, text: string)
    requires Derivable(c)
    ensures var c' := c + [Statement([text], NoBlock)];
            OpenDerivable(c') && OpenYield(c') == Yield(c) + [Word(text)]
  {
    hide Yield, Derivable;
    var c' := c + [Statement([text], NoBlock)];
    assert c'[..|c|] == c;
    assert Words([text]) == [Word(text)];
  }

  lemma {:induction false} PushedIs(m: Machine, text: string)
    requires Ready(m)
    ensures var c, m' := Top(m), PushWord(m, text);
            && m'.stack[..|m.stack| - 1] == m.stack[..|m.stack| - 1]
            && Top(m') == if m.last == Normal then SetLast(c, LastOf(c).(tokens := LastOf(c).tokens + [text]))
                          else c + [Statement([text], NoBlock)]
  {
  }

  lemma {:induction false} WordReads(m: Machine, text: string)
    requires Built(m)
    ensures Built(PushWord(m, text)) && Consumed(PushWord(m, text)) == Consumed(m) + [Word(text)]
  {
    hide Yield, Derivable, BelowYield, OpenYield, OpenDerivable, PushWord, SetLast;
    var c := Top(m);
    PushedIs(m, text);
    if m.last == Normal {
      NextWord(c, text);
      LastStaysOpen(c, LastOf(c).(tokens := LastOf(c).tokens + [text]));
      Regroup(BelowYield(m.stack[..|m.stack| - 1]), OpenYield(c), [Word(text)]);
    } else {
      FirstWord(c, text);
      Regroup(BelowYield(m.stack[..|m.stack| - 1]), Yield(c), [Word(text)]);
    }
    var n, stack' := |m.stack| - 1, PushWord(m, text).stack;
    assert forall i | 0 <= i < n :: m.stack[i] == m.stack[..n][i] && stack'[i] == stack'[..n][i];
  }

  lemma {:induction false} LastStaysOpen(c: Config, s: Statement)
    requires c != []
    ensures SetLast(c, s) != [] && LastOf(SetLast(c, s)) == s
  {
  }

  lemma {:induction false} StatementEnds(c: Config)
    requires OpenDerivable(c) && LastOf(c).block.NoBlock?
    ensures Derivable(c) && Yield(c) == OpenYield(c) + [Semicolon]
  {
    hide Derivable, Yield;
    var init, last := c[..|c| - 1], LastOf(c);
    SplitLast(c);
    DerivableAppend(init, last);
    YieldAppend(init, last);
    assert StatementYield(last) == Words(last.tokens) + [Semicolon];
    Regroup(Yield(init), Words(last.tokens), [Semicolon]);
  }

  lemma {:induction false} SemicolonReads(m: Machine)
    requires Built(m) && EndStatement(m).Some?
    ensures var m' := EndStatement(m).value; Built(m') && Consumed(m') == Consumed(m) + [Semicolon]
  {
    hide Yield, Derivable, BelowYield, OpenYield;
    StatementEnds(Top(m));
    Regroup(BelowYield(m.stack[..|m.stack| - 1]), OpenYield(Top(m)), [Semicolon]);
  }

  lemma {:induction false} OpenReads(m: Machine)
    requires Built(m) && OpenBlock(m).Some?
    ensures var m' := OpenBlock(m).value; Built(m') && Consumed(m') == Consumed(m) + [Token.Open]
  {
    NothingRead();
    hide Yield, Derivable, Words;
    var c, m' := Top(m), OpenBlock(m).value;
    var n := |m.stack| - 1;
    var open := SetLast(c, LastOf(c).(block := Block([])));
    assert open[..|c| - 1] == c[..|c| - 1] && OpenYield(open) == OpenYield(c);
    var below := m'.stack[..n + 1];
    assert below[..n] == m.stack[..n] && below[n] == open;
    assert BelowYield(below) == BelowYield(m.stack[..n]) + (OpenYield(open) + [Token.Open]);
  }

  lemma {:induction false} NothingRead()
    ensures Yield([]) == [] && Derivable([])
  {
  }

  lemma {:induction false} CloseReads(m: Machine)
    requires Built(m) && CloseBlock(m).Some?
    ensures var m' := CloseBlock(m).value; Built(m') && Consumed(m') == Consumed(m) + [Close]
  {
    hide Yield, Derivable;
    var inner, m' := Top(m), CloseBlock(m).value;
    var n := |m.stack| - 2;
    var c := m.stack[n];
    var init, last := c[..|c| - 1], LastOf(c).(block := Block(inner));
    assert Top(m') == init + [last];
    assert m'.stack[..n] == m.stack[..n];
    var below := m.stack[..n + 1];
    assert below[..n] == m.stack[..n] && below[n] == c;
    DerivableAppend(init, last);
    YieldAppend(init, last);
    assert StatementYield(last) == Words(last.tokens) + ([Token.Open] + Yield(inner) + [Close]);
    assert OpenDerivable(m.stack[n]);
  }

  lemma {:induction false} TakeAllReads(m: Machine, ts: seq<Token>)
    requires Built(m) && TakeAll(m, ts).Some?
    ensures Built(TakeAll(m, ts).value)
    ensures Consumed(TakeAll(m, ts).value) == Consumed(m) + ts
    decreases |ts|
  {
    hide Take, Consumed;
    if ts == [] {
      assert Consumed(m) + [] == Consumed(m);
    } else {
      TakeReads(m, ts[0]);
      TakeAllReads(Take(m, ts[0]).value, ts[1..]);
      assert Consumed(m) + [ts[0]] + ts[1..] == Consumed(m) + ts;
    }
  }

  /** At every moment the machine has one open block more than open braces, and the blocks below
      the top have read exactly the tokens before the brace that entered the next one. */
  lemma {:induction false} StackReads(ts: seq<Token>)
    requires TakeAll(FRESH, ts).Some?
    ensures Built(TakeAll(FRESH, ts).value) && Consumed(TakeAll(FRESH, ts).value) == ts
  {
    FreshIsBuilt();
    TakeAllReads(FRESH, ts);
    assert [] + ts == ts;
  }

  lemma {:induction false} FreshIsBuilt()
    ensures Built(FRESH) && Consumed(FRESH) == []
  {
    assert FRESH.stack[..0] == [];
    assert BelowYield([]) == [] && Yield([]) == [];
  }

  /** Main theorem: a token stream is accepted with a tree if and only if that tree derives it;
      so the grammar is unambiguous and the machine decides it. */
  lemma {:induction false} AcceptIffDerives(ts: seq<Token>, c: Config)
    ensures Accept(FRESH, ts) == Some(c) <==> Derivable(c) && Yield(c) == ts
  {
    hide TakeAll, Yield, Derivable;
    if Accept(FRESH, ts) == Some(c) {
      StackReads(ts);
      var m := TakeAll(FRESH, ts).value;
      assert m.stack[..0] == [];
      assert BelowYield([]) == [] && [] + Yield(c) == Yield(c);
    }
    if Derivable(c) && Yield(c) == ts {
      YieldTaken(FRESH, c);
      assert [] + c == c;
    }
  }
}
