/** The parser over objects: a stack of references to the open blocks, each the child of the last
    statement of the one below. It is proved to do what the machine of `ConfigGrammar` does. */
module ConfigObjectParser {
  import opened Shared
  import opened ConfigLexer
  import opened ConfigGrammar
  import opened ConfigText
  import opened ConfigObjects

  function TopBlock(stack: seq<NginxConfig>): NginxConfig
    requires stack != []
  {
    stack[|stack| - 1]
  }

  function Current(c: NginxConfig): NginxConfigStatement
    requires c.statements != []
    reads c
  {
    c.statements[|c.statements| - 1]
  }

  /** The last statement of a block that is still being read. */
  ghost predicate OpenLast(c: NginxConfig, view: Config, child: NginxConfig?, ss: set<NginxConfigStatement>)
    reads c, c.statements, ss
  {
    var n := |c.statements| - 1;
    && n >= 0 && |view| == n + 1
    && Lists(c.statements[..n], view[..n], ss)
    && c.statements[n] !in ss
    && c.statements[n].tokens == view[n].tokens
    && c.statements[n].child == child
  }

  /** The value of the block at height `k`: the outermost one held statements before. */
  function ViewAt(views: seq<Config>, base: Config, k: nat): Config
    requires k < |views|
  {
    if k == 0 then base + views[0] else views[k]
  }

  /** The blocks below the top: each ends in the statement whose child is the block above. */
  ghost predicate Below(stack: seq<NginxConfig>, views: seq<Config>, base: Config, ss: set<NginxConfigStatement>)
    requires |stack| == |views| + 1
    reads set k | 0 <= k < |views| :: stack[k]
    reads set k, j | 0 <= k < |views| && 0 <= j < |stack[k].statements| :: stack[k].statements[j]
    reads ss
  {
    forall k | 0 <= k < |views| :: OpenLast(stack[k], ViewAt(views, base, k), stack[k + 1], ss)
  }

  /** The top block: its last statement is open while words are being read. */
  ghost predicate AtTop(c: NginxConfig, view: Config, last: TokenType, ss: set<NginxConfigStatement>)
    reads c, c.statements, ss
  {
    if last == Normal then OpenLast(c, view, null, ss) else Lists(c.statements, view, ss)
  }

  ghost predicate Distinct(stack: seq<NginxConfig>, cs: set<NginxConfig>) {
    && (forall i | 0 <= i < |stack| :: stack[i] !in cs)
    && (forall i, j | 0 <= i < j < |stack| :: stack[i] != stack[j])
  }

  function Init<T>(s: seq<T>): seq<T>
    requires s != []
  {
    s[..|s| - 1]
  }

  function Last<T>(s: seq<T>): T
    requires s != []
  {
    s[|s| - 1]
  }

  /** The stack of references is the stack of the machine: as high as the braces open, and
      everything that is not on it complete. */
  ghost predicate InProgress(stack: seq<NginxConfig>, m: Machine, base: Config,
                             cs: set<NginxConfig>, ss: set<NginxConfigStatement>)
    reads stack
    reads set k, j | 0 <= k < |stack| && 0 <= j < |stack[k].statements| :: stack[k].statements[j]
    reads cs, ss
  {
    && Ready(m) && |stack| == |m.stack|
    && (m.last == Normal ==> LastOf(Top(m)).block.NoBlock?)
    && Closed(cs, ss)
    && Distinct(stack, cs)
    && Below(stack, Init(m.stack), base, ss)
    && AtTop(Last(stack), ViewAt(m.stack, base, |stack| - 1), m.last, ss)
  }

  lemma {:induction false} ViewAfter(m: Machine, base: Config, c: Config)
    requires m.stack != []
    ensures SetTop(m, c).stack != [] && Init(SetTop(m, c).stack) == Init(m.stack)
    ensures ViewAt(SetTop(m, c).stack, base, |m.stack| - 1) == if |m.stack| == 1 then base + c else c
  {
  }

  lemma {:induction false} ViewWithStatement(m: Machine, base: Config, token: string)
    requires Ready(m) && m.last != Normal
    ensures var m', t := PushWord(m, token), |m.stack| - 1;
            && Init(m'.stack) == Init(m.stack)
            && ViewAt(m'.stack, base, t) == ViewAt(m.stack, base, t) + [Statement([token], NoBlock)]
            && LastOf(Top(m')).block.NoBlock?
  {
    ViewAfter(m, base, Top(m) + [Statement([token], NoBlock)]);
  }

  /** Replacing the last statement of the open block changes the end of its value. */
  lemma {:induction false} ViewWithLast(m: Machine, base: Config, s: Statement)
    requires m.stack != [] && Top(m) != []
    ensures var t, m' := |m.stack| - 1, SetTop(m, SetLast(Top(m), s));
            && |m'.stack| == t + 1 && Init(m'.stack) == Init(m.stack)
            && Top(m') == SetLast(Top(m), s) && Top(m') != [] && LastOf(Top(m')) == s
            && var view, view' := ViewAt(m.stack, base, t), ViewAt(m'.stack, base, t);
            && view != [] && Last(view) == LastOf(Top(m))
            && |view'| == |view| && Init(view') == Init(view) && Last(view') == s
  {
    var c, c' := Top(m), SetLast(Top(m), s);
    ViewAfter(m, base, c');
    assert Init(base + c') == base + Init(c) == Init(base + c);
  }

  lemma {:induction false} ReplacesLast(c: NginxConfig, view: Config, view': Config, child: NginxConfig?,
                                        ss: set<NginxConfigStatement>)
    requires c.statements != [] && |view| == |c.statements| == |view'| && Init(view') == Init(view)
    requires Lists(Init(c.statements), Init(view), ss) && Current(c) !in ss
    requires Current(c).tokens == Last(view').tokens && Current(c).child == child
    ensures OpenLast(c, view', child, ss)
  {
  }

  lemma {:induction false} OpensLast(c: NginxConfig, view: Config, s: NginxConfigStatement,
                                     ss: set<NginxConfigStatement>)
    requires c.statements != [] && Current(c) == s && s !in ss && s.child == null
    requires Lists(c.statements[..|c.statements| - 1], view, ss)
    ensures OpenLast(c, view + [Statement(s.tokens, NoBlock)], null, ss)
  {
    var view' := view + [Statement(s.tokens, NoBlock)];
    assert view'[..|view|] == view;
  }

  method NewStatement(stack: seq<NginxConfig>, token: string, ghost m: Machine, ghost base: Config,
                      ghost cs: set<NginxConfig>, ghost ss: set<NginxConfigStatement>)
    requires InProgress(stack, m, base, cs, ss) && m.last != Normal
    modifies Last(stack)
    ensures InProgress(stack, PushWord(m, token), base, cs, ss)
    ensures Last(stack).statements != [] && fresh(Current(Last(stack)))
    ensures Last(stack).view == old(Last(stack).view)
  {
    hide Closed, Below, Lists, PushWord, ViewAt, OpenLast;
    var top := Last(stack);
    ghost var view := ViewAt(m.stack, base, |stack| - 1);
    var statement := new NginxConfigStatement(token);
    top.statements := top.statements + [statement];
    ViewWithStatement(m, base, token);
    assert top.statements[..|top.statements| - 1] == old(top.statements);
    assert Lists(old(top.statements), view, ss);
    OpensLast(top, view, statement, ss);
  }

  method AddWord(stack: seq<NginxConfig>, token: string, ghost m: Machine, ghost base: Config,
                 ghost cs: set<NginxConfig>, ghost ss: set<NginxConfigStatement>)
    requires InProgress(stack, m, base, cs, ss) && m.last == Normal
    modifies Current(Last(stack))
    ensures InProgress(stack, PushWord(m, token), base, cs, ss)
    ensures unchanged(Last(stack))
  {
    hide Closed, Below, Lists, ViewAt, SetLast, SetTop, PushWord;
    var top, statement := Last(stack), Current(Last(stack));
    ghost var t, last := |stack| - 1, LastOf(Top(m));
    ghost var last' := last.(tokens := last.tokens + [token]);
    PushIs(m, token);
    ViewWithLast(m, base, last');
    NotBelow(stack, Init(m.stack), base, ss, statement);
    statement.tokens := statement.tokens + [token];
    ReplacesLast(top, ViewAt(m.stack, base, t), ViewAt(PushWord(m, token).stack, base, t), null, ss);
  }

  lemma {:induction false} PushIs(m: Machine, token: string)
    requires Ready(m) && m.last == Normal
    ensures var last := LastOf(Top(m));
            PushWord(m, token) == SetTop(m, SetLast(Top(m), last.(tokens := last.tokens + [token]))).(last := Normal)
  {
    hide SetTop, SetLast;
  }

  /** A statement without the right child is none of those below. */
  lemma {:induction false} NotBelow(stack: seq<NginxConfig>, views: seq<Config>, base: Config,
                                    ss: set<NginxConfigStatement>, s: NginxConfigStatement)
    requires |stack| == |views| + 1 && Below(stack, views, base, ss)
    requires s !in ss && forall i | 1 <= i < |stack| :: s.child != stack[i]
    ensures forall k, j | 0 <= k < |views| && 0 <= j < |stack[k].statements| :: stack[k].statements[j] != s
  {
    forall k, j | 0 <= k < |views| && 0 <= j < |stack[k].statements|
      ensures stack[k].statements[j] != s
    {
      var n := |stack[k].statements| - 1;
      assert OpenLast(stack[k], ViewAt(views, base, k), stack[k + 1], ss);
      if j < n { assert stack[k].statements[..n][j] in ss; }
    }
  }

  // ----- completing a statement -----

  lemma {:induction false} ListsGrow(statements: seq<NginxConfigStatement>, view: Config,
                                     ss: set<NginxConfigStatement>, s: NginxConfigStatement)
    requires Lists(statements, view, ss)
    ensures Lists(statements, view, ss + {s})
  {
  }

  lemma {:induction false} ClosedGrows(cs: set<NginxConfig>, ss: set<NginxConfigStatement>, s: NginxConfigStatement)
    requires Closed(cs, ss)
    requires s.child != null ==> s.child in cs
    requires s.view == Statement(s.tokens, if s.child == null then NoBlock else Block(s.child.view))
    ensures Closed(cs, ss + {s})
  {
    forall c | c in cs
      ensures Lists(c.statements, c.view, ss + {s})
    {
      ListsGrow(c.statements, c.view, ss, s);
    }
  }

  lemma {:induction false} BelowGrows(stack: seq<NginxConfig>, views: seq<Config>, base: Config,
                                      ss: set<NginxConfigStatement>, s: NginxConfigStatement)
    requires |stack| == |views| + 1 && Below(stack, views, base, ss)
    requires forall i | 1 <= i < |stack| :: s.child != stack[i]
    ensures Below(stack, views, base, ss + {s})
  {
    forall k | 0 <= k < |views|
      ensures OpenLast(stack[k], ViewAt(views, base, k), stack[k + 1], ss + {s})
    {
      var c, view := stack[k], ViewAt(views, base, k);
      assert OpenLast(c, view, stack[k + 1], ss);
      ListsGrow(c.statements[..|view| - 1], view[..|view| - 1], ss, s);
    }
  }

  lemma {:induction false} ListsLast(c: NginxConfig, view: Config, child: NginxConfig?,
                                     ss: set<NginxConfigStatement>)
    requires OpenLast(c, view, child, ss)
    requires Current(c).view == Last(view)
    ensures Lists(c.statements, view, ss + {Current(c)})
  {
    var n := |view| - 1;
    assert forall i | 0 <= i < n :: c.statements[..n][i] == c.statements[i] && view[..n][i] == view[i];
  }

  /** A semicolon makes the open statement complete. */
  ghost method CompleteStatement(stack: seq<NginxConfig>, m: Machine, base: Config,
                                 cs: set<NginxConfig>, ss: set<NginxConfigStatement>)
    returns (ss': set<NginxConfigStatement>)
    requires InProgress(stack, m, base, cs, ss) && m.last == Normal
    modifies Current(Last(stack))`view
    ensures InProgress(stack, m.(last := StatementEnd), base, cs, ss')
    ensures ss' == ss + {Current(Last(stack))}
  {
    hide Closed, Below, Lists;
    var s := Current(Last(stack));
    var view := ViewAt(m.stack, base, |stack| - 1);
    NotBelow(stack, Init(m.stack), base, ss, s);
    s.view := Statement(s.tokens, NoBlock);
    assert Last(view) == s.view;
    ListsLast(Last(stack), view, null, ss);
    BelowGrows(stack, Init(m.stack), base, ss, s);
    ClosedGrows(cs, ss, s);
    ss' := ss + {s};
  }

  /** An opening brace hangs a new block under the open statement and stacks it. */
  method NestBlock(stack: seq<NginxConfig>, ghost m: Machine, ghost base: Config,
                   ghost cs: set<NginxConfig>, ghost ss: set<NginxConfigStatement>)
    returns (stack': seq<NginxConfig>)
    requires InProgress(stack, m, base, cs, ss) && OpenBlock(m).Some?
    modifies Current(Last(stack))`child
    ensures InProgress(stack', OpenBlock(m).value, base, cs, ss)
    ensures |stack'| == |stack| + 1 && Init(stack') == stack && fresh(Last(stack')) && unchanged(Last(stack))
  {
    hide Closed, Below, Lists, ViewAt, SetLast, SetTop, OpenBlock;
    var top, statement := Last(stack), Current(Last(stack));
    ghost var t, last := |stack| - 1, LastOf(Top(m)).(block := Block([]));
    ghost var m' := SetTop(m, SetLast(Top(m), last));
    OpenIs(m);
    ViewWithLast(m, base, last);
    NotBelow(stack, Init(m.stack), base, ss, statement);
    var config := new NginxConfig();
    statement.child := config;
    stack' := stack + [config];
    ReplacesLast(top, ViewAt(m.stack, base, t), ViewAt(m'.stack, base, t), config, ss);
    BelowPush(stack, Init(m.stack), m'.stack, base, ss, config);
    assert Init(m'.stack + [[]]) == m'.stack;
    EmptyLists(ss);
    NestedView(m'.stack, base);
  }

  lemma {:induction false} OpenIs(m: Machine)
    requires Ready(m) && m.last == Normal
    ensures var last := LastOf(Top(m)).(block := Block([]));
            OpenBlock(m) == Some(Machine(StartBlock, SetTop(m, SetLast(Top(m), last)).stack + [[]]))
  {
    hide SetTop, SetLast;
  }

  lemma {:induction false} NestedView(views: seq<Config>, base: Config)
    requires views != []
    ensures ViewAt(views + [[]], base, |views|) == []
  {
  }

  lemma {:induction false} BelowPush(stack: seq<NginxConfig>, views: seq<Config>, views': seq<Config>, base: Config,
                                     ss: set<NginxConfigStatement>, config: NginxConfig)
    requires |stack| == |views| + 1 == |views'| && Init(views') == views && Below(stack, views, base, ss)
    requires OpenLast(Last(stack), ViewAt(views', base, |views|), config, ss)
    ensures Below(stack + [config], views', base, ss)
  {
    hide OpenLast;
    var stack' := stack + [config];
    forall k | 0 <= k < |views'|
      ensures OpenLast(stack'[k], ViewAt(views', base, k), stack'[k + 1], ss)
    {
      if k < |views| {
        assert OpenLast(stack[k], ViewAt(views, base, k), stack[k + 1], ss);
        assert views'[k] == Init(views')[k];
      }
    }
  }

  lemma {:induction false} BelowPop(stack: seq<NginxConfig>, views: seq<Config>, base: Config,
                                    ss: set<NginxConfigStatement>)
    requires |stack| == |views| + 1 && views != [] && Below(stack, views, base, ss)
    ensures Below(Init(stack), Init(views), base, ss)
    ensures OpenLast(stack[|views| - 1], ViewAt(views, base, |views| - 1), Last(stack), ss)
  {
    hide OpenLast;
    forall k | 0 <= k < |views| - 1
      ensures OpenLast(Init(stack)[k], ViewAt(Init(views), base, k), Init(stack)[k + 1], ss)
    {
      assert OpenLast(stack[k], ViewAt(views, base, k), stack[k + 1], ss);
    }
    assert OpenLast(stack[|views| - 1], ViewAt(views, base, |views| - 1), stack[|views|], ss);
  }

  lemma {:induction false} EmptyLists(ss: set<NginxConfigStatement>)
    ensures Lists([], [], ss)
  {
  }

  /** A closing brace makes the top block complete, and with it the statement that holds it. */
  ghost method CompleteBlock(stack: seq<NginxConfig>, m: Machine, base: Config,
                             cs: set<NginxConfig>, ss: set<NginxConfigStatement>)
    returns (cs': set<NginxConfig>, ss': set<NginxConfigStatement>)
    requires InProgress(stack, m, base, cs, ss) && CloseBlock(m).Some?
    modifies TopBlock(stack)`view, Current(stack[|stack| - 2])`view
    ensures InProgress(Init(stack), CloseBlock(m).value, base, cs', ss')
    ensures stack[0].view == old(stack[0].view)
    ensures cs' == cs + {Last(stack)} && ss' == ss + {Current(stack[|stack| - 2])}
  {
    hide Below, Lists, ViewAt, SetLast, SetTop, CloseBlock;
    CloseIs(m);
    var t := |stack| - 1;
    var stack', views := Init(stack), Init(m.stack);
    BelowPop(stack, views, base, ss);
    var top, below, s := stack[t], stack[t - 1], Current(stack[t - 1]);
    var m0, last := m.(stack := views), LastOf(views[t - 1]).(block := Block(Top(m)));
    var m' := SetTop(m0, SetLast(Top(m0), last));
    ViewWithLast(m0, base, last);
    NotBelow(stack', Init(views), base, ss, s);
    assert Lists(top.statements, Top(m), ss) by { TopView(m.stack, base); }
    assert Lists(Init(below.statements), Init(ViewAt(views, base, t - 1)), ss);
    top.view := Top(m);
    s.view := Statement(s.tokens, Block(top.view));
    cs', ss' := cs + {top}, ss + {s};
    ClosedWith(cs, ss, top);
    ClosedGrows(cs', ss, s);
    BelowGrows(stack', Init(views), base, ss, s);
    var view' := ViewAt(m'.stack, base, t - 1);
    ReplacesLast(below, ViewAt(views, base, t - 1), view', top, ss);
    ListsLast(below, view', top, ss);
  }

  lemma {:induction false} CloseIs(m: Machine)
    requires Ready(m) && CloseBlock(m).Some?
    ensures |m.stack| > 1 && m.last != Normal && m.stack[|m.stack| - 2] != []
    ensures var m0 := m.(stack := Init(m.stack));
            var last := LastOf(Top(m0)).(block := Block(Top(m)));
            CloseBlock(m) == Some(SetTop(m0, SetLast(Top(m0), last)).(last := EndBlock))
  {
    hide SetTop, SetLast;
  }

  lemma {:induction false} TopView(stack: seq<Config>, base: Config)
    requires |stack| > 1
    ensures ViewAt(stack, base, |stack| - 1) == Last(stack)
  {
  }

  lemma {:induction false} ClosedWith(cs: set<NginxConfig>, ss: set<NginxConfigStatement>, c: NginxConfig)
    requires Closed(cs, ss) && Lists(c.statements, c.view, ss)
    ensures Closed(cs + {c}, ss)
  {
    hide Lists;
  }

  // ----- the parse loop -----

  /** The objects a step may still change were all made by this parse, except the outermost block. */
  ghost predicate OpenOnes(stack: seq<NginxConfig>, last: TokenType, owned: set<object>)
    reads stack
  {
    && (forall k | 1 <= k < |stack| :: stack[k] in owned)
    && (forall k | 0 <= k < |stack| && (k < |stack| - 1 || last == Normal) ::
          stack[k].statements != [] && Current(stack[k]) in owned)
  }

  lemma {:induction false} StartsInProgress(config: NginxConfig, cs: set<NginxConfig>, ss: set<NginxConfigStatement>)
    requires Closed(cs, ss) && config !in cs && Lists(config.statements, config.view, ss)
    ensures InProgress([config], FRESH, config.view, cs, ss) && OpenOnes([config], Start, {})
  {
    assert config.view + [] == config.view;
    assert Init(FRESH.stack) == [];
  }

  /** Words, semicolons and braces, as long as they may come here. */
  method TakeToken(stack: seq<NginxConfig>, last: TokenType, blockCounter: int, kind: TokenType, token: string,
                   ghost m: Machine, ghost base: Config, ghost cs0: set<NginxConfig>,
                   ghost ss0: set<NginxConfigStatement>, ghost owned0: set<object>, t: Token)
    returns (ok: bool, stack': seq<NginxConfig>, counter': int,
             ghost cs: set<NginxConfig>, ghost ss: set<NginxConfigStatement>, ghost owned: set<object>)
    requires InProgress(stack, m, base, cs0, ss0) && Ready(m) && |stack| == |m.stack|
    requires last == m.last && blockCounter == |stack| - 1 && OpenOnes(stack, last, owned0)
    requires match kind
             case Normal => t == Word(token)
             case StatementEnd => t == Semicolon
             case StartBlock => t == Token.Open
             case EndBlock => t == Close
             case _ => false
    modifies stack[0], owned0
    ensures ok == Take(m, t).Some?
    ensures ok ==> && InProgress(stack', Take(m, t).value, base, cs, ss)
                   && stack' != [] && stack'[0] == stack[0] && stack[0].view == old(stack[0].view)
                   && |stack'| == |Take(m, t).value.stack| && counter' == |stack'| - 1
                   && OpenOnes(stack', kind, owned) && fresh(owned - owned0)
  {
    hide InProgress, OpenBlock, CloseBlock, PushWord;
    ok, stack', counter', cs, ss, owned := true, stack, blockCounter, cs0, ss0, owned0;
    if kind == Normal {
      if last != Normal {
        NewStatement(stack, token, m, base, cs, ss);
        owned := owned + {Current(Last(stack))};
      } else {
        AddWord(stack, token, m, base, cs, ss);
      }
    } else if kind == StatementEnd {
      if last != Normal {
        return false, stack, blockCounter, cs, ss, owned;
      }
      ss := CompleteStatement(stack, m, base, cs, ss);
    } else if kind == StartBlock {
      if last != Normal {
        return false, stack, blockCounter, cs, ss, owned;
      }
      stack' := NestBlock(stack, m, base, cs, ss);
      assert forall k | 0 <= k < |stack| :: stack'[k] == Init(stack')[k];
      owned := owned + {Last(stack')};
      counter' := blockCounter + 1;
    } else {
      if (last != StatementEnd && last != StartBlock && last != EndBlock) || blockCounter <= 0 {
        return false, stack, blockCounter, cs, ss, owned;
      }
      cs, ss := CompleteBlock(stack, m, base, cs, ss);
      stack' := Init(stack);
      counter' := blockCounter - 1;
    }
  }

  /** Reads a whole text into `config`, after what it already holds. On success every object
      reached from it is complete, and together they stand for the tree of the grammar. */
  method Parse(input: InputStream, config: NginxConfig, ghost cs0: set<NginxConfig>,
               ghost ss0: set<NginxConfigStatement>)
    returns (ok: bool, ghost cs: set<NginxConfig>, ghost ss: set<NginxConfigStatement>)
    requires input.Valid() && Closed(cs0, ss0) && config !in cs0 && Lists(config.statements, config.view, ss0)
    modifies input, config
    ensures ok == ConfigText.Parse(old(config.view), old(input.Rest())).Some?
    ensures ok ==> ConfigText.Parse(old(config.view), old(input.Rest())) == Some(config.view)
    ensures ok ==> Closed(cs, ss) && config !in cs && Lists(config.statements, config.view, ss)
  {
    hide LexFrom, InProgress, OpenBlock, CloseBlock, PushWord, Closed, Lists, OpenOnes;
    ghost var base := config.view;
    ghost var m := FRESH;
    ghost var owned: set<object> := {};
    var configStack := [config];
    var lastTokenType := Start;
    var blockCounter := 0;
    cs, ss := cs0, ss0;
    StartsInProgress(config, cs, ss);
    while true
      invariant input.Valid() && Ready(m)
      invariant lastTokenType == m.last && |configStack| == |m.stack| && blockCounter == |configStack| - 1
      invariant InProgress(configStack, m, base, cs, ss) && configStack[0] == config && config.view == base
      invariant fresh(owned) && OpenOnes(configStack, lastTokenType, owned)
      invariant ParseFrom(m, input.Rest()) == ParseFrom(FRESH, old(input.Rest()))
      decreases |input.Rest()|
    {
      var tokenType, token := ParseToken(input);
      if tokenType == Error || tokenType == Start {
        return false, cs, ss;
      }
      if tokenType == Comment {
        continue;
      }
      if tokenType == EndOfFile {
        if (lastTokenType != StatementEnd && lastTokenType != EndBlock && lastTokenType != Start)
           || blockCounter != 0 {
          return false, cs, ss;
        }
        EndsComplete(config, configStack, m, base, cs, ss);
        config.view := base + Top(m);
        return true, cs, ss;
      }
      ghost var m' := Take(m, TokenFor(tokenType, token));
      var ok', counter;
      ok', configStack, counter, cs, ss, owned :=
        TakeToken(configStack, lastTokenType, blockCounter, tokenType, token, m, base, cs, ss, owned,
                  TokenFor(tokenType, token));
      if !ok' {
        return false, cs, ss;
      }
      m := m'.value;
      blockCounter := counter;
      lastTokenType := tokenType;
    }
  }

  /** The grammar's token for one the tokenizer returned. */
  function TokenFor(kind: TokenType, token: string): Token {
    match kind
    case StatementEnd => Semicolon
    case StartBlock => Token.Open
    case EndBlock => Close
    case _ => Word(token)
  }

  lemma {:induction false} EndsComplete(config: NginxConfig, stack: seq<NginxConfig>, m: Machine, base: Config,
                                        cs: set<NginxConfig>, ss: set<NginxConfigStatement>)
    requires InProgress(stack, m, base, cs, ss) && |stack| == 1 && stack[0] == config && m.last != Normal
    ensures Closed(cs, ss) && config !in cs && Lists(config.statements, base + Top(m), ss)
  {
  }
}
