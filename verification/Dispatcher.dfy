/** The table of request handlers built from a configuration, and the longest-prefix dispatch. */
module Dispatcher {
  import opened Shared
  import opened ConfigGrammar
  import opened ConfigLexer
  import opened ConfigText
  import opened Handlers

  /** The handler table, where a handler may be a null pointer, and the two static fields that describe it. */
  datatype Tables = Tables(handlers: map<string, Option<Handler>>, uriNames: map<string, string>, count: nat)

  const NO_TABLES := Tables(map[], map[], 0)

  /** Trailing slashes go, but a single character stays. */
  function TrimSlashes(path: string): (trimmed: string)
    ensures trimmed <= path
  {
    if |path| > 1 && path[|path| - 1] == '/' then TrimSlashes(path[..|path| - 1]) else path
  }

  /** The path of a location: its second word without the double quotes and trailing slashes. */
  function PathOf(s: Statement): Option<string> {
    if |s.tokens| > 2 && s.tokens[0] == "location" then
      var path := s.tokens[1];
      if |path| >= 2 && path[0] == '"' && path[|path| - 1] == '"' then Some(TrimSlashes(path[1..|path| - 1])) else None
    else None
  }

  /** Where a handler goes in the table, and under which path it is described. */
  function HandlerKey(kind: HandlerType, path: string): string {
    if kind.Missing? then "/" else if kind.BadRequest? then "/badrequest" else path
  }

  function NameKey(kind: HandlerType, path: string): string {
    if kind.Missing? then "/" else path
  }

  /** One statement: no handler is made for a path that has one. */
  function CreateHandler(t: Tables, s: Statement, kind: HandlerType): Tables {
    var path := PathOf(s);
    if path.None? || path.value in t.handlers then t
    else
      Tables(t.handlers[HandlerKey(kind, path.value) := Made(kind, NameKey(kind, path.value), s)],
             t.uriNames[NameKey(kind, path.value) := NameOf(kind)],
             t.count + 1)
  }

  function AddStatement(t: Tables, s: Statement): Tables {
    if |s.tokens| > 2 && TypeOf(s.tokens[2]).Some? then CreateHandler(t, s, TypeOf(s.tokens[2]).value) else t
  }

  function AddStatements(t: Tables, statements: seq<Statement>): Tables {
    if statements == [] then t
    else AddStatement(AddStatements(t, statements[..|statements| - 1]), statements[|statements| - 1])
  }

  /** The statements of all `server` blocks, in order. */
  function ServerStatements(c: Config): seq<Statement> {
    if c == [] then []
    else
      var last := c[|c| - 1];
      var own := if last.tokens == ["server"] && last.block.Block? then last.block.statements else [];
      ServerStatements(c[..|c| - 1]) + own
  }

  function BuildTables(c: Config): Tables {
    AddStatements(NO_TABLES, ServerStatements(c))
  }

  // ----- what the table holds -----

  /** The location has a known type other than the two that are filed under fixed keys. */
  predicate Ordinary(s: Statement, key: string) {
    && PathOf(s) == Some(key)
    && var kind := TypeOf(s.tokens[2]); kind.Some? && !kind.value.Missing? && !kind.value.BadRequest?
  }

  predicate FirstOrdinary(statements: seq<Statement>, i: nat, key: string)
    requires i < |statements|
  {
    Ordinary(statements[i], key) && forall j | 0 <= j < i :: !Ordinary(statements[j], key)
  }

  /** Away from the two fixed keys the first location wins, and no other key is ever made. */
  lemma {:induction false} FirstLocationWins(statements: seq<Statement>, key: string)
    requires key != "/" && key != "/badrequest"
    ensures var handlers := AddStatements(NO_TABLES, statements).handlers;
            && (key in handlers <==> exists i | 0 <= i < |statements| :: FirstOrdinary(statements, i, key))
            && forall i | 0 <= i < |statements| && FirstOrdinary(statements, i, key) ::
                 key in handlers && handlers[key] == Made(TypeOf(statements[i].tokens[2]).value, key, statements[i])
  {
    hide AddStatement, Ordinary;
    if statements != [] {
      var n := |statements| - 1;
      var front := statements[..n];
      FirstLocationWins(front, key);
      assert forall i | 0 <= i < n :: FirstOrdinary(statements, i, key) <==> FirstOrdinary(front, i, key);
      StatementTakesKey(AddStatements(NO_TABLES, front), statements[n], key);
      if key in AddStatements(NO_TABLES, front).handlers {
        var i :| 0 <= i < |front| && FirstOrdinary(front, i, key);
        assert !FirstOrdinary(statements, n, key) by { assert Ordinary(statements[i], key); }
        assert FirstOrdinary(statements, i, key);
      } else {
        NoneIsFirst(front, key);
        assert forall i | 0 <= i < n :: front[i] == statements[i];
        assert FirstOrdinary(statements, n, key) <==> Ordinary(statements[n], key);
      }
    }
  }

  lemma {:induction false} StatementTakesKey(t: Tables, s: Statement, key: string)
    requires key != "/" && key != "/badrequest"
    ensures var after := AddStatement(t, s).handlers;
            && (key in after <==> key in t.handlers || Ordinary(s, key))
            && (key in t.handlers ==> key in after && after[key] == t.handlers[key])
            && (key !in t.handlers && Ordinary(s, key) ==>
                  key in after && after[key] == Made(TypeOf(s.tokens[2]).value, key, s))
  {
    hide TypeOf, PathOf;
    PathNeedsType(s);
  }

  lemma {:induction false} NoneIsFirst(statements: seq<Statement>, key: string)
    requires forall i | 0 <= i < |statements| :: !FirstOrdinary(statements, i, key)
    ensures forall i | 0 <= i < |statements| :: !Ordinary(statements[i], key)
  {
    hide Ordinary;
    for n := 0 to |statements|
      invariant forall i | 0 <= i < n :: !Ordinary(statements[i], key)
    {
      assert !FirstOrdinary(statements, n, key);
    }
  }

  lemma {:induction false} PathNeedsType(s: Statement)
    ensures PathOf(s).Some? ==> |s.tokens| > 2
  {
  }

  /** The count is the size of the table and the described paths are its keys. */
  predicate InStep(t: Tables) {
    t.count == |t.handlers| && t.uriNames.Keys == t.handlers.Keys
  }

  /** The statement makes no handler, or one filed under a new key that is also the path it is described under. */
  predicate Neat(t: Tables, s: Statement) {
    PathOf(s).Some? && PathOf(s).value !in t.handlers && TypeOf(s.tokens[2]).Some? ==>
      match TypeOf(s.tokens[2]).value
      case Missing => "/" !in t.handlers
      case BadRequest => PathOf(s).value == "/badrequest"
      case _ => true
  }

  predicate OutOfStep(t: Tables) {
    t.count > |t.handlers| || ("/badrequest" in t.handlers && "/badrequest" !in t.uriNames)
  }

  lemma {:induction false} UpdateGrows(handlers: map<string, Option<Handler>>, key: string, handler: Option<Handler>)
    ensures |handlers[key := handler]| == |handlers| + if key in handlers then 0 else 1
  {
    var grown := handlers[key := handler];
    assert |handlers| == |handlers.Keys| && |grown| == |grown.Keys|;
    assert grown.Keys == handlers.Keys + {key};
  }

  lemma {:induction false} StatementKeepsStep(t: Tables, s: Statement)
    requires t.count >= |t.handlers|
    ensures AddStatement(t, s).count >= |AddStatement(t, s).handlers|
    ensures InStep(t) && Neat(t, s) ==> InStep(AddStatement(t, s))
    ensures InStep(t) && !Neat(t, s) ==> OutOfStep(AddStatement(t, s))
    ensures OutOfStep(t) ==> OutOfStep(AddStatement(t, s))
  {
    hide TypeOf, PathOf, NameOf;
    PathNeedsType(s);
    if |s.tokens| > 2 && TypeOf(s.tokens[2]).Some? && PathOf(s).Some? {
      var kind, path := TypeOf(s.tokens[2]).value, PathOf(s).value;
      UpdateGrows(t.handlers, HandlerKey(kind, path), Made(kind, NameKey(kind, path), s));
    }
  }

  predicate AllNeat(statements: seq<Statement>) {
    forall i | 0 <= i < |statements| :: Neat(AddStatements(NO_TABLES, statements[..i]), statements[i])
  }

  lemma {:induction false} NeatSplit(front: seq<Statement>, last: Statement)
    ensures AllNeat(front + [last]) <==> AllNeat(front) && Neat(AddStatements(NO_TABLES, front), last)
  {
    hide Neat, AddStatements;
    var all := front + [last];
    assert all[..|front|] == front && all[|front|] == last;
    assert forall i | 0 <= i < |front| :: all[..i] == front[..i] && all[i] == front[i];
  }

  lemma {:induction false} NeatInStep(statements: seq<Statement>)
    ensures var t := AddStatements(NO_TABLES, statements);
            && t.count >= |t.handlers|
            && (InStep(t) || OutOfStep(t))
            && (InStep(t) <==> AllNeat(statements))
  {
    if statements == [] {
      assert InStep(NO_TABLES);
    } else {
      hide Neat, AddStatement, AllNeat;
      var n := |statements| - 1;
      var front, last := statements[..n], statements[n];
      assert front + [last] == statements;
      NeatInStep(front);
      NeatSplit(front, last);
      StatementKeepsStep(AddStatements(NO_TABLES, front), last);
    }
  }

  // ----- the same, told from the statements alone -----

  predicate IsLocation(s: Statement, kind: HandlerType) {
    PathOf(s).Some? && TypeOf(s.tokens[2]) == Some(kind)
  }

  /** The location has a handler at its own path. */
  predicate Serves(s: Statement, path: string) {
    && PathOf(s) == Some(path) && TypeOf(s.tokens[2]).Some?
    && !IsLocation(s, Missing) && (IsLocation(s, BadRequest) ==> path == "/badrequest")
  }

  predicate Claimed(earlier: seq<Statement>, path: string) {
    exists s | s in earlier :: Serves(s, path)
  }

  /** Some statement stands at the root: a location that serves it, or a not-found location at the
      root or at a path that was free. */
  predicate RootTaken(earlier: seq<Statement>) {
    && earlier != []
    && var front, last := earlier[..|earlier| - 1], earlier[|earlier| - 1];
    || RootTaken(front)
    || Serves(last, "/")
    || (IsLocation(last, Missing) && (PathOf(last).value == "/" || !Claimed(front, PathOf(last).value)))
  }

  /** A not-found location at a free path other than the root when the root is taken, or a bad-request
      location at a free path other than `/badrequest`. */
  predicate Clashes(earlier: seq<Statement>, s: Statement) {
    || (IsLocation(s, Missing) && PathOf(s).value != "/" && !Claimed(earlier, PathOf(s).value) && RootTaken(earlier))
    || (IsLocation(s, BadRequest) && PathOf(s).value != "/badrequest" &&
        !(if PathOf(s).value == "/" then RootTaken(earlier) else Claimed(earlier, PathOf(s).value)))
  }

  predicate NoClash(statements: seq<Statement>) {
    forall i | 0 <= i < |statements| :: !Clashes(statements[..i], statements[i])
  }

  lemma {:induction false} NoClashSplit(front: seq<Statement>, last: Statement)
    ensures NoClash(front + [last]) <==> NoClash(front) && !Clashes(front, last)
  {
    hide Clashes;
    var all := front + [last];
    assert all[..|front|] == front && all[|front|] == last;
    assert forall i | 0 <= i < |front| :: all[..i] == front[..i] && all[i] == front[i];
  }

  /** Without a clash the keys of the table can be read off the statements. */
  lemma {:induction false} KeyKnown(statements: seq<Statement>, key: string)
    requires NoClash(statements)
    ensures key in AddStatements(NO_TABLES, statements).handlers <==>
            if key == "/" then RootTaken(statements) else Claimed(statements, key)
    decreases |statements|
  {
    if statements != [] {
      hide NoClash, AddStatement, Serves, Clashes, IsLocation;
      var n := |statements| - 1;
      var front, last := statements[..n], statements[n];
      assert front + [last] == statements;
      NoClashSplit(front, last);
      KeyKnown(front, key);
      if PathOf(last).Some? { KeyKnown(front, PathOf(last).value); }
      KeyStep(AddStatements(NO_TABLES, front), front, last, key);
      ClaimedLast(front, last, key);
    }
  }

  lemma {:induction false} ClaimedLast(front: seq<Statement>, last: Statement, path: string)
    ensures Claimed(front + [last], path) <==> Claimed(front, path) || Serves(last, path)
  {
    hide Serves;
    var all := front + [last];
    assert last == all[|front|] && forall s | s in front :: s in all;
  }

  predicate KeyIs(t: Tables, earlier: seq<Statement>, key: string) {
    key in t.handlers <==> if key == "/" then RootTaken(earlier) else Claimed(earlier, key)
  }

  lemma {:induction false} KeyStep(t: Tables, earlier: seq<Statement>, s: Statement, key: string)
    requires KeyIs(t, earlier, key) && (PathOf(s).Some? ==> KeyIs(t, earlier, PathOf(s).value))
    requires !Clashes(earlier, s)
    ensures key in AddStatement(t, s).handlers <==>
            if key == "/" then
              || RootTaken(earlier) || Serves(s, "/")
              || (IsLocation(s, Missing) && (PathOf(s).value == "/" || !Claimed(earlier, PathOf(s).value)))
            else Claimed(earlier, key) || Serves(s, key)
  {
    hide TypeOf, PathOf, RootTaken, Claimed, NameOf, Made;
    PathNeedsType(s);
  }

  lemma {:induction false} NeatIsNoClash(statements: seq<Statement>)
    ensures AllNeat(statements) <==> NoClash(statements)
  {
    if statements != [] {
      hide AllNeat, NoClash, AddStatements, Neat, Clashes;
      var n := |statements| - 1;
      var front, last := statements[..n], statements[n];
      assert front + [last] == statements;
      NeatSplit(front, last);
      NoClashSplit(front, last);
      NeatIsNoClash(front);
      if NoClash(front) {
        KeyKnown(front, "/");
        if PathOf(last).Some? { KeyKnown(front, PathOf(last).value); }
        NeatUnlessClash(AddStatements(NO_TABLES, front), front, last);
      }
    }
  }

  lemma {:induction false} NeatUnlessClash(t: Tables, earlier: seq<Statement>, s: Statement)
    requires KeyIs(t, earlier, "/") && (PathOf(s).Some? ==> KeyIs(t, earlier, PathOf(s).value))
    ensures Neat(t, s) <==> !Clashes(earlier, s)
  {
    hide TypeOf, PathOf, RootTaken, Claimed;
  }

  /** The two static fields describe the table exactly when no statement clashes. */
  lemma {:induction false} CountsInStepIff(statements: seq<Statement>)
    ensures InStep(AddStatements(NO_TABLES, statements)) <==> NoClash(statements)
  {
    NeatInStep(statements);
    NeatIsNoClash(statements);
  }

  /** A bad-request location elsewhere is filed under `/badrequest` and described under its own path. */
  lemma {:induction false} BadRequestElsewhere()
    ensures var s := Statement(["location", "\"/bad\"", "BadRequestHandler"], Block([]));
            !InStep(AddStatements(NO_TABLES, [s]))
  {
    var s := Statement(["location", "\"/bad\"", "BadRequestHandler"], Block([]));
    var path := "\"/bad\"";
    assert path[1..|path| - 1] == "/bad";
    assert [s][..0] == [];
    assert "/badrequest" in AddStatements(NO_TABLES, [s]).handlers;
  }

  /** Not-found locations at the root and bad-request locations at `/badrequest` keep the static fields right. */
  lemma {:induction false} FixedPathsCount(c: Config)
    requires forall s | s in ServerStatements(c) ::
               && (IsLocation(s, Missing) ==> PathOf(s).value == "/")
               && (IsLocation(s, BadRequest) ==> PathOf(s).value == "/badrequest")
    ensures InStep(BuildTables(c))
  {
    hide IsLocation, PathOf, AddStatements;
    var statements := ServerStatements(c);
    forall i | 0 <= i < |statements| ensures !Clashes(statements[..i], statements[i]) {
      assert statements[i] in statements;
    }
    CountsInStepIff(statements);
  }

  /** In a configuration that can be printed, as every parsed one can, a location whose path begins
      with a quote always has a path: the tokenizer closed the quote, so stripping both is safe. */
  lemma {:induction false} ParsedPathIsQuoted(c: Config, s: Statement)
    requires Printable(c) && s in ServerStatements(c)
    requires |s.tokens| > 2 && s.tokens[0] == "location"
    ensures PathOf(s).Some? <==> "\"" <= s.tokens[1]
  {
    hide ServerStatements, Printable, ValidWord, PathOf;
    ServerWords(c, s);
    QuotedPath(s);
  }

  lemma {:induction false} QuotedPath(s: Statement)
    requires |s.tokens| > 2 && s.tokens[0] == "location" && ValidWord(s.tokens[1])
    ensures PathOf(s).Some? <==> "\"" <= s.tokens[1]
  {
    if s.tokens[1][0] == '"' { DoubleQuotedWord(s.tokens[1]); }
  }

  lemma {:induction false} ServerWords(c: Config, s: Statement)
    requires Printable(c) && s in ServerStatements(c)
    ensures forall t | t in s.tokens :: ValidWord(t)
  {
    hide ValidWord;
    var last := c[|c| - 1];
    assert last in c;
    if s in ServerStatements(c[..|c| - 1]) { ServerWords(c[..|c| - 1], s); }
  }

  // ----- dispatch -----

  /** `key` is the longest non-empty registered key that begins the trimmed path. */
  predicate IsLongest(handlers: map<string, Option<Handler>>, path: string, key: string) {
    && key in handlers && key != "" && key <= path
    && forall other | other in handlers && other != "" && other <= path :: |other| <= |key|
  }

  predicate NoMatch(handlers: map<string, Option<Handler>>, path: string) {
    forall other | other in handlers && other != "" :: !(other <= path)
  }

  /** What dispatch must answer for a request path. */
  predicate Answers(handlers: map<string, Option<Handler>>, uri: string, answer: Option<Handler>) {
    var path := TrimSlashes(uri);
    || (answer.None? && NoMatch(handlers, path))
    || exists key | key in handlers :: IsLongest(handlers, path, key) && handlers[key] == answer
  }

  /** There is at most one longest prefix, so the answer does not depend on the order of the map. */
  lemma {:induction false} AnswerIsUnique(handlers: map<string, Option<Handler>>, uri: string,
                                          a: Option<Handler>, b: Option<Handler>)
    requires Answers(handlers, uri, a) && Answers(handlers, uri, b)
    ensures a == b
  {
    var path := TrimSlashes(uri);
    if !NoMatch(handlers, path) {
      var k :| k in handlers && IsLongest(handlers, path, k) && handlers[k] == a;
      var l :| l in handlers && IsLongest(handlers, path, l) && handlers[l] == b;
      assert |k| == |l|;
      assert k == path[..|k|] == l;
    } else {
      assert a.None? && b.None?;
    }
  }

  lemma {:induction false} TrimmedSlash(uri: string)
    requires uri != ""
    ensures TrimSlashes(uri + "/") == TrimSlashes(uri)
  {
    assert (uri + "/")[..|uri|] == uri;
  }

  /** A trailing slash makes no difference. */
  lemma {:induction false} SlashDispatchesAlike(handlers: map<string, Option<Handler>>, uri: string,
                                                a: Option<Handler>, b: Option<Handler>)
    requires uri != "" && Answers(handlers, uri, a) && Answers(handlers, uri + "/", b)
    ensures a == b
  {
    TrimmedSlash(uri);
    AnswerIsUnique(handlers, uri, a, b);
  }

  // ----- the table as it is built -----

  /** The statement gets a handler, which is the only use of a location's block. */
  predicate Creates(t: Tables, s: Statement) {
    && PathOf(s).Some? && PathOf(s).value !in t.handlers
    && TypeOf(s.tokens[2]).Some?
  }

  predicate BlocksOf(statements: seq<Statement>) {
    forall j | 0 <= j < |statements| && Creates(AddStatements(NO_TABLES, statements[..j]), statements[j]) ::
      statements[j].block.Block?
  }

  /** Every block that is looked into is there. */
  predicate BlocksPresent(c: Config) {
    && (forall s | s in c && s.tokens == ["server"] :: s.block.Block?)
    && BlocksOf(ServerStatements(c))
  }

  lemma {:induction false} BlocksOfFront(front: seq<Statement>, back: seq<Statement>)
    requires BlocksOf(front + back)
    ensures BlocksOf(front)
  {
    hide Creates, AddStatements;
    forall j | 0 <= j < |front| && Creates(AddStatements(NO_TABLES, front[..j]), front[j])
      ensures front[j].block.Block?
    {
      assert (front + back)[..j] == front[..j] && (front + back)[j] == front[j];
    }
  }

  lemma {:induction false} NextStatement(before: seq<Statement>, statements: seq<Statement>, j: nat)
    requires j < |statements| && BlocksOf(before + statements)
    ensures var t := AddStatements(NO_TABLES, before + statements[..j]);
            && AddStatements(NO_TABLES, before + statements[..j + 1]) == AddStatement(t, statements[j])
            && (Creates(t, statements[j]) ==> statements[j].block.Block?)
  {
    hide Creates, AddStatement;
    var all := before + statements[..j + 1];
    assert all[..|all| - 1] == before + statements[..j] && all[|all| - 1] == statements[j];
    assert (before + statements)[..|before| + j] == before + statements[..j];
    assert (before + statements)[|before| + j] == statements[j];
  }

  lemma {:induction false} BlocksOfFirst(c: Config, i: nat)
    requires i <= |c| && BlocksOf(ServerStatements(c))
    ensures BlocksOf(ServerStatements(c[..i]))
    decreases |c|
  {
    hide BlocksOf;
    if i < |c| {
      var front := c[..|c| - 1];
      assert ServerStatements(front) <= ServerStatements(c);
      BlocksOfFront(ServerStatements(front), ServerStatements(c)[|ServerStatements(front)|..]);
      assert ServerStatements(front) + ServerStatements(c)[|ServerStatements(front)|..] == ServerStatements(c);
      BlocksOfFirst(front, i);
      assert front[..i] == c[..i];
    } else {
      assert c[..i] == c;
    }
  }

  class RequestHandlerDispatcher {
    var handlers: map<string, Option<Handler>>
    var requestHandlerUri: map<string, string>
    var numHandlers: nat

    function Value(): Tables
      reads this
    {
      Tables(handlers, requestHandlerUri, numHandlers)
    }

    constructor (config: Config)
      requires Derivable(config) && BlocksPresent(config)
      ensures Value() == BuildTables(config)
    {
      assert AddStatements(NO_TABLES, []) == NO_TABLES;
      hide TypeOf, AddStatements, AddStatement, BlocksOf;
      handlers, requestHandlerUri, numHandlers := map[], map[], 0;
      new;
      for i := 0 to |config|
        invariant Value() == AddStatements(NO_TABLES, ServerStatements(config[..i]))
      {
        assert config[..i + 1][..i] == config[..i];
        assert config[i] in config;
        if config[i].tokens[0] == "server" && |config[i].tokens| == 1 {
          assert config[i].tokens == ["server"];
          BlocksOfFirst(config, i + 1);
          AddServer(config[i].block.statements, ServerStatements(config[..i]));
        } else {
          assert ServerStatements(config[..i]) + [] == ServerStatements(config[..i]);
        }
      }
      assert config[..|config|] == config;
    }

    method AddServer(statements: seq<Statement>, ghost before: seq<Statement>)
      requires Value() == AddStatements(NO_TABLES, before)
      requires BlocksOf(before + statements)
      modifies this
      ensures Value() == AddStatements(NO_TABLES, before + statements)
    {
      hide TypeOf, CreateHandler, PathOf, AddStatements, BlocksOf;
      assert before + statements[..0] == before;
      for j := 0 to |statements|
        invariant Value() == AddStatements(NO_TABLES, before + statements[..j])
      {
        NextStatement(before, statements, j);
        if |statements[j].tokens| > 2 {
          var kind := TypeOf(statements[j].tokens[2]);
          if kind.Some? {
            AddHandler(statements[j], kind.value);
          }
        }
      }
      assert statements[..|statements|] == statements;
    }

    method AddHandler(statement: Statement, kind: HandlerType)
      requires |statement.tokens| > 2
      requires PathOf(statement).Some? && PathOf(statement).value !in handlers ==> statement.block.Block?
      modifies this
      ensures Value() == CreateHandler(old(Value()), statement, kind)
    {
      hide HandlerKey, NameKey, NameOf, Made;
      if statement.tokens[0] != "location" {
        return;
      }
      var path := statement.tokens[1];
      if |path| >= 2 && path[0] == '"' && path[|path| - 1] == '"' {
        path := path[1..|path| - 1];
      } else {
        return;
      }
      ghost var unquoted := path;
      while |path| > 1 && path[|path| - 1] == '/'
        invariant TrimSlashes(path) == TrimSlashes(unquoted)
        decreases |path|
      {
        path := path[..|path| - 1];
      }
      if path in handlers {
        return;
      }
      assert PathOf(statement) == Some(path);
      hide PathOf, TrimSlashes;
      var handler := Init(kind, NameKey(kind, path), statement);
      handlers := handlers[HandlerKey(kind, path) := handler];
      requestHandlerUri := requestHandlerUri[NameKey(kind, path) := NameOf(kind)];
      numHandlers := numHandlers + 1;
    }

    /** `order` is the order in which the map is walked. */
    method Dispatch(uri: string, order: seq<string>) returns (reqHandler: Option<Handler>)
      requires forall key :: key in order <==> key in handlers
      ensures Answers(handlers, uri, reqHandler)
    {
      var pathUri := uri;
      while |pathUri| > 1 && pathUri[|pathUri| - 1] == '/'
        invariant TrimSlashes(pathUri) == TrimSlashes(uri)
        decreases |pathUri|
      {
        pathUri := pathUri[..|pathUri| - 1];
      }
      reqHandler := None;
      var longestMatch := 0;
      ghost var best := "";
      for i := 0 to |order|
        invariant longestMatch >= 0 && (longestMatch == 0 ==> reqHandler.None?)
        invariant longestMatch > 0 ==>
                    && best in handlers && best <= pathUri
                    && |best| == longestMatch && handlers[best] == reqHandler
        invariant forall j | 0 <= j < i && order[j] <= pathUri :: |order[j]| <= longestMatch
      {
        var key := order[i];
        assert key in order;
        var cut := if |key| <= |pathUri| then pathUri[..|key|] else pathUri;
        assert key <= pathUri <==> key == cut;
        if key == cut {
          if |key| > longestMatch {
            reqHandler, longestMatch, best := handlers[key], |key|, key;
          }
        }
      }
      assert forall other | other in handlers && other <= pathUri :: other in order && |other| <= longestMatch;
      assert longestMatch > 0 ==> IsLongest(handlers, pathUri, best);
    }
  }

}
