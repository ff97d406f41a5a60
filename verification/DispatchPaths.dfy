/** From the words of a configuration to the answer for a request: which path a location word stands
    for, which handler a type word asks for, and what a server with one location answers. */
module DispatchPaths {
  import opened Shared
  import opened ConfigGrammar
  import opened Handlers
  import opened Dispatcher

  predicate AllSlashes(s: string) {
    forall i | 0 <= i < |s| :: s[i] == '/'
  }

  /** A path as the table has it: it does not end in a slash, unless it is the root. */
  predicate IsTrimmed(path: string) {
    |path| > 1 ==> path[|path| - 1] != '/'
  }

  /** `text` is the path with slashes behind it; nothing but slashes stands for the root. */
  ghost predicate StandsFor(text: string, path: string) {
    IsTrimmed(path) && (path == "" ==> text == "") && exists slashes :: AllSlashes(slashes) && text == path + slashes
  }

  lemma {:induction false} TrimTakesSlashes(path: string, slashes: string)
    requires IsTrimmed(path) && AllSlashes(slashes) && (path == "" ==> slashes == "")
    ensures TrimSlashes(path + slashes) == path
    decreases |slashes|
  {
    var text := path + slashes;
    if slashes == "" {
      assert text == path;
    } else {
      var fewer := slashes[..|slashes| - 1];
      assert text[..|text| - 1] == path + fewer;
      TrimTakesSlashes(path, fewer);
    }
  }

  lemma {:induction false} TrimLeaves(text: string)
    ensures StandsFor(text, TrimSlashes(text))
    decreases |text|
  {
    var path := TrimSlashes(text);
    if |text| > 1 && text[|text| - 1] == '/' {
      var init := text[..|text| - 1];
      TrimLeaves(init);
      var slashes :| AllSlashes(slashes) && init == path + slashes;
      assert AllSlashes(slashes + "/") && text == path + (slashes + "/");
      assert path == "" ==> init == "";
    } else {
      assert AllSlashes("") && text == path + "";
    }
  }

  lemma {:induction false} TrimIff(text: string, path: string)
    ensures TrimSlashes(text) == path <==> StandsFor(text, path)
  {
    TrimLeaves(text);
    if StandsFor(text, path) {
      var slashes :| AllSlashes(slashes) && text == path + slashes;
      assert path == "" ==> slashes == "";
      TrimTakesSlashes(path, slashes);
    }
  }

  /** A location has a path if and only if its second word is a text in double quotes, and then it is
      the path which that text stands for. */
  lemma {:induction false} PathOfIff(s: Statement, path: string)
    ensures PathOf(s) == Some(path) <==>
            && |s.tokens| > 2 && s.tokens[0] == "location"
            && exists text :: s.tokens[1] == "\"" + text + "\"" && StandsFor(text, path)
  {
    hide TrimSlashes, StandsFor;
    if |s.tokens| > 2 {
      var word := s.tokens[1];
      if |word| >= 2 && word[0] == '"' && word[|word| - 1] == '"' {
        var inner := word[1..|word| - 1];
        assert word == "\"" + inner + "\"";
        TrimIff(inner, path);
        forall text | word == "\"" + text + "\"" ensures text == inner {
          assert ("\"" + text + "\"")[1..|text| + 1] == text;
        }
      } else {
        forall text ensures word != "\"" + text + "\"" {
          assert |"\"" + text + "\""| >= 2 && ("\"" + text + "\"")[0] == '"';
          assert ("\"" + text + "\"")[|text| + 1] == '"';
        }
      }
    }
  }

  /** The nine type words, what they ask for, and how the handler is described. */
  predicate IsType(word: string, kind: HandlerType, description: string) {
    match kind
    case Echo => word == "EchoHandler" && description == "echo handler"
    case Health => word == "HealthHandler" && description == "health handler"
    case Markdown => word == "MarkdownHandler" && description == "markdown handler"
    case Missing => word == "NotFoundHandler" && description == "not found handler"
    case Redirect => word == "RedirectHandler" && description == "redirect handler"
    case Reverse => word == "ReverseProxyHandler" && description == "reverse proxy request handler"
    case Static => word == "StaticHandler" && description == "static handler"
    case Status => word == "StatusHandler" && description == "status handler"
    case BadRequest => word == "BadRequestHandler" && description == "bad request handler"
  }

  lemma {:induction false} TypeOfIff(word: string, kind: HandlerType)
    ensures TypeOf(word) == Some(kind) <==> IsType(word, kind, NameOf(kind))
  {
    hide TypeOf, IsType, NameOf;
    TypeIsNamed(word);
    if IsType(word, kind, NameOf(kind)) { NamedIsType(word, kind, NameOf(kind)); }
  }

  lemma {:induction false} TypeIsNamed(word: string)
    ensures TypeOf(word).Some? ==> IsType(word, TypeOf(word).value, NameOf(TypeOf(word).value))
  {
  }

  lemma {:induction false} NamedIsType(word: string, kind: HandlerType, description: string)
    requires IsType(word, kind, description)
    ensures TypeOf(word) == Some(kind)
  {
  }

  // ----- a server with one location -----

  function OneLocation(word: string, name: string, inner: Config): Statement {
    Statement(["location", word, name], Block(inner))
  }

  function OneServer(s: Statement): Config {
    [Statement(["server"], Block([s]))]
  }

  lemma {:induction false} OneIsAdded(s: Statement)
    ensures BuildTables(OneServer(s)) == AddStatement(NO_TABLES, s)
  {
    hide AddStatement;
    var c := OneServer(s);
    assert c[..0] == [] && ServerStatements([]) == [];
    assert ServerStatements(c) == [] + [s];
    assert [s][..0] == [] && AddStatements(NO_TABLES, []) == NO_TABLES;
    assert AddStatements(NO_TABLES, [s]) == AddStatement(NO_TABLES, s);
  }

  /** A quoted path, with slashes behind it or not, and a type word give one handler, under the path,
      or under the fixed key of the two special types. */
  lemma {:induction false} OneLocationTable(path: string, slashes: string, name: string, kind: HandlerType,
                                            description: string, inner: Config)
    requires path != "" && IsTrimmed(path) && AllSlashes(slashes) && IsType(name, kind, description)
    ensures var s := OneLocation("\"" + path + slashes + "\"", name, inner);
            var key := if kind.Missing? then "/" else if kind.BadRequest? then "/badrequest" else path;
            var described := if kind.Missing? then "/" else path;
            BuildTables(OneServer(s)) ==
            Tables(map[key := Made(kind, described, s)], map[described := description], 1)
  {
    hide PathOf, TypeOf, StandsFor, AddStatements, BuildTables, IsType, NameOf, PortsAreInts;
    var text := path + slashes;
    var s := OneLocation("\"" + path + slashes + "\"", name, inner);
    assert "\"" + path + slashes + "\"" == "\"" + text + "\"";
    assert StandsFor(text, path) by { SlashedStandsFor(path, slashes); }
    PathOfIff(s, path);
    DescriptionIs(name, kind, description);
    TypeOfIff(name, kind);
    OneIsAdded(s);
  }

  lemma {:induction false} SlashedStandsFor(path: string, slashes: string)
    requires path != "" && IsTrimmed(path) && AllSlashes(slashes)
    ensures StandsFor(path + slashes, path)
  {
  }

  lemma {:induction false} DescriptionIs(word: string, kind: HandlerType, description: string)
    requires IsType(word, kind, description)
    ensures description == NameOf(kind)
  {
  }

  lemma {:induction false} KeyStaysInFront(key: string, rest: string)
    requires key != "" && IsTrimmed(key)
    ensures key <= TrimSlashes(key + rest)
    decreases |rest|
  {
    var uri := key + rest;
    if |uri| > 1 && uri[|uri| - 1] == '/' && rest != "" {
      var fewer := rest[..|rest| - 1];
      assert uri[..|uri| - 1] == key + fewer;
      KeyStaysInFront(key, fewer);
    } else if rest == "" {
      assert uri == key;
    }
  }

  /** Such a server answers every URI that begins with the key, and no other, with that handler. */
  lemma {:induction false} OneLocationAnswers(path: string, slashes: string, name: string, kind: HandlerType,
                                              description: string, inner: Config, uri: string)
    requires path != "" && IsTrimmed(path) && AllSlashes(slashes) && IsType(name, kind, description)
    ensures var s := OneLocation("\"" + path + slashes + "\"", name, inner);
            var key := if kind.Missing? then "/" else if kind.BadRequest? then "/badrequest" else path;
            var described := if kind.Missing? then "/" else path;
            Answers(BuildTables(OneServer(s)).handlers, uri,
                    if key <= uri then Made(kind, described, s) else None)
  {
    hide AddStatements, BuildTables, IsType, PortsAreInts, TrimSlashes, Made;
    OneLocationTable(path, slashes, name, kind, description, inner);
    var s := OneLocation("\"" + path + slashes + "\"", name, inner);
    var key := if kind.Missing? then "/" else if kind.BadRequest? then "/badrequest" else path;
    var handlers := BuildTables(OneServer(s)).handlers;
    if key <= uri {
      KeyStaysInFront(key, uri[|key|..]);
      assert key + uri[|key|..] == uri;
      assert IsLongest(handlers, TrimSlashes(uri), key);
    } else {
      assert NoMatch(handlers, TrimSlashes(uri));
    }
  }

  /** With or without a slash at the end of the location word, an echo handler at `/echo` answers
      `/echo`, `/echo/` and whatever begins so. */
  lemma {:induction false} EchoIsAnswered(slash: string, rest: string, inner: Config)
    requires slash == "" || slash == "/"
    ensures var s := Statement(["location", "\"/echo" + slash + "\"", "EchoHandler"], Block(inner));
            Answers(BuildTables([Statement(["server"], Block([s]))]).handlers, "/echo" + rest,
                    Some(Handler(Echo, "/echo", s)))
  {
    hide BuildTables, Answers;
    assert "\"" + "/echo" + slash + "\"" == "\"/echo" + slash + "\"";
    OneLocationAnswers("/echo", slash, "EchoHandler", Echo, "echo handler", inner, "/echo" + rest);
  }
}
