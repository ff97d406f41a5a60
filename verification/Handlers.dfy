/** The request handlers a configuration can ask for, and when making one fails. */
module Handlers {
  import opened Shared
  import opened ConfigGrammar

  datatype HandlerType = Echo | Health | Markdown | Missing | Redirect | Reverse | Static | Status | BadRequest

  /** A handler is known by its type, the path it was made with and the statement it was made from. */
  datatype Handler = Handler(kind: HandlerType, path: string, statement: Statement)

  function TypeOf(word: string): Option<HandlerType> {
    if word == "BadRequestHandler" then Some(BadRequest)
    else if word == "EchoHandler" then Some(Echo)
    else if word == "HealthHandler" then Some(Health)
    else if word == "MarkdownHandler" then Some(Markdown)
    else if word == "NotFoundHandler" then Some(Missing)
    else if word == "RedirectHandler" then Some(Redirect)
    else if word == "ReverseProxyHandler" then Some(Reverse)
    else if word == "StaticHandler" then Some(Static)
    else if word == "StatusHandler" then Some(Status)
    else None
  }

  function NameOf(kind: HandlerType): string {
    match kind
    case Echo => "echo handler"
    case Health => "health handler"
    case Markdown => "markdown handler"
    case Missing => "not found handler"
    case Redirect => "redirect handler"
    case Reverse => "reverse proxy request handler"
    case Static => "static handler"
    case Status => "status handler"
    case BadRequest => "bad request handler"
  }

  // ----- numbers as `std::stoi` reads them -----

  function SkipSpace(s: string): string {
    if s != "" && IsSpace(s[0]) then SkipSpace(s[1..]) else s
  }

  /** The number the leading digits of a text continue; what follows them is ignored. */
  function LeadingNumber(start: nat, s: string): nat
    decreases |s|
  {
    if s != "" && '0' <= s[0] <= '9' then LeadingNumber(10 * start + (s[0] as int - '0' as int), s[1..]) else start
  }

  /** White space, perhaps a sign, at least one digit, and a value that fits 32 bits. */
  predicate IsInt(word: string) {
    var s := SkipSpace(word);
    var digits := if "-" <= s || "+" <= s then s[1..] else s;
    && digits != "" && '0' <= digits[0] <= '9'
    && LeadingNumber(0, digits) <= if "-" <= s then 0x8000_0000 else 0x7fff_ffff
  }

  // ----- making a handler -----

  predicate IsPort(s: Statement) {
    |s.tokens| == 2 && s.tokens[0] == "proxy_port"
  }

  predicate PortsAreInts(c: Config) {
    forall s | s in c && IsPort(s) :: IsInt(s.tokens[1])
  }

  /** A reverse proxy whose port is not a number comes out as a null pointer; all others are made. */
  function Made(kind: HandlerType, path: string, s: Statement): Option<Handler> {
    if kind.Reverse? && s.block.Block? && !PortsAreInts(s.block.statements) then None
    else Some(Handler(kind, path, s))
  }

  method Init(kind: HandlerType, path: string, s: Statement) returns (handler: Option<Handler>)
    requires s.block.Block?
    ensures handler == Made(kind, path, s)
  {
    hide IsInt;
    if kind.Reverse? {
      var statements := s.block.statements;
      for i := 0 to |statements|
        invariant PortsAreInts(statements[..i])
      {
        assert statements[i] in statements;
        if |statements[i].tokens| == 2 && statements[i].tokens[0] == "proxy_port" {
          if !IsInt(statements[i].tokens[1]) {
            return None;
          }
        }
      }
      assert statements[..|statements|] == statements;
    }
    handler := Some(Handler(kind, path, s));
  }

  // ----- which ports are numbers -----

  predicate AllDigits(s: string) {
    forall i | 0 <= i < |s| :: '0' <= s[i] <= '9'
  }

  /** The value of digits in the decimal system, from the last one on. */
  function Decimal(digits: string): nat
    requires AllDigits(digits)
  {
    if digits == "" then 0
    else 10 * Decimal(digits[..|digits| - 1]) + (digits[|digits| - 1] as int - 48)
  }

  lemma {:induction false} LeadingLast(start: nat, digits: string)
    requires digits != "" && AllDigits(digits)
    ensures LeadingNumber(start, digits)
         == 10 * LeadingNumber(start, digits[..|digits| - 1]) + (digits[|digits| - 1] as int - 48)
    decreases |digits|
  {
    if |digits| > 1 {
      LeadingLast(10 * start + (digits[0] as int - 48), digits[1..]);
      assert digits[1..][..|digits| - 2] == digits[..|digits| - 1][1..];
    } else {
      assert digits[1..] == "" && digits[..0] == "";
    }
  }

  lemma {:induction false} LeadingIsDecimal(digits: string)
    requires AllDigits(digits)
    ensures LeadingNumber(0, digits) == Decimal(digits)
    decreases |digits|
  {
    hide LeadingNumber;
    if digits != "" {
      LeadingLast(0, digits);
      LeadingIsDecimal(digits[..|digits| - 1]);
    } else {
      NoDigits();
    }
  }

  lemma {:induction false} NoDigits()
    ensures LeadingNumber(0, "") == 0
  {
  }

  lemma {:induction false} LeadingStops(start: nat, digits: string, rest: string)
    requires AllDigits(digits) && (rest != "" ==> !('0' <= rest[0] <= '9'))
    ensures LeadingNumber(start, digits + rest) == LeadingNumber(start, digits)
    decreases |digits|
  {
    if digits == "" {
      assert digits + rest == rest;
    } else {
      assert (digits + rest)[1..] == digits[1..] + rest;
      LeadingStops(10 * start + (digits[0] as int - 48), digits[1..], rest);
    }
  }

  lemma {:induction false} SpacesSkipped(spaces: string, rest: string)
    requires forall i | 0 <= i < |spaces| :: spaces[i] == ' ' || spaces[i] == '\t'
    requires rest == "" || !IsSpace(rest[0])
    ensures SkipSpace(spaces + rest) == rest
    decreases |spaces|
  {
    if spaces == "" {
      assert spaces + rest == rest;
    } else {
      assert (spaces + rest)[1..] == spaces[1..] + rest;
      SpacesSkipped(spaces[1..], rest);
    }
  }

  /** Digits behind white space and perhaps a sign are a number if their value fits 32 bits, whatever
      follows them; without a digit there is none. */
  lemma {:induction false} IntIff(spaces: string, sign: string, digits: string, rest: string)
    requires forall i | 0 <= i < |spaces| :: spaces[i] == ' ' || spaces[i] == '\t'
    requires sign == "" || sign == "-" || sign == "+"
    requires AllDigits(digits) && (rest != "" ==> !('0' <= rest[0] <= '9'))
    requires sign == "" && digits == "" && rest != "" ==> !IsSpace(rest[0]) && rest[0] != '-' && rest[0] != '+'
    ensures IsInt(spaces + (sign + (digits + rest))) <==>
            digits != "" && Decimal(digits) <= if sign == "-" then 2147483648 else 2147483647
  {
    hide LeadingNumber, SkipSpace, Decimal, IsSpace;
    var number := digits + rest;
    var s := sign + number;
    assert s != "" ==> !IsSpace(s[0]) by { SignIsNoSpace(sign, digits, rest); }
    SpacesSkipped(spaces, s);
    LeadingStops(0, digits, rest);
    LeadingIsDecimal(digits);
    assert sign != "" ==> s[0] == sign[0] && s[1..] == number;
    assert sign == "" ==> s == number;
    assert digits != "" ==> number[0] == digits[0];
    assert digits == "" ==> number == rest;
  }

  lemma {:induction false} SignIsNoSpace(sign: string, digits: string, rest: string)
    requires sign == "" || sign == "-" || sign == "+"
    requires AllDigits(digits)
    requires sign == "" && digits == "" && rest != "" ==> !IsSpace(rest[0])
    ensures var s := sign + (digits + rest); s != "" ==> !IsSpace(s[0])
  {
    var s := sign + (digits + rest);
    if sign != "" { assert s[0] == sign[0]; }
    else if digits != "" { assert s[0] == digits[0]; }
    else if rest != "" { assert s[0] == rest[0]; }
  }

  /** Only a reverse proxy can fail to be made, and does so if and only if a port is no number. */
  lemma {:induction false} MadeIff(kind: HandlerType, path: string, tokens: seq<string>, inner: Config)
    ensures var s := Statement(tokens, Block(inner));
            if kind == Reverse && exists i, word ::
              0 <= i < |inner| && inner[i].tokens == ["proxy_port", word] && !IsInt(word)
            then Made(kind, path, s) == None
            else Made(kind, path, s) == Some(Handler(kind, path, s))
  {
    hide IsInt;
    if i, word :| 0 <= i < |inner| && inner[i].tokens == ["proxy_port", word] && !IsInt(word) {
      assert inner[i] in inner && IsPort(inner[i]) && inner[i].tokens[1] == word;
      assert !PortsAreInts(inner);
    } else {
      forall s | s in inner && IsPort(s)
        ensures IsInt(s.tokens[1])
      {
        var i :| 0 <= i < |inner| && inner[i] == s;
        assert inner[i].tokens == ["proxy_port", s.tokens[1]];
      }
    }
  }
}
