/** The request parser gives a verdict on every text as early as it can, and never too early. */
module HttpContinuation {
  import opened HttpRequest
  import opened HttpGrammar

  /** A byte that leads on from a state, and the state it leads to. */
  function Way(state: State): (char, State) {
    match state
    case MethodStart => ('G', MethodRest)
    case MethodRest => (' ', Uri)
    case Uri => (' ', VersionH)
    case VersionH => ('H', VersionT1)
    case VersionT1 => ('T', VersionT2)
    case VersionT2 => ('T', VersionP)
    case VersionP => ('P', VersionSlash)
    case VersionSlash => ('/', MajorStart)
    case MajorStart => ('1', MajorRest)
    case MajorRest => ('.', MinorStart)
    case MinorStart => ('1', MinorRest)
    case MinorRest => ('\r', Newline1)
    case Newline1 => ('\n', HeaderLineStart)
    case HeaderName => (':', SpaceBeforeValue)
    case SpaceBeforeValue => (' ', HeaderValue)
    case HeaderLws => ('\r', Newline2)
    case HeaderValue => ('\r', Newline2)
    case Newline2 => ('\n', HeaderLineStart)
    case HeaderLineStart => ('\r', Newline3)
    case Newline3 => ('\n', Newline3)
  }

  function Distance(state: State): nat {
    match state
    case MethodStart => 14
    case MethodRest => 13
    case Uri => 12
    case VersionH => 11
    case VersionT1 => 10
    case VersionT2 => 9
    case VersionP => 8
    case VersionSlash => 7
    case MajorStart => 6
    case MajorRest => 5
    case MinorStart => 4
    case MinorRest => 3
    case Newline1 => 2
    case HeaderName => 5
    case SpaceBeforeValue => 4
    case HeaderLws => 3
    case HeaderValue => 3
    case Newline2 => 2
    case HeaderLineStart => 1
    case Newline3 => 0
  }

  /** A text that takes the machine from a state to a good end. */
  function Completion(state: State): string
    decreases Distance(state)
  {
    if state == Newline3 then "\n" else [Way(state).0] + Completion(Way(state).1)
  }

  lemma {:induction false} WayLeadsOn(p: Parser, r: Request)
    ensures var (verdict, p', r') := Consume(p, r, Way(p.state).0);
            if p.state == Newline3 then verdict == Good else verdict == Indeterminate && p'.state == Way(p.state).1
  {
  }

  lemma {:induction false} CompletionIsGood(p: Parser, r: Request)
    ensures Run(p, r, Completion(p.state)).verdict == Good
    decreases Distance(p.state)
  {
    WayLeadsOn(p, r);
    assert Distance(Newline3) == 0 && (p.state != Newline3 ==> Distance(Way(p.state).1) < Distance(p.state));
    hide Consume, Way, Distance;
    var c := Completion(p.state);
    RunFirst(p, r, c);
    if p.state != Newline3 {
      var (verdict, p', r') := Consume(p, r, c[0]);
      assert c[1..] == Completion(p'.state);
      CompletionIsGood(p', r');
    }
  }

  /** The machine is exact at every byte, from any state: a text is bad if and only if no way to go
      on would make it good. */
  lemma {:induction false} BadIffNoContinuation(p: Parser, r: Request, text: string)
    ensures Run(p, r, text).verdict == Bad <==> forall more :: Run(p, r, text + more).verdict != Good
  {
    hide Run, Completion;
    var o := Run(p, r, text);
    forall more
      ensures o.verdict != Indeterminate ==> Run(p, r, text + more).verdict == o.verdict
    {
      RunConcat(p, r, text, more);
    }
    if o.verdict == Indeterminate {
      RunConcat(p, r, text, Completion(o.parser.state));
      CompletionIsGood(o.parser, o.request);
    } else if o.verdict == Good {
      assert Run(p, r, text + "").verdict == Good;
    }
  }

  // ----- what is left over from an earlier request -----

  /** The same verdict, the same request and the same rest. */
  predicate SameOutcome(a: Outcome, b: Outcome) {
    a.verdict == b.verdict && a.request == b.request && a.rest == b.rest
  }

  /** Two parsers that no text and no request can tell apart. */
  ghost predicate ReadAlike(p: Parser, q: Parser) {
    forall r, text :: SameOutcome(Run(p, r, text), Run(q, r, text))
  }

  lemma {:induction false} StaleStep(p: Parser, r: Request, c: char)
    requires !InHeaders(p.state)
    ensures var (verdict, p', r') := Consume(p, r, c);
            var (clean, q', s') := Consume(p.(key := "", value := ""), r, c);
            && verdict == clean && r' == s'
            && (q' == p' || (!InHeaders(p'.state) && q' == p'.(key := "", value := "")))
  {
  }

  /** A key and a value from an earlier request do no harm to a parser that has not come to the
      headers: the end of the request line clears them. */
  lemma {:induction false} StaleFieldsAreCleared(p: Parser, r: Request, text: string)
    requires !InHeaders(p.state)
    ensures SameOutcome(Run(p, r, text), Run(p.(key := "", value := ""), r, text))
    decreases |text|
  {
    hide Run, Consume, InHeaders;
    var q := p.(key := "", value := "");
    if text == "" {
      RunNothing(p, r);
      RunNothing(q, r);
    } else {
      StaleStep(p, r, text[0]);
      RunFirst(p, r, text);
      RunFirst(q, r, text);
      var (verdict, p', r') := Consume(p, r, text[0]);
      if !InHeaders(p'.state) { StaleFieldsAreCleared(p', r', text[1..]); }
    }
  }

  /** So resetting the state is enough to start afresh. */
  lemma {:induction false} ResetReadsAlike(p: Parser)
    ensures ReadAlike(p.(state := MethodStart), FRESH)
  {
    hide Run;
    forall r, text
      ensures SameOutcome(Run(p.(state := MethodStart), r, text), Run(FRESH, r, text))
    {
      StaleFieldsAreCleared(p.(state := MethodStart), r, text);
    }
  }
}
