/** Whole documents: the driver loop, the end-of-document flush, and what they guarantee. */
module MarkdownDocument {
  import opened Shared
  import opened Markup
  import opened MarkdownLines
  import opened MarkdownBlocks
  import opened MarkdownNesting
  import opened MarkdownSteps

  /** The driver: the output of the finished blocks and the block that waits for lines. */
  datatype Driver = Driver(result: string, current: Option<Block>)

  const START := Driver("", None)

  /** The driver gives a line to the open block, or to a new one, and collects a finished block. */
  function TakeLine(d: Driver, line: string): Driver {
    var b := if d.current.Some? then d.current
             else
               match BlockFor(line)
               case None => None
               case Some(kind) => Some(New(kind));
    match b
    case None => d
    case Some(block) => Settle(d.result, AddLine(block, line))
  }

  function Settle(result: string, b: Block): Driver {
    if b.Done() then Driver(result + b.result, None) else Driver(result, Some(b))
  }

  function TakeLines(d: Driver, lines: seq<string>): Driver {
    if lines == [] then d else TakeLine(TakeLines(d, lines[..|lines| - 1]), lines[|lines| - 1])
  }

  /** One more empty line for a block that is still open. */
  function Flush(d: Driver): Driver {
    if d.current.Some? then Settle(d.result, AddLine(d.current.value, "")) else d
  }

  function Render(document: string): string {
    Flush(TakeLines(START, Lines(document))).result
  }

  // ----- reachable drivers -----

  /** Everything put out so far is well nested, and the open block is a running one. */
  predicate Sound(d: Driver) {
    && WellNested(d.result)
    && (d.current.Some? ==> Running(d.current.value) && WellNestedSoFar(d.current.value))
  }

  predicate Welcome(d: Driver, line: string) {
    Plain(line) || (d.current.Some? && Acceptable(d.current.value, line))
  }

  /** Every line is user text free of `<`, except for `|<table` where a table is open. */
  predicate CleanLines(lines: seq<string>) {
    forall i | 0 <= i < |lines| :: Welcome(TakeLines(START, lines[..i]), lines[i])
  }

  lemma {:induction false} SettleSound(d: Driver, b: Block, line: string)
    requires WellNested(d.result)
    requires (Running(b) && WellNestedSoFar(b)) || (Fresh(b) && Starter(b.kind, line))
    requires Acceptable(b, line)
    ensures Sound(Settle(d.result, AddLine(b, line)))
  {
    hide Run, AddLine;
    var r := Run(Outside([], ""), Combined(b));
    assert Fresh(b) ==> r == Outside([], "") by { RunNothing(Outside([], "")); }
    var e, kept := BlockLine(b, line, [], r.text);
    assert [] + OpenTags(b) == OpenTags(b);
    var b' := AddLine(b, line);
    assert [] + OpenTags(b') == OpenTags(b');
    RunConcat(Outside([], ""), Combined(b), e);
    if b'.Done() {
      NestedConcat(d.result, b'.result);
    }
  }

  /** The open block has put out exactly its open tags, and text. */
  predicate WellNestedSoFar(b: Block) {
    var r := Run(Outside([], ""), Combined(b));
    r.Outside? && r.open == OpenTags(b)
  }

  /** Text already read does not change how the tags behave. */
  lemma {:induction false} TextIsFree(r: Reader, text: string, s: string)
    requires !r.Mismatch?
    ensures Run(r.(text := text + r.text), s) ==
            var after := Run(r, s); if after.Mismatch? then Mismatch else after.(text := text + after.text)
    decreases |s|
  {
    if s != "" {
      var next := Markup.Step(r, s[0]);
      assert r.Outside? ==> text + (r.text + [s[0]]) == text + r.text + [s[0]];
      assert Markup.Step(r.(text := text + r.text), s[0]) ==
             if next.Mismatch? then Mismatch else next.(text := text + next.text);
      if next.Mismatch? {
        MismatchStays(s[1..]);
      } else {
        TextIsFree(next, text, s[1..]);
      }
    }
  }

  lemma {:induction false} NestedConcat(a: string, b: string)
    requires WellNested(a) && WellNested(b)
    ensures WellNested(a + b)
  {
    hide Run;
    var ra := Run(Outside([], ""), a);
    RunConcat(Outside([], ""), a, b);
    TextIsFree(Outside([], ""), ra.text, b);
    assert ra.text + "" == ra.text;
  }

  lemma {:induction false} TakeLineSound(d: Driver, line: string)
    requires Sound(d) && Welcome(d, line)
    ensures Sound(TakeLine(d, line))
  {
    hide AddLine, WellNested, WellNestedSoFar, Settle, BlockFor;
    BlockForIsStarter(line);
    if d.current.Some? {
      SettleSound(d, d.current.value, line);
    } else if BlockFor(line).Some? {
      SettleSound(d, New(BlockFor(line).value), line);
    }
  }

  lemma {:induction false} TakeLinesSound(lines: seq<string>, upTo: nat)
    requires CleanLines(lines) && upTo <= |lines|
    ensures Sound(TakeLines(START, lines[..upTo]))
    decreases upTo
  {
    hide TakeLine, Welcome;
    if upTo == 0 {
      RunNothing(Outside([], ""));
    } else {
      TakeLinesSound(lines, upTo - 1);
      assert lines[..upTo][..upTo - 1] == lines[..upTo - 1];
      TakeLineSound(TakeLines(START, lines[..upTo - 1]), lines[upTo - 1]);
    }
  }

  /** Main theorem: whatever the blocks and however deep they nest, what a document renders to
      is a well-nested sequence of tags and text. */
  lemma {:induction false} DocumentNested(document: string)
    requires CleanLines(Lines(document))
    ensures WellNested(Render(document))
  {
    hide AddLine, Settle;
    var lines := Lines(document);
    TakeLinesSound(lines, |lines|);
    assert lines[..|lines|] == lines;
    var d := TakeLines(START, lines);
    if d.current.Some? {
      SettleSound(d, d.current.value, "");
    }
  }

  lemma {:induction false} LinesPlain(document: string)
    requires Plain(document)
    ensures forall i | 0 <= i < |Lines(document)| :: Plain(Lines(document)[i])
    decreases |document|
  {
    if document != "" {
      var e := LineEnd(document);
      LinesPlain(document[if e < |document| then e + 1 else e..]);
    }
  }

  /** A document without `<` is clean, so it renders to well-nested tags. */
  lemma {:induction false} PlainDocumentNested(document: string)
    requires Plain(document)
    ensures WellNested(Render(document))
  {
    LinesPlain(document);
    DocumentNested(document);
  }

  // ----- the end of a document -----

  /** The blocks that one empty line completes. */
  predicate Completes(b: Block) {
    !b.kind.CodeBlock? && !b.kind.Table? && !(b.kind.Quote? && b.child.Some?)
  }

  /** What the completed block still puts out: closing tags only. */
  function Ending(b: Block): string {
    match b.kind
    case Paragraph => "</p>"
    case Quote => "</blockquote>"
    case _ => CloseAll(b)
  }

  /** A line without text ends a list of any depth: an empty line, and also a marker alone, because
      the marker is taken off before the line is looked at. */
  lemma {:induction false} NoTextEndsList(b: Block, line: string)
    requires Running(b) && IsList(b.kind)
    requires StripMarker(b.kind, line) == "" && Indentation(line) < 2
    ensures AddLine(b, line).Done() && AddLine(b, line).child.None?
    ensures Combined(AddLine(b, line)) == Combined(b) + CloseAll(b)
  {
    hide Run, AddLine, StripMarker, Indentation;
    var e := EndStep(b, line, [], "");
  }

  lemma {:induction false} EmptyLine(b: Block)
    requires Running(b)
    ensures AddLine(b, "").Done() <==> Completes(b)
    ensures Completes(b) ==> AddLine(b, "").child.None? && Combined(AddLine(b, "")) == Combined(b) + Ending(b)
  {
    hide AddLine, Run;
    match b.kind {
      case Table => TableWaits(b);
      case Quote => ChainStep(b, "");
      case Paragraph => LeafStep(b, ""); assert "" + "</p>" == "</p>";
      case CodeBlock => LeafStep(b, "");
      case Headline =>
      case HorizontalLine =>
      case _ => NoTextEndsList(b, "");
    }
  }

  /** An empty line that reaches a quote with an open child goes to the child alone, and ends it if
      it can; the quote stays open either way. */
  lemma {:induction false} EmptyLineInQuote(b: Block)
    requires Running(b) && b.kind.Quote? && b.child.Some?
    ensures var c := b.child.value;
            AddLine(b, "") == if Completes(c) then b.(result := Combined(b) + Ending(c), child := None)
                              else b.(child := Some(AddLine(c, "")))
  {
    hide AddLine, Completes, Ending;
    var c := b.child.value;
    EmptyLine(c);
    ChainStep(b, "");
    Regroup(b.result, Combined(c), Ending(c));
  }

  lemma {:induction false} TableWaits(b: Block)
    requires Running(b) && b.kind.Table?
    ensures !AddLine(b, "").Done()
  {
  }

  /** At the end of a document the open block's text is kept if and only if the block is not an
      unclosed code block, an unclosed table, or a quote with an open child; a paragraph or a list
      of any depth always completes, adding its closing tags and nothing else. */
  lemma {:induction false} FlushKeeps(document: string)
    requires CleanLines(Lines(document))
    ensures var d := TakeLines(START, Lines(document));
            Render(document) == d.result + if d.current.Some? && Completes(d.current.value)
                                           then Combined(d.current.value) + Ending(d.current.value) else ""
  {
    hide AddLine, Completes, Ending;
    TakeLinesSound(Lines(document), |Lines(document)|);
    assert Lines(document)[..|Lines(document)|] == Lines(document);
    var d := TakeLines(START, Lines(document));
    assert d.result + "" == d.result;
    if d.current.Some? {
      EmptyLine(d.current.value);
    }
  }

  // ----- the text of a whole document -----

  /** All that has been put out so far, the waiting block included. */
  function Output(d: Driver): string {
    d.result + if d.current.Some? then Combined(d.current.value) else ""
  }

  function OpenIn(d: Driver): seq<string> {
    if d.current.Some? then OpenTags(d.current.value) else []
  }

  predicate Reads(d: Driver, text: string) {
    Run(Outside([], ""), Output(d)) == Outside(OpenIn(d), text)
  }

  /** What the driver keeps of a line: an empty line that no block waits for leaves nothing. */
  function KeptLine(d: Driver, line: string): string {
    match d.current
    case Some(b) => Kept(b, line)
    case None => if BlockFor(line).Some? then Kept(New(BlockFor(line).value), line) else ""
  }

  /** What is kept of the lines of a document, one after the other. */
  function KeptLines(lines: seq<string>): string {
    if lines == [] then ""
    else
      var before, last := lines[..|lines| - 1], lines[|lines| - 1];
      KeptLines(before) + KeptLine(TakeLines(START, before), last)
  }

  lemma {:induction false} SettleReads(result: string, b: Block, line: string, text: string)
    requires (Running(b) || (Fresh(b) && Starter(b.kind, line))) && Acceptable(b, line)
    requires Run(Outside([], ""), result + Combined(b)) == Outside(OpenTags(b), text)
    ensures Reads(Settle(result, AddLine(b, line)), text + Kept(b, line))
  {
    hide Run, AddLine, Kept;
    var e, kept := BlockLine(b, line, [], text);
    var b' := AddLine(b, line);
    assert [] + OpenTags(b) == OpenTags(b) && [] + OpenTags(b') == OpenTags(b');
    RunConcat(Outside([], ""), result + Combined(b), e);
    assert result + Combined(b') == result + Combined(b) + e;
    assert result + b'.result + "" == result + b'.result;
  }

  lemma {:induction false} TakeLineReads(d: Driver, line: string, text: string)
    requires Sound(d) && Welcome(d, line) && Reads(d, text)
    ensures Reads(TakeLine(d, line), text + KeptLine(d, line))
  {
    hide AddLine, WellNested, WellNestedSoFar, BlockFor, Run, Kept;
    BlockForIsStarter(line);
    if d.current.Some? {
      SettleReads(d.result, d.current.value, line, text);
    } else if BlockFor(line).Some? {
      SettleReads(d.result, New(BlockFor(line).value), line, text);
    } else {
      assert text + "" == text;
    }
  }

  lemma {:induction false} TakeLinesRead(lines: seq<string>, upTo: nat)
    requires CleanLines(lines) && upTo <= |lines|
    ensures Reads(TakeLines(START, lines[..upTo]), KeptLines(lines[..upTo]))
    decreases upTo
  {
    hide TakeLine, Welcome, Reads, KeptLine, Sound;
    if upTo == 0 {
      NothingRead();
    } else {
      var before := lines[..upTo - 1];
      TakeLinesRead(lines, upTo - 1);
      TakeLinesSound(lines, upTo - 1);
      assert lines[..upTo][..upTo - 1] == before;
      TakeLineReads(TakeLines(START, before), lines[upTo - 1], KeptLines(before));
    }
  }

  lemma {:induction false} NothingRead()
    ensures Reads(START, "")
  {
    RunNothing(Outside([], ""));
  }

  lemma {:induction false} EmptyLineKeepsNothing(b: Block)
    requires Completes(b) && Running(b)
    ensures Kept(b, "") == ""
  {
    hide AddLine, MarkerWidth;
    match b.kind {
      case Quote => assert Prepare(b, "").1 == "";
      case Unordered => EmptyLeavesNothing(b);
      case Ordered => EmptyLeavesNothing(b);
      case Checklist => EmptyLeavesNothing(b);
      case _ =>
    }
  }

  lemma {:induction false} EmptyLeavesNothing(b: Block)
    requires b.started && IsList(b.kind)
    ensures Kept(b, "") == ""
  {
    assert ""[MarkerWidth(b.kind, "")..] == "";
  }

  /** How many lines there are before the one that opened the block that waits at the end; all, if
      none waits. */
  function SettledLines(lines: seq<string>): (n: nat)
    ensures n <= |lines|
  {
    if lines == [] || TakeLines(START, lines).current.None? then |lines|
    else if TakeLines(START, lines[..|lines| - 1]).current.None? then |lines| - 1
    else SettledLines(lines[..|lines| - 1])
  }

  /** Since that line the output has not changed. */
  lemma {:induction false} SettledResult(lines: seq<string>)
    ensures var settled := TakeLines(START, lines[..SettledLines(lines)]);
            settled.current.None? && settled.result == TakeLines(START, lines).result
  {
    hide AddLine, BlockFor;
    assert lines[..|lines|] == lines;
    if lines != [] && TakeLines(START, lines).current.Some? {
      var init := lines[..|lines| - 1];
      if TakeLines(START, init).current.Some? {
        SettledResult(init);
        assert init[..SettledLines(init)] == lines[..SettledLines(init)];
      }
    }
  }

  /** The block that waits at the end of the lines does not complete at the end of a document. */
  predicate LosesLast(d: Driver) {
    d.current.Some? && !Completes(d.current.value)
  }

  /** Main theorem on text: the text of a rendered document is what each line leaves, in input order,
      and nothing else; where the last block does not complete, its lines are lost and no others. */
  lemma {:induction false} DocumentKeeps(document: string)
    requires CleanLines(Lines(document))
    ensures var lines := Lines(document);
            var kept := if LosesLast(TakeLines(START, lines)) then lines[..SettledLines(lines)] else lines;
            Run(Outside([], ""), Render(document)) == Outside([], KeptLines(kept))
  {
    hide AddLine, KeptLine, Completes, Run, Kept, SettledLines;
    var lines := Lines(document);
    var d := TakeLines(START, lines);
    TakeLinesRead(lines, |lines|);
    TakeLinesSound(lines, |lines|);
    assert lines[..|lines|] == lines;
    assert forall result: string :: result + "" == result;
    if LosesLast(d) {
      EmptyLine(d.current.value);
      SettledResult(lines);
      TakeLinesRead(lines, SettledLines(lines));
    } else if d.current.Some? {
      var b := d.current.value;
      EmptyLine(b);
      SettleReads(d.result, b, "", KeptLines(lines));
      EmptyLineKeepsNothing(b);
      assert KeptLines(lines) + "" == KeptLines(lines);
    }
  }

  // ----- a whole run of lines through nested lists -----

  function Feed(b: Block, lines: seq<string>): Block {
    if lines == [] then b else AddLine(Feed(b, lines[..|lines| - 1]), lines[|lines| - 1])
  }

  /** Line `i` is the pieces the levels took off it, at most one for each level there is before
      or after the line, and then the text that the chain leaves of it. */
  predicate Trimmed(kind: Kind, lines: seq<string>, i: nat, cuts: seq<string>, kept: string)
    requires i < |lines|
  {
    && kept == Left(Feed(New(kind), lines[..i]), lines[i])
    && lines[i] == Flatten(cuts) + kept
    && (forall j | 0 <= j < |cuts| :: LevelCut(kind, cuts[j]))
    && |cuts| <= 1 + Max(Depth(Feed(New(kind), lines[..i])), Depth(Feed(New(kind), lines[..i + 1])))
  }

  /** A chain after at least one line: its open tags, or nothing open once it has ended. */
  predicate OpenOrEnded(b: Block, text: string) {
    && Run(Outside([], ""), Combined(b)) == Outside(OpenTags(b), text)
    && (if b.Done() then OpenTags(b) == [] && b.child.None? else Running(b))
  }

  /** A chain that takes the next line: it runs or is fresh, and `text` is what it has put out. */
  predicate GoesOn(b: Block, text: string) {
    && (Running(b) || Fresh(b))
    && Run(Outside([], ""), Combined(b)) == Outside(OpenTags(b), text)
  }

  /** From the first line of a list on, at any depth and with any mix of lists: the output has
      exactly the tags of the open lists on its stack, and its text is, line after line, what was
      left of the line after each level took its indentation or its marker. */
  lemma {:induction false} ListRun(kind: Kind, lines: seq<string>, n: nat)
    returns (cuts: seq<seq<string>>, kept: seq<string>)
    requires IsList(kind) && 1 <= n <= |lines|
    requires forall i | 0 <= i < n :: Plain(lines[i]) && !Feed(New(kind), lines[..i]).Done()
    ensures |cuts| == |kept| == n && forall i | 0 <= i < n :: Trimmed(kind, lines, i, cuts[i], kept[i])
    ensures Feed(New(kind), lines[..n]).kind == kind
    ensures OpenOrEnded(Feed(New(kind), lines[..n]), Flatten(kept))
    decreases n
  {
    hide Run, AddLine, LevelCut, Plain, OpenOrEnded, Flatten, Left, Depth, Trimmed, Feed, GoesOn;
    var m := n - 1;
    var b := Feed(New(kind), lines[..m]);
    cuts, kept := [], [];
    if m > 0 {
      cuts, kept := ListRun(kind, lines, m);
      NotEndedGoesOn(b, Flatten(kept));
    } else {
      FreshGoesOn(kind, lines);
    }
    FeedLast(New(kind), lines, m);
    var cut, rest := ListRunStep(b, lines[m], Flatten(kept));
    FlattenLast(kept, rest);
    LastTrimmed(kind, lines, m, cut, rest);
    cuts, kept := cuts + [cut], kept + [rest];
  }

  lemma {:induction false} NotEndedGoesOn(b: Block, text: string)
    requires OpenOrEnded(b, text) && !b.Done()
    ensures GoesOn(b, text)
  {
    hide Run, Running, Combined, OpenTags;
  }

  lemma {:induction false} FreshGoesOn(kind: Kind, lines: seq<string>)
    ensures Feed(New(kind), lines[..0]) == New(kind) && GoesOn(New(kind), Flatten([]))
  {
    RunNothing(Outside([], ""));
  }

  lemma {:induction false} FeedLast(b: Block, lines: seq<string>, m: nat)
    requires m < |lines|
    ensures Feed(b, lines[..m + 1]) == AddLine(Feed(b, lines[..m]), lines[m])
  {
    hide AddLine;
    assert lines[..m + 1][..m] == lines[..m];
  }

  lemma {:induction false} LastTrimmed(kind: Kind, lines: seq<string>, m: nat, cuts: seq<string>, kept: string)
    requires m < |lines|
    requires var b, after := Feed(New(kind), lines[..m]), Feed(New(kind), lines[..m + 1]);
             && kept == Left(b, lines[m]) && lines[m] == Flatten(cuts) + kept
             && (forall j | 0 <= j < |cuts| :: LevelCut(kind, cuts[j]))
             && |cuts| <= 1 + Max(Depth(b), Depth(after))
    ensures Trimmed(kind, lines, m, cuts, kept)
  {
    hide Feed, Left, Flatten, LevelCut, Depth;
  }

  lemma {:induction false} ListRunStep(b: Block, line: string, text: string) returns (cuts: seq<string>, kept: string)
    requires IsList(b.kind) && Plain(line) && GoesOn(b, text)
    ensures AddLine(b, line).kind == b.kind && OpenOrEnded(AddLine(b, line), text + kept)
    ensures kept == Left(b, line) && line == Flatten(cuts) + kept
    ensures forall j | 0 <= j < |cuts| :: LevelCut(b.kind, cuts[j])
    ensures |cuts| <= 1 + Max(Depth(b), Depth(AddLine(b, line)))
  {
    hide Run, AddLine, LevelCut, Left, Flatten, Combined, Running, Plain, Bare, Depth;
    var e;
    e, cuts, kept := ListLine(b, line, [], text);
    PlainIsBare(line);
    RunConcat(Outside([], ""), Combined(b), e);
    assert [] + OpenTags(b) == OpenTags(b);
    assert [] + OpenTags(AddLine(b, line)) == OpenTags(AddLine(b, line));
  }

  lemma {:induction false} FlattenLast(s: seq<string>, last: string)
    ensures Flatten(s + [last]) == Flatten(s) + last
    decreases |s|
  {
    if s == [] {
      assert s + [last] == [last] && [last][1..] == [];
      assert Flatten([last]) == last + "";
    } else {
      assert (s + [last])[1..] == s[1..] + [last];
      FlattenLast(s[1..], last);
    }
  }
}
