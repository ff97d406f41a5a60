/** What every line keeps: the tags a chain of block parsers has open, its text, and how a
    parser that ends or turns to a new item takes everything nested in it along. */
module MarkdownNesting {
  import opened Shared
  import opened Markup
  import opened MarkdownLines
  import opened MarkdownBlocks
  import opened MarkdownTags

  /** The output of a chain so far, outermost parser first. */
  function Combined(b: Block): string {
    match b.child
    case None => b.result
    case Some(c) => b.result + Combined(c)
  }

  /** The tags a chain has open, outermost first: for nested lists [list, li, list, li, ...]. */
  function OpenTags(b: Block): seq<string> {
    if !b.started || b.Done() then []
    else
      match b.child
      case None => TagsOf(b.kind)
      case Some(c) => TagsOf(b.kind) + OpenTags(c)
  }

  predicate IsItemList(kind: Kind) {
    kind.Unordered? || kind.Ordered?
  }

  predicate MayHold(kind: Kind, child: Kind) {
    match kind
    case Unordered => IsItemList(child)
    case Ordered => IsItemList(child)
    case Checklist => child.Checklist?
    case Quote => true
    case _ => false
  }

  /** A chain that has taken at least one line and waits for more. */
  predicate Running(b: Block) {
    && b.started && !b.Done()
    && (b.child.Some? ==> MayHold(b.kind, b.child.value.kind) && Running(b.child.value))
    && PlainBlocks(b.grid.blocks)
    && (b.kind.Table? ==> b.result == "")
  }

  // ----- lines that close -----

  /** What a chain of lists emits when it ends: closers, innermost first. */
  function CloseAll(b: Block): string {
    match b.child
    case None => Closer(b.kind)
    case Some(c) => CloseAll(c) + Closer(b.kind)
  }

  /** A line an ancestor has put closing tags in front of. */
  predicate ClosingLine(kind: Kind, line: string) {
    if kind.Checklist? then NextItem(Checklist) <= line || Closer(Checklist) <= line
    else "</li><li>" <= line || "</li></ol>" <= line || "</li></ul>" <= line
  }

  lemma {:induction false} FoundAtStart(line: string, pattern: string)
    requires pattern != "" && pattern[0] == '<' && pattern <= line
    ensures "<" <= line && line != "" && Contains(line, pattern)
  {
    assert line[0..] == line;
    assert line[0] == '<';
  }

  lemma {:induction false} LabelClosers()
    ensures NextItem(Checklist) == "</label></li><li><label>" && Closer(Checklist) == "</label></li></ul>"
  {
  }

  lemma {:induction false} ClosingLineFound(kind: Kind, line: string)
    requires IsList(kind) && ClosingLine(kind, line)
    ensures "<" <= line && line != ""
    ensures HasCloser(kind, line)
  {
    hide Contains;
    if kind.Checklist? {
      LabelClosers();
      FoundAtStart(line, if NextItem(Checklist) <= line then NextItem(Checklist) else Closer(Checklist));
    } else if "</li><li>" <= line {
      FoundAtStart(line, "</li><li>");
    } else if "</li></ol>" <= line {
      FoundAtStart(line, "</li></ol>");
    } else {
      FoundAtStart(line, "</li></ul>");
    }
  }

  /** A line that begins with a tag has no indentation, no marker and opens no child list. */
  lemma TagLine(kind: Kind, line: string)
    requires IsList(kind) && "<" <= line
    ensures Indentation(line) == 0
    ensures StripMarker(kind, line) == line
    ensures !StartsItem(kind, line)
    ensures ChildFor(kind, line).None?
  {
    assert line[0] == '<';
    if ChildFor(kind, line).Some? {
      ListChildStart(kind, line);
    }
  }

  lemma CloserClosesAgain(kind: Kind, outer: Kind, line: string)
    requires IsList(kind) && (kind.Checklist? <==> outer.Checklist?)
    ensures ClosingLine(outer, Closer(kind) + line)
    ensures IsList(outer) ==> ClosingLine(outer, NextItem(kind) + line)
  {
  }

  // ----- one step of the chain -----

  lemma {:induction false} ChainStep(b: Block, line: string)
    requires !b.kind.Table?
    ensures var (b1, l) := Prepare(b, line);
            match Target(b1, l)
            case Some(t) => AddLine(b, line) == Absorb(b1, AddLine(t, l))
            case None => AddLine(b, line) == Keep(b1, line, l)
  {
    hide Prepare, Target, Keep, Absorb;
  }

  lemma {:induction false} ListStep(b: Block, line: string)
    requires IsList(b.kind)
    ensures Prepare(b, line) == ParseListLine(b, line)
  {
    hide ParseListLine;
  }

  lemma {:induction false} ClosingLineEnds(b: Block, line: string)
    requires Running(b) && IsList(b.kind) && ClosingLine(b.kind, line)
    ensures ParseListLine(b, line) == (b.(finished := true), Closer(b.kind) + line)
  {
    ClosingLineFound(b.kind, line);
    TagLine(b.kind, line);
  }

  /** A closing line ends the whole chain it reaches: closers innermost first, then the line. */
  lemma {:induction false} ClosingStep(b: Block, line: string)
    requires Running(b) && IsList(b.kind) && ClosingLine(b.kind, line)
    ensures var b' := AddLine(b, line);
            b'.kind == b.kind && b'.Done() && b'.child.None? && Combined(b') == Combined(b) + CloseAll(b) + line
    decreases Depth(b)
  {
    hide AddLine, Prepare, ParseListLine, ClosingLine, Closer, ChildFor, StripMarker, StartsItem, Indentation;
    hide HasCloser, BlockFor;
    ClosingLineEnds(b, line);
    ListStep(b, line);
    ChainStep(b, line);
    var l := Closer(b.kind) + line;
    match b.child {
      case None =>
        TagFirst(b.kind, line);
        TagLine(b.kind, l);
        Regroup(b.result, Closer(b.kind), line);
      case Some(c) =>
        CloserClosesAgain(b.kind, c.kind, line);
        ClosingStep(c, l);
        ClosersLineUp(b.result, Combined(c), CloseAll(c), Closer(b.kind), line);
    }
  }

  lemma {:induction false} ClosersLineUp(result: string, inner: string, closers: string, closer: string, line: string)
    ensures result + (inner + closers + (closer + line)) == result + inner + (closers + closer) + line
  {
    Regroup(result, inner + closers, closer + line);
    Regroup(result, inner, closers);
    Regroup(result + inner + closers, closer, line);
    Regroup(result + inner, closers, closer);
  }

  lemma {:induction false} CloseAllRuns(b: Block, open: seq<string>, text: string)
    requires Running(b) && IsList(b.kind)
    ensures Run(Outside(open + OpenTags(b), text), CloseAll(b)) == Outside(open, text)
    decreases Depth(b)
  {
    hide Run;
    CloserRuns(b.kind, open, text);
    match b.child {
      case None =>
      case Some(c) =>
        var mine := open + TagsOf(b.kind);
        assert open + OpenTags(b) == mine + OpenTags(c);
        CloseAllRuns(c, mine, text);
        RunConcat(Outside(mine + OpenTags(c), text), CloseAll(c), Closer(b.kind));
    }
  }

  /** What ends everything nested in a parser, but not the parser itself. */
  function CloseInner(b: Block): string {
    match b.child
    case None => ""
    case Some(c) => CloseAll(c)
  }

  /** The parser puts tags in front of the line, so that everything nested in it ends. */
  predicate Turns(b: Block, b1: Block, l: string) {
    && b1.kind == b.kind && b1.result == b.result && b1.child == b.child
    && "<" <= l && (b.child.Some? ==> ClosingLine(b.child.value.kind, l))
  }

  /** When a list parser ends or starts a new item, every descendant ends in the same step and
      its closers come out innermost first, before the parser's own tags and the text. */
  lemma {:induction false} TurnStep(b: Block, line: string)
    requires IsList(b.kind) && (b.child.Some? ==> MayHold(b.kind, b.child.value.kind) && Running(b.child.value))
    requires var (b1, l) := ParseListLine(b, line); Turns(b, b1, l)
    ensures var (b1, l) := ParseListLine(b, line);
            var b' := AddLine(b, line);
            b' == b1.(result := b'.result, child := None) && b'.result == Combined(b) + CloseInner(b) + l
  {
    hide AddLine, Prepare, ParseListLine, ClosingLine, ChildFor, StripMarker, StartsItem, Indentation;
    var (b1, l) := ParseListLine(b, line);
    ListStep(b, line);
    ChainStep(b, line);
    match b.child {
      case None =>
        TagLine(b.kind, l);
        assert b.result + "" == b.result;
      case Some(c) =>
        ClosingStep(c, l);
        Regroup(b.result, Combined(c) + CloseAll(c), l);
        Regroup(b.result, Combined(c), CloseAll(c));
    }
  }

  lemma {:induction false} CloseInnerRuns(b: Block, open: seq<string>, text: string)
    requires Running(b) && IsList(b.kind)
    ensures Run(Outside(open + OpenTags(b), text), CloseInner(b)) == Outside(open + TagsOf(b.kind), text)
  {
    hide Run;
    match b.child {
      case None => RunNothing(Outside(open + OpenTags(b), text));
      case Some(c) =>
        assert open + OpenTags(b) == open + TagsOf(b.kind) + OpenTags(c);
        CloseAllRuns(c, open + TagsOf(b.kind), text);
    }
  }

  // ----- lines of text -----

  predicate HasBoxHtml(line: string) {
    EMPTY_BOX_HTML <= line || TICKED_BOX_HTML <= line
  }

  /** The line without a box element in front. */
  function Bare(line: string): string {
    if EMPTY_BOX_HTML <= line then line[|EMPTY_BOX_HTML|..] else StripPrefix(line, TICKED_BOX_HTML)
  }

  /** A line as a list parser meets it when no ancestor closes: user text, in a checklist
      possibly behind a box element. */
  predicate Quiet(kind: Kind, line: string) {
    Plain(line) || (kind.Checklist? && HasBoxHtml(line) && Plain(Bare(line)))
  }

  /** What one level may take off the front of a line: a step of indentation or its marker. */
  predicate LevelCut(kind: Kind, s: string) {
    || s == ""
    || (|s| == 2 && IsSpace(s[0]) && IsSpace(s[1]))
    || if kind.Checklist? then s == "- " || s == "[ ]" || s == "[x]" || s == "- [ ]" || s == "- [x]"
       else s == "+ " || s == "* " || s == "- " || s == "1. " || s == "1. * "
  }

  /** How many characters of user text the marker takes up: a bullet, a number with perhaps a bullet,
      or in a checklist a bullet and a box, each of which may be missing. */
  function MarkerWidth(kind: Kind, line: string): (width: nat)
    ensures width <= |line|
  {
    match kind
    case Unordered => if BulletPrefix(line) then 2 else 0
    case Ordered => if "1. * " <= line then 5 else if "1. " <= line then 3 else if "* " <= line then 2 else 0
    case Checklist =>
      var bullet := if "- " <= line then 2 else 0;
      if EMPTY_BOX <= line[bullet..] || TICKED_BOX <= line[bullet..] then bullet + 3 else bullet
    case _ => 0
  }

  /** The text a chain of lists leaves of a line of user text: every level takes its marker or two
      characters of indentation and passes the rest on, until a level takes a box, starts an item or
      has nothing nested in it. */
  function Left(b: Block, line: string): string
    decreases Depth(b)
  {
    var rest := line[MarkerWidth(b.kind, line)..];
    if !b.started then rest
    else if Indentation(line) >= 2 then LeftInside(b, line[2..])
    else if rest == "" || StartsItem(b.kind, line) then rest
    else if TakesBox(b.kind, line) then rest
    else LeftInside(b, rest)
  }

  /** What the parser nested in a list leaves of a line, be it an open one or a new one. */
  function LeftInside(b: Block, line: string): string
    decreases Depth(b), 0
  {
    match b.child
    case Some(c) => Left(c, line)
    case None =>
      match ChildFor(b.kind, line)
      case None => line
      case Some(kind) => line[MarkerWidth(kind, line)..]
  }

  lemma {:induction false} BoxHtmlIs(html: string)
    requires html == EMPTY_BOX_HTML || html == TICKED_BOX_HTML
    ensures |html| > 2 && html[0] == '<' && html[1] == 'i' && '<' !in html[1..]
  {
    BoxInputGood();
  }

  lemma {:induction false} PlainHasNoTag(s: string, pattern: string)
    requires Plain(s) && "</" <= pattern
    ensures !Contains(s, pattern)
  {
    forall i | 0 <= i <= |s| - |pattern|
      ensures !(pattern <= s[i..])
    {
      assert s[i] == s[i..][0];
    }
  }

  lemma {:induction false} BoxHasNoCloser(html: string, rest: string, pattern: string)
    requires html == EMPTY_BOX_HTML || html == TICKED_BOX_HTML
    requires Plain(rest) && "</" <= pattern
    ensures !Contains(html + rest, pattern)
  {
    hide EMPTY_BOX_HTML, TICKED_BOX_HTML;
    BoxHtmlIs(html);
    var s := html + rest;
    assert s[1] == html[1];
    forall i | 0 <= i <= |s| - |pattern|
      ensures !(pattern <= s[i..])
    {
      assert s[i..][0] == s[i] && s[i..][1] == s[i + 1];
      if 0 < i < |html| {
        assert s[i] == html[1..][i - 1];
      } else if |html| <= i {
        assert s[i] == rest[i - |html|];
      }
    }
  }

  lemma {:induction false} QuietHasNoCloser(kind: Kind, s: string)
    requires IsList(kind) && Quiet(kind, s)
    ensures !HasCloser(kind, s)
  {
    hide Contains, EMPTY_BOX_HTML, TICKED_BOX_HTML;
    if Plain(s) {
      PlainHasNoTag(s, "</li><li>");
      PlainHasNoTag(s, "</li></ol>");
      PlainHasNoTag(s, "</li></ul>");
      PlainHasNoTag(s, "</label></li><li><label>");
      PlainHasNoTag(s, "</label></li></ul>");
    } else {
      var html := if EMPTY_BOX_HTML <= s then EMPTY_BOX_HTML else TICKED_BOX_HTML;
      assert s == html + Bare(s);
      BoxHasNoCloser(html, Bare(s), "</label></li><li><label>");
      BoxHasNoCloser(html, Bare(s), "</label></li></ul>");
    }
  }

  lemma {:induction false} QuietRuns(kind: Kind, s: string, open: seq<string>, text: string)
    requires Quiet(kind, s)
    ensures Run(Outside(open, text), s) == Outside(open, text + Bare(s))
  {
    hide Run;
    if Plain(s) {
      PlainIsBare(s);
      RunText(open, text, s);
    } else {
      hide EMPTY_BOX_HTML, TICKED_BOX_HTML;
      var html := if EMPTY_BOX_HTML <= s then EMPTY_BOX_HTML else TICKED_BOX_HTML;
      assert s == html + Bare(s);
      RunConcat(Outside(open, text), html, Bare(s));
      BoxRuns(open, text, html);
      RunText(open, text, Bare(s));
    }
  }

  lemma {:induction false} PlainIsBare(s: string)
    requires Plain(s)
    ensures !HasBoxHtml(s) && Bare(s) == s
  {
    assert s == "" || s[0] != '<';
  }

  lemma {:induction false} BoxHtmlBare(html: string, rest: string)
    requires html == EMPTY_BOX_HTML || html == TICKED_BOX_HTML
    requires Plain(rest)
    ensures HasBoxHtml(html + rest) && Bare(html + rest) == rest
  {
    var k := 1 + |BOX_INPUT|;
    assert EMPTY_BOX_HTML[k] == '/';
    if html == TICKED_BOX_HTML {
      assert (html + rest)[k] == TICKED_ATTRIBUTE[0];
    }
  }

  predicate TakesBox(kind: Kind, line: string) {
    kind.Checklist? && MarkerWidth(kind, line) >= 3
  }

  /** What stripping does to user text, told by the width of the marker. */
  predicate StrippedAs(kind: Kind, line: string, s: string) {
    && Quiet(kind, s) && Bare(s) == line[MarkerWidth(kind, line)..]
    && (HasBoxHtml(s) <==> TakesBox(kind, line))
  }

  lemma {:induction false} BulletStripped(line: string)
    requires Plain(line)
    ensures StripBullet(line) == line[MarkerWidth(Unordered, line)..]
    ensures LevelCut(Unordered, line[..MarkerWidth(Unordered, line)])
  {
  }

  lemma {:induction false} NumberStripped(line: string)
    requires Plain(line)
    ensures StripOrdered(line) == line[MarkerWidth(Ordered, line)..]
    ensures LevelCut(Ordered, line[..MarkerWidth(Ordered, line)])
  {
    var rest := StripPrefix(line, "1. ");
    if "1. " <= line {
      assert line == "1. " + rest;
      assert "* " <= rest ==> line == "1. * " + rest[2..];
      assert "1. * " <= line ==> rest == "* " + line[5..];
    }
  }

  lemma {:induction false} ItemStripped(kind: Kind, line: string)
    requires IsItemList(kind) && Plain(line)
    ensures StrippedAs(kind, line, StripMarker(kind, line))
    ensures LevelCut(kind, line[..MarkerWidth(kind, line)])
  {
    hide MarkerWidth, LevelCut, StripBullet, StripOrdered, EMPTY_BOX_HTML, TICKED_BOX_HTML, HasBoxHtml, Bare;
    if kind.Unordered? { BulletStripped(line); } else { NumberStripped(line); }
    PlainIsBare(StripMarker(kind, line));
  }

  lemma {:induction false} BoxStripped(line: string, html: string)
    requires Plain(line)
    requires (EMPTY_BOX <= line && html == EMPTY_BOX_HTML) || (TICKED_BOX <= line && html == TICKED_BOX_HTML)
    ensures ReplaceBox(line) == html + line[3..]
    ensures HasBoxHtml(ReplaceBox(line)) && Bare(ReplaceBox(line)) == line[3..]
  {
    hide EMPTY_BOX_HTML, TICKED_BOX_HTML, HasBoxHtml, Bare;
    BoxHtmlIs(EMPTY_BOX_HTML);
    var boxed := EMPTY_BOX_HTML + line[3..];
    assert boxed[0] == '<' != TICKED_BOX[0];
    assert EMPTY_BOX <= line ==> line[1] == EMPTY_BOX[1];
    assert TICKED_BOX <= line ==> line[1] == TICKED_BOX[1];
    BoxHtmlBare(html, line[3..]);
  }

  lemma {:induction false} ChecklistStripped(line: string)
    requires Plain(line)
    ensures StrippedAs(Checklist, line, StripMarker(Checklist, line))
  {
    hide EMPTY_BOX_HTML, TICKED_BOX_HTML, HasBoxHtml, Bare, ReplaceBox;
    var l := StripPrefix(line, "- ");
    if EMPTY_BOX <= l {
      BoxStripped(l, EMPTY_BOX_HTML);
    } else if TICKED_BOX <= l {
      BoxStripped(l, TICKED_BOX_HTML);
    } else {
      assert ReplaceBox(l) == l by { NoBoxStripped(l); }
      PlainIsBare(l);
    }
  }

  lemma {:induction false} NoBoxStripped(line: string)
    requires !(EMPTY_BOX <= line) && !(TICKED_BOX <= line)
    ensures ReplaceBox(line) == line
  {
  }

  lemma {:induction false} ChecklistCut(line: string)
    ensures LevelCut(Checklist, line[..MarkerWidth(Checklist, line)])
  {
    var bullet := if "- " <= line then 2 else 0;
    if EMPTY_BOX <= line[bullet..] || TICKED_BOX <= line[bullet..] {
      var cut := line[..bullet + 3];
      assert cut == line[..bullet] + line[bullet..][..3];
    }
  }

  /** A stripped marker is the difference between the line and what is left of it. */
  lemma {:induction false} MarkerCut(kind: Kind, line: string) returns (cut: string)
    requires IsList(kind) && Quiet(kind, line)
    ensures LevelCut(kind, cut)
    ensures Quiet(kind, StripMarker(kind, line))
    ensures Bare(line) == cut + Bare(StripMarker(kind, line))
    ensures if HasBoxHtml(line) then StripMarker(kind, line) == line
            else Plain(line) && StrippedAs(kind, line, StripMarker(kind, line))
  {
    hide EMPTY_BOX_HTML, TICKED_BOX_HTML, MarkerWidth, LevelCut, StripMarker;
    if HasBoxHtml(line) {
      BoxHtmlIs(if EMPTY_BOX_HTML <= line then EMPTY_BOX_HTML else TICKED_BOX_HTML);
      TagLine(kind, line);
      cut := "";
      assert LevelCut(kind, "") by { NoCut(kind); }
      assert Bare(line) == cut + Bare(line);
    } else {
      PlainIsBare(line);
      cut := line[..MarkerWidth(kind, line)];
      if kind.Checklist? {
        ChecklistStripped(line);
        ChecklistCut(line);
      } else {
        ItemStripped(kind, line);
      }
      assert line == cut + line[MarkerWidth(kind, line)..];
    }
  }

  lemma {:induction false} NoCut(kind: Kind)
    ensures LevelCut(kind, "")
  {
  }

  // ----- one line through a chain of lists -----

  function Flatten(cuts: seq<string>): string {
    if cuts == [] then "" else cuts[0] + Flatten(cuts[1..])
  }

  /** A chain of lists after one more line: what it added, seen by a reader outside the chain. */
  predicate Extends(b: Block, b': Block, e: string, open: seq<string>, text: string, kept: string) {
    && b'.kind == b.kind
    && Combined(b') == Combined(b) + e
    && Run(Outside(open + OpenTags(b), text), e) == Outside(open + OpenTags(b'), text + kept)
    && (if b'.Done() then b'.child.None? else Running(b'))
  }

  predicate Fresh(b: Block) {
    b == New(b.kind)
  }

  lemma {:induction false} FreshTurn(b: Block, line: string)
    requires IsList(b.kind) && Fresh(b)
    ensures AddLine(b, line) == b.(started := true, result := Opener(b.kind) + StripMarker(b.kind, line))
  {
    hide AddLine, Opener, StripMarker, Indentation, StartsItem, HasCloser, Combined;
    TagFirst(b.kind, StripMarker(b.kind, line));
    TurnStep(b, line);
    var l := Opener(b.kind) + StripMarker(b.kind, line);
    assert Combined(b) == "" by { FreshIsEmpty(b); }
    assert "" + "" == "" && "" + l == l;
  }

  lemma {:induction false} FreshIsEmpty(b: Block)
    requires Fresh(b)
    ensures Combined(b) == "" && OpenTags(b) == []
  {
  }

  /** The first line of a list. */
  lemma {:induction false} OpenStep(b: Block, line: string, open: seq<string>, text: string)
    returns (e: string, cut: string)
    requires IsList(b.kind) && Fresh(b) && Quiet(b.kind, line)
    ensures LevelCut(b.kind, cut) && Bare(line) == cut + Bare(StripMarker(b.kind, line))
    ensures Extends(b, AddLine(b, line), e, open, text, Bare(StripMarker(b.kind, line)))
    ensures !AddLine(b, line).Done()
  {
    hide Run, AddLine, Opener, StripMarker, Bare, Quiet, LevelCut;
    cut := MarkerCut(b.kind, line);
    var s := StripMarker(b.kind, line);
    e := Opener(b.kind) + s;
    FreshTurn(b, line);
    FreshIsEmpty(b);
    OpenerRuns(b.kind, open, text);
    QuietRuns(b.kind, s, open + TagsOf(b.kind), text);
    RunConcat(Outside(open, text), Opener(b.kind), s);
    assert open + [] == open && "" + e == e;
  }

  lemma {:induction false} ClosersInLine(b: Block)
    ensures Combined(b) + CloseInner(b) + Closer(b.kind) == Combined(b) + CloseAll(b)
  {
    match b.child {
      case None => assert Combined(b) + "" == Combined(b);
      case Some(c) => Regroup(Combined(b), CloseAll(c), Closer(b.kind));
    }
  }

  /** The list ends. */
  lemma {:induction false} EndStep(b: Block, line: string, open: seq<string>, text: string)
    returns (e: string)
    requires IsList(b.kind) && Running(b)
    requires ParseListLine(b, line) == (b.(finished := true), Closer(b.kind) + "")
    ensures e == CloseAll(b) && AddLine(b, line).Done()
    ensures Extends(b, AddLine(b, line), e, open, text, "")
  {
    hide Run, ParseListLine, ClosingLine, AddLine, Closer;
    e := CloseAll(b);
    TagFirst(b.kind, "");
    if b.child.Some? { CloserClosesAgain(b.kind, b.child.value.kind, ""); }
    assert ClosingLine(b.kind, Closer(b.kind) + "") by { CloserClosesAgain(b.kind, b.kind, ""); }
    TurnStep(b, line);
    assert Closer(b.kind) + "" == Closer(b.kind);
    ClosersInLine(b);
    CloseAllRuns(b, open, text);
    assert text + "" == text && open + [] == open;
  }

  /** The list turns to a new item. */
  lemma {:induction false} ItemStep(b: Block, line: string, s: string, open: seq<string>, text: string)
    returns (e: string)
    requires IsList(b.kind) && Running(b) && Quiet(b.kind, s)
    requires ParseListLine(b, line) == (b, NextItem(b.kind) + s)
    ensures e == CloseInner(b) + NextItem(b.kind) + s
    ensures AddLine(b, line).child.None?
    ensures Extends(b, AddLine(b, line), e, open, text, Bare(s))
  {
    hide Run, ParseListLine, ClosingLine, Bare, Quiet, AddLine, NextItem, Closer;
    var l := NextItem(b.kind) + s;
    e := CloseInner(b) + NextItem(b.kind) + s;
    TagFirst(b.kind, s);
    if b.child.Some? { CloserClosesAgain(b.kind, b.child.value.kind, s); }
    TurnStep(b, line);
    Regroup(Combined(b) + CloseInner(b), NextItem(b.kind), s);
    Regroup(Combined(b), CloseInner(b), NextItem(b.kind));
    Regroup(Combined(b), CloseInner(b) + NextItem(b.kind), s);
    var item := open + TagsOf(b.kind);
    CloseInnerRuns(b, open, text);
    NextItemRuns(b.kind, open, text);
    QuietRuns(b.kind, s, item, text);
    RunConcat(Outside(open + OpenTags(b), text), CloseInner(b) + NextItem(b.kind), s);
    RunConcat(Outside(open + OpenTags(b), text), CloseInner(b), NextItem(b.kind));
  }

  function Max(a: nat, b: nat): nat {
    if a > b then a else b
  }

  /** A parser takes over what its child did with a line. */
  lemma {:induction false} AbsorbExtends(b: Block, t: Block, t': Block, e: string, open: seq<string>, text: string,
                                         kept: string)
    requires Running(b) && MayHold(b.kind, t.kind)
    requires b.child == Some(t) || (b.child.None? && Fresh(t))
    requires Extends(t, t', e, open + TagsOf(b.kind), text, kept)
    ensures Extends(b, Absorb(b, t'), e, open, text, kept)
    ensures Depth(Absorb(b, t')) == if t'.Done() then 0 else 1 + Depth(t')
  {
    hide Run;
    var b' := Absorb(b, t');
    assert open + TagsOf(b.kind) + OpenTags(t) == open + OpenTags(b);
    assert open + TagsOf(b.kind) + OpenTags(t') == open + OpenTags(b');
    if b.child.Some? {
      assert b.result + (Combined(t) + e) == Combined(b) + e;
    } else {
      assert b.result + ("" + e) == Combined(b) + e;
    }
  }

  lemma {:induction false} ListHolds(kind: Kind, line: string)
    requires IsList(kind) && ChildFor(kind, line).Some?
    ensures MayHold(kind, ChildFor(kind, line).value)
  {
  }

  lemma {:induction false} HeldIsQuiet(kind: Kind, child: Kind, line: string)
    requires IsList(kind) && MayHold(kind, child)
    ensures Quiet(kind, line) ==> Quiet(child, line)
    ensures IsList(child) && forall s :: LevelCut(kind, s) == LevelCut(child, s)
  {
  }

  /** The text left of a line, case by case of what the list parser does with it. */
  lemma {:induction false} LeftCases(b: Block, line: string, s: string)
    requires StrippedAs(b.kind, line, s)
    ensures !b.started ==> Left(b, line) == Bare(s)
    ensures b.started && Indentation(line) >= 2 ==> Left(b, line) == LeftInside(b, line[2..])
    ensures b.started && Indentation(line) < 2 ==>
              Left(b, line) == if s == "" || StartsItem(b.kind, line) || HasBoxHtml(s) then Bare(s)
                               else LeftInside(b, s)
  {
    hide MarkerWidth, StartsItem, LeftInside, EMPTY_BOX_HTML, TICKED_BOX_HTML;
    if Plain(s) { PlainIsBare(s); }
  }

  /** A line that carries neither an item nor an end goes to the child, or stays. */
  lemma {:induction false} DeliverStep(b: Block, line: string, l: string, open: seq<string>, text: string)
    returns (e: string, cuts: seq<string>, kept: string)
    requires IsList(b.kind) && Running(b) && Quiet(b.kind, l)
    requires ParseListLine(b, line) == (b, l)
    ensures Extends(b, AddLine(b, line), e, open, text, kept)
    ensures kept == if HasBoxHtml(l) then Bare(l) else LeftInside(b, l)
    ensures Bare(l) == Flatten(cuts) + kept
    ensures forall i | 0 <= i < |cuts| :: LevelCut(b.kind, cuts[i])
    ensures |cuts| <= Max(Depth(b), Depth(AddLine(b, line)))
    decreases Depth(b), Rank(b), 0
  {
    hide Run, ParseListLine, Bare, AddLine, Quiet, ChildFor, LevelCut, HasBoxHtml, MarkerWidth;
    ListStep(b, line);
    ChainStep(b, line);
    match Target(b, l) {
      case None =>
        e, cuts, kept := l, [], Bare(l);
        QuietRuns(b.kind, l, open + TagsOf(b.kind), text);
        assert "" + kept == kept;
        if !HasBoxHtml(l) { QuietIsPlain(b.kind, l); }
      case Some(t) =>
        if b.child.None? { ListHolds(b.kind, l); }
        HeldIsQuiet(b.kind, t.kind, l);
        e, cuts, kept := ListLine(t, l, open + TagsOf(b.kind), text);
        AbsorbExtends(b, t, AddLine(t, l), e, open, text, kept);
    }
  }

  lemma {:induction false} QuietIsPlain(kind: Kind, line: string)
    requires Quiet(kind, line) && !HasBoxHtml(line)
    ensures Plain(line) && Bare(line) == line
  {
    PlainIsBare(line);
  }

  /** Any quiet line through a chain of lists of any depth: the open tags stay those of the
      chain, the text kept is the line without what the levels cut off its front. */
  lemma {:induction false} ListLine(b: Block, line: string, open: seq<string>, text: string)
    returns (e: string, cuts: seq<string>, kept: string)
    requires IsList(b.kind) && (Running(b) || Fresh(b)) && Quiet(b.kind, line)
    ensures Extends(b, AddLine(b, line), e, open, text, kept)
    ensures kept == if HasBoxHtml(line) then Bare(line) else Left(b, line)
    ensures Bare(line) == Flatten(cuts) + kept
    ensures forall i | 0 <= i < |cuts| :: LevelCut(b.kind, cuts[i])
    ensures |cuts| <= 1 + Max(Depth(b), Depth(AddLine(b, line)))
    ensures Fresh(b) ==> !AddLine(b, line).Done()
    decreases Depth(b), Rank(b), 1
  {
    hide Run, Bare, AddLine, Quiet, LevelCut, StripMarker, StartsItem, Extends, HasCloser, Closer, NextItem, Opener;
    hide Left, LeftInside, StrippedAs, HasBoxHtml;
    var s := StripMarker(b.kind, line);
    var cut := MarkerCut(b.kind, line);
    if !HasBoxHtml(line) { LeftCases(b, line, s); }
    if Fresh(b) {
      e, cut := OpenStep(b, line, open, text);
      cuts, kept := [cut], Bare(s);
    } else if Indentation(line) >= 2 {
      cut := IndentCut(b.kind, line);
      var rest;
      e, rest, kept := DeliverStep(b, line, line[2..], open, text);
      cuts := [cut] + rest;
    } else {
      QuietHasNoCloser(b.kind, s);
      if s == "" {
        e := EndStep(b, line, open, text);
        EmptyIsBare(b.kind, line);
        cuts, kept := [cut], "";
      } else if StartsItem(b.kind, line) {
        e := ItemStep(b, line, s, open, text);
        cuts, kept := [cut], Bare(s);
      } else {
        var rest;
        e, rest, kept := DeliverStep(b, line, s, open, text);
        cuts := [cut] + rest;
      }
    }
    FlattenOne(cut, cuts[1..], kept);
  }

  lemma {:induction false} FlattenOne(cut: string, rest: seq<string>, kept: string)
    ensures Flatten([cut] + rest) + kept == cut + (Flatten(rest) + kept)
    ensures Flatten([]) == ""
  {
    assert ([cut] + rest)[1..] == rest;
  }

  lemma {:induction false} EmptyIsBare(kind: Kind, line: string)
    requires StripMarker(kind, line) == "" && (HasBoxHtml(line) ==> StripMarker(kind, line) == line)
    ensures Bare("") == "" && !HasBoxHtml(line)
  {
    hide EMPTY_BOX_HTML, TICKED_BOX_HTML;
    BoxHtmlIs(EMPTY_BOX_HTML);
    BoxHtmlIs(TICKED_BOX_HTML);
  }

  lemma {:induction false} NotBox(line: string)
    requires line == "" || line[0] != '<'
    ensures !HasBoxHtml(line)
  {
    hide EMPTY_BOX_HTML, TICKED_BOX_HTML;
    BoxHtmlIs(EMPTY_BOX_HTML);
    BoxHtmlIs(TICKED_BOX_HTML);
  }

  lemma {:induction false} IndentCut(kind: Kind, line: string) returns (cut: string)
    requires IsList(kind) && Quiet(kind, line) && Indentation(line) >= 2
    ensures LevelCut(kind, cut)
    ensures StripMarker(kind, line) == line
    ensures Quiet(kind, line[2..]) && !HasBoxHtml(line) && !HasBoxHtml(line[2..])
    ensures Bare(line) == cut + Bare(line[2..])
  {
    hide EMPTY_BOX_HTML, TICKED_BOX_HTML;
    IndentedKeepsMarker(kind, line);
    NotBox(line);
    PlainIsBare(line);
    PlainIsBare(line[2..]);
    cut := line[..2];
  }
}
