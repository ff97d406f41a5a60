/** The step of `MarkdownNesting` for every kind of block: paragraphs, code, headlines, rules,
    tables, and quotes with anything inside them. */
module MarkdownSteps {
  import opened Markup
  import opened MarkdownLines
  import opened MarkdownBlocks
  import opened MarkdownTags
  import opened MarkdownNesting

  /** The first line of a block is one its parser recognises. */
  predicate Starter(kind: Kind, line: string) {
    match kind
    case CodeBlock => line == "```"
    case Headline => IsHeadlineStart(line)
    case HorizontalLine => line == "---"
    case Table => line == "|table>"
    case _ => true
  }

  /** The text that one line leaves in the output of a block. */
  function Kept(b: Block, line: string): string
    decreases Depth(b), Quotes(line), Rank(b)
  {
    match b.kind
    case Paragraph => if b.started && line == "" then "" else line + " "
    case CodeBlock => if line != "```" then line + "\n" else if b.started then "" else "\n"
    case Headline => if HashCount(line) < |line| then line[HashCount(line) + 1..] else ""
    case HorizontalLine => ""
    case Table => if b.started && line == "|<table" then BlocksText(b.grid.blocks, |b.grid.blocks|) else ""
    case Quote =>
      var (b1, l) := Prepare(b, line);
      TargetHasLess(b, line);
      (match Target(b1, l)
       case None => l
       case Some(t) => Kept(t, l))
    case _ => Left(b, line)
  }

  lemma BlockForIsStarter(line: string)
    ensures BlockFor(line).Some? ==> Starter(BlockFor(line).value, line)
  {
  }

  lemma {:induction false} LeafStep(b: Block, line: string)
    requires !b.kind.Table? && !b.kind.Quote? && !IsList(b.kind) && b.child.None?
    ensures var (b1, l) := ParseBlock(b, line);
            b1.child.None? && AddLine(b, line) == b1.(result := b.result + l)
  {
    ChainStep(b, line);
  }

  /** Tags and text that one leaf block adds. */
  lemma {:induction false} TagThenText(open: seq<string>, text: string, tag: Tag, s: string, after: seq<string>)
    requires GoodTag(tag) && Effect(open, text, tag) == Outside(after, text) && Plain(s)
    ensures Run(Outside(open, text), TagHtml(tag) + s) == Outside(after, text + s)
  {
    hide Run;
    RunConcat(Outside(open, text), TagHtml(tag), s);
    RunTagHtml(open, text, tag);
    RunText(after, text, s);
  }

  lemma {:induction false} ParagraphLine(b: Block, line: string, open: seq<string>, text: string)
    returns (e: string, kept: string)
    requires b.kind.Paragraph? && (Running(b) || Fresh(b)) && Plain(line)
    ensures Extends(b, AddLine(b, line), e, open, text, kept)
    ensures kept == Kept(b, line)
  {
    hide Run, AddLine;
    LeafStep(b, line);
    e := ParseBlock(b, line).1;
    if Fresh(b) {
      kept := line + " ";
      assert e == TagHtml(Open("p")) + kept;
      TagThenText(open, text, Open("p"), kept, open + ["p"]);
      assert open + [] == open;
    } else if line == "" {
      kept := "";
      assert e == TagHtml(Close("p")) + kept;
      assert (open + ["p"])[..|open|] == open;
      TagThenText(open + ["p"], text, Close("p"), kept, open);
      assert open + [] == open;
    } else {
      kept := e;
      RunText(open + ["p"], text, e);
    }
  }

  lemma {:induction false} CodeOpens(open: seq<string>, text: string, html: string)
    requires html == "<pre><code>\n"
    ensures Run(Outside(open, text), html) == Outside(open + ["pre", "code"], text + "\n")
  {
    hide Run;
    var tags := TagHtml(Open("pre")) + TagHtml(Open("code"));
    assert open + ["pre"] + ["code"] == open + ["pre", "code"];
    TwoTags(open, text, Open("pre"), Open("code"));
    assert html == tags + "\n";
    RunConcat(Outside(open, text), tags, "\n");
    RunText(open + ["pre", "code"], text, "\n");
  }

  lemma {:induction false} CodeCloses(open: seq<string>, text: string, html: string)
    requires html == "</code></pre>"
    ensures Run(Outside(open + ["pre", "code"], text), html) == Outside(open, text)
  {
    hide Run;
    assert (open + ["pre", "code"])[..|open| + 1] == open + ["pre"];
    assert (open + ["pre"])[..|open|] == open;
    assert html == TagHtml(Close("code")) + TagHtml(Close("pre"));
    TwoTags(open + ["pre", "code"], text, Close("code"), Close("pre"));
  }

  lemma {:induction false} CodeLine(b: Block, line: string, open: seq<string>, text: string)
    returns (e: string, kept: string)
    requires b.kind.CodeBlock? && (Running(b) || (Fresh(b) && line == "```")) && Plain(line)
    ensures Extends(b, AddLine(b, line), e, open, text, kept)
    ensures kept == Kept(b, line)
  {
    hide Run, AddLine;
    LeafStep(b, line);
    e := ParseBlock(b, line).1;
    assert open + [] == open;
    if Fresh(b) {
      kept := "\n";
      CodeOpens(open, text, e);
    } else if line == "```" {
      kept := "";
      CodeCloses(open, text, e);
      assert text + "" == text;
    } else {
      kept := e;
      RunText(open + ["pre", "code"], text, e);
    }
  }

  lemma {:induction false} HeadlineTagIsWord(level: nat)
    requires level < 10
    ensures HeadlineTag(level) != "" && Word(HeadlineTag(level))
  {
  }

  /** Only the round of the headline's own level rewrites the line. */
  lemma {:induction false} HeadlineRounds(line: string, upTo: nat)
    requires IsHeadlineStart(line) && upTo <= 6
    ensures var n := HashCount(line);
            ReplaceHeadlines(line, upTo) == if upTo < n then line else Element(HeadlineTag(n), line[n + 1..])
    decreases upTo
  {
    hide Element, IsHeadlineStart, HashCount, TerminatorAt, ReplaceHeadline, HeadlineTag, OneLine;
    var n := HashCount(line);
    HeadlineWidth(line);
    if upTo > 0 {
      HeadlineRounds(line, upTo - 1);
      if upTo < n {
        OwnRound(line, upTo);
      } else if upTo == n {
        OwnRound(line, n);
      } else {
        ElementIsNoHeadline(HeadlineTag(n), line[n + 1..], upTo);
      }
    }
  }

  lemma {:induction false} HeadlineWidth(line: string)
    requires IsHeadlineStart(line)
    ensures 1 <= HashCount(line) <= 6 && HashCount(line) + 1 <= |line|
  {
  }

  lemma {:induction false} OwnRound(line: string, level: nat)
    requires IsHeadlineStart(line) && 1 <= level <= HashCount(line)
    ensures ReplaceHeadline(line, level) == if level < HashCount(line) then line
                                            else Element(HeadlineTag(level), line[level + 1..])
  {
    hide Element;
    if level == HashCount(line) {
      var rest := line[level + 1..];
      OneLineStops(rest);
      assert rest[..|rest|] == rest && rest[|rest|..] == "";
      assert Element(HeadlineTag(level), rest) + "" == Element(HeadlineTag(level), rest);
    } else {
      assert line[level] == '#';
    }
  }

  lemma {:induction false} ElementIsNoHeadline(tag: string, inner: string, level: nat)
    requires 1 <= level < 10
    ensures ReplaceHeadline(Element(tag, inner), level) == Element(tag, inner)
  {
    assert Element(tag, inner)[0] == '<';
  }

  lemma {:induction false} OneLineStops(s: string)
    requires OneLine(s)
    ensures TerminatorAt(s) == |s|
    decreases |s|
  {
    if s != "" {
      OneLineStops(s[1..]);
    }
  }

  lemma {:induction false} HeadlineLine(b: Block, line: string, open: seq<string>, text: string)
    returns (e: string, kept: string)
    requires b.kind.Headline? && Fresh(b) && IsHeadlineStart(line) && Plain(line)
    ensures Extends(b, AddLine(b, line), e, open, text, kept)
    ensures kept == Kept(b, line)
  {
    hide Run, AddLine, ReplaceHeadlines;
    LeafStep(b, line);
    var n := HashCount(line);
    HeadlineRounds(line, 6);
    HeadlineTagIsWord(n);
    kept := line[n + 1..];
    e := Element(HeadlineTag(n), kept);
    RunText(open + [HeadlineTag(n)], text, kept);
    RunElement(open, text, HeadlineTag(n), kept, text + kept);
    assert open + [] == open;
  }

  lemma {:induction false} RuleLine(b: Block, line: string, open: seq<string>, text: string)
    returns (e: string, kept: string)
    requires b.kind.HorizontalLine? && Fresh(b) && line == "---"
    ensures Extends(b, AddLine(b, line), e, open, text, kept)
    ensures kept == Kept(b, line)
  {
    hide Run, AddLine;
    LeafStep(b, line);
    e, kept := "<hr/>", "";
    assert e == TagHtml(Void("hr")) + "";
    TagThenText(open, text, Void("hr"), "", open);
    assert open + [] == open;
  }

  lemma {:induction false} SegmentsPlain(line: string)
    requires Plain(line)
    ensures PlainRow(Segments(line))
    decreases |line|
  {
    if line != "" {
      var e := BarAt(line);
      SegmentsPlain(line[if e < |line| then e + 1 else e..]);
    }
  }

  lemma {:induction false} RowPlain(g: Grid, row: seq<string>)
    requires PlainBlocks(g.blocks) && PlainRow(row)
    ensures PlainBlocks(AddRow(g, row).blocks)
  {
    if RowFits(g) {
      var blocks := if g.currentBlock == |g.blocks| then g.blocks + [[]] else g.blocks;
      var rows := blocks[g.currentBlock] + [row];
      assert forall i | 0 <= i < |blocks| :: PlainRows(blocks[i]);
      assert PlainRows(rows);
      assert AddRow(g, row).blocks == blocks[g.currentBlock := rows];
    }
  }

  lemma {:induction false} TableLine(b: Block, line: string, open: seq<string>, text: string)
    returns (e: string, kept: string)
    requires b.kind.Table? && (Running(b) || (Fresh(b) && line == "|table>"))
    requires Plain(line) || (line == "|<table" && Running(b))
    ensures Extends(b, AddLine(b, line), e, open, text, kept)
    ensures kept == Kept(b, line)
  {
    hide Run, TableHtml, Segments, AddRow;
    e, kept := "", "";
    assert open + [] == open && text + "" == text;
    RunNothing(Outside(open, text));
    if Plain(line) {
      SegmentsPlain(line);
      RowPlain(b.grid, Segments(line));
    }
    if b.started && line == "|<table" {
      e, kept := TableHtml(b.grid.blocks), BlocksText(b.grid.blocks, |b.grid.blocks|);
      TableRuns(open, text, b.grid.blocks);
      assert "" + e == e;
    }
  }

  lemma {:induction false} QuoteLineIsPlain(line: string)
    requires Plain(line)
    ensures Plain(StripQuote(line))
  {
  }

  lemma {:induction false} QuoteTags()
    ensures TagHtml(Open("blockquote")) == "<blockquote>" && TagHtml(Close("blockquote")) == "</blockquote>"
  {
  }

  lemma {:induction false} QuoteTagActs(open: seq<string>, text: string)
    ensures GoodTag(Open("blockquote")) && GoodTag(Close("blockquote"))
    ensures Effect(open, text, Open("blockquote")) == Outside(open + ["blockquote"], text)
    ensures Effect(open + ["blockquote"], text, Close("blockquote")) == Outside(open, text)
  {
    assert (open + ["blockquote"])[..|open|] == open;
  }

  /** A fresh quote writes its tag and then acts as a running one. */
  lemma {:induction false} QuoteOpens(b: Block, line: string) returns (b0: Block)
    requires b.kind.Quote? && Fresh(b)
    ensures b0 == b.(started := true, result := "<blockquote>") && Running(b0)
    ensures AddLine(b, line) == AddLine(b0, line)
    ensures Kept(b0, line) == Kept(b, line)
  {
    hide AddLine, ParseBlock;
    b0 := b.(started := true, result := "<blockquote>");
    assert "" + "<blockquote>" == "<blockquote>";
    ChainStep(b, line);
    ChainStep(b0, line);
  }

  lemma {:induction false} QuoteOpenExtends(b: Block, b0: Block, b': Block, e: string, open: seq<string>, text: string,
                                            kept: string)
    requires b.kind.Quote? && Fresh(b) && b0 == b.(started := true, result := TagHtml(Open("blockquote")))
    requires Extends(b0, b', e, open, text, kept)
    ensures Extends(b, b', TagHtml(Open("blockquote")) + e, open, text, kept)
  {
    hide Run, TagHtml, Combined, OpenTags, Running, GoodTag, Effect;
    QuoteTagActs(open, text);
    var tag := Open("blockquote");
    FreshIsEmpty(b);
    assert Combined(b0) == TagHtml(tag) && OpenTags(b0) == ["blockquote"] by { QuoteHasOpened(b0); }
    assert open + [] == open && "" + (TagHtml(tag) + e) == TagHtml(tag) + e;
    RunConcat(Outside(open, text), TagHtml(tag), e);
    RunTagHtml(open, text, tag);
  }

  lemma {:induction false} QuoteHasOpened(b: Block)
    requires b.kind.Quote? && b.started && !b.finished && b.child.None?
    ensures Combined(b) == b.result && OpenTags(b) == ["blockquote"]
  {
  }

  lemma {:induction false} QuoteKeep(b: Block, line: string, l: string)
    requires b.kind.Quote?
    ensures Keep(b, line, l) ==
            if line == "" then b.(result := b.result + TagHtml(Close("blockquote")) + l, finished := true)
            else b.(result := b.result + l)
  {
    hide TagHtml;
    QuoteTags();
  }

  lemma {:induction false} QuoteEnds(b: Block, e: string, open: seq<string>, text: string)
    requires b.kind.Quote? && Running(b) && b.child.None? && e == TagHtml(Close("blockquote"))
    ensures Extends(b, b.(result := b.result + e, finished := true), e, open, text, "")
  {
    hide Run, TagHtml, Combined, OpenTags, PlainBlocks, GoodTag, Effect;
    QuoteTagActs(open, text);
    var b' := b.(result := b.result + e, finished := true);
    QuoteHasOpened(b);
    QuoteHasEnded(b');
    assert open + [] == open;
    assert e == e + "" && text + "" == text;
    TagThenText(open + ["blockquote"], text, Close("blockquote"), "", open);
  }

  lemma {:induction false} QuoteHasEnded(b: Block)
    requires b.finished && b.child.None?
    ensures Combined(b) == b.result && OpenTags(b) == []
  {
  }

  /** A quote without a child keeps an empty line to itself: it ends. */
  lemma {:induction false} QuoteKeeps(b: Block, line: string, l: string, open: seq<string>, text: string)
    returns (e: string, kept: string)
    requires b.kind.Quote? && Running(b) && b.child.None? && Plain(l)
    requires line == "" ==> l == ""
    ensures Extends(b, Keep(b, line, l), e, open, text, kept)
    ensures kept == l
  {
    hide Run, TagHtml, Keep, PlainBlocks;
    QuoteKeep(b, line, l);
    kept := l;
    if line == "" {
      e := TagHtml(Close("blockquote"));
      assert b.result + e + l == b.result + e;
      QuoteEnds(b, e, open, text);
    } else {
      e := l;
      RunText(open + ["blockquote"], text, l);
    }
  }

  /** User text, or the line that ends an open table. */
  predicate Acceptable(b: Block, line: string) {
    Plain(line) || (line == "|<table" && b.kind.Table? && Running(b))
  }

  /** Any acceptable line, through a block of any kind and depth. */
  lemma {:induction false} BlockLine(b: Block, line: string, open: seq<string>, text: string)
    returns (e: string, kept: string)
    requires (Running(b) || (Fresh(b) && Starter(b.kind, line))) && Acceptable(b, line)
    ensures Extends(b, AddLine(b, line), e, open, text, kept)
    ensures kept == Kept(b, line)
    decreases Depth(b), Quotes(line), Rank(b), !b.started
  {
    hide Run, AddLine, Extends, StripQuote, Kept, TagHtml;
    match b.kind {
      case Paragraph => e, kept := ParagraphLine(b, line, open, text);
      case CodeBlock => e, kept := CodeLine(b, line, open, text);
      case Headline => e, kept := HeadlineLine(b, line, open, text);
      case HorizontalLine => e, kept := RuleLine(b, line, open, text);
      case Table => e, kept := TableLine(b, line, open, text);
      case Quote =>
        if Fresh(b) {
          var b0 := QuoteOpens(b, line);
          e, kept := BlockLine(b0, line, open, text);
          QuoteTags();
          QuoteOpenExtends(b, b0, AddLine(b0, line), e, open, text, kept);
          e := TagHtml(Open("blockquote")) + e;
        } else {
          e, kept := QuoteLine(b, line, open, text);
        }
      case _ =>
        var cuts;
        e, cuts, kept := ListLine(b, line, open, text);
        PlainIsBare(line);
        assert kept == Kept(b, line) by { KeptInList(b, line); }
    }
  }

  lemma {:induction false} KeptInList(b: Block, line: string)
    requires IsList(b.kind)
    ensures Kept(b, line) == Left(b, line)
  {
    hide Left;
  }

  lemma {:induction false} QuoteLine(b: Block, line: string, open: seq<string>, text: string)
    returns (e: string, kept: string)
    requires b.kind.Quote? && Running(b) && Plain(line)
    ensures Extends(b, AddLine(b, line), e, open, text, kept)
    ensures kept == Kept(b, line)
    decreases Depth(b), Quotes(line), Rank(b), false, 0
  {
    hide Run, AddLine, Extends, BlockFor;
    var (b1, l) := Prepare(b, line);
    QuoteLineIsPlain(line);
    assert b1 == b && Plain(l);
    ChainStep(b, line);
    TargetHasLess(b, line);
    BlockForIsStarter(l);
    match Target(b, l) {
      case None => e, kept := QuoteKeeps(b, line, l, open, text);
      case Some(t) =>
        e, kept := BlockLine(t, l, open + TagsOf(Quote), text);
        AbsorbExtends(b, t, AddLine(t, l), e, open, text, kept);
    }
  }
}
