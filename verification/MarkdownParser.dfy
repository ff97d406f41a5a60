/** The block parsers as objects that hold their flags, their output and the parser nested in
    them, and the driver that feeds them line by line. The parser classes of the original share
    one base class; here they share one class and differ in `kind`. */
module MarkdownParser {
  import opened Shared
  import opened MarkdownLines
  import opened MarkdownBlocks
  import opened MarkdownDocument
  import opened MarkdownNesting
  import opened MarkdownTables

  class BlockParser {
    const kind: Kind
    var isStarted: bool
    var isFinished: bool
    var result: string
    var childParser: BlockParser?
    var table: seq<seq<seq<string>>>
    var currentBlock: nat
    var currentRow: nat
    ghost var Repr: set<object>

    ghost predicate Valid()
      reads this, Repr
      decreases Repr
    {
      && this in Repr
      && (childParser != null ==>
            && childParser in Repr && childParser.Repr <= Repr && this !in childParser.Repr
            && !childParser.kind.Table? && childParser.Valid())
    }

    ghost function State(): Block
      requires Valid()
      reads this, Repr
      decreases Repr
    {
      Block(kind, isStarted, isFinished, result,
            if childParser == null then None else Some(childParser.State()),
            Grid(table, currentBlock, currentRow))
    }

    constructor (kind: Kind)
      ensures Valid() && fresh(Repr)
      ensures State() == New(kind) && this.kind == kind
    {
      this.kind := kind;
      isStarted, isFinished, result, childParser := false, false, "", null;
      table, currentBlock, currentRow := [], 0, 0;
      Repr := {this};
    }

    predicate IsFinished()
      reads this
    {
      kind.Headline? || kind.HorizontalLine? || isFinished
    }

    method ParseListLine(line0: string) returns (line: string)
      requires Valid() && IsList(kind)
      modifies this`isStarted, this`isFinished
      ensures Valid() && (State(), line) == MarkdownBlocks.ParseListLine(old(State()), line0)
    {
      var isStartOfNewListItem := StartsItem(kind, line0);
      var indentation := GetIndentationWidth(line0);
      line := StripMarker(kind, line0);
      if !isStarted {
        line := Opener(kind) + line;
        isStarted := true;
        return;
      }
      if indentation >= 2 {
        IndentedKeepsMarker(kind, line0);
        line := line[2..];
        return;
      }
      if line == "" || HasCloser(kind, line) {
        line := Closer(kind) + line;
        isFinished := true;
        return;
      }
      if isStartOfNewListItem {
        line := NextItem(kind) + line;
      }
    }

    method ParseBlock(line0: string) returns (line: string)
      requires Valid() && !kind.Table?
      modifies this`isStarted, this`isFinished
      ensures Valid() && (State(), line) == MarkdownBlocks.ParseBlock(old(State()), line0)
    {
      line := line0;
      match kind {
        case Quote =>
          line := StripQuote(line);
          if line != "" { line := line + " "; }
        case Paragraph =>
          if !isStarted {
            line := "<p>" + line + " ";
            isStarted := true;
          } else if line == "" {
            line := line + "</p>";
            isFinished := true;
          } else {
            line := line + " ";
          }
        case CodeBlock =>
          if line == "```" {
            if !isStarted {
              line := "<pre><code>\n";
              isStarted, isFinished := true, false;
            } else {
              line := "</code></pre>";
              isFinished, isStarted := true, false;
            }
          } else {
            line := line + "\n";
          }
        case Headline =>
          line := ParseHeadline(line);
        case HorizontalLine =>
          if line == "---" { line := "<hr/>"; }
        case Unordered | Ordered | Checklist =>
          line := ParseListLine(line);
      }
    }

    method AddTableLine(line: string)
      requires Valid() && kind.Table? && childParser == null && Indexable(State(), line)
      modifies this
      ensures Valid() && Repr == old(Repr)
      ensures State() == MarkdownBlocks.AddTableLine(old(State()), line)
    {
      if !isStarted && line == "|table>" {
        isStarted := true;
        return;
      }
      if isStarted {
        if line == "- | - | -" {
          currentBlock := currentBlock + 1;
          currentRow := 0;
          return;
        }
        if line == "|<table" {
          var html := PrintTable(table);
          result := result + html;
          isFinished := true;
          return;
        }
        if |table| < currentBlock + 1 {
          table := table + [[]];
        }
        var row := SplitRow(line);
        table := table[currentBlock := table[currentBlock] + [row]];
        currentRow := currentRow + 1;
      }
    }

    method GiveToChild(line: string)
      requires Valid() && childParser != null
      modifies Repr
      ensures Valid() && fresh(Repr - old(Repr))
      ensures State() == Absorb(old(State()), MarkdownBlocks.AddLine(old(childParser.State()), line))
      decreases Depth(childParser.State()), Quotes(line), Rank(childParser.State()), 1
    {
      hide MarkdownBlocks.AddLine, Depth, Quotes, Rank;
      childParser.AddLine(line);
      Repr := Repr + childParser.Repr;
      if childParser.IsFinished() {
        result := result + childParser.result;
        childParser := null;
      }
    }

    method OpenChild(line: string)
      requires Valid() && childParser == null
      requires ChildFor(kind, line) != Some(Table)
      modifies this
      ensures Valid() && fresh(Repr - old(Repr))
      ensures State() == old(State()).(child := Target(old(State()), line))
    {
      var wanted := ChildFor(kind, line);
      if wanted.Some? {
        childParser := new BlockParser(wanted.value);
        Repr := Repr + childParser.Repr;
      }
    }

    /** The opening tag of a quote, and the rewriting of the line. */
    method PrepareLine(line0: string) returns (line: string)
      requires Valid() && !kind.Table?
      modifies this`isStarted, this`isFinished, this`result
      ensures Valid() && (State(), line) == Prepare(old(State()), line0)
    {
      hide MarkdownBlocks.ParseBlock;
      if kind.Quote? && !isStarted {
        result := result + "<blockquote>";
        isStarted := true;
      }
      line := ParseBlock(line0);
    }

    /** A line that no child takes. */
    method KeepLine(line0: string, line: string)
      requires Valid() && childParser == null
      modifies this`isFinished, this`result
      ensures Valid() && State() == Keep(old(State()), line0, line)
    {
      if kind.Quote? && line0 == "" {
        result := result + "</blockquote>";
        isFinished := true;
      }
      result := result + line;
    }

    method AddLine(line0: string)
      requires Valid() && (kind.Table? ==> childParser == null) && Indexable(State(), line0)
      modifies Repr
      ensures Valid() && fresh(Repr - old(Repr))
      ensures kind.Table? ==> childParser == null
      ensures State() == MarkdownBlocks.AddLine(old(State()), line0)
      decreases Depth(State()), Quotes(line0), Rank(State()), 0
    {
      hide MarkdownBlocks.AddLine, Prepare, Keep, ChildFor, Quotes, Rank, Depth, Indexable;
      if kind.Table? {
        TableStep(State(), line0);
        AddTableLine(line0);
        return;
      }
      ghost var before := State();
      TargetHasLess(before, line0);
      ChainStep(before, line0);
      NoTableInside(before, line0);
      var line := PrepareLine(line0);
      if childParser == null {
        OpenChild(line);
      }
      if childParser != null {
        GiveToChild(line);
      } else {
        KeepLine(line0, line);
      }
    }
  }

  lemma {:induction false} TableStep(b: Block, line: string)
    requires b.kind.Table?
    ensures MarkdownBlocks.AddLine(b, line) == MarkdownBlocks.AddTableLine(b, line)
  {
    hide MarkdownBlocks.AddTableLine;
  }

  /** A quote ends every line it passes on with a space, so no table starts inside it. */
  lemma {:induction false} NoTableInside(b: Block, line: string)
    ensures ChildFor(b.kind, Prepare(b, line).1) != Some(Table)
  {
    hide StripQuote;
    if b.kind.Quote? {
      var l := Prepare(b, line).1;
      assert l == "" || l[|l| - 1] == ' ';
    }
  }

  /** Counts the leading white space, with a flag for the first character that is not. */
  method GetIndentationWidth(line: string) returns (indentation: nat)
    ensures indentation == Indentation(line)
  {
    var hasMetNonSpace := false;
    indentation := 0;
    for i := 0 to |line|
      invariant indentation <= i
      invariant !hasMetNonSpace ==> indentation == i
      invariant if hasMetNonSpace then indentation == Indentation(line)
                else Indentation(line) == i + Indentation(line[i..])
    {
      if !hasMetNonSpace {
        if IsSpace(line[i]) {
          assert line[i..][1..] == line[i + 1..];
          indentation := indentation + 1;
        } else {
          hasMetNonSpace := true;
        }
      }
    }
  }

  /** The six rounds of the headline parser. */
  method ParseHeadline(line0: string) returns (line: string)
    ensures line == ReplaceHeadlines(line0, 6)
  {
    line := line0;
    for i := 0 to 6
      invariant line == ReplaceHeadlines(line0, i)
    {
      line := ReplaceHeadline(line, i + 1);
    }
  }

  method SplitRow(line: string) returns (row: seq<string>)
    ensures row == Segments(line)
  {
    hide Segments, BarAt;
    row := [];
    var rest := line;
    while rest != ""
      invariant row + Segments(rest) == Segments(line)
      decreases |rest|
    {
      var e := BarAt(rest);
      NextSegment(rest, e);
      row := row + [rest[..e]];
      rest := rest[if e < |rest| then e + 1 else e..];
    }
    NoMoreSegments();
  }

  lemma {:induction false} NextSegment(line: string, e: nat)
    requires line != "" && e == BarAt(line)
    ensures Segments(line) == [line[..e]] + Segments(line[if e < |line| then e + 1 else e..])
  {
    hide BarAt;
  }

  lemma {:induction false} NoMoreSegments()
    ensures Segments("") == []
  {
  }

  method PrintRow(row: seq<string>, isInHeader: bool) returns (html: string)
    ensures html == CellsHtml(row, if isInHeader then "th" else "td")
  {
    html := "";
    for i := 0 to |row|
      invariant html == CellsHtml(row[..i], if isInHeader then "th" else "td")
    {
      assert row[..i + 1][..i] == row[..i];
      html := html + Markup.Element(if isInHeader then "th" else "td", row[i]);
    }
    assert row[..|row|] == row;
  }

  method PrintSection(block: seq<seq<string>>, isInHeader: bool, isInFooter: bool) returns (html: string)
    ensures html == Markup.Element(if isInHeader then "thead" else if isInFooter then "tfoot" else "tbody",
                                   RowsHtml(block, if isInHeader then "th" else "td"))
  {
    hide Markup.Element;
    var rows := "";
    for j := 0 to |block|
      invariant rows == RowsHtml(block[..j], if isInHeader then "th" else "td")
    {
      var cells := PrintRow(block[j], isInHeader);
      assert block[..j + 1][..j] == block[..j];
      rows := rows + Markup.Element("tr", cells);
    }
    assert block[..|block|] == block;
    html := Markup.Element(if isInHeader then "thead" else if isInFooter then "tfoot" else "tbody", rows);
  }

  method PrintTable(table: seq<seq<seq<string>>>) returns (html: string)
    ensures html == TableHtml(table)
  {
    hide Markup.Element, RowsHtml;
    var hasHeader, hasFooter := |table| > 1, |table| >= 3;
    var isFirstBlock := true;
    var sections := "";
    for i := 0 to |table|
      invariant isFirstBlock == (i == 0)
      invariant sections == SectionsHtml(table, i)
    {
      var isInHeader := hasHeader && isFirstBlock;
      var isInFooter := !isInHeader && hasFooter && i + 1 == |table|;
      var section := PrintSection(table[i], isInHeader, isInFooter);
      sections := sections + section;
      isFirstBlock := false;
    }
    html := Markup.Element("table", sections);
  }

  ghost function DriverOf(result: string, current: BlockParser?): Driver
    requires current != null ==> current.Valid()
    reads current, if current == null then {} else current.Repr
  {
    Driver(result, if current == null then None else Some(current.State()))
  }

  ghost predicate ValidDriver(current: BlockParser?)
    reads current, if current == null then {} else current.Repr
  {
    current != null ==> current.Valid() && (current.kind.Table? ==> current.childParser == null)
  }

  /** One line to the open parser; a finished parser hands over its output. */
  method GiveLine(result0: string, parser: BlockParser, line: string) returns (result: string, current: BlockParser?)
    requires ValidDriver(parser) && Indexable(parser.State(), line)
    modifies parser.Repr
    ensures ValidDriver(current) && (current != null ==> current == parser && fresh(current.Repr - old(parser.Repr)))
    ensures DriverOf(result, current)
         == Settle(result0, MarkdownBlocks.AddLine(old(parser.State()), line))
  {
    hide MarkdownBlocks.AddLine, Indexable;
    result, current := result0, parser;
    parser.AddLine(line);
    if parser.IsFinished() {
      result := result + parser.result;
      current := null;
    }
  }

  /** One turn of the driver loop. */
  method DriveLine(result0: string, current0: BlockParser?, line: string)
    returns (result: string, current: BlockParser?)
    requires ValidDriver(current0) && (current0 != null ==> Indexable(current0.State(), line))
    modifies if current0 == null then {} else current0.Repr
    ensures ValidDriver(current)
    ensures current != null ==> fresh(current.Repr - if current0 == null then {} else old(current0.Repr))
    ensures DriverOf(result, current) == TakeLine(old(DriverOf(result0, current0)), line)
  {
    hide MarkdownBlocks.AddLine, BlockFor, Indexable, Settle;
    result, current := result0, current0;
    if current == null {
      FreshTableFits(line);
      var wanted := BlockFor(line);
      if wanted.Some? {
        current := new BlockParser(wanted.value);
      }
    }
    if current != null {
      result, current := GiveLine(result, current, line);
    }
  }

  method Parse(markdown: string) returns (result: string)
    requires TablesFit(Lines(markdown))
    ensures result == Render(markdown)
  {
    hide MarkdownBlocks.AddLine, TakeLine, Indexable, Settle, Lines;
    result := "";
    var currentBlockParser: BlockParser? := null;
    var pos := 0;
    ghost var lines := Lines(markdown);
    ghost var i := 0;
    assert markdown[0..] == markdown && lines[0..] == lines;
    while pos < |markdown|
      invariant 0 <= pos <= |markdown| && i <= |lines|
      invariant lines[i..] == Lines(markdown[pos..])
      invariant ValidDriver(currentBlockParser) && (currentBlockParser != null ==> fresh(currentBlockParser.Repr))
      invariant DriverOf(result, currentBlockParser) == TakeLines(START, lines[..i])
      decreases |markdown| - pos
    {
      var line, next := GetLine(markdown, pos);
      NextTurn(lines, i, line, Lines(markdown[next..]));
      result, currentBlockParser := DriveLine(result, currentBlockParser, line);
      pos, i := next, i + 1;
    }
    NoMoreLines(markdown[pos..]);
    assert lines[..i] == lines;
    if currentBlockParser != null {
      result, currentBlockParser := GiveLine(result, currentBlockParser, "");
    }
  }

  lemma {:induction false} NextTurn(lines: seq<string>, i: nat, line: string, rest: seq<string>)
    requires i <= |lines| && lines[i..] == [line] + rest
    ensures i < |lines| && lines[i] == line && lines[i + 1..] == rest
    ensures TakeLines(START, lines[..i + 1]) == TakeLine(TakeLines(START, lines[..i]), line)
  {
    hide TakeLine;
    assert lines[i..][0] == line;
    assert lines[i..][1..] == lines[i + 1..];
    assert lines[..i + 1][..i] == lines[..i];
  }

  lemma {:induction false} NoMoreLines(text: string)
    requires text == ""
    ensures Lines(text) == []
  {
  }

  lemma {:induction false} FreshTableFits(line: string)
    ensures BlockFor(line).Some? ==> Indexable(New(BlockFor(line).value), line)
  {
  }

  /** `std::getline`: the next line and where reading goes on. */
  method GetLine(text: string, pos: nat) returns (line: string, next: nat)
    requires pos < |text|
    ensures pos < next <= |text|
    ensures Lines(text[pos..]) == [line] + Lines(text[next..])
  {
    hide Lines, LineEnd;
    var end := pos;
    while end < |text| && text[end] != '\n'
      invariant pos <= end <= |text|
      invariant LineEnd(text[pos..]) == end - pos + LineEnd(text[end..])
    {
      NotYetEnd(text, end);
      end := end + 1;
    }
    AtEnd(text, end);
    line := text[pos..end];
    next := if end < |text| then end + 1 else end;
    NextLine(text[pos..], end - pos);
    assert text[pos..][..end - pos] == line;
    assert text[pos..][next - pos..] == text[next..];
  }

  lemma {:induction false} NotYetEnd(text: string, end: nat)
    requires end < |text| && text[end] != '\n'
    ensures LineEnd(text[end..]) == 1 + LineEnd(text[end + 1..])
  {
    assert text[end..][1..] == text[end + 1..];
  }

  lemma {:induction false} AtEnd(text: string, end: nat)
    requires end <= |text| && (end < |text| ==> text[end] == '\n')
    ensures LineEnd(text[end..]) == 0
  {
  }

  lemma {:induction false} NextLine(text: string, e: nat)
    requires text != "" && e == LineEnd(text)
    ensures Lines(text) == [text[..e]] + Lines(text[if e < |text| then e + 1 else e..])
  {
    hide LineEnd;
  }
}
