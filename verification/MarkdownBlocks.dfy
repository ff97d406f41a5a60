/** What one block parser does with one line, as a function of its state.
    The classes of `MarkdownParser` are proved against this function. */
module MarkdownBlocks {
  import opened Shared
  import opened MarkdownLines
  import opened Markup

  datatype Kind =
    | Unordered | Ordered | Checklist | Quote | Paragraph
    | CodeBlock | Headline | HorizontalLine | Table

  /** The cells read so far by a table, and where the next row goes. */
  datatype Grid = Grid(blocks: seq<seq<seq<string>>>, currentBlock: nat, currentRow: nat)

  /** A block parser: its flags, its output so far and the parser nested in it. */
  datatype Block = Block(kind: Kind, started: bool, finished: bool, result: string,
                         child: Option<Block>, grid: Grid)
  {
    predicate Done() {
      kind.Headline? || kind.HorizontalLine? || finished
    }
  }

  const EMPTY_GRID := Grid([], 0, 0)

  function New(kind: Kind): Block {
    Block(kind, false, false, "", None, EMPTY_GRID)
  }

  // ----- choosing a parser for a line -----

  function ListFor(line: string): Option<Kind> {
    if IsOrderedStart(line) then Some(Ordered)
    else if IsUnorderedStart(line) then Some(Unordered)
    else None
  }

  /** The dispatcher used for top-level lines and for the lines inside a quote. */
  function BlockFor(line: string): Option<Kind> {
    if line == "```" then Some(CodeBlock)
    else if IsHeadlineStart(line) then Some(Headline)
    else if line == "---" then Some(HorizontalLine)
    else if IsQuoteStart(line) then Some(Quote)
    else if line == "|table>" then Some(Table)
    else if IsChecklistStart(line) then Some(Checklist)
    else if IsOrderedStart(line) then Some(Ordered)
    else if IsUnorderedStart(line) then Some(Unordered)
    else if line != "" then Some(Paragraph)
    else None
  }

  /** Which parser a block opens inside itself for a line it has already rewritten. */
  function ChildFor(kind: Kind, line: string): Option<Kind> {
    match kind
    case Unordered => ListFor(line)
    case Ordered => ListFor(line)
    case Checklist => if IsChecklistStart(line) then Some(Checklist) else None
    case Quote => BlockFor(line)
    case _ => None
  }

  // ----- rewriting a line -----

  predicate HasItemCloser(line: string) {
    Contains(line, "</li><li>") || Contains(line, "</li></ol>") || Contains(line, "</li></ul>")
  }

  predicate HasLabelCloser(line: string) {
    Contains(line, "</label></li><li><label>") || Contains(line, "</label></li></ul>")
  }

  function Opener(kind: Kind): string {
    match kind
    case Unordered => "<ul><li>"
    case Ordered => "<ol><li>"
    case Checklist => "<ul class=\"checklist\"><li><label>"
    case _ => ""
  }

  function Closer(kind: Kind): string {
    match kind
    case Unordered => "</li></ul>"
    case Ordered => "</li></ol>"
    case Checklist => "</label>" + "</li></ul>"
    case _ => ""
  }

  function NextItem(kind: Kind): string {
    if kind.Checklist? then "</label>" + ("</li><li>" + "<label>") else "</li><li>"
  }

  predicate StartsItem(kind: Kind, line: string) {
    match kind
    case Unordered => IsUnorderedStart(line)
    case Ordered => IsOrderedItem(line)
    case Checklist => IsChecklistStart(line)
    case _ => false
  }

  function StripMarker(kind: Kind, line: string): string {
    match kind
    case Unordered => StripBullet(line)
    case Ordered => StripOrdered(line)
    case Checklist => ReplaceBox(StripPrefix(line, "- "))
    case _ => line
  }

  predicate HasCloser(kind: Kind, line: string) {
    if kind.Checklist? then HasLabelCloser(line) else HasItemCloser(line)
  }

  predicate IsList(kind: Kind) {
    kind.Unordered? || kind.Ordered? || kind.Checklist?
  }

  /** A line that is indented starts with white space, so no marker is taken from it. */
  lemma {:induction false} IndentedKeepsMarker(kind: Kind, line: string)
    requires Indentation(line) >= 1
    ensures StripMarker(kind, line) == line
  {
    hide EMPTY_BOX_HTML, TICKED_BOX_HTML, IsSpace;
    assert IsSpace(line[0]);
    SpaceIsNoMarker(line);
  }

  lemma {:induction false} SpaceIsNoMarker(line: string)
    requires line != "" && IsSpace(line[0])
    ensures !BulletPrefix(line) && !("1. " <= line) && !("* " <= line) && !("- " <= line)
    ensures !(EMPTY_BOX <= line) && !(TICKED_BOX <= line)
  {
  }

  /** The three list parsers: the rewritten line, and the new `started` and `finished` flags. */
  function ParseListLine(b: Block, line: string): (r: (Block, string))
    requires IsList(b.kind)
  {
    var stripped := StripMarker(b.kind, line);
    if !b.started then
      (b.(started := true), Opener(b.kind) + stripped)
    else if Indentation(line) >= 2 then
      IndentedKeepsMarker(b.kind, line);
      (b, stripped[2..])
    else if stripped == "" || HasCloser(b.kind, stripped) then
      (b.(finished := true), Closer(b.kind) + stripped)
    else if StartsItem(b.kind, line) then
      (b, NextItem(b.kind) + stripped)
    else
      (b, stripped)
  }

  function ParseParagraphLine(b: Block, line: string): (Block, string) {
    if !b.started then (b.(started := true), "<p>" + line + " ")
    else if line == "" then (b.(finished := true), line + "</p>")
    else (b, line + " ")
  }

  function ParseCodeLine(b: Block, line: string): (Block, string) {
    if line == "```" then
      if !b.started then (b.(started := true, finished := false), "<pre><code>\n")
      else (b.(finished := true, started := false), "</code></pre>")
    else
      (b, line + "\n")
  }

  function Digit(n: nat): char
    requires n < 10
  {
    "0123456789"[n]
  }

  function HeadlineTag(level: nat): string
    requires level < 10
  {
    "h" + [Digit(level)]
  }

  /** One round of the headline loop. */
  function ReplaceHeadline(line: string, level: nat): string
    requires level < 10
  {
    if HasHeadline(line, level) then
      var rest := line[level + 1..];
      var e := TerminatorAt(rest);
      Element(HeadlineTag(level), rest[..e]) + rest[e..]
    else
      line
  }

  function ReplaceHeadlines(line: string, upTo: nat): string
    requires upTo <= 6
  {
    if upTo == 0 then line else ReplaceHeadline(ReplaceHeadlines(line, upTo - 1), upTo)
  }

  function ParseBlock(b: Block, line: string): (Block, string) {
    match b.kind
    case Unordered => ParseListLine(b, line)
    case Ordered => ParseListLine(b, line)
    case Checklist => ParseListLine(b, line)
    case Quote => (b, var l := StripQuote(line); if l == "" then l else l + " ")
    case Paragraph => ParseParagraphLine(b, line)
    case CodeBlock => ParseCodeLine(b, line)
    case Headline => (b, ReplaceHeadlines(line, 6))
    case HorizontalLine => (b, if line == "---" then "<hr/>" else line)
    case Table => (b, line)
  }

  // ----- tables -----

  /** Column cells, rows and blocks as the table parser prints them. */
  function CellsHtml(cells: seq<string>, tag: string): string {
    if cells == [] then ""
    else CellsHtml(cells[..|cells| - 1], tag) + Element(tag, cells[|cells| - 1])
  }

  function RowsHtml(rows: seq<seq<string>>, tag: string): string {
    if rows == [] then ""
    else RowsHtml(rows[..|rows| - 1], tag) + Element("tr", CellsHtml(rows[|rows| - 1], tag))
  }

  /** The section a block is printed in: the first is the head when there is more than one block,
      the last is the foot when there are at least three. */
  function SectionTag(index: nat, total: nat): string {
    if total > 1 && index == 0 then "thead"
    else if total >= 3 && index + 1 == total then "tfoot"
    else "tbody"
  }

  function CellTag(index: nat, total: nat): string {
    if total > 1 && index == 0 then "th" else "td"
  }

  function SectionHtml(rows: seq<seq<string>>, index: nat, total: nat): string {
    Element(SectionTag(index, total), RowsHtml(rows, CellTag(index, total)))
  }

  /** The first `upTo` blocks of a table. */
  function SectionsHtml(blocks: seq<seq<seq<string>>>, upTo: nat): string
    requires upTo <= |blocks|
  {
    if upTo == 0 then ""
    else SectionsHtml(blocks, upTo - 1) + SectionHtml(blocks[upTo - 1], upTo - 1, |blocks|)
  }

  function TableHtml(blocks: seq<seq<seq<string>>>): string {
    Element("table", SectionsHtml(blocks, |blocks|))
  }

  /** Where the original indexes its vectors out of range: a row after a separator that
      opened a second empty block. */
  predicate RowFits(g: Grid) {
    && g.currentBlock <= |g.blocks|
    && g.currentRow == (if g.currentBlock < |g.blocks| then |g.blocks[g.currentBlock]| else 0)
  }

  function AddRow(g: Grid, row: seq<string>): Grid {
    if !RowFits(g) then g
    else
      var blocks := if g.currentBlock == |g.blocks| then g.blocks + [[]] else g.blocks;
      g.(blocks := blocks[g.currentBlock := blocks[g.currentBlock] + [row]], currentRow := g.currentRow + 1)
  }

  function AddTableLine(b: Block, line: string): Block {
    if !b.started then
      if line == "|table>" then b.(started := true) else b
    else if line == "- | - | -" then
      b.(grid := b.grid.(currentBlock := b.grid.currentBlock + 1, currentRow := 0))
    else if line == "|<table" then
      b.(result := b.result + TableHtml(b.grid.blocks), finished := true)
    else
      b.(grid := AddRow(b.grid, Segments(line)))
  }

  /** A table block is only asked to place a row that fits. */
  predicate Indexable(b: Block, line: string) {
    b.kind.Table? && b.started && line != "- | - | -" && line != "|<table" ==> RowFits(b.grid)
  }

  // ----- one line through the whole chain -----

  function Depth(b: Block): nat {
    match b.child
    case None => 0
    case Some(c) => 1 + Depth(c)
  }

  function Quotes(line: string): nat {
    if line == "" then 0 else (if line[0] == '>' then 1 else 0) + Quotes(line[1..])
  }

  /** How many kinds of child a block without a child can still open for the same line. */
  function Rank(b: Block): nat {
    if b.kind.Quote? then 3
    else if IsList(b.kind) then if b.started then 2 else 1
    else 0
  }

  lemma {:induction false} QuotesOfSuffix(line: string, k: nat)
    requires k <= |line|
    ensures Quotes(line[k..]) <= Quotes(line)
  {
    if k > 0 {
      assert line[1..][k - 1..] == line[k..];
      QuotesOfSuffix(line[1..], k - 1);
    }
  }

  lemma {:induction false} QuotesOfConcat(a: string, b: string)
    ensures Quotes(a + b) == Quotes(a) + Quotes(b)
    decreases |a|
  {
    if a == "" {
      assert a + b == b;
    } else {
      assert (a + b)[1..] == a[1..] + b;
      QuotesOfConcat(a[1..], b);
    }
  }

  lemma {:induction false} QuoteLineShrinks(line: string)
    ensures Quotes(StripQuote(line) + " ") <= Quotes(line)
    ensures ">" <= StripQuote(line) ==> Quotes(StripQuote(line) + " ") < Quotes(line)
  {
    var one := StripPrefix(line, "> ");
    var two := StripQuote(line);
    QuotesOfConcat(two, " ");
    assert Quotes(" ") == 0;
    if "> " <= line { QuotesOfSuffix(line[1..], 1); assert line[1..][1..] == line[2..]; }
    assert Quotes(one) <= Quotes(line);
  }

  /** Stripping a marker leaves a suffix, or puts a box element in front. */
  lemma {:induction false} MarkerLeavesSuffix(kind: Kind, line: string)
    requires IsList(kind)
    ensures var s := StripMarker(kind, line); "<" <= s || (|s| <= |line| && s == line[|line| - |s|..])
  {
    if kind.Checklist? {
      var l := StripPrefix(line, "- ");
      if EMPTY_BOX <= l {
        assert (EMPTY_BOX_HTML + l[3..])[0] == '<';
      } else if TICKED_BOX <= l {
        assert (TICKED_BOX_HTML + l[3..])[0] == '<';
      }
    }
  }

  lemma {:induction false} TagFirst(kind: Kind, s: string)
    requires IsList(kind)
    ensures "<" <= Opener(kind) + s && "<" <= Closer(kind) + s && "<" <= NextItem(kind) + s
  {
    assert (Opener(kind) + s)[0] == '<';
    assert (Closer(kind) + s)[0] == '<';
    assert (NextItem(kind) + s)[0] == '<';
  }

  /** A list line that does not begin with a tag comes from a started list and is a suffix. */
  lemma {:induction false} ListLineShrinks(b: Block, line: string)
    requires IsList(b.kind)
    requires !("<" <= ParseListLine(b, line).1)
    ensures b.started
    ensures Quotes(ParseListLine(b, line).1) <= Quotes(line)
  {
    hide StripMarker, Opener, Closer, NextItem, HasCloser, StartsItem, Quotes, Indentation;
    var stripped := StripMarker(b.kind, line);
    var l := ParseListLine(b, line).1;
    TagFirst(b.kind, stripped);
    MarkerLeavesSuffix(b.kind, line);
    if Indentation(line) >= 2 {
      IndentedKeepsMarker(b.kind, line);
      QuotesOfSuffix(line, 2);
    } else {
      QuotesOfSuffix(line, |line| - |stripped|);
    }
  }

  lemma {:induction false} ListChildStart(kind: Kind, line: string)
    requires IsList(kind) && ChildFor(kind, line).Some?
    ensures !("<" <= line)
    ensures IsList(ChildFor(kind, line).value)
  {
    assert line[0] == '1' || line[0] == '+' || line[0] == '*' || line[0] == '-';
  }

  lemma {:induction false} QuoteChildStart(line: string)
    requires BlockFor(line) == Some(Quote)
    ensures ">" <= line
  {
  }

  /** A block that opens a child for a line leaves that child less to open. */
  lemma {:induction false} ChildHasLess(b: Block, line: string)
    requires b.child.None?
    requires ChildFor(b.kind, ParseBlock(b, line).1).Some?
    ensures var l := ParseBlock(b, line).1;
            var c := New(ChildFor(b.kind, l).value);
            Quotes(l) < Quotes(line) || (Quotes(l) <= Quotes(line) && Rank(c) < Rank(b))
  {
    var l := ParseBlock(b, line).1;
    if b.kind.Quote? {
      QuoteLineShrinks(line);
      if BlockFor(l) == Some(Quote) {
        QuoteChildStart(l);
      }
    } else {
      ListChildStart(b.kind, l);
      ListLineShrinks(b, line);
    }
  }

  /** The flags and the rewritten line; a quote writes its opening tag before anything else. */
  function Prepare(b: Block, line: string): (Block, string) {
    ParseBlock(if b.kind.Quote? && !b.started
               then b.(started := true, result := b.result + "<blockquote>") else b, line)
  }

  /** The parser that gets the rewritten line: the open child, or a new one. */
  function Target(b: Block, line: string): Option<Block> {
    if b.child.Some? then b.child
    else
      match ChildFor(b.kind, line)
      case None => None
      case Some(kind) => Some(New(kind))
  }

  /** A line that stays in the block: a quote without a child ends on an empty line. */
  function Keep(b: Block, original: string, line: string): Block {
    if b.kind.Quote? && original == "" then
      b.(result := b.result + "</blockquote>" + line, finished := true)
    else
      b.(result := b.result + line)
  }

  lemma {:induction false} ParseKeepsChild(b: Block, line: string)
    ensures ParseBlock(b, line).0.child == b.child && ParseBlock(b, line).0.kind == b.kind
  {
  }

  lemma {:induction false} TargetHasLess(b: Block, line: string)
    requires !b.kind.Table?
    ensures var (b1, l) := Prepare(b, line);
            var t := Target(b1, l);
            t.None? || Depth(t.value) < Depth(b) ||
            (Depth(t.value) == Depth(b) &&
             (Quotes(l) < Quotes(line) || (Quotes(l) <= Quotes(line) && Rank(t.value) < Rank(b))))
  {
    hide ParseBlock, ChildFor, Quotes;
    ParseKeepsChild(if b.kind.Quote? && !b.started
                    then b.(started := true, result := b.result + "<blockquote>") else b, line);
    var (b1, l) := Prepare(b, line);
    if b.child.None? && ChildFor(b.kind, l).Some? {
      ChildHasLess(if b.kind.Quote? && !b.started
                   then b.(started := true, result := b.result + "<blockquote>") else b, line);
    }
  }

  function AddLine(b: Block, line: string): Block
    decreases Depth(b), Quotes(line), Rank(b)
  {
    if b.kind.Table? then AddTableLine(b, line)
    else
      var (b1, l) := Prepare(b, line);
      TargetHasLess(b, line);
      match Target(b1, l)
      case Some(t) => Absorb(b1, AddLine(t, l))
      case None => Keep(b1, line, l)
  }

  /** A child that is done hands over its output and goes away. */
  function Absorb(b: Block, child: Block): Block {
    if child.Done() then b.(result := b.result + child.result, child := None)
    else b.(child := Some(child))
  }
}
