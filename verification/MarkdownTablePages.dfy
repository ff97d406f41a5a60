/** Documents that are one table: rows of cells between separators, and the HTML they come out as. */
module MarkdownTablePages {
  import opened Shared
  import opened Markup
  import opened MarkdownLines
  import opened MarkdownBlocks
  import opened MarkdownDocument
  import opened MarkdownTables
  import opened MarkdownTrees
  import opened MarkdownPages

  // ----- as lines -----

  /** Cells with bars between them. */
  function RowLine(cells: seq<string>): string {
    if cells == [] then "" else if |cells| == 1 then cells[0] else cells[0] + ("|" + RowLine(cells[1..]))
  }

  /** No bar in a cell, something in the last one, and not by chance a line with another meaning. */
  predicate GoodRow(cells: seq<string>) {
    && cells != [] && cells[|cells| - 1] != ""
    && (forall i | 0 <= i < |cells| :: '|' !in cells[i] && '\n' !in cells[i])
    && RowLine(cells) != "- | - | -" && RowLine(cells) != "|<table"
  }

  predicate GoodBlocks(blocks: seq<seq<seq<string>>>) {
    forall i | 0 <= i < |blocks| :: blocks[i] != [] && forall j | 0 <= j < |blocks[i]| :: GoodRow(blocks[i][j])
  }

  function RowLines(rows: seq<seq<string>>): seq<string> {
    seq(|rows|, i requires 0 <= i < |rows| => RowLine(rows[i]))
  }

  /** The rows of the blocks, with a separator between one block and the next. */
  function BlockLines(blocks: seq<seq<seq<string>>>): seq<string> {
    if blocks == [] then []
    else if |blocks| == 1 then RowLines(blocks[0])
    else BlockLines(blocks[..|blocks| - 1]) + (["- | - | -"] + RowLines(blocks[|blocks| - 1]))
  }

  // ----- as HTML -----

  function Rows(rows: seq<seq<string>>, cellStart: string, cellEnd: string): string {
    if rows == [] then ""
    else Rows(rows[..|rows| - 1], cellStart, cellEnd) + ("<tr>" + Cells(rows[|rows| - 1], cellStart, cellEnd) + "</tr>")
  }

  function Cells(cells: seq<string>, cellStart: string, cellEnd: string): string {
    if cells == [] then ""
    else Cells(cells[..|cells| - 1], cellStart, cellEnd) + (cellStart + cells[|cells| - 1] + cellEnd)
  }

  function Head(rows: seq<seq<string>>): string {
    "<thead>" + Rows(rows, "<th>", "</th>") + "</thead>"
  }

  function Body(rows: seq<seq<string>>): string {
    "<tbody>" + Rows(rows, "<td>", "</td>") + "</tbody>"
  }

  function Foot(rows: seq<seq<string>>): string {
    "<tfoot>" + Rows(rows, "<td>", "</td>") + "</tfoot>"
  }

  function Bodies(blocks: seq<seq<seq<string>>>): string {
    if blocks == [] then "" else Bodies(blocks[..|blocks| - 1]) + Body(blocks[|blocks| - 1])
  }

  /** One block is the body; of two the first is the head; of more the last is the foot as well. */
  function TablePage(blocks: seq<seq<seq<string>>>): string {
    var n := |blocks|;
    "<table>" +
    (if n == 0 then ""
     else if n == 1 then Body(blocks[0])
     else if n == 2 then Head(blocks[0]) + Body(blocks[1])
     else Head(blocks[0]) + Bodies(blocks[1..n - 1]) + Foot(blocks[n - 1]))
    + "</table>"
  }

  // ----- reading the rows -----

  lemma {:induction false} BarFound(cell: string, rest: string)
    requires '|' !in cell
    ensures Segments(cell + ("|" + rest)) == [cell] + Segments(rest)
    ensures cell != "" ==> Segments(cell) == [cell]
  {
    hide BarAt;
    var line := cell + ("|" + rest);
    assert line[|cell|] == '|' && line[..|cell|] == cell;
    assert BarAt(line) == |cell| by { BarIsFirst(cell, "|" + rest); }
    assert line[|cell| + 1..] == rest;
    if cell != "" { OneSegment(cell); }
  }

  lemma {:induction false} OneSegment(cell: string)
    requires '|' !in cell && cell != ""
    ensures Segments(cell) == [cell]
  {
    hide BarAt;
    assert BarAt(cell) == |cell|;
    assert cell[..|cell|] == cell && cell[|cell|..] == "";
    assert Segments("") == [];
  }

  lemma {:induction false} BarIsFirst(cell: string, rest: string)
    requires '|' !in cell && rest != "" && rest[0] == '|'
    ensures BarAt(cell + rest) == |cell|
  {
    var line := cell + rest;
    assert line[|cell|] == '|';
    assert forall i | 0 <= i < |cell| :: line[i] == cell[i];
    assert line[..BarAt(line)] == line[..BarAt(line)] + "" && BarAt(line) == |cell|;
  }

  lemma {:induction false} SegmentsOfRow(cells: seq<string>)
    requires cells != [] && cells[|cells| - 1] != "" && forall i | 0 <= i < |cells| :: '|' !in cells[i]
    ensures Segments(RowLine(cells)) == cells
    decreases |cells|
  {
    hide Segments;
    if |cells| == 1 {
      BarFound(cells[0], "");
    } else {
      BarFound(cells[0], RowLine(cells[1..]));
      SegmentsOfRow(cells[1..]);
      assert [cells[0]] + cells[1..] == cells;
    }
  }

  /** A bar at the end of a row makes no further cell. */
  lemma {:induction false} LastBarIsFree(cells: seq<string>)
    requires cells != [] && forall i | 0 <= i < |cells| :: '|' !in cells[i]
    ensures Segments(RowLine(cells) + "|") == cells
    decreases |cells|
  {
    hide Segments;
    if |cells| == 1 {
      BarFound(cells[0], "");
      assert "|" + "" == "|";
      assert Segments("") == [] by { NoSegments(); }
    } else {
      var rest := RowLine(cells[1..]);
      Regroup(cells[0], "|" + rest, "|");
      Regroup("|", rest, "|");
      BarFound(cells[0], rest + "|");
      LastBarIsFree(cells[1..]);
      assert [cells[0]] + cells[1..] == cells;
    }
  }

  lemma {:induction false} NoSegments()
    ensures Segments("") == []
  {
  }

  lemma {:induction false} RowsRead(before: seq<string>, blocks: seq<seq<seq<string>>>, rows: seq<seq<string>>)
    requires RowsGrid(before) == Grid(blocks, |blocks|, 0)
    requires rows != [] && forall j | 0 <= j < |rows| :: GoodRow(rows[j])
    ensures RowsGrid(before + RowLines(rows)) == Grid(blocks + [rows], |blocks|, |rows|)
    decreases |rows|
  {
    hide Segments, RowLine;
    hide RowsGrid;
    var init, last := rows[..|rows| - 1], rows[|rows| - 1];
    var lines := before + RowLines(rows);
    assert lines == before + RowLines(init) + [RowLine(last)];
    assert init + [last] == rows;
    if init == [] {
      assert before + RowLines(init) == before;
    } else {
      RowsRead(before, blocks, init);
    }
    RowRead(before + RowLines(init), blocks, init, last);
  }

  lemma {:induction false} RowRead(before: seq<string>, blocks: seq<seq<seq<string>>>, init: seq<seq<string>>,
                                   last: seq<string>)
    requires RowsGrid(before) == Grid(if init == [] then blocks else blocks + [init], |blocks|, |init|)
    requires GoodRow(last)
    ensures RowsGrid(before + [RowLine(last)]) == Grid(blocks + [init + [last]], |blocks|, |init| + 1)
  {
    hide Segments, RowLine;
    var lines := before + [RowLine(last)];
    assert lines[..|lines| - 1] == before;
    SegmentsOfRow(last);
    if init == [] {
      assert (blocks + [[]])[|blocks| := [[]][0] + [last]] == blocks + [init + [last]];
    } else {
      assert (blocks + [init])[|blocks| := init + [last]] == blocks + [init + [last]];
    }
  }

  lemma {:induction false} BlocksRead(blocks: seq<seq<seq<string>>>)
    requires blocks != [] && GoodBlocks(blocks)
    ensures RowsGrid(BlockLines(blocks)) == Grid(blocks, |blocks| - 1, |blocks[|blocks| - 1]|)
    decreases |blocks|
  {
    hide Segments, GoodRow, RowLine;
    var init, last := blocks[..|blocks| - 1], blocks[|blocks| - 1];
    assert init + [last] == blocks;
    if init == [] {
      NoRowsYet();
      RowsRead([], [], last);
      assert [] + RowLines(last) == RowLines(last);
      assert [] + [last] == blocks;
    } else {
      BlocksRead(init);
      var before := BlockLines(init) + ["- | - | -"];
      assert before[..|before| - 1] == BlockLines(init);
      assert RowsGrid(before) == Grid(init, |init|, 0);
      RowsRead(before, init, last);
      Regroup(BlockLines(init), ["- | - | -"], RowLines(last));
    }
  }

  lemma {:induction false} NoRowsYet()
    ensures RowsGrid([]) == Grid([], 0, 0)
  {
  }

  lemma {:induction false} RowIsLine(cells: seq<string>)
    requires forall i | 0 <= i < |cells| :: '\n' !in cells[i]
    ensures '\n' !in RowLine(cells)
    decreases |cells|
  {
    if |cells| > 1 { RowIsLine(cells[1..]); }
  }

  lemma {:induction false} BlockLinesAreLines(blocks: seq<seq<seq<string>>>)
    requires GoodBlocks(blocks)
    ensures forall i | 0 <= i < |BlockLines(blocks)| ::
              '\n' !in BlockLines(blocks)[i] && BlockLines(blocks)[i] != "|<table"
    decreases |blocks|
  {
    hide RowLine;
    if blocks != [] {
      var init, last := blocks[..|blocks| - 1], blocks[|blocks| - 1];
      forall j | 0 <= j < |last| ensures '\n' !in RowLine(last[j]) && RowLine(last[j]) != "|<table" {
        assert GoodRow(last[j]);
        RowIsLine(last[j]);
      }
      assert '\n' !in "- | - | -" && "- | - | -" != "|<table";
      BlockLinesAreLines(init);
    }
  }

  // ----- writing the table -----

  lemma {:induction false} TagsAre()
    ensures "<" + "tr" + ">" == "<tr>" && "</" + "tr" + ">" == "</tr>"
    ensures "<" + "th" + ">" == "<th>" && "</" + "th" + ">" == "</th>"
    ensures "<" + "td" + ">" == "<td>" && "</" + "td" + ">" == "</td>"
  {
  }

  lemma {:induction false} SectionTagsAre()
    ensures "<" + "thead" + ">" == "<thead>" && "</" + "thead" + ">" == "</thead>"
    ensures "<" + "tbody" + ">" == "<tbody>" && "</" + "tbody" + ">" == "</tbody>"
    ensures "<" + "tfoot" + ">" == "<tfoot>" && "</" + "tfoot" + ">" == "</tfoot>"
    ensures "<" + "table" + ">" == "<table>" && "</" + "table" + ">" == "</table>"
  {
  }

  lemma {:induction false} ElementGlue(name: string, inner: string, start: string, end: string)
    requires "<" + name + ">" == start && "</" + name + ">" == end
    ensures Element(name, inner) == start + inner + end
  {
    assert Element(name, inner) == "<" + name + ">" + inner + ("</" + name + ">");
  }

  lemma {:induction false} CellsAre(cells: seq<string>, name: string, start: string, end: string)
    requires "<" + name + ">" == start && "</" + name + ">" == end
    ensures CellsHtml(cells, name) == Cells(cells, start, end)
    decreases |cells|
  {
    hide Element;
    if cells != [] {
      CellsAre(cells[..|cells| - 1], name, start, end);
      ElementGlue(name, cells[|cells| - 1], start, end);
    }
  }

  lemma {:induction false} RowsAre(rows: seq<seq<string>>, name: string, start: string, end: string)
    requires "<" + name + ">" == start && "</" + name + ">" == end
    ensures RowsHtml(rows, name) == Rows(rows, start, end)
    decreases |rows|
  {
    hide Element, CellsHtml, Cells;
    TagsAre();
    if rows != [] {
      RowsAre(rows[..|rows| - 1], name, start, end);
      CellsAre(rows[|rows| - 1], name, start, end);
      ElementGlue("tr", CellsHtml(rows[|rows| - 1], name), "<tr>", "</tr>");
    }
  }

  lemma {:induction false} SectionIs(rows: seq<seq<string>>, index: nat, total: nat)
    requires index < total
    ensures SectionHtml(rows, index, total) ==
            if index == 0 && total > 1 then Head(rows)
            else if index + 1 == total && total > 2 then Foot(rows)
            else Body(rows)
  {
    hide Element, Rows, RowsHtml;
    TagsAre();
    SectionTagsAre();
    RowsAre(rows, "th", "<th>", "</th>");
    RowsAre(rows, "td", "<td>", "</td>");
    ElementGlue("thead", Rows(rows, "<th>", "</th>"), "<thead>", "</thead>");
    ElementGlue("tbody", Rows(rows, "<td>", "</td>"), "<tbody>", "</tbody>");
    ElementGlue("tfoot", Rows(rows, "<td>", "</td>"), "<tfoot>", "</tfoot>");
  }

  lemma {:induction false} MiddleIs(blocks: seq<seq<seq<string>>>, upTo: nat)
    requires |blocks| > 2 && 1 <= upTo < |blocks|
    ensures SectionsHtml(blocks, upTo) == Head(blocks[0]) + Bodies(blocks[1..upTo])
    decreases upTo
  {
    hide SectionHtml, Head, Body;
    if upTo == 1 {
      assert blocks[1..1] == [];
      assert SectionsHtml(blocks, 0) == "";
      SectionIs(blocks[0], 0, |blocks|);
      assert "" + Head(blocks[0]) == Head(blocks[0]) + "";
    } else {
      MiddleIs(blocks, upTo - 1);
      SectionIs(blocks[upTo - 1], upTo - 1, |blocks|);
      assert blocks[1..upTo][..upTo - 2] == blocks[1..upTo - 1];
      Regroup(Head(blocks[0]), Bodies(blocks[1..upTo - 1]), Body(blocks[upTo - 1]));
    }
  }

  lemma {:induction false} TableIs(blocks: seq<seq<seq<string>>>)
    ensures TableHtml(blocks) == TablePage(blocks)
  {
    hide Element, SectionHtml, Head, Body, Foot;
    SectionTagsAre();
    ElementGlue("table", SectionsHtml(blocks, |blocks|), "<table>", "</table>");
    var n := |blocks|;
    if n == 1 {
      SectionIs(blocks[0], 0, 1);
      assert SectionsHtml(blocks, 1) == "" + Body(blocks[0]);
    } else if n == 2 {
      SectionIs(blocks[0], 0, 2);
      SectionIs(blocks[1], 1, 2);
      assert SectionsHtml(blocks, 1) == "" + Head(blocks[0]);
      assert "" + Head(blocks[0]) == Head(blocks[0]);
    } else if n > 2 {
      MiddleIs(blocks, n - 1);
      SectionIs(blocks[n - 1], n - 1, n);
    }
  }

  /** A table of any blocks of rows renders to its head, bodies and foot, every cell in its place. */
  lemma {:induction false} TableRenders(blocks: seq<seq<seq<string>>>)
    requires blocks != [] && GoodBlocks(blocks)
    ensures Render(Document(["|table>"] + BlockLines(blocks) + ["|<table"])) == TablePage(blocks)
  {
    hide AddLine, GoodBlocks, BlockLines, TablePage, TableHtml, RowsGrid, Document, BlockFor;
    var rows := BlockLines(blocks);
    var lines := ["|table>"] + rows + ["|<table"];
    BlockLinesAreLines(blocks);
    BlocksRead(blocks);
    TableIs(blocks);
    RenderedIs(lines);
    FixedStarts();
    OneBlock(Table, "|table>");
    var b := New(Table).(started := true);
    assert AddLine(New(Table), "|table>") == b by { TableOpens(); }
    assert "|<table" !in rows;
    OpenTableTakes(Driver("", Some(b)), b, rows);
    TakeLinesConcat(START, ["|table>"], rows);
    assert lines[..|lines| - 1] == ["|table>"] + rows;
    var b' := b.(grid := RowsGrid(rows));
    TableCloses(b');
    assert "" + TableHtml(blocks) == TableHtml(blocks);
  }

  lemma {:induction false} TableOpens()
    ensures AddLine(New(Table), "|table>") == New(Table).(started := true)
  {
  }

  lemma {:induction false} TableCloses(b: Block)
    requires b.kind.Table? && b.started && b.result == ""
    ensures AddLine(b, "|<table") == b.(result := "" + TableHtml(b.grid.blocks), finished := true)
  {
    assert "|<table" != "- | - | -";
  }
}
