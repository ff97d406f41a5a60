/** Where the table parser stays inside its vectors, told from the lines of the table alone. */
module MarkdownTables {
  import opened Shared
  import opened MarkdownLines
  import opened MarkdownBlocks
  import opened MarkdownDocument
  import opened MarkdownNesting

  predicate IsSeparator(line: string) {
    line == "- | - | -"
  }

  /** The grid of an open table after these lines. */
  function RowsGrid(rows: seq<string>): Grid {
    if rows == [] then EMPTY_GRID
    else
      var g, last := RowsGrid(rows[..|rows| - 1]), rows[|rows| - 1];
      if IsSeparator(last) then g.(currentBlock := g.currentBlock + 1, currentRow := 0)
      else AddRow(g, Segments(last))
  }

  /** Every separator follows a row: none is the first line, no two are neighbours. */
  predicate RowsBetween(rows: seq<string>) {
    forall i | 0 <= i < |rows| && IsSeparator(rows[i]) :: i > 0 && !IsSeparator(rows[i - 1])
  }

  lemma {:induction false} BetweenLast(rows: seq<string>)
    requires rows != []
    ensures var n := |rows| - 1;
            RowsBetween(rows) <==>
            RowsBetween(rows[..n]) && (IsSeparator(rows[n]) ==> n > 0 && !IsSeparator(rows[n - 1]))
  {
    var n := |rows| - 1;
    assert forall i | 0 <= i < n :: rows[..n][i] == rows[i];
  }

  /** A gap leaves the current block behind the vectors for good; without one it is the last block,
      or the one that the next row opens. */
  lemma {:induction false} GridFitsIff(rows: seq<string>)
    ensures var g := RowsGrid(rows);
            && (RowFits(g) <==> RowsBetween(rows))
            && (RowsBetween(rows) ==>
                  g.currentBlock + 1 == |g.blocks| + if rows == [] || IsSeparator(rows[|rows| - 1]) then 1 else 0)
            && (!RowsBetween(rows) ==> g.currentBlock > |g.blocks|)
  {
    hide RowsBetween, Segments, IsSeparator;
    if rows == [] {
      assert RowsBetween(rows) by { EmptyBetween(); }
    } else {
      var n := |rows| - 1;
      GridFitsIff(rows[..n]);
      BetweenLast(rows);
      assert n > 0 ==> rows[..n][n - 1] == rows[n - 1];
    }
  }

  lemma {:induction false} EmptyBetween()
    ensures RowsBetween([])
  {
  }

  predicate OpenTable(b: Block) {
    b.kind.Table? && b.started && !b.finished && b.child.None?
  }

  /** Lines other than the closing one only change the grid of an open table. */
  lemma {:induction false} OpenTableTakes(d: Driver, b: Block, rows: seq<string>)
    requires OpenTable(b) && b.grid == EMPTY_GRID && d.current == Some(b) && "|<table" !in rows
    ensures TakeLines(d, rows) == d.(current := Some(b.(grid := RowsGrid(rows))))
  {
    hide AddRow, Segments;
    if rows != [] {
      OpenTableTakes(d, b, rows[..|rows| - 1]);
    }
  }

  /** In a table that has read `rows`, the next line is placed inside the vectors exactly when it is
      no row, or every separator so far followed a row. */
  lemma {:induction false} RowPlacedIff(d: Driver, b: Block, rows: seq<string>, line: string)
    requires OpenTable(b) && b.grid == EMPTY_GRID && d.current == Some(b) && "|<table" !in rows
    ensures TakeLines(d, rows).current.Some?
    ensures Indexable(TakeLines(d, rows).current.value, line) <==>
            IsSeparator(line) || line == "|<table" || RowsBetween(rows)
  {
    hide RowsGrid, RowFits, RowsBetween;
    OpenTableTakes(d, b, rows);
    GridFitsIff(rows);
  }

  // ----- whole documents -----

  /** No row of an open table is indexed out of range, not even the empty one of the flush. */
  predicate TablesFit(lines: seq<string>) {
    forall i | 0 <= i <= |lines| ::
      var d := TakeLines(START, lines[..i]);
      d.current.Some? ==> Indexable(d.current.value, if i < |lines| then lines[i] else "")
  }

  /** A table starts at line `t` and is not closed before line `i`, or before the end of the document. */
  predicate InTable(lines: seq<string>, t: nat, i: nat) {
    && t < i <= |lines| && lines[t] == "|table>" && "|<table" !in lines[t + 1..i]
    && TakeLines(START, lines[..t]).current.None?
  }

  /** Every row of every table, and the empty line at the end of a document that leaves a table
      open, comes after separators that all followed a row. */
  predicate RowsSeparated(lines: seq<string>) {
    forall t, i | 0 <= t < i <= |lines| && InTable(lines, t, i) ::
      (i < |lines| && (IsSeparator(lines[i]) || lines[i] == "|<table")) || RowsBetween(lines[t + 1..i])
  }

  lemma {:induction false} TakeLinesConcat(d: Driver, a: seq<string>, b: seq<string>)
    ensures TakeLines(d, a + b) == TakeLines(TakeLines(d, a), b)
    decreases |b|
  {
    hide TakeLine;
    if b == [] {
      assert a + b == a;
    } else {
      var n := |b| - 1;
      assert (a + b)[..|a| + n] == a + b[..n];
      TakeLinesConcat(d, a, b[..n]);
    }
  }

  lemma {:induction false} TableOpens(d: Driver)
    requires d.current.None?
    ensures TakeLine(d, "|table>") == d.(current := Some(New(Table).(started := true)))
  {
    hide IsHeadlineStart, IsQuoteStart;
    assert BlockFor("|table>") == Some(Table) by { TableIsChosen(); }
  }

  lemma {:induction false} TableIsChosen()
    ensures BlockFor("|table>") == Some(Table)
  {
    assert "|table>"[0] == '|';
  }

  /** Inside a table the driver holds just that table, with the rows since its first line. */
  lemma {:induction false} InTableHolds(lines: seq<string>, t: nat, i: nat)
    requires InTable(lines, t, i)
    ensures TakeLines(START, lines[..i]).current
         == Some(New(Table).(started := true, grid := RowsGrid(lines[t + 1..i])))
  {
    hide TakeLine, RowsGrid;
    var rows := lines[t + 1..i];
    var d := TakeLines(START, lines[..t + 1]);
    assert lines[..t + 1][..t] == lines[..t];
    TableOpens(TakeLines(START, lines[..t]));
    assert lines[..i] == lines[..t + 1] + rows;
    TakeLinesConcat(START, lines[..t + 1], rows);
    OpenTableTakes(d, New(Table).(started := true), rows);
  }

  lemma {:induction false} KindStays(b: Block, line: string)
    ensures AddLine(b, line).kind == b.kind
    decreases Depth(b), Quotes(line), Rank(b)
  {
    hide AddLine, Prepare;
    if b.kind.Table? {
      assert AddLine(b, line) == AddTableLine(b, line) by { TableTakes(b, line); }
    } else {
      ChainStep(b, line);
      PreparedKind(b, line);
    }
  }

  lemma {:induction false} TableTakes(b: Block, line: string)
    requires b.kind.Table?
    ensures AddLine(b, line) == AddTableLine(b, line)
  {
    hide AddTableLine;
  }

  lemma {:induction false} PreparedKind(b: Block, line: string)
    ensures Prepare(b, line).0.kind == b.kind
  {
    hide ParseBlock;
    ParseKeepsChild(b, line);
    ParseKeepsChild(b.(started := true, result := b.result + "<blockquote>"), line);
  }

  /** A waiting table was opened by a line of the document, and no line since has closed it. */
  lemma {:induction false} TableWasOpened(lines: seq<string>, i: nat) returns (t: nat)
    requires i <= |lines|
    requires var d := TakeLines(START, lines[..i]); d.current.Some? && d.current.value.kind.Table?
    ensures t < i && InTable(lines, t, i)
    decreases i
  {
    hide AddLine, BlockFor;
    var m := i - 1;
    assert i > 0 && lines[..i][..m] == lines[..m];
    var d := TakeLines(START, lines[..m]);
    if d.current.Some? {
      KindStays(d.current.value, lines[m]);
      t := TableWasOpened(lines, m);
      InTableHolds(lines, t, m);
      assert lines[m] != "|<table" by { ClosingCloses(d.current.value); }
      assert lines[t + 1..i] == lines[t + 1..m] + [lines[m]];
    } else {
      KindStays(New(BlockFor(lines[m]).value), lines[m]);
      OnlyTableLineOpens(lines[m]);
      t := m;
      assert lines[t + 1..i] == [];
    }
  }

  lemma {:induction false} ClosingCloses(b: Block)
    requires b.kind.Table? && b.started
    ensures AddLine(b, "|<table").Done()
  {
    TableTakes(b, "|<table");
  }

  lemma {:induction false} OnlyTableLineOpens(line: string)
    ensures BlockFor(line) == Some(Table) ==> line == "|table>"
  {
  }

  /** A document keeps inside the vectors of its tables if and only if its rows are separated. */
  lemma {:induction false} TablesFitIff(lines: seq<string>)
    ensures TablesFit(lines) <==> RowsSeparated(lines)
  {
    hide TakeLines, RowsBetween, Indexable, InTable, RowsGrid, IsSeparator;
    forall t, i | 0 <= t < i <= |lines| && InTable(lines, t, i)
      ensures i <= |lines| && TakeLines(START, lines[..i]).current.Some?
      ensures var line := if i < |lines| then lines[i] else "";
              Indexable(TakeLines(START, lines[..i]).current.value, line) <==>
              IsSeparator(line) || line == "|<table" || RowsBetween(lines[t + 1..i])
    {
      InTablePlaces(lines, t, i);
    }
    if RowsSeparated(lines) {
      forall i | 0 <= i <= |lines| && TakeLines(START, lines[..i]).current.Some?
        ensures Indexable(TakeLines(START, lines[..i]).current.value, if i < |lines| then lines[i] else "")
      {
        var b := TakeLines(START, lines[..i]).current.value;
        if b.kind.Table? {
          var t := TableWasOpened(lines, i);
          assert !IsSeparator("") by { EmptyIsRow(); }
        } else {
          OnlyTablesIndex(b, if i < |lines| then lines[i] else "");
        }
      }
    } else {
      EmptyIsRow();
    }
  }

  lemma {:induction false} EmptyIsRow()
    ensures !IsSeparator("")
  {
  }

  lemma {:induction false} OnlyTablesIndex(b: Block, line: string)
    requires !b.kind.Table?
    ensures Indexable(b, line)
  {
  }

  lemma {:induction false} InTablePlaces(lines: seq<string>, t: nat, i: nat)
    requires InTable(lines, t, i)
    ensures TakeLines(START, lines[..i]).current.Some?
    ensures var line := if i < |lines| then lines[i] else "";
            Indexable(TakeLines(START, lines[..i]).current.value, line) <==>
            IsSeparator(line) || line == "|<table" || RowsBetween(lines[t + 1..i])
  {
    hide TakeLines, RowsGrid, RowFits, RowsBetween;
    InTableHolds(lines, t, i);
    GridFitsIff(lines[t + 1..i]);
  }

  /** A row after a separator that comes first. */
  lemma {:induction false} GapOverruns()
    ensures !TablesFit(["|table>", "- | - | -", "a"])
  {
    hide TakeLines, RowsBetween, IsSeparator, RowsGrid;
    var lines := ["|table>", "- | - | -", "a"];
    assert InTable(lines, 0, 2) by { FirstLineOpens(lines, 2); }
    GapInRows(lines[1..2]);
    LetterIsRow();
    TablesFitIff(lines);
  }

  lemma {:induction false} FirstLineOpens(lines: seq<string>, i: nat)
    requires 0 < i <= |lines| && lines[0] == "|table>" && "|<table" !in lines[1..i]
    ensures InTable(lines, 0, i)
  {
    assert lines[..0] == [];
  }

  lemma {:induction false} GapInRows(rows: seq<string>)
    requires rows == ["- | - | -"]
    ensures !RowsBetween(rows) && "|<table" !in rows
  {
    assert IsSeparator(rows[0]);
  }

  lemma {:induction false} LetterIsRow()
    ensures !IsSeparator("a") && "a" != "|<table"
  {
  }
}
