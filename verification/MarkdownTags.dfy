/** How the tag literals of the block parsers act on the stack of open tags. */
module MarkdownTags {
  import opened Markup
  import opened MarkdownLines
  import opened MarkdownBlocks

  /** The tags a started, unfinished block of this kind has opened itself. */
  function TagsOf(kind: Kind): seq<string> {
    match kind
    case Unordered => ["ul", "li"]
    case Ordered => ["ol", "li"]
    case Checklist => ["ul", "li", "label"]
    case Quote => ["blockquote"]
    case Paragraph => ["p"]
    case CodeBlock => ["pre", "code"]
    case _ => []
  }

  lemma {:induction false} TwoTags(open: seq<string>, text: string, a: Tag, b: Tag)
    requires GoodTag(a) && GoodTag(b)
    requires Effect(open, text, a).Outside?
    ensures Run(Outside(open, text), TagHtml(a) + TagHtml(b)) == Effect(Effect(open, text, a).open, text, b)
  {
    hide Run;
    RunConcat(Outside(open, text), TagHtml(a), TagHtml(b));
    RunTagHtml(open, text, a);
    RunTagHtml(Effect(open, text, a).open, text, b);
  }

  lemma {:induction false} ListTagIs(tag: Tag)
    requires tag == OpenWith("ul", "class=\"checklist\"")
    ensures TagHtml(tag) == "<ul class=\"checklist\">"
  {
  }

  lemma {:induction false} ListTagGood(tag: Tag)
    requires tag == OpenWith("ul", "class=\"checklist\"")
    ensures GoodTag(tag)
  {
  }

  lemma {:induction false} ItemOpenerIs(kind: Kind)
    requires kind.Unordered? || kind.Ordered?
    ensures Opener(kind) == TagHtml(Open(TagsOf(kind)[0])) + TagHtml(Open("li"))
  {
  }

  lemma {:induction false} ItemCloserIs(kind: Kind)
    requires kind.Unordered? || kind.Ordered?
    ensures Closer(kind) == TagHtml(Close("li")) + TagHtml(Close(TagsOf(kind)[0]))
  {
  }

  lemma {:induction false} NextItemIs()
    ensures "</li><li>" == TagHtml(Close("li")) + TagHtml(Open("li"))
  {
  }

  lemma {:induction false} LabelTags()
    ensures TagHtml(Open("label")) == "<label>" && TagHtml(Close("label")) == "</label>"
  {
  }

  lemma {:induction false} ListOpens(kind: Kind, open: seq<string>, text: string)
    requires kind.Unordered? || kind.Ordered?
    ensures Run(Outside(open, text), Opener(kind)) == Outside(open + TagsOf(kind), text)
  {
    hide Run, TagHtml, Opener;
    var name := TagsOf(kind)[0];
    ItemOpenerIs(kind);
    TwoTags(open, text, Open(name), Open("li"));
    assert open + [name] + ["li"] == open + TagsOf(kind);
  }

  lemma {:induction false} ChecklistOpens(open: seq<string>, text: string, list: Tag, html: string)
    requires GoodTag(list) && list.OpenWith? && list.name == "ul"
    requires html == TagHtml(list) + "<li>" + "<label>"
    ensures Run(Outside(open, text), html) == Outside(open + ["ul"] + ["li"] + ["label"], text)
  {
    hide Run;
    TwoTags(open, text, list, Open("li"));
    assert "<li>" == TagHtml(Open("li")) && "<label>" == TagHtml(Open("label"));
    RunConcat(Outside(open, text), TagHtml(list) + "<li>", "<label>");
    RunTagHtml(open + ["ul"] + ["li"], text, Open("label"));
  }

  lemma {:induction false} OpenerRuns(kind: Kind, open: seq<string>, text: string)
    requires IsList(kind)
    ensures Run(Outside(open, text), Opener(kind)) == Outside(open + TagsOf(kind), text)
  {
    hide Run;
    if kind.Checklist? {
      var list := OpenWith("ul", "class=\"checklist\"");
      ListTagIs(list);
      ListTagGood(list);
      assert Opener(kind) == "<ul class=\"checklist\">" + "<li>" + "<label>";
      ChecklistOpens(open, text, list, Opener(kind));
      assert open + ["ul"] + ["li"] + ["label"] == open + TagsOf(kind);
    } else {
      ListOpens(kind, open, text);
    }
  }

  lemma {:induction false} ItemCloses(kind: Kind, open: seq<string>, text: string)
    requires kind.Unordered? || kind.Ordered?
    ensures Run(Outside(open + TagsOf(kind), text), Closer(kind)) == Outside(open, text)
  {
    hide Run, TagHtml, Closer;
    var list := TagsOf(kind)[0];
    assert open + TagsOf(kind) == open + [list] + ["li"];
    assert (open + [list] + ["li"])[..|open| + 1] == open + [list];
    assert (open + [list])[..|open|] == open;
    ItemCloserIs(kind);
    TwoTags(open + TagsOf(kind), text, Close("li"), Close(list));
  }

  lemma {:induction false} CloserRuns(kind: Kind, open: seq<string>, text: string)
    requires IsList(kind)
    ensures Run(Outside(open + TagsOf(kind), text), Closer(kind)) == Outside(open, text)
  {
    hide Run, TagHtml;
    if kind.Checklist? {
      assert open + TagsOf(kind) == open + TagsOf(Unordered) + ["label"];
      LabelTags();
      RunConcat(Outside(open + TagsOf(kind), text), "</label>", Closer(Unordered));
      RunTagHtml(open + TagsOf(kind), text, Close("label"));
      assert (open + TagsOf(kind))[..|open| + 2] == open + TagsOf(Unordered);
      ItemCloses(Unordered, open, text);
    } else {
      ItemCloses(kind, open, text);
    }
  }

  lemma {:induction false} ItemTurns(list: seq<string>, text: string)
    ensures Run(Outside(list + ["li"], text), "</li><li>") == Outside(list + ["li"], text)
  {
    hide Run, TagHtml;
    assert (list + ["li"])[..|list|] == list;
    NextItemIs();
    TwoTags(list + ["li"], text, Close("li"), Open("li"));
  }

  lemma {:induction false} LabelTurns(item: seq<string>, text: string, mid: string)
    requires Run(Outside(item, text), mid) == Outside(item, text)
    ensures Run(Outside(item + ["label"], text), "</label>" + (mid + "<label>")) == Outside(item + ["label"], text)
  {
    hide Run, TagHtml;
    LabelTags();
    RunConcat(Outside(item + ["label"], text), "</label>", mid + "<label>");
    RunTagHtml(item + ["label"], text, Close("label"));
    assert (item + ["label"])[..|item|] == item;
    RunConcat(Outside(item, text), mid, "<label>");
    RunTagHtml(item, text, Open("label"));
  }

  lemma {:induction false} NextItemRuns(kind: Kind, open: seq<string>, text: string)
    requires IsList(kind)
    ensures Run(Outside(open + TagsOf(kind), text), NextItem(kind)) == Outside(open + TagsOf(kind), text)
  {
    hide Run;
    var list := open + [TagsOf(kind)[0]];
    ItemTurns(list, text);
    if kind.Checklist? {
      assert open + TagsOf(kind) == list + ["li"] + ["label"];
      LabelTurns(list + ["li"], text, "</li><li>");
    } else {
      assert open + TagsOf(kind) == list + ["li"];
    }
  }

  lemma {:induction false} BoxInputGood()
    ensures '<' !in BOX_INPUT && '>' !in BOX_INPUT
  {
  }

  lemma {:induction false} BoxRuns(open: seq<string>, text: string, html: string)
    requires html == EMPTY_BOX_HTML || html == TICKED_BOX_HTML
    ensures Run(Outside(open, text), html) == Outside(open, text)
  {
    hide Run;
    BoxInputGood();
    var tag := Void(if html == EMPTY_BOX_HTML then BOX_INPUT else BOX_INPUT + TICKED_ATTRIBUTE);
    RunTagHtml(open, text, tag);
  }

  // ----- tables -----

  predicate PlainRow(row: seq<string>) {
    forall i | 0 <= i < |row| :: Plain(row[i])
  }

  predicate PlainRows(rows: seq<seq<string>>) {
    forall i | 0 <= i < |rows| :: PlainRow(rows[i])
  }

  predicate PlainBlocks(blocks: seq<seq<seq<string>>>) {
    forall i | 0 <= i < |blocks| :: PlainRows(blocks[i])
  }

  function CellsText(cells: seq<string>): string {
    if cells == [] then "" else CellsText(cells[..|cells| - 1]) + cells[|cells| - 1]
  }

  function RowsText(rows: seq<seq<string>>): string {
    if rows == [] then "" else RowsText(rows[..|rows| - 1]) + CellsText(rows[|rows| - 1])
  }

  function BlocksText(blocks: seq<seq<seq<string>>>, upTo: nat): string
    requires upTo <= |blocks|
  {
    if upTo == 0 then "" else BlocksText(blocks, upTo - 1) + RowsText(blocks[upTo - 1])
  }

  predicate TableTag(name: string) {
    name == "td" || name == "th" || name == "thead" || name == "tbody" || name == "tfoot"
  }

  lemma {:induction false} CellsRun(open: seq<string>, text: string, cells: seq<string>, tag: string)
    requires PlainRow(cells) && TableTag(tag)
    ensures Run(Outside(open, text), CellsHtml(cells, tag)) == Outside(open, text + CellsText(cells))
  {
    hide Run, Element;
    if cells == [] {
      RunNothing(Outside(open, text));
      assert text + "" == text;
    } else {
      var init, last := cells[..|cells| - 1], cells[|cells| - 1];
      var soFar := text + CellsText(init);
      CellsRun(open, text, init, tag);
      RunText(open + [tag], soFar, last);
      RunElement(open, soFar, tag, last, soFar + last);
      RunConcat(Outside(open, text), CellsHtml(init, tag), Element(tag, last));
      assert soFar + last == text + CellsText(cells);
    }
  }

  lemma {:induction false} RowsRun(open: seq<string>, text: string, rows: seq<seq<string>>, tag: string)
    requires PlainRows(rows) && TableTag(tag)
    ensures Run(Outside(open, text), RowsHtml(rows, tag)) == Outside(open, text + RowsText(rows))
  {
    hide Run, Element;
    if rows == [] {
      RunNothing(Outside(open, text));
      assert text + "" == text;
    } else {
      var init, last := rows[..|rows| - 1], rows[|rows| - 1];
      var soFar := text + RowsText(init);
      RowsRun(open, text, init, tag);
      CellsRun(open + ["tr"], soFar, last, tag);
      RunElement(open, soFar, "tr", CellsHtml(last, tag), soFar + CellsText(last));
      RunConcat(Outside(open, text), RowsHtml(init, tag), Element("tr", CellsHtml(last, tag)));
      assert soFar + CellsText(last) == text + RowsText(rows);
    }
  }

  lemma {:induction false} ElementOfRows(open: seq<string>, text: string, rows: seq<seq<string>>, tag: string,
                                         cellTag: string)
    requires PlainRows(rows) && TableTag(tag) && TableTag(cellTag)
    ensures Run(Outside(open, text), Element(tag, RowsHtml(rows, cellTag))) == Outside(open, text + RowsText(rows))
  {
    hide Run, Element;
    RowsRun(open + [tag], text, rows, cellTag);
    RunElement(open, text, tag, RowsHtml(rows, cellTag), text + RowsText(rows));
  }

  lemma {:induction false} SectionRuns(open: seq<string>, text: string, rows: seq<seq<string>>, index: nat, total: nat)
    requires PlainRows(rows)
    ensures Run(Outside(open, text), SectionHtml(rows, index, total)) == Outside(open, text + RowsText(rows))
  {
    hide Run, Element;
    ElementOfRows(open, text, rows, SectionTag(index, total), CellTag(index, total));
  }

  lemma {:induction false} SectionsRun(open: seq<string>, text: string, blocks: seq<seq<seq<string>>>, upTo: nat)
    requires upTo <= |blocks| && PlainBlocks(blocks)
    ensures Run(Outside(open, text), SectionsHtml(blocks, upTo)) == Outside(open, text + BlocksText(blocks, upTo))
    decreases upTo
  {
    hide SectionHtml, Run, Element, RowsText, PlainRows;
    if upTo == 0 {
      RunNothing(Outside(open, text));
      assert text + "" == text;
    } else {
      var i := upTo - 1;
      var soFar := text + BlocksText(blocks, i);
      SectionsRun(open, text, blocks, i);
      SectionRuns(open, soFar, blocks[i], i, |blocks|);
      RunConcat(Outside(open, text), SectionsHtml(blocks, i), SectionHtml(blocks[i], i, |blocks|));
      assert BlocksText(blocks, upTo) == BlocksText(blocks, i) + RowsText(blocks[i]);
      assert soFar + RowsText(blocks[i]) == text + BlocksText(blocks, upTo);
    }
  }

  /** A table of plain cells is well nested and keeps every cell, in reading order. */
  lemma {:induction false} TableRuns(open: seq<string>, text: string, blocks: seq<seq<seq<string>>>)
    requires PlainBlocks(blocks)
    ensures Run(Outside(open, text), TableHtml(blocks)) == Outside(open, text + BlocksText(blocks, |blocks|))
  {
    hide Run, Element;
    SectionsRun(open + ["table"], text, blocks, |blocks|);
    RunElement(open, text, "table", SectionsHtml(blocks, |blocks|), text + BlocksText(blocks, |blocks|));
  }
}
