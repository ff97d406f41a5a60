/** Trees of lists: written as indented lines and rendered, each comes out as the HTML of that tree. */
module MarkdownTrees {
  import opened Shared
  import opened MarkdownLines
  import opened MarkdownBlocks
  import opened MarkdownNesting
  import opened MarkdownDocument
  import opened MarkdownItems

  /** A list has items; an item has a marker, text, further lines of text, and perhaps a list in it. */
  datatype Tree = Tree(kind: Kind, items: seq<Item>)

  datatype Item = Item(marker: string, text: string, more: seq<string>, nested: Option<Tree>)

  predicate GoodItem(kind: Kind, item: Item)
    decreases item
  {
    && IsMarker(kind, item.marker) && IsItemText(kind, item.marker, item.text)
    && (forall line | line in item.more :: IsTextLine(line) && '\n' !in line && '\r' !in line)
    && (item.nested.Some? ==> MayHold(kind, item.nested.value.kind) && GoodTree(item.nested.value))
  }

  /** Every list has an item, and an ordered one begins with a number. */
  predicate GoodTree(t: Tree)
    decreases t
  {
    && IsList(t.kind) && t.items != []
    && (t.kind.Ordered? ==> t.items[0].marker == "1. ")
    && forall item | item in t.items :: GoodItem(t.kind, item)
  }

  // ----- as lines -----

  function Indented(lines: seq<string>): seq<string> {
    seq(|lines|, i requires 0 <= i < |lines| => [' ', ' '] + lines[i])
  }

  function ItemLines(item: Item): seq<string>
    decreases item, 1
  {
    [item.marker + item.text] + item.more +
    match item.nested
    case None => []
    case Some(t) => Indented(ItemsLines(t.items))
  }

  function ItemsLines(items: seq<Item>): seq<string>
    decreases items, 0
  {
    if items == [] then [] else ItemsLines(items[..|items| - 1]) + ItemLines(items[|items| - 1])
  }

  function TreeLines(t: Tree): seq<string> {
    ItemsLines(t.items)
  }

  // ----- as HTML -----

  function NestedHtml(nested: Option<Tree>): string
    decreases nested, 2
  {
    match nested
    case None => ""
    case Some(t) => ListStart(t.kind) + ItemsHtml(t.kind, t.items) + ListEnd(t.kind)
  }

  function ItemHtml(kind: Kind, item: Item): string
    decreases item, 1
  {
    ItemStart(kind)
    + (Shown(kind, item.marker, item.text) + Flatten(item.more) + NestedHtml(item.nested))
    + ItemEnd(kind)
  }

  function ItemsHtml(kind: Kind, items: seq<Item>): string
    decreases items, 0
  {
    if items == [] then "" else ItemsHtml(kind, items[..|items| - 1]) + ItemHtml(kind, items[|items| - 1])
  }

  function TreeHtml(t: Tree): string {
    ListStart(t.kind) + ItemsHtml(t.kind, t.items) + ListEnd(t.kind)
  }

  // ----- feeding lines -----

  /** The parser runs on after each of the lines. */
  predicate Stays(b: Block, lines: seq<string>) {
    lines == [] || (Stays(b, lines[..|lines| - 1]) && Running(Feed(b, lines)))
  }

  lemma {:induction false} FeedConcat(b: Block, first: seq<string>, second: seq<string>)
    ensures Feed(b, first + second) == Feed(Feed(b, first), second)
    ensures Stays(b, first) && Stays(Feed(b, first), second) ==> Stays(b, first + second)
    decreases |second|
  {
    hide AddLine, Running;
    if second == [] {
      assert first + second == first;
    } else {
      var n := |second| - 1;
      assert (first + second)[..|first| + n] == first + second[..n];
      FeedConcat(b, first, second[..n]);
    }
  }

  lemma {:induction false} FeedOne(b: Block, line: string)
    ensures Feed(b, [line]) == AddLine(b, line)
    ensures Running(AddLine(b, line)) ==> Stays(b, [line])
  {
    hide AddLine, Running;
    assert [line][..0] == [] && Feed(b, []) == b;
  }

  lemma {:induction false} TextFeed(b: Block, more: seq<string>)
    requires IsList(b.kind) && Running(b) && b.child.None? && forall line | line in more :: IsTextLine(line)
    ensures Feed(b, more) == b.(result := b.result + Flatten(more)) && Stays(b, more)
    decreases |more|
  {
    hide AddLine, IsTextLine;
    if more == [] {
      assert b.result + "" == b.result;
    } else {
      var init, last := more[..|more| - 1], more[|more| - 1];
      assert init + [last] == more && last in more && forall line | line in init :: line in more;
      TextFeed(b, init);
      TextJoinsItem(Feed(b, init), last);
      FlattenLast(init, last);
      Regroup(b.result, Flatten(init), last);
    }
  }

  lemma {:induction false} KindStays(b: Block, line: string)
    requires IsList(b.kind)
    ensures AddLine(b, line).kind == b.kind
  {
    hide AddLine, ParseListLine;
    ParseKeepsChild(b, line);
    ListStep(b, line);
    ChainStep(b, line);
  }

  lemma {:induction false} FeedKind(b: Block, lines: seq<string>)
    requires IsList(b.kind)
    ensures Feed(b, lines).kind == b.kind
    decreases |lines|
  {
    hide AddLine;
    if lines != [] {
      FeedKind(b, lines[..|lines| - 1]);
      KindStays(Feed(b, lines[..|lines| - 1]), lines[|lines| - 1]);
    }
  }

  lemma {:induction false} IndentedLast(init: seq<string>, last: string)
    ensures Indented(init + [last]) == Indented(init) + [[' ', ' '] + last]
  {
  }

  /** Indented lines open a list in the item and then go to it. */
  lemma {:induction false} NestedFeed(b: Block, kind: Kind, lines: seq<string>)
    requires IsList(b.kind) && Running(b) && b.child.None? && IsList(kind) && MayHold(b.kind, kind)
    requires lines != [] && ChildFor(b.kind, lines[0]) == Some(kind) && Stays(New(kind), lines)
    ensures Feed(b, Indented(lines)) == b.(child := Some(Feed(New(kind), lines)))
    ensures Stays(b, Indented(lines))
    decreases |lines|
  {
    hide AddLine, ChildFor, Indented;
    var init, last := lines[..|lines| - 1], lines[|lines| - 1];
    SplitLast(lines);
    IndentedLast(init, last);
    FeedConcat(b, Indented(init), [[' ', ' '] + last]);
    FeedKind(New(kind), lines);
    if init == [] {
      assert Indented(init) == [] by { NothingIndented(); }
      FeedOne(b, [' ', ' '] + last);
      FeedOne(New(kind), last);
      assert lines == [last];
      IndentedGoesInside(b, ' ', ' ', last);
    } else {
      assert init[0] == lines[0];
      NestedFeed(b, kind, init);
      FeedKind(New(kind), init);
      var b' := Feed(b, Indented(init));
      FeedOne(b', [' ', ' '] + last);
      IndentedGoesInside(b', ' ', ' ', last);
    }
  }

  lemma {:induction false} NothingIndented()
    ensures Indented([]) == []
  {
  }

  lemma {:induction false} MarkerOpensChild(parent: Kind, kind: Kind, marker: string, text: string)
    requires IsList(parent) && MayHold(parent, kind) && IsMarker(kind, marker) && IsItemText(kind, marker, text)
    requires kind.Ordered? ==> marker == "1. "
    ensures ChildFor(parent, marker + text) == Some(kind)
  {
    hide IsItemText, IsUnorderedStart, IsOrderedItem, IsOrderedStart, IsChecklistStart, StripBullet, StripOrdered,
         StripMarker;
    match kind {
      case Unordered => BulletLine(marker, text); BulletIsNoNumber(marker, text);
      case Ordered => NumberLine(marker, text);
      case Checklist => BoxLine(marker, text);
    }
  }

  lemma {:induction false} BulletIsNoNumber(marker: string, text: string)
    requires IsMarker(Unordered, marker)
    ensures !IsOrderedStart(marker + text)
  {
    assert (marker + text)[0] == marker[0];
  }

  lemma {:induction false} FirstOfLines(items: seq<Item>)
    requires items != []
    ensures ItemsLines(items) != [] && ItemsLines(items)[0] == items[0].marker + items[0].text
    decreases |items|
  {
    hide ItemLines;
    var init, last := items[..|items| - 1], items[|items| - 1];
    FirstOfItem(last);
    if init != [] { FirstOfLines(init); } else { assert ItemsLines(init) == []; }
  }

  lemma {:induction false} FirstOfItem(item: Item)
    ensures ItemLines(item) != [] && ItemLines(item)[0] == item.marker + item.text
  {
  }

  // ----- items through the parser -----

  /** What stands behind the marker line of an item. */
  function RestLines(item: Item): seq<string> {
    item.more + if item.nested.Some? then Indented(TreeLines(item.nested.value)) else []
  }

  lemma {:induction false} ItemLinesSplit(item: Item)
    ensures ItemLines(item) == [item.marker + item.text] + RestLines(item)
  {
  }

  lemma {:induction false} RestFeed(b: Block, item: Item)
    requires IsList(b.kind) && Running(b) && b.child.None? && GoodItem(b.kind, item)
    ensures var b' := Feed(b, RestLines(item));
            && b'.kind == b.kind && Running(b') && Stays(b, RestLines(item))
            && Combined(b') + CloseInner(b') == b.result + (Flatten(item.more) + NestedHtml(item.nested))
    decreases item, 3
  {
    hide AddLine, IsTextLine, IsMarker, IsItemText, ItemsLines, ItemsHtml, Running, ListStart, ListEnd;
    TextFeed(b, item.more);
    var b1 := Feed(b, item.more);
    RunsWith(b, b1.result, None);
    match item.nested {
      case None =>
        assert item.more + [] == item.more;
        assert b1.result + "" == b.result + (Flatten(item.more) + "");
      case Some(t) =>
        var lines := TreeLines(t);
        var first := t.items[0];
        assert first in t.items;
        FirstOfLines(t.items);
        GoodMarker(t.kind, first);
        MarkerOpensChild(b.kind, t.kind, first.marker, first.text);
        TreeFeed(t);
        NestedFeed(b1, t.kind, lines);
        FeedConcat(b, item.more, Indented(lines));
        var c := Feed(New(t.kind), lines);
        RunsWith(b, b1.result, Some(c));
        Regroup(b1.result, Combined(c), CloseAll(c));
        Regroup(b.result, Flatten(item.more), TreeHtml(t));
    }
  }

  lemma {:induction false} RunsWith(b: Block, result: string, child: Option<Block>)
    requires IsList(b.kind) && Running(b) && b.child.None?
    requires child.Some? ==> MayHold(b.kind, child.value.kind) && Running(child.value)
    ensures Running(b.(result := result, child := child))
  {
  }

  lemma {:induction false} ItemsFeed(kind: Kind, items: seq<Item>)
    requires IsList(kind) && items != [] && (forall item | item in items :: GoodItem(kind, item))
    requires kind.Ordered? ==> items[0].marker == "1. "
    ensures var b := Feed(New(kind), ItemsLines(items));
            && b.kind == kind && Running(b) && Stays(New(kind), ItemsLines(items))
            && Combined(b) + CloseInner(b) + ItemEnd(kind) == ListStart(kind) + ItemsHtml(kind, items)
    decreases items, 4
  {
    hide AddLine, IsTextLine, IsMarker, IsItemText, ItemLines, ItemHtml, Running, ListStart, ItemStart, ItemEnd;
    hide Shown, RestLines, GoodItem;
    var init, last := items[..|items| - 1], items[|items| - 1];
    assert last in items && forall item | item in init :: item in items;
    var line, rest := last.marker + last.text, RestLines(last);
    ItemLinesSplit(last);
    GoodMarker(kind, last);
    assert ItemsLines(items) == ItemsLines(init) + ([line] + rest);
    var b0 := Feed(New(kind), ItemsLines(init));
    if init == [] {
      MarkerOpensList(kind, last.marker, last.text);
      OpenedRuns(kind, AddLine(b0, line).result);
      assert ItemsHtml(kind, init) == "";
    } else {
      ItemsFeed(kind, init);
      MarkerStartsItem(b0, last.marker, last.text);
      TurnedRuns(b0, AddLine(b0, line).result);
    }
    var b1 := AddLine(b0, line);
    FeedOne(b0, line);
    RestFeed(b1, last);
    FeedConcat(b0, [line], rest);
    FeedConcat(New(kind), ItemsLines(init), [line] + rest);
    var before := ListStart(kind) + ItemsHtml(kind, init);
    assert b1.result == before + (ItemStart(kind) + Shown(kind, last.marker, last.text)) by {
      ItemGlue(kind, init, before, b0, b1, Shown(kind, last.marker, last.text));
    }
    ItemHtmlGlue(kind, last, before);
    Regroup(ListStart(kind), ItemsHtml(kind, init), ItemHtml(kind, last));
  }

  lemma {:induction false} GoodMarker(kind: Kind, item: Item)
    requires GoodItem(kind, item)
    ensures IsMarker(kind, item.marker) && IsItemText(kind, item.marker, item.text)
  {
    hide IsMarker, IsItemText;
  }

  lemma {:induction false} OpenedRuns(kind: Kind, result: string)
    requires IsList(kind)
    ensures Running(New(kind).(started := true, result := result))
  {
  }

  lemma {:induction false} TurnedRuns(b: Block, result: string)
    requires IsList(b.kind) && Running(b)
    ensures Running(b.(result := result, child := None))
  {
  }

  lemma {:induction false} ItemGlue(kind: Kind, init: seq<Item>, before: string, b0: Block, b1: Block, shown: string)
    requires before == ListStart(kind) + ItemsHtml(kind, init)
    requires init == [] ==> b1.result == ListStart(kind) + ItemStart(kind) + shown
    requires init != [] ==>
               && Combined(b0) + CloseInner(b0) + ItemEnd(kind) == before
               && b1.result == Combined(b0) + CloseInner(b0) + (ItemEnd(kind) + ItemStart(kind) + shown)
    ensures b1.result == before + (ItemStart(kind) + shown)
  {
    hide Combined, CloseInner, ItemEnd, ItemStart, ListStart;
    if init == [] {
      assert before == ListStart(kind);
      Regroup(before, ItemStart(kind), shown);
    } else {
      hide ItemsHtml;
      var all := Combined(b0) + CloseInner(b0);
      Regroup(ItemEnd(kind), ItemStart(kind), shown);
      Regroup(all, ItemEnd(kind), ItemStart(kind) + shown);
    }
  }

  lemma {:induction false} ItemHtmlGlue(kind: Kind, item: Item, before: string)
    ensures before + (ItemStart(kind) + Shown(kind, item.marker, item.text))
            + (Flatten(item.more) + NestedHtml(item.nested)) + ItemEnd(kind)
         == before + ItemHtml(kind, item)
  {
    hide ItemStart, ItemEnd, Shown, Flatten, NestedHtml;
    var start, shown, more, nested, end :=
      ItemStart(kind), Shown(kind, item.marker, item.text), Flatten(item.more), NestedHtml(item.nested), ItemEnd(kind);
    Regroup(shown, more, nested);
    Regroup(start, shown, more + nested);
    Regroup(before, start + shown, more + nested);
    Regroup(before, start + (shown + more + nested), end);
  }

  /** A whole tree through a new parser: what it has put out, with the closing tags it still owes, is
      the HTML of the tree. */
  lemma {:induction false} TreeFeed(t: Tree)
    requires GoodTree(t)
    ensures var b := Feed(New(t.kind), TreeLines(t));
            && b.kind == t.kind && Running(b) && Stays(New(t.kind), TreeLines(t))
            && Combined(b) + CloseAll(b) == TreeHtml(t)
    decreases t, 5
  {
    hide AddLine, Running, GoodItem, ItemsHtml, ItemsLines, ListStart, ListEnd, ItemEnd, Closer;
    ItemsFeed(t.kind, t.items);
    var b := Feed(New(t.kind), TreeLines(t));
    ClosersInLine(b);
    TagsAre(t.kind);
    Regroup(Combined(b) + CloseInner(b), ItemEnd(t.kind), ListEnd(t.kind));
  }

  // ----- whole documents -----

  function Document(lines: seq<string>): string {
    if lines == [] then "" else lines[0] + ("\n" + Document(lines[1..]))
  }

  lemma {:induction false} LinesOfDocument(lines: seq<string>)
    requires forall i | 0 <= i < |lines| :: '\n' !in lines[i]
    ensures Lines(Document(lines)) == lines
    decreases |lines|
  {
    hide LineEnd;
    if lines != [] {
      var rest := Document(lines[1..]);
      FirstLine(lines[0], rest);
      LinesOfDocument(lines[1..]);
      assert [lines[0]] + lines[1..] == lines;
    }
  }

  lemma {:induction false} OneOpenLine(last: string)
    requires '\n' !in last
    ensures Lines(last) == if last == "" then [] else [last]
  {
    if last != "" {
      assert LineEnd(last) == |last|;
      assert last[..|last|] == last && last[|last|..] == "";
    }
  }

  /** A last line counts without its newline too, if there is anything on it. */
  lemma {:induction false} OpenLastLine(lines: seq<string>, last: string)
    requires '\n' !in last && forall i | 0 <= i < |lines| :: '\n' !in lines[i]
    ensures Lines(Document(lines) + last) == lines + if last == "" then [] else [last]
    decreases |lines|
  {
    hide LineEnd, Lines;
    if lines == [] {
      assert "" + last == last;
      OneOpenLine(last);
    } else {
      var rest := Document(lines[1..]);
      Regroup(lines[0], "\n" + rest, last);
      Regroup("\n", rest, last);
      FirstLine(lines[0], rest + last);
      OpenLastLine(lines[1..], last);
      assert [lines[0]] + lines[1..] == lines;
    }
  }

  lemma {:induction false} FirstLine(line: string, rest: string)
    requires '\n' !in line
    ensures Lines(line + ("\n" + rest)) == [line] + Lines(rest)
  {
    var text := line + ("\n" + rest);
    var e := LineEnd(text);
    assert text[|line|] == '\n' && text[..|line|] == line;
    assert e == |line|;
    assert text[e + 1..] == rest;
  }

  lemma {:induction false} IndentedIsLine(lines: seq<string>)
    requires forall i | 0 <= i < |lines| :: '\n' !in lines[i]
    ensures forall i | 0 <= i < |Indented(lines)| :: '\n' !in Indented(lines)[i]
  {
  }

  lemma {:induction false} MarkerIsLine(kind: Kind, marker: string, text: string)
    requires IsMarker(kind, marker) && IsItemText(kind, marker, text)
    ensures '\n' !in marker + text
  {
  }

  lemma {:induction false} ItemIsLines(kind: Kind, item: Item)
    requires GoodItem(kind, item)
    ensures forall i | 0 <= i < |ItemLines(item)| :: '\n' !in ItemLines(item)[i]
    decreases item, 1
  {
    hide IsTextLine, IsMarker, IsItemText, Indented, ItemsLines;
    MarkerIsLine(kind, item.marker, item.text);
    assert forall i | 0 <= i < |item.more| :: item.more[i] in item.more;
    if item.nested.Some? {
      var t := item.nested.value;
      ItemsAreLines(t.kind, t.items);
      IndentedIsLine(TreeLines(t));
    }
  }

  lemma {:induction false} ItemsAreLines(kind: Kind, items: seq<Item>)
    requires forall item | item in items :: GoodItem(kind, item)
    ensures forall i | 0 <= i < |ItemsLines(items)| :: '\n' !in ItemsLines(items)[i]
    decreases items, 0
  {
    hide GoodItem, ItemLines;
    if items != [] {
      var init, last := items[..|items| - 1], items[|items| - 1];
      assert last in items && forall item | item in init :: item in items;
      ItemsAreLines(kind, init);
      ItemIsLines(kind, last);
    }
  }

  lemma {:induction false} DriverFeeds(kind: Kind, lines: seq<string>)
    requires lines != [] && BlockFor(lines[0]) == Some(kind) && Stays(New(kind), lines)
    ensures TakeLines(START, lines) == Driver("", Some(Feed(New(kind), lines)))
    decreases |lines|
  {
    hide AddLine, BlockFor, Running;
    var init, last := lines[..|lines| - 1], lines[|lines| - 1];
    if init == [] {
      assert Feed(New(kind), init) == New(kind) && TakeLines(START, init) == START;
      RunningIsOpen(Feed(New(kind), lines));
    } else {
      assert init[0] == lines[0];
      DriverFeeds(kind, init);
      RunningIsOpen(Feed(New(kind), lines));
    }
  }

  lemma {:induction false} RunningIsOpen(b: Block)
    requires Running(b)
    ensures !b.Done()
  {
  }

  /** A bullet with a box behind it, which at the start of a list makes it a checklist. */
  predicate IsBoxed(item: Item) {
    item.marker == "- " && ("[ ] " <= item.text || "[x] " <= item.text || "[|] " <= item.text)
  }

  lemma {:induction false} MarkerOpensBlock(kind: Kind, marker: string, text: string)
    requires IsList(kind) && IsMarker(kind, marker) && IsItemText(kind, marker, text)
    requires kind.Ordered? ==> marker == "1. "
    requires kind.Unordered? ==> !IsBoxed(Item(marker, text, [], None))
    ensures BlockFor(marker + text) == Some(kind)
  {
    hide IsItemText, IsUnorderedStart, IsOrderedItem, IsOrderedStart, IsChecklistStart, StripBullet, StripOrdered,
         StripMarker;
    NoOtherBlock(kind, marker, text);
    match kind {
      case Unordered => BulletLine(marker, text); BulletIsNoNumber(marker, text); BulletIsNoBox(marker, text);
      case Ordered => NumberLine(marker, text); NumberIsNoBox(text);
      case Checklist => BoxLine(marker, text);
    }
  }

  lemma {:induction false} NoOtherBlock(kind: Kind, marker: string, text: string)
    requires IsMarker(kind, marker)
    ensures var line := marker + text;
            line != "```" && !IsHeadlineStart(line) && line != "---" && !IsQuoteStart(line) && line != "|table>"
  {
    var line := marker + text;
    assert line[0] == marker[0] && line[1] == marker[1];
  }

  lemma {:induction false} BulletIsNoBox(marker: string, text: string)
    requires IsMarker(Unordered, marker) && !IsBoxed(Item(marker, text, [], None))
    ensures !IsChecklistStart(marker + text)
  {
    var line := marker + text;
    assert line[..2] == marker && line[2..] == text;
    if |line| >= 6 && "- [" <= line {
      assert forall i | 0 <= i < 4 :: text[i] == line[i + 2];
      assert line[0] == '-' && marker == "- ";
      BoxText(text);
    }
  }

  lemma {:induction false} BoxText(text: string)
    requires |text| >= 4 && !("[ ] " <= text) && !("[x] " <= text) && !("[|] " <= text)
    ensures !(text[0] == '[' && (text[1] == 'x' || text[1] == '|' || text[1] == ' ')
              && text[2] == ']' && text[3] == ' ')
  {
    var start := text[..4];
    assert text[..4] == [text[0], text[1], text[2], text[3]];
  }

  /** A marker with nothing behind it opens a list just as well, but ends one that runs. */
  lemma {:induction false} MarkerAloneOpens()
    ensures BlockFor("+ ") == Some(Unordered) && BlockFor("* ") == Some(Unordered) && BlockFor("- ") == Some(Unordered)
    ensures BlockFor("1. ") == Some(Ordered)
    ensures ListFor("+ ") == Some(Unordered) && ListFor("* ") == Some(Unordered) && ListFor("- ") == Some(Unordered)
    ensures ListFor("1. ") == Some(Ordered)
  {
    NoOtherBlock(Unordered, "+ ", "");
    NoOtherBlock(Unordered, "* ", "");
    NoOtherBlock(Unordered, "- ", "");
    NoOtherBlock(Ordered, "1. ", "");
    assert forall marker: string :: marker + "" == marker;
    hide IsHeadlineStart, IsQuoteStart;
  }

  lemma {:induction false} MarkerAloneEnds(b: Block, marker: string)
    requires IsList(b.kind) && Running(b)
    requires match b.kind
             case Unordered => marker == "+ " || marker == "* " || marker == "- "
             case Ordered => marker == "1. " || marker == "* " || marker == "1. * "
             case _ => marker == "- "
    ensures AddLine(b, marker).Done() && Combined(AddLine(b, marker)) == Combined(b) + CloseAll(b)
  {
    hide AddLine, Running, Combined, CloseAll;
    assert StripMarker(b.kind, marker) == "" && Indentation(marker) < 2 by { AloneStripped(b.kind, marker); }
    NoTextEndsList(b, marker);
  }

  lemma {:induction false} AloneStripped(kind: Kind, marker: string)
    requires IsList(kind)
    requires match kind
             case Unordered => marker == "+ " || marker == "* " || marker == "- "
             case Ordered => marker == "1. " || marker == "* " || marker == "1. * "
             case _ => marker == "- "
    ensures StripMarker(kind, marker) == "" && Indentation(marker) < 2
  {
    hide EMPTY_BOX_HTML, TICKED_BOX_HTML;
    assert "1. * "[3..] == "* " && "* "[2..] == "" && "1. "[3..] == "";
    assert !IsSpace(marker[0]);
  }

  lemma {:induction false} NumberIsNoBox(text: string)
    ensures !IsChecklistStart("1. " + text)
  {
    assert ("1. " + text)[0] == '1';
  }

  /** Main theorem: a document that is a tree of lists, with items of any kind and nested to any depth,
      renders to the HTML of that tree. */
  lemma {:induction false} TreeRenders(t: Tree)
    requires GoodTree(t) && (t.kind.Unordered? ==> !IsBoxed(t.items[0]))
    ensures Render(Document(TreeLines(t))) == TreeHtml(t)
  {
    hide AddLine, Running, GoodItem, ItemsLines, Combined, CloseAll, TreeHtml, BlockFor, IsMarker, IsItemText;
    var lines, first := TreeLines(t), t.items[0];
    assert first in t.items;
    GoodMarker(t.kind, first);
    TreeFeed(t);
    FirstOfLines(t.items);
    MarkerOpensBlock(t.kind, first.marker, first.text);
    ItemsAreLines(t.kind, t.items);
    LinesOfDocument(lines);
    DriverFeeds(t.kind, lines);
    var b := Feed(New(t.kind), lines);
    EmptyLine(b);
    EndedIsResult(AddLine(b, ""));
    assert "" + AddLine(b, "").result == AddLine(b, "").result;
  }

  lemma {:induction false} EndedIsResult(b: Block)
    requires b.child.None?
    ensures Combined(b) == b.result
  {
  }

  // ----- a flat list -----

  function Bullets(texts: seq<string>): seq<Item> {
    seq(|texts|, i requires 0 <= i < |texts| => Item("- ", texts[i], [], None))
  }

  function Prefixed(prefix: string, texts: seq<string>): seq<string> {
    seq(|texts|, i requires 0 <= i < |texts| => prefix + texts[i])
  }

  function Between(texts: seq<string>, separator: string): string {
    if texts == [] then ""
    else if |texts| == 1 then texts[0]
    else Between(texts[..|texts| - 1], separator) + separator + texts[|texts| - 1]
  }

  lemma {:induction false} BulletLines(texts: seq<string>)
    ensures ItemsLines(Bullets(texts)) == Prefixed("- ", texts)
    decreases |texts|
  {
    if texts != [] {
      var init, last := texts[..|texts| - 1], texts[|texts| - 1];
      BulletLines(init);
      assert Bullets(texts)[..|texts| - 1] == Bullets(init);
      assert ItemLines(Item("- ", last, [], None)) == ["- " + last];
    }
  }

  lemma {:induction false} BulletHtml(text: string)
    ensures ItemHtml(Unordered, Item("- ", text, [], None)) == "<li>" + text + "</li>"
  {
    assert text + "" + "" == text;
  }

  lemma {:induction false} BulletsHtml(texts: seq<string>)
    requires texts != []
    ensures ItemsHtml(Unordered, Bullets(texts)) == "<li>" + Between(texts, "</li><li>") + "</li>"
    decreases |texts|
  {
    hide ItemHtml;
    var init, last := texts[..|texts| - 1], texts[|texts| - 1];
    assert Bullets(texts)[..|texts| - 1] == Bullets(init);
    BulletHtml(last);
    if init == [] {
      assert ItemsHtml(Unordered, Bullets(init)) == "";
      assert "" + ("<li>" + last + "</li>") == "<li>" + last + "</li>";
    } else {
      BulletsHtml(init);
      assert "</li>" + "<li>" == "</li><li>";
      BulletGlue(Between(init, "</li><li>"), last);
    }
  }

  lemma {:induction false} BulletGlue(before: string, last: string)
    requires "</li>" + "<li>" == "</li><li>"
    ensures "<li>" + before + "</li>" + ("<li>" + last + "</li>") == "<li>" + (before + "</li><li>" + last) + "</li>"
  {
    var end := last + "</li>";
    Regroup("<li>", last, "</li>");
    Regroup("<li>" + before + "</li>", "<li>", end);
    Regroup("<li>" + before, "</li>", "<li>");
    Regroup("<li>", before, "</li><li>");
    Regroup("<li>", before + "</li><li>", last);
    Regroup("<li>" + (before + "</li><li>"), last, "</li>");
  }

  /** One dash to a line gives one item to a line. */
  lemma {:induction false} BulletsRender(texts: seq<string>)
    requires texts != [] && forall i | 0 <= i < |texts| :: IsItemText(Unordered, "- ", texts[i])
    requires !IsBoxed(Item("- ", texts[0], [], None))
    ensures Render(Document(Prefixed("- ", texts)))
         == "<ul>" + ("<li>" + Between(texts, "</li><li>") + "</li>") + "</ul>"
  {
    hide Render, Document, IsItemText, IsBoxed, ItemsHtml, ItemsLines;
    var t := Tree(Unordered, Bullets(texts));
    assert GoodTree(t);
    BulletLines(texts);
    BulletsHtml(texts);
    TreeRenders(t);
  }
}
