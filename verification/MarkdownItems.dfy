/** Which lines start an item, said with the markers themselves, and what lists written as indented
    lines render to: every tree of lists comes out as that tree of HTML elements. */
module MarkdownItems {
  import opened Shared
  import opened Markup
  import opened MarkdownLines
  import opened MarkdownBlocks
  import opened MarkdownNesting

  // ----- items -----

  /** What an item of a list can start with. */
  predicate IsMarker(kind: Kind, marker: string) {
    match kind
    case Unordered => marker == "+ " || marker == "* " || marker == "- "
    case Ordered => marker == "1. " || marker == "* "
    case Checklist => marker == "- [ ] " || marker == "- [x] " || marker == "- [|] "
    case _ => false
  }

  /** Text of one line behind a marker, with no further marker that would go as well. */
  predicate IsItemText(kind: Kind, marker: string, text: string) {
    && '<' !in text && '\n' !in text && '\r' !in text
    && (text != "" || kind.Checklist?)
    && (kind.Ordered? && marker == "1. " ==> !("* " <= text))
  }

  /** What an item shows: its text, in a checklist behind a box. */
  function Shown(kind: Kind, marker: string, text: string): string {
    if !kind.Checklist? then text
    else if marker == "- [ ] " then "<" + "input type=\"checkbox\"" + "/>" + (" " + text)
    else if marker == "- [x] " then "<" + ("input type=\"checkbox\"" + " checked=\"checked\"") + "/>" + (" " + text)
    else "[|] " + text
  }

  function ListStart(kind: Kind): string {
    if kind.Ordered? then "<ol>" else if kind.Unordered? then "<ul>" else "<ul class=\"checklist\">"
  }

  function ListEnd(kind: Kind): string {
    if kind.Ordered? then "</ol>" else "</ul>"
  }

  function ItemStart(kind: Kind): string {
    if kind.Checklist? then "<li><label>" else "<li>"
  }

  function ItemEnd(kind: Kind): string {
    if kind.Checklist? then "</label></li>" else "</li>"
  }

  lemma {:induction false} TagsAre(kind: Kind)
    requires IsList(kind)
    ensures Opener(kind) == ListStart(kind) + ItemStart(kind)
    ensures NextItem(kind) == ItemEnd(kind) + ItemStart(kind)
    ensures Closer(kind) == ItemEnd(kind) + ListEnd(kind)
  {
    if kind.Checklist? { ChecklistTags(); LabelTags(); } else { ItemTags(kind); }
  }

  lemma {:induction false} ItemTags(kind: Kind)
    requires kind.Unordered? || kind.Ordered?
    ensures Opener(kind) == ListStart(kind) + "<li>"
    ensures NextItem(kind) == "</li>" + "<li>"
    ensures Closer(kind) == "</li>" + ListEnd(kind)
  {
  }

  lemma {:induction false} ChecklistTags()
    ensures Opener(Checklist) == ListStart(Checklist) + "<li><label>"
  {
  }

  lemma {:induction false} LabelTags()
    ensures NextItem(Checklist) == "</label></li>" + "<li><label>"
    ensures Closer(Checklist) == "</label></li>" + "</ul>"
  {
  }

  lemma {:induction false} BoxesAre()
    ensures EMPTY_BOX_HTML == "<" + "input type=\"checkbox\"" + "/>"
    ensures TICKED_BOX_HTML == "<" + ("input type=\"checkbox\"" + " checked=\"checked\"") + "/>"
  {
  }

  lemma {:induction false} BulletLine(marker: string, text: string)
    requires IsMarker(Unordered, marker) && IsItemText(Unordered, marker, text)
    ensures var line := marker + text;
            IsUnorderedStart(line) && Indentation(line) == 0 && StripBullet(line) == text
  {
    var line := marker + text;
    assert line[..2] == marker && line[2..] == text;
    assert line[0] == marker[0] && line[1] == marker[1];
  }

  lemma {:induction false} NumberLine(marker: string, text: string)
    requires IsMarker(Ordered, marker) && IsItemText(Ordered, marker, text)
    ensures var line := marker + text;
            && IsOrderedItem(line) && Indentation(line) == 0 && StripOrdered(line) == text
            && (marker == "1. " ==> IsOrderedStart(line))
  {
    var line := marker + text;
    assert line[..|marker|] == marker && line[|marker|..] == text;
    assert line[0] == marker[0] && line[1] == marker[1];
  }

  lemma {:induction false} BoxLine(marker: string, text: string)
    requires IsMarker(Checklist, marker) && IsItemText(Checklist, marker, text)
    ensures var line := marker + text;
            IsChecklistStart(line) && Indentation(line) == 0
            && StripMarker(Checklist, line) == Shown(Checklist, marker, text)
  {
    BoxLineStarts(marker, text);
    hide EMPTY_BOX_HTML, TICKED_BOX_HTML, ReplaceBox, IsChecklistStart, StripPrefix, Indentation;
    BoxesAre();
    var box := if marker == "- [ ] " then EMPTY_BOX else if marker == "- [x] " then TICKED_BOX else "[|]";
    BoxCut(marker, box, text);
    BoxReplaced(box, " " + text);
    assert "[|]" + (" " + text) == "[|] " + text;
  }

  lemma {:induction false} BoxLineStarts(marker: string, text: string)
    requires IsMarker(Checklist, marker) && IsItemText(Checklist, marker, text)
    ensures IsChecklistStart(marker + text) && Indentation(marker + text) == 0
  {
    var line := marker + text;
    assert line[..6] == marker && line[6..] == text;
    assert forall i | 0 <= i < 6 :: line[i] == marker[i];
  }

  lemma {:induction false} BoxCut(marker: string, box: string, text: string)
    requires |marker| == 6 && |box| == 3
    requires marker == "- [ ] " ==> box == EMPTY_BOX
    requires marker == "- [x] " ==> box == TICKED_BOX
    requires marker == "- [|] " ==> box == "[|]"
    requires IsMarker(Checklist, marker)
    ensures StripPrefix(marker + text, "- ") == box + (" " + text)
  {
    assert marker == "- " + (box + " ");
    assert marker + text == "- " + (box + (" " + text));
    assert ("- " + (box + (" " + text)))[2..] == box + (" " + text);
  }

  lemma {:induction false} BoxReplaced(box: string, rest: string)
    requires box == EMPTY_BOX || box == TICKED_BOX || box == "[|]"
    ensures ReplaceBox(box + rest) == if box == EMPTY_BOX then EMPTY_BOX_HTML + rest
                                      else if box == TICKED_BOX then TICKED_BOX_HTML + rest
                                      else box + rest
  {
    hide EMPTY_BOX_HTML, TICKED_BOX_HTML, ReplaceBox;
    var line := box + rest;
    assert line[..3] == box && line[3..] == rest && line[1] == box[1];
    if box == EMPTY_BOX {
      BoxFirst(line, EMPTY_BOX_HTML);
    } else if box == TICKED_BOX {
      BoxFirst(line, TICKED_BOX_HTML);
    } else {
      NoBoxStripped(line);
    }
  }

  lemma {:induction false} BoxFirst(line: string, html: string)
    requires (EMPTY_BOX <= line && html == EMPTY_BOX_HTML) || (TICKED_BOX <= line && html == TICKED_BOX_HTML)
    ensures ReplaceBox(line) == html + line[3..]
  {
    hide EMPTY_BOX_HTML, TICKED_BOX_HTML;
    BoxHtmlIs(EMPTY_BOX_HTML);
    var boxed := EMPTY_BOX_HTML + line[3..];
    assert boxed[0] == '<' != TICKED_BOX[0];
    assert EMPTY_BOX <= line ==> line[1] == EMPTY_BOX[1];
    assert TICKED_BOX <= line ==> line[1] == TICKED_BOX[1];
  }

  lemma {:induction false} ShownIsQuiet(kind: Kind, marker: string, text: string)
    requires IsList(kind) && IsMarker(kind, marker) && IsItemText(kind, marker, text)
    ensures Quiet(kind, Shown(kind, marker, text)) && Shown(kind, marker, text) != ""
  {
    hide EMPTY_BOX_HTML, TICKED_BOX_HTML, HasBoxHtml, Bare;
    BoxesAre();
    if kind.Checklist? {
      assert Plain(" " + text);
      BoxHtmlBare(EMPTY_BOX_HTML, " " + text);
      BoxHtmlBare(TICKED_BOX_HTML, " " + text);
      assert Plain("[|] " + text) by { TextAfterBar(text); }
    }
  }

  lemma {:induction false} TextAfterBar(text: string)
    requires Plain(text)
    ensures Plain("[|] " + text)
  {
  }

  /** A marker and text start an item, and the marker goes. */
  lemma {:induction false} MarkedLine(kind: Kind, marker: string, text: string)
    requires IsList(kind) && IsMarker(kind, marker) && IsItemText(kind, marker, text)
    ensures var line, s := marker + text, Shown(kind, marker, text);
            && StartsItem(kind, line) && Indentation(line) == 0 && StripMarker(kind, line) == s
            && s != "" && !HasCloser(kind, s)
  {
    hide IsMarker, IsItemText, StripBullet, StripOrdered, IsUnorderedStart, IsOrderedItem, IsChecklistStart;
    hide HasCloser, ReplaceBox, StripPrefix;
    ShownIsQuiet(kind, marker, text);
    QuietHasNoCloser(kind, Shown(kind, marker, text));
    match kind {
      case Unordered => BulletLine(marker, text);
      case Ordered => NumberLine(marker, text);
      case Checklist => BoxLine(marker, text);
    }
  }

  /** In a running list such a line ends all that is nested and starts the next item. */
  lemma {:induction false} MarkerStartsItem(b: Block, marker: string, text: string)
    requires IsList(b.kind) && Running(b) && IsMarker(b.kind, marker) && IsItemText(b.kind, marker, text)
    ensures AddLine(b, marker + text) ==
            b.(result := Combined(b) + CloseInner(b)
                         + (ItemEnd(b.kind) + ItemStart(b.kind) + Shown(b.kind, marker, text)),
               child := None)
  {
    hide AddLine, IsMarker, IsItemText, StartsItem, StripMarker, Shown, HasCloser, Indentation, ItemEnd, ItemStart;
    hide NextItem, Closer, Opener, ClosingLine, Combined, CloseInner, ListStart, ListEnd;
    var line, s := marker + text, Shown(b.kind, marker, text);
    MarkedLine(b.kind, marker, text);
    TagsAre(b.kind);
    assert ParseListLine(b, line) == (b, NextItem(b.kind) + s);
    TagFirst(b.kind, s);
    if b.child.Some? { CloserClosesAgain(b.kind, b.child.value.kind, s); }
    TurnStep(b, line);
  }

  /** The first line of a list. */
  lemma {:induction false} MarkerOpensList(kind: Kind, marker: string, text: string)
    requires IsList(kind) && IsMarker(kind, marker) && IsItemText(kind, marker, text)
    ensures AddLine(New(kind), marker + text) ==
            New(kind).(started := true, result := ListStart(kind) + ItemStart(kind) + Shown(kind, marker, text))
  {
    hide AddLine, IsMarker, IsItemText, StripMarker, Shown, Opener, NextItem, Closer, ListStart, ItemStart;
    MarkedLine(kind, marker, text);
    TagsAre(kind);
    FreshTurn(New(kind), marker + text);
  }

  // ----- lines without a marker -----

  predicate IsWhite(c: char) {
    c == ' ' || c == '\t'
  }

  /** Text without a marker and with less than two characters of white space in front. */
  predicate IsTextLine(line: string) {
    && line != "" && '<' !in line
    && !("+ " <= line) && !("* " <= line) && !("- " <= line) && !("1. " <= line)
    && !("[ ]" <= line) && !("[x]" <= line)
    && (|line| >= 2 ==> !(IsSpace(line[0]) && IsSpace(line[1])))
  }

  lemma {:induction false} ShortIndentation(line: string)
    requires |line| >= 2 ==> !(IsSpace(line[0]) && IsSpace(line[1]))
    ensures Indentation(line) < 2
  {
  }

  lemma {:induction false} TextLineKept(kind: Kind, line: string)
    requires IsList(kind) && IsTextLine(line)
    ensures Indentation(line) < 2 && !StartsItem(kind, line) && StripMarker(kind, line) == line
    ensures line != "" && !HasCloser(kind, line) && ChildFor(kind, line).None?
  {
    hide HasCloser, Indentation, EMPTY_BOX_HTML, TICKED_BOX_HTML, ReplaceBox;
    ShortIndentation(line);
    QuietHasNoCloser(kind, line);
    NoBoxStripped(line);
  }

  /** It is added to the innermost item, however deep that is, and nothing starts or ends. */
  lemma {:induction false} TextJoinsItem(b: Block, line: string)
    requires IsList(b.kind) && Running(b) && IsTextLine(line)
    ensures var b' := AddLine(b, line);
            && b'.kind == b.kind && Running(b') && Combined(b') == Combined(b) + line && OpenTags(b') == OpenTags(b)
            && (b.child.None? ==> b' == b.(result := b.result + line))
    decreases Depth(b)
  {
    hide AddLine, IsTextLine, StripMarker, StartsItem, HasCloser, Indentation, ChildFor, Closer, NextItem, Opener;
    TextLineKept(b.kind, line);
    assert ParseListLine(b, line) == (b, line);
    ListStep(b, line);
    ChainStep(b, line);
    if b.child.Some? {
      TextJoinsItem(b.child.value, line);
      Regroup(b.result, Combined(b.child.value), line);
    }
  }

  /** Two characters of white space hand the rest of the line to what is nested, which may start here. */
  lemma {:induction false} IndentedGoesInside(b: Block, first: char, second: char, line: string)
    requires IsList(b.kind) && Running(b) && IsWhite(first) && IsWhite(second)
    ensures b.child.Some? ==> AddLine(b, [first, second] + line) == Absorb(b, AddLine(b.child.value, line))
    ensures b.child.None? && ChildFor(b.kind, line).Some? ==>
              AddLine(b, [first, second] + line) == Absorb(b, AddLine(New(ChildFor(b.kind, line).value), line))
  {
    hide AddLine, StripMarker, StartsItem, HasCloser, ChildFor, Closer, NextItem, Opener, Absorb;
    var whole := [first, second] + line;
    assert whole[0] == first && whole[1] == second && whole[2..] == line;
    assert whole[1..][0] == second;
    assert Indentation(whole) >= 2;
    IndentedKeepsMarker(b.kind, whole);
    assert ParseListLine(b, whole) == (b, line);
    ListStep(b, whole);
    ChainStep(b, whole);
  }

  /** A marker with a carriage return anywhere behind it starts no item: the marker goes all the same,
      and the text joins the open item. */
  lemma {:induction false} ReturnJoinsItem(b: Block, marker: string, text: string)
    requires IsItemList(b.kind) && Running(b) && b.child.None?
    requires IsMarker(b.kind, marker) && '\r' in text && IsTextLine(text)
    ensures AddLine(b, marker + text) == b.(result := b.result + text)
  {
    hide AddLine, IsTextLine, StripMarker, StartsItem, HasCloser, Indentation, ChildFor, Closer, NextItem, Opener;
    hide IsMarker, Running;
    TextLineKept(b.kind, text);
    ReturnIsNoItem(b.kind, marker, text);
    var line := marker + text;
    assert ParseListLine(b, line) == (b, text) by { IsStarted(b); }
    ListStep(b, line);
    ChainStep(b, line);
  }

  lemma {:induction false} IsStarted(b: Block)
    requires Running(b)
    ensures b.started
  {
  }

  lemma {:induction false} ReturnIsNoItem(kind: Kind, marker: string, text: string)
    requires IsItemList(kind) && IsMarker(kind, marker) && '\r' in text && IsTextLine(text)
    ensures var line := marker + text;
            !StartsItem(kind, line) && Indentation(line) == 0 && StripMarker(kind, line) == text
  {
    var line := marker + text;
    assert line[..|marker|] == marker && line[|marker|..] == text;
    assert line[0] == marker[0] && line[1] == marker[1];
  }
}
