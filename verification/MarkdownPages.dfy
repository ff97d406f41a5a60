/** Documents of one block: which first line opens which block, and the HTML that comes out. */
module MarkdownPages {
  import opened Shared
  import opened Markup
  import opened MarkdownLines
  import opened MarkdownBlocks
  import opened MarkdownNesting
  import opened MarkdownSteps
  import opened MarkdownDocument
  import opened MarkdownTrees

  // ----- which line opens which block -----

  predicate IsLine(text: string) {
    '\n' !in text && '\r' !in text
  }

  /** A line that can only be text by its first character. */
  predicate IsTextStart(line: string) {
    && line != ""
    && line[0] != '`' && line[0] != '#' && line[0] != '-' && line[0] != '>' && line[0] != '|'
    && line[0] != '1' && line[0] != '+' && line[0] != '*'
  }

  lemma {:induction false} FixedStarts()
    ensures BlockFor("") == None
    ensures BlockFor("```") == Some(CodeBlock) && BlockFor("---") == Some(HorizontalLine)
    ensures BlockFor("|table>") == Some(Table)
  {
    assert HashCount("|table>") == 0 && HashCount("---") == 0 && HashCount("```") == 0;
  }

  /** One to six hash marks and a space. */
  predicate IsHashes(marks: string, level: nat) {
    match level
    case 1 => marks == "#"
    case 2 => marks == "##"
    case 3 => marks == "###"
    case 4 => marks == "####"
    case 5 => marks == "#####"
    case 6 => marks == "######"
    case _ => false
  }

  lemma {:induction false} HashesCounted(marks: string, rest: string)
    requires (forall i | 0 <= i < |marks| :: marks[i] == '#') && (rest == "" || rest[0] != '#')
    ensures HashCount(marks + rest) == |marks|
    decreases |marks|
  {
    if marks == "" {
      assert marks + rest == rest;
    } else {
      assert (marks + rest)[1..] == marks[1..] + rest;
      HashesCounted(marks[1..], rest);
    }
  }

  lemma {:induction false} HashesAre(marks: string, level: nat)
    requires IsHashes(marks, level)
    ensures |marks| == level && 1 <= level <= 6 && forall i | 0 <= i < |marks| :: marks[i] == '#'
  {
  }

  lemma {:induction false} HeadlineStarts(marks: string, level: nat, text: string)
    requires IsHashes(marks, level) && IsLine(text)
    ensures var line := marks + (" " + text);
            && BlockFor(line) == Some(Headline) && IsHeadlineStart(line)
            && HashCount(line) == level && line[level + 1..] == text
  {
    HashesAre(marks, level);
    var line := marks + (" " + text);
    hide IsHashes, HashCount;
    HashesCounted(marks, " " + text);
    assert line[level] == ' ' && line[level + 1..] == text && line[0] == '#';
  }

  /** A quote, and text. */
  lemma {:induction false} QuoteOrTextStarts(line: string)
    ensures IsLine(line) ==> BlockFor(">" + line) == Some(Quote)
    ensures IsTextStart(line) ==> BlockFor(line) == Some(Paragraph)
  {
    var quote := ">" + line;
    assert quote[0] == '>' && quote[1..] == line;
    assert HashCount(quote) == 0;
    if line != "" && line[0] != '#' { assert HashCount(line) == 0; }
  }

  /** Hash marks without a space behind them, or more than six, are text. */
  lemma {:induction false} HashMisses(c: char, text: string)
    requires c != ' ' && c != '#'
    ensures BlockFor("#" + ([c] + text)) == Some(Paragraph)
    ensures BlockFor("#######" + (" " + text)) == Some(Paragraph)
  {
    HashesCounted("#", [c] + text);
    HashesCounted("#######", " " + text);
    hide HashCount;
    StartsWithHash("#" + ([c] + text));
    StartsWithHash("#######" + (" " + text));
    assert ("#" + ([c] + text))[1] == c;
  }

  lemma {:induction false} StartsWithHash(line: string)
    requires line != "" && line[0] == '#'
    ensures BlockFor(line) == if IsHeadlineStart(line) then Some(Headline) else Some(Paragraph)
  {
  }

  /** So is an item marker without a space. */
  lemma {:induction false} MarkerMisses(mark: char, c: char, text: string)
    requires (mark == '-' || mark == '*' || mark == '+') && c != ' ' && c != '-'
    ensures BlockFor([mark] + ([c] + text)) == Some(Paragraph)
  {
    var line := [mark] + ([c] + text);
    assert line[0] == mark && line[1] == c;
    assert HashCount(line) == 0;
  }

  lemma {:induction false} NumberMisses(c: char, text: string)
    requires c != ' '
    ensures BlockFor("1." + ([c] + text)) == Some(Paragraph)
  {
    var line := "1." + ([c] + text);
    assert line[0] == '1' && line[2] == c;
    assert HashCount(line) == 0;
  }

  /** A carriage return behind a marker makes the line text. */
  lemma {:induction false} ReturnIsText(marker: string, text: string)
    requires marker == "- " || marker == "+ " || marker == "* " || marker == "1. "
    requires '\r' in text
    ensures BlockFor(marker + text) == Some(Paragraph)
  {
    hide IsChecklistStart, HashCount, IsOrderedStart;
    var line := marker + text;
    NoBoxWithReturn(marker, text);
    NoNumberWithReturn(marker, text);
    assert line[0] == marker[0] && line[1] == marker[1];
    assert |marker| == 2 ==> line[2..] == text;
    assert HashCount(line) == 0 by { NoHash(line); }
  }

  lemma {:induction false} NoHash(line: string)
    requires line == "" || line[0] != '#'
    ensures HashCount(line) == 0
  {
  }

  lemma {:induction false} NoNumberWithReturn(marker: string, text: string)
    requires marker == "- " || marker == "+ " || marker == "* " || marker == "1. "
    requires '\r' in text
    ensures !IsOrderedStart(marker + text)
  {
    var line := marker + text;
    assert line[0] == marker[0];
    assert |marker| == 3 ==> line[3..] == text;
  }

  lemma {:induction false} NoBoxWithReturn(marker: string, text: string)
    requires marker == "- " || marker == "+ " || marker == "* " || marker == "1. "
    requires '\r' in text
    ensures !IsChecklistStart(marker + text)
  {
    var line := marker + text;
    assert line[0] == marker[0];
    if |marker| == 2 && |text| >= 4 {
      assert line[6..] == text[4..] && forall k | 0 <= k < 4 :: text[k] == line[k + 2];
      assert text == text[..4] + text[4..];
    }
  }

  // ----- one block -----

  /** A block that opens and ends within the lines, or with the flush. */
  lemma {:induction false} OneBlock(kind: Kind, first: string)
    requires BlockFor(first) == Some(kind)
    ensures TakeLines(START, [first]) == Settle("", AddLine(New(kind), first))
  {
    hide AddLine, BlockFor;
    assert [first][..0] == [] && TakeLines(START, []) == START;
  }

  lemma {:induction false} RenderedIs(lines: seq<string>)
    requires forall i | 0 <= i < |lines| :: '\n' !in lines[i]
    ensures Render(Document(lines)) == Flush(TakeLines(START, lines)).result
  {
    hide TakeLines, Flush;
    LinesOfDocument(lines);
  }

  lemma {:induction false} HeadlineRenders(marks: string, level: nat, text: string)
    requires IsHashes(marks, level) && IsLine(text)
    ensures Render(Document([marks + (" " + text)])) == Element("h" + ["0123456"[level]], text)
  {
    hide AddLine, BlockFor, IsHashes, ReplaceHeadlines, HashCount, Element, IsHeadlineStart;
    var line := marks + (" " + text);
    HeadlineStarts(marks, level, text);
    HashesAre(marks, level);
    RenderedIs([line]);
    OneBlock(Headline, line);
    LeafStep(New(Headline), line);
    HeadlineRounds(line, 6);
    assert "0123456"[level] == "0123456789"[level];
    var html := Element(HeadlineTag(level), text);
    assert "" + html == html;
  }

  /** One round leaves what stands behind a carriage return where it is. */
  lemma {:induction false} HeadlineStopsAtReturn(marks: string, level: nat, text: string, rest: string)
    requires IsHashes(marks, level) && IsLine(text)
    ensures ReplaceHeadline(marks + (" " + (text + ("\r" + rest))), level) ==
            Element(HeadlineTag(level), text) + ("\r" + rest)
  {
    var behind := text + ("\r" + rest);
    var line := marks + (" " + behind);
    HashesAre(marks, level);
    hide IsHashes, HashCount, Element, TerminatorAt, HeadlineTag;
    HashesCounted(marks, " " + behind);
    assert line[level] == ' ' && line[level + 1..] == behind;
    var e := TerminatorAt(behind);
    assert behind[|text|] == '\r' && behind[..|text|] == text && behind[|text|..] == "\r" + rest;
    assert e == |text| by { TerminatorFound(behind, |text|); }
  }

  lemma {:induction false} TerminatorFound(s: string, n: nat)
    requires n < |s| && s[n] == '\r' && OneLine(s[..n])
    ensures TerminatorAt(s) == n
    decreases n
  {
    if n > 0 {
      assert s[..n][0] == s[0] && s[..n][1..] == s[1..][..n - 1];
      TerminatorFound(s[1..], n - 1);
    }
  }

  lemma {:induction false} RuleRenders()
    ensures Render(Document(["---"])) == "<hr/>"
  {
    hide AddLine, BlockFor;
    FixedStarts();
    RenderedIs(["---"]);
    OneBlock(HorizontalLine, "---");
    LeafStep(New(HorizontalLine), "---");
    assert "" + "<hr/>" == "<hr/>";
  }

  /** Every line with the same end. */
  function Ended(lines: seq<string>, end: string): string {
    if lines == [] then "" else Ended(lines[..|lines| - 1], end) + (lines[|lines| - 1] + end)
  }

  lemma {:induction false} TextTaken(start: string, lines: seq<string>)
    requires start != "" && IsTextStart(start) && "" !in lines
    ensures TakeLines(START, [start] + lines) ==
            Driver("", Some(New(Paragraph).(started := true, result := "<p>" + start + " " + Ended(lines, " "))))
    decreases |lines|
  {
    hide AddLine, BlockFor;
    if lines == [] {
      assert [start] + lines == [start];
      QuoteOrTextStarts(start);
      OneBlock(Paragraph, start);
      LeafStep(New(Paragraph), start);
      assert "" + ("<p>" + start + " ") == "<p>" + start + " " + "";
    } else {
      var init, last := lines[..|lines| - 1], lines[|lines| - 1];
      assert last in lines && forall line | line in init :: line in lines;
      TextTaken(start, init);
      assert ([start] + lines)[..|lines|] == [start] + init;
      var b := New(Paragraph).(started := true, result := "<p>" + start + " " + Ended(init, " "));
      LeafStep(b, last);
      Regroup("<p>" + start + " ", Ended(init, " "), last + " ");
    }
  }

  /** A paragraph takes every line up to the first empty one, whatever it starts with. */
  lemma {:induction false} ParagraphRenders(start: string, lines: seq<string>)
    requires start != "" && IsTextStart(start) && "" !in lines
    requires '\n' !in start && forall i | 0 <= i < |lines| :: '\n' !in lines[i]
    ensures Render(Document([start] + lines)) == "<p>" + start + " " + Ended(lines, " ") + "</p>"
  {
    hide AddLine, IsTextStart, Document;
    TextTaken(start, lines);
    RenderedIs([start] + lines);
    var b := New(Paragraph).(started := true, result := "<p>" + start + " " + Ended(lines, " "));
    LeafStep(b, "");
    assert "" + "</p>" == "</p>";
    assert "" + (b.result + "</p>") == b.result + "</p>";
  }

  lemma {:induction false} CodeTaken(lines: seq<string>)
    requires "```" !in lines
    ensures TakeLines(START, ["```"] + lines) ==
            Driver("", Some(New(CodeBlock).(started := true, result := "<pre><code>\n" + Ended(lines, "\n"))))
    decreases |lines|
  {
    hide AddLine, BlockFor;
    if lines == [] {
      assert ["```"] + lines == ["```"];
      FixedStarts();
      OneBlock(CodeBlock, "```");
      LeafStep(New(CodeBlock), "```");
      assert "" + "<pre><code>\n" == "<pre><code>\n" + "";
    } else {
      var init, last := lines[..|lines| - 1], lines[|lines| - 1];
      assert last in lines && forall line | line in init :: line in lines;
      CodeTaken(init);
      assert (["```"] + lines)[..|lines|] == ["```"] + init;
      var b := New(CodeBlock).(started := true, result := "<pre><code>\n" + Ended(init, "\n"));
      LeafStep(b, last);
      Regroup("<pre><code>\n", Ended(init, "\n"), last + "\n");
    }
  }

  /** Code is every line between the fences, as it stands. */
  lemma {:induction false} CodeRenders(lines: seq<string>)
    requires "```" !in lines && forall i | 0 <= i < |lines| :: '\n' !in lines[i]
    ensures Render(Document(["```"] + lines + ["```"])) == "<pre><code>\n" + Ended(lines, "\n") + "</code></pre>"
  {
    hide AddLine, Document;
    CodeTaken(lines);
    var all := ["```"] + lines + ["```"];
    RenderedIs(all);
    assert all[..|all| - 1] == ["```"] + lines;
    var b := New(CodeBlock).(started := true, result := "<pre><code>\n" + Ended(lines, "\n"));
    LeafStep(b, "```");
    assert "" + (b.result + "</code></pre>") == b.result + "</code></pre>";
  }

  /** A quote of one line, ended by an empty one: its text is a paragraph. */
  lemma {:induction false} QuoteRenders(text: string)
    requires IsTextStart(text) && IsLine(text)
    ensures Render(Document(["> " + text, ""])) ==
            "<blockquote>" + ("<p>" + (text + " ") + " " + "</p>") + "</blockquote>"
  {
    hide AddLine, BlockFor, IsTextStart, Document;
    var line := "> " + text;
    RenderedIs([line, ""]);
    QuoteOpens(text);
    OneBlock(Quote, line);
    var b := New(Quote).(started := true, result := "<blockquote>");
    var c := New(Paragraph).(started := true, result := "<p>" + (text + " ") + " ");
    QuoteTakes(text);
    assert [line, ""][..1] == [line];
    assert TakeLines(START, [line]) == Driver("", Some(b.(child := Some(c))));
    ParagraphRuns(c);
    var b1 := b.(child := Some(c));
    EmptyLineInQuote(b1);
    assert TakeLines(START, [line, ""]) == TakeLine(TakeLines(START, [line]), "");
    var b2 := b.(result := "<blockquote>" + c.result + "</p>");
    assert AddLine(b1, "") == b2;
    ChainStep(b2, "");
    assert ParseBlock(b2, "") == (b2, "");
    assert AddLine(b2, "") == b2.(result := b2.result + "</blockquote>" + "", finished := true) by { NoneFor(); }
    Regroup("<blockquote>", c.result, "</p>");
    assert b2.result + "</blockquote>" + "" == b2.result + "</blockquote>";
    assert "" + (b2.result + "</blockquote>") == b2.result + "</blockquote>";
  }

  /** A quote mark goes with the space behind it; after a space a second mark goes too. */
  lemma {:induction false} QuoteMarkGoes(text: string)
    ensures (text == "" || text[0] != ' ') ==> StripQuote(">" + text) == text
    ensures (text == "" || text[0] != '>') ==> StripQuote("> " + text) == text
    ensures StripQuote("> >" + text) == text
  {
    var bare, spaced, twice := ">" + text, "> " + text, "> >" + text;
    assert bare[1..] == text && spaced[2..] == text && twice[2..] == ">" + text;
    assert text != "" ==> bare[1] == text[0];
  }

  lemma {:induction false} NoneFor()
    ensures BlockFor("") == None
  {
  }

  lemma {:induction false} QuoteOpens(text: string)
    requires IsLine(text)
    ensures BlockFor("> " + text) == Some(Quote)
  {
    hide BlockFor;
    assert "> " + text == ">" + (" " + text);
    QuoteOrTextStarts(" " + text);
  }

  lemma {:induction false} ParagraphRuns(c: Block)
    requires c.kind.Paragraph? && c.started && !c.finished && c.child.None? && c.grid == EMPTY_GRID
    ensures forall result :: Running(New(Quote).(started := true, result := result, child := Some(c)))
  {
  }

  lemma {:induction false} QuoteTakes(text: string)
    requires IsTextStart(text) && IsLine(text)
    ensures var c := New(Paragraph).(started := true, result := "<p>" + (text + " ") + " ");
            AddLine(New(Quote), "> " + text) ==
            New(Quote).(started := true, result := "<blockquote>", child := Some(c))
  {
    hide AddLine, BlockFor;
    var line := "> " + text;
    ChainStep(New(Quote), line);
    assert line[2..] == text;
    assert StripPrefix(text, ">") == text by { assert text[0] != '>'; }
    assert StripQuote(line) == text;
    assert Prepare(New(Quote), line).1 == text + " ";
    assert (text + " ")[0] == text[0];
    QuoteOrTextStarts(text + " ");
    LeafStep(New(Paragraph), text + " ");
    assert "" + ("<p>" + (text + " ") + " ") == "<p>" + (text + " ") + " ";
    assert "" + "<blockquote>" == "<blockquote>";
  }
}
