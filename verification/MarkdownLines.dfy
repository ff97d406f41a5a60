/** Tests and rewrites on single lines: what the block-level regular expressions denote. */
module MarkdownLines {
  import opened Shared

  const EMPTY_BOX := "[ ]"
  const TICKED_BOX := "[x]"
  const BOX_INPUT := "input type=\"checkbox\""
  const TICKED_ATTRIBUTE := " checked=\"checked\""
  const EMPTY_BOX_HTML := "<" + BOX_INPUT + "/>"
  const TICKED_BOX_HTML := "<" + (BOX_INPUT + TICKED_ATTRIBUTE) + "/>"

  /** What `.*` matches: a run of characters without a line terminator. */
  predicate OneLine(s: string) {
    '\n' !in s && '\r' !in s
  }

  /** `std::string::find` did not return `npos`. */
  predicate Contains(s: string, pattern: string) {
    exists i | 0 <= i <= |s| - |pattern| :: pattern <= s[i..]
  }

  /** The number of leading white space characters. */
  function Indentation(line: string): (n: nat)
    ensures n <= |line|
    ensures forall i | 0 <= i < n :: IsSpace(line[i])
    ensures n < |line| ==> !IsSpace(line[n])
  {
    if line == "" || !IsSpace(line[0]) then 0 else 1 + Indentation(line[1..])
  }

  predicate BulletPrefix(line: string) {
    "+ " <= line || "* " <= line || "- " <= line
  }

  predicate IsUnorderedStart(line: string) {
    BulletPrefix(line) && OneLine(line[2..])
  }

  predicate IsOrderedStart(line: string) {
    "1. " <= line && OneLine(line[3..])
  }

  /** Inside an ordered list a star starts an item as well. */
  predicate IsOrderedItem(line: string) {
    IsOrderedStart(line) || ("* " <= line && OneLine(line[2..]))
  }

  predicate IsChecklistStart(line: string) {
    && |line| >= 6 && "- [" <= line
    && (line[3] == 'x' || line[3] == '|' || line[3] == ' ')
    && line[4] == ']' && line[5] == ' ' && OneLine(line[6..])
  }

  predicate IsQuoteStart(line: string) {
    ">" <= line && OneLine(line[1..])
  }

  /** The number of `#` the line starts with. */
  function HashCount(line: string): (n: nat)
    ensures n <= |line|
    ensures forall i | 0 <= i < n :: line[i] == '#'
    ensures n < |line| ==> line[n] != '#'
  {
    if line == "" || line[0] != '#' then 0 else 1 + HashCount(line[1..])
  }

  /** The line is `level` hashes, a space and text. */
  predicate HasHeadline(line: string, level: nat) {
    HashCount(line) == level && level < |line| && line[level] == ' '
  }

  /** Where `.*` stops: the first line terminator, or the length. */
  function TerminatorAt(s: string): (e: nat)
    ensures e <= |s|
    ensures OneLine(s[..e])
    ensures e < |s| ==> s[e] == '\n' || s[e] == '\r'
  {
    if s == "" || s[0] == '\n' || s[0] == '\r' then 0 else 1 + TerminatorAt(s[1..])
  }

  predicate IsHeadlineStart(line: string) {
    var n := HashCount(line);
    1 <= n <= 6 && HasHeadline(line, n) && OneLine(line[n + 1..])
  }

  function StripPrefix(line: string, prefix: string): string {
    if prefix <= line then line[|prefix|..] else line
  }

  function StripBullet(line: string): string {
    if BulletPrefix(line) then line[2..] else line
  }

  function StripOrdered(line: string): string {
    StripPrefix(StripPrefix(line, "1. "), "* ")
  }

  /** The quote marker goes in two passes: first with its space, then without. */
  function StripQuote(line: string): string {
    StripPrefix(StripPrefix(line, "> "), ">")
  }

  /** A box at the start of the line becomes an input element. */
  function ReplaceBox(line: string): string {
    var l := if EMPTY_BOX <= line then EMPTY_BOX_HTML + line[3..] else line;
    if TICKED_BOX <= l then TICKED_BOX_HTML + l[3..] else l
  }

  /** `std::getline` until the stream is exhausted: no last empty line after a final newline. */
  function Lines(text: string): seq<string> {
    if text == "" then []
    else
      var e := LineEnd(text);
      [text[..e]] + Lines(text[if e < |text| then e + 1 else e..])
  }

  /** The position of the first newline, or the length. */
  function LineEnd(text: string): (e: nat)
    ensures e <= |text|
    ensures '\n' !in text[..e]
    ensures e < |text| ==> text[e] == '\n'
  {
    if text == "" || text[0] == '\n' then 0 else 1 + LineEnd(text[1..])
  }

  /** `std::getline` on `|`, until the stream is exhausted. */
  function Segments(line: string): seq<string> {
    if line == "" then []
    else
      var e := BarAt(line);
      [line[..e]] + Segments(line[if e < |line| then e + 1 else e..])
  }

  function BarAt(line: string): (e: nat)
    ensures e <= |line|
    ensures '|' !in line[..e]
    ensures e < |line| ==> line[e] == '|'
  {
    if line == "" || line[0] == '|' then 0 else 1 + BarAt(line[1..])
  }
}
