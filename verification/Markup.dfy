/** The reader used to judge rendered HTML: it walks over a string one character at a time,
    keeps the stack of open tags and collects the text that stands outside tags.
    Everything said about nesting and about kept text is said through `Run`. */
module Markup {

  /** `open` is the stack of open tag names, innermost last; `text` is the text met so far. */
  datatype Reader =
    | Outside(open: seq<string>, text: string)
    | InTag(open: seq<string>, text: string, tag: string)
    | Mismatch

  /** The part of a tag before its attributes. */
  function NameOf(tag: string): string {
    if tag == "" || tag[0] == ' ' then "" else [tag[0]] + NameOf(tag[1..])
  }

  /** A complete tag: `/x` must close the innermost open tag, `x/` stands alone, `x` opens. */
  function Apply(open: seq<string>, text: string, tag: string): Reader {
    if tag == "" then Mismatch
    else if tag[0] == '/' then
      if open != [] && open[|open| - 1] == tag[1..] then Outside(open[..|open| - 1], text) else Mismatch
    else if tag[|tag| - 1] == '/' then Outside(open, text)
    else Outside(open + [NameOf(tag)], text)
  }

  function Step(r: Reader, c: char): Reader {
    match r
    case Outside(open, text) => if c == '<' then InTag(open, text, "") else Outside(open, text + [c])
    case InTag(open, text, tag) =>
      if c == '>' then Apply(open, text, tag)
      else if c == '<' then Mismatch
      else InTag(open, text, tag + [c])
    case Mismatch => Mismatch
  }

  function Run(r: Reader, s: string): Reader
    decreases |s|, r
  {
    if s == "" then r else Run(Step(r, s[0]), s[1..])
  }

  /** A string is well nested when it opens and closes its tags in stack order and leaves none open. */
  predicate WellNested(s: string) {
    var r := Run(Outside([], ""), s);
    r.Outside? && r.open == []
  }

  /** Text a user wrote: free of `<`. A `>` is allowed. */
  predicate Plain(s: string) {
    '<' !in s
  }

  lemma {:induction false} RunNothing(r: Reader)
    ensures Run(r, "") == r
  {
  }

  lemma {:induction false} RunConcat(r: Reader, a: string, b: string)
    ensures Run(r, a + b) == Run(Run(r, a), b)
    decreases |a|
  {
    if a == "" {
      assert a + b == b;
    } else {
      assert (a + b)[1..] == a[1..] + b;
      RunConcat(Step(r, a[0]), a[1..], b);
    }
  }

  lemma {:induction false} RunText(open: seq<string>, text: string, s: string)
    requires Plain(s)
    ensures Run(Outside(open, text), s) == Outside(open, text + s)
    decreases |s|
  {
    if s == "" {
      assert text + s == text;
    } else {
      RunText(open, text + [s[0]], s[1..]);
      assert text + [s[0]] + s[1..] == text + s;
    }
  }

  lemma {:induction false} RunInTag(open: seq<string>, text: string, seen: string, rest: string)
    requires '<' !in rest && '>' !in rest
    ensures Run(InTag(open, text, seen), rest + ">") == Apply(open, text, seen + rest)
    decreases |rest|
  {
    var s := rest + ">";
    if rest == "" {
      assert s[1..] == "" && s[0] == '>';
      assert Run(InTag(open, text, seen), s) == Run(Apply(open, text, seen), "");
      assert seen + rest == seen;
    } else {
      assert s[1..] == rest[1..] + ">" && s[0] == rest[0];
      RunInTag(open, text, seen + [rest[0]], rest[1..]);
      assert seen + [rest[0]] + rest[1..] == seen + rest;
    }
  }

  /** One whole tag. */
  lemma {:induction false} RunTag(open: seq<string>, text: string, tag: string)
    requires '<' !in tag && '>' !in tag
    ensures Run(Outside(open, text), "<" + tag + ">") == Apply(open, text, tag)
  {
    var s := "<" + tag + ">";
    assert s[0] == '<' && s[1..] == tag + ">";
    RunInTag(open, text, "", tag);
    assert "" + tag == tag;
  }

  // ----- tags as values -----

  datatype Tag =
    | Open(name: string)
    | OpenWith(name: string, attributes: string)
    | Close(name: string)
    | Void(name: string)

  function TagHtml(tag: Tag): string {
    match tag
    case Open(name) => "<" + name + ">"
    case OpenWith(name, attributes) => "<" + name + " " + attributes + ">"
    case Close(name) => "</" + name + ">"
    case Void(name) => "<" + name + "/>"
  }

  predicate Word(s: string) {
    '<' !in s && '>' !in s && '/' !in s && ' ' !in s
  }

  predicate GoodTag(tag: Tag) {
    && tag.name != "" && '<' !in tag.name && '>' !in tag.name && tag.name[0] != '/'
    && (tag.Void? || Word(tag.name))
    && (tag.OpenWith? ==> '<' !in tag.attributes && '>' !in tag.attributes
                          && tag.attributes != "" && tag.attributes[|tag.attributes| - 1] != '/')
  }

  function Effect(open: seq<string>, text: string, tag: Tag): Reader {
    match tag
    case Open(name) => Outside(open + [name], text)
    case OpenWith(name, _) => Outside(open + [name], text)
    case Close(name) => if open != [] && open[|open| - 1] == name then Outside(open[..|open| - 1], text) else Mismatch
    case Void(_) => Outside(open, text)
  }

  lemma {:induction false} NameBeforeSpace(name: string, rest: string)
    requires ' ' !in name && (rest == "" || rest[0] == ' ')
    ensures NameOf(name + rest) == name
  {
    if name == "" {
      assert name + rest == rest;
    } else {
      assert (name + rest)[1..] == name[1..] + rest;
      NameBeforeSpace(name[1..], rest);
    }
  }

  lemma {:induction false} RunTagHtml(open: seq<string>, text: string, tag: Tag)
    requires GoodTag(tag)
    ensures Run(Outside(open, text), TagHtml(tag)) == Effect(open, text, tag)
  {
    var name := tag.name;
    match tag {
      case Open(_) =>
        RunTag(open, text, name);
        NameBeforeSpace(name, "");
        assert name + "" == name;
      case OpenWith(_, attributes) =>
        var rest := " " + attributes;
        assert TagHtml(tag) == "<" + (name + rest) + ">";
        RunTag(open, text, name + rest);
        NameBeforeSpace(name, rest);
      case Close(_) =>
        var inner := "/" + name;
        assert TagHtml(tag) == "<" + inner + ">";
        RunTag(open, text, inner);
        assert inner[1..] == name;
      case Void(_) =>
        var inner := name + "/";
        assert TagHtml(tag) == "<" + inner + ">";
        RunTag(open, text, inner);
    }
  }

  lemma {:induction false} MismatchStays(s: string)
    ensures Run(Mismatch, s) == Mismatch
    decreases |s|
  {
    if s != "" {
      MismatchStays(s[1..]);
    }
  }

  /** An element: its opening tag, what is inside, its closing tag. */
  function Element(name: string, inner: string): string {
    "<" + name + ">" + inner + "</" + name + ">"
  }

  lemma {:induction false} RunElement(open: seq<string>, text: string, name: string, inner: string, text': string)
    requires name != "" && Word(name)
    requires Run(Outside(open + [name], text), inner) == Outside(open + [name], text')
    ensures Run(Outside(open, text), Element(name, inner)) == Outside(open, text')
  {
    var first, last := TagHtml(Open(name)), TagHtml(Close(name));
    assert Element(name, inner) == first + (inner + last);
    RunConcat(Outside(open, text), first, inner + last);
    RunTagHtml(open, text, Open(name));
    RunConcat(Outside(open + [name], text), inner, last);
    RunTagHtml(open + [name], text', Close(name));
    assert (open + [name])[..|open|] == open;
  }
}
