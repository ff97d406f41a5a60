/** Rewriting of local links in a proxied page, and when it can be undone. */
module LinkRewrite {

  /** Every occurrence of `pattern`, left to right. */
  function ReplaceAll(text: string, pattern: string, sub: string): string
    requires pattern != ""
    decreases |text|
  {
    if pattern <= text then sub + ReplaceAll(text[|pattern|..], pattern, sub)
    else if text == "" then ""
    else [text[0]] + ReplaceAll(text[1..], pattern, sub)
  }

  /** The start of a local link, and the start it is rewritten to. */
  function LocalLink(attribute: string): string {
    attribute + "=\"/"
  }

  function MovedLink(attribute: string, prefix: string): string {
    attribute + "=\"" + prefix + "/"
  }

  function TrimmedPrefix(location: string): string
    requires location != ""
  {
    if location[|location| - 1] == '/' then location[..|location| - 1] else location
  }

  function Move(body: string, attribute: string, prefix: string): string {
    ReplaceAll(body, LocalLink(attribute), MovedLink(attribute, prefix))
  }

  function MoveBack(body: string, attribute: string, prefix: string): string {
    ReplaceAll(body, MovedLink(attribute, prefix), LocalLink(attribute))
  }

  /** Links in `href` first, then links in `src`. */
  function Rewrite(body: string, location: string): string
    requires location != ""
  {
    Move(Move(body, "href", TrimmedPrefix(location)), "src", TrimmedPrefix(location))
  }

  /** The same in reverse order. */
  function Undo(body: string, location: string): string
    requires location != ""
  {
    MoveBack(MoveBack(body, "src", TrimmedPrefix(location)), "href", TrimmedPrefix(location))
  }

  method AppendRelativeUri(body0: string, append: string) returns (body: string)
    requires append != ""
    ensures body == Rewrite(body0, append)
  {
    var trimmedAppend := append;
    if append[|append| - 1] == '/' {
      trimmedAppend := append[..|append| - 1];
    }
    body := ReplaceAll(body0, "href=\"/", "href=\"" + trimmedAppend + "/");
    body := ReplaceAll(body, "src=\"/", "src=\"" + trimmedAppend + "/");
    assert LocalLink("href") == "href=\"/" && LocalLink("src") == "src=\"/";
    assert MovedLink("href", trimmedAppend) == "href=\"" + trimmedAppend + "/";
    assert MovedLink("src", trimmedAppend) == "src=\"" + trimmedAppend + "/";
  }

  // ----- what a link becomes -----

  lemma {:induction false} PrefixIs(path: string)
    ensures TrimmedPrefix(path + "/") == path
    ensures path != "" && path[|path| - 1] != '/' ==> TrimmedPrefix(path) == path
  {
    assert (path + "/")[..|path|] == path;
  }

  lemma {:induction false} FirstReplaced(pattern: string, sub: string, after: string)
    requires pattern != ""
    ensures ReplaceAll(pattern + after, pattern, sub) == sub + ReplaceAll(after, pattern, sub)
  {
    assert (pattern + after)[|pattern|..] == after;
  }

  /** A text in which the pattern cannot begin stays in front. */
  lemma {:induction false} FrontStays(front: string, after: string, pattern: string, sub: string)
    requires pattern != ""
    requires forall j | 0 <= j < |front| :: !(pattern <= front[j..] + after)
    ensures ReplaceAll(front + after, pattern, sub) == front + ReplaceAll(after, pattern, sub)
    decreases |front|
  {
    hide ReplaceAll;
    if front == "" {
      assert front + after == after;
      assert front + ReplaceAll(after, pattern, sub) == ReplaceAll(after, pattern, sub);
    } else {
      var rest := front[1..];
      assert front[0..] == front;
      forall j | 0 <= j < |rest|
        ensures !(pattern <= rest[j..] + after)
      {
        assert rest[j..] == front[j + 1..];
      }
      FrontStays(rest, after, pattern, sub);
      assert front + after == [front[0]] + (rest + after);
      FirstStays(front[0], rest + after, pattern, sub);
      assert [front[0]] + (rest + ReplaceAll(after, pattern, sub)) == front + ReplaceAll(after, pattern, sub);
    }
  }

  lemma {:induction false} FirstStays(c: char, text: string, pattern: string, sub: string)
    requires pattern != "" && !(pattern <= [c] + text)
    ensures ReplaceAll([c] + text, pattern, sub) == [c] + ReplaceAll(text, pattern, sub)
  {
    assert ([c] + text)[1..] == text;
  }

  /** In a moved `href` link there is no local `src` link. */
  lemma {:induction false} HrefHoldsNoSrc(prefix: string, after: string, j: nat)
    requires QuoteFree(prefix)
    requires j < |"href=\"" + prefix + "/"|
    ensures !("src=\"/" <= ("href=\"" + prefix + "/")[j..] + after)
  {
    var front := "href=\"" + prefix + "/";
    var text := front[j..] + after;
    assert forall i | 6 <= i < |front| :: front[i] != '"';
    assert front[0] == 'h' && front[1] == 'r' && front[4] == '=' && front[|front| - 1] == '/';
    assert text[0] == front[j];
    if j + 4 < |front| {
      assert text[4] == front[j + 4];
    } else {
      assert text[|front| - 1 - j] == '/';
    }
  }

  /** With or without a slash at the end of the location, a local link is moved under it; at the root
      it stays. */
  lemma {:induction false} LinksMove(path: string, location: string, after: string)
    requires QuoteFree(path) && location != ""
    requires location == path + "/" || (location == path && path[|path| - 1] != '/')
    ensures "href=\"" + path + "/" <= Rewrite("href=\"/" + after, location)
    ensures "src=\"" + path + "/" <= Rewrite("src=\"/" + after, location)
  {
    hide ReplaceAll, TrimmedPrefix;
    PrefixIs(path);
    var href, src := "href=\"" + path + "/", "src=\"" + path + "/";
    assert LocalLink("href") == "href=\"/" && LocalLink("src") == "src=\"/";
    assert MovedLink("href", path) == href && MovedLink("src", path) == src;
    FirstReplaced("href=\"/", href, after);
    forall j | 0 <= j < |href|
      ensures !("src=\"/" <= href[j..] + ReplaceAll(after, "href=\"/", href))
    {
      HrefHoldsNoSrc(path, ReplaceAll(after, "href=\"/", href), j);
    }
    FrontStays(href, ReplaceAll(after, "href=\"/", href), "src=\"/", src);
    forall j | 0 <= j < |"src=\"/"|
      ensures !("href=\"/" <= "src=\"/"[j..] + after)
    {
      assert ("src=\"/"[j..] + after)[0] == "src=\"/"[j];
    }
    FrontStays("src=\"/", after, "href=\"/", href);
    FirstReplaced("src=\"/", src, ReplaceAll(after, "href=\"/", href));
  }

  // ----- undoing -----

  /** The first character of the pattern does not occur in it again. */
  predicate FirstIsUnique(pattern: string) {
    pattern != "" && forall i | 1 <= i < |pattern| :: pattern[i] != pattern[0]
  }

  lemma {:induction false} ReplaceHead(text: string, pattern: string, sub: string)
    requires pattern != "" && pattern <= sub
    ensures var out := ReplaceAll(text, pattern, sub);
            if pattern <= text then out == sub + ReplaceAll(text[|pattern|..], pattern, sub) && out[0] == pattern[0]
            else if text == "" then out == ""
            else out[0] == text[0] && out[1..] == ReplaceAll(text[1..], pattern, sub)
  {
  }

  /** The end of a pattern that shows after replacing was there before. */
  lemma {:induction false} EndWasThere(text: string, pattern: string, sub: string, k: nat)
    requires FirstIsUnique(pattern) && pattern <= sub && 1 <= k <= |pattern|
    requires pattern[k..] <= ReplaceAll(text, pattern, sub)
    ensures pattern[k..] <= text
    decreases |pattern| - k
  {
    if k < |pattern| {
      ReplaceHead(text, pattern, sub);
      assert pattern[k..][0] == pattern[k] && pattern[k..][1..] == pattern[k + 1..];
      EndWasThere(text[1..], pattern, sub, k + 1);
      assert text == [text[0]] + text[1..];
    }
  }

  /** So replacing makes no new occurrence at the start. */
  lemma {:induction false} PatternWasThere(text: string, pattern: string, sub: string)
    requires FirstIsUnique(pattern) && pattern <= sub && pattern <= ReplaceAll(text, pattern, sub)
    ensures pattern <= text
  {
    ReplaceHead(text, pattern, sub);
    if text != "" && pattern[1..] <= ReplaceAll(text[1..], pattern, sub) {
      EndWasThere(text[1..], pattern, sub, 1);
      assert text == [text[0]] + text[1..] && pattern == [pattern[0]] + pattern[1..];
    }
  }

  /** Replacing a pattern by a longer text that begins with it can be undone. */
  lemma {:induction false} ReplaceBack(text: string, pattern: string, sub: string)
    requires FirstIsUnique(pattern) && pattern <= sub
    ensures ReplaceAll(ReplaceAll(text, pattern, sub), sub, pattern) == text
    decreases |text|
  {
    var out := ReplaceAll(text, pattern, sub);
    ReplaceHead(text, pattern, sub);
    if pattern <= text {
      var tail := text[|pattern|..];
      ReplaceBack(tail, pattern, sub);
      assert out[|sub|..] == ReplaceAll(tail, pattern, sub);
      assert text == pattern + tail;
    } else if text != "" {
      ReplaceBack(text[1..], pattern, sub);
      if sub <= out {
        PatternWasThere(text, pattern, sub);
      }
    }
  }

  lemma {:induction false} LinkPattern(attribute: string, prefix: string)
    requires attribute == "href" || attribute == "src"
    ensures FirstIsUnique(LocalLink(attribute))
    ensures prefix == "" || prefix[0] == '/' ==> LocalLink(attribute) <= MovedLink(attribute, prefix)
  {
    var p, m, n := LocalLink(attribute), MovedLink(attribute, prefix), |attribute|;
    assert p[n + 2] == '/';
    assert prefix == "" ==> m == p;
    assert prefix != "" ==> m[n + 2] == prefix[0];
  }

  lemma {:induction false} MoveThenBack(body: string, attribute: string, prefix: string)
    requires attribute == "href" || attribute == "src"
    requires prefix == "" || prefix[0] == '/'
    ensures MoveBack(Move(body, attribute, prefix), attribute, prefix) == body
  {
    LinkPattern(attribute, prefix);
    ReplaceBack(body, LocalLink(attribute), MovedLink(attribute, prefix));
  }

  // ----- when the prefix does not begin with a slash -----

  predicate QuoteFree(s: string) {
    '"' !in s
  }

  lemma {:induction false} NoOccurrence(text: string, pattern: string, sub: string)
    requires pattern != "" && forall j | 0 <= j <= |text| :: !(pattern <= text[j..])
    ensures ReplaceAll(text, pattern, sub) == text
    decreases |text|
  {
    assert text[0..] == text;
    if text != "" {
      forall j | 0 <= j <= |text[1..]|
        ensures !(pattern <= text[1..][j..])
      {
        assert text[1..][j..] == text[j + 1..];
      }
      NoOccurrence(text[1..], pattern, sub);
    }
  }

  /** A text whose only quote follows `href=`: a pattern is in it only if its own quote fits there. */
  lemma {:induction false} OneQuote(text: string, pattern: string, k: nat, sub: string)
    requires k < |pattern| && pattern[k] == '"'
    requires |text| > 5 && forall i | 0 <= i < |text| && i != 5 :: text[i] != '"'
    requires k <= 5 && !(pattern <= text[5 - k..])
    ensures ReplaceAll(text, pattern, sub) == text
  {
    forall j | 0 <= j <= |text|
      ensures !(pattern <= text[j..])
    {
      if j + k < |text| { assert text[j..][k] == text[j + k]; }
    }
    NoOccurrence(text, pattern, sub);
  }

  lemma {:induction false} HrefText(prefix: string)
    requires prefix != "" && prefix[0] != '/' && QuoteFree(prefix)
    ensures var body, local := MovedLink("href", prefix), LocalLink("href");
            && |local| == 7 && local[5] == '"' && |body| == 7 + |prefix| && !(local <= body) && body[1] == 'r'
            && forall i | 0 <= i < |body| && i != 5 :: body[i] != '"'
  {
    var body, local := MovedLink("href", prefix), LocalLink("href");
    assert body[6] == prefix[0] && local[6] == '/';
    assert body == "href=\"" + prefix + "/";
  }

  lemma {:induction false} SrcText(prefix: string)
    ensures var local, moved := LocalLink("src"), MovedLink("src", prefix);
            |local| > 4 && |moved| > 4 && local[0] == 's' && moved[0] == 's' && local[4] == '"' && moved[4] == '"'
  {
  }

  lemma {:induction false} NotPrefix(pattern: string, text: string)
    requires pattern != "" && text != "" && pattern[0] != text[0]
    ensures !(pattern <= text)
  {
  }

  lemma {:induction false} ReplaceWhole(text: string, sub: string)
    requires text != ""
    ensures ReplaceAll(text, text, sub) == sub
  {
    assert text[|text|..] == "";
    assert ReplaceAll("", text, sub) == "";
    assert sub + "" == sub;
  }

  /** A prefix without a leading slash: this page is left alone and then changed by undoing. */
  lemma {:induction false} LostLink(prefix: string, body: string)
    requires prefix != "" && prefix[0] != '/' && QuoteFree(prefix)
    requires body == MovedLink("href", prefix)
    ensures Move(Move(body, "href", prefix), "src", prefix) == body
    ensures MoveBack(MoveBack(body, "src", prefix), "href", prefix) == LocalLink("href") != body
  {
    hide ReplaceAll, LocalLink, MovedLink, QuoteFree;
    var local, src, moved := LocalLink("href"), LocalLink("src"), MovedLink("src", prefix);
    HrefText(prefix);
    SrcText(prefix);
    assert body[5 - 5..] == body;
    NotPrefix(src, body[5 - 4..]);
    NotPrefix(moved, body[5 - 4..]);
    OneQuote(body, local, 5, body);
    OneQuote(body, src, 4, moved);
    OneQuote(body, moved, 4, src);
    ReplaceWhole(body, local);
  }

  /** Link rewriting loses nothing, whatever the page, if and only if the prefix is empty or
      begins with a slash. */
  lemma {:induction false} UndoIff(location: string)
    requires location != "" && QuoteFree(location)
    ensures (forall body :: Undo(Rewrite(body, location), location) == body) <==>
            TrimmedPrefix(location) == "" || TrimmedPrefix(location)[0] == '/'
  {
    hide Move, MoveBack;
    var prefix := TrimmedPrefix(location);
    if prefix == "" || prefix[0] == '/' {
      forall body
        ensures Undo(Rewrite(body, location), location) == body
      {
        MoveThenBack(Move(body, "href", prefix), "src", prefix);
        MoveThenBack(body, "href", prefix);
      }
    } else {
      var body := MovedLink("href", prefix);
      LostLink(prefix, body);
      assert Undo(Rewrite(body, location), location) != body;
    }
  }
}
