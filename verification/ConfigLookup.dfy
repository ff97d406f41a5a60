/** Looking up a parameter: the first word that follows the key, in reading order. */
module ConfigLookup {
  import opened Shared
  import opened ConfigGrammar
  import opened ConfigText

  /** The word after `key` in one statement; before the first word stands the empty string. */
  function FindWord(tokens: seq<string>, prev: string, key: string): Option<string> {
    if tokens == [] then None
    else if prev == key then Some(tokens[0])
    else FindWord(tokens[1..], tokens[0], key)
  }

  /** The depth-first lookup; an empty answer from a block counts as none. */
  function GetConfig(c: Config, key: string): string
    decreases c
  {
    if c == [] then ""
    else
      var found := FindWord(c[0].tokens, "", key);
      if found.Some? then found.value
      else
        var inner := if c[0].block.Block? then GetConfig(c[0].block.statements, key) else "";
        if |inner| > 0 then inner else GetConfig(c[1..], key)
  }

  // ----- the independent definition: adjacent words of the whole tree, in reading order -----

  datatype Pair = Pair(before: string, word: string)

  function WordPairs(tokens: seq<string>): seq<Pair> {
    seq(|tokens|, i requires 0 <= i < |tokens| => Pair(if i == 0 then "" else tokens[i - 1], tokens[i]))
  }

  /** Every word with the word before it, statement by statement, a block right after its statement. */
  function Pairs(c: Config): seq<Pair>
    decreases c
  {
    if c == [] then []
    else
      WordPairs(c[0].tokens)
      + (if c[0].block.Block? then Pairs(c[0].block.statements) else [])
      + Pairs(c[1..])
  }

  /** `answer` is the word of the first pair that has `key` before it. */
  predicate FirstAfter(pairs: seq<Pair>, key: string, answer: string) {
    exists i | 0 <= i < |pairs| ::
      pairs[i] == Pair(key, answer) && forall j | 0 <= j < i :: pairs[j].before != key
  }

  predicate NoneAfter(pairs: seq<Pair>, key: string) {
    forall i | 0 <= i < |pairs| :: pairs[i].before != key
  }

  /** No word of the tree is empty. */
  predicate WordsNonEmpty(c: Config)
    decreases c
  {
    forall s | s in c :: "" !in s.tokens && (s.block.Block? ==> WordsNonEmpty(s.block.statements))
  }

  predicate Answers(pairs: seq<Pair>, key: string, answer: string) {
    if answer == "" then NoneAfter(pairs, key) else FirstAfter(pairs, key, answer)
  }

  lemma {:induction false} AnswersSkip(a: seq<Pair>, b: seq<Pair>, key: string, answer: string)
    requires NoneAfter(a, key) && Answers(b, key, answer)
    ensures Answers(a + b, key, answer)
  {
    if answer != "" {
      var i :| 0 <= i < |b| && b[i] == Pair(key, answer) && forall j | 0 <= j < i :: b[j].before != key;
      assert (a + b)[|a| + i] == Pair(key, answer);
    }
  }

  lemma {:induction false} AnswersFirst(a: seq<Pair>, b: seq<Pair>, key: string, answer: string)
    requires answer != "" && FirstAfter(a, key, answer)
    ensures FirstAfter(a + b, key, answer)
  {
    var i :| 0 <= i < |a| && a[i] == Pair(key, answer) && forall j | 0 <= j < i :: a[j].before != key;
    assert (a + b)[i] == Pair(key, answer);
  }

  /** In one statement, from word `k` on. */
  lemma {:induction false} FindWordAnswers(tokens: seq<string>, k: nat, key: string)
    requires k <= |tokens|
    requires forall i | 0 <= i < k :: WordPairs(tokens)[i].before != key
    ensures match FindWord(tokens[k..], if k == 0 then "" else tokens[k - 1], key)
            case None => NoneAfter(WordPairs(tokens), key)
            case Some(word) => word in tokens && FirstAfter(WordPairs(tokens), key, word)
    decreases |tokens| - k
  {
    if k < |tokens| {
      assert tokens[k..][1..] == tokens[k + 1..];
      var prev := if k == 0 then "" else tokens[k - 1];
      if prev == key {
        assert WordPairs(tokens)[k] == Pair(key, tokens[k]);
      } else {
        FindWordAnswers(tokens, k + 1, key);
      }
    }
  }

  /** The lookup answers with the first word after the key, and with nothing exactly when no
      word follows the key anywhere in the tree. */
  lemma {:induction false} GetConfigAnswers(c: Config, key: string)
    requires WordsNonEmpty(c)
    ensures Answers(Pairs(c), key, GetConfig(c, key))
    decreases c
  {
    hide FirstAfter, NoneAfter, WordPairs, FindWord;
    if c == [] {
      assert Answers([], key, "") by { EmptyAnswers(key); }
    } else {
      var s := c[0];
      assert s in c && forall r | r in c[1..] :: r in c;
      var own, rest := WordPairs(s.tokens), Pairs(c[1..]);
      var nested := if s.block.Block? then Pairs(s.block.statements) else [];
      assert own + nested + rest == own + (nested + rest);
      FindWordAnswers(s.tokens, 0, key);
      assert s.tokens[0..] == s.tokens;
      var found := FindWord(s.tokens, "", key);
      if found.Some? {
        AnswersFirst(own, nested + rest, key, found.value);
      } else {
        EmptyAnswers(key);
        if s.block.Block? { GetConfigAnswers(s.block.statements, key); }
        GetConfigAnswers(c[1..], key);
        var inner := if s.block.Block? then GetConfig(s.block.statements, key) else "";
        if inner == "" {
          AnswersSkip(nested, rest, key, GetConfig(c, key));
        } else {
          AnswersFirst(nested, rest, key, inner);
        }
        AnswersSkip(own, nested + rest, key, GetConfig(c, key));
      }
    }
  }

  lemma {:induction false} EmptyAnswers(key: string)
    ensures Answers([], key, "") && NoneAfter([], key)
  {
  }

  lemma {:induction false} PrintableNonEmpty(c: Config)
    requires Printable(c)
    ensures WordsNonEmpty(c)
    decreases c
  {
    forall s | s in c
      ensures "" !in s.tokens && (s.block.Block? ==> WordsNonEmpty(s.block.statements))
    {
      if s.block.Block? { PrintableNonEmpty(s.block.statements); }
    }
  }

  /** For every accepted text and every key. */
  lemma {:induction false} ParsedConfigAnswers(input: string, key: string)
    requires Parse([], input).Some?
    ensures var c := Parse([], input).value; Answers(Pairs(c), key, GetConfig(c, key))
  {
    hide Parse, Pairs, GetConfig, Answers;
    ParseIsCanonical(input, 0);
    PrintableNonEmpty(Parse([], input).value);
    GetConfigAnswers(Parse([], input).value, key);
  }
}
