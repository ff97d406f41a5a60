/** What several components have in common. */
module Shared {
  datatype Option<T> = None | Some(value: T)

  /** `std::isspace` in the default locale. */
  predicate IsSpace(c: char) {
    c == ' ' || c == '\t' || c == '\n' || c == '\U{0B}' || c == '\U{0C}' || c == '\r'
  }

  /** The position of the first carriage return, or the length. */
  function ReturnAt(s: string): (n: nat)
    ensures n <= |s|
    ensures forall i | 0 <= i < n :: s[i] != '\r'
    ensures n < |s| ==> s[n] == '\r'
  {
    if s == "" || s[0] == '\r' then 0 else 1 + ReturnAt(s[1..])
  }

  /** Concatenation in another grouping. */
  lemma {:induction false} Regroup<T>(a: seq<T>, b: seq<T>, c: seq<T>)
    ensures a + (b + c) == a + b + c
  {
  }

  lemma {:induction false} SplitLast<T>(s: seq<T>)
    requires s != []
    ensures s == s[..|s| - 1] + [s[|s| - 1]]
  {
  }

  /** Cutting a sequence whose last element is gone. */
  lemma {:induction false} CutInit<T>(s: seq<T>, i: nat)
    requires i < |s| - 1
    ensures s[..|s| - 1][..i] == s[..i]
    ensures var rest := s[i + 1..];
            |rest| > 0 && s[..|s| - 1][i + 1..] == rest[..|rest| - 1] && rest[|rest| - 1] == s[|s| - 1]
  {
  }

  lemma {:induction false} UpdateRight<K, V>(a: map<K, V>, b: map<K, V>, key: K, value: V)
    ensures a + b[key := value] == (a + b)[key := value]
  {
  }
}
