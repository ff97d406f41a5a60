/** Decoding of form-encoded text between two character buffers. */
module UrlDecode {

  predicate IsHexDigit(c: char) {
    '0' <= c <= '9' || 'A' <= c <= 'F' || 'a' <= c <= 'f'
  }

  /** The arithmetic of the decoder on one hexadecimal digit. */
  function HexValue(c: char): (v: int)
    requires IsHexDigit(c)
    ensures 0 <= v < 16
  {
    var upper := if c >= 'a' then c as int - ('a' as int - 'A' as int) else c as int;
    if upper >= 'A' as int then upper - ('A' as int - 10) else upper - '0' as int
  }

  /** The text starts with a per cent sign and two hexadecimal digits. */
  predicate IsEscape(text: string) {
    |text| >= 3 && text[0] == '%' && IsHexDigit(text[1]) && IsHexDigit(text[2])
  }

  function Decode(text: string): string {
    if text == "" then ""
    else if IsEscape(text) then [(16 * HexValue(text[1]) + HexValue(text[2])) as char] + Decode(text[3..])
    else if text[0] == '+' then [' '] + Decode(text[1..])
    else [text[0]] + Decode(text[1..])
  }

  function Escapes(text: string): nat {
    if text == "" then 0
    else if IsEscape(text) then 1 + Escapes(text[3..])
    else Escapes(text[1..])
  }

  /** The decoder writes two characters less for every escape. */
  lemma {:induction false} DecodedLength(text: string)
    ensures |Decode(text)| == |text| - 2 * Escapes(text)
    decreases |text|
  {
    if text != "" {
      if IsEscape(text) { DecodedLength(text[3..]); } else { DecodedLength(text[1..]); }
    }
  }

  lemma {:induction false} EscapesIff(text: string)
    ensures Escapes(text) > 0 <==> exists i | 0 <= i < |text| :: IsEscape(text[i..])
    decreases |text|
  {
    assert text[0..] == text;
    if text != "" && !IsEscape(text) {
      var rest := text[1..];
      EscapesIff(rest);
      assert forall i | 0 <= i < |rest| :: rest[i..] == text[i + 1..];
      if i :| 0 <= i < |text| && IsEscape(text[i..]) {
        assert rest[i - 1..] == text[i..];
      }
    }
  }

  /** The caller's buffer has as many characters as the text: this is enough for the decoded text and
      its zero byte if and only if there is an escape in the text. */
  lemma {:induction false} CallerBufferFits(text: string)
    ensures |Decode(text)| + 1 <= |text| <==> exists i | 0 <= i < |text| :: IsEscape(text[i..])
  {
    DecodedLength(text);
    EscapesIff(text);
  }

  /** A text of one letter does not leave room for the zero byte. */
  lemma {:induction false} LetterOverruns()
    ensures |Decode("a")| + 1 > |"a"|
  {
    assert "a"[1..] == "";
    DecodedLength("a");
  }

  /** `src` holds a text and its zero byte. */
  ghost predicate HoldsText(src: array<char>, text: string)
    reads src
  {
    && |text| < src.Length && src[|text|] == '\0'
    && forall i | 0 <= i < |text| :: src[i] == text[i] != '\0'
  }

  /** Walks both buffers once. Nothing is read behind the zero byte of `src`. If the decoded text and
      a zero byte fit, `dst` gets them and is left alone after that; otherwise this stops where the
      original goes on to write past the end of its target. */
  method UrlDecode2(dst: array<char>, src: array<char>, ghost text: string) returns (fits: bool)
    requires dst != src && HoldsText(src, text)
    modifies dst
    ensures fits <==> |text| - 2 * Escapes(text) < dst.Length
    ensures var n := |text| - 2 * Escapes(text);
            && n == |Decode(text)|
            && (fits ==> dst[..n] == Decode(text) && dst[n] == '\0' && dst[n + 1..] == old(dst[n + 1..]))
            && (!fits ==> dst[..] == Decode(text)[..dst.Length])
  {
    hide Decode, Escapes, HexValue, IsHexDigit;
    var d, s := 0, 0;
    ghost var decoded := Decode(text);
    DecodedLength(text);
    assert text[0..] == text && decoded[0..] == decoded;
    while src[s] != '\0'
      invariant 0 <= s <= |text| && 0 <= d <= |decoded| && d <= dst.Length
      invariant HoldsText(src, text)
      invariant decoded[d..] == Decode(text[s..])
      invariant forall k | 0 <= k < d :: dst[k] == decoded[k]
      invariant forall k | |decoded| <= k < dst.Length :: dst[k] == old(dst[k])
      decreases |text| - s
    {
      Characters(src, text, s);
      NextDecoded(text, s, decoded, d);
      if d == dst.Length {
        return false;
      }
      if src[s] == '%' && src[s + 1] != '\0' && src[s + 2] != '\0' && IsHexDigit(src[s + 1]) && IsHexDigit(src[s + 2]) {
        dst[d] := (16 * HexValue(src[s + 1]) + HexValue(src[s + 2])) as char;
        s := s + 3;
      } else if src[s] == '+' {
        dst[d] := ' ';
        s := s + 1;
      } else {
        dst[d] := src[s];
        s := s + 1;
      }
      d := d + 1;
    }
    DecodedEnds();
    assert s == |text| && text[s..] == "";
    assert dst[..d] == decoded;
    if d == dst.Length {
      return false;
    }
    dst[d] := '\0';
    fits := true;
  }

  lemma {:induction false} DecodedEnds()
    ensures Decode("") == ""
  {
  }

  /** One turn: the next decoded character, and how far the text moves. */
  lemma {:induction false} NextDecoded(text: string, s: nat, decoded: string, d: nat)
    requires s < |text| && d <= |decoded| && decoded[d..] == Decode(text[s..])
    ensures d < |decoded|
    ensures IsEscape(text[s..]) ==>
              && decoded[d] == (16 * HexValue(text[s + 1]) + HexValue(text[s + 2])) as char
              && decoded[d + 1..] == Decode(text[s + 3..])
    ensures !IsEscape(text[s..]) ==>
              decoded[d] == (if text[s] == '+' then ' ' else text[s]) && decoded[d + 1..] == Decode(text[s + 1..])
  {
    var rest := text[s..];
    assert decoded[d..] != "" && decoded[d..][0] == decoded[d] && decoded[d..][1..] == decoded[d + 1..];
    assert rest[1..] == text[s + 1..];
    if IsEscape(rest) { assert rest[3..] == text[s + 3..]; }
  }

  /** What the buffer shows from a position on. */
  lemma {:induction false} Characters(src: array<char>, text: string, s: nat)
    requires HoldsText(src, text) && s < |text|
    ensures src[s] == text[s..][0] != '\0'
    ensures s + 1 < src.Length && (src[s + 1] != '\0' <==> s + 1 < |text|)
    ensures s + 1 < |text| ==>
              s + 2 < src.Length && (src[s + 2] != '\0' <==> s + 2 < |text|) && src[s + 1] == text[s..][1]
    ensures s + 2 < |text| ==> src[s + 2] == text[s..][2]
  {
    var rest := text[s..];
    assert rest[0] == text[s];
  }

  // ----- the encoding it inverts -----

  function HexDigit(v: int): (c: char)
    requires 0 <= v < 16
    ensures IsHexDigit(c) && HexValue(c) == v
  {
    if v < 10 then ('0' as int + v) as char else ('A' as int + v - 10) as char
  }

  /** The characters that stand for themselves: section 2.3 of RFC 3986. */
  predicate IsUnreserved(c: char) {
    'A' <= c <= 'Z' || 'a' <= c <= 'z' || '0' <= c <= '9' || c in "-._~"
  }

  /** Either case of the sixteen digits, in any mix, stands for the byte. */
  lemma {:induction false} EscapeDecoded(i: nat, j: nat, rest: string)
    requires i < 16 && j < 16
    ensures var upper, lower, byte := "0123456789ABCDEF", "0123456789abcdef", [(16 * i + j) as char];
            && Decode("%" + ([upper[i], upper[j]] + rest)) == byte + Decode(rest)
            && Decode("%" + ([lower[i], lower[j]] + rest)) == byte + Decode(rest)
            && Decode("%" + ([upper[i], lower[j]] + rest)) == byte + Decode(rest)
            && Decode("%" + ([lower[i], upper[j]] + rest)) == byte + Decode(rest)
  {
    var upper, lower := "0123456789ABCDEF", "0123456789abcdef";
    DigitRead(i);
    DigitRead(j);
    TwoDigitsDecoded(upper[i], upper[j], rest);
    TwoDigitsDecoded(lower[i], lower[j], rest);
    TwoDigitsDecoded(upper[i], lower[j], rest);
    TwoDigitsDecoded(lower[i], upper[j], rest);
  }

  /** Anything else stands for itself, a per cent sign without two digits behind it included. */
  lemma {:induction false} OtherIsKept(c: char, rest: string)
    requires c == '%' ==> |rest| < 2 || !(IsHexDigit(rest[0]) && IsHexDigit(rest[1]))
    ensures Decode([c] + rest) == [if c == '+' then ' ' else c] + Decode(rest)
  {
    var text := [c] + rest;
    assert text[1..] == rest && text[0] == c;
    assert |rest| >= 2 ==> text[1] == rest[0] && text[2] == rest[1];
  }

  lemma {:induction false} DigitRead(i: nat)
    requires i < 16
    ensures var upper, lower := "0123456789ABCDEF", "0123456789abcdef";
            && IsHexDigit(upper[i]) && HexValue(upper[i]) == i
            && IsHexDigit(lower[i]) && HexValue(lower[i]) == i
  {
  }

  lemma {:induction false} TwoDigitsDecoded(a: char, b: char, rest: string)
    requires IsHexDigit(a) && IsHexDigit(b)
    ensures Decode("%" + ([a, b] + rest)) == [(16 * HexValue(a) + HexValue(b)) as char] + Decode(rest)
  {
    var text := "%" + ([a, b] + rest);
    assert text[0] == '%' && text[1] == a && text[2] == b && text[3..] == rest;
  }

  predicate IsByte(c: char) {
    (c as int) < 256
  }

  function EncodeByte(c: char): string
    requires IsByte(c)
  {
    if c == ' ' then "+"
    else if IsUnreserved(c) then [c]
    else ['%', HexDigit(c as int / 16), HexDigit(c as int % 16)]
  }

  function Encode(bytes: string): string
    requires forall i | 0 <= i < |bytes| :: IsByte(bytes[i])
  {
    if bytes == "" then "" else EncodeByte(bytes[0]) + Encode(bytes[1..])
  }

  lemma {:induction false} DecodeByte(c: char, rest: string)
    requires IsByte(c)
    ensures Decode(EncodeByte(c) + rest) == [c] + Decode(rest)
  {
    var text := EncodeByte(c) + rest;
    if c == ' ' || IsUnreserved(c) {
      assert text[1..] == rest;
      assert text[0] != '%';
    } else {
      assert text[3..] == rest;
      assert text[0] == '%' && text[1] == HexDigit(c as int / 16) && text[2] == HexDigit(c as int % 16);
      assert 16 * (c as int / 16) + c as int % 16 == c as int;
    }
  }

  /** Decoding inverts form encoding on every byte string. */
  lemma {:induction false} DecodeEncoded(bytes: string)
    requires forall i | 0 <= i < |bytes| :: IsByte(bytes[i])
    ensures Decode(Encode(bytes)) == bytes
    decreases |bytes|
  {
    hide IsUnreserved, IsByte, EncodeByte;
    if bytes != "" {
      DecodeEncoded(bytes[1..]);
      DecodeByte(bytes[0], Encode(bytes[1..]));
      assert bytes == [bytes[0]] + bytes[1..];
    }
  }
}
