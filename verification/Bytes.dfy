/** Byte strings: a Go string is a sequence of bytes, and every offset the
    chat module computes is a byte offset. */
module Bytes {
  newtype byte = x: int | 0 <= x < 256

  type Text = seq<byte>

  const TAB: byte := 9
  const NEWLINE: byte := 10
  const SPACE: byte := 32
  const BANG: byte := 33
  const DOUBLE_QUOTE: byte := 34
  const HASH: byte := 35
  const QUOTE: byte := 39
  const OPEN_PAREN: byte := 40
  const CLOSE_PAREN: byte := 41
  const STAR: byte := 42
  const COMMA: byte := 44
  const DASH: byte := 45
  const DOT: byte := 46
  const SLASH: byte := 47
  const ZERO: byte := 48
  const NINE: byte := 57
  const COLON: byte := 58
  const SEMICOLON: byte := 59
  const LESS: byte := 60
  const GREATER: byte := 62
  const QUESTION: byte := 63
  const AT: byte := 64
  const OPEN_BRACKET: byte := 91
  const BACKSLASH: byte := 92
  const CLOSE_BRACKET: byte := 93
  const UNDERSCORE: byte := 95
  const BACKTICK: byte := 96
  const PIPE: byte := 124
  const TILDE: byte := 126

  predicate IsLower(b: byte) {
    97 <= b <= 122
  }

  predicate IsDigit(b: byte) {
    ZERO <= b <= NINE
  }

  /** An ASCII letter as its lower case; any other byte as it is. */
  function ToLower(b: byte): byte {
    if 65 <= b <= 90 then b + 32 else b
  }

  /** The regexps' whitespace class: tab, newline, form feed, return, space. */
  predicate IsBlank(b: byte) {
    b == TAB || b == NEWLINE || b == 12 || b == 13 || b == SPACE
  }

  predicate HasAt(s: Text, i: nat, pattern: Text) {
    i + |pattern| <= |s| && s[i..i + |pattern|] == pattern
  }

  /** The first position at or after `from` holding b, or |s|. */
  function IndexFrom(s: Text, b: byte, from: nat): (i: nat)
    requires from <= |s|
    ensures from <= i <= |s|
    ensures i < |s| ==> s[i] == b
    ensures forall k :: from <= k < i ==> s[k] != b
    decreases |s| - from
  {
    if from == |s| || s[from] == b then from else IndexFrom(s, b, from + 1)
  }

  function Count(s: Text, b: byte): nat {
    if |s| == 0 then 0 else (if s[0] == b then 1 else 0) + Count(s[1..], b)
  }

  lemma {:induction false} CountConcat(s: Text, t: Text, b: byte)
    ensures Count(s + t, b) == Count(s, b) + Count(t, b)
  {
    if |s| == 0 {
      assert s + t == t;
    } else {
      assert (s + t)[1..] == s[1..] + t;
      CountConcat(s[1..], t, b);
    }
  }

  lemma {:induction false} CountZero(s: Text, b: byte)
    requires b !in s
    ensures Count(s, b) == 0
  {
    if |s| > 0 {
      CountZero(s[1..], b);
    }
  }
}
