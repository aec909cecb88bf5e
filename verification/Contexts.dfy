/** Where a token stands in a message decides whether it is a mention: what
    the parse makes of a token, or of a word, between two stretches of text
    without markup. */
module Contexts {
  import opened Bytes
  import opened Tokens
  import opened Rewriting
  import opened Markdown
  import opened Offsets
  import opened Blocks
  import opened Mentions

  // ---- Text without markup ------------------------------------------------------

  /** A byte that begins no markup inside a line. */
  predicate IsPlainByte(b: byte) {
    && b != LESS && b != BACKSLASH && b != BACKTICK && b != STAR && b != UNDERSCORE && b != TILDE && b != PIPE
    && b != OPEN_BRACKET && b != NEWLINE
  }

  const ADDRESS: Text := [COLON, SLASH, SLASH]

  /** Text of a line that holds no markup and no address. */
  ghost predicate NoMarkup(s: Text) {
    && (forall k :: 0 <= k < |s| ==> IsPlainByte(s[k]))
    && forall k :: 0 <= k < |s| ==> !HasAt(s, k, ADDRESS)
  }

  /** A byte that no address runs through. */
  predicate Stops(b: byte) {
    || b == LESS || b == BACKSLASH || b == BACKTICK || b == STAR || b == UNDERSCORE || b == TILDE || b == PIPE
    || b == OPEN_BRACKET || IsBlank(b)
  }

  lemma SchemeHasAddress(s: Text)
    requires SchemeLen(s) > 0
    ensures exists n :: 4 <= n <= 6 && HasAt(s, n, ADDRESS)
    ensures forall k :: 0 <= k < 4 ==> k < |s| && !Stops(s[k])
    ensures HasAt(s, 4, ADDRESS) || (4 < |s| && !Stops(s[4]) && (HasAt(s, 5, ADDRESS)
              || (5 < |s| && !Stops(s[5]) && HasAt(s, 6, ADDRESS))))
  {
    var n := SchemeLen(s) - 3;
    assert HasAt(s, n, ADDRESS);
    if n == 6 {
      assert s[4..6] == [0xC5, 0xBF];
      assert s[4] == s[4..6][0] && s[5] == s[4..6][1];
    }
  }

  lemma AddressAt(s: Text, n: nat)
    ensures HasAt(s, n, ADDRESS) <==> n + 3 <= |s| && s[n] == COLON && s[n + 1] == SLASH && s[n + 2] == SLASH
  {
    if n + 3 <= |s| {
      assert s[n..n + 3] == [s[n], s[n + 1], s[n + 2]];
    }
  }

  lemma SchemeWithin(source: Text, lo: nat, hi: nat, i: nat)
    requires lo <= i < hi <= |source| && (hi == |source| || Stops(source[hi]))
    ensures SchemeLen(source[i..]) > 0 ==> exists k :: 0 <= k < hi - lo && HasAt(source[lo..hi], k, ADDRESS)
  {
    hide HasAt;
    var rest, part := source[i..], source[lo..hi];
    if SchemeLen(rest) > 0 {
      SchemeHasAddress(rest);
      var n := if HasAt(rest, 4, ADDRESS) then 4 else if HasAt(rest, 5, ADDRESS) then 5 else 6;
      AddressAt(rest, n);
      StaysIn(source, rest, i, hi, n);
      var k := i - lo + n;
      assert part[k] == rest[n] && part[k + 1] == rest[n + 1] && part[k + 2] == rest[n + 2];
      AddressAt(part, k);
    }
  }

  /** No address starts in a stretch without one, whatever follows: the end, or
      a byte that none runs through. */
  lemma NoSchemeIn(source: Text, lo: nat, hi: nat, i: nat)
    requires lo <= i < hi <= |source| && NoMarkup(source[lo..hi])
    requires hi == |source| || Stops(source[hi])
    ensures UrlLen(source[i..]) == 0
  {
    hide SchemeLen, HasAt;
    SchemeWithin(source, lo, hi, i);
  }

  /** The bytes of an address lie before the one that stops it. */
  lemma StaysIn(source: Text, rest: Text, i: nat, hi: nat, n: nat)
    requires i < hi <= |source| && (hi == |source| || Stops(source[hi])) && rest == source[i..] && n + 3 <= |rest|
    requires forall k :: 0 <= k < n ==> !Stops(rest[k])
    requires rest[n] == COLON && rest[n + 1] == SLASH && rest[n + 2] == SLASH
    ensures i + n + 3 <= hi
  {
    forall k | 0 <= k < n + 3 ensures !Stops(rest[k]) && source[i + k] == rest[k] {
    }
    assert hi < |source| ==> source[hi] == rest[hi - i];
  }

  // ---- Reading it ------------------------------------------------------------------

  lemma NothingOpens(source: Text, base: nat, i: nat, k: nat)
    requires i < |source| && IsPlainByte(source[i]) && k <= 5
    ensures Delimited(source, base, i, k) == NoMatch
    decreases 5 - k
  {
    hide StarRun, CloserFrom, SpaceAt, Inlines, Rewrite;
    if k < 5 {
      NothingOpens(source, base, i, k + 1);
      DelimFirst(source, i, k);
    }
  }

  lemma DelimFirst(source: Text, i: nat, k: nat)
    requires i < |source| && k < 5
    ensures OpensAt(source, Delim(k), i) ==> source[i] == Delim(k)[0]
  {
    hide SpaceAt;
    if OpensAt(source, Delim(k), i) {
      assert source[i] == source[i..i + |Delim(k)|][0];
    }
  }

  lemma NotBoth(source: Text, base: nat, i: nat)
    requires i < |source| && (source[i] != STAR || i + 2 >= |source| || source[i + 1] != STAR || source[i + 2] != STAR)
    ensures BothStyles(source, base, i) == NoMatch
  {
    hide CloserFrom, Inlines, HasAt;
    ThreeStars(source, i);
  }

  lemma ThreeStars(s: Text, i: nat)
    ensures HasAt(s, i, [STAR, STAR, STAR]) <==> i + 3 <= |s| && s[i] == STAR && s[i + 1] == STAR && s[i + 2] == STAR
  {
    if i + 3 <= |s| {
      assert s[i..i + 3] == [s[i], s[i + 1], s[i + 2]];
    }
  }

  lemma PlainStep(source: Text, base: nat, i: nat)
    requires i < |source| && IsPlainByte(source[i]) && UrlLen(source[i..]) == 0
    ensures StepAt(source, base, i) == Keep(source[i], i + 1)
  {
    hide TokenLen, Delimited, BothStyles, Labelled, UrlLen, Rewrite;
    NotBoth(source, base, i);
    NothingOpens(source, base, i, 0);
  }

  /** A stretch without markup is read as text. */
  lemma {:induction false} PlainRun(source: Text, base: nat, lo: nat, hi: nat, i: nat, text: Text)
    requires lo <= i <= hi <= |source| && NoMarkup(source[lo..hi])
    requires hi == |source| || Stops(source[hi])
    ensures InlinesFrom(source, base, i, text) == InlinesFrom(source, base, hi, text + source[i..hi])
    decreases hi - i
  {
    hide StepAt, UrlLen, SchemeLen;
    if i == hi {
      assert text + source[i..hi] == text;
    } else {
      assert source[lo..hi][i - lo] == source[i];
      NoSchemeIn(source, lo, hi, i);
      PlainStep(source, base, i);
      PlainRun(source, base, lo, hi, i + 1, text + [source[i]]);
      assert text + [source[i]] + source[i + 1..hi] == text + source[i..hi];
    }
  }

  lemma EmitStep(source: Text, base: nat, i: nat, text: Text)
    requires i < |source| && StepAt(source, base, i).Emit?
    ensures var step := StepAt(source, base, i);
            InlinesFrom(source, base, i, text) == Flush(text) + [step.node] + InlinesFrom(source, base, step.next, [])
  {
    hide StepAt;
  }

  /** A line of text without markup, something the parse makes a node of, and
      text without markup again. */
  lemma Around(source: Text, base: nat, i: nat, next: nat, node: Inline)
    requires i < next <= |source| && NoMarkup(source[..i]) && NoMarkup(source[next..]) && Stops(source[i])
    requires StepAt(source, base, i) == Emit(node, next)
    ensures Inlines(source, base) == Flush(source[..i]) + [node] + Flush(source[next..])
  {
    hide StepAt, NoMarkup;
    assert source[0..i] == source[..i] && source[next..|source|] == source[next..];
    PlainRun(source, base, 0, i, 0, []);
    assert [] + source[0..i] == source[..i];
    EmitStep(source, base, i, source[..i]);
    PlainRun(source, base, next, |source|, next, []);
    assert [] + source[next..|source|] == source[next..];
  }

  // ---- What stands between markers -----------------------------------------------------

  /** It starts and ends with a printed character. */
  predicate IsTight(c: Text) {
    |c| > 0 && 33 <= c[0] < 127 && 33 <= c[|c| - 1] < 127
  }

  /** A pair of delimiters ends where it ends, and nowhere within. */
  ghost predicate Unbroken(c: Text, d: Text) {
    |d| > 0 && forall m :: 1 <= m < |c| ==> !HasAt(c + d, m, d)
  }

  /** The source holds c between two ds at i. */
  ghost predicate Between(source: Text, i: nat, d: Text, c: Text) {
    && i + |d| + |c| + |d| <= |source|
    && source[i..i + |d|] == d && source[i + |d|..i + |d| + |c|] == c
    && source[i + |d| + |c|..i + |d| + |c| + |d|] == d
  }

  lemma BytesBetween(source: Text, i: nat, d: Text, c: Text)
    requires Between(source, i, d, c)
    ensures forall k :: 0 <= k < |d| ==> source[i + k] == d[k] && source[i + |d| + |c| + k] == d[k]
    ensures forall k :: 0 <= k < |c| ==> source[i + |d| + k] == c[k]
  {
    forall k | 0 <= k < |d| ensures source[i + k] == d[k] && source[i + |d| + |c| + k] == d[k] {
      assert source[i + k] == source[i..i + |d|][k];
      assert source[i + |d| + |c| + k] == source[i + |d| + |c|..i + |d| + |c| + |d|][k];
    }
    forall k | 0 <= k < |c| ensures source[i + |d| + k] == c[k] {
      assert source[i + |d| + k] == source[i + |d|..i + |d| + |c|][k];
    }
  }

  lemma NoSpaceAround(source: Text, i: nat, d: Text, c: Text)
    requires Between(source, i, d, c) && IsTight(c)
    ensures !SpaceAt(source, i + |d|) && !SpaceBefore(source, i + |d| + |c|)
  {
    BytesBetween(source, i, d, c);
  }

  lemma WithinBetween(source: Text, i: nat, d: Text, c: Text, k: nat)
    requires Between(source, i, d, c) && i + |d| <= k
    ensures k < i + |d| + |c| && HasAt(source, k, d) ==> HasAt(c + d, k - (i + |d|), d)
  {
    var m := k - (i + |d|);
    var whole := c + d;
    assert source[i + |d|..i + |d| + |whole|] == whole by {
      assert source[i + |d|..i + |d| + |whole|]
        == source[i + |d|..i + |d| + |c|] + source[i + |d| + |c|..i + |d| + |c| + |d|];
    }
    if k < i + |d| + |c| && HasAt(source, k, d) {
      assert whole[m..m + |d|] == source[k..k + |d|];
    }
  }

  lemma FirstCloser(source: Text, d: Text, from: nat, j: nat)
    requires 0 < from <= j && ClosesAt(source, d, j) && |d| > 0 && forall k :: from <= k < j ==> !HasAt(source, k, d)
    ensures CloserFrom(source, d, from) == j
  {
    hide SpaceBefore, HasAt;
    assert HasAt(source, j, d);
    InBounds(source, d, j);
    forall k | from <= k < j ensures !ClosesAt(source, d, k) {
    }
  }

  lemma InBounds(s: Text, d: Text, j: nat)
    requires HasAt(s, j, d) && |d| > 0
    ensures j < |s| && j + |d| <= |s|
  {
  }

  lemma Closes(source: Text, i: nat, d: Text, c: Text, from: nat)
    requires Between(source, i, d, c) && IsTight(c) && |d| > 0 && i + |d| <= from <= i + |d| + |c| && 0 < from
    requires forall k :: from <= k < i + |d| + |c| ==> !HasAt(source, k, d)
    requires d == [STAR] ==> c[|c| - 1] != STAR && (i + 2 + |c| < |source| ==> source[i + 2 + |c|] != STAR)
    ensures CloserFrom(source, d, from) == i + |d| + |c|
  {
    var j := i + |d| + |c|;
    NoSpaceAround(source, i, d, c);
    BytesBetween(source, i, d, c);
    assert HasAt(source, j, d);
    assert ClosesAt(source, d, j) by {
      hide SpaceBefore, SpaceAt;
      if d == [STAR] {
        assert source[j - 1] == c[|c| - 1];
      }
    }
    FirstCloser(source, d, from, j);
  }

  // ---- A style --------------------------------------------------------------------------

  /** Of the five delimiters only the k-th opens at i. */
  lemma {:induction false} DelimitedFrom(source: Text, base: nat, i: nat, k: nat, to: nat)
    requires i < |source| && k <= to <= 5
    requires forall n: nat :: k <= n < to ==> !OpensAt(source, Delim(n), i)
    ensures Delimited(source, base, i, k) == Delimited(source, base, i, to)
    decreases 5 - k
  {
    hide OpensAt, CloserFrom, StarRun, Inlines, Rewrite;
    if k < to {
      assert !OpensAt(source, Delim(k), i);
      DelimitedFrom(source, base, i, k + 1, to);
    }
  }

  /** Text between two delimiters, which do not break within it. */
  ghost predicate IsStyled(source: Text, i: nat, k: nat, c: Text) {
    && k < 5 && Between(source, i, Delim(k), c) && IsTight(c) && Unbroken(c, Delim(k))
    && c[0] != Delim(k)[0] && c[|c| - 1] != Delim(k)[0]
    && var next := i + |Delim(k)| + |c| + |Delim(k)|; next < |source| ==> source[next] != Delim(k)[0]
  }

  lemma StyledOpens(source: Text, i: nat, k: nat, c: Text)
    requires IsStyled(source, i, k, c)
    ensures OpensAt(source, Delim(k), i) && forall n: nat :: n < k ==> !OpensAt(source, Delim(n), i)
    ensures CloserFrom(source, Delim(k), i + |Delim(k)| + 1) == i + |Delim(k)| + |c|
  {
    hide SpaceBefore, SpaceAt, CloserFrom, IsPlainByte, ClosesAt;
    var d := Delim(k);
    BytesBetween(source, i, d, c);
    NoSpaceAround(source, i, d, c);
    forall n: nat | n < k ensures !OpensAt(source, Delim(n), i) {
      if OpensAt(source, Delim(n), i) {
        DelimFirst(source, i, n);
        PairFirst(source, i, n);
      }
    }
    forall m | i + |d| + 1 <= m < i + |d| + |c| ensures !HasAt(source, m, d) {
      WithinBetween(source, i, d, c, m);
    }
    Closes(source, i, d, c, i + |d| + 1);
  }

  lemma PairFirst(source: Text, i: nat, n: nat)
    requires n < 4 && OpensAt(source, Delim(n), i)
    ensures i + 1 < |source| && source[i + 1] == Delim(n)[1]
  {
    hide SpaceAt;
    assert source[i + 1] == source[i..i + 2][1];
  }

  lemma NoStarRun(source: Text, base: nat, start: nat, closeAt: nat)
    requires 2 <= start < closeAt && closeAt + 2 <= |source|
    requires closeAt + 2 < |source| ==> source[closeAt + 2] != STAR
    ensures StarRun(source, base, start, closeAt) == NoMatch
  {
    hide HasAt, Inlines;
    ThreeStars(source, closeAt);
  }

  /** A style's node: its words from where they stand, or a spoiler's, from
      their tokens' text. */
  function StyleNode(base: nat, start: nat, k: nat, c: Text): Inline {
    if k == 3 then Styled(Inlines(TokensAsText(c), 0), true) else Styled(Inlines(c, base + start), false)
  }

  lemma DelimitedHere(source: Text, base: nat, i: nat, k: nat, c: Text)
    requires IsStyled(source, i, k, c)
    ensures var start := i + |Delim(k)|;
            i < |source| && Delimited(source, base, i, k) == Found(StyleNode(base, start, k, c), start + |c| + |Delim(k)|)
  {
    hide Rewrite, Inlines, HasAt, OpensAt, CloserFrom, StarRun, IsTight, Unbroken, Delim;
    var d := Delim(k);
    BytesBetween(source, i, d, c);
    StyledOpens(source, i, k, c);
    var start, j := i + |d|, i + |d| + |c|;
    FirstDelim();
    if k == 0 {
      NoStarRun(source, base, start, j);
    }
    assert source[start..j] == c;
  }

  lemma FirstDelim()
    ensures Delim(0) == [STAR, STAR] && |Delim(3)| == 2
  {
  }

  lemma StyleStep(source: Text, base: nat, i: nat, k: nat, c: Text)
    requires IsStyled(source, i, k, c)
    ensures var start := i + |Delim(k)|;
            i < |source| && StepAt(source, base, i) == Emit(StyleNode(base, start, k, c), start + |c| + |Delim(k)|)
  {
    hide TokenLen, Labelled, UrlLen, Rewrite, Inlines, HasAt, OpensAt, CloserFrom, StarRun, IsTight, Unbroken, BothStyles;
    hide Delimited, StyleNode;
    BytesBetween(source, i, Delim(k), c);
    DelimitedHere(source, base, i, k, c);
    StyledOpens(source, i, k, c);
    NotBothHere(source, base, i, k, c);
    DelimitedFrom(source, base, i, 0, k);
    assert source[i] == Delim(k)[0];
  }

  lemma NotBothHere(source: Text, base: nat, i: nat, k: nat, c: Text)
    requires IsStyled(source, i, k, c)
    ensures i < |source| && BothStyles(source, base, i) == NoMatch
  {
    hide HasAt, Unbroken, BothStyles;
    BytesBetween(source, i, Delim(k), c);
    assert source[i + |Delim(k)|] == c[0];
    NotBoth(source, base, i);
  }

  // ---- Bold and italic, code, a label -------------------------------------------------------

  const THREE_STARS: Text := [STAR, STAR, STAR]

  lemma ThreeClose(source: Text, i: nat, c: Text)
    requires Between(source, i, THREE_STARS, c) && IsTight(c) && STAR !in c
    ensures CloserFrom(source, THREE_STARS, i + 3) == i + 3 + |c|
  {
    hide CloserFrom, IsTight, HasAt;
    BytesBetween(source, i, THREE_STARS, c);
    forall m | i + 3 <= m < i + 3 + |c| ensures !HasAt(source, m, THREE_STARS) {
      assert source[i + 3 + (m - (i + 3))] == c[m - (i + 3)];
      ThreeStars(source, m);
    }
    Closes(source, i, THREE_STARS, c, i + 3);
  }

  lemma BothIs(source: Text, base: nat, i: nat, j: nat)
    requires i < |source| && HasAt(source, i, THREE_STARS) && CloserFrom(source, THREE_STARS, i + 3) == j
    ensures i + 3 <= j && j + 3 <= |source| && BothStyles(source, base, i)
            == Found(Styled([Styled(Inlines(source[i + 3..j], base + i + 3), false)], false), j + 3)
  {
    hide Inlines, CloserFrom, HasAt;
  }

  lemma OpensThree(source: Text, i: nat, c: Text)
    requires Between(source, i, THREE_STARS, c)
    ensures i < |source| && source[i] == STAR && HasAt(source, i, THREE_STARS)
    ensures i + 3 + |c| <= |source| && source[i + 3..i + 3 + |c|] == c
  {
    assert source[i] == source[i..i + 3][0];
  }

  lemma BothHere(source: Text, base: nat, i: nat, c: Text)
    requires Between(source, i, THREE_STARS, c) && IsTight(c) && STAR !in c
    ensures i < |source| && source[i] == STAR
    ensures BothStyles(source, base, i)
            == Found(Styled([Styled(Inlines(c, base + i + 3), false)], false), i + 3 + |c| + 3)
  {
    hide *;
    OpensThree(source, i, c);
    ThreeClose(source, i, c);
    BothIs(source, base, i, i + 3 + |c|);
  }

  lemma BoldItalicStep(source: Text, base: nat, i: nat, c: Text)
    requires Between(source, i, THREE_STARS, c) && IsTight(c) && STAR !in c
    ensures i < |source| && StepAt(source, base, i)
            == Emit(Styled([Styled(Inlines(c, base + i + 3), false)], false), i + 3 + |c| + 3)
  {
    hide TokenLen, Labelled, UrlLen, Rewrite, Inlines, Delimited, BothStyles, Between, IsTight;
    BothHere(source, base, i, c);
  }

  lemma CodeStep(source: Text, base: nat, i: nat, c: Text)
    requires Between(source, i, [BACKTICK], c) && |c| > 0 && BACKTICK !in c
    ensures i < |source| && StepAt(source, base, i) == Emit(Code(TokensAsText(c)), i + 1 + |c| + 1)
  {
    hide TokenLen, Labelled, UrlLen, Rewrite, Inlines, Delimited, BothStyles;
    BytesBetween(source, i, [BACKTICK], c);
    var j := i + 1 + |c|;
    forall k | i + 1 <= k < j ensures source[k] != BACKTICK {
      assert source[k] == c[k - (i + 1)];
    }
    assert source[i + 0] == BACKTICK && source[i + 1 + |c| + 0] == BACKTICK;
    assert IndexFrom(source, BACKTICK, i + 1) == j;
    assert source[i + 1..j] == c;
  }

  /** "[c](address)" at i. */
  ghost predicate IsLabelled(source: Text, i: nat, c: Text, address: Text) {
    && i + |c| + |address| + 4 <= |source| && source[i] == OPEN_BRACKET && source[i + 1..i + 1 + |c|] == c
    && source[i + 1 + |c|] == CLOSE_BRACKET && source[i + 2 + |c|] == OPEN_PAREN
    && source[i + 3 + |c|..i + 3 + |c| + |address|] == address && source[i + 3 + |c| + |address|] == CLOSE_PAREN
    && IsAddress(address)
  }

  ghost predicate IsAddress(address: Text) {
    UrlWhole(address) && Balanced(address, 0, 0)
  }

  /** From k on, with so many parentheses open: each ")" closes one, and none is
      left open. */
  predicate Balanced(address: Text, k: nat, depth: nat)
    requires k <= |address|
    decreases |address| - k
  {
    if k == |address| then depth == 0
    else if address[k] == OPEN_PAREN then Balanced(address, k + 1, depth + 1)
    else if address[k] == CLOSE_PAREN then depth > 0 && Balanced(address, k + 1, depth - 1)
    else Balanced(address, k + 1, depth)
  }

  lemma {:induction false} LabelEndIs(s: Text, at: nat, end: nat)
    requires at <= end < |s| && s[end] == CLOSE_BRACKET
    requires forall k :: at <= k < end ==> s[k] != CLOSE_BRACKET && s[k] != OPEN_BRACKET && s[k] != BACKSLASH
    ensures LabelEnd(s, at) == end
    decreases end - at
  {
    hide Escapable;
    if at < end {
      LabelEndIs(s, at + 1, end);
    }
  }

  lemma {:induction false} HrefEndIs(s: Text, from: nat, address: Text, k: nat, depth: nat)
    requires from + |address| < |s| && s[from + |address|] == CLOSE_PAREN && k <= |address|
    requires (forall n :: 0 <= n < |address| ==> s[from + n] == address[n]) && Balanced(address, k, depth)
    ensures HrefEnd(s, from + k, depth) == from + |address|
    decreases |address| - k
  {
    if k < |address| {
      var b := address[k];
      assert s[from + k] == b;
      HrefEndIs(s, from, address, k + 1,
                if b == OPEN_PAREN then depth + 1 else if b == CLOSE_PAREN then depth - 1 else depth);
    }
  }

  lemma LabelStep(source: Text, base: nat, i: nat, c: Text, address: Text)
    requires IsLabelled(source, i, c, address) && IsTight(c)
    requires CLOSE_BRACKET !in c && OPEN_BRACKET !in c && BACKSLASH !in c
    requires !HoldsLink(Inlines(TokensAsText(c), 0))
    ensures StepAt(source, base, i) == Emit(Link(address, Inlines(TokensAsText(c), 0)), i + 4 + |c| + |address|)
  {
    hide TokenLen, Labelled, UrlLen, Rewrite, Inlines, Delimited, BothStyles, HoldsLink;
    LabelHere(source, i, c, address);
  }

  lemma LabelHere(source: Text, i: nat, c: Text, address: Text)
    requires IsLabelled(source, i, c, address) && IsTight(c)
    requires CLOSE_BRACKET !in c && OPEN_BRACKET !in c && BACKSLASH !in c
    requires !HoldsLink(Inlines(TokensAsText(c), 0))
    ensures Labelled(source, i) == Found(Link(address, Inlines(TokensAsText(c), 0)), i + 4 + |c| + |address|)
  {
    hide Rewrite, Inlines, HoldsLink, LabelEnd, HrefEnd, UrlWhole, Balanced, AllSpace, IsTight;
    var end, from := i + 1 + |c|, i + 3 + |c|;
    forall k | i + 1 <= k < end ensures source[k] == c[k - (i + 1)] && source[k] in c {
      assert source[k] == source[i + 1..end][k - (i + 1)];
    }
    LabelEndIs(source, i + 1, end);
    forall n | 0 <= n < |address| ensures source[from + n] == address[n] {
      assert source[from + n] == source[from..from + |address|][n];
    }
    HrefEndIs(source, from, address, 0, 0);
    TwoAt(source, end);
    TightHasText(c);
  }

  lemma TwoAt(s: Text, i: nat)
    ensures i + 2 <= |s| ==> s[i..i + 2] == [s[i], s[i + 1]]
  {
  }

  lemma TightHasText(c: Text)
    requires IsTight(c)
    ensures !AllSpace(c)
  {
  }

  // ---- What is read inside ---------------------------------------------------------------------

  /** A stretch without tokens shows no mention. */
  lemma NoTokensShown(source: Text, base: nat)
    requires forall q :: 0 <= q < |source| ==> !TokenAt(source, q)
    ensures Shown(Inlines(source, base)) == [] && Live(Inlines(source, base)) == []
  {
    hide TokenLen, TokenAt, Inlines, Shown, Live, IsToken;
    ParseSound(source, base);
    NoneFromSound(Inlines(source, base), source, base, 0);
  }

  lemma NoTokensShownFrom(source: Text, base: nat, i: nat, text: Text)
    requires i <= |source| && forall q :: i <= q < |source| ==> !TokenAt(source, q)
    ensures Shown(InlinesFrom(source, base, i, text)) == [] && Live(InlinesFrom(source, base, i, text)) == []
  {
    hide TokenLen, TokenAt, InlinesFrom, Shown, Live, IsToken;
    FromSound(source, base, i, text);
    NoneFromSound(InlinesFrom(source, base, i, text), source, base, i);
  }

  lemma NoneFromSound(nodes: seq<Inline>, source: Text, base: nat, lo: nat)
    requires Sound(nodes, source, base, lo, |source|) && forall q :: lo <= q < |source| ==> !TokenAt(source, q)
    ensures Shown(nodes) == [] && Live(nodes) == []
  {
    hide TokenLen, Shown, Live, IsToken, Accounted;
    if |Live(nodes)| > 0 {
      ReadsToken(Live(nodes)[0], source, base, lo);
    }
  }

  lemma ReadsToken(m: Inline, source: Text, base: nat, lo: nat)
    requires Reads(m, source, base, lo, |source|)
    ensures lo <= m.at - base < |source| && TokenAt(source, m.at - base)
  {
    hide TokenLen;
    var p, n := m.at - base, |m.token|;
    assert source[p..][..n] == m.token;
    TokenPrefix(source[p..], n);
  }

  lemma TokenAlone(t: Text, base: nat)
    requires IsToken(t)
    ensures Inlines(t, base) == [Mention(t, base)]
  {
    hide TokenLen, IsToken;
    TokenShape(t);
    assert t[0..] == t && t[..|t|] == t && t[0..|t|] == t;
    TokenStep(t, base, 0, t);
    EmitStep(t, base, 0, []);
    assert Flush([]) + [Mention(t, base)] == [Mention(t, base)];
    assert InlinesFrom(t, base, |t|, []) == [];
  }

  lemma TokenStep(source: Text, base: nat, i: nat, t: Text)
    requires IsToken(t) && i + |t| <= |source| && source[i..i + |t|] == t
    ensures StepAt(source, base, i) == Emit(Mention(t, base + i), i + |t|)
    ensures source[i] == LESS && TokenLen(source[i..]) == |t|
  {
    hide TokenLen;
    TokenShape(t);
    assert source[i..][..|t|] == t;
    assert source[i] == t[0];
    TokenPrefix(source[i..], |t|);
  }

  // ---- A handle as words ---------------------------------------------------------------------------

  predicate IsHandleText(s: Text) {
    forall k :: 0 <= k < |s| ==> IsNameChar(Channel, s[k]) || s[k] == AT || s[k] == HASH
  }

  lemma {:induction false} HoldsLinkSplit(a: seq<Inline>, b: seq<Inline>)
    ensures HoldsLink(a + b) <==> HoldsLink(a) || HoldsLink(b)
  {
    hide NodeHoldsLink;
    if |a| == 0 {
      assert a + b == b;
    } else {
      assert (a + b)[1..] == a[1..] + b;
      HoldsLinkSplit(a[1..], b);
    }
  }

  lemma OneHoldsLink(node: Inline)
    ensures HoldsLink([node]) <==> NodeHoldsLink(node)
  {
    assert [node][1..] == [];
  }

  lemma TextHoldsNoLink(text: Text)
    ensures !HoldsLink(Flush(text))
  {
  }

  lemma HandleHasNoAddress(s: Text, i: nat)
    requires IsHandleText(s) && i < |s|
    ensures UrlLen(s[i..]) == 0
  {
    if SchemeLen(s[i..]) > 0 {
      SchemeHasAddress(s[i..]);
      var n :| 4 <= n <= 6 && HasAt(s[i..], n, ADDRESS);
      AddressAt(s[i..], n);
      NotColon(s, i + n);
    }
  }

  lemma NotColon(s: Text, p: nat)
    requires IsHandleText(s) && p < |s|
    ensures s[p] != COLON
  {
  }

  lemma {:induction false} HandleStep(s: Text, base: nat, i: nat)
    requires IsHandleText(s) && i < |s|
    ensures var step := StepAt(s, base, i); step.Emit? ==> !HoldsLink([step.node])
    decreases |s|, 1, 0
  {
    hide TokenLen, Labelled, UrlLen, Rewrite, Inlines, HoldsLink, BothStyles, Delimited;
    assert IsNameChar(Channel, s[i]) || s[i] == AT || s[i] == HASH;
    HandleHasNoAddress(s, i);
    NotBoth(s, base, i);
    HandleStyle(s, base, i);
  }

  lemma {:induction false} HandleStyle(s: Text, base: nat, i: nat)
    requires IsHandleText(s) && i < |s|
    ensures var m := Delimited(s, base, i, 0); m.Found? ==> !HoldsLink([m.node])
    decreases |s|, 0, 0
  {
    hide TokenLen, StarRun, SpaceAt, CloserFrom, Inlines, HoldsLink, Rewrite, HasAt;
    assert IsNameChar(Channel, s[i]) || s[i] == AT || s[i] == HASH;
    forall n: nat | n < 5 && n != 1 ensures !OpensAt(s, Delim(n), i) {
      if OpensAt(s, Delim(n), i) {
        DelimFirst(s, i, n);
      }
    }
    DelimitedFrom(s, base, i, 0, 1);
    DelimitedFrom(s, base, i, 2, 5);
    var m := Delimited(s, base, i, 1);
    if m.Found? {
      var start := i + 2;
      var j := CloserFrom(s, Delim(1), start + 1);
      assert m.node == Styled(Inlines(s[start..j], base + start), false);
      HandleParse(s[start..j], base + start);
      OneHoldsLink(m.node);
    }
  }

  lemma {:induction false} HandleFrom(s: Text, base: nat, i: nat, text: Text)
    requires IsHandleText(s) && i <= |s|
    ensures !HoldsLink(InlinesFrom(s, base, i, text))
    decreases |s|, 2, |s| - i
  {
    hide StepAt, HoldsLink, IsHandleText;
    TextHoldsNoLink(text);
    if i < |s| {
      HandleStep(s, base, i);
      match StepAt(s, base, i)
      case Emit(node, next) =>
        HandleFrom(s, base, next, []);
        HoldsLinkSplit(Flush(text), [node]);
        HoldsLinkSplit(Flush(text) + [node], InlinesFrom(s, base, next, []));
      case Keep(b, next) => HandleFrom(s, base, next, text + [b]);
    }
  }

  /** A handle's text, whatever styles it makes, holds no link. */
  lemma {:induction false} HandleParse(s: Text, base: nat)
    requires IsHandleText(s)
    ensures !HoldsLink(Inlines(s, base))
    decreases |s|, 3, 0
  {
    hide InlinesFrom, HoldsLink, IsHandleText;
    HandleFrom(s, base, 0, []);
  }
}
