/** A token in everything that can stand around it, between two stretches of
    text without markup: whether it is a mention there. */
module Places {
  import opened Bytes
  import opened Tokens
  import opened Rewriting
  import opened Markdown
  import opened Offsets
  import opened Blocks
  import opened Mentions
  import opened Contexts

  // ---- What can stand around it -------------------------------------------------

  datatype Context =
    Bare | Escaped(mark: byte) | Bold | Underlined | Struck | Italic | BoldItalic | Spoiler | InCode
  | InLabel(address: Text)
  {
    function Opening(): Text {
      match this
      case Bare => []
      case Escaped(mark) => [BACKSLASH, mark]
      case Bold => [STAR, STAR]
      case Underlined => [UNDERSCORE, UNDERSCORE]
      case Struck => [TILDE, TILDE]
      case Italic => [STAR]
      case BoldItalic => [STAR, STAR, STAR]
      case Spoiler => [PIPE, PIPE]
      case InCode => [BACKTICK]
      case InLabel(_) => [OPEN_BRACKET]
    }

    function Closing(): Text {
      match this
      case InLabel(address) => [CLOSE_BRACKET, OPEN_PAREN] + address + [CLOSE_PAREN]
      case _ => Opening()
    }

    function Around(words: Text): Text {
      Opening() + words + Closing()
    }

    ghost predicate Valid() {
      (InLabel? ==> IsAddress(address)) && (Escaped? ==> Escapable(mark))
    }

    /** It makes a node of what it holds. */
    predicate IsNode() {
      !Bare? && !Escaped?
    }

    /** It makes what it holds neither code nor a spoiler nor a link's words. */
    predicate KeepsMentions() {
      !Spoiler? && !InCode? && !InLabel?
    }
  }

  const PAIR: Text := [UNDERSCORE, UNDERSCORE]

  /** "__" somewhere in it. */
  ghost predicate HoldsPair(s: Text) {
    exists m: nat :: HasAt(s, m, PAIR)
  }

  /** The token is a mention there. Its own "__" ends an underline. */
  ghost predicate Lives(c: Context, t: Text) {
    c.KeepsMentions() && !(c.Underlined? && HoldsPair(t))
  }

  // ---- The bytes of a token ---------------------------------------------------------

  predicate IsTokenByte(b: byte) {
    || IsNameChar(Channel, b) || b == AT || b == HASH || b == COLON || b == LESS || b == GREATER
  }

  lemma IdChars(k: nat, b: byte)
    requires IsIdChar(k, b)
    ensures IsNameChar(Channel, b)
  {
  }

  lemma PartsBytes(parts: Parts)
    requires parts.Valid()
    ensures forall k :: 0 <= k < |TokenText(parts)| ==> IsTokenByte(TokenText(parts)[k])
  {
    var token := TokenText(parts);
    var idAt := |Prefix(parts.kind)|;
    var nameAt := idAt + ID_LENGTH + 1;
    Layout(parts, []);
    assert token + [] == token;
    forall k | 0 <= k < |token| ensures IsTokenByte(token[k]) {
      if k < idAt {
        assert token[k] == token[..idAt][k];
      } else if k < nameAt - 1 {
        assert token[k] == parts.id[k - idAt];
        IdChars(k - idAt, parts.id[k - idAt]);
      } else if nameAt <= k < |token| - 1 {
        assert token[k] == parts.name[k - nameAt];
        assert IsNameChar(parts.kind, parts.name[k - nameAt]);
      }
    }
  }

  lemma TokenBytes(t: Text)
    requires IsToken(t)
    ensures forall k :: 0 <= k < |t| ==> IsTokenByte(t[k])
    ensures |t| > 2 && t[0] == LESS && t[|t| - 1] == GREATER && IsTight(t)
  {
    hide TokenLen, IsTokenByte;
    PartsOfToken(t);
    PartsBytes(PartsOf(t));
    KindShows(PartsOf(t));
    Layout(PartsOf(t), []);
    assert t + [] == t;
  }

  /** The bytes that no token holds. */
  lemma NotInToken(t: Text)
    requires forall k :: 0 <= k < |t| ==> IsTokenByte(t[k])
    ensures STAR !in t && TILDE !in t && PIPE !in t && BACKTICK !in t && BACKSLASH !in t
    ensures OPEN_BRACKET !in t && CLOSE_BRACKET !in t && NEWLINE !in t
  {
  }

  lemma NameBytes(parts: Parts)
    requires parts.Valid()
    ensures IsHandleText(PlainText(parts)) && LESS !in PlainText(parts)
  {
    forall k | 0 <= k < |parts.name| ensures IsNameChar(Channel, parts.name[k]) {
      assert IsNameChar(parts.kind, parts.name[k]);
    }
  }

  lemma NoLessNoToken(s: Text)
    requires LESS !in s
    ensures forall q :: 0 <= q < |s| ==> !TokenAt(s, q)
  {
    hide TokenLen;
    forall q | 0 <= q < |s| ensures !TokenAt(s, q) {
      if s[q] != LESS {
        NotLess(s, q);
      }
    }
  }

  /** A token alone, written as text. */
  lemma TokenAsText(t: Text)
    requires IsToken(t)
    ensures TokensAsText(t) == PlainText(PartsOf(t))
  {
    hide TokenLen, PartsOf, Rewrite, PlainText;
    assert t[..|t|] == t && t[|t|..] == [];
    Unfold(AsText, t, 0);
    Unfold(AsText, [], |t|);
  }

  // ---- What stands inside -------------------------------------------------------------------

  predicate IsInnerByte(b: byte) {
    && b != STAR && b != TILDE && b != PIPE && b != BACKTICK && b != BACKSLASH && b != OPEN_BRACKET
    && b != CLOSE_BRACKET && b != NEWLINE
  }

  /** Words that end none of what can stand around them, but for an underline
      that their own "__" ends. */
  ghost predicate IsInner(w: Text) {
    && IsTight(w) && w[0] != UNDERSCORE && w[|w| - 1] != UNDERSCORE
    && forall k :: 0 <= k < |w| ==> IsInnerByte(w[k])
  }

  lemma NotInInner(w: Text)
    requires IsInner(w)
    ensures STAR !in w && TILDE !in w && PIPE !in w && BACKTICK !in w && BACKSLASH !in w
    ensures OPEN_BRACKET !in w && CLOSE_BRACKET !in w && NEWLINE !in w
  {
  }

  lemma TokenIsInner(t: Text)
    requires IsToken(t)
    ensures IsInner(t)
  {
    hide TokenLen, IsToken;
    TokenBytes(t);
    forall k | 0 <= k < |t| ensures IsInnerByte(t[k]) {
      assert IsTokenByte(t[k]);
    }
  }

  lemma HasAll(source: Text, i: nat, x: Text, y: Text, z: Text)
    requires HasAt(source, i, x + y + z)
    ensures HasAt(source, i, x) && HasAt(source, i + |x|, y) && HasAt(source, i + |x| + |y|, z)
  {
    var whole := x + y + z;
    assert whole[..|x|] == x && whole[|x|..|x| + |y|] == y && whole[|x| + |y|..] == z;
    HasPart(source, i, whole, 0, |x|);
    HasPart(source, i, whole, |x|, |x| + |y|);
    HasPart(source, i, whole, |x| + |y|, |whole|);
  }

  lemma HasPart(source: Text, i: nat, whole: Text, a: nat, b: nat)
    requires HasAt(source, i, whole) && a <= b <= |whole|
    ensures HasAt(source, i + a, whole[a..b])
  {
    forall k | a <= k < b ensures source[i + k] == whole[k] {
      assert source[i..i + |whole|][k] == source[i + k];
    }
    assert source[i + a..i + b] == whole[a..b];
  }

  lemma IsBetween(source: Text, i: nat, d: Text, c: Text)
    requires HasAt(source, i, d + c + d)
    ensures Between(source, i, d, c)
  {
    HasAll(source, i, d, c, d);
  }

  lemma FirstIs(s: Text, m: nat, d: Text)
    requires |d| > 0 && HasAt(s, m, d)
    ensures s[m] == d[0]
  {
    assert s[m] == s[m..m + |d|][0];
  }

  lemma NotBroken(t: Text, d: Text)
    requires |d| > 0 && d[0] !in t
    ensures Unbroken(t, d)
  {
    hide HasAt;
    forall m | 1 <= m < |t| ensures !HasAt(t + d, m, d) {
      if HasAt(t + d, m, d) {
        FirstIs(t + d, m, d);
      }
    }
  }

  lemma NoPair(t: Text)
    requires |t| > 0 && t[|t| - 1] != UNDERSCORE && !HoldsPair(t)
    ensures Unbroken(t, PAIR)
  {
    var whole := t + PAIR;
    forall m | 1 <= m < |t| ensures !HasAt(whole, m, PAIR) {
      if m + 2 <= |t| {
        assert whole[m..m + 2] == t[m..m + 2];
        assert !HasAt(t, m, PAIR);
      } else if HasAt(whole, m, PAIR) {
        FirstIs(whole, m, PAIR);
      }
    }
  }

  lemma StyledHere(source: Text, i: nat, k: nat, w: Text)
    requires IsInner(w) && k < 5 && HasAt(source, i, Delim(k) + w + Delim(k)) && (k == 1 ==> !HoldsPair(w))
    requires var next := i + |Delim(k) + w + Delim(k)|; next < |source| ==> IsPlainByte(source[next])
    ensures IsStyled(source, i, k, w)
  {
    hide HasAt, Between, HoldsPair, Unbroken, IsInnerByte;
    IsBetween(source, i, Delim(k), w);
    NotInInner(w);
    if k == 1 {
      NoPair(w);
    } else {
      assert Delim(k)[0] !in w;
      NotBroken(w, Delim(k));
    }
    assert w[0] in w && w[|w| - 1] in w;
  }

  // ---- The node it makes ------------------------------------------------------------------

  /** The node of words at offset `at`, by what stands around them: their own
      parse, or that of their tokens' text. */
  function NodeIn(c: Context, w: Text, at: nat): Inline
    requires c.IsNode()
  {
    match c
    case Spoiler => Styled(Inlines(TokensAsText(w), 0), true)
    case InCode => Code(TokensAsText(w))
    case InLabel(address) => Link(address, Inlines(TokensAsText(w), 0))
    case BoldItalic => Styled([Styled(Inlines(w, at), false)], false)
    case _ => Styled(Inlines(w, at), false)
  }

  /** The words can stand there: an underline's hold no "__", a link's no link. */
  ghost predicate Holds(c: Context, w: Text) {
    && IsInner(w) && (c.Underlined? ==> !HoldsPair(w))
    && (c.InLabel? ==> IsAddress(c.address) && !HoldsLink(Inlines(TokensAsText(w), 0)))
  }

  /** "**", "__", "~~", "||" and "*". */
  lemma InStyle(source: Text, base: nat, i: nat, k: nat, w: Text)
    requires IsInner(w) && k < 5 && HasAt(source, i, Delim(k) + w + Delim(k)) && (k == 1 ==> !HoldsPair(w))
    requires var next := i + |Delim(k) + w + Delim(k)|; next < |source| ==> IsPlainByte(source[next])
    ensures i < |source|
            && StepAt(source, base, i) == Emit(StyleNode(base, i + |Delim(k)|, k, w), i + |Delim(k) + w + Delim(k)|)
  {
    hide *;
    StyledHere(source, i, k, w);
    StyleStep(source, base, i, k, w);
    assert |Delim(k) + w + Delim(k)| == |Delim(k)| + |w| + |Delim(k)|;
  }

  lemma InStars(source: Text, base: nat, i: nat, w: Text)
    requires IsInner(w) && HasAt(source, i, THREE_STARS + w + THREE_STARS)
    ensures i < |source| && StepAt(source, base, i) == Emit(NodeIn(BoldItalic, w, base + i + 3), i + |w| + 6)
  {
    hide HasAt, Between, IsTight, IsInnerByte, StepAt, Inlines;
    IsBetween(source, i, THREE_STARS, w);
    NotInInner(w);
    BoldItalicStep(source, base, i, w);
  }

  lemma InTicks(source: Text, base: nat, i: nat, w: Text)
    requires IsInner(w) && HasAt(source, i, [BACKTICK] + w + [BACKTICK])
    ensures i < |source| && StepAt(source, base, i) == Emit(NodeIn(InCode, w, 0), i + |w| + 2)
  {
    hide HasAt, Between, IsInnerByte, StepAt, Rewrite;
    IsBetween(source, i, [BACKTICK], w);
    NotInInner(w);
    CodeStep(source, base, i, w);
  }

  lemma LabelHas(source: Text, i: nat, w: Text, address: Text)
    requires HasAt(source, i, [OPEN_BRACKET] + w + ([CLOSE_BRACKET, OPEN_PAREN] + address + [CLOSE_PAREN]))
    requires IsAddress(address)
    ensures IsLabelled(source, i, w, address)
  {
    hide IsAddress;
    var tail := [CLOSE_BRACKET, OPEN_PAREN] + address + [CLOSE_PAREN];
    HasAll(source, i, [OPEN_BRACKET], w, tail);
    HasAll(source, i + 1 + |w|, [CLOSE_BRACKET, OPEN_PAREN], address, [CLOSE_PAREN]);
    FirstIs(source, i, [OPEN_BRACKET]);
    var end := i + 1 + |w|;
    assert source[end] == source[end..end + 2][0] && source[end + 1] == source[end..end + 2][1];
    FirstIs(source, end + 2 + |address|, [CLOSE_PAREN]);
  }

  lemma InLink(source: Text, base: nat, i: nat, w: Text, address: Text)
    requires Holds(InLabel(address), w)
    requires HasAt(source, i, [OPEN_BRACKET] + w + ([CLOSE_BRACKET, OPEN_PAREN] + address + [CLOSE_PAREN]))
    ensures i < |source| && StepAt(source, base, i) == Emit(NodeIn(InLabel(address), w, 0), i + |w| + |address| + 4)
  {
    hide HasAt, IsTight, IsInnerByte, IsAddress, StepAt, Inlines, Rewrite, HoldsLink;
    LabelHas(source, i, w, address);
    NotInInner(w);
    LabelStep(source, base, i, w, address);
  }

  /** What stands around words, read: one node. */
  lemma InContext(c: Context, source: Text, base: nat, i: nat, w: Text)
    requires c.IsNode() && Holds(c, w) && HasAt(source, i, c.Around(w))
    requires var next := i + |c.Around(w)|; next < |source| ==> IsPlainByte(source[next])
    ensures i < |source|
    ensures StepAt(source, base, i) == Emit(NodeIn(c, w, base + i + |c.Opening()|), i + |c.Around(w)|)
  {
    hide HasAt, IsPlainByte, IsInner, IsAddress, StepAt, HoldsPair, HoldsLink, Inlines, Rewrite;
    match c
    case Bold => InStyle(source, base, i, 0, w);
    case Underlined => InStyle(source, base, i, 1, w);
    case Struck => InStyle(source, base, i, 2, w);
    case Spoiler => InStyle(source, base, i, 3, w);
    case Italic => InStyle(source, base, i, 4, w);
    case BoldItalic => InStars(source, base, i, w);
    case InCode => InTicks(source, base, i, w);
    case InLabel(address) => InLink(source, base, i, w, address);
  }

  // ---- A token's node ------------------------------------------------------------------------

  /** What a node shows is all live: these mentions. */
  ghost predicate ShowsOnly(node: Inline, ms: seq<Inline>) {
    ShownBy(node) == ms && LiveBy(node) == ms
  }

  lemma StyleShows(t: Text, at: nat)
    requires IsToken(t)
    ensures ShowsOnly(Styled(Inlines(t, at), false), [Mention(t, at)])
    ensures ShowsOnly(Styled([Styled(Inlines(t, at), false)], false), [Mention(t, at)])
  {
    hide TokenLen, IsToken, Inlines;
    TokenAlone(t, at);
    One(Mention(t, at));
    One(Styled([Mention(t, at)], false));
  }

  lemma HandleShows(t: Text, address: Text)
    requires IsToken(t)
    ensures var words := Inlines(TokensAsText(t), 0);
            && !HoldsLink(words)
            && ShowsOnly(Styled(words, true), []) && ShowsOnly(Link(address, words), [])
  {
    hide TokenLen, IsToken, Inlines, Rewrite, HoldsLink, PlainText, PartsOf, Shown, Live;
    TokenAsText(t);
    PartsOfToken(t);
    var s := PlainText(PartsOf(t));
    NameBytes(PartsOf(t));
    HandleParse(s, 0);
    NoLessNoToken(s);
    NoTokensShown(s, 0);
  }

  lemma NodeShows(c: Context, t: Text, at: nat)
    requires IsToken(t) && c.IsNode() && c.Valid()
    ensures ShowsOnly(NodeIn(c, t, at), if c.KeepsMentions() then [Mention(t, at)] else [])
    ensures c.Underlined? || Holds(c, t)
    ensures !HoldsPair(t) ==> Holds(c, t)
  {
    hide TokenLen, IsToken, Inlines, Rewrite, IsInner, HoldsLink, HoldsPair, IsAddress, Shown, Live;
    StyleShows(t, at);
    HandleShows(t, if c.InLabel? then c.address else []);
    TokenIsInner(t);
  }

  /** What stands around a token, read: one node, which shows the token where
      it is or shows nothing. */
  lemma TokenInContext(c: Context, source: Text, base: nat, i: nat, t: Text) returns (node: Inline)
    requires IsToken(t) && c.Valid() && !c.Escaped? && HasAt(source, i, c.Around(t))
    requires c.Underlined? ==> !HoldsPair(t)
    requires var next := i + |c.Around(t)|; next < |source| ==> IsPlainByte(source[next])
    ensures i < |source| && StepAt(source, base, i) == Emit(node, i + |c.Around(t)|)
    ensures ShowsOnly(node, if c.KeepsMentions() then [Mention(t, base + i + |c.Opening()|)] else [])
  {
    hide TokenLen, IsToken, IsPlainByte, StepAt, HoldsPair, Holds, NodeIn, Context.Valid;
    if c.Bare? {
      assert c.Around(t) == t;
      TokenStep(source, base, i, t);
      node := Mention(t, base + i);
    } else {
      NodeShows(c, t, base + i + |c.Opening()|);
      InContext(c, source, base, i, t);
      node := NodeIn(c, t, base + i + |c.Opening()|);
    }
  }

  // ---- An underline that the token itself ends ----------------------------------------------

  lemma PrefixHoldsNone(t: Text, m: nat)
    requires IsToken(t) && m < |t|
    ensures forall q :: 0 <= q < m ==> !TokenAt(t[..m], q)
  {
    hide TokenLen;
    TokenShape(t);
    forall q | 0 <= q < m ensures !TokenAt(t[..m], q) {
      if q > 0 {
        NotLess(t[..m], q);
      } else {
        AtStart(t[..m]);
        if TokenLen(t[..m]) > 0 {
          TokenPrefix(t, m);
        }
      }
    }
  }

  lemma NoSpaceAfter(s: Text, p: nat)
    requires 0 < p <= |s| && IsTokenByte(s[p - 1])
    ensures !SpaceBefore(s, p)
  {
  }

  lemma ByteIs(source: Text, start: nat, t: Text, m: nat)
    requires HasAt(source, start, t) && m < |t|
    ensures start + m < |source| && source[start + m] == t[m]
  {
    assert source[start + m] == source[start..start + |t|][m];
  }

  lemma ClosesWithin(source: Text, start: nat, t: Text, m: nat)
    requires HasAt(source, start, t) && 0 < m && HasAt(t, m, PAIR) && forall k :: 0 <= k < |t| ==> IsTokenByte(t[k])
    ensures m + 2 <= |t| && ClosesAt(source, PAIR, start + m)
  {
    hide HasAt, IsTokenByte, SpaceBefore;
    InBounds(t, PAIR, m);
    HasPart(source, start, t, m, m + 2);
    PairIs(t, m);
    ByteIs(source, start, t, m - 1);
    NoSpaceAfter(source, start + m);
  }

  lemma PairIs(t: Text, m: nat)
    requires HasAt(t, m, PAIR)
    ensures m + 2 <= |t| && t[m..m + 2] == PAIR
  {
  }

  /** The first "__" in the token closes. */
  lemma ClosesIn(source: Text, start: nat, t: Text) returns (j: nat)
    requires IsToken(t) && HoldsPair(t) && HasAt(source, start, t)
    ensures CloserFrom(source, PAIR, start + 1) == j && start < j < start + |t|
  {
    hide TokenLen, IsToken, HasAt, ClosesAt, CloserFrom, IsTokenByte;
    TokenBytes(t);
    var m: nat :| HasAt(t, m, PAIR);
    FirstIs(t, m, PAIR);
    ClosesWithin(source, start, t, m);
    InBounds(source, t, start);
    assert ClosesAt(source, PAIR, start + m);
    j := CloserFrom(source, PAIR, start + 1);
  }

  lemma UnderlineIs(source: Text, base: nat, i: nat, j: nat)
    requires i < |source| && OpensAt(source, PAIR, i) && CloserFrom(source, PAIR, i + 3) == j
    ensures source[i] == UNDERSCORE && i + 2 < j && j + 2 <= |source|
    ensures StepAt(source, base, i) == Emit(Styled(Inlines(source[i + 2..j], base + i + 2), false), j + 2)
  {
    hide TokenLen, Labelled, UrlLen, Rewrite, Inlines, HasAt, OpensAt, CloserFrom, StarRun, BothStyles;
    DelimFirst(source, i, 1);
    DelimFirst(source, i, 0);
    NotBoth(source, base, i);
    DelimitedFrom(source, base, i, 0, 1);
    assert Delimited(source, base, i, 1) == Found(Styled(Inlines(source[i + 2..j], base + i + 2), false), j + 2);
  }

  lemma UnderlineOpens(source: Text, i: nat, t: Text)
    requires IsToken(t) && HasAt(source, i, PAIR + t + PAIR)
    ensures i < |source| && OpensAt(source, PAIR, i) && HasAt(source, i + 2, t)
  {
    hide TokenLen, IsToken, IsTokenByte;
    HasAll(source, i, PAIR, t, PAIR);
    TokenBytes(t);
    FirstIs(source, i + 2, t);
  }

  lemma Broken(source: Text, base: nat, i: nat, t: Text) returns (node: Inline, next: nat)
    requires IsToken(t) && HoldsPair(t) && HasAt(source, i, PAIR + t + PAIR)
    ensures i + 2 < next <= |source| && source[i] == UNDERSCORE && StepAt(source, base, i) == Emit(node, next)
    ensures ShowsOnly(node, [])
  {
    hide TokenLen, IsToken, HasAt, OpensAt, CloserFrom, StepAt, Inlines, Shown, Live, HoldsPair, TokenAt;
    UnderlineOpens(source, i, t);
    var j := ClosesIn(source, i + 2, t);
    UnderlineIs(source, base, i, j);
    next := j + 2;
    var part := source[i + 2..j];
    node := Styled(Inlines(part, base + i + 2), false);
    PartIs(source, i + 2, t, j - (i + 2));
    PrefixHoldsNone(t, j - (i + 2));
    NoTokensShown(part, base + i + 2);
  }

  lemma PartIs(source: Text, at: nat, t: Text, m: nat)
    requires HasAt(source, at, t) && m <= |t|
    ensures at + m <= |source| && source[at..at + m] == t[..m]
  {
    HasPart(source, at, t, 0, m);
  }

  // ---- A line ---------------------------------------------------------------------------------

  /** Between a and b. */
  function Placed(c: Context, a: Text, words: Text, b: Text): Text {
    a + c.Around(words) + b
  }

  lemma PlacedParts(c: Context, a: Text, words: Text, b: Text)
    ensures var s := Placed(c, a, words, b);
            var next := |a| + |c.Around(words)|;
            && s[..|a|] == a && HasAt(s, |a|, c.Around(words)) && next <= |s| && s[next..] == b
            && (next < |s| ==> s[next] == b[0])
  {
  }

  /** What stands around words starts with a byte that no address runs
      through, and is no fence. */
  lemma AroundStops(c: Context, w: Text)
    requires IsInner(w) && c.Valid() && (c.Bare? ==> |w| > 1 && Stops(w[0]) && !IsBlank(w[1]))
    ensures var m := c.Around(w);
      && |m| > 1 && Stops(m[0]) && !IsBlank(m[0]) && !IsBlank(m[1]) && (m[0] != BACKTICK || m[1] != BACKTICK)
  {
    NotInInner(w);
    var m := c.Around(w);
    assert w[0] in w && m[|c.Opening()|] == w[0];
    assert !c.Bare? ==> m[0] == c.Opening()[0] && m[1] == if |c.Opening()| == 1 then w[0] else c.Opening()[1];
  }

  lemma TicksFirst(s: Text)
    ensures HasAt(s, 0, TICKS) ==> |s| > 2 && s[0] == BACKTICK && s[1] == BACKTICK
  {
    if HasAt(s, 0, TICKS) {
      assert s[0] == s[0..3][0] && s[1] == s[0..3][1];
    }
  }

  lemma NodeAround(x: seq<Inline>, node: Inline, y: seq<Inline>, ms: seq<Inline>)
    requires ShowsOnly(node, ms) && Shown(x) == [] && Live(x) == [] && Shown(y) == [] && Live(y) == []
    ensures Shown(x + [node] + y) == ms && Live(x + [node] + y) == ms
  {
    hide Shown, Live, ShownBy, LiveBy;
    One(node);
    ShownSplit(x, [node]);
    ShownSplit(x + [node], y);
    LiveSplit(x, [node]);
    LiveSplit(x + [node], y);
    assert [] + ms + [] == ms;
  }

  lemma FlushShows(text: Text)
    ensures Shown(Flush(text)) == [] && Live(Flush(text)) == []
  {
    if |text| > 0 {
      One(Plain(text));
    }
  }

  /** A line of words that can stand where they do. */
  lemma LineParses(c: Context, a: Text, w: Text, b: Text, base: nat)
    requires c.IsNode() && Holds(c, w) && c.Valid() && NoMarkup(a) && NoMarkup(b)
    ensures Inlines(Placed(c, a, w, b), base)
            == Flush(a) + [NodeIn(c, w, base + |a| + |c.Opening()|)] + Flush(b)
  {
    hide *;
    var s := Placed(c, a, w, b);
    PlacedParts(c, a, w, b);
    HoldsInner(c, w);
    AroundStops(c, w);
    InBoundsFirst(s, |a|, c.Around(w));
    FirstPlain(b);
    InContext(c, s, base, |a|, w);
    Contexts.Around(s, base, |a|, |a| + |c.Around(w)|, NodeIn(c, w, base + |a| + |c.Opening()|));
  }

  lemma HoldsInner(c: Context, w: Text)
    requires Holds(c, w)
    ensures IsInner(w) && (c.IsNode() ==> !c.Bare?)
  {
  }

  lemma MentionShows(t: Text, at: nat)
    ensures ShowsOnly(Mention(t, at), [Mention(t, at)])
  {
  }

  lemma EscapeStep(s: Text, base: nat, i: nat, text: Text)
    requires i + 2 <= |s| && s[i] == BACKSLASH && Escapable(s[i + 1])
    ensures InlinesFrom(s, base, i, text) == InlinesFrom(s, base, i + 2, text + [s[i + 1]])
  {
    hide TokenLen, Labelled, UrlLen, Rewrite, Inlines, Delimited, BothStyles, Escapable;
    assert StepAt(s, base, i) == Keep(s[i + 1], i + 2);
  }

  lemma EscapedParts(mark: byte, a: Text, t: Text, b: Text)
    ensures var s, end := Placed(Escaped(mark), a, t, b), |a| + 2 + |t|;
            && end + 2 <= |s| && s[..|a|] == a && s[|a|] == BACKSLASH && s[|a| + 1] == mark && s[|a| + 2..end] == t
            && s[end] == BACKSLASH && s[end + 1] == mark && s[end + 2..|s|] == b
  {
    var m := [BACKSLASH, mark];
    assert Placed(Escaped(mark), a, t, b) == a + (m + t + m) + b;
  }

  /** Escaped marks on both sides are text. */
  lemma EscapedLine(mark: byte, a: Text, t: Text, b: Text, base: nat)
    requires IsToken(t) && Escapable(mark) && NoMarkup(a) && NoMarkup(b)
    ensures Inlines(Placed(Escaped(mark), a, t, b), base)
            == Flush(a + [mark]) + [Mention(t, base + |a| + 2)] + Flush([mark] + b)
  {
    hide *;
    var s, at, end := Placed(Escaped(mark), a, t, b), |a| + 2, |a| + 2 + |t|;
    EscapedParts(mark, a, t, b);
    BackslashStops();
    BeforeNode(s, base, |a|);
    EscapeStep(s, base, |a|, a);
    TokenStep(s, base, at, t);
    EmitStep(s, base, at, a + [mark]);
    EscapeStep(s, base, end, []);
    assert [] + [mark] == [mark];
    PlainRun(s, base, end + 2, |s|, end + 2, [mark]);
    EndOfLine(s, base, [mark] + b);
  }

  lemma BackslashStops()
    ensures Stops(BACKSLASH)
  {
  }

  lemma EndOfLine(s: Text, base: nat, text: Text)
    ensures InlinesFrom(s, base, |s|, text) == Flush(text)
  {
  }

  /** A line with a token, parsed at offset base. */
  lemma LineShows(c: Context, a: Text, t: Text, b: Text, base: nat)
    requires IsToken(t) && c.Valid() && NoMarkup(a) && NoMarkup(b)
    ensures var nodes := Inlines(Placed(c, a, t, b), base);
            Shown(nodes) == Live(nodes) == if Lives(c, t) then [Mention(t, base + |a| + |c.Opening()|)] else []
  {
    hide *;
    var s := Placed(c, a, t, b);
    PlacedParts(c, a, t, b);
    TokenStarts(t);
    AroundStops(c, t);
    InBoundsFirst(s, |a|, c.Around(t));
    LivesIs(c, t);
    FlushShows(a);
    if c.Underlined? && HoldsPair(t) {
      UnderlineText(t);
      var node, next := Broken(s, base, |a|, t);
      BeforeNode(s, base, |a|);
      EmitStep(s, base, |a|, a);
      AfterLess(s, |a|, t, next, b);
      NoTokensShownFrom(s, base, next, []);
      NodeAround(Flush(a), node, InlinesFrom(s, base, next, []), []);
    } else if c.Escaped? {
      EscapedLine(c.mark, a, t, b, base);
      FlushShows(a + [c.mark]);
      FlushShows([c.mark] + b);
      MentionShows(t, base + |a| + 2);
      NodeAround(Flush(a + [c.mark]), Mention(t, base + |a| + 2), Flush([c.mark] + b), [Mention(t, base + |a| + 2)]);
    } else {
      FirstPlain(b);
      var node := TokenInContext(c, s, base, |a|, t);
      Contexts.Around(s, base, |a|, |a| + |c.Around(t)|, node);
      FlushShows(b);
      NodeAround(Flush(a), node, Flush(b), if c.KeepsMentions() then [Mention(t, base + |a| + |c.Opening()|)] else []);
    }
  }

  lemma LivesIs(c: Context, t: Text)
    ensures Lives(c, t) <==> c.KeepsMentions() && !(c.Underlined? && HoldsPair(t))
    ensures c.Underlined? || c.Escaped? ==> c.KeepsMentions()
    ensures c.Escaped? && c.Valid() ==> Escapable(c.mark) && |c.Opening()| == 2
  {
  }

  lemma InBoundsFirst(s: Text, i: nat, m: Text)
    requires |m| > 0 && HasAt(s, i, m)
    ensures i + |m| <= |s| && s[i] == m[0]
  {
    FirstIs(s, i, m);
  }

  lemma UnderlineText(t: Text)
    ensures Underlined.Around(t) == PAIR + t + PAIR
  {
  }

  lemma FirstPlain(b: Text)
    requires NoMarkup(b)
    ensures |b| > 0 ==> IsPlainByte(b[0])
  {
  }

  lemma BeforeNode(s: Text, base: nat, i: nat)
    requires i < |s| && NoMarkup(s[..i]) && Stops(s[i])
    ensures Inlines(s, base) == InlinesFrom(s, base, i, s[..i])
  {
    hide StepAt, NoMarkup, Stops, InlinesFrom;
    assert s[0..i] == s[..i] && [] + s[0..i] == s[..i];
    PlainRun(s, base, 0, i, 0, []);
    assert Inlines(s, base) == InlinesFrom(s, base, 0, []);
  }

  /** Past the only "<" there is no token. */
  lemma AfterLess(s: Text, i: nat, t: Text, next: nat, b: Text)
    requires IsToken(t) && HasAt(s, i, PAIR + t + PAIR) && i + 2 < next <= |s| && NoMarkup(b)
    requires i + |PAIR + t + PAIR| <= |s| && s[i + |PAIR + t + PAIR|..] == b
    ensures forall q :: next <= q < |s| ==> !TokenAt(s, q)
  {
    hide TokenLen, IsToken, TokenAt, IsPlainByte;
    TokenShape(t);
    var m := PAIR + t + PAIR;
    HasPart(s, i, m, 3, |m|);
    forall q | next <= q < |s| ensures !TokenAt(s, q) {
      if q < i + |m| {
        assert s[q] == m[q - i];
      } else {
        assert s[q] == b[q - (i + |m|)];
        LessIsMarkup();
      }
      NotLess(s, q);
    }
  }

  lemma LessIsMarkup()
    ensures !IsPlainByte(LESS)
  {
  }

  // ---- A message of one line --------------------------------------------------------------------

  lemma {:induction false} SkipsStop(s: Text, i: nat, end: nat)
    requires i <= end < |s| && !IsBlank(s[end]) && !IsDigit(s[end])
    ensures SkipBlank(s, i) <= end && SpacesEnd(s, i) <= end && DigitsEnd(s, i) <= end
    decreases end - i
  {
    if i < end {
      SkipsStop(s, i + 1, end);
    }
  }

  /** What can follow text without markup as the start of a row's content. */
  ghost predicate StartsRow(m: Text) {
    && |m| > 1 && !IsBlank(m[0]) && !IsBlank(m[1]) && !HasAt(m, 0, TICKS)
    && !IsDigit(m[0]) && m[0] != DASH && m[0] != DOT && m[0] != CLOSE_PAREN && m[0] != GREATER
  }

  lemma JoinedBytes(a: Text, m: Text)
    requires |m| > 1
    ensures (a + m)[|a|] == m[0] && (a + m)[|a| + 1] == m[1] && forall k :: 0 <= k < |a| ==> (a + m)[k] == a[k]
  {
  }

  lemma NoTicks(a: Text, m: Text)
    requires NoMarkup(a) && StartsRow(m)
    ensures !HasAt(a + m, SkipBlank(a + m, 0), TICKS)
  {
    hide SkipBlank, DigitsEnd, SpacesEnd;
    var line := a + m;
    JoinedBytes(a, m);
    SkipsStop(line, 0, |a|);
    TicksAfter(a, m);
    var at := SkipBlank(line, 0);
    if HasAt(line, at, TICKS) {
      FirstIs(line, at, TICKS);
    }
  }

  lemma TicksAfter(a: Text, m: Text)
    ensures HasAt(a + m, |a|, TICKS) ==> HasAt(m, 0, TICKS)
  {
    if HasAt(a + m, |a|, TICKS) {
      assert (a + m)[|a|..|a| + 3] == m[0..3];
    }
  }

  lemma ItemStarts(a: Text, m: Text)
    requires NoMarkup(a) && StartsRow(m)
    ensures ItemAt(a + m) <= |a|
  {
    hide SkipBlank, DigitsEnd, SpacesEnd, HasAt, StartsRow;
    var line := a + m;
    RowBytes(m);
    JoinedBytes(a, m);
    SkipsStop(line, 0, |a|);
    var spaces := SpacesEnd(line, 0);
    SkipsStop(line, spaces, |a|);
    var marker := MarkerEnd(line, spaces);
    if marker <= |a| {
      SkipsStop(line, marker, |a|);
    } else {
      SkipHere(line, marker);
    }
  }

  lemma RowBytes(m: Text)
    requires StartsRow(m)
    ensures |m| > 1 && !IsBlank(m[0]) && !IsBlank(m[1]) && !IsDigit(m[0]) && m[0] != SPACE && m[0] != DASH
    ensures m[0] != DOT && m[0] != CLOSE_PAREN && m[0] != GREATER
  {
  }

  lemma SkipHere(s: Text, i: nat)
    requires i <= |s|
    ensures i < |s| && !IsBlank(s[i]) ==> SkipBlank(s, i) == i
  {
  }

  /** A line's form is decided before what stands around the token: a plain
      line, a quote or a list item, whose content starts by then. */
  lemma RowStarts(a: Text, m: Text)
    requires NoMarkup(a) && StartsRow(m)
    ensures FormOf(a + m).Row? && FormOf(a + m).from <= |a|
  {
    hide NoMarkup, HasAt, SkipBlank, ItemAt, TrimmedLen, StartsRow;
    var line := a + m;
    NoTicks(a, m);
    ItemStarts(a, m);
    RowBytes(m);
    JoinedBytes(a, m);
  }

  lemma NoMarkupFrom(a: Text, from: nat)
    requires NoMarkup(a) && from <= |a|
    ensures NoMarkup(a[from..])
  {
    hide HasAt, IsPlainByte;
    forall k | 0 <= k < |a[from..]| ensures !HasAt(a[from..], k, ADDRESS) && a[from..][k] == a[from + k] {
      AddressAt(a[from..], k);
      AddressAt(a, from + k);
    }
  }

  /** A message of one line, whose form is a row. */
  lemma OneRow(s: Text, kind: RowKind, from: nat)
    requires NEWLINE !in s && from <= |s| && FormOf(s) == Row(kind, from)
    ensures Nodes(s) == Inlines(s[from..], from)
  {
    hide Inlines, IndexFrom, FormOf;
    assert IndexFrom(s, NEWLINE, 0) == |s|;
    var row := Inlines(s[from..], from);
    assert BlocksFrom([s], 0, []) == BlocksFrom([s], 1, AddRow([], kind, row));
    WalkAdded([], kind, row);
  }

  lemma PlacedOneLine(c: Context, a: Text, w: Text, b: Text)
    requires IsInner(w) && c.Valid() && NoMarkup(a) && NoMarkup(b)
    ensures NEWLINE !in Placed(c, a, w, b)
  {
    hide IsAddress, HasAt, IsInner, NoMarkup;
    NotInInner(w);
    PlainHoldsNoLine(a);
    PlainHoldsNoLine(b);
    if c.InLabel? {
      AddressBytes(c.address);
    }
  }

  lemma PlainHoldsNoLine(a: Text)
    requires NoMarkup(a)
    ensures NEWLINE !in a && LESS !in a
  {
  }

  /** An address holds no blank and no "<". */
  lemma AddressBytes(address: Text)
    requires IsAddress(address)
    ensures NEWLINE !in address && LESS !in address
  {
    var n := SchemeLen(address);
    SchemeHasAddress(address);
    forall k | 0 <= k < |address| ensures address[k] != NEWLINE && address[k] != LESS {
      if k < n {
        SchemeBytes(address, k);
      }
    }
  }

  lemma SchemeBytes(s: Text, k: nat)
    requires k < SchemeLen(s)
    ensures s[k] != NEWLINE && s[k] != LESS
  {
    var n := SchemeLen(s) - 3;
    AddressAt(s, n);
    if n == 6 {
      assert s[4] == s[4..6][0] && s[5] == s[4..6][1];
    }
  }

  lemma WordsStartRow(c: Context, w: Text, b: Text)
    requires IsInner(w) && c.Valid() && (c.Bare? ==> |w| > 1 && Stops(w[0]) && !IsBlank(w[1]))
    ensures StartsRow(c.Around(w) + b)
  {
    hide IsInner, Context.Around;
    AroundStops(c, w);
    TicksFirst(c.Around(w) + b);
    var m := c.Around(w);
    assert (m + b)[0] == m[0] && (m + b)[1] == m[1];
  }

  lemma TokenStarts(t: Text)
    requires IsToken(t)
    ensures IsInner(t) && |t| > 1 && Stops(t[0]) && !IsBlank(t[1])
  {
    hide TokenLen, IsToken;
    TokenBytes(t);
    TokenIsInner(t);
    assert IsTokenByte(t[1]);
  }

  /** A message of one line: its row, from where the row's words start. */
  lemma PlacedRow(c: Context, a: Text, w: Text, b: Text) returns (from: nat)
    requires IsInner(w) && (c.Bare? ==> |w| > 1 && Stops(w[0]) && !IsBlank(w[1]))
    requires c.Valid() && NoMarkup(a) && NoMarkup(b)
    ensures from <= |a| && NoMarkup(a[from..]) && Nodes(Placed(c, a, w, b)) == Inlines(Placed(c, a[from..], w, b), from)
  {
    hide *;
    var s, m := Placed(c, a, w, b), c.Around(w) + b;
    PlacedAs(c, a, w, b);
    WordsStartRow(c, w, b);
    RowStarts(a, m);
    PlacedOneLine(c, a, w, b);
    from := FormOf(s).from;
    OneRow(s, FormOf(s).kind, from);
    PlacedFrom(c, a, w, b, from);
    NoMarkupFrom(a, from);
  }

  /** In a message of one line, between any two stretches of text without
      markup: a token is a mention, the only one and where it stands, when it
      is bare or in a style that its own "__" does not end; in a spoiler, in
      code and in a link's words it is none, and nothing else is either. */
  lemma WhereTokensLive(c: Context, a: Text, t: Text, b: Text)
    requires IsToken(t) && c.Valid() && NoMarkup(a) && NoMarkup(b)
    ensures var nodes := Nodes(Placed(c, a, t, b));
            Shown(nodes) == Live(nodes) == if Lives(c, t) then [Mention(t, |a| + |c.Opening()|)] else []
  {
    hide *;
    TokenStarts(t);
    var from := PlacedRow(c, a, t, b);
    PlacedFrom(c, a, t, b, from);
    LineShows(c, a[from..], t, b, from);
  }

  lemma PlacedAs(c: Context, a: Text, t: Text, b: Text)
    ensures Placed(c, a, t, b) == a + (c.Around(t) + b)
  {
  }

  lemma PlacedFrom(c: Context, a: Text, t: Text, b: Text, from: nat)
    requires from <= |a|
    ensures from <= |Placed(c, a, t, b)| && Placed(c, a, t, b)[from..] == Placed(c, a[from..], t, b)
    ensures from + |a[from..]| == |a|
  {
  }
}
