/** The Markdown parse that previews and mention checks read: what each
    function of the parser answers, as functions of the source. */
module Markdown {
  import opened Bytes
  import opened Tokens
  import opened Rewriting

  /** A node of the parse. `spoiler` marks a style made by "||", whose
      content is parsed from rewritten text, as a link's label is. */
  datatype Inline =
    | Plain(text: Text)
    | Code(text: Text)
    | Link(href: Text, words: seq<Inline>)
    | Styled(children: seq<Inline>, spoiler: bool)
    | Mention(token: Text, at: nat)

  /** What stands at a position: a node up to `next`, or one byte of text. */
  datatype Step = Emit(node: Inline, next: nat) | Keep(b: byte, next: nat)

  datatype Match = NoMatch | Found(node: Inline, next: nat)

  // ---- Characters -----------------------------------------------------------

  predicate IsWideSpace(a: byte, b: byte, c: byte) {
    || (a == 0xE1 && b == 0x9A && c == 0x80)
    || (a == 0xE2 && b == 0x80 && (0x80 <= c <= 0x8A || c == 0xA8 || c == 0xA9 || c == 0xAF))
    || (a == 0xE2 && b == 0x81 && c == 0x9F)
    || (a == 0xE3 && b == 0x80 && c == 0x80)
  }

  /** The length of the white-space character (unicode.IsSpace, in UTF-8)
      that s holds at i, or 0. */
  function SpaceLen(s: Text, i: nat): (n: nat)
    ensures i + n <= |s| || n == 0
  {
    if i < |s| && (9 <= s[i] <= 13 || s[i] == SPACE) then 1
    else if i + 1 < |s| && s[i] == 0xC2 && (s[i + 1] == 0x85 || s[i + 1] == 0xA0) then 2
    else if i + 2 < |s| && IsWideSpace(s[i], s[i + 1], s[i + 2]) then 3
    else 0
  }

  predicate SpaceAt(s: Text, i: nat) {
    SpaceLen(s, i) > 0
  }

  predicate SpaceBefore(s: Text, i: nat)
    requires i <= |s|
  {
    || (i >= 1 && SpaceLen(s, i - 1) == 1)
    || (i >= 2 && SpaceLen(s, i - 2) == 2)
    || (i >= 3 && SpaceLen(s, i - 3) == 3)
  }

  /** strings.TrimSpace(s) == "". */
  predicate AllSpace(s: Text) {
    |s| == 0 || (SpaceLen(s, 0) > 0 && AllSpace(s[SpaceLen(s, 0)..]))
  }

  predicate Escapable(b: byte) {
    || b == BACKSLASH || b == BACKTICK || b == STAR || b == UNDERSCORE || b == TILDE || b == GREATER || b == PIPE
    || b == HASH || b == OPEN_BRACKET || b == CLOSE_BRACKET || b == OPEN_PAREN || b == CLOSE_PAREN || b == DOT
    || b == DASH
  }

  // ---- Closers --------------------------------------------------------------

  /** A delimiter closes where it follows a non-space; a lone "*" never on
      half of a "**" pair. */
  predicate ClosesAt(s: Text, d: Text, j: nat)
    requires 0 < j
  {
    && HasAt(s, j, d) && !SpaceBefore(s, j)
    && !(d == [STAR] && (s[j - 1] == STAR || (j + 1 < |s| && s[j + 1] == STAR)))
  }

  /** The first place at or after `from` where d closes, or -1. */
  function CloserFrom(s: Text, d: Text, from: nat): (j: int)
    requires 0 < from
    ensures j != -1 ==> from <= j && j + |d| <= |s| && ClosesAt(s, d, j)
    ensures forall k :: from <= k < (if j == -1 then |s| else j) ==> !ClosesAt(s, d, k)
    decreases |s| - from
  {
    if from > |s| then -1
    else if ClosesAt(s, d, from) then from
    else if from == |s| then -1
    else CloserFrom(s, d, from + 1)
  }

  /** The end of the run of stars from `at`. */
  function StarsEnd(s: Text, at: nat): (end: nat)
    requires at <= |s|
    ensures at <= end <= |s|
    ensures forall k :: at <= k < end ==> s[k] == STAR
    ensures end < |s| ==> s[end] != STAR
    decreases |s| - at
  {
    if at < |s| && s[at] == STAR then StarsEnd(s, at + 1) else at
  }

  // ---- Addresses --------------------------------------------------------------

  /** How much of s "https?://" matches, in any case; (?i) folds the long s
      (U+017F) with s. */
  function SchemeLen(s: Text): (n: nat)
    ensures n <= |s|
    ensures n > 0 ==> ToLower(s[0]) == 104
  {
    if |s| < 4 || ToLower(s[0]) != 104 || ToLower(s[1]) != 116 || ToLower(s[2]) != 116 || ToLower(s[3]) != 112 then 0
    else
      var slashes :=
        if 4 < |s| && ToLower(s[4]) == 115 then 5 else if HasAt(s, 4, [0xC5, 0xBF]) then 6 else 4;
      if HasAt(s, slashes, [COLON, SLASH, SLASH]) then slashes + 3 else 0
  }

  function UrlRun(s: Text, from: nat): (end: nat)
    requires from <= |s|
    ensures from <= end <= |s|
    ensures forall k :: from <= k < end ==> s[k] != LESS
    decreases |s| - from
  {
    if from < |s| && !IsBlank(s[from]) && s[from] != LESS && s[from] != GREATER then UrlRun(s, from + 1) else from
  }

  /** The length of the address s starts with, or 0. */
  function UrlLen(s: Text): (n: nat)
    ensures n <= |s|
    ensures n > 0 ==> ToLower(s[0]) == 104
  {
    var scheme := SchemeLen(s);
    if scheme == 0 || UrlRun(s, scheme) == scheme then 0 else UrlRun(s, scheme)
  }

  predicate UrlWhole(s: Text) {
    SchemeLen(s) > 0 && SchemeLen(s) < |s| && forall k :: SchemeLen(s) <= k < |s| ==> !IsBlank(s[k]) && s[k] != LESS
  }

  predicate IsTrailingPunct(b: byte) {
    || b == DOT || b == COMMA || b == SEMICOLON || b == COLON || b == BANG || b == QUESTION || b == CLOSE_PAREN
    || b == CLOSE_BRACKET || b == QUOTE || b == DOUBLE_QUOTE
  }

  /** The length of s[..n] without its trailing punctuation. */
  function PunctStart(s: Text, n: nat): (m: nat)
    requires n <= |s|
    ensures m <= n
    ensures m > 0 ==> !IsTrailingPunct(s[m - 1])
    ensures forall k :: m <= k < n ==> IsTrailingPunct(s[k])
  {
    if n > 0 && IsTrailingPunct(s[n - 1]) then PunctStart(s, n - 1) else n
  }

  /** How far closing parentheses that answer an open one extend s[..n]. */
  function ParensEnd(s: Text, n: nat): (m: nat)
    requires n <= |s|
    ensures n <= m <= |s|
    decreases |s| - n
  {
    if n < |s| && s[n] == CLOSE_PAREN && Count(s[..n], OPEN_PAREN) > Count(s[..n], CLOSE_PAREN)
    then ParensEnd(s, n + 1)
    else n
  }

  function TrimUrlLen(raw: Text): (n: nat)
    requires |raw| > 0 && ToLower(raw[0]) == 104
    ensures 0 < n <= |raw|
  {
    ParensEnd(raw, PunctStart(raw, |raw|))
  }

  // ---- A label and its address --------------------------------------------------

  /** Where a label that starts at `at` ends; past the source when a "[" in
      it spoils it. */
  function LabelEnd(s: Text, at: nat): (end: nat)
    requires at <= |s|
    ensures at <= end
    decreases |s| - at
  {
    if at == |s| || s[at] == CLOSE_BRACKET then at
    else if s[at] == OPEN_BRACKET then |s| + 1
    else if s[at] == BACKSLASH && at + 1 < |s| && Escapable(s[at + 1]) then LabelEnd(s, at + 2)
    else LabelEnd(s, at + 1)
  }

  /** The ")" that closes no "(" opened since, or |s|. */
  function HrefEnd(s: Text, at: nat, depth: nat): (end: nat)
    requires at <= |s|
    ensures at <= end <= |s|
    decreases |s| - at
  {
    if at == |s| || (s[at] == CLOSE_PAREN && depth == 0) then at
    else
      HrefEnd(s, at + 1,
              if s[at] == OPEN_PAREN then depth + 1 else if s[at] == CLOSE_PAREN then depth - 1 else depth)
  }

  predicate NodeHoldsLink(node: Inline)
    decreases node
  {
    match node
    case Link(_, _) => true
    case Styled(children, _) => HoldsLink(children)
    case _ => false
  }

  predicate HoldsLink(nodes: seq<Inline>)
    decreases nodes
  {
    |nodes| > 0 && (NodeHoldsLink(nodes[0]) || HoldsLink(nodes[1..]))
  }

  // ---- The parse of one run of text -------------------------------------------

  function Flush(text: Text): seq<Inline> {
    if |text| > 0 then [Plain(text)] else []
  }

  /** parseInlineAt: the nodes of source, found at offset base. */
  function Inlines(source: Text, base: nat): seq<Inline>
    decreases |source|, 4, 0
  {
    InlinesFrom(source, base, 0, [])
  }

  /** The nodes from i on, with `text` read and not yet written. */
  function InlinesFrom(source: Text, base: nat, i: nat, text: Text): seq<Inline>
    requires i <= |source|
    decreases |source|, 3, |source| - i
  {
    if i == |source| then Flush(text)
    else
      match StepAt(source, base, i)
      case Emit(node, next) => Flush(text) + [node] + InlinesFrom(source, base, next, [])
      case Keep(b, next) => InlinesFrom(source, base, next, text + [b])
  }

  function StepAt(source: Text, base: nat, i: nat): (step: Step)
    requires i < |source|
    ensures i < step.next <= |source|
    decreases |source|, 2, 0
  {
    var ch := source[i];
    var length := if ch == LESS then TokenLen(source[i..]) else 0;
    var code := if ch == BACKTICK then IndexFrom(source, BACKTICK, i + 1) else |source|;
    var url := if ToLower(ch) == 104 then UrlLen(source[i..]) else 0;
    if length > 0 then Emit(Mention(source[i..i + length], base + i), i + length)
    else if ch == BACKSLASH && i + 1 < |source| && Escapable(source[i + 1]) then Keep(source[i + 1], i + 2)
    else if i + 1 < code < |source| then Emit(Code(TokensAsText(source[i + 1..code])), code + 1)
    else if url > 0 then
      var href := source[i..i + TrimUrlLen(source[i..i + url])];
      Emit(Link(href, []), i + |href|)
    else
      var labelled := if ch == OPEN_BRACKET then Labelled(source, i) else NoMatch;
      if labelled.Found? then Emit(labelled.node, labelled.next)
      else
        var stars := BothStyles(source, base, i);
        if stars.Found? then Emit(stars.node, stars.next)
        else
          var styled := Delimited(source, base, i, 0);
          if styled.Found? then Emit(styled.node, styled.next) else Keep(ch, i + 1)
  }

  /** "[words](https://address)" at start. */
  function Labelled(source: Text, start: nat): (m: Match)
    requires start < |source|
    ensures m.Found? ==> start < m.next <= |source|
    decreases |source|, 1, 0
  {
    var labelEnd := LabelEnd(source, start + 1);
    if !HasAt(source, labelEnd, [CLOSE_BRACKET, OPEN_PAREN]) || AllSpace(source[start + 1..labelEnd]) then NoMatch
    else
      var hrefEnd := HrefEnd(source, labelEnd + 2, 0);
      if hrefEnd == |source| || !UrlWhole(source[labelEnd + 2..hrefEnd]) then NoMatch
      else
        var words := source[start + 1..labelEnd];
        TextIsNoLonger(words, 0);
        var children := Inlines(TokensAsText(words), 0);
        if HoldsLink(children) then NoMatch
        else Found(Link(source[labelEnd + 2..hrefEnd], children), hrefEnd + 1)
  }

  /** "***both***": bold around italic. */
  function BothStyles(source: Text, base: nat, i: nat): (m: Match)
    requires i < |source|
    ensures m.Found? ==> i < m.next <= |source|
    decreases |source|, 1, 0
  {
    if !HasAt(source, i, [STAR, STAR, STAR]) then NoMatch
    else
      var j := CloserFrom(source, [STAR, STAR, STAR], i + 3);
      if j == -1 then NoMatch
      else Found(Styled([Styled(Inlines(source[i + 3..j], base + i + 3), false)], false), j + 3)
  }

  /** The delimiters, longest first so "**" wins over "*". */
  function Delim(k: nat): (d: Text)
    requires k < 5
    ensures 0 < |d| <= 2
  {
    match k
    case 0 => [STAR, STAR]
    case 1 => [UNDERSCORE, UNDERSCORE]
    case 2 => [TILDE, TILDE]
    case 3 => [PIPE, PIPE]
    case _ => [STAR]
  }

  predicate OpensAt(source: Text, d: Text, i: nat) {
    && HasAt(source, i, d) && i + |d| < |source| && !SpaceAt(source, i + |d|)
    && !(d == [STAR] && source[i + 1] == STAR)
  }

  /** The style that the k-th or a later delimiter makes at i. */
  function Delimited(source: Text, base: nat, i: nat, k: nat): (m: Match)
    requires i < |source| && k <= 5
    ensures m.Found? ==> i < m.next <= |source|
    decreases |source|, 1, 6 - k
  {
    if k == 5 then NoMatch
    else
      var d := Delim(k);
      if !OpensAt(source, d, i) then Delimited(source, base, i, k + 1)
      else
        var start := i + |d|;
        var j := CloserFrom(source, d, start + 1);
        var run := if k == 0 then StarRun(source, base, start, j) else NoMatch;
        if run.Found? then run
        else if j == -1 then Delimited(source, base, i, k + 1)
        else if k == 3 then
          TextIsNoLonger(source[start..j], 0);
          Found(Styled(Inlines(TokensAsText(source[start..j]), 0), true), j + 2)
        else Found(Styled(Inlines(source[start..j], base + start), false), j + |d|)
  }

  /** "**a *b***": a run's first stars close the italic inside the bold. */
  function StarRun(source: Text, base: nat, start: nat, closeAt: int): (m: Match)
    requires 2 <= start
    requires closeAt != -1 ==> start < closeAt <= |source|
    ensures m.Found? ==> start < m.next <= |source|
    decreases |source|, 1, 0
  {
    if closeAt == -1 || !HasAt(source, closeAt, [STAR, STAR, STAR]) || source[closeAt - 1] == STAR then NoMatch
    else
      StarsRun(source, closeAt);
      var runEnd := StarsEnd(source, closeAt);
      var children := Inlines(source[start..runEnd - 2], base + start);
      if |children| == 0 || !children[|children| - 1].Styled? then NoMatch
      else Found(Styled(children, false), runEnd)
  }

  lemma StarsRun(s: Text, at: nat)
    requires HasAt(s, at, [STAR, STAR, STAR])
    ensures at + 3 <= StarsEnd(s, at)
  {
    assert s[at] == s[at..at + 3][0] && s[at + 1] == s[at..at + 3][1] && s[at + 2] == s[at..at + 3][2];
  }
}
