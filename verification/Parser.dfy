/** The parser's loops, each proved to answer what Markdown and Blocks say. */
module Parser {
  import opened Bytes
  import opened Tokens
  import opened Rewriting
  import opened Markdown
  import opened Blocks

  // ---- Scans ------------------------------------------------------------------

  /** strings.Index(s[from:], d), counted from the start of s; -1 for none. */
  function IndexOf(s: Text, d: Text, from: nat): (j: int)
    requires from <= |s|
    ensures j != -1 ==> from <= j && HasAt(s, j, d)
    ensures forall k :: from <= k < (if j == -1 then |s| else j) ==> !HasAt(s, k, d)
    decreases |s| - from
  {
    if HasAt(s, from, d) then from else if from == |s| then -1 else IndexOf(s, d, from + 1)
  }

  lemma CloserIs(s: Text, d: Text, from: nat, j: int)
    requires 0 < from && |d| > 0
    requires j != -1 ==> from <= j && ClosesAt(s, d, j)
    requires forall k :: from <= k < (if j == -1 then |s| else j) ==> !ClosesAt(s, d, k)
    ensures CloserFrom(s, d, from) == j
  {
    hide SpaceBefore;
    var found := CloserFrom(s, d, from);
    if found != -1 {
      assert ClosesAt(s, d, found);
    }
  }

  lemma HasAtWithin(s: Text, d: Text, j: nat)
    requires HasAt(s, j, d)
    ensures j + |d| <= |s|
  {
  }

  method FindCloser(s: Text, d: Text, from: nat) returns (j: int)
    requires 0 < from && |d| > 0
    ensures j == CloserFrom(s, d, from)
  {
    hide SpaceLen, SpaceBefore, CloserFrom, HasAt, IndexOf;
    if from > |s| {
      CloserIs(s, d, from, -1);
      return -1;
    }
    var next := from;
    j := IndexOf(s, d, next);
    while j != -1
      invariant from <= next <= |s| && j == IndexOf(s, d, next)
      invariant forall k :: from <= k < next ==> !ClosesAt(s, d, k)
      decreases |s| - next
    {
      HasAtWithin(s, d, j);
      var halfPair := d == [STAR] && (s[j - 1] == STAR || (j + 1 < |s| && s[j + 1] == STAR));
      if !SpaceBefore(s, j) && !halfPair {
        CloserIs(s, d, from, j);
        return;
      }
      next := j + 1;
      j := IndexOf(s, d, next);
    }
    CloserIs(s, d, from, -1);
  }

  method TrimURL(raw: Text) returns (href: Text)
    requires |raw| > 0 && ToLower(raw[0]) == 104
    ensures href == raw[..TrimUrlLen(raw)]
  {
    var n := PunctStart(raw, |raw|);
    href := raw[..n];
    while n < |raw| && raw[n] == CLOSE_PAREN && Count(href, OPEN_PAREN) > Count(href, CLOSE_PAREN)
      invariant n <= |raw| && href == raw[..n]
      invariant ParensEnd(raw, n) == ParensEnd(raw, PunctStart(raw, |raw|))
    {
      n := n + 1;
      href := raw[..n];
    }
  }

  // ---- Inline nodes -------------------------------------------------------------

  method MatchLabelled(source: Text, start: nat) returns (m: Match)
    requires start < |source|
    ensures m == Labelled(source, start)
    decreases |source|, 1, 0
  {
    hide TokenLen, Inlines, HoldsLink, AllSpace, UrlWhole, Rewrite;
    var labelEnd := start + 1;
    while labelEnd < |source| && source[labelEnd] != CLOSE_BRACKET
      invariant labelEnd <= |source|
      invariant LabelEnd(source, start + 1) == LabelEnd(source, labelEnd)
    {
      if source[labelEnd] == OPEN_BRACKET {
        return NoMatch;
      }
      if source[labelEnd] == BACKSLASH && labelEnd + 1 < |source| && Escapable(source[labelEnd + 1]) {
        labelEnd := labelEnd + 1;
      }
      labelEnd := labelEnd + 1;
    }
    if !HasAt(source, labelEnd, [CLOSE_BRACKET, OPEN_PAREN]) {
      return NoMatch;
    }
    var words := source[start + 1..labelEnd];
    if AllSpace(words) {
      return NoMatch;
    }
    var hrefStart := labelEnd + 2;
    var hrefEnd, depth := hrefStart, 0;
    while hrefEnd < |source| && !(source[hrefEnd] == CLOSE_PAREN && depth == 0)
      invariant hrefStart <= hrefEnd <= |source| && depth >= 0
      invariant HrefEnd(source, hrefStart, 0) == HrefEnd(source, hrefEnd, depth)
    {
      if source[hrefEnd] == OPEN_PAREN {
        depth := depth + 1;
      } else if source[hrefEnd] == CLOSE_PAREN {
        depth := depth - 1;
      }
      hrefEnd := hrefEnd + 1;
    }
    if hrefEnd >= |source| {
      return NoMatch;
    }
    var href := source[hrefStart..hrefEnd];
    if !UrlWhole(href) {
      return NoMatch;
    }
    TextIsNoLonger(words, 0);
    var text := WriteAsText(words);
    var children := ParseInlineAt(text, 0);
    if HoldsLink(children) {
      return NoMatch;
    }
    return Found(Link(href, children), hrefEnd + 1);
  }

  method CloseOnStarRun(source: Text, start: nat, closeAt: int, base: nat) returns (m: Match)
    requires 2 <= start && (closeAt != -1 ==> start < closeAt <= |source|)
    ensures m == StarRun(source, base, start, closeAt)
    decreases |source|, 1, 0
  {
    hide TokenLen, Inlines;
    if closeAt == -1 || !HasAt(source, closeAt, [STAR, STAR, STAR]) || source[closeAt - 1] == STAR {
      return NoMatch;
    }
    StarsRun(source, closeAt);
    var runEnd: nat := closeAt;
    while runEnd < |source| && source[runEnd] == STAR
      invariant closeAt <= runEnd <= |source|
      invariant StarsEnd(source, runEnd) == StarsEnd(source, closeAt)
    {
      runEnd := runEnd + 1;
    }
    var children := ParseInlineAt(source[start..runEnd - 2], base + start);
    if |children| == 0 || !children[|children| - 1].Styled? {
      return NoMatch;
    }
    return Found(Styled(children, false), runEnd);
  }

  method MatchDelimited(source: Text, i: nat, base: nat) returns (m: Match)
    requires i < |source|
    ensures m == Delimited(source, base, i, 0)
    decreases |source|, 2, 0
  {
    hide TokenLen, Inlines, StarRun, SpaceLen, SpaceAt, SpaceBefore, CloserFrom, Rewrite, ClosesAt;
    for k := 0 to 5
      invariant Delimited(source, base, i, 0) == Delimited(source, base, i, k)
    {
      var d := Delim(k);
      if OpensAt(source, d, i) {
        var start := i + |d|;
        var j := FindCloser(source, d, start + 1);
        if k == 0 {
          m := CloseOnStarRun(source, start, j, base);
          if m.Found? {
            return;
          }
        }
        if j != -1 {
          if k == 3 {
            TextIsNoLonger(source[start..j], 0);
            var text := WriteAsText(source[start..j]);
            var hidden := ParseInlineAt(text, 0);
            return Found(Styled(hidden, true), j + |d|);
          }
          var children := ParseInlineAt(source[start..j], base + start);
          return Found(Styled(children, false), j + |d|);
        }
      }
    }
    m := NoMatch;
  }

  /** parseInlineAt: one pass over the source, with the text read so far
      flushed before each node. */
  method ParseInlineAt(source: Text, base: nat) returns (out: seq<Inline>)
    ensures out == Inlines(source, base)
    decreases |source|, 4, 0
  {
    hide TokenLen, StepAt, Inlines;
    InlinesAre(source, base);
    out := [];
    var text: Text := [];
    var i := 0;
    while i < |source|
      invariant i <= |source|
      invariant out + InlinesFrom(source, base, i, text) == Inlines(source, base)
    {
      var step := ReadStep(source, base, i);
      match step {
        case Emit(node, next) =>
          Regroup(out, Flush(text), node, InlinesFrom(source, base, next, []));
          out := out + Flush(text) + [node];
          text := [];
        case Keep(b, next) =>
          text := text + [b];
      }
      i := step.next;
    }
    out := out + Flush(text);
  }

  lemma InlinesAre(source: Text, base: nat)
    ensures [] + InlinesFrom(source, base, 0, []) == Inlines(source, base)
  {
  }

  lemma Regroup(out: seq<Inline>, flushed: seq<Inline>, node: Inline, rest: seq<Inline>)
    ensures out + (flushed + [node] + rest) == (out + flushed + [node]) + rest
  {
  }

  /** The loop's body: what stands at i, tried in parseInlineAt's order. */
  method ReadStep(source: Text, base: nat, i: nat) returns (step: Step)
    requires i < |source|
    ensures step == StepAt(source, base, i) && i < step.next <= |source|
    decreases |source|, 3, 0
  {
    hide TokenLen, Labelled, BothStyles, Delimited, UrlLen, Rewrite, Escapable, IndexFrom, TokensAsText, TrimUrlLen;
    var ch := source[i];
    if ch == LESS {
      var length := TokenLength(source[i..]);
      if length > 0 {
        return Emit(Mention(source[i..i + length], base + i), i + length);
      }
    }
    if ch == BACKSLASH && i + 1 < |source| && Escapable(source[i + 1]) {
      return Keep(source[i + 1], i + 2);
    }
    if ch == BACKTICK {
      var code := IndexFrom(source, BACKTICK, i + 1);
      if i + 1 < code < |source| {
        var text := WriteAsText(source[i + 1..code]);
        return Emit(Code(text), code + 1);
      }
    }
    if ToLower(ch) == 104 {
      var url := UrlLen(source[i..]);
      if url > 0 {
        assert source[i..i + url][0] == ch;
        var href := TrimURL(source[i..i + url]);
        assert href == source[i..i + |href|];
        return Emit(Link(href, []), i + |href|);
      }
    }
    if ch == OPEN_BRACKET {
      var labelled := MatchLabelled(source, i);
      if labelled.Found? {
        return Emit(labelled.node, labelled.next);
      }
    }
    var stars := MatchBothStyles(source, i, base);
    if stars.Found? {
      return Emit(stars.node, stars.next);
    }
    var styled := MatchDelimited(source, i, base);
    if styled.Found? {
      return Emit(styled.node, styled.next);
    }
    return Keep(ch, i + 1);
  }

  method MatchBothStyles(source: Text, i: nat, base: nat) returns (m: Match)
    requires i < |source|
    ensures m == BothStyles(source, base, i)
    decreases |source|, 2, 0
  {
    hide TokenLen, Inlines, SpaceLen, SpaceBefore, CloserFrom;
    if HasAt(source, i, [STAR, STAR, STAR]) {
      var j := FindCloser(source, [STAR, STAR, STAR], i + 3);
      if j != -1 {
        var children := ParseInlineAt(source[i + 3..j], base + i + 3);
        return Found(Styled([Styled(children, false)], false), j + 3);
      }
    }
    return NoMatch;
  }

  // ---- Blocks ---------------------------------------------------------------------

  /** The offset at which each line starts. */
  method LineStarts(lines: seq<Text>) returns (starts: seq<nat>)
    requires |lines| > 0
    ensures |starts| == |lines| && forall j :: 0 <= j < |lines| ==> starts[j] == LineStart(lines, j)
  {
    starts := [0];
    for k := 1 to |lines|
      invariant |starts| == k && forall j :: 0 <= j < k ==> starts[j] == LineStart(lines, j)
    {
      starts := starts + [starts[k - 1] + |lines[k - 1]| + 1];
    }
  }

  method FindFenceEnd(lines: seq<Text>, from: nat) returns (j: nat)
    requires from <= |lines|
    ensures j == FenceEnd(lines, from)
  {
    hide IsFenceClose;
    j := from;
    while j < |lines| && !IsFenceClose(lines[j])
      invariant from <= j <= |lines| && FenceEnd(lines, j) == FenceEnd(lines, from)
    {
      j := j + 1;
    }
  }

  method ParseMarkdown(content: Text) returns (blocks: seq<Block>)
    ensures blocks == Parse(content)
  {
    hide TokenLen, Inlines, FormOf, Rewrite, Joined, AddRow, IsFenceClose, LineStart, FenceEnd, Lines;
    var lines := Lines(content);
    var starts := LineStarts(lines);
    blocks := [];
    var i := 0;
    while i < |lines|
      invariant i <= |lines|
      invariant BlocksFrom(lines, i, blocks) == Parse(content)
    {
      match FormOf(lines[i]) {
        case OneLineFence(code) =>
          var text := WriteAsText(code);
          blocks := blocks + [Fence(text)];
          i := i + 1;
        case OpensFence =>
          var j := FindFenceEnd(lines, i + 1);
          var text := WriteAsText(Joined(lines[i + 1..j]));
          blocks := blocks + [Fence(text)];
          i := if j == |lines| then j else j + 1;
        case Row(kind, from) =>
          var row := ParseInlineAt(lines[i][from..], starts[i] + from);
          blocks := AddRow(blocks, kind, row);
          i := i + 1;
      }
    }
  }
}
