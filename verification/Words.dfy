/** @channel and @here, the two mentions that stay typed words, and why a
    message without tokens that cannot hold them need not be parsed. */
module Words {
  import opened Bytes
  import opened Tokens
  import opened Rewriting
  import opened Markdown
  import opened Offsets
  import opened Blocks

  const CHANNEL_WORD: Text := [99, 104, 97, 110, 110, 101, 108]
  const HERE_WORD: Text := [104, 101, 114, 101]

  predicate IsWordByte(b: byte) {
    IsLower(ToLower(b)) || IsDigit(b) || b == UNDERSCORE
  }

  /** The word stands at p, in any case. */
  predicate WordAt(s: Text, p: nat, word: Text) {
    p + |word| <= |s| && forall k :: 0 <= k < |word| ==> ToLower(s[p + k]) == word[k]
  }

  /** "@" and the word stand at p: what the hint pattern looks for. */
  predicate HintAt(s: Text, p: nat, word: Text) {
    p < |s| && s[p] == AT && WordAt(s, p + 1, word)
  }

  /** No letter, digit, "_" or "@" stands before p; (?i) folds the long s and
      the Kelvin sign in with the letters. */
  predicate OpenBefore(s: Text, p: nat)
    requires p <= |s|
  {
    || p == 0
    || !(IsWordByte(s[p - 1]) || s[p - 1] == AT || (p >= 2 && s[p - 2] == 0xC5 && s[p - 1] == 0xBF)
         || (p >= 3 && s[p - 3] == 0xE2 && s[p - 2] == 0x84 && s[p - 1] == 0xAA))
  }

  /** The text uses the word as a mention. */
  predicate Uses(s: Text, word: Text) {
    exists p :: 0 <= p < |s| && HintAt(s, p, word) && OpenBefore(s, p)
                && (p + 1 + |word| == |s| || !IsWordByte(s[p + 1 + |word|]))
  }

  predicate MayNameEveryone(s: Text) {
    exists p :: 0 <= p < |s| && (HintAt(s, p, CHANNEL_WORD) || HintAt(s, p, HERE_WORD))
  }

  predicate NodeUses(node: Inline, word: Text)
    decreases node
  {
    match node
    case Plain(text) => Uses(text, word)
    case Link(_, words) => NodesUse(words, word)
    case Styled(children, _) => NodesUse(children, word)
    case _ => false
  }

  /** Some text of the nodes, at any depth, uses the word. */
  predicate NodesUse(nodes: seq<Inline>, word: Text)
    decreases nodes
  {
    |nodes| > 0 && (NodeUses(nodes[0], word) || NodesUse(nodes[1..], word))
  }

  // ---- The shortcut ------------------------------------------------------------------

  /** Nothing in the text for checkMentions to read. */
  ghost predicate Idle(s: Text) {
    && (forall q :: 0 <= q < |s| ==> !TokenAt(s, q))
    && (forall p :: 0 <= p < |s| ==> !HintAt(s, p, CHANNEL_WORD) && !HintAt(s, p, HERE_WORD))
  }

  ghost predicate Quiet(nodes: seq<Inline>) {
    !NodesUse(nodes, CHANNEL_WORD) && !NodesUse(nodes, HERE_WORD)
  }

  lemma IdlePart(s: Text, a: nat, b: nat)
    requires a <= b <= |s| && Idle(s)
    ensures Idle(s[a..b]) && TokensAsText(s[a..b]) == s[a..b]
  {
    hide TokenLen, Rewrite, WordAt;
    var part := s[a..b];
    forall q | 0 <= q < |part| ensures !TokenAt(part, q) {
      if TokenAt(part, q) {
        SubToken(s, a, b, q);
      }
    }
    forall p | 0 <= p < |part| ensures !HintAt(part, p, CHANNEL_WORD) && !HintAt(part, p, HERE_WORD) {
      HintOutward(s, a, b, p, CHANNEL_WORD);
      HintOutward(s, a, b, p, HERE_WORD);
    }
    NoTokensUnchanged(AsText, part, 0);
  }

  lemma HintOutward(s: Text, a: nat, b: nat, p: nat, word: Text)
    requires a <= b <= |s|
    ensures HintAt(s[a..b], p, word) ==> HintAt(s, a + p, word)
  {
    if HintAt(s[a..b], p, word) {
      forall k | 0 <= k < |word| ensures ToLower(s[a + p + 1 + k]) == word[k] {
        assert s[a..b][p + 1 + k] == s[a + p + 1 + k];
      }
    }
  }

  lemma {:induction false} QuietConcat(a: seq<Inline>, b: seq<Inline>)
    requires Quiet(a) && Quiet(b)
    ensures Quiet(a + b)
  {
    hide NodeUses;
    if |a| == 0 {
      assert a + b == b;
    } else {
      assert (a + b)[0] == a[0] && (a + b)[1..] == a[1..] + b;
      QuietConcat(a[1..], b);
    }
  }

  /** The text read so far holds no hint, and its end copies the source up to
      i as far back as it holds nothing that could have been escaped. */
  ghost predicate Copies(source: Text, i: nat, text: Text)
    requires i <= |source|
  {
    !MayNameEveryone(text) && forall n :: 0 <= n <= |text| ==> TailCopied(source, i, text, n)
  }

  ghost predicate TailCopied(source: Text, i: nat, text: Text, n: nat)
    requires i <= |source| && n <= |text|
  {
    NoneEscapable(text[|text| - n..]) ==> n <= i && source[i - n..i] == text[|text| - n..]
  }

  predicate NoneEscapable(s: Text) {
    forall k :: 0 <= k < |s| ==> !Escapable(s[k])
  }

  lemma CopiesNothing(source: Text, i: nat)
    requires i <= |source|
    ensures Copies(source, i, [])
  {
    assert source[i..i] == [];
  }

  lemma HintIsPlain(s: Text, p: nat, word: Text)
    requires (word == CHANNEL_WORD || word == HERE_WORD) && HintAt(s, p, word) && p + 1 + |word| == |s|
    ensures NoneEscapable(s[p..])
  {
    var end := s[p..];
    forall k | 0 <= k < |end| ensures !Escapable(end[k]) {
      if k > 0 {
        assert ToLower(s[p + 1 + (k - 1)]) == word[k - 1];
      }
    }
  }

  lemma HintBeforeLast(text: Text, b: byte, p: nat, word: Text)
    requires HintAt(text + [b], p, word) && p + 1 + |word| < |text + [b]|
    ensures HintAt(text, p, word)
  {
    forall k | 0 <= k < |word| ensures ToLower(text[p + 1 + k]) == word[k] {
      assert (text + [b])[p + 1 + k] == text[p + 1 + k];
    }
  }

  lemma HintThere(source: Text, i: nat, n: nat, word: Text)
    requires n <= i <= |source| && HintAt(source[i - n..i], 0, word)
    ensures HintAt(source, i - n, word)
  {
    HintOutward(source, i - n, i, 0, word);
  }

  lemma TailCopies(source: Text, i: nat, next: nat, text: Text, b: byte, n: nat)
    requires i < next <= |source| && Copies(source, i, text)
    requires (next == i + 1 && b == source[i]) || Escapable(b)
    requires n <= |text + [b]|
    ensures TailCopied(source, next, text + [b], n)
  {
    hide MayNameEveryone;
    var whole := text + [b];
    var end := whole[|whole| - n..];
    if n > 0 && NoneEscapable(end) {
      assert end[n - 1] == b;
      var before := text[|text| - (n - 1)..];
      assert end == before + [b];
      forall k | 0 <= k < |before| ensures !Escapable(before[k]) {
        assert before[k] == end[k];
      }
      assert TailCopied(source, i, text, n - 1);
      assert source[i - (n - 1)..i] + [source[i]] == source[i - (n - 1)..i + 1];
    }
  }

  /** Reading one more byte as text keeps what was read a copy. */
  lemma CopiesMore(source: Text, i: nat, next: nat, text: Text, b: byte)
    requires i < next <= |source| && Copies(source, i, text) && Idle(source)
    requires (next == i + 1 && b == source[i]) || Escapable(b)
    ensures Copies(source, next, text + [b])
  {
    hide TokenLen, WordAt, HintAt, Idle, TailCopied;
    var whole := text + [b];
    forall n: nat | n <= |whole| ensures TailCopied(source, next, whole, n) {
      TailCopies(source, i, next, text, b, n);
    }
    forall p | 0 <= p < |whole|
      ensures !HintAt(whole, p, CHANNEL_WORD) && !HintAt(whole, p, HERE_WORD)
    {
      NewHint(source, i, next, text, b, p, CHANNEL_WORD);
      NewHint(source, i, next, text, b, p, HERE_WORD);
    }
  }

  lemma NewHint(source: Text, i: nat, next: nat, text: Text, b: byte, p: nat, word: Text)
    requires i < next <= |source| && Copies(source, i, text) && Idle(source)
    requires (next == i + 1 && b == source[i]) || Escapable(b)
    requires p < |text + [b]| && (word == CHANNEL_WORD || word == HERE_WORD)
    ensures !HintAt(text + [b], p, word)
  {
    hide TokenLen;
    var whole := text + [b];
    if HintAt(whole, p, word) {
      HintReaches(whole, p, word);
      if p + 1 + |word| < |whole| {
        HintBeforeLast(text, b, p, word);
      } else {
        HintIsPlain(whole, p, word);
        var n := |whole| - p;
        TailCopies(source, i, next, text, b, n);
        HintAlone(whole, p, word);
        HintThere(source, next, n, word);
      }
    }
  }

  lemma HintReaches(s: Text, p: nat, word: Text)
    requires HintAt(s, p, word)
    ensures p + 1 + |word| <= |s|
  {
  }

  lemma HintAlone(s: Text, p: nat, word: Text)
    requires HintAt(s, p, word)
    ensures HintAt(s[p..], 0, word)
  {
    forall k | 0 <= k < |word| ensures ToLower(s[p..][1 + k]) == word[k] {
      assert s[p..][1 + k] == s[p + 1 + k];
    }
  }

  lemma FlushQuiet(text: Text)
    requires !MayNameEveryone(text)
    ensures Quiet(Flush(text))
  {
    hide WordAt;
    if |text| > 0 {
      assert NodesUse([Plain(text)], CHANNEL_WORD) <==> Uses(text, CHANNEL_WORD);
      assert NodesUse([Plain(text)], HERE_WORD) <==> Uses(text, HERE_WORD);
    }
  }

  lemma OneQuiet(node: Inline)
    requires match node
      case Plain(_) => false
      case Link(_, words) => Quiet(words)
      case Styled(children, _) => Quiet(children)
      case _ => true
    ensures Quiet([node])
  {
    assert [node][1..] == [];
  }

  lemma {:induction false} ParseQuiet(source: Text, base: nat)
    requires Idle(source)
    ensures Quiet(Inlines(source, base))
    decreases |source|, 4, 0
  {
    hide Quiet, InlinesFrom, Idle;
    CopiesNothing(source, 0);
    FromQuiet(source, base, 0, []);
  }

  lemma {:induction false} FromQuiet(source: Text, base: nat, i: nat, text: Text)
    requires i <= |source| && Idle(source) && Copies(source, i, text)
    ensures Quiet(InlinesFrom(source, base, i, text))
    decreases |source|, 3, |source| - i
  {
    hide Quiet, StepAt, TokenLen, Idle, MayNameEveryone;
    FlushQuiet(text);
    if i < |source| {
      StepQuiet(source, base, i);
      match StepAt(source, base, i)
      case Emit(node, next) =>
        CopiesNothing(source, next);
        FromQuiet(source, base, next, []);
        QuietConcat(Flush(text), [node]);
        QuietConcat(Flush(text) + [node], InlinesFrom(source, base, next, []));
      case Keep(b, next) =>
        CopiesMore(source, i, next, text, b);
        FromQuiet(source, base, next, text + [b]);
    }
  }

  lemma {:induction false} StepQuiet(source: Text, base: nat, i: nat)
    requires i < |source| && Idle(source)
    ensures match StepAt(source, base, i)
      case Emit(node, next) => Quiet([node])
      case Keep(b, next) => (next == i + 1 && b == source[i]) || Escapable(b)
    decreases |source|, 2, 0
  {
    hide Quiet, TokenLen, Labelled, BothStyles, Delimited, Idle, Rewrite;
    LabelledQuiet(source, base, i);
    BothStylesQuiet(source, base, i);
    DelimitedQuiet(source, base, i, 0);
    var step := StepAt(source, base, i);
    if step.Emit? && (step.node.Mention? || step.node.Code? || (step.node.Link? && step.node.words == [])) {
      assert Quiet([]) by {
        NothingQuiet();
      }
      OneQuiet(step.node);
    }
  }

  lemma NothingQuiet()
    ensures Quiet([])
  {
  }

  lemma {:induction false} LabelledQuiet(source: Text, base: nat, start: nat)
    requires start < |source| && Idle(source)
    ensures var m := Labelled(source, start); m.Found? ==> Quiet([m.node])
    decreases |source|, 1, 0
  {
    hide Quiet, TokenLen, Inlines, HoldsLink, Idle, AllSpace, UrlWhole, HrefEnd, LabelEnd, Rewrite;
    var m := Labelled(source, start);
    if m.Found? {
      var labelEnd := LabelEnd(source, start + 1);
      IdlePart(source, start + 1, labelEnd);
      ParseQuiet(source[start + 1..labelEnd], 0);
      OneQuiet(m.node);
    }
  }

  lemma {:induction false} BothStylesQuiet(source: Text, base: nat, i: nat)
    requires i < |source| && Idle(source)
    ensures var m := BothStyles(source, base, i); m.Found? ==> Quiet([m.node])
    decreases |source|, 1, 0
  {
    hide Quiet, TokenLen, Inlines, Idle;
    var m := BothStyles(source, base, i);
    if m.Found? {
      var j := CloserFrom(source, [STAR, STAR, STAR], i + 3);
      IdlePart(source, i + 3, j);
      ParseQuiet(source[i + 3..j], base + i + 3);
      OneQuiet(Styled(Inlines(source[i + 3..j], base + i + 3), false));
      OneQuiet(m.node);
    }
  }

  lemma {:induction false} DelimitedQuiet(source: Text, base: nat, i: nat, k: nat)
    requires i < |source| && k <= 5 && Idle(source)
    ensures var m := Delimited(source, base, i, k); m.Found? ==> Quiet([m.node])
    decreases |source|, 1, 6 - k
  {
    hide Quiet, TokenLen, Inlines, Idle, StarRun, SpaceAt, HasAt, ClosesAt, CloserFrom, Rewrite;
    var m := Delimited(source, base, i, k);
    if k < 5 && m.Found? {
      var d := Delim(k);
      DelimitedQuiet(source, base, i, k + 1);
      if OpensAt(source, d, i) {
        var start := i + |d|;
        var j := CloserFrom(source, d, start + 1);
        if k == 0 {
          StarRunQuiet(source, base, start, j);
        }
        if !(k == 0 && StarRun(source, base, start, j).Found?) && j != -1 {
          IdlePart(source, start, j);
          ParseQuiet(source[start..j], if k == 3 then 0 else base + start);
          OneQuiet(m.node);
        }
      }
    }
  }

  lemma {:induction false} StarRunQuiet(source: Text, base: nat, start: nat, closeAt: int)
    requires 2 <= start && (closeAt != -1 ==> start < closeAt <= |source|) && Idle(source)
    ensures var m := StarRun(source, base, start, closeAt); m.Found? ==> Quiet([m.node])
    decreases |source|, 1, 0
  {
    hide Quiet, TokenLen, Inlines, Idle;
    var m := StarRun(source, base, start, closeAt);
    if m.Found? {
      StarsRun(source, closeAt);
      var runEnd := StarsEnd(source, closeAt);
      IdlePart(source, start, runEnd - 2);
      ParseQuiet(source[start..runEnd - 2], base + start);
      OneQuiet(m.node);
    }
  }

  lemma {:induction false} BlocksQuiet(content: Text, lines: seq<Text>, i: nat, blocks: seq<Block>)
    requires i <= |lines| && Idle(content) && Quiet(Walk(blocks))
    requires forall k :: 0 <= k < |lines| ==> LineAt(content, lines, k)
    ensures Quiet(Walk(BlocksFrom(lines, i, blocks)))
    decreases |lines| - i
  {
    hide Quiet, TokenLen, Inlines, FormOf, Walk, AddRow, Idle, Joined, Rewrite, LineStart;
    if i < |lines| {
      match FormOf(lines[i])
      case OneLineFence(code) =>
        WalkFence(blocks, TokensAsText(code));
        BlocksQuiet(content, lines, i + 1, blocks + [Fence(TokensAsText(code))]);
      case OpensFence =>
        var j := FenceEnd(lines, i + 1);
        var text := TokensAsText(Joined(lines[i + 1..j]));
        WalkFence(blocks, text);
        BlocksQuiet(content, lines, if j == |lines| then j else j + 1, blocks + [Fence(text)]);
      case Row(kind, from) =>
        var start := LineStart(lines, i);
        assert LineAt(content, lines, i);
        IdlePart(content, start, start + |lines[i]|);
        IdlePart(lines[i], from, |lines[i]|);
        assert lines[i][from..|lines[i]|] == lines[i][from..];
        ParseQuiet(lines[i][from..], start + from);
        WalkAdded(blocks, kind, Inlines(lines[i][from..], start + from));
        QuietConcat(Walk(blocks), Inlines(lines[i][from..], start + from));
        BlocksQuiet(content, lines, i + 1, AddRow(blocks, kind, Inlines(lines[i][from..], start + from)));
    }
  }

  /** The shortcut changes nothing: content with no token that the hint does
      not match parses to nothing that uses either word. */
  lemma ShortcutIsExact(content: Text)
    requires Spans(content, 0) == [] && !MayNameEveryone(content)
    ensures Quiet(Walk(Parse(content)))
  {
    hide Quiet, TokenLen, Lines, Walk, WordAt;
    forall q | 0 <= q < |content| ensures !TokenAt(content, q) {
      if TokenAt(content, q) {
        SpanFound(content, 0, q);
      }
    }
    LinesAt(content);
    EmptyWalkQuiet();
    BlocksQuiet(content, Lines(content), 0, []);
  }

  lemma EmptyWalkQuiet()
    ensures Quiet(Walk([]))
  {
  }
}
