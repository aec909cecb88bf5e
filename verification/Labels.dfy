/** A link's words hold no link of their own, so no message shows one address
    over another, and a link with words goes to an http or https address. */
module Labels {
  import opened Bytes
  import opened Tokens
  import opened Rewriting
  import opened Markdown
  import opened Offsets
  import opened Blocks
  import opened Mentions

  predicate NodeIsHonest(node: Inline)
    decreases node
  {
    match node
    case Link(href, words) => !HoldsLink(words) && (|words| > 0 ==> UrlWhole(href))
    case Styled(children, _) => Honest(children)
    case _ => true
  }

  /** At any depth, each link shows words without a link over a whole address,
      or its address. */
  predicate Honest(nodes: seq<Inline>)
    decreases nodes
  {
    |nodes| > 0 ==> NodeIsHonest(nodes[0]) && Honest(nodes[1..])
  }

  lemma {:induction false} HonestConcat(a: seq<Inline>, b: seq<Inline>)
    requires Honest(a) && Honest(b)
    ensures Honest(a + b)
  {
    hide NodeIsHonest;
    if |a| == 0 {
      assert a + b == b;
    } else {
      assert (a + b)[0] == a[0] && (a + b)[1..] == a[1..] + b;
      HonestConcat(a[1..], b);
    }
  }

  lemma OneHonest(node: Inline)
    requires NodeIsHonest(node)
    ensures Honest([node])
  {
    assert [node][1..] == [];
  }

  lemma FlushHonest(text: Text)
    ensures Honest(Flush(text))
  {
  }

  lemma {:induction false} ParseHonest(source: Text, base: nat)
    ensures Honest(Inlines(source, base))
    decreases |source|, 4, 0
  {
    hide Honest, InlinesFrom;
    FromHonest(source, base, 0, []);
  }

  lemma {:induction false} FromHonest(source: Text, base: nat, i: nat, text: Text)
    requires i <= |source|
    ensures Honest(InlinesFrom(source, base, i, text))
    decreases |source|, 3, |source| - i
  {
    hide Honest, StepAt, TokenLen, Flush;
    FlushHonest(text);
    if i < |source| {
      StepHonest(source, base, i);
      match StepAt(source, base, i)
      case Emit(node, next) =>
        FromHonest(source, base, next, []);
        HonestConcat(Flush(text), [node]);
        HonestConcat(Flush(text) + [node], InlinesFrom(source, base, next, []));
      case Keep(b, next) =>
        FromHonest(source, base, next, text + [b]);
    }
  }

  lemma {:induction false} StepHonest(source: Text, base: nat, i: nat)
    requires i < |source|
    ensures var step := StepAt(source, base, i); step.Emit? ==> Honest([step.node])
    decreases |source|, 2, 0
  {
    hide Honest, TokenLen, Labelled, BothStyles, Delimited, Rewrite, UrlLen, TrimUrlLen;
    LabelledHonest(source, i);
    BothStylesHonest(source, base, i);
    DelimitedHonest(source, base, i, 0);
    var step := StepAt(source, base, i);
    if step.Emit? && (step.node.Mention? || step.node.Code? || (step.node.Link? && step.node.words == [])) {
      OneHonest(step.node);
    }
  }

  lemma LabelledHonest(source: Text, start: nat)
    requires start < |source|
    ensures var m := Labelled(source, start); m.Found? ==> Honest([m.node])
  {
    hide Honest, TokenLen, Inlines, HoldsLink, AllSpace, UrlWhole, HrefEnd, LabelEnd, Rewrite;
    var m := Labelled(source, start);
    if m.Found? {
      OneHonest(m.node);
    }
  }

  lemma {:induction false} BothStylesHonest(source: Text, base: nat, i: nat)
    requires i < |source|
    ensures var m := BothStyles(source, base, i); m.Found? ==> Honest([m.node])
    decreases |source|, 1, 0
  {
    hide Honest, TokenLen, Inlines, CloserFrom, HasAt;
    var m := BothStyles(source, base, i);
    if m.Found? {
      var j := CloserFrom(source, [STAR, STAR, STAR], i + 3);
      ParseHonest(source[i + 3..j], base + i + 3);
      OneHonest(Styled(Inlines(source[i + 3..j], base + i + 3), false));
      OneHonest(m.node);
    }
  }

  lemma {:induction false} DelimitedHonest(source: Text, base: nat, i: nat, k: nat)
    requires i < |source| && k <= 5
    ensures var m := Delimited(source, base, i, k); m.Found? ==> Honest([m.node])
    decreases |source|, 1, 6 - k
  {
    hide Honest, TokenLen, Inlines, StarRun, SpaceAt, HasAt, ClosesAt, CloserFrom, Rewrite;
    var m := Delimited(source, base, i, k);
    if k < 5 && m.Found? {
      var d := Delim(k);
      DelimitedHonest(source, base, i, k + 1);
      if OpensAt(source, d, i) {
        var start := i + |d|;
        var j := CloserFrom(source, d, start + 1);
        if k == 0 {
          StarRunHonest(source, base, start, j);
        }
        if !(k == 0 && StarRun(source, base, start, j).Found?) && j != -1 {
          var words := if k == 3 then TokensAsText(source[start..j]) else source[start..j];
          TextIsNoLonger(source[start..j], 0);
          ParseHonest(words, if k == 3 then 0 else base + start);
          OneHonest(m.node);
        }
      }
    }
  }

  lemma {:induction false} StarRunHonest(source: Text, base: nat, start: nat, closeAt: int)
    requires 2 <= start && (closeAt != -1 ==> start < closeAt <= |source|)
    ensures var m := StarRun(source, base, start, closeAt); m.Found? ==> Honest([m.node])
    decreases |source|, 1, 0
  {
    hide Honest, TokenLen, Inlines;
    var m := StarRun(source, base, start, closeAt);
    if m.Found? {
      StarsRun(source, closeAt);
      var runEnd := StarsEnd(source, closeAt);
      ParseHonest(source[start..runEnd - 2], base + start);
      OneHonest(m.node);
    }
  }

  lemma {:induction false} BlocksHonest(lines: seq<Text>, i: nat, blocks: seq<Block>)
    requires i <= |lines| && Honest(Walk(blocks))
    ensures Honest(Walk(BlocksFrom(lines, i, blocks)))
    decreases |lines| - i
  {
    hide Honest, TokenLen, Inlines, FormOf, Walk, AddRow, Joined, Rewrite;
    if i < |lines| {
      match FormOf(lines[i])
      case OneLineFence(code) =>
        WalkFence(blocks, TokensAsText(code));
        BlocksHonest(lines, i + 1, blocks + [Fence(TokensAsText(code))]);
      case OpensFence =>
        var j := FenceEnd(lines, i + 1);
        var text := TokensAsText(Joined(lines[i + 1..j]));
        WalkFence(blocks, text);
        BlocksHonest(lines, if j == |lines| then j else j + 1, blocks + [Fence(text)]);
      case Row(kind, from) =>
        var row := Inlines(lines[i][from..], LineStart(lines, i) + from);
        ParseHonest(lines[i][from..], LineStart(lines, i) + from);
        WalkAdded(blocks, kind, row);
        HonestConcat(Walk(blocks), row);
        BlocksHonest(lines, i + 1, AddRow(blocks, kind, row));
    }
  }

  /** No message shows an address over another. */
  lemma LinksAreHonest(content: Text)
    ensures Honest(Nodes(content))
  {
    hide Lines, BlocksFrom;
    BlocksHonest(Lines(content), 0, []);
  }
}
