/** What a parse says about mentions: which tokens it shows, which of them
    are live, and where they are. */
module Offsets {
  import opened Bytes
  import opened Tokens
  import opened Rewriting
  import opened Markdown

  // ---- The mentions of a parse -----------------------------------------------

  /** Every mention of the nodes, in walk order, as readMentions collects. */
  function Shown(nodes: seq<Inline>): seq<Inline>
    decreases nodes
  {
    if |nodes| == 0 then [] else ShownBy(nodes[0]) + Shown(nodes[1..])
  }

  function ShownBy(node: Inline): seq<Inline>
    decreases node
  {
    match node
    case Mention(_, _) => [node]
    case Link(_, words) => Shown(words)
    case Styled(children, _) => Shown(children)
    case _ => []
  }

  /** The mentions outside every link's words and every spoiler. */
  function Live(nodes: seq<Inline>): seq<Inline>
    decreases nodes
  {
    if |nodes| == 0 then [] else LiveBy(nodes[0]) + Live(nodes[1..])
  }

  function LiveBy(node: Inline): seq<Inline>
    decreases node
  {
    match node
    case Mention(_, _) => [node]
    case Styled(children, false) => Live(children)
    case _ => []
  }

  ghost predicate LivePos(nodes: seq<Inline>, p: nat) {
    exists k :: 0 <= k < |Live(nodes)| && Live(nodes)[k].Mention? && Live(nodes)[k].at == p
  }

  lemma Associates(a: seq<Inline>, b: seq<Inline>, c: seq<Inline>)
    ensures a + (b + c) == a + b + c
  {
  }

  lemma ShownStep(nodes: seq<Inline>)
    ensures Shown(nodes) == if |nodes| == 0 then [] else ShownBy(nodes[0]) + Shown(nodes[1..])
  {
    hide ShownBy;
  }

  lemma {:induction false} ShownSplit(a: seq<Inline>, b: seq<Inline>)
    ensures Shown(a + b) == Shown(a) + Shown(b)
  {
    hide Shown, ShownBy;
    ShownStep(a);
    ShownStep(a + b);
    if |a| == 0 {
      assert a + b == b;
    } else {
      ShownSplit(a[1..], b);
      assert (a + b)[0] == a[0] && (a + b)[1..] == a[1..] + b;
      Associates(ShownBy(a[0]), Shown(a[1..]), Shown(b));
    }
  }

  lemma LiveStep(nodes: seq<Inline>)
    ensures Live(nodes) == if |nodes| == 0 then [] else LiveBy(nodes[0]) + Live(nodes[1..])
  {
    hide LiveBy;
  }

  lemma {:induction false} LiveSplit(a: seq<Inline>, b: seq<Inline>)
    ensures Live(a + b) == Live(a) + Live(b)
  {
    hide Live, LiveBy;
    LiveStep(a);
    LiveStep(a + b);
    if |a| == 0 {
      assert a + b == b;
    } else {
      LiveSplit(a[1..], b);
      assert (a + b)[0] == a[0] && (a + b)[1..] == a[1..] + b;
      Associates(LiveBy(a[0]), Live(a[1..]), Live(b));
    }
  }

  lemma One(node: Inline)
    ensures Shown([node]) == ShownBy(node) && Live([node]) == LiveBy(node)
  {
    assert Shown([node]) == ShownBy(node) + Shown([]);
    assert Live([node]) == LiveBy(node) + Live([]);
  }

  // ---- Soundness of a stretch of the parse --------------------------------------

  /** m is a token of source, found at offset base, between lo and hi. */
  ghost predicate Reads(m: Inline, source: Text, base: nat, lo: nat, hi: nat) {
    && m.Mention? && IsToken(m.token)
    && base + lo <= m.at && m.at + |m.token| <= base + hi && hi <= |source|
    && source[m.at - base..m.at - base + |m.token|] == m.token
  }

  ghost predicate InOrder(ms: seq<Inline>) {
    && (forall k :: 0 <= k < |ms| ==> ms[k].Mention?)
    && forall j, k :: 0 <= j < k < |ms| ==> ms[j].at + |ms[j].token| <= ms[k].at
  }

  /** A token of the stretch that the parse shows as text. */
  ghost predicate Dead(nodes: seq<Inline>, source: Text, base: nat, lo: nat, hi: nat, q: nat) {
    lo <= q < hi && TokenAt(source, q) && !LivePos(nodes, base + q)
  }

  /** nodes, parsed from source[lo..hi]: the live mentions are tokens of the
      source where they say they are, in order; and a mention that is not
      live claims an offset smaller than that of a token shown as text. */
  ghost predicate Sound(nodes: seq<Inline>, source: Text, base: nat, lo: nat, hi: nat) {
    && lo <= hi <= |source|
    && InOrder(Live(nodes))
    && (forall k :: 0 <= k < |Live(nodes)| ==> Reads(Live(nodes)[k], source, base, lo, hi))
    && (forall k :: 0 <= k < |Shown(nodes)| ==> Shown(nodes)[k].Mention? && IsToken(Shown(nodes)[k].token))
    && (forall k :: 0 <= k < |Shown(nodes)| ==> Accounted(nodes, source, base, lo, hi, Shown(nodes)[k]))
    && (Shown(nodes) != Live(nodes) ==> exists q :: Dead(nodes, source, base, lo, hi, q))
  }

  /** The mention is live, or claims an offset below a dead token's. */
  ghost predicate Accounted(nodes: seq<Inline>, source: Text, base: nat, lo: nat, hi: nat, m: Inline)
    requires m.Mention?
  {
    || LivePos(nodes, m.at)
    || exists q :: Dead(nodes, source, base, lo, hi, q) && m.at < base + q
  }

  lemma SoundNothing(source: Text, base: nat, lo: nat, hi: nat, nodes: seq<Inline>)
    requires lo <= hi <= |source| && Shown(nodes) == [] && Live(nodes) == []
    ensures Sound(nodes, source, base, lo, hi)
  {
  }

  lemma LivePosSplit(a: seq<Inline>, b: seq<Inline>, p: nat)
    ensures LivePos(a + b, p) <==> LivePos(a, p) || LivePos(b, p)
  {
    hide Live;
    LiveSplit(a, b);
    if LivePos(a + b, p) {
      var k :| 0 <= k < |Live(a + b)| && Live(a + b)[k].Mention? && Live(a + b)[k].at == p;
      if k < |Live(a)| {
        assert Live(a)[k].at == p;
      } else {
        assert Live(b)[k - |Live(a)|].at == p;
      }
    }
    if LivePos(a, p) {
      var k :| 0 <= k < |Live(a)| && Live(a)[k].Mention? && Live(a)[k].at == p;
      assert Live(a + b)[k].at == p;
    }
    if LivePos(b, p) {
      var k :| 0 <= k < |Live(b)| && Live(b)[k].Mention? && Live(b)[k].at == p;
      assert Live(a + b)[|Live(a)| + k].at == p;
    }
  }

  lemma LivePosWithin(nodes: seq<Inline>, source: Text, base: nat, lo: nat, hi: nat, p: nat)
    requires Sound(nodes, source, base, lo, hi) && LivePos(nodes, p)
    ensures base + lo <= p < base + hi
  {
    hide TokenLen, Live, Accounted, Dead, Shown;
    var k :| 0 <= k < |Live(nodes)| && Live(nodes)[k].Mention? && Live(nodes)[k].at == p;
    assert Reads(Live(nodes)[k], source, base, lo, hi);
  }

  lemma DeadInPart(a: seq<Inline>, b: seq<Inline>, source: Text, base: nat, lo: nat, mid: nat, hi: nat, q: nat)
    requires Sound(a, source, base, lo, mid) && Sound(b, source, base, mid, hi)
    requires Dead(a, source, base, lo, mid, q) || Dead(b, source, base, mid, hi, q)
    ensures Dead(a + b, source, base, lo, hi, q)
  {
    hide TokenLen, LivePos;
    LivePosSplit(a, b, base + q);
    if LivePos(a, base + q) {
      LivePosWithin(a, source, base, lo, mid, base + q);
    }
    if LivePos(b, base + q) {
      LivePosWithin(b, source, base, mid, hi, base + q);
    }
  }

  lemma AccountedInPart(a: seq<Inline>, b: seq<Inline>, source: Text, base: nat, lo: nat, mid: nat, hi: nat, m: Inline)
    requires Sound(a, source, base, lo, mid) && Sound(b, source, base, mid, hi) && m.Mention?
    requires Accounted(a, source, base, lo, mid, m) || Accounted(b, source, base, mid, hi, m)
    ensures Accounted(a + b, source, base, lo, hi, m)
  {
    hide TokenLen, Sound, Dead;
    LivePosSplit(a, b, m.at);
    if LivePos(a, m.at) || LivePos(b, m.at) {
    } else if q :| Dead(a, source, base, lo, mid, q) && m.at < base + q {
      DeadInPart(a, b, source, base, lo, mid, hi, q);
    } else {
      var q :| Dead(b, source, base, mid, hi, q) && m.at < base + q;
      DeadInPart(a, b, source, base, lo, mid, hi, q);
    }
  }

  lemma LiveConcatReads(a: seq<Inline>, b: seq<Inline>, source: Text, base: nat, lo: nat, mid: nat, hi: nat)
    requires Sound(a, source, base, lo, mid) && Sound(b, source, base, mid, hi)
    ensures InOrder(Live(a) + Live(b))
    ensures forall k :: 0 <= k < |Live(a) + Live(b)| ==> Reads((Live(a) + Live(b))[k], source, base, lo, hi)
  {
    hide TokenLen, IsToken, Dead, Accounted, Shown, Live;
    var ms, n := Live(a) + Live(b), |Live(a)|;
    forall k | 0 <= k < |ms|
      ensures Reads(ms[k], source, base, lo, hi)
      ensures if k < n then ms[k].at + |ms[k].token| <= base + mid else base + mid <= ms[k].at
    {
      if k < n {
        assert ms[k] == Live(a)[k] && Reads(Live(a)[k], source, base, lo, mid);
      } else {
        assert ms[k] == Live(b)[k - n] && Reads(Live(b)[k - n], source, base, mid, hi);
      }
    }
    InOrderConcat(Live(a), Live(b), base + mid);
  }

  lemma InOrderConcat(x: seq<Inline>, y: seq<Inline>, p: nat)
    requires InOrder(x) && InOrder(y)
    requires forall k :: 0 <= k < |x| ==> x[k].at + |x[k].token| <= p
    requires forall k :: 0 <= k < |y| ==> p <= y[k].at
    ensures InOrder(x + y)
  {
    var ms := x + y;
    forall j, k | 0 <= j < k < |ms| ensures ms[j].at + |ms[j].token| <= ms[k].at {
      if k < |x| {
        assert x[j].at + |x[j].token| <= x[k].at;
      } else if j >= |x| {
        var j', k' := j - |x|, k - |x|;
        assert y[j'].at + |y[j'].token| <= y[k'].at;
      }
    }
  }

  lemma ShownConcatAccounted(a: seq<Inline>, b: seq<Inline>, source: Text, base: nat, lo: nat, mid: nat, hi: nat)
    requires Sound(a, source, base, lo, mid) && Sound(b, source, base, mid, hi)
    ensures forall k :: 0 <= k < |Shown(a) + Shown(b)| ==>
      var m := (Shown(a) + Shown(b))[k];
      m.Mention? && IsToken(m.token) && Accounted(a + b, source, base, lo, hi, m)
  {
    hide TokenLen, IsToken, Dead, Accounted, Reads, Shown, Live;
    var ms := Shown(a) + Shown(b);
    forall k | 0 <= k < |ms|
      ensures ms[k].Mention? && IsToken(ms[k].token) && Accounted(a + b, source, base, lo, hi, ms[k])
    {
      if k < |Shown(a)| {
        assert ms[k] == Shown(a)[k];
      } else {
        assert ms[k] == Shown(b)[k - |Shown(a)|];
      }
      AccountedInPart(a, b, source, base, lo, mid, hi, ms[k]);
    }
  }

  /** Two stretches side by side. */
  lemma SoundConcat(a: seq<Inline>, b: seq<Inline>, source: Text, base: nat, lo: nat, mid: nat, hi: nat)
    requires Sound(a, source, base, lo, mid) && Sound(b, source, base, mid, hi)
    ensures Sound(a + b, source, base, lo, hi)
  {
    hide TokenLen, IsToken, Dead, Accounted, Reads, Shown, Live, InOrder;
    ShownSplit(a, b);
    LiveSplit(a, b);
    LiveConcatReads(a, b, source, base, lo, mid, hi);
    ShownConcatAccounted(a, b, source, base, lo, mid, hi);
    if Shown(a + b) != Live(a + b) {
      var q :| Dead(a, source, base, lo, mid, q) || Dead(b, source, base, mid, hi, q);
      DeadInPart(a, b, source, base, lo, mid, hi, q);
    }
  }

  // ---- Nesting --------------------------------------------------------------------

  lemma SubToken(source: Text, lo: nat, hi: nat, q: nat)
    requires lo <= hi <= |source| && TokenAt(source[lo..hi], q)
    ensures lo + q < hi && TokenAt(source, lo + q)
  {
    hide TokenLen;
    var tail := source[lo + q..];
    assert source[lo..hi][q..] == tail[..hi - lo - q];
    TokenPrefix(tail, hi - lo - q);
  }

  lemma DeadOutward(nodes: seq<Inline>, outer: seq<Inline>, source: Text, base: nat, lo: nat, a: nat, b: nat, hi: nat, q: nat)
    requires lo <= a <= b <= hi <= |source| && Live(outer) == Live(nodes)
    requires Dead(nodes, source[a..b], base + a, 0, |source[a..b]|, q)
    ensures Dead(outer, source, base, lo, hi, a + q)
  {
    hide TokenLen, Live;
    SubToken(source, a, b, q);
    assert base + a + q == base + (a + q);
  }

  lemma ReadsOutward(m: Inline, source: Text, base: nat, lo: nat, a: nat, b: nat, hi: nat)
    requires lo <= a <= b <= hi <= |source| && Reads(m, source[a..b], base + a, 0, |source[a..b]|)
    ensures Reads(m, source, base, lo, hi)
  {
    hide TokenLen, IsToken;
    SliceOfSlice(source, a, b, m.at - base - a, |m.token|);
  }

  lemma SliceOfSlice(s: Text, a: nat, b: nat, p: nat, n: nat)
    requires a + p + n <= b <= |s|
    ensures s[a..b][p..p + n] == s[a + p..a + p + n]
  {
    var inner, outer := s[a..b][p..p + n], s[a + p..a + p + n];
    assert forall k :: 0 <= k < n ==> inner[k] == outer[k];
  }

  /** A stretch parsed on its own, from its place in the source. */
  lemma SoundOutward(nodes: seq<Inline>, outer: seq<Inline>, source: Text, base: nat, lo: nat, a: nat, b: nat, hi: nat)
    requires lo <= a <= b <= hi <= |source|
    requires Sound(nodes, source[a..b], base + a, 0, |source[a..b]|)
    requires Shown(outer) == Shown(nodes) && Live(outer) == Live(nodes)
    ensures Sound(outer, source, base, lo, hi)
  {
    hide TokenLen, IsToken, Dead, Reads, Shown, Live;
    var sub := source[a..b];
    forall k | 0 <= k < |Live(outer)| ensures Reads(Live(outer)[k], source, base, lo, hi) {
      ReadsOutward(Live(nodes)[k], source, base, lo, a, b, hi);
    }
    forall k | 0 <= k < |Shown(outer)|
      ensures Shown(outer)[k].Mention? && IsToken(Shown(outer)[k].token)
      ensures Accounted(outer, source, base, lo, hi, Shown(outer)[k])
    {
      var m := Shown(nodes)[k];
      assert Accounted(nodes, sub, base + a, 0, |sub|, m);
      if !LivePos(nodes, m.at) {
        var q :| Dead(nodes, sub, base + a, 0, |sub|, q) && m.at < base + a + q;
        DeadOutward(nodes, outer, source, base, lo, a, b, hi, q);
      }
    }
    if Shown(outer) != Live(outer) {
      var q :| Dead(nodes, sub, base + a, 0, |sub|, q);
      DeadOutward(nodes, outer, source, base, lo, a, b, hi, q);
    }
  }

  /** Words parsed from text rewritten as text: any mention in them was joined
      by tokens that are now dead, and claims an offset below one of them. */
  lemma SoundRewritten(nodes: seq<Inline>, outer: seq<Inline>, source: Text, base: nat, lo: nat, a: nat, b: nat, hi: nat)
    requires lo <= a <= b <= hi <= |source|
    requires var text := TokensAsText(source[a..b]); Sound(nodes, text, 0, 0, |text|)
    requires Shown(outer) == Shown(nodes) && Live(outer) == []
    ensures Sound(outer, source, base, lo, hi)
  {
    hide TokenLen, IsToken, Dead, Reads, Shown, Live;
    forall k | 0 <= k < |Shown(outer)|
      ensures Shown(outer)[k].Mention? && IsToken(Shown(outer)[k].token)
      ensures exists q :: Dead(outer, source, base, lo, hi, q) && Shown(outer)[k].at < base + q
    {
      var q := RewrittenExcuse(nodes, source[a..b], Shown(nodes)[k]);
      RewrittenDead(outer, source, base, lo, a, b, hi, q);
    }
    if Shown(outer) != Live(outer) {
      var q :| Dead(outer, source, base, lo, hi, q) && Shown(outer)[0].at < base + q;
    }
  }

  lemma RewrittenDead(outer: seq<Inline>, source: Text, base: nat, lo: nat, a: nat, b: nat, hi: nat, q: nat)
    requires lo <= a <= b <= hi <= |source| && TokenAt(source[a..b], q) && Live(outer) == []
    ensures Dead(outer, source, base, lo, hi, a + q)
  {
    hide TokenLen, Live;
    SubToken(source, a, b, q);
  }

  lemma RewrittenExcuse(nodes: seq<Inline>, words: Text, m: Inline) returns (q: nat)
    requires var text := TokensAsText(words); Sound(nodes, text, 0, 0, |text|) && m in Shown(nodes) && m.Mention?
    ensures q < |words| && TokenAt(words, q) && m.at < q
  {
    hide TokenLen, TokenAt, Shown, Live, Rewrite, LivePos, IsToken;
    var text := TokensAsText(words);
    var k :| 0 <= k < |Shown(nodes)| && Shown(nodes)[k] == m;
    assert Accounted(nodes, text, 0, 0, |text|, m);
    if LivePos(nodes, m.at) {
      LiveIsToken(nodes, text, m.at);
      q := JoinedFromLater(words, 0, m.at);
    } else {
      var d: nat :| Dead(nodes, text, 0, 0, |text|, d) && m.at < 0 + d;
      q := JoinedFromLater(words, 0, d);
    }
  }

  lemma LiveIsToken(nodes: seq<Inline>, text: Text, p: nat)
    requires Sound(nodes, text, 0, 0, |text|) && LivePos(nodes, p)
    ensures TokenAt(text, p)
  {
    hide TokenLen, Shown, Live, Accounted, Dead;
    var j :| 0 <= j < |Live(nodes)| && Live(nodes)[j].Mention? && Live(nodes)[j].at == p;
    var l := Live(nodes)[j];
    assert Reads(l, text, 0, 0, |text|);
    assert text[p..][..|l.token|] == l.token;
    TokenPrefix(text[p..], |l.token|);
  }

  // ---- The whole parse --------------------------------------------------------------

  /** Every parse of a run of text is sound. */
  lemma {:induction false} ParseSound(source: Text, base: nat)
    ensures Sound(Inlines(source, base), source, base, 0, |source|)
    decreases |source|, 4, 0
  {
    hide Sound, InlinesFrom;
    FromSound(source, base, 0, []);
  }

  lemma {:induction false} FromSound(source: Text, base: nat, i: nat, text: Text)
    requires i <= |source|
    ensures Sound(InlinesFrom(source, base, i, text), source, base, i, |source|)
    decreases |source|, 3, |source| - i
  {
    hide Sound, StepAt, Shown, Live, TokenLen;
    NoMentions(text);
    SoundNothing(source, base, i, i, Flush(text));
    if i < |source| {
      match StepAt(source, base, i)
      case Emit(node, next) =>
        StepSound(source, base, i);
        FromSound(source, base, next, []);
        SoundConcat(Flush(text), [node], source, base, i, i, next);
        SoundConcat(Flush(text) + [node], InlinesFrom(source, base, next, []), source, base, i, next, |source|);
      case Keep(b, next) =>
        FromSound(source, base, next, text + [b]);
        NoMentions([]);
        SoundNothing(source, base, i, next, []);
        SoundConcat([], InlinesFrom(source, base, next, text + [b]), source, base, i, next, |source|);
        assert [] + InlinesFrom(source, base, next, text + [b]) == InlinesFrom(source, base, next, text + [b]);
    }
  }

  lemma NoMentions(text: Text)
    ensures Shown(Flush(text)) == [] && Live(Flush(text)) == []
  {
    if |text| > 0 {
      One(Plain(text));
    }
  }

  lemma MentionSound(source: Text, base: nat, i: nat)
    requires i < |source| && TokenLen(source[i..]) > 0
    ensures var n := TokenLen(source[i..]);
            Sound([Mention(source[i..i + n], base + i)], source, base, i, i + n)
  {
    hide TokenLen, IsToken, Shown, Live;
    var n := TokenLen(source[i..]);
    var node := Mention(source[i..i + n], base + i);
    Leading(source[i..]);
    assert source[i..][..n] == source[i..i + n];
    One(node);
    assert Shown([node]) == [node] && Live([node]) == [node];
    assert Reads(node, source, base, i, i + n);
    assert Live([node])[0].at == base + i && LivePos([node], base + i);
  }

  /** A node without mentions of its own. */
  lemma PlainSound(node: Inline, source: Text, base: nat, lo: nat, hi: nat)
    requires lo <= hi <= |source| && (node.Code? || node.Plain? || (node.Link? && node.words == []))
    ensures Sound([node], source, base, lo, hi)
  {
    One(node);
    SoundNothing(source, base, lo, hi, [node]);
  }

  lemma {:induction false} StepSound(source: Text, base: nat, i: nat)
    requires i < |source|
    ensures var step := StepAt(source, base, i);
            step.Emit? ==> Sound([step.node], source, base, i, step.next)
    decreases |source|, 2, 0
  {
    hide Sound, TokenLen, Labelled, BothStyles, Delimited;
    LabelledSound(source, base, i);
    BothStylesSound(source, base, i);
    DelimitedSound(source, base, i, 0);
    var step := StepAt(source, base, i);
    if source[i] == LESS && TokenLen(source[i..]) > 0 {
      MentionSound(source, base, i);
    } else if step.Emit? && (step.node.Code? || (step.node.Link? && step.node.words == [])) {
      PlainSound(step.node, source, base, i, step.next);
    }
  }

  lemma {:induction false} LabelledSound(source: Text, base: nat, start: nat)
    requires start < |source|
    ensures var m := Labelled(source, start); m.Found? ==> Sound([m.node], source, base, start, m.next)
    decreases |source|, 1, 0
  {
    hide Sound, TokenLen, Inlines, HoldsLink, Shown, Live;
    var m := Labelled(source, start);
    if m.Found? {
      var labelEnd := LabelEnd(source, start + 1);
      var words := source[start + 1..labelEnd];
      TextIsNoLonger(words, 0);
      ParseSound(TokensAsText(words), 0);
      One(m.node);
      SoundRewritten(Inlines(TokensAsText(words), 0), [m.node], source, base, start, start + 1, labelEnd, m.next);
    }
  }

  lemma {:induction false} BothStylesSound(source: Text, base: nat, i: nat)
    requires i < |source|
    ensures var m := BothStyles(source, base, i); m.Found? ==> Sound([m.node], source, base, i, m.next)
    decreases |source|, 1, 0
  {
    hide Sound, TokenLen, Inlines, Shown, Live;
    var m := BothStyles(source, base, i);
    if m.Found? {
      var j := CloserFrom(source, [STAR, STAR, STAR], i + 3);
      ParseSound(source[i + 3..j], base + i + 3);
      var nodes := Inlines(source[i + 3..j], base + i + 3);
      One(Styled(nodes, false));
      One(m.node);
      assert base + i + 3 == base + (i + 3);
      SoundOutward(nodes, [m.node], source, base, i, i + 3, j, m.next);
    }
  }

  lemma {:induction false} DelimitedSound(source: Text, base: nat, i: nat, k: nat)
    requires i < |source| && k <= 5
    ensures var m := Delimited(source, base, i, k); m.Found? ==> Sound([m.node], source, base, i, m.next)
    decreases |source|, 1, 6 - k
  {
    hide Sound, TokenLen, Inlines, Shown, Live, StarRun, SpaceLen, SpaceAt, SpaceBefore, CloserFrom, Rewrite, ClosesAt;
    var m := Delimited(source, base, i, k);
    if k < 5 && m.Found? {
      var d := Delim(k);
      DelimitedSound(source, base, i, k + 1);
      if OpensAt(source, d, i) {
        var start := i + |d|;
        var j := CloserFrom(source, d, start + 1);
        if k == 0 {
          StarRunSound(source, base, i, start, j);
        }
        if !(k == 0 && StarRun(source, base, start, j).Found?) && j != -1 {
          StyleSound(source, base, i, start, j, m.next, k == 3);
        }
      }
    }
  }

  lemma {:induction false} StyleSound(source: Text, base: nat, i: nat, start: nat, j: nat, next: nat, spoiler: bool)
    requires i < start <= j <= next <= |source|
    ensures spoiler ==> |TokensAsText(source[start..j])| < |source|
    ensures var nodes := if spoiler then Inlines(TokensAsText(source[start..j]), 0) else Inlines(source[start..j], base + start);
            Sound([Styled(nodes, spoiler)], source, base, i, next)
    decreases |source|, 0, 0
  {
    hide Sound, TokenLen, Inlines, Shown, Live;
    if spoiler {
      TextIsNoLonger(source[start..j], 0);
      ParseSound(TokensAsText(source[start..j]), 0);
      var nodes := Inlines(TokensAsText(source[start..j]), 0);
      One(Styled(nodes, true));
      SoundRewritten(nodes, [Styled(nodes, true)], source, base, i, start, j, next);
    } else {
      ParseSound(source[start..j], base + start);
      var nodes := Inlines(source[start..j], base + start);
      One(Styled(nodes, false));
      SoundOutward(nodes, [Styled(nodes, false)], source, base, i, start, j, next);
    }
  }

  lemma {:induction false} StarRunSound(source: Text, base: nat, i: nat, start: nat, closeAt: int)
    requires 2 <= start && i < start && (closeAt != -1 ==> start < closeAt <= |source|)
    ensures var m := StarRun(source, base, start, closeAt); m.Found? ==> Sound([m.node], source, base, i, m.next)
    decreases |source|, 1, 0
  {
    hide Sound, TokenLen, Inlines, Shown, Live;
    var m := StarRun(source, base, start, closeAt);
    if m.Found? {
      StarsRun(source, closeAt);
      var runEnd := StarsEnd(source, closeAt);
      ParseSound(source[start..runEnd - 2], base + start);
      One(m.node);
      SoundOutward(Inlines(source[start..runEnd - 2], base + start), [m.node], source, base, i, start, runEnd - 2, runEnd);
    }
  }
}
