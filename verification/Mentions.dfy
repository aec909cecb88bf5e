/** checkMentions: which of a message's tokens are kept, under which names,
    and who they tell. */
module Mentions {
  import opened Bytes
  import opened Tokens
  import opened Rewriting
  import opened Markdown
  import opened Offsets
  import opened Blocks

  function Nodes(content: Text): seq<Inline> {
    Walk(Parse(content))
  }

  function Positions(ms: seq<Inline>): set<nat> {
    set m | m in ms && m.Mention? :: m.at
  }

  lemma ShownAreTokens(content: Text)
    ensures forall k :: 0 <= k < |Shown(Nodes(content))| ==>
      Shown(Nodes(content))[k].Mention? && IsToken(Shown(Nodes(content))[k].token)
  {
    hide TokenLen, IsToken;
    MessageSound(content);
  }

  // ---- At the fixpoint ------------------------------------------------------------

  ghost predicate EveryTokenShown(content: Text, nodes: seq<Inline>) {
    forall q :: 0 <= q < |content| && TokenAt(content, q) ==> q in Positions(Shown(nodes))
  }

  /** When every token of the text is claimed live, each is: a false claim is
      always smaller than a dead token's offset, and that token needs a false
      claim of its own, which needs a dead token further on still. */
  lemma {:induction false} Climb(content: Text, nodes: seq<Inline>, q: nat)
    requires Sound(nodes, content, 0, 0, |content|) && EveryTokenShown(content, nodes)
    requires q < |content| && TokenAt(content, q)
    ensures LivePos(nodes, q)
    decreases |content| - q
  {
    hide TokenLen, IsToken, Shown, Live;
    assert q in Positions(Shown(nodes));
    var m :| m in Shown(nodes) && m.Mention? && m.at == q;
    var k :| 0 <= k < |Shown(nodes)| && Shown(nodes)[k] == m;
    assert Accounted(nodes, content, 0, 0, |content|, m);
    if !LivePos(nodes, q) {
      var later: nat :| Dead(nodes, content, 0, 0, |content|, later) && q < 0 + later;
      Climb(content, nodes, later);
    }
  }

  lemma DeadIs(nodes: seq<Inline>, content: Text, q: nat)
    ensures Dead(nodes, content, 0, 0, |content|, q) <==> q < |content| && TokenAt(content, q) && !LivePos(nodes, q)
  {
    assert 0 + q == q;
  }

  lemma AllShownAllLive(content: Text, nodes: seq<Inline>)
    requires Sound(nodes, content, 0, 0, |content|) && EveryTokenShown(content, nodes)
    ensures Shown(nodes) == Live(nodes)
    ensures forall q :: 0 <= q < |content| && TokenAt(content, q) ==> LivePos(nodes, q)
  {
    hide TokenLen, IsToken, Shown, Live, Accounted, Reads, Dead;
    forall q | 0 <= q < |content| && TokenAt(content, q) ensures LivePos(nodes, q) {
      Climb(content, nodes, q);
    }
    forall q: nat ensures !Dead(nodes, content, 0, 0, |content|, q) {
      DeadIs(nodes, content, q);
    }
  }

  /** The tokens of s, found at offset `at`, as mentions. */
  function ScanMentions(s: Text, at: nat): seq<Inline> {
    if |s| == 0 then []
    else if TokenLen(s) > 0 then
      [Mention(s[..TokenLen(s)], at)] + ScanMentions(s[TokenLen(s)..], at + TokenLen(s))
    else ScanMentions(s[1..], at + 1)
  }

  ghost predicate HasMentionAt(ms: seq<Inline>, p: nat) {
    exists k :: 0 <= k < |ms| && ms[k].Mention? && ms[k].at == p
  }

  /** Tokens in order that miss none are the scan's. */
  lemma {:induction false} InOrderIsScan(ms: seq<Inline>, s: Text, at: nat)
    requires InOrder(ms) && forall k :: 0 <= k < |ms| ==> Reads(ms[k], s, at, 0, |s|)
    requires forall q :: 0 <= q < |s| && TokenAt(s, q) ==> HasMentionAt(ms, at + q)
    ensures ms == ScanMentions(s, at)
    decreases |s|
  {
    hide TokenLen, TokenAt, Reads, InOrder, IsToken, HasMentionAt;
    if |ms| > 0 {
      ReadsBounds(ms[0], s, at);
    }
    if |s| == 0 {
    } else if TokenLen(s) > 0 {
      FirstIsHere(ms, s, at);
      TailReads(ms[1..], ms, 1, s, at, TokenLen(s));
      InOrderIsScan(ms[1..], s[TokenLen(s)..], at + TokenLen(s));
      assert ms == [ms[0]] + ms[1..];
    } else {
      forall k | 0 <= k < |ms| ensures ms[k].Mention? && at + 1 <= ms[k].at {
        ReadsBounds(ms[k], s, at);
        NotAtStart(ms[k], s, at);
      }
      assert ms[0..] == ms;
      TailReads(ms, ms, 0, s, at, 1);
      InOrderIsScan(ms, s[1..], at + 1);
    }
  }

  lemma ReadsBounds(m: Inline, s: Text, at: nat)
    requires Reads(m, s, at, 0, |s|)
    ensures m.Mention? && at <= m.at < m.at + |m.token| <= at + |s|
  {
    hide TokenLen;
  }

  lemma NotAtStart(m: Inline, s: Text, at: nat)
    requires Reads(m, s, at, 0, |s|) && TokenLen(s) == 0
    ensures m.Mention? && m.at != at
  {
    hide TokenLen, Reads;
    ReadsBounds(m, s, at);
    if m.at == at {
      ReadsHere(m, s, at);
    }
  }

  lemma FirstIsHere(ms: seq<Inline>, s: Text, at: nat)
    requires TokenLen(s) > 0 && InOrder(ms) && forall k :: 0 <= k < |ms| ==> Reads(ms[k], s, at, 0, |s|)
    requires forall q :: 0 <= q < |s| && TokenAt(s, q) ==> HasMentionAt(ms, at + q)
    ensures |ms| > 0 && ms[0] == Mention(s[..TokenLen(s)], at)
    ensures forall k :: 1 <= k < |ms| ==> ms[k].Mention? && at + TokenLen(s) <= ms[k].at
  {
    hide TokenLen, TokenAt, Reads, IsToken;
    AtStart(s);
    assert HasMentionAt(ms, at + 0);
    var k :| 0 <= k < |ms| && ms[k].Mention? && ms[k].at == at;
    ReadsBounds(ms[0], s, at);
    assert k == 0;
    ReadsHere(ms[0], s, at);
    forall j | 1 <= j < |ms| ensures ms[j].Mention? && at + TokenLen(s) <= ms[j].at {
      assert ms[0].at + |ms[0].token| <= ms[j].at;
    }
  }

  lemma ReadsHere(m: Inline, s: Text, at: nat)
    requires Reads(m, s, at, 0, |s|) && m.at == at
    ensures TokenLen(s) > 0 && m.token == s[..TokenLen(s)]
  {
    hide TokenLen;
    assert s[m.at - at..m.at - at + |m.token|] == s[..|m.token|];
    TokenPrefix(s, |m.token|);
  }

  /** Tokens from n on are tokens of s[n..]. */
  lemma TailReads(tail: seq<Inline>, ms: seq<Inline>, drop: nat, s: Text, at: nat, n: nat)
    requires drop <= |ms| && tail == ms[drop..] && n <= |s| && InOrder(ms)
    requires forall k :: 0 <= k < |ms| ==> Reads(ms[k], s, at, 0, |s|)
    requires forall k :: 0 <= k < |ms| ==> ms[k].Mention? && (at + n <= ms[k].at <==> drop <= k)
    requires forall q :: 0 <= q < |s| && TokenAt(s, q) ==> HasMentionAt(ms, at + q)
    ensures InOrder(tail) && forall k :: 0 <= k < |tail| ==> Reads(tail[k], s[n..], at + n, 0, |s[n..]|)
    ensures forall q :: 0 <= q < |s[n..]| && TokenAt(s[n..], q) ==> HasMentionAt(tail, at + n + q)
  {
    hide TokenLen, TokenAt, Reads, IsToken;
    var rest := s[n..];
    forall k | 0 <= k < |tail| ensures Reads(tail[k], rest, at + n, 0, |rest|) {
      ReadsTail(ms[drop + k], s, at, n);
    }
    forall j, k | 0 <= j < k < |tail| ensures tail[j].at + |tail[j].token| <= tail[k].at {
      assert tail[j] == ms[drop + j] && tail[k] == ms[drop + k];
    }
    forall q | 0 <= q < |rest| && TokenAt(rest, q) ensures HasMentionAt(tail, at + n + q) {
      Shifted(s, n, q);
      assert HasMentionAt(ms, at + (n + q));
      var k :| 0 <= k < |ms| && ms[k].Mention? && ms[k].at == at + (n + q);
      assert tail[k - drop] == ms[k];
    }
  }

  lemma ReadsTail(m: Inline, s: Text, at: nat, n: nat)
    requires n <= |s| && Reads(m, s, at, 0, |s|) && at + n <= m.at
    ensures Reads(m, s[n..], at + n, 0, |s[n..]|)
  {
    hide TokenLen, IsToken;
    var a := m.at - at;
    assert s[n..][a - n..a - n + |m.token|] == s[a..a + |m.token|];
  }

  /** A text that a pass leaves alone: the mentions its parse shows are
      exactly the tokens the scan finds in it, each where it stands, live,
      and kept under its current name. */
  lemma FixpointIsExact(content: Text, current: Names)
    requires ValidNames(current)
    requires StoredForm(content, Positions(Shown(Nodes(content))), current) == content
    ensures Shown(Nodes(content)) == Live(Nodes(content)) == ScanMentions(content, 0)
    ensures AllKept(Positions(Shown(Nodes(content))), current, content, 0)
    ensures RenamedAll(current, ScanParts(content)) == ScanParts(content)
  {
    hide TokenLen, IsToken, Shown, Live, Parse, Accounted, ScanParts, RenamedAll, Rewrite;
    var nodes := Nodes(content);
    MessageSound(content);
    Settled(Positions(Shown(nodes)), current, content);
    forall q | 0 <= q < |content| && TokenAt(content, q) ensures q in Positions(Shown(nodes)) {
      assert Kept(Positions(Shown(nodes)), current, content, 0, q);
    }
    AllShownAllLive(content, nodes);
    forall q | 0 <= q < |content| && TokenAt(content, q) ensures HasMentionAt(Live(nodes), 0 + q) {
      assert LivePos(nodes, q);
    }
    InOrderIsScan(Live(nodes), content, 0);
  }
}
