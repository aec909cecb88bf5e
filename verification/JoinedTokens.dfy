/** Tokens that a pass of checkMentions joins into one, which the next pass
    writes as a token too: it only gives it its current name. */
module JoinedTokens {
  import opened Bytes
  import opened Tokens
  import opened Rewriting
  import opened Markdown
  import opened Offsets
  import opened Blocks
  import opened Mentions
  import opened CheckMentions

  function Token(id: Text, name: Text): Text {
    TokenText(Parts(Channel, id, name))
  }

  const SPLIT_AT: nat := 32

  /** A channel's token; then a '<' before a token whose name is the start of
      that channel's id, and after it what completes the id and a name. */
  function Split(id: Text, newName: Text, gone: Text, oldName: Text): Text
    requires |id| == ID_LENGTH
  {
    Token(id, newName) + ([LESS] + (Token(gone, id[..SPLIT_AT]) + Rest(id, oldName)))
  }

  function Rest(id: Text, oldName: Text): Text
    requires |id| == ID_LENGTH
  {
    id[SPLIT_AT..] + [COLON] + oldName + [GREATER]
  }

  predicate Fits(id: Text, newName: Text, gone: Text, oldName: Text) {
    ValidId(id) && ValidId(gone) && ValidName(Channel, newName) && ValidName(Channel, oldName)
  }

  lemma IdStartIsName(id: Text)
    requires ValidId(id)
    ensures ValidName(Channel, id[..SPLIT_AT])
  {
    var name := id[..SPLIT_AT];
    forall k | 0 <= k < |name| ensures IsNameChar(Channel, name[k]) {
      assert IsIdChar(k, id[k]);
    }
  }

  // ---- Rewriting ---------------------------------------------------------------

  lemma TokenIs(id: Text, name: Text)
    requires ValidId(id) && ValidName(Channel, name)
    ensures IsToken(Token(id, name)) && PartsOf(Token(id, name)) == Parts(Channel, id, name)
    ensures KeyOf(Token(id, name)) == Key(Channel, id)
  {
    hide TokenLen, PartsOf, ValidId, ValidName, TokenText;
    PartsRoundTrip(Parts(Channel, id, name));
  }

  /** A rewriting of a text that starts with a token. */
  lemma TokenFirst(writer: Writer, id: Text, name: Text, rest: Text, at: nat)
    requires ValidId(id) && ValidName(Channel, name)
    ensures var token := Token(id, name);
            && IsToken(token) && TokenLen(token + rest) == |token| > 0 && KeyOf(token) == Key(Channel, id)
            && (token + rest)[..|token|] == token && (token + rest)[|token|..] == rest
            && Rewrite(writer, token + rest, at) == writer.Write(at, token) + Rewrite(writer, rest, at + |token|)
  {
    hide TokenLen, PartsOf, ValidId, ValidName, Rewrite, Writer.Write;
    var token := Token(id, name);
    TokenIs(id, name);
    Accepts(Parts(Channel, id, name), rest);
    assert (token + rest)[..|token|] == token && (token + rest)[|token|..] == rest;
    Unfold(writer, token + rest, at);
  }

  lemma NoLess(writer: Writer, s: Text, at: nat)
    requires LESS !in s
    ensures Rewrite(writer, s, at) == s
  {
    hide TokenLen, Rewrite;
    forall q | 0 <= q < |s| ensures !TokenAt(s, q) {
      if TokenAt(s, q) {
        TokenHasLess(s, q);
      }
    }
    NoTokensUnchanged(writer, s, at);
  }

  lemma TokenHasLess(s: Text, q: nat)
    requires q < |s| && TokenAt(s, q)
    ensures LESS in s
  {
    hide TokenLen;
    OnlyLess(s[q..]);
    assert s[q] == s[q..][0];
  }

  lemma RestHasNoLess(id: Text, oldName: Text)
    requires ValidId(id) && ValidName(Channel, oldName)
    ensures LESS !in Rest(id, oldName) && NEWLINE !in Rest(id, oldName)
  {
    forall k | 0 <= k < |id| ensures id[k] != LESS && id[k] != NEWLINE {
      assert IsIdChar(k, id[k]);
    }
    forall k | 0 <= k < |oldName| ensures oldName[k] != LESS && oldName[k] != NEWLINE {
      assert IsNameChar(Channel, oldName[k]);
    }
  }

  /** The dead token written as text completes a token of the live one's
      channel. */
  lemma FirstPass(live: set<nat>, current: Names, id: Text, newName: Text, gone: Text, oldName: Text)
    requires Fits(id, newName, gone, oldName) && 0 in live
    requires Key(Channel, id) in current && current[Key(Channel, id)] == newName && Key(Channel, gone) !in current
    ensures StoredForm(Split(id, newName, gone, oldName), live, current) == Token(id, newName) + Token(id, oldName)
  {
    hide TokenLen, PartsOf, IsIdChar, ValidName, Rewrite, TokenText, Rest;
    var writer := Writer.Store(live, current);
    var first, dead, rest := Token(id, newName), Token(gone, id[..SPLIT_AT]), Rest(id, oldName);
    IdStartIsName(id);
    RestHasNoLess(id, oldName);
    TokenIs(id, newName);
    TokenIs(gone, id[..SPLIT_AT]);
    TokenFirst(writer, id, newName, [LESS] + (dead + rest), 0);
    LessFirst(writer, gone, id[..SPLIT_AT], rest, |first|);
    TokenFirst(writer, gone, id[..SPLIT_AT], rest, |first| + 1);
    NoLess(writer, rest, |first| + 1 + |dead|);
    Completes(id, oldName);
  }

  lemma LessFirst(writer: Writer, id: Text, name: Text, rest: Text, at: nat)
    requires ValidId(id) && ValidName(Channel, name)
    ensures var s := Token(id, name) + rest; Rewrite(writer, [LESS] + s, at) == [LESS] + Rewrite(writer, s, at + 1)
  {
    hide PartsOf, IsIdChar, ValidName, Rewrite, Writer.Write, BodyLen;
    var s := Token(id, name) + rest;
    KindShows(Parts(Channel, id, name));
    assert s[0] == LESS;
    assert ([LESS] + s)[1] == s[0] && ([LESS] + s)[1..] == s;
    Unfold(writer, [LESS] + s, at);
  }

  lemma Completes(id: Text, oldName: Text)
    requires |id| == ID_LENGTH
    ensures [LESS] + ([HASH] + id[..SPLIT_AT] + Rest(id, oldName)) == Token(id, oldName)
  {
    assert id[..SPLIT_AT] + id[SPLIT_AT..] == id;
  }

  // ---- What the parse shows ---------------------------------------------------------

  /** A line that starts with a '<' is a plain line, parsed from its start. */
  lemma OneLine(s: Text)
    requires |s| > 0 && s[0] == LESS && NEWLINE !in s
    ensures Nodes(s) == Inlines(s, 0)
  {
    hide Inlines, IndexFrom;
    assert IndexFrom(s, NEWLINE, 0) == |s|;
    assert FormOf(s) == Row(LinesBlock, 0) by {
      PlainLine(s);
    }
    assert s[0..] == s;
    var row := Inlines(s, 0);
    assert BlocksFrom([s], 0, []) == BlocksFrom([s], 1, AddRow([], LinesBlock, row));
    WalkAdded([], LinesBlock, row);
  }

  lemma PlainLine(s: Text)
    requires |s| > 0 && s[0] == LESS
    ensures FormOf(s) == Row(LinesBlock, 0)
  {
    TickFirst(s);
  }

  lemma TickFirst(s: Text)
    ensures HasAt(s, 0, TICKS) ==> s[0] == BACKTICK
  {
    if HasAt(s, 0, TICKS) {
      assert s[0] == s[0..3][0] == TICKS[0];
    }
  }

  /** Two tokens, one after the other, are both shown where they are. */
  lemma FirstShown(id: Text, name: Text, rest: Text)
    requires ValidId(id) && ValidName(Channel, name) && NEWLINE !in rest
    ensures var token := Token(id, name);
            && IsToken(token)
            && Shown(Nodes(token + rest)) == [Mention(token, 0)] + Shown(InlinesFrom(token + rest, 0, |token|, []))
  {
    hide TokenLen, PartsOf, ValidId, ValidName, Inlines, InlinesFrom, Rewrite, Shown, Nodes, TokenText;
    var token := Token(id, name);
    TokenFirst(AsText, id, name, rest, 0);
    TokenShape(token);
    OneLine(token + rest);
    NodeFirst(token + rest, 0);
    assert (token + rest)[0..|token|] == token;
    ShownFirst(Mention(token, 0), InlinesFrom(token + rest, 0, |token|, []));
  }

  lemma ShownFirst(m: Inline, nodes: seq<Inline>)
    requires m.Mention?
    ensures Shown([m] + nodes) == [m] + Shown(nodes)
  {
    assert ([m] + nodes)[1..] == nodes;
  }

  lemma NodeFirst(s: Text, i: nat)
    requires i < |s| && s[i] == LESS && TokenLen(s[i..]) > 0
    ensures InlinesFrom(s, 0, i, [])
            == [Mention(s[i..i + TokenLen(s[i..])], i)] + InlinesFrom(s, 0, i + TokenLen(s[i..]), [])
    ensures i == 0 ==> Inlines(s, 0) == InlinesFrom(s, 0, 0, []) && s[0..] == s
  {
    hide TokenLen;
    assert StepAt(s, 0, i) == Emit(Mention(s[i..i + TokenLen(s[i..])], i), i + TokenLen(s[i..]));
    assert Flush([]) == [];
  }

  lemma BothShown(id: Text, newName: Text, oldName: Text)
    requires ValidId(id) && ValidName(Channel, newName) && ValidName(Channel, oldName)
    ensures var s := Token(id, newName) + Token(id, oldName);
            Shown(Nodes(s)) == [Mention(Token(id, newName), 0), Mention(Token(id, oldName), |Token(id, newName)|)]
  {
    hide TokenLen, PartsOf, ValidId, ValidName, InlinesFrom, Rewrite, Nodes;
    var first, second := Token(id, newName), Token(id, oldName);
    var s, n := first + second, |first|;
    TokenIs(id, oldName);
    TokenShape(second);
    FirstShown(id, newName, second);
    assert s[n..] == second && s[n..n + |second|] == second;
    NodeFirst(s, n);
    assert InlinesFrom(s, 0, n + |second|, []) == [] by {
      NodeLast(s);
    }
    var node := Mention(second, n);
    assert [node] + [] == [node];
    ShownFirst(node, []);
  }

  lemma NodeLast(s: Text)
    ensures InlinesFrom(s, 0, |s|, []) == []
  {
  }

  // ---- The two passes ------------------------------------------------------------------

  lemma KeyShown(ms: seq<Inline>, m: Inline)
    requires m in ms && m.Mention? && IsToken(m.token)
    ensures KeyOf(m.token) in KeysOf(ms) && m.at in Positions(ms)
  {
    hide TokenLen, PartsOf;
  }

  lemma SplitOneLine(id: Text, newName: Text, gone: Text, oldName: Text)
    requires Fits(id, newName, gone, oldName)
    ensures NEWLINE !in [LESS] + (Token(gone, id[..SPLIT_AT]) + Rest(id, oldName))
  {
    hide TokenLen, PartsOf, IsIdChar, ValidName, TokenText, Rest;
    IdStartIsName(id);
    TokenIs(gone, id[..SPLIT_AT]);
    TokenShape(Token(gone, id[..SPLIT_AT]));
    RestHasNoLess(id, oldName);
  }

  /** For every such text, where the first token's channel may be named and is
      named so, the second's may not, and the name after it is not the
      channel's: the first pass joins a token, and the second pass writes
      nothing as text, changes the text all the same, and only by a name. */
  lemma SecondPassRenames(dir: Directory, id: Text, gone: Text, oldName: Text)
    requires dir.Authorised(Key(Channel, id)) && !dir.Authorised(Key(Channel, gone))
    requires Fits(id, dir.channels[id], gone, oldName) && oldName != dir.channels[id]
    ensures var newName := dir.channels[id];
            var content := Split(id, newName, gone, oldName);
            var current := Lookup(dir, KeysOf(Shown(Nodes(content))));
            var joined := Token(id, newName) + Token(id, oldName);
            && Pass(current, content) == joined != content
            && AllKept(Positions(Shown(Nodes(joined))), current, joined, 0)
            && Pass(current, joined) == Token(id, newName) + Token(id, newName) != joined
  {
    hide TokenLen, PartsOf, IsIdChar, ValidName, Shown, Nodes, Rewrite, TokenText, Rest, AllKept, InlinesFrom;
    var newName := dir.channels[id];
    var first, second, content := Token(id, newName), Token(id, oldName), Split(id, newName, gone, oldName);
    var shown := Shown(Nodes(content));
    SplitOneLine(id, newName, gone, oldName);
    TokenIs(id, newName);
    FirstShown(id, newName, [LESS] + (Token(gone, id[..SPLIT_AT]) + Rest(id, oldName)));
    assert shown[0] == Mention(first, 0);
    KeyShown(shown, Mention(first, 0));
    var current := Lookup(dir, KeysOf(shown));
    FirstPass(Positions(shown), current, id, newName, gone, oldName);
    JoinedDiffers(id, newName, gone, oldName);
    SecondPass(current, id, newName, oldName);
  }

  lemma JoinedDiffers(id: Text, newName: Text, gone: Text, oldName: Text)
    requires Fits(id, newName, gone, oldName)
    ensures Token(id, newName) + Token(id, oldName) != Split(id, newName, gone, oldName)
  {
    Layout(Parts(Channel, id, oldName), []);
    assert |Token(gone, id[..SPLIT_AT])| > |Token(id, oldName)| - |Rest(id, oldName)| - 1;
    assert |Token(id, newName) + Token(id, oldName)| < |Split(id, newName, gone, oldName)|;
  }

  lemma SecondPass(current: Names, id: Text, newName: Text, oldName: Text)
    requires ValidId(id) && ValidName(Channel, newName) && ValidName(Channel, oldName) && oldName != newName
    requires Key(Channel, id) in current && current[Key(Channel, id)] == newName
    ensures var joined := Token(id, newName) + Token(id, oldName);
            && AllKept(Positions(Shown(Nodes(joined))), current, joined, 0)
            && Pass(current, joined) == Token(id, newName) + Token(id, newName) != joined
  {
    hide TokenLen, PartsOf, IsIdChar, ValidName, Shown, Nodes, Rewrite, TokenText, AllKept;
    var first, second := Token(id, newName), Token(id, oldName);
    var joined := first + second;
    BothShown(id, newName, oldName);
    var shown := Shown(Nodes(joined));
    var live := Positions(shown);
    TokenIs(id, newName);
    TokenIs(id, oldName);
    assert shown[0] == Mention(first, 0) && shown[1] == Mention(second, |first|);
    KeyShown(shown, shown[0]);
    KeyShown(shown, shown[1]);
    var writer := Writer.Store(live, current);
    TokenFirst(writer, id, newName, second, 0);
    TokenFirst(writer, id, oldName, [], |first|);
    assert second + [] == second;
    NoLess(writer, [], |first| + |second|);
    if first == second {
      TokenTextInjective(Parts(Channel, id, newName), Parts(Channel, id, oldName));
    }
    assert joined[|first|..] == second && (first + first)[|first|..] == first;
    KeptTwice(live, current, id, newName, oldName);
  }

  lemma KeptTwice(live: set<nat>, current: Names, id: Text, newName: Text, oldName: Text)
    requires ValidId(id) && ValidName(Channel, newName) && ValidName(Channel, oldName)
    requires Key(Channel, id) in current && 0 in live && |Token(id, newName)| in live
    ensures AllKept(live, current, Token(id, newName) + Token(id, oldName), 0)
  {
    hide TokenLen, PartsOf, ValidId, ValidName, Rewrite, TokenText;
    var first, second := Token(id, newName), Token(id, oldName);
    var joined, n := first + second, |first|;
    TokenFirst(AsText, id, newName, second, 0);
    TokenFirst(AsText, id, oldName, [], n);
    assert second + [] == second;
    forall q | 0 <= q < |joined| ensures Kept(live, current, joined, 0, q) {
      KeptAt(live, current, joined, n, q);
    }
  }

  lemma KeptAt(live: set<nat>, current: Names, s: Text, n: nat, q: nat)
    requires 0 < n < |s| && q < |s| && TokenLen(s) == n && IsToken(s[..n]) && KeyOf(s[..n]) in current && 0 in live
    requires TokenLen(s[n..]) == |s| - n && IsToken(s[n..]) && KeyOf(s[n..]) in current && n in live
    ensures Kept(live, current, s, 0, q)
  {
    hide TokenLen, PartsOf;
    if TokenAt(s, q) {
      assert s[0..] == s;
      LessWhere(s, n);
      OnlyLess(s[q..]);
      assert q == 0 || q == n;
      assert s[n..][..|s| - n] == s[n..];
    }
  }

  lemma LessWhere(s: Text, n: nat)
    requires 0 < n < |s| && TokenLen(s) == n && TokenLen(s[n..]) == |s| - n
    ensures forall q :: 0 < q < |s| && s[q] == LESS ==> q == n
  {
    hide TokenLen;
    OnlyLess(s);
    OnlyLess(s[n..]);
    forall q | n < q < |s| ensures s[q] != LESS {
      assert s[q] == s[n..][q - n];
    }
  }

  // ---- One of them -----------------------------------------------------------------------

  const ONE: byte := 49

  function Ones(b: byte): (id: Text)
    requires IsHex(b)
    ensures ValidId(id)
  {
    seq(ID_LENGTH, k requires 0 <= k < ID_LENGTH => if k == 8 || k == 13 || k == 18 || k == 23 then DASH else b)
  }

  const NEW: Text := [110, 101, 119]
  const OLD: Text := [111, 108, 100]

  lemma RenameOnlyPass() returns (dir: Directory, content: Text, joined: Text)
    ensures dir.Valid()
    ensures var current := Lookup(dir, KeysOf(Shown(Nodes(content))));
            && Pass(current, content) == joined != content
            && AllKept(Positions(Shown(Nodes(joined))), current, joined, 0)
            && Pass(current, joined) != joined
  {
    hide TokenLen, PartsOf, Shown, Nodes, Rewrite, TokenText, AllKept, Pass;
    var id, gone := Ones(ONE), Ones(ZERO);
    assert id[0] != gone[0];
    dir := Directory([], map[], map[], map[id := NEW], true);
    content, joined := Split(id, NEW, gone, OLD), Token(id, NEW) + Token(id, OLD);
    SecondPassRenames(dir, id, gone, OLD);
  }
}
