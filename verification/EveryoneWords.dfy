/** Where @channel and @here are words of a message: in everything that can
    stand around them but code, and in a line without markup as the line's own
    text says. */
module EveryoneWords {
  import opened Bytes
  import opened Tokens
  import opened Rewriting
  import opened Markdown
  import opened Offsets
  import opened Blocks
  import opened Mentions
  import opened Words
  import opened CheckMentions
  import opened Contexts
  import opened Places
  import opened StoredTokens
  import opened Fences

  /** "@" and the word, in any case. */
  ghost predicate IsTyped(typed: Text, word: Text) {
    (word == CHANNEL_WORD || word == HERE_WORD) && HintAt(typed, 0, word) && |typed| == 1 + |word|
  }

  lemma LetterCases(b: byte)
    requires IsLower(ToLower(b))
    ensures IsPlainByte(b) && IsInnerByte(b) && 33 <= b < 127 && b != UNDERSCORE && b != COLON && b != LESS
  {
  }

  lemma TypedLetters(typed: Text, word: Text)
    requires IsTyped(typed, word)
    ensures typed[0] == AT && |typed| > 4 && forall k :: 1 <= k < |typed| ==> IsLower(ToLower(typed[k]))
  {
    forall k | 1 <= k < |typed| ensures IsLower(ToLower(typed[k])) {
      assert ToLower(typed[1 + (k - 1)]) == word[k - 1];
    }
  }

  lemma TypedIsInner(typed: Text, word: Text)
    requires IsTyped(typed, word)
    ensures IsInner(typed) && NoMarkup(typed) && LESS !in typed && !HoldsPair(typed)
  {
    hide HasAt, IsLower, ToLower, IsTyped;
    TypedLetters(typed, word);
    forall k | 0 <= k < |typed| ensures IsPlainByte(typed[k]) && IsInnerByte(typed[k]) && typed[k] != LESS
      && typed[k] != UNDERSCORE && 33 <= typed[k] < 127 && !HasAt(typed, k, ADDRESS) {
      if k > 0 {
        LetterCases(typed[k]);
      }
      AddressAt(typed, k);
    }
    forall m: nat ensures !HasAt(typed, m, PAIR) {
      if HasAt(typed, m, PAIR) {
        InBounds(typed, PAIR, m);
        FirstIs(typed, m, PAIR);
      }
    }
  }

  // ---- Words among nodes ------------------------------------------------------------

  lemma {:induction false} UsesSplit(a: seq<Inline>, b: seq<Inline>, word: Text)
    ensures NodesUse(a + b, word) <==> NodesUse(a, word) || NodesUse(b, word)
  {
    hide NodeUses;
    if |a| == 0 {
      assert a + b == b;
    } else {
      assert (a + b)[0] == a[0] && (a + b)[1..] == a[1..] + b;
      UsesSplit(a[1..], b, word);
    }
  }

  lemma OneUses(node: Inline, word: Text)
    ensures NodesUse([node], word) <==> NodeUses(node, word)
  {
    assert NodesUse([node][1..], word) == false;
  }

  lemma FlushUses(text: Text, word: Text)
    ensures NodesUse(Flush(text), word) <==> Uses(text, word)
  {
    if |text| > 0 {
      OneUses(Plain(text), word);
    }
  }

  lemma NoAtNoUse(text: Text, word: Text)
    requires AT !in text
    ensures !Uses(text, word)
  {
  }

  lemma PlainAll(s: Text, base: nat)
    requires NoMarkup(s)
    ensures Inlines(s, base) == Flush(s)
  {
    hide StepAt, NoMarkup;
    assert s[0..|s|] == s && [] + s[0..|s|] == s;
    PlainRun(s, base, 0, |s|, 0, []);
    assert Inlines(s, base) == InlinesFrom(s, base, 0, []);
  }

  lemma TypedUses(typed: Text, word: Text)
    requires IsTyped(typed, word)
    ensures Uses(typed, word)
  {
    assert HintAt(typed, 0, word) && OpenBefore(typed, 0);
  }

  lemma TypedHeld(c: Context, typed: Text, word: Text)
    requires IsTyped(typed, word) && c.Valid()
    ensures TokensAsText(typed) == typed && Holds(c, typed)
  {
    hide Inlines, HoldsLink, IsTyped, IsAddress, IsInner, HoldsPair, TokenLen, Rewrite, NoMarkup;
    TypedIsInner(typed, word);
    NoLessNoToken(typed);
    NoTokensUnchanged(AsText, typed, 0);
    PlainAll(typed, 0);
    TextHoldsNoLink(typed);
  }

  lemma NodeInUses(c: Context, typed: Text, word: Text, at: nat)
    requires IsTyped(typed, word) && c.Valid() && c.IsNode()
    ensures NodeUses(NodeIn(c, typed, at), word) <==> !c.InCode?
  {
    hide Inlines, Rewrite, Uses, IsTyped, Holds, Context.Valid, NoMarkup;
    TypedHeld(c, typed, word);
    TypedIsInner(typed, word);
    PlainAll(typed, 0);
    PlainAll(typed, at);
    FlushUses(typed, word);
    TypedUses(typed, word);
    OneUses(Styled(Inlines(typed, at), false), word);
  }

  /** Between two stretches of text without markup and without "@": a word for
      everyone counts in every style, in a spoiler and in a link's words, and
      not in code; and the message is stored as it is. */
  lemma WhereWordsCount(dir: Directory, c: Context, a: Text, typed: Text, b: Text, word: Text, stored: Text)
    requires IsTyped(typed, word) && c.Valid() && c.IsNode()
    requires NoMarkup(a) && NoMarkup(b) && AT !in a && AT !in b
    requires IsStored(dir, Placed(c, a, typed, b), stored)
    ensures stored == Placed(c, a, typed, b)
    ensures NodesUse(Nodes(stored), word) <==> !c.InCode?
  {
    hide *;
    var s := Placed(c, a, typed, b);
    TypedIsInner(typed, word);
    TypedHeld(c, typed, word);
    HoldsInner(c, typed);
    OutsideHasNoLess(c, a, b);
    PlacedSplits(c, a, typed, b);
    StoredAsIs(dir, s, stored);
    var from := PlacedRow(c, a, typed, b);
    PlacedFrom(c, a, typed, b, from);
    assert AT !in a[from..];
    LineParses(c, a[from..], typed, b, from);
    var node := NodeIn(c, typed, from + |a[from..]| + |c.Opening()|);
    NodeInUses(c, typed, word, from + |a[from..]| + |c.Opening()|);
    AroundUses(a[from..], node, b, word);
  }

  lemma AroundUses(a: Text, node: Inline, b: Text, word: Text)
    requires AT !in a && AT !in b
    ensures NodesUse(Flush(a) + [node] + Flush(b), word) <==> NodeUses(node, word)
  {
    hide NodesUse, NodeUses, Uses, Flush;
    UsesSplit(Flush(a) + [node], Flush(b), word);
    UsesSplit(Flush(a), [node], word);
    OneUses(node, word);
    FlushUses(a, word);
    FlushUses(b, word);
    NoAtNoUse(a, word);
    NoAtNoUse(b, word);
  }

  lemma StoredAsIs(dir: Directory, s: Text, stored: Text)
    requires LESS !in s && IsStored(dir, s, stored)
    ensures stored == s
  {
    hide Pass, Lookup, KeysOf, Shown, Nodes;
    NoneScanned(s);
    StoredIs(dir, s, stored, 0);
  }

  // ---- A line without markup -----------------------------------------------------------

  lemma {:induction false} RunsAre(s: Text, i: nat)
    requires i <= |s|
    ensures forall k :: i <= k < SpacesEnd(s, i) ==> s[k] == SPACE
    ensures forall k :: i <= k < DigitsEnd(s, i) ==> IsDigit(s[k])
    decreases |s| - i
  {
    if i < |s| {
      RunsAre(s, i + 1);
    }
  }

  /** What a row's words do not hold of its line: no "@", and nothing that a
      word would run on from. */
  ghost predicate IsLead(s: Text, from: nat)
    requires from <= |s|
  {
    && (forall k :: 0 <= k < from ==> s[k] != AT)
    && (from > 0 ==> IsBlank(s[from - 1]) || s[from - 1] == GREATER)
  }

  lemma ItemLead(line: Text)
    ensures IsLead(line, ItemAt(line))
  {
    hide SkipBlank, SpacesEnd, DigitsEnd;
    var spaces := SpacesEnd(line, 0);
    var marker := MarkerEnd(line, spaces);
    RunsAre(line, 0);
    RunsAre(line, spaces);
    SkippedAreBlank(line, marker);
  }

  lemma RowLead(line: Text)
    requires FormOf(line).Row?
    ensures IsLead(line, FormOf(line).from)
  {
    hide ItemAt, OneLineCode, IsFenceOpen;
    ItemLead(line);
  }

  predicate UsedAt(s: Text, p: nat, word: Text) {
    && HintAt(s, p, word) && OpenBefore(s, p)
    && (p + 1 + |word| == |s| || !IsWordByte(s[p + 1 + |word|]))
  }

  lemma UsesIs(s: Text, word: Text)
    ensures Uses(s, word) <==> exists p :: 0 <= p < |s| && UsedAt(s, p, word)
  {
    hide OpenBefore, IsWordByte;
    if Uses(s, word) {
      var p :| 0 <= p < |s| && HintAt(s, p, word) && OpenBefore(s, p)
               && (p + 1 + |word| == |s| || !IsWordByte(s[p + 1 + |word|]));
      assert UsedAt(s, p, word);
    }
  }

  lemma UsedShift(s: Text, from: nat, p: nat, word: Text)
    requires from + p < |s| && IsLead(s, from)
    ensures UsedAt(s[from..], p, word) <==> UsedAt(s, from + p, word)
  {
    hide OpenBefore, IsWordByte;
    HintShift(s, from, p, word);
    OpenShift(s, from, p);
  }

  lemma LeadUses(s: Text, from: nat, word: Text)
    requires from <= |s| && IsLead(s, from)
    ensures Uses(s[from..], word) <==> Uses(s, word)
  {
    hide UsedAt, Uses;
    UsesIs(s, word);
    UsesIs(s[from..], word);
    forall p: nat | p < |s[from..]| ensures UsedAt(s[from..], p, word) <==> UsedAt(s, from + p, word) {
      UsedShift(s, from, p, word);
    }
    if Uses(s, word) {
      var p: nat :| p < |s| && UsedAt(s, p, word);
      NotInLead(s, p, word);
      assert UsedAt(s[from..], p - from, word);
    }
    if Uses(s[from..], word) {
      var p: nat :| p < |s[from..]| && UsedAt(s[from..], p, word);
      assert UsedAt(s, from + p, word);
    }
  }

  lemma NotInLead(s: Text, p: nat, word: Text)
    requires UsedAt(s, p, word)
    ensures p < |s| && s[p] == AT
  {
  }

  lemma HintShift(s: Text, from: nat, p: nat, word: Text)
    requires from + p < |s|
    ensures HintAt(s[from..], p, word) <==> HintAt(s, from + p, word)
    ensures HintAt(s, from + p, word) ==> from + p + 1 + |word| <= |s|
  {
    var rest := s[from..];
    if WordAt(s, from + p + 1, word) {
      forall k | 0 <= k < |word| ensures ToLower(rest[p + 1 + k]) == word[k] {
        assert s[from + p + 1 + k] == rest[p + 1 + k];
      }
    }
    if WordAt(rest, p + 1, word) {
      forall k | 0 <= k < |word| ensures ToLower(s[from + p + 1 + k]) == word[k] {
        assert s[from + p + 1 + k] == rest[p + 1 + k];
      }
    }
  }

  lemma OpenShift(s: Text, from: nat, p: nat)
    requires from + p <= |s| && IsLead(s, from)
    ensures OpenBefore(s[from..], p) <==> OpenBefore(s, from + p)
  {
  }

  lemma PlainIsRow(s: Text)
    requires NoMarkup(s)
    ensures FormOf(s).Row? && NEWLINE !in s
  {
    hide SkipBlank, TrimmedLen, ItemAt, HasAt;
    var at := SkipBlank(s, 0);
    if HasAt(s, at, TICKS) {
      FirstIs(s, at, TICKS);
      InBounds(s, TICKS, at);
    }
  }

  /** A line without markup, a quote or list item or none, uses a word exactly
      when its text does, and is stored as it is. */
  lemma PlainLineUses(dir: Directory, s: Text, word: Text, stored: Text)
    requires NoMarkup(s) && IsStored(dir, s, stored)
    ensures stored == s
    ensures NodesUse(Nodes(stored), word) <==> Uses(s, word)
  {
    hide *;
    PlainHoldsNoLine(s);
    StoredAsIs(dir, s, stored);
    PlainIsRow(s);
    var form := FormOf(s);
    RowLead(s);
    OneRow(s, form.kind, form.from);
    NoMarkupFrom(s, form.from);
    PlainAll(s[form.from..], form.from);
    FlushUses(s[form.from..], word);
    LeadUses(s, form.from, word);
  }

  // ---- An address ---------------------------------------------------------------------

  /** A bare address that ends in no punctuation. */
  predicate IsBareAddress(url: Text) {
    && 0 < SchemeLen(url) < |url| && !IsTrailingPunct(url[|url| - 1])
    && forall k :: SchemeLen(url) <= k < |url| ==> !IsBlank(url[k]) && url[k] != LESS && url[k] != GREATER
  }

  lemma {:induction false} RunEnds(s: Text, from: nat, end: nat)
    requires from <= end <= |s| && (end < |s| ==> IsBlank(s[end]))
    requires forall k :: from <= k < end ==> !IsBlank(s[k]) && s[k] != LESS && s[k] != GREATER
    ensures UrlRun(s, from) == end
    decreases end - from
  {
    if from < end {
      RunEnds(s, from + 1, end);
    }
  }

  lemma SchemeOnly(url: Text, rest: Text)
    requires SchemeLen(url) > 0
    ensures SchemeLen(url + rest) == SchemeLen(url)
  {
    var n := SchemeLen(url) - 3;
    var s := url + rest;
    SchemeHasAddress(url);
    AddressAt(url, n);
    AddressAt(s, n);
    assert forall k :: 0 <= k < |url| ==> s[k] == url[k];
    assert |s| >= 6 && |url| >= 6 ==> s[4..6] == url[4..6];
  }

  lemma AddressLen(url: Text, rest: Text)
    requires IsBareAddress(url) && (|rest| > 0 ==> IsBlank(rest[0]))
    ensures UrlLen(url + rest) == |url|
  {
    hide SchemeLen, UrlRun;
    SchemeOnly(url, rest);
    var s := url + rest;
    forall k | SchemeLen(url) <= k < |url| ensures !IsBlank(s[k]) && s[k] != LESS && s[k] != GREATER {
      assert s[k] == url[k];
    }
    RunEnds(s, SchemeLen(url), |url|);
  }

  lemma WholeAddress(url: Text)
    requires |url| > 0 && ToLower(url[0]) == 104 && !IsTrailingPunct(url[|url| - 1])
    ensures TrimUrlLen(url) == |url|
  {
    assert PunctStart(url, |url|) == |url|;
  }

  lemma AddressStep(source: Text, base: nat, i: nat, url: Text, rest: Text)
    requires i < |source| && source[i..] == url + rest && IsBareAddress(url) && (|rest| > 0 ==> IsBlank(rest[0]))
    ensures i + |url| <= |source| && StepAt(source, base, i) == Emit(Link(url, []), i + |url|)
    ensures source[i + |url|..] == rest
  {
    hide TokenLen, Labelled, UrlLen, TrimUrlLen, Rewrite, Inlines, Delimited, BothStyles, UrlRun, IsTrailingPunct;
    AddressLen(url, rest);
    assert source[i] == (url + rest)[0] == url[0];
    assert source[i..i + |url|] == url;
    WholeAddress(url);
    assert url[..|url|] == url;
    assert source[i + |url|..] == source[i..][|url|..];
  }

  /** Text without markup that ends in a blank, before anything. */
  lemma BeforeAddress(s: Text, base: nat, a: Text, rest: Text)
    requires s == a + rest && NoMarkup(a) && (|a| > 0 ==> IsBlank(a[|a| - 1]))
    ensures Inlines(s, base) == InlinesFrom(s, base, |a|, a)
  {
    hide InlinesFrom, NoMarkup, UrlLen, StepAt;
    if |a| > 0 {
      var last := |a| - 1;
      assert s[..last] == a[..last] && s[last] == a[last];
      NoMarkupTo(a, last);
      BeforeNode(s, base, last);
      BlankStep(s, base, last);
      assert a[..last] + [a[last]] == a;
      KeepStep(s, base, last, a[..last]);
    }
  }

  lemma NoMarkupTo(a: Text, to: nat)
    requires NoMarkup(a) && to < |a|
    ensures NoMarkup(a[..to]) && IsPlainByte(a[to])
  {
    hide HasAt, IsPlainByte;
    forall k | 0 <= k < to ensures !HasAt(a[..to], k, ADDRESS) && a[..to][k] == a[k] {
      AddressAt(a[..to], k);
      AddressAt(a, k);
    }
  }

  lemma BlankStep(s: Text, base: nat, i: nat)
    requires i < |s| && IsBlank(s[i]) && IsPlainByte(s[i])
    ensures StepAt(s, base, i) == Keep(s[i], i + 1)
  {
    hide StepAt, UrlRun, SchemeLen;
    PlainStep(s, base, i);
  }

  lemma KeepStep(s: Text, base: nat, i: nat, text: Text)
    requires i < |s| && StepAt(s, base, i).Keep?
    ensures var step := StepAt(s, base, i); InlinesFrom(s, base, i, text) == InlinesFrom(s, base, step.next, text + [step.b])
  {
    hide StepAt;
  }

  lemma AddressParts(a: Text, url: Text, b: Text)
    ensures var s, next := a + url + b, |a| + |url|;
            && s == a + (url + b) && s[|a|..] == url + b && next <= |s| && s[next..|s|] == b
  {
  }

  lemma AddressLine(a: Text, url: Text, b: Text, base: nat)
    requires IsBareAddress(url) && NoMarkup(a) && NoMarkup(b)
    requires (|a| > 0 ==> IsBlank(a[|a| - 1])) && (|b| > 0 ==> IsBlank(b[0]))
    ensures Inlines(a + url + b, base) == Flush(a) + [Link(url, [])] + Flush(b)
  {
    hide *;
    var s := a + url + b;
    var i, next := |a|, |a| + |url|;
    NotEmpty(url);
    AddressParts(a, url, b);
    BeforeAddress(s, base, a, url + b);
    AddressStep(s, base, i, url, b);
    EmitStep(s, base, i, a);
    assert [] + b == b;
    PlainRun(s, base, next, |s|, next, []);
    EndOfLine(s, base, b);
  }

  lemma NotEmpty(url: Text)
    requires IsBareAddress(url)
    ensures |url| > 0
  {
  }

  lemma AddressStartsRow(url: Text, b: Text)
    requires IsBareAddress(url)
    ensures StartsRow(url + b) && NEWLINE !in url && LESS !in url
  {
    SchemeHasAddress(url);
    TicksFirst(url + b);
    forall k | 0 <= k < |url| ensures url[k] != NEWLINE && url[k] != LESS {
      if k < SchemeLen(url) {
        SchemeBytes(url, k);
      }
    }
  }

  lemma NoLinkWords(url: Text, word: Text)
    ensures !NodeUses(Link(url, []), word)
  {
  }

  /** An address between blanks holds no word, whatever is in it, and nothing
      in it is markup. */
  lemma AddressHoldsNoWord(dir: Directory, a: Text, url: Text, b: Text, word: Text, stored: Text)
    requires IsBareAddress(url) && NoMarkup(a) && NoMarkup(b) && AT !in a && AT !in b
    requires (|a| > 0 ==> IsBlank(a[|a| - 1])) && (|b| > 0 ==> IsBlank(b[0]))
    requires IsStored(dir, a + url + b, stored)
    ensures stored == a + url + b && !NodesUse(Nodes(stored), word)
  {
    hide *;
    var s := a + url + b;
    PlainHoldsNoLine(a);
    PlainHoldsNoLine(b);
    AddressStartsRow(url, b);
    StoredAsIs(dir, s, stored);
    assert s == a + (url + b);
    RowStarts(a, url + b);
    var form := FormOf(s);
    OneRow(s, form.kind, form.from);
    NoMarkupFrom(a, form.from);
    var rest := a[form.from..];
    assert s[form.from..] == rest + url + b;
    AddressLine(rest, url, b, form.from);
    NoLinkWords(url, word);
    AroundUses(rest, Link(url, []), b, word);
  }
}
