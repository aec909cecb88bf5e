/** The scan over a message's tokens, and the three ways it rewrites them:
    as text (tokensAsText), as saved (storedForm), and under their current
    names for a preview (mentionNames.current). */
module Rewriting {
  import opened Bytes
  import opened Tokens

  datatype Key = Key(kind: Kind, id: Text)

  type Names = map<Key, Text>

  /** Every name can be written in a token of its kind. */
  ghost predicate ValidNames(names: Names) {
    forall key :: key in names ==> ValidName(key.kind, names[key])
  }

  function KeyOf(token: Text): Key
    requires IsToken(token)
  {
    Key(PartsOf(token).kind, PartsOf(token).id)
  }

  /** What a pass writes in place of the token found at `at`. */
  datatype Writer = AsText | Store(live: set<nat>, current: Names) | Rename(names: Names) {
    function Write(at: nat, token: Text): Text
      requires IsToken(token)
    {
      var parts := PartsOf(token);
      match this
      case AsText => PlainText(parts)
      case Store(live, current) =>
        if KeyOf(token) in current && at in live then TokenText(parts.(name := current[KeyOf(token)]))
        else PlainText(parts)
      case Rename(names) =>
        TokenText(parts.(name := if KeyOf(token) in names then names[KeyOf(token)] else parts.name))
    }
  }

  /** s, found at offset `at`, with every token replaced. */
  function Rewrite(writer: Writer, s: Text, at: nat): Text {
    if |s| == 0 then []
    else if TokenLen(s) > 0 then
      Leading(s);
      writer.Write(at, s[..TokenLen(s)]) + Rewrite(writer, s[TokenLen(s)..], at + TokenLen(s))
    else [s[0]] + Rewrite(writer, s[1..], at + 1)
  }

  function TokensAsText(s: Text): Text {
    Rewrite(AsText, s, 0)
  }

  function StoredForm(content: Text, live: set<nat>, current: Names): Text {
    Rewrite(Store(live, current), content, 0)
  }

  // ---- The scan ----------------------------------------------------------

  datatype Span = Span(start: nat, end: nat)

  /** Where each token of s, found at offset `at`, starts and ends. */
  function Spans(s: Text, at: nat): seq<Span> {
    if |s| == 0 then []
    else if TokenLen(s) > 0 then [Span(at, at + TokenLen(s))] + Spans(s[TokenLen(s)..], at + TokenLen(s))
    else Spans(s[1..], at + 1)
  }

  lemma OnlyLess(s: Text)
    requires TokenLen(s) > 0
    ensures s[0] == LESS && forall k :: 1 <= k < TokenLen(s) ==> s[k] != LESS
  {
    hide TokenLen;
    Leading(s);
    TokenShape(s[..TokenLen(s)]);
    forall k | 0 <= k < TokenLen(s) ensures s[k] == s[..TokenLen(s)][k] {
    }
  }

  /** The scan visits every position where a token begins: no token hides
      inside another. */
  lemma {:induction false} SpanFound(s: Text, at: nat, q: nat)
    requires q < |s| && TokenLen(s[q..]) > 0
    ensures Span(at + q, at + q + TokenLen(s[q..])) in Spans(s, at)
  {
    hide TokenLen;
    if q == 0 {
      assert s[0..] == s;
    } else {
      var step := if TokenLen(s) > 0 then TokenLen(s) else 1;
      OnlyLess(s[q..]);
      if TokenLen(s) > 0 {
        OnlyLess(s);
        assert s[q..][0] == s[q];
        assert q >= step;
      }
      assert s[step..][q - step..] == s[q..];
      SpanFound(s[step..], at + step, q - step);
    }
  }

  /** And only those. */
  lemma {:induction false} SpanHolds(s: Text, at: nat, span: Span)
    requires span in Spans(s, at)
    ensures at <= span.start < at + |s| && TokenLen(s[span.start - at..]) == span.end - span.start > 0
  {
    hide TokenLen;
    var step := if TokenLen(s) > 0 then TokenLen(s) else 1;
    if TokenLen(s) > 0 && span == Span(at, at + step) {
      assert s[0..] == s;
    } else {
      SpanHolds(s[step..], at + step, span);
      assert s[step..][span.start - at - step..] == s[span.start - at..];
    }
  }

  lemma UnfoldSpans(s: Text, at: nat)
    ensures |s| == 0 ==> Spans(s, at) == []
    ensures TokenLen(s) > 0 ==>
      Spans(s, at) == [Span(at, at + TokenLen(s))] + Spans(s[TokenLen(s)..], at + TokenLen(s))
    ensures |s| > 0 && TokenLen(s) == 0 ==> Spans(s, at) == Spans(s[1..], at + 1)
  {
    hide TokenLen;
  }

  /** Up to the first token, a rewriting copies. */
  lemma {:induction false} SkipPlain(writer: Writer, s: Text, at: nat, k: nat)
    requires k <= |s| && forall q :: 0 <= q < k ==> !TokenAt(s, q)
    ensures Rewrite(writer, s, at) == s[..k] + Rewrite(writer, s[k..], at + k)
    ensures Spans(s, at) == Spans(s[k..], at + k)
  {
    hide TokenLen, TokenAt, Rewrite, Spans, Writer.Write;
    if k == 0 {
      assert s[..0] + Rewrite(writer, s, at) == Rewrite(writer, s, at);
      assert s[0..] == s;
    } else {
      AtStart(s);
      Unfold(writer, s, at);
      UnfoldSpans(s, at);
      assert !TokenAt(s, 0);
      forall q | 0 <= q < k - 1 ensures !TokenAt(s[1..], q) {
        Shifted(s, 1, q);
      }
      SkipPlain(writer, s[1..], at + 1, k - 1);
      Shifted(s, 1, k - 1);
      assert s[..k] == [s[0]] + s[1..][..k - 1];
      Front(s[0], s[1..][..k - 1], Rewrite(writer, s[k..], at + k));
    }
  }

  lemma Front(b: byte, x: Text, y: Text)
    ensures [b] + (x + y) == ([b] + x) + y
  {
  }

  lemma NoTokensUnchanged(writer: Writer, s: Text, at: nat)
    requires forall q :: 0 <= q < |s| ==> !TokenAt(s, q)
    ensures Rewrite(writer, s, at) == s
  {
    hide TokenLen;
    SkipPlain(writer, s, at, |s|);
    assert s[..|s|] == s && s[|s|..] == [];
  }

  // ---- Tokens as text ------------------------------------------------------

  lemma {:induction false} TextIsNoLonger(s: Text, at: nat)
    ensures |Rewrite(AsText, s, at)| <= |s|
  {
    hide TokenLen;
    if |s| > 0 {
      if TokenLen(s) > 0 {
        Leading(s);
        TokenShape(s[..TokenLen(s)]);
        TextIsNoLonger(s[TokenLen(s)..], at + TokenLen(s));
      } else {
        TextIsNoLonger(s[1..], at + 1);
      }
    }
  }

  lemma TextOfToken(s: Text, at: nat)
    requires TokenLen(s) > 0
    ensures IsToken(s[..TokenLen(s)])
    ensures var text := PlainText(PartsOf(s[..TokenLen(s)]));
            && |text| < TokenLen(s) && LESS !in text
            && Rewrite(AsText, s, at) == text + Rewrite(AsText, s[TokenLen(s)..], at + TokenLen(s))
  {
    hide TokenLen;
    Leading(s);
    TokenShape(s[..TokenLen(s)]);
  }

  lemma ShiftTail(prefix: Text, tail: Text, a: nat)
    requires |prefix| <= a <= |prefix| + |tail|
    ensures (prefix + tail)[a..] == tail[a - |prefix|..]
  {
  }

  /** A '<' that begins no token begins none after the rewriting of what
      follows either, unless a token follows for it to be joined with. */
  lemma JoinsNeedTokens(s: Text, at: nat)
    requires |s| > 0 && TokenLen(s) == 0 && TokenLen(Rewrite(AsText, s, at)) > 0
    ensures exists k :: 0 <= k < |s[1..]| && TokenAt(s[1..], k)
  {
    hide TokenLen;
    assert [s[0]] + s[1..] == s;
    if forall k :: 0 <= k < |s[1..]| ==> !TokenAt(s[1..], k) {
      NoTokensUnchanged(AsText, s[1..], at + 1);
    }
  }

  /** A token in rewritten text was joined by a token written as text, and
      that one began further on than the joined one now does. */
  lemma {:induction false} JoinedFromLater(s: Text, at: nat, a: nat) returns (q: nat)
    requires TokenAt(Rewrite(AsText, s, at), a)
    ensures a < q < |s| && TokenAt(s, q)
    decreases |s|
  {
    hide TokenLen, IsToken, PlainText, PartsOf, Rewrite;
    Unfold(AsText, s, at);
    var written := Rewrite(AsText, s, at);
    OnlyLess(written[a..]);
    if TokenLen(s) > 0 {
      TextOfToken(s, at);
      var text := PlainText(PartsOf(s[..TokenLen(s)]));
      var rest := s[TokenLen(s)..];
      assert forall k :: 0 <= k < |text| ==> written[k] == text[k] && text[k] != LESS;
      ShiftTail(text, Rewrite(AsText, rest, at + TokenLen(s)), a);
      var later := JoinedFromLater(rest, at + TokenLen(s), a - |text|);
      q := TokenLen(s) + later;
      assert rest[later..] == s[q..];
    } else if a > 0 {
      ShiftTail([s[0]], Rewrite(AsText, s[1..], at + 1), a);
      var later := JoinedFromLater(s[1..], at + 1, a - 1);
      q := 1 + later;
      assert s[1..][later..] == s[q..];
    } else {
      assert written[0..] == written;
      JoinsNeedTokens(s, at);
      var k :| 0 <= k < |s[1..]| && TokenAt(s[1..], k);
      q := k + 1;
      assert s[1..][k..] == s[q..];
    }
  }

  // ---- Renaming keeps the scan ----------------------------------------------

  /** The tokens of s, in order, by their parts. */
  function ScanParts(s: Text): seq<Parts> {
    if |s| == 0 then []
    else if TokenLen(s) > 0 then Leading(s); [PartsOf(s[..TokenLen(s)])] + ScanParts(s[TokenLen(s)..])
    else ScanParts(s[1..])
  }

  /** The text before, between and after the tokens of s. */
  function Gaps(s: Text): (gaps: seq<Text>)
    ensures |gaps| > 0
  {
    if |s| == 0 then [[]]
    else if TokenLen(s) > 0 then [[]] + Gaps(s[TokenLen(s)..])
    else var gaps := Gaps(s[1..]); [[s[0]] + gaps[0]] + gaps[1..]
  }

  function Renamed(names: Names, parts: Parts): Parts {
    var key := Key(parts.kind, parts.id);
    parts.(name := if key in names then names[key] else parts.name)
  }

  function RenamedAll(names: Names, all: seq<Parts>): seq<Parts> {
    if |all| == 0 then [] else [Renamed(names, all[0])] + RenamedAll(names, all[1..])
  }

  /** One step of the scan, for every recursion over it at once. */
  lemma Unfold(writer: Writer, s: Text, at: nat)
    ensures |s| == 0 ==> Rewrite(writer, s, at) == [] && ScanParts(s) == [] && Gaps(s) == [[]]
    ensures TokenLen(s) > 0 ==>
      && IsToken(s[..TokenLen(s)])
      && Rewrite(writer, s, at)
         == writer.Write(at, s[..TokenLen(s)]) + Rewrite(writer, s[TokenLen(s)..], at + TokenLen(s))
      && ScanParts(s) == [PartsOf(s[..TokenLen(s)])] + ScanParts(s[TokenLen(s)..])
      && Gaps(s) == [[]] + Gaps(s[TokenLen(s)..])
    ensures |s| > 0 && TokenLen(s) == 0 ==>
      && Rewrite(writer, s, at) == [s[0]] + Rewrite(writer, s[1..], at + 1)
      && ScanParts(s) == ScanParts(s[1..])
      && Gaps(s) == [[s[0]] + Gaps(s[1..])[0]] + Gaps(s[1..])[1..]
  {
    hide TokenLen, PartsOf, Writer.Write;
    if TokenLen(s) > 0 {
      Leading(s);
    }
  }

  lemma RenamedNil(names: Names)
    ensures RenamedAll(names, []) == [] && Stale(names, []) == 0
  {
  }

  lemma RenamedCons(names: Names, parts: Parts, rest: seq<Parts>)
    ensures RenamedAll(names, [parts] + rest) == [Renamed(names, parts)] + RenamedAll(names, rest)
    ensures Stale(names, [parts] + rest) == (if Renamed(names, parts) == parts then 0 else 1) + Stale(names, rest)
  {
    assert ([parts] + rest)[1..] == rest;
  }

  lemma RenamedIsToken(names: Names, at: nat, token: Text, rest: Text)
    requires IsToken(token) && ValidNames(names)
    ensures var written := Rename(names).Write(at, token);
            && written == TokenText(Renamed(names, PartsOf(token)))
            && IsToken(written) && PartsOf(written) == Renamed(names, PartsOf(token))
            && TokenLen(written + rest) == |written| && written[0] == LESS
  {
    hide TokenLen;
    PartsOfToken(token);
    var parts := Renamed(names, PartsOf(token));
    PartsRoundTrip(parts);
    Accepts(parts, rest);
    KindShows(parts);
  }

  /** Up to its first '<' a renaming changes nothing. */
  lemma {:induction false} RenameAgrees(names: Names, s: Text, at: nat, n: nat)
    requires ValidNames(names) && n <= |Rewrite(Rename(names), s, at)|
    requires forall k :: 0 <= k < n ==> Rewrite(Rename(names), s, at)[k] != LESS
    ensures n <= |s| && s[..n] == Rewrite(Rename(names), s, at)[..n]
    decreases n
  {
    hide TokenLen, PartsOf, Renamed, TokenText;
    if TokenLen(s) > 0 {
      Leading(s);
      RenamedIsToken(names, at, s[..TokenLen(s)], []);
      assert Rewrite(Rename(names), s, at)[0] == LESS;
    } else if n > 0 {
      var rest := Rewrite(Rename(names), s[1..], at + 1);
      assert Rewrite(Rename(names), s, at) == [s[0]] + rest;
      forall k | 0 <= k < n - 1 ensures rest[k] != LESS {
        assert rest[k] == Rewrite(Rename(names), s, at)[k + 1];
      }
      RenameAgrees(names, s[1..], at + 1, n - 1);
      assert s[..n] == [s[0]] + s[1..][..n - 1];
    }
  }

  /** A '<' that begins no token begins none once what follows is renamed. */
  lemma RenameJoinsNothing(names: Names, s: Text, at: nat)
    requires ValidNames(names) && |s| > 0 && TokenLen(s) == 0
    ensures TokenLen([s[0]] + Rewrite(Rename(names), s[1..], at + 1)) == 0
  {
    hide TokenLen, PartsOf;
    var rest := Rewrite(Rename(names), s[1..], at + 1);
    var whole := [s[0]] + rest;
    var n := TokenLen(whole);
    if n > 0 {
      OnlyLess(whole);
      forall k | 0 <= k < n - 1 ensures rest[k] != LESS {
        assert rest[k] == whole[k + 1];
      }
      RenameAgrees(names, s[1..], at + 1, n - 1);
      assert s[..n] == [s[0]] + s[1..][..n - 1];
      assert whole[..n] == [s[0]] + rest[..n - 1];
      TokenLocal(whole, s);
    }
  }

  lemma ScanToken(token: Text, rest: Text)
    requires IsToken(token) && TokenLen(token + rest) == |token|
    ensures ScanParts(token + rest) == [PartsOf(token)] + ScanParts(rest)
    ensures Gaps(token + rest) == [[]] + Gaps(rest)
  {
    hide TokenLen, PartsOf;
    assert (token + rest)[..|token|] == token && (token + rest)[|token|..] == rest;
  }

  lemma ScanPlain(b: byte, rest: Text)
    requires TokenLen([b] + rest) == 0
    ensures ScanParts([b] + rest) == ScanParts(rest)
    ensures Gaps([b] + rest) == [[b] + Gaps(rest)[0]] + Gaps(rest)[1..]
  {
    hide TokenLen, PartsOf;
    assert ([b] + rest)[1..] == rest;
  }

  /** Renaming the tokens of a text keeps every one of them a token, in the
      same order, makes no new one, and leaves the text between alone. */
  lemma {:induction false} RenameKeepsScan(names: Names, s: Text, at: nat)
    requires ValidNames(names)
    ensures ScanParts(Rewrite(Rename(names), s, at)) == RenamedAll(names, ScanParts(s))
    ensures Gaps(Rewrite(Rename(names), s, at)) == Gaps(s)
    decreases |s|
  {
    hide TokenLen, PartsOf, Renamed, Writer.Write, Rewrite, ScanParts, Gaps, RenamedAll;
    Unfold(Rename(names), s, at);
    RenamedNil(names);
    Unfold(Rename(names), [], at);
    if |s| > 0 {
      var n := TokenLen(s);
      if n > 0 {
        var rest := Rewrite(Rename(names), s[n..], at + n);
        RenamedIsToken(names, at, s[..n], rest);
        RenameKeepsScan(names, s[n..], at + n);
        RenamedCons(names, PartsOf(s[..n]), ScanParts(s[n..]));
        ScanToken(Rename(names).Write(at, s[..n]), rest);
      } else {
        RenameJoinsNothing(names, s, at);
        RenameKeepsScan(names, s[1..], at + 1);
        ScanPlain(s[0], Rewrite(Rename(names), s[1..], at + 1));
      }
    }
  }

  // ---- One pass of storedForm -------------------------------------------------

  /** The token at q. */
  function TokenOf(s: Text, q: nat): (token: Text)
    requires TokenAt(s, q)
    ensures IsToken(token)
  {
    Leading(s[q..]);
    s[q..][..TokenLen(s[q..])]
  }

  ghost predicate Kept(live: set<nat>, current: Names, s: Text, at: nat, q: nat) {
    TokenAt(s, q) ==> KeyOf(TokenOf(s, q)) in current && at + q in live
  }

  ghost predicate AllKept(live: set<nat>, current: Names, s: Text, at: nat) {
    forall q :: 0 <= q < |s| ==> Kept(live, current, s, at, q)
  }

  lemma AllKeptTail(live: set<nat>, current: Names, s: Text, at: nat, k: nat)
    requires k <= |s| && AllKept(live, current, s, at)
    ensures AllKept(live, current, s[k..], at + k)
  {
    hide TokenLen, PartsOf;
    var tail, from := s[k..], at + k;
    forall q | 0 <= q < |tail| ensures Kept(live, current, tail, from, q) {
      assert s[k..][q..] == s[k + q..];
      assert Kept(live, current, s, at, k + q);
    }
  }

  lemma AllKeptFrom(live: set<nat>, current: Names, s: Text, at: nat, k: nat)
    requires k <= |s| && AllKept(live, current, s[k..], at + k)
    requires forall q :: 0 <= q < k ==> Kept(live, current, s, at, q)
    ensures AllKept(live, current, s, at)
  {
    hide TokenLen, PartsOf;
    forall q | 0 <= q < |s| ensures Kept(live, current, s, at, q) {
      if q >= k {
        assert s[k..][q - k..] == s[q..];
        assert Kept(live, current, s[k..], at + k, q - k);
      }
    }
  }

  /** A pass that keeps every token only renames. */
  lemma {:induction false} AllKeptRenames(live: set<nat>, current: Names, s: Text, at: nat)
    requires AllKept(live, current, s, at)
    ensures Rewrite(Store(live, current), s, at) == Rewrite(Rename(current), s, at)
    decreases |s|
  {
    hide TokenLen, TokenAt, PartsOf, Rewrite, AllKept, Writer.Write;
    Unfold(Store(live, current), s, at);
    Unfold(Rename(current), s, at);
    if |s| > 0 {
      var n := if TokenLen(s) > 0 then TokenLen(s) else 1;
      AllKeptTail(live, current, s, at, n);
      AllKeptRenames(live, current, s[n..], at + n);
      if TokenLen(s) > 0 {
        KeptFirst(live, current, s, at);
      }
    }
  }

  lemma KeptFirst(live: set<nat>, current: Names, s: Text, at: nat)
    requires AllKept(live, current, s, at) && TokenLen(s) > 0
    ensures IsToken(s[..TokenLen(s)])
    ensures var token := s[..TokenLen(s)]; Store(live, current).Write(at, token) == Rename(current).Write(at, token)
  {
    hide TokenLen, PartsOf;
    AtStart(s);
    Leading(s);
    assert Kept(live, current, s, at, 0);
  }

  lemma StoreToken(live: set<nat>, current: Names, s: Text, at: nat)
    requires ValidNames(current) && TokenLen(s) > 0
    ensures IsToken(s[..TokenLen(s)])
    ensures var token := s[..TokenLen(s)];
            var written := Store(live, current).Write(at, token);
            var kept := KeyOf(token) in current && at in live;
            && |written| > 0
            && (kept ==> written == Rename(current).Write(at, token))
            && (!kept ==> LESS !in written)
            && Count(token, LESS) == 1
            && Count(written, LESS) == (if kept then 1 else 0)
  {
    hide TokenLen;
    Leading(s);
    var token := s[..TokenLen(s)];
    TokenShape(token);
    CountOne(token);
    var kept := KeyOf(token) in current && at in live;
    if kept {
      RenamedIsToken(current, at, token, []);
      TokenShape(Rename(current).Write(at, token));
      CountOne(Rename(current).Write(at, token));
    } else {
      CountZero(PlainText(PartsOf(token)), LESS);
    }
  }

  lemma CountOne(token: Text)
    requires |token| > 0 && token[0] == LESS && forall k :: 1 <= k < |token| ==> token[k] != LESS
    ensures Count(token, LESS) == 1
  {
    CountZero(token[1..], LESS);
  }

  /** A pass never adds a '<', and drops one for each token it writes as
      text. */
  lemma {:induction false} PassCounts(live: set<nat>, current: Names, s: Text, at: nat)
    requires ValidNames(current)
    ensures Count(Rewrite(Store(live, current), s, at), LESS) <= Count(s, LESS)
    ensures Count(Rewrite(Store(live, current), s, at), LESS) == Count(s, LESS) ==> AllKept(live, current, s, at)
    decreases |s|
  {
    hide TokenLen, TokenAt, PartsOf, Rewrite, Writer.Write, AllKept, Count;
    var writer := Store(live, current);
    Unfold(writer, s, at);
    if |s| == 0 {
      NoneKept(live, current, s, at);
    } else {
      var n := if TokenLen(s) > 0 then TokenLen(s) else 1;
      PassCounts(live, current, s[n..], at + n);
      var rest := Rewrite(writer, s[n..], at + n);
      assert s == s[..n] + s[n..];
      CountConcat(s[..n], s[n..], LESS);
      if TokenLen(s) > 0 {
        StoreToken(live, current, s, at);
        CountConcat(writer.Write(at, s[..n]), rest, LESS);
      } else {
        assert s[..n] == [s[0]];
        CountConcat([s[0]], rest, LESS);
      }
      if Count(Rewrite(writer, s, at), LESS) == Count(s, LESS) {
        forall q | 0 <= q < n ensures Kept(live, current, s, at, q) {
          KeptWithin(live, current, s, at, q);
        }
        AllKeptFrom(live, current, s, at, n);
      }
    }
  }

  lemma NoneKept(live: set<nat>, current: Names, s: Text, at: nat)
    requires |s| == 0
    ensures AllKept(live, current, s, at)
  {
  }

  /** The step of the scan at s settles every position inside it. */
  lemma KeptWithin(live: set<nat>, current: Names, s: Text, at: nat, q: nat)
    requires q < |s| && q < (if TokenLen(s) > 0 then TokenLen(s) else 1)
    requires TokenLen(s) > 0 ==> IsToken(s[..TokenLen(s)]) && KeyOf(s[..TokenLen(s)]) in current && at in live
    ensures Kept(live, current, s, at, q)
  {
    hide TokenLen, PartsOf;
    AtStart(s);
    if q > 0 && TokenAt(s, q) {
      OnlyLess(s[q..]);
      OnlyLess(s);
    }
  }

  /** How many tokens carry a name that is not the current one. */
  function Stale(current: Names, all: seq<Parts>): nat {
    if |all| == 0 then 0
    else (if Renamed(current, all[0]) == all[0] then 0 else 1) + Stale(current, all[1..])
  }

  lemma {:induction false} RenamedIsCurrent(current: Names, all: seq<Parts>)
    ensures Stale(current, RenamedAll(current, all)) == 0
  {
    if |all| > 0 {
      RenamedIsCurrent(current, all[1..]);
      assert RenamedAll(current, all)[1..] == RenamedAll(current, all[1..]);
    }
  }

  lemma {:induction false} CurrentUnchanged(current: Names, s: Text, at: nat)
    requires Stale(current, ScanParts(s)) == 0
    ensures Rewrite(Rename(current), s, at) == s
    decreases |s|
  {
    hide TokenLen, PartsOf, Renamed, Writer.Write, Rewrite, ScanParts, Stale;
    Unfold(Rename(current), s, at);
    if |s| > 0 {
      var n := TokenLen(s);
      if n > 0 {
        RenamedCons(current, PartsOf(s[..n]), ScanParts(s[n..]));
        CurrentUnchanged(current, s[n..], at + n);
        RenamedSame(current, at, s[..n]);
        assert s[..n] + s[n..] == s;
      } else {
        CurrentUnchanged(current, s[1..], at + 1);
        assert [s[0]] + s[1..] == s;
      }
    }
  }

  lemma RenamedSame(current: Names, at: nat, token: Text)
    requires IsToken(token) && Renamed(current, PartsOf(token)) == PartsOf(token)
    ensures Rename(current).Write(at, token) == token
  {
    hide TokenLen;
    PartsOfToken(token);
  }

  /** Every pass that changes the text gets closer to the end: it drops a
      '<', or it drops none and leaves no stale name where there was one. */
  lemma Progress(live: set<nat>, current: Names, s: Text)
    requires ValidNames(current) && StoredForm(s, live, current) != s
    ensures var stored := StoredForm(s, live, current);
            || Count(stored, LESS) < Count(s, LESS)
            || (Count(stored, LESS) == Count(s, LESS)
                && Stale(current, ScanParts(stored)) < Stale(current, ScanParts(s)))
  {
    hide TokenLen, PartsOf;
    PassCounts(live, current, s, 0);
    if Count(StoredForm(s, live, current), LESS) == Count(s, LESS) {
      AllKeptRenames(live, current, s, 0);
      RenameKeepsScan(current, s, 0);
      RenamedIsCurrent(current, ScanParts(s));
      if Stale(current, ScanParts(s)) == 0 {
        CurrentUnchanged(current, s, 0);
      }
    }
  }

  /** A pass that keeps every token writes none as text, and still changes the
      text exactly when one carries a stale name. */
  lemma KeepingPassRenames(live: set<nat>, current: Names, s: Text)
    requires ValidNames(current) && AllKept(live, current, s, 0)
    ensures StoredForm(s, live, current) == s <==> Stale(current, ScanParts(s)) == 0
    ensures Gaps(StoredForm(s, live, current)) == Gaps(s)
    ensures |ScanParts(StoredForm(s, live, current))| == |ScanParts(s)|
  {
    hide TokenLen, PartsOf, Rewrite, ScanParts, Gaps, Stale, AllKept;
    AllKeptRenames(live, current, s, 0);
    RenameKeepsScan(current, s, 0);
    RenamedIsCurrent(current, ScanParts(s));
    RenamedLength(current, ScanParts(s));
    if Stale(current, ScanParts(s)) == 0 {
      CurrentUnchanged(current, s, 0);
    }
  }

  lemma {:induction false} RenamedLength(names: Names, all: seq<Parts>)
    ensures |RenamedAll(names, all)| == |all|
  {
    if |all| > 0 {
      RenamedLength(names, all[1..]);
    }
  }

  /** A text a pass leaves alone holds only kept tokens under their current
      names. */
  lemma Settled(live: set<nat>, current: Names, s: Text)
    requires ValidNames(current) && StoredForm(s, live, current) == s
    ensures AllKept(live, current, s, 0) && RenamedAll(current, ScanParts(s)) == ScanParts(s)
  {
    hide TokenLen, PartsOf;
    PassCounts(live, current, s, 0);
    AllKeptRenames(live, current, s, 0);
    RenameKeepsScan(current, s, 0);
  }

  // ---- The loops ----------------------------------------------------------------

  lemma Carry(s: Text, a: nat, b: nat)
    requires 1 <= a <= b <= |s|
    ensures s[1..][a - 1..b - 1] == s[a..b] && s[1..][b - 1..] == s[b..] && [s[0]] + s[1..][..a - 1] == s[..a]
    ensures [s[0]] + s[1..] == s
  {
  }

  lemma Glue3(b: byte, x: Text, y: Text, z: Text)
    ensures [b] + (x + y + z) == ([b] + x) + y + z
  {
  }

  /** A rewriting copies up to the first span, writes its token, and goes on
      from its end. */
  lemma {:induction false} NextSpan(writer: Writer, s: Text, at: nat)
    ensures Spans(s, at) == [] ==> Rewrite(writer, s, at) == s
    ensures Spans(s, at) != [] ==>
      var span := Spans(s, at)[0];
      && at <= span.start < span.end <= at + |s| && IsToken(s[span.start - at..span.end - at])
      && Spans(s[span.end - at..], span.end) == Spans(s, at)[1..]
      && Rewrite(writer, s, at)
         == s[..span.start - at] + writer.Write(span.start, s[span.start - at..span.end - at])
            + Rewrite(writer, s[span.end - at..], span.end)
    decreases |s|
  {
    hide TokenLen, IsToken, Writer.Write, Spans, Rewrite;
    Unfold(writer, s, at);
    UnfoldSpans(s, at);
    if TokenLen(s) > 0 {
      assert s[0..TokenLen(s)] == s[..TokenLen(s)];
      assert s[..0] + writer.Write(at, s[..TokenLen(s)]) == writer.Write(at, s[..TokenLen(s)]);
    } else if |s| > 0 {
      NextSpan(writer, s[1..], at + 1);
      if Spans(s, at) != [] {
        var span := Spans(s, at)[0];
        var a, b := span.start - at, span.end - at;
        Carry(s, a, b);
        Glue3(s[0], s[1..][..a - 1], writer.Write(span.start, s[a..b]), Rewrite(writer, s[b..], span.end));
      } else {
        assert [s[0]] + s[1..] == s;
      }
    }
  }

  lemma SpansSkip(s: Text, at: nat, k: nat)
    requires k <= |s| && forall q :: 0 <= q < k ==> s[q] != LESS
    ensures Spans(s, at) == Spans(s[k..], at + k)
  {
    hide TokenLen, TokenAt, Spans;
    forall q | 0 <= q < k ensures !TokenAt(s, q) {
      NotLess(s, q);
    }
    SkipPlain(AsText, s, at, k);
  }

  lemma NotLess(s: Text, q: nat)
    requires q < |s| && s[q] != LESS
    ensures !TokenAt(s, q)
  {
    hide TokenLen;
    if TokenAt(s, q) {
      OnlyLess(s[q..]);
    }
  }

  lemma Later(s: Text, from: nat, to: nat)
    requires from <= to <= |s|
    ensures s[from..][to - from..] == s[to..] && s[from..][..to - from] == s[from..to]
  {
  }

  /** From one '<' to the next there is no token. */
  lemma SpansTo(s: Text, from: nat, to: nat)
    requires from <= to <= |s| && forall k :: from <= k < to ==> s[k] != LESS
    ensures Spans(s[from..], from) == Spans(s[to..], to)
  {
    hide Spans;
    var tail := s[from..];
    forall q | 0 <= q < to - from ensures tail[q] != LESS {
      assert tail[q] == s[from + q];
    }
    SpansSkip(tail, from, to - from);
    Later(s, from, to);
  }

  lemma SpansStep(s: Text, start: nat)
    requires start < |s|
    ensures var n := TokenLen(s[start..]);
            && start + n <= |s|
            && Spans(s[start..], start)
               == if n > 0 then [Span(start, start + n)] + Spans(s[start + n..], start + n)
                  else Spans(s[start + 1..], start + 1)
  {
    hide TokenLen, Spans;
    var n := TokenLen(s[start..]);
    UnfoldSpans(s[start..], start);
    Later(s, start, start + n);
    Later(s, start, start + 1);
  }

  lemma Append(before: seq<Span>, span: Span, rest: seq<Span>)
    ensures before + ([span] + rest) == (before + [span]) + rest
  {
  }

  /** Where each token in content starts and ends, as eachToken visits them. */
  method EachToken(content: Text) returns (spans: seq<Span>)
    ensures spans == Spans(content, 0)
  {
    hide TokenLen, Spans;
    spans := [];
    var from := 0;
    assert content[0..] == content;
    UnfoldSpans([], |content|);
    while true
      invariant 0 <= from <= |content|
      invariant spans + Spans(content[from..], from) == Spans(content, 0)
      decreases |content| - from
    {
      var start := IndexFrom(content, LESS, from);
      SpansTo(content, from, start);
      if start == |content| {
        assert content[start..] == [];
        return;
      }
      SpansStep(content, start);
      var length := TokenLength(content[start..]);
      if length > 0 {
        Append(spans, Span(start, start + length), Spans(content[start + length..], start + length));
        spans := spans + [Span(start, start + length)];
        from := start + length;
      } else {
        from := start + 1;
      }
    }
  }

  /** The cursor loop that storedForm, tokensAsText and current share: the
      text between the tokens is copied, each token is written anew. */
  method WriteTokens(writer: Writer, content: Text) returns (out: Text)
    ensures out == Rewrite(writer, content, 0)
  {
    hide TokenLen, Spans, Rewrite, Writer.Write;
    var spans := EachToken(content);
    out := [];
    var written := 0;
    assert content[0..] == content;
    for index := 0 to |spans|
      invariant 0 <= written <= |content|
      invariant Spans(content[written..], written) == spans[index..]
      invariant out + Rewrite(writer, content[written..], written) == Rewrite(writer, content, 0)
    {
      NextSpan(writer, content[written..], written);
      var span := spans[index];
      Later(content, written, span.start);
      Later(content, written, span.end);
      assert content[written..][span.start - written..span.end - written] == content[span.start..span.end];
      out := out + content[written..span.start] + writer.Write(span.start, content[span.start..span.end]);
      written := span.end;
    }
    NextSpan(writer, content[written..], written);
    out := out + content[written..];
  }

  /** tokensAsText, with its shortcut for content that holds no '<'. */
  method WriteAsText(content: Text) returns (out: Text)
    ensures out == TokensAsText(content)
  {
    if LESS !in content {
      SpansSkip(content, 0, |content|);
      NextSpan(AsText, content, 0);
      return content;
    }
    out := WriteTokens(AsText, content);
  }

  /** mentionNames.current: what a preview shows of stored content. */
  method WriteCurrent(names: Names, content: Text) returns (out: Text)
    requires ValidNames(names)
    ensures out == Rewrite(Rename(names), content, 0)
    ensures ScanParts(out) == RenamedAll(names, ScanParts(content)) && Gaps(out) == Gaps(content)
  {
    RenameKeepsScan(names, content, 0);
    if LESS !in content {
      SpansSkip(content, 0, |content|);
      NextSpan(Rename(names), content, 0);
      return content;
    }
    out := WriteTokens(Rename(names), content);
  }
}