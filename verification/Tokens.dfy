/** Mention tokens: <@u:ID:handle>, <@g:ID:handle> and <#ID:name>, the scan
    that finds them, and the rewritings that turn them into text or give
    them another name. */
module Tokens {
  import opened Bytes

  datatype Kind = Person | Group | Channel

  // ---- The codec -------------------------------------------------------

  function Prefix(kind: Kind): Text {
    match kind
    case Person => [LESS, AT, 117, COLON]
    case Group => [LESS, AT, 103, COLON]
    case Channel => [LESS, HASH]
  }

  function MinName(kind: Kind): nat {
    if kind == Channel then 1 else 3
  }

  const MAX_NAME: nat := 32
  const ID_LENGTH: nat := 36

  predicate IsHandleChar(b: byte) {
    IsLower(b) || IsDigit(b) || b == UNDERSCORE
  }

  predicate IsNameChar(kind: Kind, b: byte) {
    IsHandleChar(b) || (kind == Channel && b == DASH)
  }

  predicate IsHex(b: byte) {
    IsDigit(b) || 97 <= b <= 102
  }

  predicate IsIdChar(k: nat, b: byte) {
    if k == 8 || k == 13 || k == 18 || k == 23 then b == DASH else IsHex(b)
  }

  predicate ValidId(id: Text) {
    |id| == ID_LENGTH && forall k :: 0 <= k < ID_LENGTH ==> IsIdChar(k, id[k])
  }

  predicate AllNameChars(kind: Kind, name: Text) {
    forall k :: 0 <= k < |name| ==> IsNameChar(kind, name[k])
  }

  predicate ValidName(kind: Kind, name: Text) {
    MinName(kind) <= |name| <= MAX_NAME && AllNameChars(kind, name)
  }

  datatype Parts = Parts(kind: Kind, id: Text, name: Text) {
    predicate Valid() {
      ValidId(id) && ValidName(kind, name)
    }
  }

  function TokenText(parts: Parts): Text {
    Prefix(parts.kind) + parts.id + [COLON] + parts.name + [GREATER]
  }

  /** How a token reads as text: @handle, or #name for a channel. */
  function PlainText(parts: Parts): Text {
    [if parts.kind == Channel then HASH else AT] + parts.name
  }

  // ---- Recognising a token ---------------------------------------------

  /** The kind a text's first bytes announce; false when they announce none. */
  function KindOf(text: Text): (bool, Kind) {
    if |text| >= 2 && text[0] == LESS && text[1] == HASH then (true, Channel)
    else if |text| < 4 || text[0] != LESS || text[1] != AT || text[3] != COLON then (false, Person)
    else if text[2] == 117 then (true, Person)
    else if text[2] == 103 then (true, Group)
    else (false, Person)
  }

  /** How many name characters run from `from`. */
  function NameRun(kind: Kind, text: Text, from: nat): (n: nat)
    requires from <= |text|
    ensures from + n <= |text|
    ensures AllNameChars(kind, text[from..from + n])
    ensures from + n < |text| ==> !IsNameChar(kind, text[from + n])
    decreases |text| - from
  {
    if from == |text| || !IsNameChar(kind, text[from]) then 0
    else
      var n := NameRun(kind, text, from + 1);
      assert text[from..from + 1 + n] == [text[from]] + text[from + 1..from + 1 + n];
      1 + n
  }

  /** The length of the token of a kind the text starts with, or 0. */
  function BodyLen(kind: Kind, text: Text): (n: nat)
    ensures n <= |text|
  {
    var idAt := |Prefix(kind)|;
    var nameAt := idAt + ID_LENGTH + 1;
    if |text| < nameAt || !ValidId(text[idAt..idAt + ID_LENGTH]) || text[nameAt - 1] != COLON then 0
    else
      var run := NameRun(kind, text, nameAt);
      if MinName(kind) <= run <= MAX_NAME && nameAt + run < |text| && text[nameAt + run] == GREATER
      then nameAt + run + 1
      else 0
  }

  /** The length of the token the text starts with, or 0. */
  function TokenLen(text: Text): (n: nat)
    ensures n <= |text|
  {
    if KindOf(text).0 then BodyLen(KindOf(text).1, text) else 0
  }

  predicate IsToken(token: Text) {
    |token| > 0 && TokenLen(token) == |token|
  }

  predicate TokenAt(s: Text, i: nat) {
    i <= |s| && TokenLen(s[i..]) > 0
  }

  /** Splits a whole token at the fixed offsets. */
  function PartsOf(token: Text): Parts
    requires IsToken(token)
  {
    if token[1] == HASH then Parts(Channel, token[2..38], token[39..|token| - 1])
    else Parts(if token[2] == 117 then Person else Group, token[4..40], token[41..|token| - 1])
  }

  // ---- The two directions of the codec ----------------------------------

  /** Where the pieces of a written token lie. */
  lemma Layout(parts: Parts, rest: Text)
    requires |parts.id| == ID_LENGTH
    ensures var text := TokenText(parts) + rest;
            var idAt := |Prefix(parts.kind)|;
            var nameAt := idAt + ID_LENGTH + 1;
            var n := nameAt + |parts.name| + 1;
            && |TokenText(parts)| == n
            && text[..idAt] == Prefix(parts.kind) && text[idAt..nameAt - 1] == parts.id
            && text[nameAt - 1] == COLON && text[nameAt..n - 1] == parts.name && text[n - 1] == GREATER
  {
  }

  lemma {:induction false} RunIs(kind: Kind, text: Text, from: nat, n: nat)
    requires from + n < |text|
    requires forall k :: from <= k < from + n ==> IsNameChar(kind, text[k])
    requires !IsNameChar(kind, text[from + n])
    ensures NameRun(kind, text, from) == n
    decreases n
  {
    if n > 0 {
      RunIs(kind, text, from + 1, n - 1);
    }
  }

  /** tokenLength accepts what tokenText writes, whatever follows it. */
  lemma Accepts(parts: Parts, rest: Text)
    requires parts.Valid()
    ensures TokenLen(TokenText(parts) + rest) == |TokenText(parts)|
  {
    var text := TokenText(parts) + rest;
    var nameAt := |Prefix(parts.kind)| + ID_LENGTH + 1;
    Layout(parts, rest);
    assert KindOf(text) == (true, parts.kind) by {
      assert forall k :: 0 <= k < |Prefix(parts.kind)| ==> text[k] == Prefix(parts.kind)[k];
    }
    forall k | nameAt <= k < nameAt + |parts.name| ensures IsNameChar(parts.kind, text[k]) {
      assert text[k] == text[nameAt..nameAt + |parts.name|][k - nameAt];
    }
    RunIs(parts.kind, text, nameAt, |parts.name|);
  }

  /** The parts of the token a text starts with, by the same offsets. */
  function LeadingParts(text: Text): Parts
    requires TokenLen(text) > 0
  {
    var (_, kind) := KindOf(text);
    var idAt := |Prefix(kind)|;
    Parts(kind, text[idAt..idAt + ID_LENGTH], text[idAt + ID_LENGTH + 1..TokenLen(text) - 1])
  }

  /** What the scan has seen of a text it accepts. */
  lemma Accepted(text: Text)
    requires TokenLen(text) > 0
    ensures var n, parts := TokenLen(text), LeadingParts(text);
            var idAt := |Prefix(parts.kind)|;
            var nameAt := idAt + ID_LENGTH + 1;
            && parts.Valid() && n == nameAt + |parts.name| + 1
            && text[..idAt] == Prefix(parts.kind) && text[idAt..nameAt - 1] == parts.id
            && text[nameAt - 1] == COLON && text[nameAt..n - 1] == parts.name && text[n - 1] == GREATER
  {
  }

  /** tokenLength accepts nothing else: what it accepts is tokenText of
      valid parts. */
  lemma AcceptsOnly(text: Text)
    requires TokenLen(text) > 0
    ensures LeadingParts(text).Valid() && TokenText(LeadingParts(text)) == text[..TokenLen(text)]
  {
    Accepted(text);
    hide TokenLen, LeadingParts, IsNameChar, IsIdChar, Prefix, TokenText;
    var n := TokenLen(text);
    var parts := LeadingParts(text);
    var idAt := |Prefix(parts.kind)|;
    var nameAt := idAt + ID_LENGTH + 1;
    Layout(parts, []);
    var written := TokenText(parts);
    assert written + [] == written;
    assert text[..n][..idAt] == text[..idAt] && text[..n][idAt..nameAt - 1] == text[idAt..nameAt - 1];
    assert text[..n][nameAt..n - 1] == text[nameAt..n - 1];
    Glue(written, text[..n], idAt, nameAt, n);
  }

  lemma Glue(s: Text, t: Text, a: nat, b: nat, n: nat)
    requires a < b < n == |s| == |t|
    requires s[..a] == t[..a] && s[a..b - 1] == t[a..b - 1] && s[b - 1] == t[b - 1]
    requires s[b..n - 1] == t[b..n - 1] && s[n - 1] == t[n - 1]
    ensures s == t
  {
    forall k | 0 <= k < n ensures s[k] == t[k] {
      if k < a {
        assert s[..a][k] == t[..a][k];
      } else if k < b - 1 {
        assert s[a..b - 1][k - a] == t[a..b - 1][k - a];
      } else if b <= k < n - 1 {
        assert s[b..n - 1][k - b] == t[b..n - 1][k - b];
      }
    }
  }

  /** A token in one text is a token in any text that shares its bytes. */
  lemma TokenLocal(text: Text, other: Text)
    requires TokenLen(text) > 0
    requires TokenLen(text) <= |other| && other[..TokenLen(text)] == text[..TokenLen(text)]
    ensures TokenLen(other) == TokenLen(text)
  {
    AcceptsOnly(text);
    var n := TokenLen(text);
    Accepts(LeadingParts(text), other[n..]);
    assert other == other[..n] + other[n..];
  }

  /** tokenParts reads a whole token's parts, and tokenText writes it back. */
  lemma PartsOfToken(token: Text)
    requires IsToken(token)
    ensures PartsOf(token).Valid() && TokenText(PartsOf(token)) == token
  {
    AcceptsOnly(token);
    assert token[..|token|] == token;
    assert PartsOf(token) == LeadingParts(token);
  }

  lemma KindShows(parts: Parts)
    requires |parts.id| == ID_LENGTH
    ensures var token := TokenText(parts);
            |token| > 4 && token[0] == LESS && (token[1] == HASH <==> parts.kind == Channel)
            && (parts.kind == Person ==> token[2] == 117) && (parts.kind == Group ==> token[2] == 103)
  {
    Layout(parts, []);
    var token := TokenText(parts);
    assert token + [] == token;
    var prefix := token[..|Prefix(parts.kind)|];
    assert prefix[0] == token[0] && prefix[1] == token[1];
    assert parts.kind != Channel ==> prefix[2] == token[2];
  }

  lemma TokenTextInjective(p: Parts, q: Parts)
    requires |p.id| == ID_LENGTH && |q.id| == ID_LENGTH && TokenText(p) == TokenText(q)
    ensures p == q
  {
    KindShows(p);
    KindShows(q);
    Layout(p, []);
    Layout(q, []);
  }

  /** tokenText writes a whole token, and tokenParts reads its parts back. */
  lemma PartsRoundTrip(parts: Parts)
    requires parts.Valid()
    ensures IsToken(TokenText(parts)) && PartsOf(TokenText(parts)) == parts
  {
    Accepts(parts, []);
    assert TokenText(parts) + [] == TokenText(parts);
    KindShows(parts);
    PartsOfToken(TokenText(parts));
    TokenTextInjective(parts, PartsOf(TokenText(parts)));
  }

  lemma AtStart(s: Text)
    ensures s[0..] == s && (TokenAt(s, 0) <==> TokenLen(s) > 0)
  {
    hide TokenLen;
    assert s[0..] == s;
  }

  lemma Shifted(s: Text, k: nat, q: nat)
    requires k + q <= |s|
    ensures s[k..][q..] == s[k + q..] && (TokenAt(s[k..], q) <==> TokenAt(s, k + q))
  {
    hide TokenLen;
    assert s[k..][q..] == s[k + q..];
  }

  /** What follows a token does not matter to it. */
  lemma TokenPrefix(s: Text, m: nat)
    requires m <= |s| && TokenLen(s[..m]) > 0
    ensures TokenLen(s) == TokenLen(s[..m])
  {
    hide TokenLen;
    var n := TokenLen(s[..m]);
    assert s[..m][..n] == s[..n];
    TokenLocal(s[..m], s);
  }

  /** The start of a text that begins a token is that token, whole. */
  lemma Leading(text: Text)
    requires TokenLen(text) > 0
    ensures IsToken(text[..TokenLen(text)])
  {
    TokenLocal(text, text[..TokenLen(text)]);
  }

  lemma PartsShape(parts: Parts)
    requires parts.Valid()
    ensures var token := TokenText(parts);
            && (forall k :: 1 <= k < |token| ==> token[k] != LESS)
            && (forall k :: 0 <= k < |token| ==> token[k] != NEWLINE)
  {
    Layout(parts, []);
    var token := TokenText(parts);
    assert token + [] == token;
    var idAt := |Prefix(parts.kind)|;
    var nameAt := idAt + ID_LENGTH + 1;
    forall k | 0 <= k < |token| ensures (k >= 1 ==> token[k] != LESS) && token[k] != NEWLINE {
      if k < idAt {
        assert token[k] == token[..idAt][k];
      } else if k < nameAt - 1 {
        assert token[k] == parts.id[k - idAt];
        assert IsIdChar(k - idAt, parts.id[k - idAt]);
      } else if nameAt <= k < |token| - 1 {
        assert token[k] == parts.name[k - nameAt];
        assert IsNameChar(parts.kind, parts.name[k - nameAt]);
      }
    }
  }

  /** A token starts with its only '<', holds no line end, and is longer than
      its own text, which holds no '<' at all. */
  lemma TokenShape(token: Text)
    requires IsToken(token)
    ensures token[0] == LESS && (forall k :: 1 <= k < |token| ==> token[k] != LESS)
    ensures NEWLINE !in token
    ensures 0 < |PlainText(PartsOf(token))| < |token|
    ensures LESS !in PlainText(PartsOf(token)) && PlainText(PartsOf(token))[0] != LESS
  {
    PartsOfToken(token);
    var parts := PartsOf(token);
    PartsShape(parts);
    KindShows(parts);
    assert |token| == |Prefix(parts.kind)| + 38 + |parts.name|;
    forall k | 0 <= k < |parts.name| ensures parts.name[k] != LESS {
      assert IsNameChar(parts.kind, parts.name[k]);
    }
  }

  // ---- tokenLength, by hand ----------------------------------------------

  /** The first n characters from `at` are an ID's. */
  predicate IdRun(text: Text, at: nat, n: nat)
    requires at + n <= |text|
  {
    forall k :: at <= k < at + n ==> IsIdChar(k - at, text[k])
  }

  lemma IdRunIsId(text: Text, at: nat)
    requires at + ID_LENGTH <= |text|
    ensures ValidId(text[at..at + ID_LENGTH]) <==> IdRun(text, at, ID_LENGTH)
  {
    var id := text[at..at + ID_LENGTH];
    if ValidId(id) {
      forall k | at <= k < at + ID_LENGTH ensures IsIdChar(k - at, text[k]) {
        assert id[k - at] == text[k];
      }
    }
  }

  method TokenLength(text: Text) returns (length: nat)
    ensures length == TokenLen(text)
  {
    hide BodyLen;
    var kind;
    if |text| >= 2 && text[0] == LESS && text[1] == HASH {
      kind := Channel;
    } else if |text| < 4 || text[0] != LESS || text[1] != AT || (text[2] != 117 && text[2] != 103) || text[3] != COLON {
      return 0;
    } else {
      kind := if text[2] == 117 then Person else Group;
    }
    length := BodyLength(kind, text);
  }

  lemma RunStep(kind: Kind, text: Text, from: nat)
    requires from <= |text|
    ensures NameRun(kind, text, from)
            == if from < |text| && IsNameChar(kind, text[from]) then 1 + NameRun(kind, text, from + 1) else 0
  {
    hide IsNameChar, AllNameChars;
  }

  lemma BodyIs(kind: Kind, text: Text)
    ensures var idAt, nameAt := |Prefix(kind)|, |Prefix(kind)| + ID_LENGTH + 1;
            BodyLen(kind, text)
            == if |text| < nameAt || !IdRun(text, idAt, ID_LENGTH) || text[nameAt - 1] != COLON then 0
               else
                 var run := NameRun(kind, text, nameAt);
                 if MinName(kind) <= run <= MAX_NAME && nameAt + run < |text| && text[nameAt + run] == GREATER
                 then nameAt + run + 1 else 0
  {
    hide ValidId, IdRun, NameRun;
    if |text| > |Prefix(kind)| + ID_LENGTH {
      IdRunIsId(text, |Prefix(kind)|);
    }
  }

  method BodyLength(kind: Kind, text: Text) returns (length: nat)
    ensures length == BodyLen(kind, text)
  {
    hide BodyLen, Prefix, IsIdChar, IsNameChar, AllNameChars, NameRun;
    BodyIs(kind, text);
    var prefix := |Prefix(kind)|;
    var idEnd := prefix + ID_LENGTH;
    if |text| < idEnd + 1 + MinName(kind) + 1 {
      return 0;
    }
    for index := prefix to idEnd
      invariant IdRun(text, prefix, index - prefix)
    {
      if !IsIdChar(index - prefix, text[index]) {
        return 0;
      }
    }
    if text[idEnd] != COLON {
      return 0;
    }
    var end := idEnd + 1;
    while end < |text| && end - idEnd <= MAX_NAME + 1 && IsNameChar(kind, text[end])
      invariant idEnd < end <= |text| && end - idEnd <= MAX_NAME + 2
      invariant NameRun(kind, text, idEnd + 1) == end - idEnd - 1 + NameRun(kind, text, end)
    {
      RunStep(kind, text, end);
      end := end + 1;
    }
    RunStep(kind, text, end);
    var name := end - idEnd - 1;
    if name < MinName(kind) || name > MAX_NAME || end == |text| || text[end] != GREATER {
      return 0;
    }
    return end + 1;
  }
}
