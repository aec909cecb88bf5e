/** What checkMentions stores in a token's place, and whom it tells, for
    everything that can stand around it. */
module StoredTokens {
  import opened Bytes
  import opened Tokens
  import opened Rewriting
  import opened Markdown
  import opened Offsets
  import opened Blocks
  import opened Mentions
  import opened CheckMentions
  import opened Contexts
  import opened Places

  // ---- What is stored --------------------------------------------------------------------------

  lemma Slices(u: Text, t: Text, v: Text)
    ensures var s := u + t + v;
            && s[..|u|] == u && s[|u|..] == t + v && (t + v)[..|t|] == t && (t + v)[|t|..] == v
            && forall q :: 0 <= q < |u| ==> s[q] == u[q]
  {
  }

  /** A rewriting of a text with one "<", where a token is. */
  lemma OneRewritten(writer: Writer, u: Text, t: Text, v: Text, at: nat)
    requires IsToken(t) && LESS !in u && LESS !in v
    ensures Rewrite(writer, u + t + v, at) == u + writer.Write(at + |u|, t) + v
  {
    hide TokenLen, Rewrite, Writer.Write;
    var s := u + t + v;
    Slices(u, t, v);
    forall q | 0 <= q < |u| ensures !TokenAt(s, q) {
      NotLess(s, q);
    }
    SkipPlain(writer, s, at, |u|);
    TokenPrefix(t + v, |t|);
    Unfold(writer, t + v, at + |u|);
    NoLessNoToken(v);
    NoTokensUnchanged(writer, v, at + |u| + |t|);
    Associative(u, writer.Write(at + |u|, t), v);
  }

  lemma Associative(x: Text, y: Text, z: Text)
    ensures x + (y + z) == x + y + z
  {
  }

  lemma OneScanned(u: Text, t: Text, v: Text)
    requires IsToken(t) && LESS !in u && LESS !in v
    ensures ScanMentions(u + t + v, 0) == [Mention(t, |u|)]
  {
    hide TokenLen;
    var s := u + t + v;
    var ms := [Mention(t, |u|)];
    assert s[|u|..|u| + |t|] == t;
    assert Reads(ms[0], s, 0, 0, |s|);
    forall q | 0 <= q < |s| && TokenAt(s, q) ensures HasMentionAt(ms, 0 + q) {
      OnlyHere(u, t, v, q);
      assert ms[0].at == q;
    }
    InOrderIsScan(ms, s, 0);
  }

  lemma OnlyHere(u: Text, t: Text, v: Text, q: nat)
    requires IsToken(t) && LESS !in u && LESS !in v && q < |u + t + v| && TokenAt(u + t + v, q)
    ensures q == |u|
  {
    hide TokenLen, TokenAt;
    TokenShape(t);
    var s := u + t + v;
    assert s[q] == if q < |u| then u[q] else if q < |u| + |t| then t[q - |u|] else v[q - |u| - |t|];
    if q != |u| {
      NotLess(s, q);
    }
  }

  lemma NoneScanned(s: Text)
    requires LESS !in s
    ensures ScanMentions(s, 0) == [] && forall names :: Pass(names, s) == s
  {
    hide TokenLen, Rewrite, Shown, Nodes;
    NoLessNoToken(s);
    InOrderIsScan([], s, 0);
    forall names ensures Pass(names, s) == s {
      NoTokensUnchanged(Writer.Store(Positions(Shown(Nodes(s))), names), s, 0);
    }
  }

  lemma OnePass(current: Names, u: Text, t: Text, v: Text)
    requires IsToken(t) && LESS !in u && LESS !in v
    ensures var live := Positions(Shown(Nodes(u + t + v)));
            Pass(current, u + t + v) == u + Writer.Store(live, current).Write(|u|, t) + v
  {
    hide TokenLen, Rewrite, Shown, Nodes, Writer.Write;
    OneRewritten(Writer.Store(Positions(Shown(Nodes(u + t + v))), current), u, t, v, 0);
  }

  /** A text whose one token its parse does not show is stored with the token
      as text, and tells nobody. */
  lemma HiddenIsText(dir: Directory, u: Text, t: Text, v: Text, stored: Text)
    requires IsToken(t) && LESS !in u && LESS !in v && Shown(Nodes(u + t + v)) == []
    requires IsStored(dir, u + t + v, stored)
    ensures stored == u + PlainText(PartsOf(t)) + v && ScanMentions(stored, 0) == []
  {
    hide TokenLen, PartsOf, Rewrite, Shown, Nodes, ScanMentions, PlainText, Pass;
    var s, text := u + t + v, u + PlainText(PartsOf(t)) + v;
    var current := Lookup(dir, KeysOf(Shown(Nodes(s))));
    OnePass(current, u, t, v);
    TokenShape(t);
    NoneScanned(text);
    assert Passes(current, s, 0) == s && Passes(current, s, 1) == Pass(current, s);
    StoredIs(dir, s, stored, 1);
  }

  /** The token under the name its key has now. */
  function Now(dir: Directory, t: Text): Parts
    requires IsToken(t) && dir.Authorised(KeyOf(t))
  {
    PartsOf(t).(name := dir.CurrentName(KeyOf(t)))
  }

  /** It lives under the name it came with and, renamed, under that one. */
  ghost predicate Stays(dir: Directory, c: Context, t: Text)
    requires IsToken(t)
  {
    Lives(c, t) && dir.Authorised(KeyOf(t)) && Lives(c, TokenText(Now(dir, t)))
  }

  /** What is stored in a token's place: it, renamed, or its text; the text of
      its new name when only that one ends the underline. */
  ghost function StoredAs(dir: Directory, c: Context, t: Text): Text
    requires IsToken(t)
  {
    if !Lives(c, t) || !dir.Authorised(KeyOf(t)) then PlainText(PartsOf(t))
    else if Stays(dir, c, t) then TokenText(Now(dir, t))
    else PlainText(Now(dir, t))
  }

  lemma NowIs(dir: Directory, t: Text)
    requires dir.Valid() && IsToken(t) && dir.Authorised(KeyOf(t))
    ensures var n := TokenText(Now(dir, t)); IsToken(n) && PartsOf(n) == Now(dir, t) && KeyOf(n) == KeyOf(t)
  {
    hide TokenLen, ValidName, ValidId, PartsOf, TokenText;
    PartsOfToken(t);
    LookupIsValid(dir, {KeyOf(t)});
    assert KeyOf(t) in Lookup(dir, {KeyOf(t)});
    PartsRoundTrip(Now(dir, t));
  }

  lemma OneKey(dir: Directory, t: Text, at: nat)
    requires IsToken(t)
    ensures KeysOf([Mention(t, at)]) == {KeyOf(t)}
    ensures dir.Authorised(KeyOf(t)) ==>
              Lookup(dir, {KeyOf(t)}) == map[KeyOf(t) := dir.CurrentName(KeyOf(t))]
    ensures !dir.Authorised(KeyOf(t)) ==> Lookup(dir, {KeyOf(t)}) == map[]
  {
    hide TokenLen, PartsOf;
    KeysMore([], Mention(t, at));
    assert [] + [Mention(t, at)] == [Mention(t, at)];
    assert KeysOf([]) == {};
  }

  lemma OnePosition(t: Text, at: nat)
    ensures Positions([Mention(t, at)]) == {at} && Positions([]) == {}
  {
    assert [] + [Mention(t, at)] == [Mention(t, at)];
    PositionsMore([], Mention(t, at));
  }

  lemma PlacedSplits(c: Context, a: Text, words: Text, b: Text)
    ensures Placed(c, a, words, b) == (a + c.Opening()) + words + (c.Closing() + b)
  {
  }

  lemma OutsideHasNoLess(c: Context, a: Text, b: Text)
    requires c.Valid() && NoMarkup(a) && NoMarkup(b)
    ensures LESS !in a + c.Opening() && LESS !in c.Closing() + b
  {
    hide IsAddress, HasAt;
    PlainHoldsNoLine(a);
    PlainHoldsNoLine(b);
    if c.InLabel? {
      AddressBytes(c.address);
    }
  }

  /** A pass over such a text under the names its own parse asks for. */
  lemma PassWrites(c: Context, a: Text, t: Text, b: Text, current: Names)
    requires IsToken(t) && c.Valid() && NoMarkup(a) && NoMarkup(b)
    ensures Pass(current, Placed(c, a, t, b))
            == Placed(c, a, if Lives(c, t) && KeyOf(t) in current
                            then TokenText(PartsOf(t).(name := current[KeyOf(t)])) else PlainText(PartsOf(t)), b)
  {
    hide TokenLen, PartsOf, Rewrite, Shown, Live, Nodes, TokenText, PlainText, Pass, Lives, NoMarkup, Placed, Context.Valid;
    var u, v := a + c.Opening(), c.Closing() + b;
    WhereTokensLive(c, a, t, b);
    OutsideHasNoLess(c, a, b);
    PlacedSplits(c, a, t, b);
    OnePass(current, u, t, v);
    OnePosition(t, |u|);
    var live := Positions(Shown(Nodes(u + t + v)));
    assert Lives(c, t) <==> |u| in live;
    PlacedSplits(c, a, Writer.Store(live, current).Write(|u|, t), b);
  }

  lemma PlainPlaced(c: Context, a: Text, parts: Parts, b: Text)
    requires parts.Valid() && c.Valid() && NoMarkup(a) && NoMarkup(b)
    ensures var s := Placed(c, a, PlainText(parts), b); LESS !in s
  {
    hide NoMarkup, IsAddress, Parts.Valid, IsHandleText;
    OutsideHasNoLess(c, a, b);
    NameBytes(parts);
    PlacedSplits(c, a, PlainText(parts), b);
  }

  /** The passes over such a text: one, or a second that finds the new name
      ending the underline. */
  lemma StoredText(dir: Directory, c: Context, a: Text, t: Text, b: Text, stored: Text)
    requires dir.Valid() && IsToken(t) && c.Valid() && NoMarkup(a) && NoMarkup(b)
    requires IsStored(dir, Placed(c, a, t, b), stored)
    ensures stored == Placed(c, a, StoredAs(dir, c, t), b)
  {
    hide TokenLen, PartsOf, Rewrite, Shown, Live, Nodes, TokenText, PlainText, Pass, Lives, NoMarkup, Placed, Context.Valid;
    hide ScanMentions, Lookup, KeysOf, IsToken;
    var s := Placed(c, a, t, b);
    WhereTokensLive(c, a, t, b);
    var current := Lookup(dir, KeysOf(Shown(Nodes(s))));
    PassWrites(c, a, t, b, current);
    assert Passes(current, s, 0) == s && Passes(current, s, 1) == Pass(current, s);
    PartsOfToken(t);
    if Lives(c, t) && dir.Authorised(KeyOf(t)) {
      OneKey(dir, t, |a| + |c.Opening()|);
      NowIs(dir, t);
      var n := TokenText(Now(dir, t));
      PassWrites(c, a, n, b, current);
      if Lives(c, n) {
        StoredIs(dir, s, stored, 1);
      } else {
        PartsOfToken(n);
        PlainPlaced(c, a, Now(dir, t), b);
        NoneScanned(Placed(c, a, PlainText(Now(dir, t)), b));
        assert Passes(current, s, 2) == Pass(current, Passes(current, s, 1));
        StoredIs(dir, s, stored, 2);
      }
    } else {
      OneKey(dir, t, |a| + |c.Opening()|);
      PlainPlaced(c, a, PartsOf(t), b);
      NoneScanned(Placed(c, a, PlainText(PartsOf(t)), b));
      StoredIs(dir, s, stored, 1);
    }
  }

  lemma IdsOfOne(kind: Kind, t: Text, at: nat)
    requires IsToken(t)
    ensures IdsOf(kind, [Mention(t, at)]) == if KeyOf(t).kind == kind then [KeyOf(t).id] else []
    ensures IdsOf(kind, []) == []
  {
    hide TokenLen, PartsOf;
    var m := Mention(t, at);
    assert [m][..0] == [] && IdsOf(kind, []) == [];
    assert [] + [KeyOf(t).id] == [KeyOf(t).id];
  }

  lemma TokenPlaced(c: Context, a: Text, t: Text, b: Text)
    requires IsToken(t) && c.Valid() && NoMarkup(a) && NoMarkup(b)
    ensures ScanMentions(Placed(c, a, t, b), 0) == [Mention(t, |a| + |c.Opening()|)]
  {
    hide TokenLen, ScanMentions, NoMarkup, Placed, Context.Valid, Context.Opening, Context.Closing;
    OutsideHasNoLess(c, a, b);
    PlacedSplits(c, a, t, b);
    OneScanned(a + c.Opening(), t, c.Closing() + b);
  }

  /** Whatever stands around a token, in a message of one line: what is stored
      in its place, and that it tells the one it names exactly when it stays;
      in a spoiler, in code and in a link's words it tells nobody. */
  lemma WhatIsStored(dir: Directory, c: Context, a: Text, t: Text, b: Text, stored: Text)
    requires dir.Valid() && IsToken(t) && c.Valid() && NoMarkup(a) && NoMarkup(b)
    requires IsStored(dir, Placed(c, a, t, b), stored)
    ensures stored == Placed(c, a, StoredAs(dir, c, t), b)
    ensures forall kind :: IdsOf(kind, ScanMentions(stored, 0))
                           == if Stays(dir, c, t) && KeyOf(t).kind == kind then [KeyOf(t).id] else []
  {
    hide TokenLen, PartsOf, IdsOf, ScanMentions, NoMarkup, Placed, Context.Valid, TokenText, PlainText, Lives, IsToken;
    hide Pass, Passes, Lookup, KeysOf, IsStored;
    StoredText(dir, c, a, t, b, stored);
    PartsOfToken(t);
    if dir.Authorised(KeyOf(t)) {
      NowIs(dir, t);
      PartsOfToken(TokenText(Now(dir, t)));
    }
    if Stays(dir, c, t) {
      TokenPlaced(c, a, TokenText(Now(dir, t)), b);
    } else {
      var parts := if Lives(c, t) && dir.Authorised(KeyOf(t)) then Now(dir, t) else PartsOf(t);
      PlainPlaced(c, a, parts, b);
      NoneScanned(stored);
    }
    forall kind ensures IdsOf(kind, ScanMentions(stored, 0))
                        == if Stays(dir, c, t) && KeyOf(t).kind == kind then [KeyOf(t).id] else []
    {
      var n := if Stays(dir, c, t) then TokenText(Now(dir, t)) else t;
      IdsOfOne(kind, n, |a| + |c.Opening()|);
    }
  }

  /** Bare, a token is kept exactly when it may be. */
  lemma BareStored(dir: Directory, a: Text, t: Text, b: Text, stored: Text)
    requires dir.Valid() && IsToken(t) && NoMarkup(a) && NoMarkup(b) && IsStored(dir, a + t + b, stored)
    ensures var told, words := dir.Authorised(KeyOf(t)), StoredAs(dir, Bare, t);
            && stored == a + words + b
            && (told ==> words == TokenText(PartsOf(t).(name := dir.CurrentName(KeyOf(t)))))
            && (!told ==> words == PlainText(PartsOf(t)))
            && forall kind :: IdsOf(kind, ScanMentions(stored, 0))
                              == if told && KeyOf(t).kind == kind then [KeyOf(t).id] else []
  {
    hide TokenLen, PartsOf, IdsOf, ScanMentions, TokenText, IsToken, NoMarkup, IsStored, HoldsPair, PlainText, Placed;
    hide Directory.Authorised, Directory.CurrentName, Directory.Valid;
    BareIs(a, t, b);
    WhatIsStored(dir, Bare, a, t, b, stored);
    BareIs(a, StoredAs(dir, Bare, t), b);
  }

  lemma BareIs(a: Text, words: Text, b: Text)
    ensures Placed(Bare, a, words, b) == a + words + b && Bare.Valid()
  {
  }

  /** The ids of the people and of the groups that a text tells. */
  function Told(s: Text): (seq<Text>, seq<Text>) {
    (IdsOf(Person, ScanMentions(s, 0)), IdsOf(Group, ScanMentions(s, 0)))
  }

  /** A bare token stays, under the current name, and tells the one it names,
      exactly when that is a reader of the channel with an account or, in a
      public channel, a group; a channel's stays there when it is a public one
      whose name can be written, and tells nobody. */
  lemma WhoIsTold(dir: Directory, a: Text, t: Text, b: Text, stored: Text)
    requires dir.Valid() && IsToken(t) && NoMarkup(a) && NoMarkup(b) && IsStored(dir, a + t + b, stored)
    ensures var parts := PartsOf(t);
            match parts.kind
            case Person =>
              if parts.id in dir.readers && parts.id in dir.people
              then stored == a + TokenText(parts.(name := Lower(dir.people[parts.id]))) + b
                   && Told(stored) == ([parts.id], [])
              else stored == a + ([AT] + parts.name) + b && Told(stored) == ([], [])
            case Group =>
              if dir.open && parts.id in dir.groups
              then stored == a + TokenText(parts.(name := dir.groups[parts.id])) + b && Told(stored) == ([], [parts.id])
              else stored == a + ([AT] + parts.name) + b && Told(stored) == ([], [])
            case Channel =>
              && Told(stored) == ([], [])
              && stored == a + (if dir.open && parts.id in dir.channels && ValidChannelName(dir.channels[parts.id])
                                then TokenText(parts.(name := dir.channels[parts.id])) else [HASH] + parts.name) + b
  {
    hide TokenLen, PartsOf, IdsOf, ScanMentions, TokenText, IsToken, NoMarkup, IsStored, Lower, ValidChannelName;
    hide StoredAs, Directory.Valid;
    BareStored(dir, a, t, b, stored);
  }

  // ---- An underline that its own mention ends ---------------------------------------------------

  const PAIRED: Text := [97, UNDERSCORE, UNDERSCORE, 98]

  function Zeros(): (id: Text)
    ensures ValidId(id)
  {
    seq(ID_LENGTH, k requires 0 <= k < ID_LENGTH => if k == 8 || k == 13 || k == 18 || k == 23 then DASH else ZERO)
  }

  lemma NameHoldsPair(parts: Parts)
    requires parts.kind == Person && |parts.id| == ID_LENGTH && parts.name == PAIRED
    ensures HoldsPair(TokenText(parts))
  {
    var t := TokenText(parts);
    Layout(parts, []);
    assert t + [] == t;
    assert t[42] == t[41..45][1] && t[43] == t[41..45][2] && t[42..44] == [t[42], t[43]];
    assert HasAt(t, 42, PAIR);
  }

  /** "__<@u:0000...:a__b>__": the name's "__" ends the underline, so the token
      is shown as text; bare, the same token is a mention. */
  lemma OwnPairEnds() returns (t: Text)
    ensures IsToken(t) && PartsOf(t).name == PAIRED
    ensures Shown(Nodes(PAIR + t + PAIR)) == [] && Shown(Nodes(t)) == [Mention(t, 0)]
  {
    hide *;
    var parts := Parts(Person, Zeros(), PAIRED);
    PairedIsValid(parts);
    t := TokenText(parts);
    PartsRoundTrip(parts);
    NameHoldsPair(parts);
    NothingAround();
    LivesIs(Underlined, t);
    LivesIs(Bare, t);
    WhereTokensLive(Underlined, [], t, []);
    WhereTokensLive(Bare, [], t, []);
    UnderlinedAlone(t);
  }

  lemma PairedIsValid(parts: Parts)
    requires parts.kind == Person && ValidId(parts.id) && parts.name == PAIRED
    ensures parts.Valid() && |parts.id| == ID_LENGTH
  {
  }

  lemma NothingAround()
    ensures NoMarkup([]) && Bare.Valid() && Underlined.Valid() && Bare.KeepsMentions() && |Bare.Opening()| == 0
  {
  }

  lemma UnderlinedAlone(t: Text)
    ensures Placed(Bare, [], t, []) == t && Placed(Underlined, [], t, []) == PAIR + t + PAIR
  {
  }
}
