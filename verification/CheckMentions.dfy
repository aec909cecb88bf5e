/** checkMentions: the directory's lookups, the rewriting until nothing
    changes, and who the kept tokens tell. */
module CheckMentions {
  import opened Bytes
  import opened Tokens
  import opened Rewriting
  import opened Markdown
  import opened Offsets
  import opened Blocks
  import opened Mentions
  import opened Words
  import Parser

  /** What checkMentions reads of the channel and its space: who can read the
      channel, the accounts' usernames, the space's groups and its linkable
      channels; and whether the channel is a public one of a space. */
  datatype Directory = Directory(
    readers: seq<Text>, people: map<Text, Text>, groups: map<Text, Text>, channels: map<Text, Text>, open: bool)
  {
    /** The rules the usernames and handles were saved under. */
    ghost predicate Valid() {
      && (forall id :: id in people ==> ValidName(Person, Lower(people[id])))
      && (forall id :: id in groups ==> ValidName(Group, groups[id]))
    }

    predicate Authorised(key: Key) {
      match key.kind
      case Person => key.id in readers && key.id in people
      case Group => open && key.id in groups
      case Channel => open && key.id in channels && ValidChannelName(channels[key.id])
    }

    function CurrentName(key: Key): Text
      requires Authorised(key)
    {
      match key.kind
      case Person => Lower(people[key.id])
      case Group => groups[key.id]
      case Channel => channels[key.id]
    }
  }

  datatype Targets = Targets(
    people: seq<Text>, groups: seq<Text>, readers: seq<Text>, entireChannel: bool, here: bool)

  const NO_TARGETS := Targets([], [], [], false, false)

  function Lower(s: Text): (t: Text)
    ensures |t| == |s|
  {
    if |s| == 0 then [] else [ToLower(s[0])] + Lower(s[1..])
  }

  predicate ValidChannelName(name: Text) {
    && 0 < |name| <= MAX_NAME
    && forall i :: 0 <= i < |name| ==>
         IsLower(name[i]) || IsDigit(name[i]) || (i > 0 && (name[i] == DASH || name[i] == UNDERSCORE))
  }

  // ---- The names behind the shown tokens -----------------------------------------------

  function KeysOf(ms: seq<Inline>): set<Key> {
    set m | m in ms && m.Mention? && IsToken(m.token) :: KeyOf(m.token)
  }

  function Lookup(dir: Directory, keys: set<Key>): Names {
    map key | key in keys && dir.Authorised(key) :: dir.CurrentName(key)
  }

  lemma LookupIsValid(dir: Directory, keys: set<Key>)
    requires dir.Valid()
    ensures ValidNames(Lookup(dir, keys))
  {
    forall key | key in Lookup(dir, keys) ensures ValidName(key.kind, Lookup(dir, keys)[key]) {
      if key.kind == Channel {
        var name := dir.channels[key.id];
        forall k | 0 <= k < |name| ensures IsNameChar(Channel, name[k]) {
        }
      }
    }
  }

  ghost predicate AllTokens(ms: seq<Inline>) {
    forall k :: 0 <= k < |ms| ==> ms[k].Mention? && IsToken(ms[k].token)
  }

  /** The ids the shown tokens ask for, and the names the queries answer. */
  method ReadNames(dir: Directory, shown: seq<Inline>) returns (current: Names)
    requires AllTokens(shown)
    ensures current == Lookup(dir, KeysOf(shown))
  {
    hide TokenLen, IsToken, PartsOf, ValidChannelName;
    var wanted: seq<Key> := [];
    for k := 0 to |shown|
      invariant forall key :: key in wanted <==>
        key in KeysOf(shown[..k]) && (key.kind == Person ==> key.id in dir.readers)
    {
      assert shown[..k + 1] == shown[..k] + [shown[k]];
      var key := KeyOf(shown[k].token);
      KeysMore(shown[..k], shown[k]);
      if (key.kind == Person ==> key.id in dir.readers) && key !in wanted {
        wanted := wanted + [key];
      }
    }
    assert shown[..|shown|] == shown;
    current := map[];
    for k := 0 to |wanted|
      invariant forall key :: key in current <==> key in wanted[..k] && dir.Authorised(key)
      invariant forall key :: key in current ==> current[key] == dir.CurrentName(key)
    {
      var key := wanted[k];
      assert wanted[..k + 1] == wanted[..k] + [key];
      if dir.Authorised(key) {
        current := current[key := dir.CurrentName(key)];
      }
    }
    assert wanted[..|wanted|] == wanted;
  }

  lemma KeysMore(ms: seq<Inline>, m: Inline)
    requires m.Mention? && IsToken(m.token)
    ensures KeysOf(ms + [m]) == KeysOf(ms) + {KeyOf(m.token)}
  {
    hide TokenLen, IsToken, PartsOf;
    forall key | key in KeysOf(ms) ensures key in KeysOf(ms + [m]) {
      var n :| n in ms && n.Mention? && IsToken(n.token) && KeyOf(n.token) == key;
      assert n in ms + [m];
    }
    assert m in ms + [m];
  }

  // ---- Who is told ------------------------------------------------------------------------

  /** The ids of a kind that the mentions name, each once, in order. */
  function IdsOf(kind: Kind, ms: seq<Inline>): seq<Text> {
    if |ms| == 0 then []
    else
      var before := IdsOf(kind, ms[..|ms| - 1]);
      var m := ms[|ms| - 1];
      if m.Mention? && IsToken(m.token) && KeyOf(m.token).kind == kind && KeyOf(m.token).id !in before
      then before + [KeyOf(m.token).id]
      else before
  }

  lemma {:induction false} IdsAreExact(kind: Kind, ms: seq<Inline>)
    ensures forall id :: id in IdsOf(kind, ms) <==> Key(kind, id) in KeysOf(ms)
    ensures forall j, k :: 0 <= j < k < |IdsOf(kind, ms)| ==> IdsOf(kind, ms)[j] != IdsOf(kind, ms)[k]
  {
    hide TokenLen, IsToken, PartsOf;
    if |ms| > 0 {
      var init, m := ms[..|ms| - 1], ms[|ms| - 1];
      IdsAreExact(kind, init);
      assert ms == init + [m];
      if m.Mention? && IsToken(m.token) {
        KeysMore(init, m);
      } else {
        assert KeysOf(ms) == KeysOf(init);
      }
    }
  }

  method CollectIds(shown: seq<Inline>) returns (people: seq<Text>, groups: seq<Text>)
    requires AllTokens(shown)
    ensures people == IdsOf(Person, shown) && groups == IdsOf(Group, shown)
  {
    hide TokenLen, IsToken, PartsOf;
    people, groups := [], [];
    for k := 0 to |shown|
      invariant people == IdsOf(Person, shown[..k]) && groups == IdsOf(Group, shown[..k])
    {
      assert shown[..k + 1][..k] == shown[..k] && shown[..k + 1][k] == shown[k];
      var key := KeyOf(shown[k].token);
      if key.kind == Person && key.id !in people {
        people := people + [key.id];
      }
      if key.kind == Group && key.id !in groups {
        groups := groups + [key.id];
      }
    }
    assert shown[..|shown|] == shown;
  }

  // ---- The passes --------------------------------------------------------------------------

  /** One pass: the text as saved, by what its own parse shows live. */
  function Pass(current: Names, s: Text): Text {
    StoredForm(s, Positions(Shown(Nodes(s))), current)
  }

  function Passes(current: Names, s: Text, n: nat): Text {
    if n == 0 then s else Pass(current, Passes(current, s, n - 1))
  }

  /** The text that passes over content end with, under the names its own
      parse asks for. */
  ghost predicate IsStored(dir: Directory, content: Text, stored: Text) {
    var current := Lookup(dir, KeysOf(Shown(Nodes(content))));
    (exists n :: stored == Passes(current, content, n)) && Pass(current, stored) == stored
  }

  lemma {:induction false} PassesMore(current: Names, s: Text, n: nat, k: nat)
    ensures Passes(current, s, n + k) == Passes(current, Passes(current, s, n), k)
  {
    hide Pass;
    if k > 0 {
      PassesMore(current, s, n, k - 1);
    }
  }

  /** There is one such text: whenever the passes stop, they stop there. */
  lemma StoredIs(dir: Directory, content: Text, stored: Text, k: nat)
    requires IsStored(dir, content, stored)
    requires var current := Lookup(dir, KeysOf(Shown(Nodes(content))));
             Pass(current, Passes(current, content, k)) == Passes(current, content, k)
    ensures stored == Passes(Lookup(dir, KeysOf(Shown(Nodes(content)))), content, k)
  {
    hide Pass, Passes, Lookup, KeysOf, Shown, Nodes;
    var current := Lookup(dir, KeysOf(Shown(Nodes(content))));
    var n: nat :| stored == Passes(current, content, n);
    if n <= k {
      PassesMore(current, content, n, k - n);
      StableForever(current, stored, k - n);
    } else {
      PassesMore(current, content, k, n - k);
      StableForever(current, Passes(current, content, k), n - k);
    }
  }

  /** Every token of the text is one its readers see as a mention (in no code,
      spoiler or link's words), names someone or something the author may
      name here, and carries the current name; and the mentions the parse
      shows are those tokens and no others. */
  ghost predicate Checked(dir: Directory, s: Text) {
    && Shown(Nodes(s)) == Live(Nodes(s)) == ScanMentions(s, 0)
    && forall q :: 0 <= q < |s| && TokenAt(s, q) ==> CheckedAt(dir, s, q)
  }

  ghost predicate CheckedAt(dir: Directory, s: Text, q: nat)
    requires TokenAt(s, q)
  {
    var token := TokenOf(s, q);
    LivePos(Nodes(s), q) && dir.Authorised(KeyOf(token)) && PartsOf(token).name == dir.CurrentName(KeyOf(token))
  }

  lemma {:induction false} CurrentWhere(current: Names, s: Text, q: nat)
    requires RenamedAll(current, ScanParts(s)) == ScanParts(s) && q < |s| && TokenAt(s, q)
    ensures Renamed(current, PartsOf(TokenOf(s, q))) == PartsOf(TokenOf(s, q))
    decreases |s|
  {
    hide TokenLen, PartsOf, Renamed, Rewrite, ScanParts, RenamedAll;
    Leading(s[q..]);
    Unfold(AsText, s, 0);
    if TokenLen(s) > 0 {
      var rest := s[TokenLen(s)..];
      RenamedCons(current, PartsOf(s[..TokenLen(s)]), ScanParts(rest));
      if q == 0 {
        assert s[0..] == s;
      } else {
        OnlyLess(s);
        OnlyLess(s[q..]);
        assert q >= TokenLen(s);
        assert rest[q - TokenLen(s)..] == s[q..];
        CurrentWhere(current, rest, q - TokenLen(s));
      }
    } else {
      assert s[0..] == s;
      assert s[1..][q - 1..] == s[q..];
      CurrentWhere(current, s[1..], q - 1);
    }
  }

  /** A text that a pass over looked-up names leaves alone is checked. */
  lemma FixpointIsChecked(dir: Directory, keys: set<Key>, s: Text)
    requires dir.Valid() && Pass(Lookup(dir, keys), s) == s
    ensures Checked(dir, s)
  {
    hide TokenLen, PartsOf, Shown, Live, Parse, ScanParts, RenamedAll, Rewrite, ScanMentions, Sound, Dead;
    var current := Lookup(dir, keys);
    LookupIsValid(dir, keys);
    FixpointIsExact(s, current);
    MessageSound(s);
    var live := Positions(Shown(Nodes(s)));
    forall q | 0 <= q < |s| && TokenAt(s, q) ensures CheckedAt(dir, s, q) {
      Leading(s[q..]);
      assert Kept(live, current, s, 0, q);
      CurrentWhere(current, s, q);
      LiveFromShown(s, q);
    }
  }

  lemma LiveFromShown(s: Text, q: nat)
    requires Shown(Nodes(s)) == Live(Nodes(s)) && q in Positions(Shown(Nodes(s)))
    ensures LivePos(Nodes(s), q)
  {
    hide Shown, Live, Parse;
    var m :| m in Shown(Nodes(s)) && m.Mention? && m.at == q;
    var k :| 0 <= k < |Live(Nodes(s))| && Live(Nodes(s))[k] == m;
  }

  lemma UnfoldScan(s: Text, at: nat)
    requires |s| > 0
    ensures TokenLen(s) > 0 ==>
      ScanMentions(s, at) == [Mention(s[..TokenLen(s)], at)] + ScanMentions(s[TokenLen(s)..], at + TokenLen(s))
    ensures TokenLen(s) == 0 ==> ScanMentions(s, at) == ScanMentions(s[1..], at + 1)
  {
    hide TokenLen;
  }

  lemma {:induction false} ScanHas(s: Text, at: nat, q: nat)
    requires q < |s| && TokenAt(s, q)
    ensures Mention(TokenOf(s, q), at + q) in ScanMentions(s, at)
    decreases |s|
  {
    hide TokenLen, IsToken, ScanMentions;
    UnfoldScan(s, at);
    if q == 0 {
      assert s[0..] == s;
    } else {
      var n := if TokenLen(s) > 0 then TokenLen(s) else 1;
      assert q >= n by {
        if TokenLen(s) > 0 {
          assert s[0..] == s;
          OnlyLess(s);
          OnlyLess(s[q..]);
        }
      }
      var rest := s[n..];
      assert rest[q - n..] == s[q..];
      ScanHas(rest, at + n, q - n);
      assert TokenOf(rest, q - n) == TokenOf(s, q) && at + n + (q - n) == at + q;
    }
  }

  ghost predicate IsCurrent(current: Names, token: Text)
    requires IsToken(token)
  {
    Renamed(current, PartsOf(token)) == PartsOf(token)
  }

  lemma {:induction false} AllCurrent(current: Names, s: Text)
    requires forall q :: 0 <= q < |s| && TokenAt(s, q) ==> IsCurrent(current, TokenOf(s, q))
    ensures Stale(current, ScanParts(s)) == 0
    decreases |s|
  {
    hide TokenLen, PartsOf, Renamed, Rewrite, ScanParts, Stale;
    Unfold(AsText, s, 0);
    RenamedNil(current);
    assert s[0..] == s;
    if |s| > 0 {
      var n := if TokenLen(s) > 0 then TokenLen(s) else 1;
      var rest := s[n..];
      if TokenLen(s) > 0 {
        assert TokenAt(s, 0);
        RenamedCons(current, PartsOf(s[..n]), ScanParts(rest));
      }
      forall q | 0 <= q < |rest| && TokenAt(rest, q)
        ensures IsCurrent(current, TokenOf(rest, q))
      {
        assert rest[q..] == s[n + q..];
        assert TokenAt(s, n + q) && IsCurrent(current, TokenOf(s, n + q));
      }
      AllCurrent(current, rest);
    }
  }

  /** Checking a checked text again changes nothing. */
  lemma CheckedIsStable(dir: Directory, s: Text)
    requires dir.Valid() && Checked(dir, s)
    ensures Pass(Lookup(dir, KeysOf(Shown(Nodes(s)))), s) == s
  {
    hide TokenLen, PartsOf, Shown, Live, Parse, ScanParts, Stale, Rewrite, ScanMentions;
    var shown := Shown(Nodes(s));
    var current := Lookup(dir, KeysOf(shown));
    var live := Positions(shown);
    forall q | 0 <= q < |s| && TokenAt(s, q)
      ensures Kept(live, current, s, 0, q)
      ensures IsCurrent(current, TokenOf(s, q))
    {
      ScanHas(s, 0, q);
      var token := TokenOf(s, q);
      assert Mention(token, 0 + q) in shown;
      assert CheckedAt(dir, s, q);
      assert KeyOf(token) in KeysOf(shown);
    }
    AllCurrent(current, s);
    CurrentUnchanged(current, s, 0);
    AllKeptRenames(live, current, s, 0);
  }

  // ---- checkMentions --------------------------------------------------------------------------

  method ReadMentions(content: Text) returns (shown: seq<Inline>, entireChannel: bool, here: bool)
    ensures shown == Shown(Nodes(content)) && AllTokens(shown)
    ensures entireChannel == NodesUse(Nodes(content), CHANNEL_WORD) && here == NodesUse(Nodes(content), HERE_WORD)
  {
    hide Shown, Parse, NodesUse, IsToken;
    var blocks := Parser.ParseMarkdown(content);
    ShownAreTokens(content);
    return Shown(Walk(blocks)), NodesUse(Walk(blocks), CHANNEL_WORD), NodesUse(Walk(blocks), HERE_WORD);
  }

  method Store(content: Text, shown: seq<Inline>, current: Names) returns (stored: Text)
    requires AllTokens(shown)
    ensures stored == StoredForm(content, Positions(shown), current)
  {
    hide IsToken, Rewrite;
    var liveAt: set<nat> := {};
    for k := 0 to |shown|
      invariant liveAt == Positions(shown[..k])
    {
      assert shown[..k + 1] == shown[..k] + [shown[k]];
      PositionsMore(shown[..k], shown[k]);
      liveAt := liveAt + {shown[k].at};
    }
    assert shown[..|shown|] == shown;
    stored := WriteTokens(Writer.Store(liveAt, current), content);
  }

  lemma PositionsMore(ms: seq<Inline>, m: Inline)
    requires m.Mention?
    ensures Positions(ms + [m]) == Positions(ms) + {m.at}
  {
    forall p | p in Positions(ms) ensures p in Positions(ms + [m]) {
      var n :| n in ms && n.Mention? && n.at == p;
      assert n in ms + [m];
    }
    assert m in ms + [m];
  }

  lemma NoTokensChecked(dir: Directory, content: Text)
    requires dir.Valid() && Spans(content, 0) == []
    ensures forall names :: Pass(names, content) == content
    ensures Checked(dir, content) && ScanMentions(content, 0) == []
  {
    hide TokenLen, Shown, Live, Parse, Rewrite, Checked;
    forall q | 0 <= q < |content| ensures !TokenAt(content, q) {
      if TokenAt(content, q) {
        SpanFound(content, 0, q);
      }
    }
    forall names ensures Pass(names, content) == content {
      NoTokensUnchanged(Writer.Store(Positions(Shown(Nodes(content))), names), content, 0);
    }
    FixpointIsChecked(dir, {}, content);
    NoScan(content, 0);
  }

  lemma {:induction false} NoScan(s: Text, at: nat)
    requires Spans(s, at) == []
    ensures ScanMentions(s, at) == []
    decreases |s|
  {
    hide TokenLen;
    if |s| > 0 && TokenLen(s) == 0 {
      NoScan(s[1..], at + 1);
    }
  }

  /** Holds no token, and neither @channel nor @here as a word. */
  predicate AsksNothing(content: Text) {
    && Spans(content, 0) == []
    && !NodesUse(Nodes(content), CHANNEL_WORD) && !NodesUse(Nodes(content), HERE_WORD)
  }

  method CheckMentions(dir: Directory, content: Text) returns (stored: Text, targets: Targets)
    requires dir.Valid()
    ensures Checked(dir, stored)
    ensures IsStored(dir, content, stored)
    ensures Checked(dir, content) ==> stored == content
    ensures targets.people == IdsOf(Person, ScanMentions(stored, 0))
    ensures targets.groups == IdsOf(Group, ScanMentions(stored, 0))
    ensures forall id :: id in targets.people ==> id in dir.readers && id in dir.people
    ensures forall id :: id in targets.groups ==> dir.open && id in dir.groups
    ensures targets.entireChannel == NodesUse(Nodes(stored), CHANNEL_WORD)
    ensures targets.here == NodesUse(Nodes(stored), HERE_WORD)
    ensures targets.readers == if AsksNothing(content) then [] else dir.readers
  {
    hide TokenLen, Shown, Live, Parse, Rewrite, Checked, ScanMentions, IsToken, PartsOf, Spans, ScanParts, Stale;
    hide MayNameEveryone, NodesUse, IdsOf, Lookup, KeysOf;
    var spans := EachToken(content);
    var hasTokens := spans != [];
    if !hasTokens {
      NoTokensChecked(dir, content);
      NoIds();
      assert content == Passes(Lookup(dir, KeysOf(Shown(Nodes(content)))), content, 0);
    }
    if !hasTokens && !MayNameEveryone(content) {
      ShortcutIsExact(content);
      return content, NO_TARGETS;
    }
    var shown, entireChannel, here := ReadMentions(content);
    if !hasTokens && !entireChannel && !here {
      return content, NO_TARGETS;
    }
    targets := NO_TARGETS.(readers := dir.readers, entireChannel := entireChannel, here := here);
    if !hasTokens {
      return content, targets;
    }
    var current := ReadNames(dir, shown);
    LookupIsValid(dir, KeysOf(shown));
    stored := Store(content, shown, current);
    var written := content;
    ghost var passes := 0;
    while stored != written
      invariant stored == Pass(current, written)
      invariant written == Passes(current, content, passes)
      invariant passes == 0 ==> written == content
      decreases Count(written, LESS), Stale(current, ScanParts(written)), stored != written
    {
      Progress(Positions(Shown(Nodes(written))), current, written);
      written := stored;
      passes := passes + 1;
      var again, _, _ := ReadMentions(written);
      stored := Store(written, again, current);
    }
    FixpointIsChecked(dir, KeysOf(Shown(Nodes(content))), stored);
    if Checked(dir, content) {
      CheckedIsStable(dir, content);
      StableForever(current, content, passes);
    }
    if stored != content {
      shown, entireChannel, here := ReadMentions(stored);
      targets := targets.(entireChannel := entireChannel, here := here);
    }
    ShownIsScan(dir, stored);
    var people, groups := CollectIds(shown);
    targets := targets.(people := people, groups := groups);
    OnlyNamed(dir, stored);
  }

  lemma NoIds()
    ensures IdsOf(Person, []) == [] && IdsOf(Group, []) == []
  {
  }

  lemma LiveIsThere(s: Text, m: Inline)
    requires m in Live(Nodes(s))
    ensures m.Mention? && m.at < |s| && TokenAt(s, m.at) && TokenOf(s, m.at) == m.token && IsToken(m.token)
  {
    hide TokenLen, Live, Parse, Shown, IsToken;
    MessageSound(s);
    var k :| 0 <= k < |Live(Nodes(s))| && Live(Nodes(s))[k] == m;
    assert Reads(m, s, 0, 0, |s|);
    assert s[m.at..][..|m.token|] == m.token;
    TokenIn(s, m.at, |m.token|);
  }

  lemma TokenIn(s: Text, p: nat, n: nat)
    requires p + n <= |s| && IsToken(s[p..][..n])
    ensures TokenLen(s[p..]) == n > 0
  {
    TokenPrefix(s[p..], n);
  }

  /** A checked text tells readers of the channel, and groups where it is
      public. */
  lemma OnlyNamed(dir: Directory, s: Text)
    requires Checked(dir, s)
    ensures forall kind, id :: id in IdsOf(kind, ScanMentions(s, 0)) ==> dir.Authorised(Key(kind, id))
  {
    hide TokenLen, Live, Nodes, Shown, IsToken, PartsOf, ScanMentions, IdsOf, Directory.Authorised;
    forall kind, id | id in IdsOf(kind, ScanMentions(s, 0)) ensures dir.Authorised(Key(kind, id)) {
      IdsAreExact(kind, ScanMentions(s, 0));
      var m :| m in ScanMentions(s, 0) && m.Mention? && IsToken(m.token) && KeyOf(m.token) == Key(kind, id);
      LiveIsThere(s, m);
      assert CheckedAt(dir, s, m.at);
    }
  }

  lemma ShownIsScan(dir: Directory, s: Text)
    requires Checked(dir, s)
    ensures Shown(Nodes(s)) == ScanMentions(s, 0)
  {
  }

  lemma {:induction false} StableForever(current: Names, s: Text, n: nat)
    requires Pass(current, s) == s
    ensures Passes(current, s, n) == s
  {
    hide Pass;
    if n > 0 {
      StableForever(current, s, n - 1);
    }
  }
}
