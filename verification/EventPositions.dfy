/** The client's position when events move it too: the next event, of a whole
    row or of one part of a row that is held, takes the position one on. */
module EventPositions {
  import opened Options
  import opened ThreadSummaries
  import opened ChannelLog
  import opened Transactions
  import opened LogSafety
  import opened ChannelRuns
  import opened CatchUp
  import opened StrictMerging

  /** The parts of a message that are read, or sent, apart. */
  datatype Part = Text | Thread | Mentions | Reactions | Files | Links | Pinned

  /** How many of the hydrating reads it takes to know a part. */
  function ReadIn(p: Part): nat {
    match p
    case Text => 0
    case Thread => 0
    case Mentions => 1
    case Reactions => 2
    case Files => 3
    case Links => 4
    case Pinned => 5
  }

  predicate SamePart(p: Part, v: View, w: View) {
    match p
    case Text => v.row.(seqNo := 0, extras := NO_EXTRAS) == w.row.(seqNo := 0, extras := NO_EXTRAS)
    case Thread => v.thread == w.thread
    case Mentions => v.row.extras.mentions == w.row.extras.mentions
    case Reactions => v.row.extras.reactions == w.row.extras.reactions
    case Files => v.row.extras.files == w.row.extras.files
    case Links => v.row.extras.links == w.row.extras.links
    case Pinned => v.pinned == w.pinned
  }

  lemma AllParts(v: View, w: View)
    requires v.row.seqNo == w.row.seqNo && forall p: Part :: SamePart(p, v, w)
    ensures v == w
  {
    assert SamePart(Text, v, w) && SamePart(Thread, v, w) && SamePart(Mentions, v, w) && SamePart(Reactions, v, w);
    assert SamePart(Files, v, w) && SamePart(Links, v, w) && SamePart(Pinned, v, w);
    assert v.row == v.row.(seqNo := 0, extras := NO_EXTRAS).(seqNo := v.row.seqNo, extras := v.row.extras);
    assert w.row == w.row.(seqNo := 0, extras := NO_EXTRAS).(seqNo := w.row.seqNo, extras := w.row.extras);
  }

  /** A held copy with one part changed, at the event's seq. */
  function Patched(held: View, p: Part, source: View, s: nat): View {
    var row, extras := held.row.(seqNo := s), held.row.extras;
    match p
    case Text => held.(row := source.row.(seqNo := s, extras := extras))
    case Thread => held.(row := row, thread := source.thread)
    case Mentions => held.(row := row.(extras := extras.(mentions := source.row.extras.mentions)))
    case Reactions => held.(row := row.(extras := extras.(reactions := source.row.extras.reactions)))
    case Files => held.(row := row.(extras := extras.(files := source.row.extras.files)))
    case Links => held.(row := row.(extras := extras.(links := source.row.extras.links)))
    case Pinned => held.(row := row, pinned := source.pinned)
  }

  lemma PatchedParts(held: View, p: Part, source: View, s: nat, other: Part)
    ensures SamePart(other, Patched(held, p, source, s), if other == p then source else held)
    ensures Patched(held, p, source, s).row.seqNo == s
  {
  }

  // ---- Versions -------------------------------------------------------------------

  ghost predicate IsStamp(log: Log, id: Id, r: nat) {
    1 <= r <= |log.stamps| && log.stamps[r - 1] == id
  }

  /** Of the first n positions, the last that went to the row. */
  ghost predicate LastUpTo(log: Log, n: nat, id: Id, q: nat) {
    1 <= q <= n <= |log.stamps| && log.stamps[q - 1] == id && forall k :: q <= k < n ==> log.stamps[k] != id
  }

  /** versions[p - 1] is the row that position p went to, as the transaction
      left it. */
  ghost predicate VersionsOk(log: Log, versions: seq<View>) {
    && |versions| == |log.stamps|
    && forall id :: id in log.rows ==> VersionAt(log, versions, id)
  }

  ghost predicate VersionAt(log: Log, versions: seq<View>, id: Id)
    requires id in log.rows
  {
    var p := log.rows[id].seqNo;
    1 <= p <= |versions| && versions[p - 1] == ViewOf(log, id)
  }

  /** The versions once a transaction has committed. */
  ghost predicate NewVersions(before: seq<View>, log: Log, after: seq<View>) {
    && before <= after && |after| == |log.stamps|
    && forall k :: |before| <= k < |after| && log.stamps[k] in log.rows ==> after[k] == ViewOf(log, log.stamps[k])
  }

  /** The part is as one of the row's versions has it, from the copy's own on. */
  ghost predicate PartFrom(log: Log, versions: seq<View>, id: Id, v: View, p: Part, r: nat) {
    v.row.seqNo <= r <= |versions| && IsStamp(log, id, r) && SamePart(p, v, versions[r - 1])
  }

  ghost predicate PartOk(log: Log, versions: seq<View>, id: Id, v: View, p: Part) {
    exists r: nat :: PartFrom(log, versions, id, v, p, r)
  }

  /** A copy that so many reads have filled in. */
  ghost predicate CopyOk(log: Log, versions: seq<View>, id: Id, v: View, done: nat) {
    && IsStamp(log, id, v.row.seqNo)
    && forall p: Part :: ReadIn(p) <= done ==> PartOk(log, versions, id, v, p)
  }

  /** A whole copy at its row's seq is the row. */
  lemma CopyIsExact(log: Log, versions: seq<View>, id: Id, v: View)
    requires StampsOk(log) && VersionsOk(log, versions) && id in log.rows
    requires CopyOk(log, versions, id, v, READS) && v.row.seqNo == log.rows[id].seqNo
    ensures v == ViewOf(log, id)
  {
    hide SamePart;
    assert LastStamp(log, id, log.rows[id].seqNo);
    assert VersionAt(log, versions, id);
    forall p: Part ensures SamePart(p, v, ViewOf(log, id)) {
      assert ReadIn(p) <= READS;
      assert PartOk(log, versions, id, v, p);
      var r: nat :| PartFrom(log, versions, id, v, p, r);
      assert r == log.rows[id].seqNo;
    }
    AllParts(v, ViewOf(log, id));
  }

  lemma StampOrder(log: Log, id: Id, r: nat)
    requires StampsOk(log) && id in log.rows && IsStamp(log, id, r)
    ensures r <= log.rows[id].seqNo && IsStamp(log, id, log.rows[id].seqNo)
  {
    assert LastStamp(log, id, log.rows[id].seqNo);
  }

  lemma CopyLater(before: Log, after: Log, earlier: seq<View>, later: seq<View>, id: Id, v: View, done: nat)
    requires before.stamps <= after.stamps && earlier <= later && |earlier| == |before.stamps|
    requires CopyOk(before, earlier, id, v, done)
    ensures CopyOk(after, later, id, v, done)
  {
    hide SamePart, ReadIn;
    forall p: Part | ReadIn(p) <= done ensures PartOk(after, later, id, v, p) {
      assert PartOk(before, earlier, id, v, p);
      var r: nat :| PartFrom(before, earlier, id, v, p, r);
      assert PartFrom(after, later, id, v, p, r);
    }
  }

  lemma BareOk(log: Log, versions: seq<View>, id: Id)
    requires StampsOk(log) && VersionsOk(log, versions) && id in log.rows
    ensures CopyOk(log, versions, id, Bare(log, id), 0)
  {
    assert LastStamp(log, id, log.rows[id].seqNo);
    assert VersionAt(log, versions, id);
    forall p: Part | ReadIn(p) <= 0 ensures PartOk(log, versions, id, Bare(log, id), p) {
      assert PartFrom(log, versions, id, Bare(log, id), p, log.rows[id].seqNo);
    }
  }

  lemma FillOk(log: Log, versions: seq<View>, id: Id, v: View, k: nat)
    requires StampsOk(log) && VersionsOk(log, versions) && id in log.rows
    requires CopyOk(log, versions, id, v, k) && k < READS
    ensures CopyOk(log, versions, id, Fill(log, id, v, k), k + 1)
  {
    hide PartOk;
    var filled := Fill(log, id, v, k);
    FillKeepsSeq(log, id, v, k);
    forall p: Part | ReadIn(p) <= k + 1 ensures PartOk(log, versions, id, filled, p) {
      if ReadIn(p) == k + 1 {
        FilledPart(log, versions, id, v, k, p);
      } else {
        assert PartOk(log, versions, id, v, p);
        OtherReads(log, id, v, k, p);
        SourcePart(log, versions, id, filled, v, p);
      }
    }
  }

  lemma OtherReads(log: Log, id: Id, v: View, k: nat, p: Part)
    requires k < READS && ReadIn(p) <= k
    ensures SamePart(p, Fill(log, id, v, k), v)
  {
  }

  lemma FilledPart(log: Log, versions: seq<View>, id: Id, v: View, k: nat, p: Part)
    requires StampsOk(log) && VersionsOk(log, versions) && id in log.rows
    requires IsStamp(log, id, v.row.seqNo) && k < READS && ReadIn(p) == k + 1
    ensures PartOk(log, versions, id, Fill(log, id, v, k), p)
  {
    StampOrder(log, id, v.row.seqNo);
    assert VersionAt(log, versions, id);
    assert PartFrom(log, versions, id, Fill(log, id, v, k), p, log.rows[id].seqNo);
  }

  /** Position s changed nothing of the row but the one part. */
  ghost predicate OnlyPart(log: Log, versions: seq<View>, id: Id, s: nat, p: Part) {
    && IsStamp(log, id, s) && |versions| == |log.stamps|
    && forall q: nat :: LastBefore(log, s, id, q) ==> OthersSame(p, versions[q - 1], versions[s - 1])
  }

  ghost predicate LastBefore(log: Log, s: nat, id: Id, q: nat) {
    s > 0 && LastUpTo(log, s - 1, id, q)
  }

  ghost predicate OthersSame(p: Part, v: View, w: View) {
    forall other: Part :: other != p ==> SamePart(other, v, w)
  }

  /** Such a change patched onto a copy that was whole just before it leaves a
      whole copy. */
  lemma PatchOk(log: Log, versions: seq<View>, id: Id, v: View, q: nat, p: Part, source: View, s: nat)
    requires CopyOk(log, versions, id, v, READS) && v.row.seqNo == q && LastBefore(log, s, id, q)
    requires OnlyPart(log, versions, id, s, p) && source.row.seqNo == s && PartOk(log, versions, id, source, p)
    ensures CopyOk(log, versions, id, Patched(v, p, source, s), READS)
  {
    hide ReadIn, SamePart, Patched, PartOk;
    var copy := Patched(v, p, source, s);
    PatchedParts(v, p, source, s, p);
    forall other: Part | ReadIn(other) <= READS ensures PartOk(log, versions, id, copy, other) {
      PatchedParts(v, p, source, s, other);
      if other == p {
        SourcePart(log, versions, id, copy, source, p);
      } else {
        OtherPart(log, versions, id, v, q, p, copy, s, other);
      }
    }
  }

  lemma SourcePart(log: Log, versions: seq<View>, id: Id, copy: View, source: View, p: Part)
    requires PartOk(log, versions, id, source, p) && copy.row.seqNo == source.row.seqNo && SamePart(p, copy, source)
    ensures PartOk(log, versions, id, copy, p)
  {
    hide SamePart;
    var r: nat :| PartFrom(log, versions, id, source, p, r);
    SameThrough(p, copy, source, versions[r - 1]);
    assert PartFrom(log, versions, id, copy, p, r);
  }

  lemma OtherPart(log: Log, versions: seq<View>, id: Id, v: View, q: nat, p: Part, copy: View, s: nat, other: Part)
    requires LastBefore(log, s, id, q) && OnlyPart(log, versions, id, s, p) && other != p
    requires PartOk(log, versions, id, v, other) && v.row.seqNo == q
    requires copy.row.seqNo == s && SamePart(other, copy, v)
    ensures PartOk(log, versions, id, copy, other)
  {
    hide SamePart;
    var r: nat :| PartFrom(log, versions, id, v, other, r);
    SameThrough(other, copy, v, versions[r - 1]);
    if r == q {
      assert OthersSame(p, versions[q - 1], versions[s - 1]);
      SameThrough(other, copy, versions[q - 1], versions[s - 1]);
      assert PartFrom(log, versions, id, copy, other, s);
    } else {
      assert r - 1 >= q && log.stamps[r - 1] == id;
      assert PartFrom(log, versions, id, copy, other, r);
    }
  }

  lemma SameThrough(p: Part, a: View, b: View, c: View)
    requires SamePart(p, a, b) && SamePart(p, b, c)
    ensures SamePart(p, a, c)
  {
  }

  // ---- The commits that change one part ---------------------------------------------

  /** The row a call stamps last, and the only part of it that it changes. */
  function OnePart(call: Call): Option<(Id, Part)> {
    match call
    case Send(_, thread, _, _, _) => if thread.Some? then Some((thread.value, Thread)) else None
    case React(id, _) => Some((id, Reactions))
    case Pin(id) => Some((id, Pinned))
    case Unpin(id) => Some((id, Pinned))
    case DeleteReply(_, root, _) => Some((root, Thread))
    case _ => None
  }

  lemma LastStampOnly(log: Log, after: Log, earlier: seq<View>, later: seq<View>, x: Id, p: Part)
    requires StampsOk(log) && VersionsOk(log, earlier) && NewVersions(earlier, after, later)
    requires log.stamps <= after.stamps && |after.stamps| == after.seqNo > |log.stamps| && IsStamp(after, x, after.seqNo)
    requires x in log.rows && x in after.rows && OthersSame(p, ViewOf(log, x), ViewOf(after, x))
    requires forall k :: |log.stamps| <= k < |after.stamps| - 1 ==> after.stamps[k] != x
    ensures OnlyPart(after, later, x, after.seqNo, p)
  {
    hide ViewOf, OthersSame;
    var s := after.seqNo;
    assert LastStamp(log, x, log.rows[x].seqNo) && VersionAt(log, earlier, x);
    forall q: nat | LastBefore(after, s, x, q) ensures OthersSame(p, later[q - 1], later[s - 1]) {
      assert after.stamps[q - 1] == x && log.stamps[log.rows[x].seqNo - 1] == x;
      assert q - 1 < |log.stamps|;
      assert log.stamps[q - 1] == after.stamps[q - 1];
      assert q == log.rows[x].seqNo;
    }
  }

  /** So the event of such a call fits: a reaction, a pin, a reply's summary on
      its root. */
  lemma PatchesFit(log: Log, call: Call, id: Id, earlier: seq<View>, later: seq<View>)
    requires Valid(log) && StillFits(log, call) && log.minted < id && OnePart(call).Some?
    requires Apply(log, call, id).Committed?
    requires VersionsOk(log, earlier) && NewVersions(earlier, Apply(log, call, id).log, later)
    ensures var after, (x, p) := Apply(log, call, id).log, OnePart(call).value; OnlyPart(after, later, x, after.seqNo, p)
  {
    hide VersionsOk, NewVersions, OnlyPart, Apply, ViewOf, OthersSame, IsStamp, Valid, StillFits;
    var after := Apply(log, call, id).log;
    StampsOfValid(log);
    OnePartChanged(log, call, id);
    LastStampOnly(log, after, earlier, later, OnePart(call).value.0, OnePart(call).value.1);
  }

  /** Position after.seqNo went to x, none of the new ones before it did, and it
      changed but one part of x. */
  ghost predicate ChangedLast(log: Log, after: Log, x: Id, p: Part) {
    && log.stamps <= after.stamps && |after.stamps| == after.seqNo > |log.stamps| && IsStamp(after, x, after.seqNo)
    && x in log.rows && x in after.rows && OthersSame(p, ViewOf(log, x), ViewOf(after, x))
    && forall k :: |log.stamps| <= k < |after.stamps| - 1 ==> after.stamps[k] != x
  }

  lemma OnePartChanged(log: Log, call: Call, id: Id)
    requires Valid(log) && StillFits(log, call) && log.minted < id && OnePart(call).Some?
    requires Apply(log, call, id).Committed?
    ensures ChangedLast(log, Apply(log, call, id).log, OnePart(call).value.0, OnePart(call).value.1)
  {
    hide Valid, ChangedLast, StillFits, SendTx, ReactTx, PinTx, UnpinTx, DeleteReplyTx;
    StampsOfValid(log);
    match call {
      case Send(_, _, _, _, _) => SendRootChanged(log, call, id);
      case DeleteReply(at, root, inChannel) => ReplyRootChanged(log, at, root, inChannel);
      case _ => RowChanged(log, call, id);
    }
  }

  lemma RowChanged(log: Log, call: Call, id: Id)
    requires StampsOk(log) && (call.React? || call.Pin? || call.Unpin?) && Apply(log, call, id).Committed?
    ensures ChangedLast(log, Apply(log, call, id).log, OnePart(call).value.0, OnePart(call).value.1)
  {
    hide LastStamp, Toggled, Readable, ViewOf, OthersSame;
    OthersStay(log, call, id);
  }

  lemma OthersStay(log: Log, call: Call, id: Id)
    requires (call.React? || call.Pin? || call.Unpin?) && Apply(log, call, id).Committed?
    ensures var x, p := OnePart(call).value.0, OnePart(call).value.1;
            x in log.rows && x in Apply(log, call, id).log.rows
            && OthersSame(p, ViewOf(log, x), ViewOf(Apply(log, call, id).log, x))
  {
    hide Toggled, Readable;
  }

  lemma SendRootChanged(log: Log, call: Call, id: Id)
    requires Valid(log) && StillFits(log, call) && log.minted < id && call.Send? && call.thread.Some?
    requires SendTx(log, call, id).Committed?
    ensures ChangedLast(log, SendTx(log, call, id).log, call.thread.value, Thread)
  {
    hide NewestShown, Recorded, RootsOk, BlankOk, PinsOk, ThreadsOk, LastStamp;
  }

  lemma ReplyRootChanged(log: Log, id: Id, root: Id, inChannel: bool)
    requires Valid(log) && StillFits(log, DeleteReply(id, root, inChannel))
    requires DeleteReplyTx(log, id, root, inChannel).Committed?
    ensures ChangedLast(log, DeleteReplyTx(log, id, root, inChannel).log, root, Thread)
  {
    hide NewestShown, Recounted, LiveReplies, BlankOk, ThreadsOk, LastStamp, IdsOk, RootsOk;
    RootNotPinned(log, root);
  }

  lemma RootNotPinned(log: Log, root: Id)
    requires PinsOk(log)
    ensures root in log.rows && log.rows[root].deleted ==> root !in log.pins
  {
    assert root in log.pins ==> IsLive(log, root);
  }

  // ---- A client that follows events --------------------------------------------------

  /** A world and, for the proof, its rows' versions, the seqs of the events
      patched onto held copies, and where the log was at the last rows query,
      or where the client was when a catch-up started. */
  datatype Follower = Follower(world: CatchUp.World, versions: seq<View>, patched: set<nat>, readAt: nat)

  function LogOf(f: Follower): Log {
    f.world.channel.log
  }

  function HeldOf(f: Follower): map<Id, View> {
    f.world.client.held
  }

  /** What happens: any move but an event of `CatchUp`'s; an event with the
      whole row, as reloaded after its commit; an event of a commit that changed
      one part of a row, with that part as reloaded. */
  datatype Act = Go(move: Move) | Whole(id: Id, view: View) | Patch(id: Id, s: nat, part: Part, source: View)

  /** An event past the position: kept at a strictly higher seq, and the
      position one on when it is the next. */
  function Arrived(w: CatchUp.World, id: Id, copy: View): CatchUp.World {
    var s, client := copy.row.seqNo, w.client;
    if s <= client.position then w
    else
      var held := if id in client.held && client.held[id].row.seqNo >= s then client.held else client.held[id := copy];
      w.(client := Client(held, if s == client.position + 1 then s else client.position))
  }

  /** A copy of a row, whole as far as so many reads go, or of a row swept
      since. */
  ghost predicate Fits(log: Log, versions: seq<View>, id: Id, v: View, done: nat) {
    IsStamp(log, id, v.row.seqNo) && (id in log.rows ==> CopyOk(log, versions, id, v, done))
  }

  ghost predicate PatchFits(log: Log, versions: seq<View>, id: Id, s: nat, part: Part, source: View) {
    && IsStamp(log, id, s) && source.row.seqNo == s
    && (id in log.rows ==> OnlyPart(log, versions, id, s, part) && PartOk(log, versions, id, source, part))
  }

  ghost predicate Does(f: Follower, act: Act, g: Follower) {
    match act
    case Go(move) =>
      && !move.TakeEvent? && CatchUp.Step(f.world, move, g.world)
      && g.patched == f.patched && NewVersions(f.versions, LogOf(g), g.versions)
      && g.readAt == if move.StartCatchUp? then f.world.client.position
                     else if move.ReadRows? then LogOf(f).seqNo else f.readAt
    case Whole(id, view) =>
      Fits(LogOf(f), f.versions, id, view, READS) && g == f.(world := Arrived(f.world, id, view))
    case Patch(id, s, part, source) =>
      && PatchFits(LogOf(f), f.versions, id, s, part, source)
      && if id !in HeldOf(f) then g == f
         else g == f.(world := Arrived(f.world, id, Patched(HeldOf(f)[id], part, source, s)),
                      patched := if Applies(f, id, s) then f.patched + {s} else f.patched)
  }

  /** The event is past the position and the held copy. */
  predicate Applies(f: Follower, id: Id, s: nat)
    requires id in HeldOf(f)
  {
    s > f.world.client.position && s > HeldOf(f)[id].row.seqNo
  }

  /** An event that moves the position is at a seq that no event has been
      patched onto a copy at. */
  ghost predicate Clean(f: Follower, act: Act, g: Follower) {
    g.world.client.position > f.world.client.position && !act.Go? ==> g.world.client.position !in f.patched
  }

  // ---- What every state keeps ------------------------------------------------------------

  ghost predicate KnownAt(f: Follower, id: Id, q: nat) {
    && id in HeldOf(f) && HeldOf(f)[id].row.seqNo >= q
    && (HeldOf(f)[id].row.seqNo == q ==> CopyOk(LogOf(f), f.versions, id, HeldOf(f)[id], READS))
  }

  /** Of the rows as they were at position n, those at or below p are held, and
      whole unless they are held later. */
  ghost predicate KnownAsOf(f: Follower, p: nat, n: nat) {
    && n <= |LogOf(f).stamps|
    && forall id: Id, q: nat :: id in LogOf(f).rows && LastUpTo(LogOf(f), n, id, q) && q <= p ==> KnownAt(f, id, q)
  }

  ghost predicate HeldOk(f: Follower) {
    forall id :: id in HeldOf(f) ==> HeldAt(f, id)
  }

  ghost predicate HeldAt(f: Follower, id: Id)
    requires id in HeldOf(f)
  {
    var v := HeldOf(f)[id];
    && IsStamp(LogOf(f), id, v.row.seqNo)
    && (id in LogOf(f).rows ==> CopyOk(LogOf(f), f.versions, id, v, READS) || v.row.seqNo in f.patched)
  }

  ghost predicate DraftFits(log: Log, versions: seq<View>, draft: Draft) {
    draft.done <= READS && forall id :: id in draft.views ==> Fits(log, versions, id, draft.views[id], draft.done)
  }

  /** The page has every row that was, when it was read, past since and within
      its reach. */
  ghost predicate CoversAsOf(log: Log, since: nat, upTo: nat, views: map<Id, View>, n: nat) {
    && since <= upTo <= n <= |log.stamps|
    && forall id: Id, q: nat :: id in log.rows && LastUpTo(log, n, id, q) && since < q <= upTo ==>
         id in views && views[id].row.seqNo == q
  }

  ghost predicate AllWithin(log: Log, upTo: nat, n: nat) {
    forall id: Id, q: nat :: id in log.rows && LastUpTo(log, n, id, q) ==> q <= upTo
  }

  ghost predicate FetchFits(f: Follower) {
    match f.world.fetch
    case Idle => true
    case Asking(since) => since <= f.readAt && KnownAsOf(f, since, f.readAt)
    case Asked(since, channelSeq) =>
      since <= f.readAt && KnownAsOf(f, since, f.readAt) && since <= channelSeq <= |LogOf(f).stamps|
    case Filling(since, hasMore, upTo, draft) =>
      && KnownAsOf(f, since, f.readAt) && CoversAsOf(LogOf(f), since, upTo, draft.views, f.readAt)
      && (!hasMore ==> AllWithin(LogOf(f), upTo, f.readAt)) && DraftFits(LogOf(f), f.versions, draft)
  }

  ghost predicate OthersFit(f: Follower) {
    forall k :: 0 <= k < |f.world.others| ==> DraftFits(LogOf(f), f.versions, f.world.others[k])
  }

  ghost predicate FollowOk(f: Follower) {
    && ChannelRuns.Safe(f.world.channel) && VersionsOk(LogOf(f), f.versions)
    && KnownAsOf(f, f.world.client.position, f.world.client.position)
    && HeldOk(f) && FetchFits(f) && OthersFit(f)
  }

  /** What is known as of the client's position is exact. */
  lemma KnownIsExact(f: Follower)
    requires FollowOk(f)
    ensures ExactUpTo(f.world.client, LogOf(f), f.world.client.position)
  {
    hide IdsOk, RootsOk, BlankOk, PinsOk, ThreadsOk, NewestShown, CopyOk, FetchFits, OthersFit, StillFits;
    var log, client := LogOf(f), f.world.client;
    forall id | id in log.rows && log.rows[id].seqNo <= client.position
      ensures id in client.held && client.held[id] == ViewOf(log, id)
    {
      var q := log.rows[id].seqNo;
      RowLast(log, client.position, id);
      assert KnownAt(f, id, q);
      assert HeldAt(f, id);
      StampOrder(log, id, client.held[id].row.seqNo);
      CopyIsExact(log, f.versions, id, client.held[id]);
    }
  }

  lemma RowLast(log: Log, n: nat, id: Id)
    requires StampsOk(log) && id in log.rows && log.rows[id].seqNo <= n <= |log.stamps|
    ensures LastUpTo(log, n, id, log.rows[id].seqNo)
  {
    assert LastStamp(log, id, log.rows[id].seqNo);
  }

  // ---- Held copies only get newer --------------------------------------------------------------

  ghost predicate GrownAt(f: Follower, g: Follower, id: Id)
    requires id in HeldOf(f)
  {
    && id in HeldOf(g)
    && (HeldOf(g)[id] == HeldOf(f)[id]
        || HeldOf(g)[id].row.seqNo > HeldOf(f)[id].row.seqNo
        || (HeldOf(g)[id].row.seqNo >= HeldOf(f)[id].row.seqNo
            && (id in LogOf(f).rows ==> CopyOk(LogOf(f), f.versions, id, HeldOf(g)[id], READS))))
  }

  ghost predicate Grown(f: Follower, g: Follower) {
    && LogOf(g) == LogOf(f) && g.versions == f.versions
    && forall id :: id in HeldOf(f) ==> GrownAt(f, g, id)
  }

  lemma GrownKnows(f: Follower, g: Follower, p: nat, n: nat)
    requires Grown(f, g) && KnownAsOf(f, p, n)
    ensures KnownAsOf(g, p, n)
  {
    hide CopyOk, LastUpTo;
    forall id: Id, q: nat | id in LogOf(g).rows && LastUpTo(LogOf(g), n, id, q) && q <= p ensures KnownAt(g, id, q) {
      assert KnownAt(f, id, q);
      assert GrownAt(f, g, id);
    }
  }

  lemma MergedGrown(f: Follower, g: Follower, draft: Draft)
    requires LogOf(g) == LogOf(f) && g.versions == f.versions && HeldOf(g) == Merged(HeldOf(f), draft.views)
    requires DraftFits(LogOf(f), f.versions, draft) && draft.done == READS
    ensures Grown(f, g)
  {
    hide CopyOk;
    forall id | id in HeldOf(f) ensures GrownAt(f, g, id) {
      assert id in draft.views ==> Fits(LogOf(f), f.versions, id, draft.views[id], READS);
    }
  }

  lemma MergedHeldOk(f: Follower, g: Follower, draft: Draft)
    requires LogOf(g) == LogOf(f) && g.versions == f.versions && HeldOf(g) == Merged(HeldOf(f), draft.views)
    requires DraftFits(LogOf(f), f.versions, draft) && draft.done == READS && HeldOk(f) && g.patched == f.patched
    ensures HeldOk(g)
  {
    hide CopyOk, IsStamp;
    forall id | id in HeldOf(g) ensures HeldAt(g, id) {
      assert id in draft.views ==> Fits(LogOf(f), f.versions, id, draft.views[id], READS);
      assert id in HeldOf(f) ==> HeldAt(f, id);
    }
  }

  lemma {:induction false} LastExists(log: Log, n: nat, id: Id, q: nat) returns (last: nat)
    requires IsStamp(log, id, q) && q <= n <= |log.stamps|
    ensures LastUpTo(log, n, id, last) && q <= last
    decreases n
  {
    if log.stamps[n - 1] == id {
      last := n;
    } else {
      last := LastExists(log, n - 1, id, q);
    }
  }

  /** With a page merged, what was read in its reach is known too. */
  lemma PageKnown(f: Follower, g: Follower, since: nat, upTo: nat, draft: Draft)
    requires LogOf(g) == LogOf(f) && g.versions == f.versions && HeldOf(g) == Merged(HeldOf(f), draft.views)
    requires DraftFits(LogOf(f), f.versions, draft) && draft.done == READS
    requires KnownAsOf(f, since, f.readAt) && CoversAsOf(LogOf(f), since, upTo, draft.views, f.readAt)
    ensures KnownAsOf(g, upTo, f.readAt)
  {
    hide CopyOk, LastUpTo;
    MergedGrown(f, g, draft);
    GrownKnows(f, g, since, f.readAt);
    forall id: Id, q: nat | id in LogOf(g).rows && LastUpTo(LogOf(g), f.readAt, id, q) && q <= upTo
      ensures KnownAt(g, id, q)
    {
      if q > since {
        assert Fits(LogOf(f), f.versions, id, draft.views[id], READS);
      }
    }
  }

  /** Nothing read past the page's reach: then it is known as of there. */
  lemma KnownWithin(f: Follower, p: nat, n: nat)
    requires KnownAsOf(f, p, n) && p <= n && AllWithin(LogOf(f), p, n)
    ensures KnownAsOf(f, p, p)
  {
    hide KnownAt;
    forall id: Id, q: nat | id in LogOf(f).rows && LastUpTo(LogOf(f), p, id, q) && q <= p ensures KnownAt(f, id, q) {
      var last := LastExists(LogOf(f), n, id, q);
      assert last <= p;
      SameLast(LogOf(f), p, n, id, q, last);
    }
  }

  lemma SameLast(log: Log, p: nat, n: nat, id: Id, q: nat, last: nat)
    requires LastUpTo(log, p, id, q) && LastUpTo(log, n, id, last) && last <= p <= n
    ensures last == q
  {
    assert log.stamps[q - 1] == id && log.stamps[last - 1] == id;
  }

  // ---- The channel moves on ---------------------------------------------------------------------

  lemma RowBefore(before: Log, after: Log, id: Id, q: nat)
    requires IdsOk(before) && Extends(before, after) && id in after.rows && IsStamp(before, id, q)
    ensures id in before.rows
  {
    assert Follows(before, after, id);
  }

  lemma VersionsLater(before: Log, after: Log, earlier: seq<View>, later: seq<View>)
    requires StampsOk(before) && StampsOk(after) && Extends(before, after)
    requires VersionsOk(before, earlier) && NewVersions(earlier, after, later)
    ensures VersionsOk(after, later)
  {
    hide ViewOf;
    forall id | id in after.rows ensures VersionAt(after, later, id) {
      var p := after.rows[id].seqNo;
      assert LastStamp(after, id, p) && Follows(before, after, id);
      if p <= before.seqNo {
        assert VersionAt(before, earlier, id);
      } else {
        assert after.stamps[p - 1] == id;
      }
    }
  }

  /** The log and its versions, later. */
  ghost predicate Onward(before: Log, after: Log, earlier: seq<View>, later: seq<View>) {
    && Core(before) && Extends(before, after)
    && earlier <= later && |earlier| == |before.stamps| && |later| == |after.stamps|
  }

  lemma FitsOnward(before: Log, after: Log, earlier: seq<View>, later: seq<View>, id: Id, v: View, done: nat)
    requires Onward(before, after, earlier, later) && Fits(before, earlier, id, v, done)
    ensures Fits(after, later, id, v, done)
  {
    hide CopyOk, Follows, StampsOk, RootsOk, BlankOk, PinsOk;
    if id in after.rows {
      RowBefore(before, after, id, v.row.seqNo);
      CopyLater(before, after, earlier, later, id, v, done);
    }
  }

  lemma DraftOnward(before: Log, after: Log, earlier: seq<View>, later: seq<View>, draft: Draft)
    requires Onward(before, after, earlier, later) && DraftFits(before, earlier, draft)
    ensures DraftFits(after, later, draft)
  {
    hide Onward, Fits;
    forall id | id in draft.views ensures Fits(after, later, id, draft.views[id], draft.done) {
      FitsOnward(before, after, earlier, later, id, draft.views[id], draft.done);
    }
  }

  lemma LastOnward(before: Log, after: Log, n: nat, id: Id, q: nat)
    requires Core(before) && Extends(before, after) && n <= |before.stamps|
    requires id in after.rows && LastUpTo(after, n, id, q)
    ensures id in before.rows && LastUpTo(before, n, id, q)
  {
    hide Follows, StampsOk, RootsOk, BlankOk, PinsOk;
    RowBefore(before, after, id, q);
  }

  lemma KnownOnward(f: Follower, g: Follower, p: nat, n: nat)
    requires Onward(LogOf(f), LogOf(g), f.versions, g.versions) && HeldOf(g) == HeldOf(f) && KnownAsOf(f, p, n)
    ensures KnownAsOf(g, p, n)
  {
    hide CopyOk, Core, LastUpTo, Follows;
    forall id: Id, q: nat | id in LogOf(g).rows && LastUpTo(LogOf(g), n, id, q) && q <= p ensures KnownAt(g, id, q) {
      LastOnward(LogOf(f), LogOf(g), n, id, q);
      assert KnownAt(f, id, q);
      if HeldOf(f)[id].row.seqNo == q {
        CopyLater(LogOf(f), LogOf(g), f.versions, g.versions, id, HeldOf(f)[id], READS);
      }
    }
  }

  lemma HeldOnward(f: Follower, g: Follower)
    requires Onward(LogOf(f), LogOf(g), f.versions, g.versions) && HeldOf(g) == HeldOf(f) && g.patched == f.patched
    requires HeldOk(f)
    ensures HeldOk(g)
  {
    hide CopyOk, Follows, StampsOk, RootsOk, BlankOk, PinsOk;
    forall id | id in HeldOf(g) ensures HeldAt(g, id) {
      var v := HeldOf(f)[id];
      assert HeldAt(f, id);
      if id in LogOf(g).rows {
        RowBefore(LogOf(f), LogOf(g), id, v.row.seqNo);
        if CopyOk(LogOf(f), f.versions, id, v, READS) {
          CopyLater(LogOf(f), LogOf(g), f.versions, g.versions, id, v, READS);
        }
      }
    }
  }

  lemma PageOnward(before: Log, after: Log, since: nat, upTo: nat, views: map<Id, View>, n: nat, whole: bool)
    requires Core(before) && Extends(before, after)
    requires CoversAsOf(before, since, upTo, views, n) && (whole ==> AllWithin(before, upTo, n))
    ensures CoversAsOf(after, since, upTo, views, n) && (whole ==> AllWithin(after, upTo, n))
  {
    hide Core, LastUpTo, Follows;
    forall id: Id, q: nat | id in after.rows && LastUpTo(after, n, id, q)
      ensures id in before.rows && LastUpTo(before, n, id, q)
    {
      LastOnward(before, after, n, id, q);
    }
  }

  lemma FetchOnward(f: Follower, g: Follower)
    requires Onward(LogOf(f), LogOf(g), f.versions, g.versions) && HeldOf(g) == HeldOf(f)
    requires g.world.fetch == f.world.fetch && g.readAt == f.readAt && FetchFits(f)
    ensures FetchFits(g)
  {
    hide KnownAsOf, CoversAsOf, AllWithin, DraftFits, Core, Follows;
    match f.world.fetch {
      case Idle =>
      case Asking(since) => KnownOnward(f, g, since, f.readAt);
      case Asked(since, _) => KnownOnward(f, g, since, f.readAt);
      case Filling(since, hasMore, upTo, draft) =>
        KnownOnward(f, g, since, f.readAt);
        PageOnward(LogOf(f), LogOf(g), since, upTo, draft.views, f.readAt, !hasMore);
        DraftOnward(LogOf(f), LogOf(g), f.versions, g.versions, draft);
    }
  }

  lemma FollowChannel(f: Follower, event: ChannelRuns.Event, g: Follower)
    requires FollowOk(f) && Does(f, Go(Channel(event)), g)
    ensures FollowOk(g)
  {
    hide Valid, Extends, KnownAsOf, HeldOk, FetchFits, DraftFits, ChannelRuns.Next, VersionsOk, Onward, StillFits;
    var before, after := LogOf(f), LogOf(g);
    NextIsSafe(f.world.channel, event, g.world.channel);
    StampsOfValid(before);
    StampsOfValid(after);
    VersionsLater(before, after, f.versions, g.versions);
    IsOnward(before, after, f.versions, g.versions);
    KnownOnward(f, g, f.world.client.position, f.world.client.position);
    HeldOnward(f, g);
    FetchOnward(f, g);
    forall k | 0 <= k < |g.world.others| ensures DraftFits(after, g.versions, g.world.others[k]) {
      DraftOnward(before, after, f.versions, g.versions, f.world.others[k]);
    }
  }

  lemma IsOnward(before: Log, after: Log, earlier: seq<View>, later: seq<View>)
    requires Valid(before) && Extends(before, after) && VersionsOk(before, earlier) && NewVersions(earlier, after, later)
    ensures Onward(before, after, earlier, later)
  {
  }

  // ---- Reads and answers ----------------------------------------------------------------------------

  lemma RowsReadFit(log: Log, versions: seq<View>, ids: set<Id>)
    requires StampsOk(log) && VersionsOk(log, versions)
    ensures DraftFits(log, versions, RowsRead(log, ids))
  {
    hide CopyOk, Bare, StampsOk, VersionsOk;
    var draft := RowsRead(log, ids);
    forall id | id in draft.views ensures Fits(log, versions, id, draft.views[id], 0) {
      BareOk(log, versions, id);
      assert CopyOk(log, versions, id, Bare(log, id), 0);
      CopyStamped(log, versions, id, Bare(log, id), 0);
    }
  }

  lemma CopyStamped(log: Log, versions: seq<View>, id: Id, v: View, done: nat)
    requires CopyOk(log, versions, id, v, done)
    ensures IsStamp(log, id, v.row.seqNo)
  {
  }

  lemma FilledFit(log: Log, versions: seq<View>, draft: Draft)
    requires StampsOk(log) && VersionsOk(log, versions) && DraftFits(log, versions, draft) && draft.done < READS
    ensures DraftFits(log, versions, Filled(log, draft))
  {
    hide CopyOk, Fill, StampsOk, VersionsOk;
    var filled := Filled(log, draft);
    forall id | id in filled.views ensures Fits(log, versions, id, filled.views[id], filled.done) {
      assert Fits(log, versions, id, draft.views[id], draft.done);
      FillKeepsSeq(log, id, draft.views[id], draft.done);
      if id in log.rows {
        FillOk(log, versions, id, draft.views[id], draft.done);
      }
    }
  }

  lemma FilledKeys(log: Log, since: nat, upTo: nat, draft: Draft, n: nat)
    requires CoversAsOf(log, since, upTo, draft.views, n)
    ensures CoversAsOf(log, since, upTo, Filled(log, draft).views, n)
  {
    hide LastUpTo;
  }

  lemma KnownMore(f: Follower, p: nat, n: nat, m: nat)
    requires KnownAsOf(f, p, n) && p <= n <= m <= |LogOf(f).stamps|
    ensures KnownAsOf(f, p, m)
  {
    hide KnownAt;
    forall id: Id, q: nat | id in LogOf(f).rows && LastUpTo(LogOf(f), m, id, q) && q <= p ensures KnownAt(f, id, q) {
      assert LastUpTo(LogOf(f), n, id, q);
    }
  }

  /** Of all positions, a row's last is its seq. */
  lemma LastIsSeq(log: Log, id: Id, q: nat)
    requires StampsOk(log) && id in log.rows && LastUpTo(log, log.seqNo, id, q)
    ensures q == log.rows[id].seqNo
  {
    assert LastStamp(log, id, log.rows[id].seqNo);
    assert log.stamps[q - 1] == id && log.stamps[log.rows[id].seqNo - 1] == id;
  }

  lemma PageAsOf(log: Log, since: nat, channelSeq: nat, limit: nat)
    requires Valid(log) && limit > 0 && since <= channelSeq <= log.seqNo
    ensures var page := PageRead(log, since, channelSeq, limit);
            && CoversAsOf(log, since, page.upTo, page.draft.views, log.seqNo)
            && (!page.hasMore ==> AllWithin(log, page.upTo, log.seqNo))
  {
    hide Valid, LastUpTo, Covers, PageRead;
    StampsOfValid(log);
    PageCovers(log, since, channelSeq, limit);
    PageIsFilling(log, since, channelSeq, limit);
    var page := PageRead(log, since, channelSeq, limit);
    CoversRows(log, since, page.upTo, page.draft.views);
    forall id: Id, q: nat | id in log.rows && LastUpTo(log, log.seqNo, id, q) ensures q == log.rows[id].seqNo {
      LastIsSeq(log, id, q);
    }
    if !page.hasMore {
      ShortPageReachesAll(log, since, channelSeq, limit);
    }
  }

  lemma CoversRows(log: Log, since: nat, upTo: nat, views: map<Id, View>)
    requires Covers(log, since, upTo, views) && StampsOk(log)
    ensures since <= upTo <= log.seqNo == |log.stamps|
    ensures forall id :: id in log.rows && since < log.rows[id].seqNo <= upTo ==>
      id in views && views[id].row.seqNo == log.rows[id].seqNo
  {
  }

  lemma ShortPageReachesAll(log: Log, since: nat, channelSeq: nat, limit: nat)
    requires Valid(log) && limit > 0 && since <= channelSeq && StampsOk(log)
    ensures var page := PageRead(log, since, channelSeq, limit);
            !page.hasMore ==> forall id :: id in log.rows ==> log.rows[id].seqNo <= page.upTo
  {
    hide Valid, Changes, StampsOk;
    ChangesArePage(log, since, limit);
    var page := Changes(log, since, limit);
    if |page| < limit {
      forall id | id in log.rows && log.rows[id].seqNo > since
        ensures |page| > 0 && log.rows[id].seqNo <= log.rows[page[|page| - 1]].seqNo
      {
        assert Reached(log, since, limit, page, id);
        var k :| 0 <= k < |page| && page[k] == id;
      }
    }
  }

  lemma FetchGrown(f: Follower, g: Follower)
    requires Grown(f, g) && g.world.fetch == f.world.fetch && g.readAt == f.readAt && FetchFits(f)
    ensures FetchFits(g)
  {
    hide Grown, KnownAsOf, CoversAsOf, AllWithin, DraftFits;
    SameLog(f, g);
    match f.world.fetch {
      case Idle =>
      case Asking(since) => GrownKnows(f, g, since, f.readAt);
      case Asked(since, _) => GrownKnows(f, g, since, f.readAt);
      case Filling(since, _, _, _) => GrownKnows(f, g, since, f.readAt);
    }
  }

  lemma SameLog(f: Follower, g: Follower)
    requires Grown(f, g)
    ensures LogOf(g) == LogOf(f) && g.versions == f.versions
  {
  }

  lemma SameVersions(f: Follower, g: Follower)
    requires VersionsOk(LogOf(f), f.versions) && LogOf(g) == LogOf(f) && NewVersions(f.versions, LogOf(g), g.versions)
    ensures g.versions == f.versions
  {
  }

  /** A move of the catch-up that leaves the client and the channel alone. */
  lemma FollowRead(f: Follower, move: Move, g: Follower)
    requires FollowOk(f) && Does(f, Go(move), g)
    requires !move.Channel? && !move.TakePage? && !move.TakeOther?
    ensures FollowOk(g)
  {
    hide KnownAsOf, HeldAt, CoversAsOf, AllWithin, DraftFits, Valid, VersionsOk, NewVersions, RowsRead, Filled, PageRead;
    SameVersions(f, g);
    var log := LogOf(f);
    StampsOfValid(log);
    SameKnown(f, g);
    match move {
      case StartCatchUp =>
      case ReadChannel => KnownBounds(f, f.world.fetch.since, f.readAt);
      case ReadRows(limit) => FollowRows(f, limit, g);
      case FillPage =>
        FilledFit(log, f.versions, f.world.fetch.draft);
        FilledKeys(log, f.world.fetch.since, f.world.fetch.upTo, f.world.fetch.draft, f.readAt);
      case ReadOther(ids) => RowsReadFit(log, f.versions, ids);
      case FillOther(k) =>
        assert DraftFits(log, f.versions, f.world.others[k]);
        FilledFit(log, f.versions, f.world.others[k]);
      case _ =>
    }
  }

  lemma KnownBounds(f: Follower, p: nat, n: nat)
    requires KnownAsOf(f, p, n)
    ensures n <= |LogOf(f).stamps|
  {
  }

  /** What is known depends on the log, its versions and the client alone. */
  lemma SameKnown(f: Follower, g: Follower)
    requires LogOf(g) == LogOf(f) && g.versions == f.versions && g.world.client == f.world.client && g.patched == f.patched
    ensures forall p, n :: KnownAsOf(f, p, n) ==> KnownAsOf(g, p, n)
    ensures HeldOk(f) ==> HeldOk(g)
  {
    hide CopyOk;
    forall p, n | KnownAsOf(f, p, n) ensures KnownAsOf(g, p, n) {
      forall id: Id, q: nat | id in LogOf(g).rows && LastUpTo(LogOf(g), n, id, q) && q <= p ensures KnownAt(g, id, q) {
        assert KnownAt(f, id, q);
      }
    }
    forall id | HeldOk(f) && id in HeldOf(g) ensures HeldAt(g, id) {
      assert HeldAt(f, id);
    }
  }

  lemma FollowRows(f: Follower, limit: nat, g: Follower)
    requires FollowOk(f) && Does(f, Go(ReadRows(limit)), g) && g.versions == f.versions
    ensures FetchFits(g)
  {
    hide KnownAsOf, HeldOk, CoversAsOf, AllWithin, DraftFits, Valid, VersionsOk, NewVersions, RowsRead, Changes;
    var log, since := LogOf(f), f.world.fetch.since;
    StampsOfValid(log);
    StampsAreSeq(log);
    KnownBounds(f, since, f.readAt);
    KnownMore(f, since, f.readAt, log.seqNo);
    SameKnown(f, g);
    PageAsOf(log, since, f.world.fetch.channelSeq, limit);
    RowsReadFit(log, f.versions, set id | id in Changes(log, since, limit));
  }

  lemma StampsAreSeq(log: Log)
    requires StampsOk(log)
    ensures |log.stamps| == log.seqNo
  {
  }

  lemma FollowPage(f: Follower, g: Follower)
    requires FollowOk(f) && Does(f, Go(TakePage), g)
    ensures FollowOk(g)
  {
    hide KnownAsOf, HeldOk, CoversAsOf, AllWithin, DraftFits, Safe, VersionsOk, NewVersions, Merged, Grown;
    SameVersions(f, g);
    var fetch, position := f.world.fetch, f.world.client.position;
    MergedGrown(f, g, fetch.draft);
    MergedHeldOk(f, g, fetch.draft);
    PageKnown(f, g, fetch.since, fetch.upTo, fetch.draft);
    GrownKnows(f, g, position, position);
    CoversBounds(LogOf(f), fetch.since, fetch.upTo, fetch.draft.views, f.readAt);
    if !fetch.hasMore {
      KnownWithin(g, fetch.upTo, f.readAt);
    }
  }

  lemma CoversBounds(log: Log, since: nat, upTo: nat, views: map<Id, View>, n: nat)
    requires CoversAsOf(log, since, upTo, views, n)
    ensures since <= upTo <= n <= |log.stamps|
  {
  }

  lemma FollowOther(f: Follower, k: nat, g: Follower)
    requires FollowOk(f) && Does(f, Go(TakeOther(k)), g)
    ensures FollowOk(g)
  {
    hide KnownAsOf, HeldOk, CoversAsOf, AllWithin, DraftFits, Safe, VersionsOk, NewVersions, Merged, Grown, FetchFits;
    SameVersions(f, g);
    var position := f.world.client.position;
    assert DraftFits(LogOf(f), f.versions, f.world.others[k]);
    MergedGrown(f, g, f.world.others[k]);
    MergedHeldOk(f, g, f.world.others[k]);
    GrownKnows(f, g, position, position);
    FetchGrown(f, g);
  }

  // ---- Events ------------------------------------------------------------------------------------------

  /** The next position is of one row: with that row known there, all is. */
  lemma KnownNext(f: Follower, s: nat, id: Id)
    requires s > 0 && KnownAsOf(f, s - 1, s - 1) && IsStamp(LogOf(f), id, s)
    requires id in LogOf(f).rows ==> KnownAt(f, id, s)
    ensures KnownAsOf(f, s, s)
  {
    hide KnownAt;
    var log := LogOf(f);
    forall x: Id, q: nat | x in log.rows && LastUpTo(log, s, x, q) && q <= s ensures KnownAt(f, x, q) {
      if x == id {
        assert log.stamps[s - 1] == id;
        assert q == s;
      } else {
        assert log.stamps[q - 1] == x;
        assert LastUpTo(log, s - 1, x, q);
      }
    }
  }

  lemma FollowArrival(f: Follower, id: Id, copy: View, g: Follower)
    requires FollowOk(f) && IsStamp(LogOf(f), id, copy.row.seqNo) && f.patched <= g.patched
    requires g == f.(world := Arrived(f.world, id, copy), patched := g.patched)
    requires copy.row.seqNo > f.world.client.position
             && (id in HeldOf(f) ==> copy.row.seqNo > HeldOf(f)[id].row.seqNo) ==>
      (id in LogOf(f).rows ==> CopyOk(LogOf(f), f.versions, id, copy, READS) || copy.row.seqNo in g.patched)
    requires copy.row.seqNo == f.world.client.position + 1 && id in LogOf(f).rows ==>
      || (id in HeldOf(f) && HeldOf(f)[id].row.seqNo > copy.row.seqNo)
      || CopyOk(LogOf(f), f.versions, id, Taken(f, id, copy), READS)
    ensures FollowOk(g)
  {
    hide KnownAsOf, HeldOk, DraftFits, Safe, VersionsOk, FetchFits, Grown, CopyOk;
    var s, position := copy.row.seqNo, f.world.client.position;
    ArrivalGrown(f, id, copy, g);
    ArrivalHeldOk(f, id, copy, g);
    GrownKnows(f, g, position, position);
    FetchGrown(f, g);
    if s == position + 1 {
      KnownNext(g, s, id);
    }
  }

  /** The copy at the event's seq once it has been taken: held first, held
      still. */
  function Taken(f: Follower, id: Id, copy: View): View {
    if id in HeldOf(f) && HeldOf(f)[id].row.seqNo == copy.row.seqNo then HeldOf(f)[id] else copy
  }

  lemma ArrivalGrown(f: Follower, id: Id, copy: View, g: Follower)
    requires g == f.(world := Arrived(f.world, id, copy), patched := g.patched)
    ensures Grown(f, g)
  {
    hide CopyOk;
  }

  lemma ArrivalHeldOk(f: Follower, id: Id, copy: View, g: Follower)
    requires HeldOk(f) && IsStamp(LogOf(f), id, copy.row.seqNo) && f.patched <= g.patched
    requires g == f.(world := Arrived(f.world, id, copy), patched := g.patched)
    requires copy.row.seqNo > f.world.client.position
             && (id in HeldOf(f) ==> copy.row.seqNo > HeldOf(f)[id].row.seqNo) ==>
      (id in LogOf(f).rows ==> CopyOk(LogOf(f), f.versions, id, copy, READS) || copy.row.seqNo in g.patched)
    ensures HeldOk(g)
  {
    hide CopyOk;
    forall x | x in HeldOf(g) ensures HeldAt(g, x) {
      assert x in HeldOf(f) ==> HeldAt(f, x);
    }
  }

  lemma FollowWhole(f: Follower, id: Id, view: View, g: Follower)
    requires FollowOk(f) && Does(f, Whole(id, view), g) && Clean(f, Whole(id, view), g)
    ensures FollowOk(g)
  {
    hide KnownAsOf, DraftFits, Safe, VersionsOk, FetchFits, CopyOk;
    if view.row.seqNo > f.world.client.position && id in HeldOf(f) {
      assert HeldAt(f, id);
    }
    if view.row.seqNo <= f.world.client.position {
      assert g == f;
    } else {
      FollowArrival(f, id, view, g);
    }
  }

  /** Patched onto a held copy that is whole just below it, the event's copy is
      whole. */
  lemma NextPatchOk(f: Follower, id: Id, s: nat, part: Part, source: View)
    requires FollowOk(f) && PatchFits(LogOf(f), f.versions, id, s, part, source) && id in HeldOf(f)
    requires id in LogOf(f).rows && s == f.world.client.position + 1 && HeldOf(f)[id].row.seqNo < s
    ensures CopyOk(LogOf(f), f.versions, id, Patched(HeldOf(f)[id], part, source, s), READS)
  {
    hide DraftFits, Safe, VersionsOk, FetchFits, CopyOk, Patched, OnlyPart, PartOk, LastUpTo;
    var log, position, held := LogOf(f), f.world.client.position, HeldOf(f)[id];
    assert HeldAt(f, id);
    var last := LastExists(log, position, id, held.row.seqNo);
    LastWithin(log, position, id, last);
    assert KnownAt(f, id, last);
    PatchOk(log, f.versions, id, held, last, part, source, s);
  }

  lemma LastWithin(log: Log, n: nat, id: Id, q: nat)
    requires LastUpTo(log, n, id, q)
    ensures q <= n && LastBefore(log, n + 1, id, q)
  {
  }

  lemma FollowPatch(f: Follower, id: Id, s: nat, part: Part, source: View, g: Follower)
    requires FollowOk(f) && Does(f, Patch(id, s, part, source), g) && Clean(f, Patch(id, s, part, source), g)
    ensures FollowOk(g)
  {
    hide KnownAsOf, DraftFits, Safe, VersionsOk, FetchFits, CopyOk, Patched, OnlyPart, PartOk;
    if id in HeldOf(f) {
      var copy := Patched(HeldOf(f)[id], part, source, s);
      PatchedParts(HeldOf(f)[id], part, source, s, part);
      assert HeldAt(f, id);
      if s == f.world.client.position + 1 && id in LogOf(f).rows && HeldOf(f)[id].row.seqNo < s {
        NextPatchOk(f, id, s, part, source);
      }
      FollowArrival(f, id, copy, g);
    }
  }

  // ---- Every history ---------------------------------------------------------------------------------------

  const FOLLOW_START := Follower(START, [], {}, 0)

  ghost predicate IsFollowing(fs: seq<Follower>, acts: seq<Act>) {
    && |fs| == |acts| + 1 && fs[0] == FOLLOW_START
    && forall k :: 0 <= k < |acts| ==> Does(fs[k], acts[k], fs[k + 1])
  }

  ghost predicate AllClean(fs: seq<Follower>, acts: seq<Act>, k: nat)
    requires k <= |acts| && k < |fs|
  {
    forall j :: 0 <= j < k ==> Clean(fs[j], acts[j], fs[j + 1])
  }

  lemma FollowStep(f: Follower, act: Act, g: Follower)
    requires FollowOk(f) && Does(f, act, g) && Clean(f, act, g)
    ensures FollowOk(g)
  {
    hide FollowOk, Does, Clean;
    match act {
      case Whole(id, view) => FollowWhole(f, id, view, g);
      case Patch(id, s, part, source) => FollowPatch(f, id, s, part, source, g);
      case Go(move) =>
        match move {
          case Channel(event) => FollowChannel(f, event, g);
          case TakePage => FollowPage(f, g);
          case TakeOther(k) => FollowOther(f, k, g);
          case TakeEvent(_, _) => NoOtherEvents(f, move, g);
          case _ => FollowRead(f, move, g);
        }
    }
  }

  lemma NoOtherEvents(f: Follower, move: Move, g: Follower)
    requires Does(f, Go(move), g)
    ensures !move.TakeEvent?
  {
  }

  lemma FollowStarts()
    ensures FollowOk(FOLLOW_START)
  {
    hide Valid;
    EmptyIsValid();
  }

  /** The client's position, moved by pages and by events, is one it is exact
      up to: in every history in which no event moves it at a seq that another
      event was patched onto a held copy at. */
  lemma {:induction false} EventsConverge(fs: seq<Follower>, acts: seq<Act>, k: nat)
    requires IsFollowing(fs, acts) && k < |fs| && AllClean(fs, acts, k)
    ensures FollowOk(fs[k])
    ensures ExactUpTo(fs[k].world.client, LogOf(fs[k]), fs[k].world.client.position)
  {
    hide Does, FollowOk, ExactUpTo, Clean;
    if k == 0 {
      FollowStarts();
    } else {
      EventsConverge(fs, acts, k - 1);
      FollowStep(fs[k - 1], acts[k - 1], fs[k]);
    }
    KnownIsExact(fs[k]);
  }

  // ---- A late reload ----------------------------------------------------------------------------------------

  lemma {:induction false} FollowOn(fs: seq<Follower>, acts: seq<Act>, act: Act, g: Follower)
      returns (longer: seq<Follower>, more: seq<Act>)
    requires IsFollowing(fs, acts) && |fs| == |acts| + 1 && Does(fs[|acts|], act, g)
    ensures longer == fs + [g] && more == acts + [act]
    ensures IsFollowing(longer, more) && |longer| == |more| + 1 && longer[|more|] == g
  {
    hide Does;
    longer, more := fs + [g], acts + [act];
    forall k | 0 <= k < |more| ensures Does(longer[k], more[k], longer[k + 1]) {
      if k < |acts| {
        assert longer[k] == fs[k] && longer[k + 1] == fs[k + 1] && more[k] == acts[k];
      }
    }
  }

  /** A call admitted and committed with nothing in between. */
  lemma CommitOn(fs: seq<Follower>, acts: seq<Act>, call: Call, id: Id, log: Log, versions: seq<View>)
      returns (longer: seq<Follower>, more: seq<Act>)
    requires IsFollowing(fs, acts) && |fs| == |acts| + 1 && fs[|acts|].world.channel.pending == {}
    requires Admits(LogOf(fs[|acts|]), call) && LogOf(fs[|acts|]).minted < id
    requires Apply(LogOf(fs[|acts|]), call, id) == Committed(log) && NewVersions(fs[|acts|].versions, log, versions)
    requires |fs[|acts|].versions| == |LogOf(fs[|acts|]).stamps|
    ensures IsFollowing(longer, more) && |longer| == |more| + 1
    ensures var f := fs[|acts|];
            longer[|more|] == f.(world := f.world.(channel := ChannelRuns.World.World(log, {})), versions := versions)
  {
    hide IsFollowing, Admits, Apply;
    var f := fs[|acts|];
    var checked := f.(world := f.world.(channel := ChannelRuns.World.World(LogOf(f), {call})));
    longer, more := FollowOn(fs, acts, Go(Channel(Check(call))), checked);
    var run := f.(world := f.world.(channel := ChannelRuns.World.World(log, {})), versions := versions);
    longer, more := FollowOn(longer, more, Go(Channel(Run(call, id))), run);
  }

  const SENT := ViewOf(ONE_MESSAGE, 1)
  const AS_EDITED := ViewOf(EDITED, 1)
  const AS_REACTED := ViewOf(REACTED, 1)

  /** A world of the one message, and of a client that holds a copy of it. */
  function With(log: Log, held: map<Id, View>, position: nat, fetch: Fetch): CatchUp.World {
    CatchUp.World.World(ChannelRuns.World.World(log, {}), Client(held, position), fetch, [])
  }

  /** The message is sent and its event brings it: the client is at 1. */
  lemma SentHistory() returns (fs: seq<Follower>, acts: seq<Act>)
    ensures IsFollowing(fs, acts) && |fs| == |acts| + 1
    ensures fs[|acts|] == Follower(With(ONE_MESSAGE, map[1 := SENT], 1, Idle), [SENT], {}, 0)
  {
    hide CopyOk;
    fs, acts := [FOLLOW_START], [];
    var send := Send(AUTHOR, None, false, GREETING, NO_EXTRAS);
    assert Apply(EMPTY_LOG, send, 1) == Committed(ONE_MESSAGE);
    fs, acts := CommitOn(fs, acts, send, 1, ONE_MESSAGE, [SENT]);
    WholeCopy(ONE_MESSAGE, [SENT], 1);
    fs, acts := FollowOn(fs, acts, Whole(1, SENT), Follower(With(ONE_MESSAGE, map[1 := SENT], 1, Idle), [SENT], {}, 0));
  }

  /** A row's own version is a whole copy of it. */
  lemma WholeCopy(log: Log, versions: seq<View>, id: Id)
    requires VersionsOk(log, versions) && id in log.rows && IsStamp(log, id, log.rows[id].seqNo)
    ensures CopyOk(log, versions, id, ViewOf(log, id), READS)
  {
    hide SamePart;
    assert VersionAt(log, versions, id);
    var v := ViewOf(log, id);
    forall p: Part ensures PartOk(log, versions, id, v, p) {
      SameItself(p, v);
      assert PartFrom(log, versions, id, v, p, v.row.seqNo);
    }
  }

  lemma SameItself(p: Part, v: View)
    ensures SamePart(p, v, v)
  {
  }

  /** A catch-up reads the channel's seq and its page after an edit, and a
      reaction is committed while it is on its way. */
  lemma PageOnItsWay() returns (fs: seq<Follower>, acts: seq<Act>)
    ensures IsFollowing(fs, acts) && |fs| == |acts| + 1
    ensures fs[|acts|] == Follower(
      With(REACTED, map[1 := SENT], 1, Filling(1, false, 2, Draft(map[1 := Bare(EDITED, 1)], 0))),
      [SENT, AS_EDITED, AS_REACTED], {}, 2)
  {
    hide IsFollowing, CopyOk, PageRead;
    var held := map[1 := SENT];
    fs, acts := SentHistory();
    fs, acts := FollowOn(fs, acts, Go(StartCatchUp), Follower(With(ONE_MESSAGE, held, 1, Asking(1)), [SENT], {}, 1));
    assert Apply(ONE_MESSAGE, EDIT, 2) == Committed(EDITED);
    fs, acts := CommitOn(fs, acts, EDIT, 2, EDITED, [SENT, AS_EDITED]);
    fs, acts := FollowOn(fs, acts, Go(ReadChannel),
                         Follower(With(EDITED, held, 1, CatchUp.Asked(1, 2)), [SENT, AS_EDITED], {}, 1));
    OneRowPage(EDITED, 1);
    var page := PageRead(EDITED, 1, 2, DEFAULT_PAGE);
    fs, acts := FollowOn(fs, acts, Go(ReadRows(DEFAULT_PAGE)),
                         Follower(With(EDITED, held, 1, page), [SENT, AS_EDITED], {}, 2));
    assert Toggled([], THUMB) == [THUMB];
    assert Apply(EDITED, React(1, THUMB), 2) == Committed(REACTED);
    fs, acts := CommitOn(fs, acts, React(1, THUMB), 2, REACTED, [SENT, AS_EDITED, AS_REACTED]);
  }

  /** The page, some of its reads made, and the reaction's event patched onto
      the copy that missed the edit. */
  ghost predicate PatchedMeanwhile(f: Follower, done: nat) {
    && f.versions == [SENT, AS_EDITED, AS_REACTED] && f.patched == {3} && f.world.others == []
    && f.world.channel == ChannelRuns.World.World(REACTED, {}) && f.world.client == Client(map[1 := PATCHED], 1)
    && f.world.fetch.Filling? && !f.world.fetch.hasMore && f.world.fetch.upTo == 2 && f.world.fetch.draft.done == done
    && f.world.fetch.draft.views.Keys == {1} && f.world.fetch.draft.views[1].row.seqNo == 2
  }

  lemma ReactionFits()
    ensures PatchFits(REACTED, [SENT, AS_EDITED, AS_REACTED], 1, 3, Reactions, AS_REACTED)
    ensures Patched(SENT, Reactions, AS_REACTED, 3) == PATCHED
  {
    var versions := [SENT, AS_EDITED, AS_REACTED];
    assert PartFrom(REACTED, versions, 1, AS_REACTED, Reactions, 3);
    forall q: nat | LastBefore(REACTED, 3, 1, q) ensures OthersSame(Reactions, versions[q - 1], versions[2]) {
      assert REACTED.stamps[1] == 1;
      assert q == 2;
    }
  }

  lemma {:induction false} FillRest(fs: seq<Follower>, acts: seq<Act>, done: nat)
      returns (longer: seq<Follower>, more: seq<Act>)
    requires IsFollowing(fs, acts) && |fs| == |acts| + 1 && PatchedMeanwhile(fs[|acts|], done) && done <= READS
    ensures IsFollowing(longer, more) && |longer| == |more| + 1 && PatchedMeanwhile(longer[|more|], READS)
    decreases READS - done
  {
    hide IsFollowing;
    longer, more := fs, acts;
    if done < READS {
      var f := fs[|acts|];
      var filled := f.world.fetch.(draft := Filled(REACTED, f.world.fetch.draft));
      longer, more := FollowOn(fs, acts, Go(FillPage), f.(world := f.world.(fetch := filled)));
      longer, more := FillRest(longer, more, done + 1);
    }
  }

  /** An edit reloads its message after a reaction has been committed, so its
      event comes whole at the reaction's seq. By then the reaction's own event
      has been patched onto a copy without the edit, and a page that read only
      the edit has moved the position to just below: the event takes the
      position on and does not win over the copy. The client is at the channel's
      seq without the edit, and a catch-up asked from there brings nothing. */
  lemma LateReloadLoses() returns (fs: seq<Follower>, acts: seq<Act>)
    ensures IsFollowing(fs, acts) && |fs| == |acts| + 1 && |acts| > 0 && acts[|acts| - 1] == Whole(1, AS_REACTED)
    ensures var f := fs[|acts|];
            && f.world.client.position == LogOf(f).seqNo == 3 && f.world.fetch.Idle?
            && 1 in LogOf(f).rows && LogOf(f).rows[1].content == NEW_TEXT
            && 1 in HeldOf(f) && HeldOf(f)[1].row.content == GREETING
            && !ExactUpTo(f.world.client, LogOf(f), f.world.client.position)
    ensures !Clean(fs[|acts| - 1], acts[|acts| - 1], fs[|acts|])
  {
    hide IsFollowing, CopyOk;
    fs, acts := PageOnItsWay();
    var f := fs[|acts|];
    ReactionFits();
    var patched := f.(world := f.world.(client := Client(map[1 := PATCHED], 1)), patched := {3});
    fs, acts := FollowOn(fs, acts, Patch(1, 3, Reactions, AS_REACTED), patched);
    fs, acts := FillRest(fs, acts, 0);
    f := fs[|acts|];
    var merged := Merged(HeldOf(f), f.world.fetch.draft.views);
    assert merged == map[1 := PATCHED];
    var landed := f.(world := PageLanded(f.world, merged));
    fs, acts := FollowOn(fs, acts, Go(TakePage), landed);
    WholeCopy(REACTED, f.versions, 1);
    var moved := landed.(world := landed.world.(client := Client(map[1 := PATCHED], 3)));
    fs, acts := FollowOn(fs, acts, Whole(1, AS_REACTED), moved);
  }
}
