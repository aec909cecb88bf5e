/** ListChanges, and a client that catches up with it while the channel goes
    on changing. */
module CatchUp {
  import opened Options
  import opened ThreadSummaries
  import opened ChannelLog
  import opened Transactions
  import opened LogSafety
  import opened ChannelRuns
  import Bytes
  import Paging
  import Retention

  const DEFAULT_PAGE: int := 100
  const MAX_PAGE: int := 200

  // ---- The rows query ----------------------------------------------------------------

  function PositionsAfter(log: Log, since: nat): set<nat> {
    set id | id in log.rows && log.rows[id].seqNo > since :: log.rows[id].seqNo
  }

  lemma PositionIs(log: Log, since: nat, p: nat)
    requires StampsOk(log) && p in PositionsAfter(log, since)
    ensures since < p <= |log.stamps| && log.stamps[p - 1] in log.rows && log.rows[log.stamps[p - 1]].seqNo == p
  {
    var id :| id in log.rows && log.rows[id].seqNo > since && log.rows[id].seqNo == p;
    assert LastStamp(log, id, p);
  }

  ghost predicate Holds(log: Log, since: nat, p: nat) {
    since < p <= |log.stamps| && log.stamps[p - 1] in log.rows && log.rows[log.stamps[p - 1]].seqNo == p
  }

  lemma AscendingHold(log: Log, since: nat)
    requires StampsOk(log)
    ensures var all := Ascending(PositionsAfter(log, since));
            && (forall k :: 0 <= k < |all| ==> Holds(log, since, all[k]))
            && (forall id :: id in log.rows && since < log.rows[id].seqNo ==> log.rows[id].seqNo in all)
  {
    hide StampsOk, Ascending;
    var all := Ascending(PositionsAfter(log, since));
    forall k | 0 <= k < |all| ensures Holds(log, since, all[k]) {
      assert all[k] in PositionsAfter(log, since);
      PositionIs(log, since, all[k]);
    }
    forall id | id in log.rows && since < log.rows[id].seqNo ensures log.rows[id].seqNo in all {
      assert log.rows[id].seqNo in PositionsAfter(log, since);
    }
  }

  /** The positions rows hold past since, in order. */
  function RowPositions(log: Log, since: nat): (all: seq<nat>)
    requires StampsOk(log)
    ensures forall k :: 0 <= k < |all| ==> Holds(log, since, all[k])
    ensures forall id :: id in log.rows && since < log.rows[id].seqNo ==> log.rows[id].seqNo in all
    ensures forall j, k :: 0 <= j < k < |all| ==> all[j] < all[k]
  {
    AscendingHold(log, since);
    Ascending(PositionsAfter(log, since))
  }

  function PagePositions(log: Log, since: nat, limit: nat): (positions: seq<nat>)
    requires StampsOk(log)
    ensures forall k :: 0 <= k < |positions| ==> Holds(log, since, positions[k])
  {
    FirstOf(limit, RowPositions(log, since))
  }

  function RowsAt(log: Log, since: nat, positions: seq<nat>): (page: seq<Id>)
    requires forall k :: 0 <= k < |positions| ==> Holds(log, since, positions[k])
    ensures forall k :: 0 <= k < |page| ==> page[k] in log.rows
  {
    var page := seq(|positions|, k requires 0 <= k < |positions| =>
      assert Holds(log, since, positions[k]); log.stamps[positions[k] - 1]);
    assert forall k :: 0 <= k < |page| ==> Holds(log, since, positions[k]) && page[k] == log.stamps[positions[k] - 1];
    page
  }

  /** ListMessageChanges: the rows with a seq above since, in seq order, at
      most limit of them. */
  function Changes(log: Log, since: nat, limit: nat): (page: seq<Id>)
    requires StampsOk(log)
    ensures forall k :: 0 <= k < |page| ==> page[k] in log.rows
  {
    RowsAt(log, since, PagePositions(log, since, limit))
  }

  /** The row is past `since`, and no later than the page reaches: a full page
      reaches its last row, any other reaches the end of the log. */
  ghost predicate Reached(log: Log, since: nat, limit: nat, page: seq<Id>, id: Id)
    requires id in log.rows && forall k :: 0 <= k < |page| ==> page[k] in log.rows
  {
    && since < log.rows[id].seqNo
    && (|page| == limit > 0 ==> log.rows[id].seqNo <= log.rows[page[|page| - 1]].seqNo)
  }

  ghost predicate IsPage(log: Log, since: nat, limit: nat, page: seq<Id>) {
    && |page| <= limit
    && (forall k :: 0 <= k < |page| ==> page[k] in log.rows && since < log.rows[page[k]].seqNo)
    && (forall j, k :: 0 <= j < k < |page| ==> log.rows[page[j]].seqNo < log.rows[page[k]].seqNo)
    && (forall id :: id in log.rows && Reached(log, since, limit, page, id) ==> id in page)
  }

  lemma StampsOfValid(log: Log)
    requires Valid(log)
    ensures StampsOk(log)
  {
  }

  /** A page holds exactly the rows past since that it reaches, in seq order. */
  lemma ChangesArePage(log: Log, since: nat, limit: nat)
    requires Valid(log) && limit > 0
    ensures IsPage(log, since, limit, Changes(log, since, limit))
  {
    hide Core, ThreadsOk, NewestShown, PagePositions, Reached;
    StampsOfValid(log);
    PageRows(log, since, limit);
    var page := Changes(log, since, limit);
    forall id | id in log.rows && Reached(log, since, limit, page, id) ensures id in page {
      PageHas(log, since, limit, id);
    }
  }

  lemma PageRows(log: Log, since: nat, limit: nat)
    requires StampsOk(log)
    ensures var page, positions := Changes(log, since, limit), PagePositions(log, since, limit);
            && |page| == |positions| <= limit
            && (forall k :: 0 <= k < |page| ==> since < log.rows[page[k]].seqNo == positions[k])
            && (forall j, k :: 0 <= j < k < |page| ==> log.rows[page[j]].seqNo < log.rows[page[k]].seqNo)
  {
    hide StampsOk, RowPositions;
    var page, positions := Changes(log, since, limit), PagePositions(log, since, limit);
    forall k | 0 <= k < |page| ensures since < log.rows[page[k]].seqNo == positions[k] {
      assert Holds(log, since, positions[k]);
    }
  }

  lemma PageHas(log: Log, since: nat, limit: nat, id: Id)
    requires StampsOk(log) && limit > 0 && id in log.rows && Reached(log, since, limit, Changes(log, since, limit), id)
    ensures id in Changes(log, since, limit)
  {
    hide StampsOk, RowPositions;
    PageRows(log, since, limit);
    var all, p := RowPositions(log, since), log.rows[id].seqNo;
    var positions, page := PagePositions(log, since, limit), Changes(log, since, limit);
    var k :| 0 <= k < |all| && all[k] == p;
    assert |all| > limit ==> p <= all[limit - 1];
    assert positions[k] == p;
    StampedAt(log, id);
    StampedAt(log, page[k]);
  }

  lemma StampedAt(log: Log, id: Id)
    requires StampsOk(log) && id in log.rows
    ensures 1 <= log.rows[id].seqNo <= |log.stamps| && log.stamps[log.rows[id].seqNo - 1] == id
  {
    assert LastStamp(log, id, log.rows[id].seqNo);
  }

  // ---- Hydration ----------------------------------------------------------------------

  /** hydrateMessages' reads after the rows: mentions, reactions, attachments,
      link previews, pins. */
  const READS: nat := 5

  function ExtrasOf(log: Log, id: Id): Extras {
    if id in log.rows then log.rows[id].extras else NO_EXTRAS
  }

  /** The message with its k-th read filled in from the log as it is then. */
  function Fill(log: Log, id: Id, v: View, k: nat): View {
    var now, extras := ExtrasOf(log, id), v.row.extras;
    match k
    case 0 => v.(row := v.row.(extras := extras.(mentions := now.mentions)))
    case 1 => v.(row := v.row.(extras := extras.(reactions := now.reactions)))
    case 2 => v.(row := v.row.(extras := extras.(files := now.files)))
    case 3 => v.(row := v.row.(extras := extras.(links := now.links)))
    case _ => v.(pinned := id in log.pins)
  }

  /** What of the message has been read after k of the reads. */
  function Known(v: View, k: nat): View {
    var e := v.row.extras;
    View(v.row.(extras := Extras(if k > 0 then e.mentions else {}, if k > 1 then e.reactions else [],
                                 if k > 2 then e.files else [], if k > 3 then e.links else [])),
         v.thread, k > 4 && v.pinned)
  }

  /** The rows query's half of a message: the row and its thread's summary. */
  function Bare(log: Log, id: Id): View
    requires id in log.rows
  {
    Known(ViewOf(log, id), 0)
  }

  /** A copy k reads in: what it says of its row is so, unless the row has been
      stamped since the rows query; then its seq is an older one. */
  ghost predicate Honest(log: Log, id: Id, v: View, k: nat) {
    && id <= log.minted && v.row.seqNo <= log.seqNo
    && (id in log.rows ==>
          && v.row.seqNo <= log.rows[id].seqNo
          && (v.row.seqNo == log.rows[id].seqNo ==> Known(v, k) == Known(ViewOf(log, id), k)))
  }

  lemma HonestLater(before: Log, after: Log, id: Id, v: View, k: nat)
    requires Extends(before, after) && Honest(before, id, v, k)
    ensures Honest(after, id, v, k)
  {
    if id in after.rows {
      assert Follows(before, after, id);
    }
  }

  lemma BareIsHonest(log: Log, id: Id)
    requires Valid(log) && id in log.rows
    ensures Honest(log, id, Bare(log, id), 0)
  {
    hide RootsOk, BlankOk, PinsOk, ThreadsOk, NewestShown;
    assert LastStamp(log, id, log.rows[id].seqNo);
  }

  lemma FillIsHonest(log: Log, id: Id, v: View, k: nat)
    requires Honest(log, id, v, k) && k < READS
    ensures Honest(log, id, Fill(log, id, v, k), k + 1)
  {
  }

  lemma ReadIsWhole(log: Log, id: Id, v: View)
    requires Honest(log, id, v, READS) && id in log.rows && v.row.seqNo == log.rows[id].seqNo
    ensures v == ViewOf(log, id)
  {
  }

  // ---- A client ---------------------------------------------------------------------------

  /** A page on its way: its messages, `done` of the reads made. */
  datatype Draft = Draft(views: map<Id, View>, done: nat)

  datatype Client = Client(held: map<Id, View>, position: nat)

  /** A catch-up: asked from `since`, the client's position at first and then
      each full page's last row's seq. `channelSeq` is read with the channel
      row, before the rows; `upTo` is how far the page reaches. */
  datatype Fetch =
    | Idle
    | Asking(since: nat)
    | Asked(since: nat, channelSeq: nat)
    | Filling(since: nat, hasMore: bool, upTo: nat, draft: Draft)

  /** A channel, a client of it, its catch-up, and the other answers on their
      way to it (pages of its views, answers to its own calls). */
  datatype World = World(channel: ChannelRuns.World, client: Client, fetch: Fetch, others: seq<Draft>)

  /** A whole row from the server replaces a held copy that has no higher seq. */
  function Take(held: map<Id, View>, id: Id, v: View): map<Id, View> {
    if id in held && held[id].row.seqNo > v.row.seqNo then held else held[id := v]
  }

  function Merged(held: map<Id, View>, views: map<Id, View>): map<Id, View> {
    map id | id in held.Keys + views.Keys ::
      if id in views && !(id in held && held[id].row.seqNo > views[id].row.seqNo) then views[id] else held[id]
  }

  function RowsRead(log: Log, ids: set<Id>): Draft {
    Draft(map id | id in ids && id in log.rows :: Bare(log, id), 0)
  }

  function Filled(log: Log, draft: Draft): Draft {
    Draft(map id | id in draft.views :: Fill(log, id, draft.views[id], draft.done), draft.done + 1)
  }

  function MaxSeq(a: nat, b: nat): nat {
    if a < b then b else a
  }

  /** ListChanges' rows query and what the client makes of its size. */
  function PageRead(log: Log, since: nat, channelSeq: nat, limit: nat): Fetch
    requires StampsOk(log)
  {
    var page := Changes(log, since, limit);
    var top := if |page| > 0 then log.rows[page[|page| - 1]].seqNo else since;
    var hasMore := |page| == limit;
    Filling(since, hasMore, if hasMore then top else MaxSeq(channelSeq, top), RowsRead(log, set id | id in page))
  }

  datatype Move =
    | Channel(event: ChannelRuns.Event)
    | StartCatchUp
    | ReadChannel
    | ReadRows(limit: nat)
    | FillPage
    | TakePage
    | GiveUp
    | ReadOther(ids: set<Id>)
    | FillOther(k: nat)
    | TakeOther(k: nat)
    | TakeEvent(id: Id, view: View)

  /** An event carries a position its row was stamped with, and of the row
      perhaps only what changed, over whatever copy the client had. */
  ghost predicate IsEvent(log: Log, id: Id, view: View) {
    exists p :: 0 <= p < |log.stamps| && log.stamps[p] == id && view.row.seqNo == p + 1
  }

  /** The world once a page's rows are merged: the next one asked for, or the
      client's position moved. */
  function PageLanded(w: World, held: map<Id, View>): World
    requires w.fetch.Filling?
  {
    if w.fetch.hasMore then w.(client := w.client.(held := held), fetch := Asking(w.fetch.upTo))
    else w.(client := Client(held, MaxSeq(w.client.position, w.fetch.upTo)), fetch := Idle)
  }

  ghost predicate Step(w: World, move: Move, after: World) {
    var log := w.channel.log;
    match move
    case Channel(event) =>
      ChannelRuns.Next(w.channel, event, after.channel) && after == w.(channel := after.channel)
    case StartCatchUp =>
      w.fetch.Idle? && after == w.(fetch := Asking(w.client.position))
    case ReadChannel =>
      w.fetch.Asking? && after == w.(fetch := Asked(w.fetch.since, log.seqNo))
    case ReadRows(limit) =>
      && w.fetch.Asked? && 0 < limit <= MAX_PAGE && StampsOk(log)
      && after == w.(fetch := PageRead(log, w.fetch.since, w.fetch.channelSeq, limit))
    case FillPage =>
      && w.fetch.Filling? && w.fetch.draft.done < READS
      && after == w.(fetch := w.fetch.(draft := Filled(log, w.fetch.draft)))
    case TakePage =>
      && w.fetch.Filling? && w.fetch.draft.done == READS
      && after == PageLanded(w, Merged(w.client.held, w.fetch.draft.views))
    case GiveUp =>
      after == w.(fetch := Idle)
    case ReadOther(ids) =>
      after == w.(others := w.others + [RowsRead(log, ids)])
    case FillOther(k) =>
      && k < |w.others| && w.others[k].done < READS
      && after == w.(others := w.others[k := Filled(log, w.others[k])])
    case TakeOther(k) =>
      && k < |w.others| && w.others[k].done == READS
      && after == w.(client := w.client.(held := Merged(w.client.held, w.others[k].views)))
    case TakeEvent(id, view) =>
      && IsEvent(log, id, view)
      && after == w.(client := w.client.(held :=
           if id in w.client.held && w.client.held[id].row.seqNo >= view.row.seqNo then w.client.held
           else w.client.held[id := view]))
  }

  // ---- Correct up to a position ---------------------------------------------------------------

  /** For every row at or below p the client holds exactly the server's. */
  ghost predicate ExactUpTo(client: Client, log: Log, p: nat) {
    p <= log.seqNo
    && forall id :: id in log.rows && log.rows[id].seqNo <= p ==> id in client.held && client.held[id] == ViewOf(log, id)
  }

  /** No copy claims a position past its row's. */
  ghost predicate Bounded(held: map<Id, View>, log: Log) {
    forall id :: id in held ==> BoundedAt(held[id], id, log)
  }

  ghost predicate BoundedAt(v: View, id: Id, log: Log) {
    && id <= log.minted && v.row.seqNo <= log.seqNo
    && (id in log.rows ==> v.row.seqNo <= log.rows[id].seqNo)
  }

  ghost predicate HonestDraft(log: Log, draft: Draft) {
    draft.done <= READS && forall id :: id in draft.views ==> Honest(log, id, draft.views[id], draft.done)
  }

  /** The page has every row between since and how far it reaches. */
  ghost predicate Covers(log: Log, since: nat, upTo: nat, views: map<Id, View>) {
    && since <= upTo <= log.seqNo
    && forall id :: id in log.rows && since < log.rows[id].seqNo <= upTo ==>
         id in views && views[id].row.seqNo == log.rows[id].seqNo
  }

  ghost predicate FetchOk(w: World) {
    match w.fetch
    case Idle => true
    case Asking(since) => w.client.position <= since && ExactUpTo(w.client, w.channel.log, since)
    case Asked(since, channelSeq) =>
      w.client.position <= since && ExactUpTo(w.client, w.channel.log, since) && since <= channelSeq <= w.channel.log.seqNo
    case Filling(since, _, upTo, draft) =>
      && w.client.position <= since && ExactUpTo(w.client, w.channel.log, since)
      && Covers(w.channel.log, since, upTo, draft.views) && HonestDraft(w.channel.log, draft)
  }

  ghost predicate Good(w: World) {
    && ChannelRuns.Safe(w.channel)
    && ExactUpTo(w.client, w.channel.log, w.client.position)
    && Bounded(w.client.held, w.channel.log)
    && FetchOk(w)
    && forall k :: 0 <= k < |w.others| ==> HonestDraft(w.channel.log, w.others[k])
  }

  // ---- The channel moves on ---------------------------------------------------------------------

  lemma ExactLater(client: Client, before: Log, after: Log, p: nat)
    requires Extends(before, after) && ExactUpTo(client, before, p)
    ensures ExactUpTo(client, after, p)
  {
    forall id | id in after.rows && after.rows[id].seqNo <= p
      ensures id in client.held && client.held[id] == ViewOf(after, id)
    {
      assert Follows(before, after, id);
    }
  }

  lemma BoundedLater(held: map<Id, View>, before: Log, after: Log)
    requires Extends(before, after) && Bounded(held, before)
    ensures Bounded(held, after)
  {
    forall id | id in held ensures BoundedAt(held[id], id, after) {
      assert BoundedAt(held[id], id, before);
      if id in after.rows {
        assert Follows(before, after, id);
      }
    }
  }

  lemma CoversLater(before: Log, after: Log, since: nat, upTo: nat, views: map<Id, View>)
    requires Extends(before, after) && Covers(before, since, upTo, views)
    ensures Covers(after, since, upTo, views)
  {
    forall id | id in after.rows && since < after.rows[id].seqNo <= upTo
      ensures id in views && views[id].row.seqNo == after.rows[id].seqNo
    {
      assert Follows(before, after, id);
    }
  }

  lemma DraftLater(before: Log, after: Log, draft: Draft)
    requires Extends(before, after) && HonestDraft(before, draft)
    ensures HonestDraft(after, draft)
  {
    forall id | id in draft.views ensures Honest(after, id, draft.views[id], draft.done) {
      HonestLater(before, after, id, draft.views[id], draft.done);
    }
  }

  lemma ChannelMoves(w: World, event: ChannelRuns.Event, after: World)
    requires Good(w) && Step(w, Channel(event), after)
    ensures Good(after)
  {
    hide ChannelRuns.Safe, ChannelRuns.Next, Extends, ExactUpTo, Bounded, Covers, HonestDraft;
    var before, log := w.channel.log, after.channel.log;
    NextIsSafe(w.channel, event, after.channel);
    ExactLater(w.client, before, log, w.client.position);
    BoundedLater(w.client.held, before, log);
    match w.fetch {
      case Idle =>
      case Asking(since) => ExactLater(w.client, before, log, since);
      case Asked(since, _) =>
        ExactLater(w.client, before, log, since);
        SeqGrows(before, log);
      case Filling(since, _, upTo, draft) =>
        ExactLater(w.client, before, log, since);
        CoversLater(before, log, since, upTo, draft.views);
        DraftLater(before, log, draft);
    }
    forall k | 0 <= k < |after.others| ensures HonestDraft(log, after.others[k]) {
      DraftLater(before, log, w.others[k]);
    }
  }

  lemma SeqGrows(before: Log, after: Log)
    requires Extends(before, after)
    ensures before.seqNo <= after.seqNo
  {
  }

  // ---- Reads ------------------------------------------------------------------------------------

  lemma RowsReadHonest(log: Log, ids: set<Id>)
    requires Valid(log)
    ensures HonestDraft(log, RowsRead(log, ids))
  {
    hide Valid, Honest, Bare;
    var draft := RowsRead(log, ids);
    forall id | id in draft.views ensures Honest(log, id, draft.views[id], 0) {
      BareIsHonest(log, id);
    }
  }

  lemma FilledHonest(log: Log, draft: Draft)
    requires HonestDraft(log, draft) && draft.done < READS
    ensures HonestDraft(log, Filled(log, draft))
  {
    hide Honest, Fill;
    var filled := Filled(log, draft);
    forall id | id in filled.views ensures Honest(log, id, filled.views[id], filled.done) {
      FillIsHonest(log, id, draft.views[id], draft.done);
    }
  }

  lemma FilledCovers(log: Log, since: nat, upTo: nat, draft: Draft)
    requires Covers(log, since, upTo, draft.views)
    ensures Covers(log, since, upTo, Filled(log, draft).views)
  {
  }

  /** The page just read covers what lies between where it was asked from and
      how far it reaches. */
  lemma PageCovers(log: Log, since: nat, channelSeq: nat, limit: nat)
    requires Valid(log) && limit > 0 && since <= channelSeq <= log.seqNo
    ensures var page := PageRead(log, since, channelSeq, limit);
            Covers(log, since, page.upTo, page.draft.views) && HonestDraft(log, page.draft)
            && (page.hasMore ==> since < page.upTo)
  {
    hide IdsOk, RootsOk, BlankOk, PinsOk, ThreadsOk, NewestShown, Changes, Honest;
    ChangesArePage(log, since, limit);
    var page, read := Changes(log, since, limit), PageRead(log, since, channelSeq, limit);
    RowsReadHonest(log, set id | id in page);
    if |page| > 0 {
      assert LastStamp(log, page[|page| - 1], log.rows[page[|page| - 1]].seqNo);
    }
    forall id | id in log.rows && since < log.rows[id].seqNo <= read.upTo
      ensures id in read.draft.views && read.draft.views[id].row.seqNo == log.rows[id].seqNo
    {
      assert Reached(log, since, limit, page, id);
    }
  }

  // ---- Merging ------------------------------------------------------------------------------------

  /** Whole rows that are honest never spoil what is exact. */
  lemma MergeKeepsExact(client: Client, log: Log, p: nat, draft: Draft)
    requires ExactUpTo(client, log, p) && HonestDraft(log, draft) && draft.done == READS
    ensures ExactUpTo(client.(held := Merged(client.held, draft.views)), log, p)
  {
    hide Honest;
    var held := Merged(client.held, draft.views);
    forall id | id in log.rows && log.rows[id].seqNo <= p ensures id in held && held[id] == ViewOf(log, id) {
      if id in draft.views && held[id] == draft.views[id] {
        WholeAt(log, id, draft.views[id], client.held[id]);
      }
    }
  }

  lemma WholeAt(log: Log, id: Id, v: View, exact: View)
    requires Honest(log, id, v, READS) && id in log.rows && exact == ViewOf(log, id)
    ensures v.row.seqNo >= exact.row.seqNo ==> v == exact
  {
  }

  lemma MergeKeepsBounded(held: map<Id, View>, log: Log, draft: Draft)
    requires Bounded(held, log) && HonestDraft(log, draft)
    ensures Bounded(Merged(held, draft.views), log)
  {
    var merged := Merged(held, draft.views);
    forall id | id in merged ensures BoundedAt(merged[id], id, log) {
      if id in draft.views {
        assert Honest(log, id, draft.views[id], draft.done);
      }
      if id in held {
        assert BoundedAt(held[id], id, log);
      }
    }
  }

  /** A page in hand makes the client exact as far as the page reaches. */
  lemma PageMakesExact(client: Client, log: Log, since: nat, upTo: nat, draft: Draft)
    requires ExactUpTo(client, log, since) && Bounded(client.held, log)
    requires Covers(log, since, upTo, draft.views) && HonestDraft(log, draft) && draft.done == READS
    ensures ExactUpTo(client.(held := Merged(client.held, draft.views)), log, upTo)
  {
    hide Honest;
    var held := Merged(client.held, draft.views);
    MergeKeepsExact(client, log, since, draft);
    forall id | id in log.rows && log.rows[id].seqNo <= upTo ensures id in held && held[id] == ViewOf(log, id) {
      if log.rows[id].seqNo > since {
        ReadIsWhole(log, id, draft.views[id]);
        if id in client.held {
          assert BoundedAt(client.held[id], id, log);
        }
      }
    }
  }

  lemma ExactLess(client: Client, log: Log, p: nat, q: nat)
    requires ExactUpTo(client, log, p) && q <= p
    ensures ExactUpTo(client, log, q)
  {
  }

  lemma ExactHeld(client: Client, other: Client, log: Log, p: nat)
    requires ExactUpTo(client, log, p) && other.held == client.held
    ensures ExactUpTo(other, log, p)
  {
  }

  lemma PageTaken(w: World, after: World)
    requires Good(w) && Step(w, TakePage, after)
    ensures Good(after)
  {
    hide ChannelRuns.Safe, ExactUpTo, Bounded, Covers, Merged, MaxSeq;
    var log, client, fetch := w.channel.log, w.client, w.fetch;
    PageMakesExact(client, log, fetch.since, fetch.upTo, fetch.draft);
    MergeKeepsBounded(client.held, log, fetch.draft);
    CoversOrder(log, fetch.since, fetch.upTo, fetch.draft.views);
    var merged := client.(held := Merged(client.held, fetch.draft.views));
    ExactLess(merged, log, fetch.upTo, client.position);
    assert MaxSeq(client.position, fetch.upTo) == fetch.upTo by {
      Larger(client.position, fetch.upTo);
    }
    ExactHeld(merged, after.client, log, after.client.position);
    ExactHeld(merged, after.client, log, fetch.upTo);
  }

  lemma Larger(a: nat, b: nat)
    requires a <= b
    ensures MaxSeq(a, b) == b
  {
  }

  lemma CoversOrder(log: Log, since: nat, upTo: nat, views: map<Id, View>)
    requires Covers(log, since, upTo, views)
    ensures since <= upTo <= log.seqNo
  {
  }

  /** An event, however little of its row it carries, spoils nothing exact. */
  lemma EventKeepsExact(client: Client, log: Log, p: nat, id: Id, view: View, held: map<Id, View>)
    requires StampsOk(log) && ExactUpTo(client, log, p) && IsEvent(log, id, view)
    requires held == if id in client.held && client.held[id].row.seqNo >= view.row.seqNo then client.held
                     else client.held[id := view]
    ensures ExactUpTo(client.(held := held), log, p)
  {
    EventIsBounded(log, id, view);
  }

  lemma EventIsBounded(log: Log, id: Id, view: View)
    requires StampsOk(log) && IsEvent(log, id, view)
    ensures view.row.seqNo <= log.seqNo && (id in log.rows ==> view.row.seqNo <= log.rows[id].seqNo)
  {
    if id in log.rows {
      assert LastStamp(log, id, log.rows[id].seqNo);
    }
  }

  lemma EventTaken(w: World, id: Id, view: View, after: World)
    requires Good(w) && Step(w, TakeEvent(id, view), after)
    ensures Good(after)
  {
    hide ExactUpTo, Covers, HonestDraft, RootsOk, BlankOk, PinsOk, ThreadsOk, NewestShown, StillFits;
    var log, client := w.channel.log, w.client;
    EventKeepsExact(client, log, client.position, id, view, after.client.held);
    if !w.fetch.Idle? {
      EventKeepsExact(client, log, w.fetch.since, id, view, after.client.held);
    }
    EventIsBounded(log, id, view);
    forall x | x in after.client.held ensures BoundedAt(after.client.held[x], x, log) {
      if x in client.held {
        assert BoundedAt(client.held[x], x, log);
      }
    }
  }

  // ---- Every step, every run ------------------------------------------------------------------------

  lemma OtherTaken(w: World, k: nat, after: World)
    requires Good(w) && Step(w, TakeOther(k), after)
    ensures Good(after)
  {
    hide ChannelRuns.Safe, ExactUpTo, Bounded, Covers, Merged;
    var log, client := w.channel.log, w.client;
    assert HonestDraft(log, w.others[k]);
    MergeKeepsExact(client, log, client.position, w.others[k]);
    MergeKeepsBounded(client.held, log, w.others[k]);
    if !w.fetch.Idle? {
      MergeKeepsExact(client, log, w.fetch.since, w.others[k]);
    }
  }

  lemma ReadTaken(w: World, move: Move, after: World)
    requires Good(w) && Step(w, move, after) && (move.ReadOther? || move.FillOther? || move.FillPage? || move.ReadRows?)
    ensures Good(after)
  {
    hide ExactUpTo, Bounded, Covers, Core, ThreadsOk, NewestShown, StillFits, RowsRead, Filled, HonestDraft, PageRead;
    var log := w.channel.log;
    match move {
      case ReadOther(ids) =>
        RowsReadHonest(log, ids);
      case FillOther(k) =>
        assert HonestDraft(log, w.others[k]);
        FilledHonest(log, w.others[k]);
      case FillPage =>
        FilledHonest(log, w.fetch.draft);
        FilledCovers(log, w.fetch.since, w.fetch.upTo, w.fetch.draft);
      case ReadRows(limit) =>
        PageCovers(log, w.fetch.since, w.fetch.channelSeq, limit);
        PageIsFilling(log, w.fetch.since, w.fetch.channelSeq, limit);
      case _ =>
    }
  }

  lemma PageIsFilling(log: Log, since: nat, channelSeq: nat, limit: nat)
    requires StampsOk(log)
    ensures var page := PageRead(log, since, channelSeq, limit); page.Filling? && page.since == since
  {
  }

  lemma StepIsGood(w: World, move: Move, after: World)
    requires Good(w) && Step(w, move, after)
    ensures Good(after)
  {
    hide ChannelRuns.Safe, ExactUpTo, Bounded, Covers, HonestDraft;
    match move {
      case Channel(event) => ChannelMoves(w, event, after);
      case ReadChannel => AskedOk(w);
      case TakePage => PageTaken(w, after);
      case TakeOther(k) => OtherTaken(w, k, after);
      case TakeEvent(id, view) => EventTaken(w, id, view, after);
      case ReadRows(_) => ReadTaken(w, move, after);
      case FillPage => ReadTaken(w, move, after);
      case ReadOther(_) => ReadTaken(w, move, after);
      case FillOther(_) => ReadTaken(w, move, after);
      case _ =>
    }
  }

  lemma AskedOk(w: World)
    requires Good(w) && w.fetch.Asking?
    ensures w.fetch.since <= w.channel.log.seqNo
  {
  }

  const START := World.World(ChannelRuns.World.World(EMPTY_LOG, {}), Client(map[], 0), Idle, [])

  ghost predicate IsHistory(worlds: seq<World>, moves: seq<Move>) {
    && |worlds| == |moves| + 1
    && worlds[0] == START
    && forall k :: 0 <= k < |moves| ==> Step(worlds[k], moves[k], worlds[k + 1])
  }

  lemma StartIsGood()
    ensures Good(START)
  {
    hide Valid;
    EmptyIsValid();
  }

  /** Whatever commits between a page's reads, and whatever events and other
      answers arrive in whatever order: at every moment the client holds, for
      every row the server still has at or below the client's position,
      exactly the server's row. */
  lemma {:induction false} CatchUpConverges(worlds: seq<World>, moves: seq<Move>, k: nat)
    requires IsHistory(worlds, moves) && k < |worlds|
    ensures Good(worlds[k])
    ensures ExactUpTo(worlds[k].client, worlds[k].channel.log, worlds[k].client.position)
  {
    hide Step, Bounded, Covers, HonestDraft, Valid, ExactUpTo;
    if k == 0 {
      StartIsGood();
    } else {
      CatchUpConverges(worlds, moves, k - 1);
      StepIsGood(worlds[k - 1], moves[k - 1], worlds[k]);
    }
  }

  // ---- ListChanges ---------------------------------------------------------------------------------------

  /** The moments ListChanges reads at: the channel row, the rows, and each of
      the hydrating reads. */
  const MOMENTS: nat := 2 + READS

  /** The log at each of them, with anything committed in between. */
  ghost predicate Moments(logs: seq<Log>) {
    && |logs| == MOMENTS
    && (forall k :: 0 <= k < MOMENTS ==> Valid(logs[k]))
    && forall k :: 0 <= k < MOMENTS - 1 ==> Extends(logs[k], logs[k + 1])
  }

  datatype Response = Response(messages: seq<(Id, View)>, channelSeq: nat, hasMore: bool, floor: Option<Bytes.Text>)

  /** The page's rows in its order, each with its row as the rows query read it
      and honest after so many reads. */
  ghost predicate Hydrated(rowsLog: Log, log: Log, page: seq<Id>, messages: seq<(Id, View)>, done: nat) {
    && |messages| == |page|
    && forall k :: 0 <= k < |page| ==>
         && messages[k].0 == page[k] && page[k] in rowsLog.rows
         && messages[k].1.row.seqNo == rowsLog.rows[page[k]].seqNo
         && Honest(log, page[k], messages[k].1, done)
  }

  /** How far the client takes an answer to reach. */
  function Reach(res: Response, since: nat): nat {
    var top := if |res.messages| > 0 then res.messages[|res.messages| - 1].1.row.seqNo else since;
    if res.hasMore then top else MaxSeq(res.channelSeq, top)
  }

  function Views(messages: seq<(Id, View)>): map<Id, View> {
    if |messages| == 0 then map[]
    else Views(messages[..|messages| - 1])[messages[|messages| - 1].0 := messages[|messages| - 1].1]
  }

  /** One of hydrateMessages' reads, over every row of the page. */
  method ReadInto(rowsLog: Log, log: Log, page: seq<Id>, messages: seq<(Id, View)>, read: nat)
    returns (filled: seq<(Id, View)>)
    requires read < READS && Hydrated(rowsLog, log, page, messages, read)
    ensures Hydrated(rowsLog, log, page, filled, read + 1)
  {
    hide Honest, Fill;
    filled := [];
    for k := 0 to |messages|
      invariant |filled| == k
      invariant forall j :: 0 <= j < k ==>
        && filled[j].0 == page[j] && filled[j].1.row.seqNo == messages[j].1.row.seqNo
        && Honest(log, page[j], filled[j].1, read + 1)
    {
      var (id, v) := messages[k];
      FillIsHonest(log, id, v, read);
      FillKeepsSeq(log, id, v, read);
      filled := filled + [(id, Fill(log, id, v, read))];
    }
  }

  lemma FillKeepsSeq(log: Log, id: Id, v: View, read: nat)
    ensures Fill(log, id, v, read).row.seqNo == v.row.seqNo
  {
  }

  lemma HydratedLater(rowsLog: Log, before: Log, after: Log, page: seq<Id>, messages: seq<(Id, View)>, done: nat)
    requires Extends(before, after) && Hydrated(rowsLog, before, page, messages, done)
    ensures Hydrated(rowsLog, after, page, messages, done)
  {
    hide Extends, Honest;
    forall k | 0 <= k < |page| ensures Honest(after, page[k], messages[k].1, done) {
      HonestLater(before, after, page[k], messages[k].1, done);
    }
  }

  /** ListMessageChanges' rows, before any of the hydrating reads. */
  method ReadPage(log: Log, since: nat, limit: nat) returns (messages: seq<(Id, View)>)
    requires Valid(log) && limit > 0
    ensures Hydrated(log, log, Changes(log, since, limit), messages, 0)
  {
    hide Changes, Honest, Valid, Bare, ViewOf;
    StampsOfValid(log);
    var page := Changes(log, since, limit);
    messages := [];
    for k := 0 to |page|
      invariant |messages| == k
      invariant forall j :: 0 <= j < k ==>
        && messages[j].0 == page[j] && messages[j].1.row.seqNo == log.rows[page[j]].seqNo
        && Honest(log, page[j], messages[j].1, 0)
    {
      BareIsHonest(log, page[k]);
      BareSeq(log, page[k]);
      messages := messages + [(page[k], Bare(log, page[k]))];
    }
  }

  lemma BareSeq(log: Log, id: Id)
    requires id in log.rows
    ensures Bare(log, id).row.seqNo == log.rows[id].seqNo
  {
  }

  /** Each read finds the log as it is then. The answer is the page of the rows
      query, every message honest, and it covers what lies between `since` and
      how far the client takes it to reach; with nothing committed in between
      every message is exact. `days` is the retention setting, or none. */
  method ListChanges(logs: seq<Log>, since: nat, requested: int, now: int, days: Option<int>) returns (res: Response)
    requires Moments(logs)
    ensures var limit := Paging.ClampPageSize(requested, DEFAULT_PAGE, MAX_PAGE);
            var page := Changes(logs[1], since, limit);
            && Hydrated(logs[1], logs[MOMENTS - 1], page, res.messages, READS)
            && res.channelSeq == logs[0].seqNo && res.hasMore == (|page| == limit)
    ensures since <= logs[0].seqNo ==>
      Covers(logs[MOMENTS - 1], since, Reach(res, since), Views(res.messages))
    ensures forall k :: 0 <= k < |res.messages| && logs[MOMENTS - 1] == logs[1] ==>
      res.messages[k].0 in logs[1].rows && res.messages[k].1 == ViewOf(logs[1], res.messages[k].0)
    ensures res.floor.Some? <==> days.Some? && days.value > 0
    ensures res.floor.Some? && Retention.InRange(now, days.value) ==> res.floor.value == Retention.Floor(now, days.value)
  {
    hide Valid, Changes, Hydrated, Covers, Extends, Reach, Views, ViewOf;
    var limit := Paging.ClampPageSize(requested, DEFAULT_PAGE, MAX_PAGE);
    StampsOfValid(logs[1]);
    var channelSeq := logs[0].seqNo;
    var page := Changes(logs[1], since, limit);
    var messages := ReadPage(logs[1], since, limit);
    for read := 0 to READS
      invariant Hydrated(logs[1], logs[1 + read], page, messages, read)
    {
      HydratedLater(logs[1], logs[1 + read], logs[2 + read], page, messages, read);
      messages := ReadInto(logs[1], logs[2 + read], page, messages, read);
    }
    var floor := Retention.RetentionFloorId(now, days);
    res := Response(messages, channelSeq, |page| == limit, floor);
    if since <= logs[0].seqNo {
      AnswerCovers(logs, since, limit, res);
    }
    if logs[MOMENTS - 1] == logs[1] {
      QuietIsExact(logs[1], page, messages);
    }
  }

  lemma QuietIsExact(log: Log, page: seq<Id>, messages: seq<(Id, View)>)
    requires Hydrated(log, log, page, messages, READS)
    ensures forall k :: 0 <= k < |messages| ==>
      messages[k].0 in log.rows && messages[k].1 == ViewOf(log, messages[k].0)
  {
    hide Honest, ViewOf;
    forall k | 0 <= k < |messages| ensures messages[k].0 in log.rows && messages[k].1 == ViewOf(log, messages[k].0) {
      assert messages[k].0 == page[k];
      ReadIsWhole(log, page[k], messages[k].1);
    }
  }

  lemma {:induction false} ViewsHold(rowsLog: Log, log: Log, page: seq<Id>, messages: seq<(Id, View)>)
    requires Hydrated(rowsLog, log, page, messages, READS)
    ensures forall id :: id in Views(messages) <==> id in page
    ensures forall id :: id in Views(messages) ==>
      id in rowsLog.rows && Views(messages)[id].row.seqNo == rowsLog.rows[id].seqNo
    decreases |page|
  {
    hide Honest;
    if |page| > 0 {
      var init, last := page[..|page| - 1], page[|page| - 1];
      ViewsHold(rowsLog, log, init, messages[..|messages| - 1]);
      assert page == init + [last];
    }
  }

  lemma ExtendsBetween(logs: seq<Log>, j: nat, k: nat)
    requires Moments(logs) && j <= k < MOMENTS
    ensures Extends(logs[j], logs[k])
    decreases k
  {
    hide Valid, Extends;
    if j == k {
      ExtendsSelf(logs[j]);
    } else {
      ExtendsBetween(logs, j, k - 1);
      CoreOfValid(logs[j]);
      ExtendsOnValid(logs[j], logs[k - 1], logs[k]);
    }
  }

  lemma AnswerCovers(logs: seq<Log>, since: nat, limit: nat, res: Response)
    requires Moments(logs) && limit > 0 && since <= logs[0].seqNo && StampsOk(logs[1])
    requires Hydrated(logs[1], logs[MOMENTS - 1], Changes(logs[1], since, limit), res.messages, READS)
    requires res.channelSeq == logs[0].seqNo && res.hasMore == (|Changes(logs[1], since, limit)| == limit)
    ensures Covers(logs[MOMENTS - 1], since, Reach(res, since), Views(res.messages))
  {
    hide Valid, Extends, Changes, Honest, Bare, StampsOk, HonestDraft;
    var page := Changes(logs[1], since, limit);
    ExtendsBetween(logs, 0, 1);
    SeqGrows(logs[0], logs[1]);
    PageCovers(logs[1], since, res.channelSeq, limit);
    ViewsHold(logs[1], logs[MOMENTS - 1], page, res.messages);
    ExtendsBetween(logs, 1, MOMENTS - 1);
    assert Covers(logs[1], since, Reach(res, since), Views(res.messages));
    CoversLater(logs[1], logs[MOMENTS - 1], since, Reach(res, since), Views(res.messages));
  }

  // ---- A server nobody writes to ------------------------------------------------------------------------

  function TakeAll(held: map<Id, View>, messages: seq<(Id, View)>): map<Id, View> {
    if |messages| == 0 then held
    else
      var init := messages[..|messages| - 1];
      var (id, v) := messages[|messages| - 1];
      Take(TakeAll(held, init), id, v)
  }

  lemma {:induction false} TakeAllExact(client: Client, log: Log, messages: seq<(Id, View)>, p: nat)
    requires ExactUpTo(client, log, p) && Bounded(client.held, log) && Valid(log)
    requires forall k :: 0 <= k < |messages| ==> messages[k].0 in log.rows && messages[k].1 == ViewOf(log, messages[k].0)
    ensures var held := TakeAll(client.held, messages);
            && ExactUpTo(client.(held := held), log, p) && Bounded(held, log)
            && forall k :: 0 <= k < |messages| ==> messages[k].0 in held && held[messages[k].0] == messages[k].1
  {
    hide ThreadsOk, RootsOk, BlankOk, PinsOk, NewestShown;
    if |messages| > 0 {
      var init := messages[..|messages| - 1];
      TakeAllExact(client, log, init, p);
      var before := TakeAll(client.held, init);
      var (id, v) := messages[|messages| - 1];
      assert LastStamp(log, id, log.rows[id].seqNo);
      assert id in before ==> BoundedAt(before[id], id, log);
      var held := Take(before, id, v);
      assert id in before ==> before[id].row.seqNo <= v.row.seqNo;
      assert held == before[id := v];
      forall k | 0 <= k < |messages| ensures messages[k].0 in held && held[messages[k].0] == messages[k].1 {
        if k < |init| {
          assert messages[k] == init[k];
        }
      }
      forall x | x in held ensures BoundedAt(held[x], x, log) {
        assert x in before ==> BoundedAt(before[x], x, log);
      }
    }
  }

  ghost predicate Answers(log: Log, page: seq<Id>, messages: seq<(Id, View)>) {
    && |messages| == |page|
    && forall k :: 0 <= k < |page| ==> page[k] in log.rows && messages[k] == (page[k], ViewOf(log, page[k]))
  }

  /** With a page taken the client is exact as far as it reaches, and a full
      page reaches further than it was asked from. */
  lemma PageReaches(client: Client, log: Log, since: nat, limit: nat, page: seq<Id>, messages: seq<(Id, View)>)
    requires StampsOk(log) && limit > 0 && IsPage(log, since, limit, page) && Answers(log, page, messages)
    requires ExactUpTo(client, log, since)
    requires forall k :: 0 <= k < |messages| ==>
      messages[k].0 in client.held && client.held[messages[k].0] == messages[k].1
    ensures |page| == limit ==>
      var last := messages[limit - 1].1.row.seqNo; since < last <= log.seqNo && ExactUpTo(client, log, last)
    ensures |page| < limit ==> ExactUpTo(client, log, log.seqNo)
  {
    forall id | id in log.rows && Reached(log, since, limit, page, id)
      ensures id in client.held && client.held[id] == ViewOf(log, id)
    {
      var k :| 0 <= k < |page| && page[k] == id;
      assert messages[k].0 == id;
    }
    if |page| == limit {
      assert LastStamp(log, page[limit - 1], log.rows[page[limit - 1]].seqNo);
      assert messages[limit - 1].1 == ViewOf(log, page[limit - 1]);
    }
    forall id | id in log.rows ensures log.rows[id].seqNo <= log.seqNo {
      assert LastStamp(log, id, log.rows[id].seqNo);
    }
  }

  lemma {:induction false} OthersKept(log: Log, held: map<Id, View>, page: seq<Id>, messages: seq<(Id, View)>, x: Id)
    requires Answers(log, page, messages) && x !in log.rows && x in held
    ensures x in TakeAll(held, messages) && TakeAll(held, messages)[x] == held[x]
  {
    if |messages| > 0 {
      assert messages[|messages| - 1].0 in log.rows;
      OthersKept(log, held, page[..|page| - 1], messages[..|messages| - 1], x);
    }
  }

  lemma EveryRow(client: Client, log: Log)
    requires Valid(log) && ExactUpTo(client, log, log.seqNo)
    ensures forall id :: id in log.rows ==> id in client.held && client.held[id] == ViewOf(log, id)
  {
    hide RootsOk, BlankOk, PinsOk, ThreadsOk, NewestShown;
    forall id | id in log.rows ensures id in client.held && client.held[id] == ViewOf(log, id) {
      assert LastStamp(log, id, log.rows[id].seqNo);
    }
  }

  lemma AnswersOf(log: Log, page: seq<Id>, messages: seq<(Id, View)>)
    requires Hydrated(log, log, page, messages, READS)
    ensures Answers(log, page, messages)
  {
    hide Honest, ViewOf;
    QuietIsExact(log, page, messages);
    forall k | 0 <= k < |page| ensures messages[k] == (page[k], ViewOf(log, page[k])) {
      assert messages[k].0 == page[k];
    }
  }

  /** One page of the loop, taken. */
  lemma PageStep(client: Client, log: Log, since: nat, limit: nat, page: seq<Id>, messages: seq<(Id, View)>)
    requires Valid(log) && limit > 0 && page == Changes(log, since, limit) && Hydrated(log, log, page, messages, READS)
    requires ExactUpTo(client, log, since) && Bounded(client.held, log)
    ensures var after := client.(held := TakeAll(client.held, messages));
            && Bounded(after.held, log)
            && (|page| == limit ==>
                  var last := messages[limit - 1].1.row.seqNo; since < last <= log.seqNo && ExactUpTo(after, log, last))
            && (|page| < limit ==> ExactUpTo(after, log, log.seqNo))
            && KeptBesides(client, after, log)
    ensures |messages| == |page| <= limit
  {
    hide Valid, Changes, ExactUpTo, Bounded, IsPage;
    StampsOfValid(log);
    ChangesArePage(log, since, limit);
    PageIsShort(log, since, limit, page);
    AnswersOf(log, page, messages);
    TakeAllExact(client, log, messages, since);
    var after := client.(held := TakeAll(client.held, messages));
    forall x | x in client.held && x !in log.rows ensures x in after.held && after.held[x] == client.held[x] {
      OthersKept(log, client.held, page, messages, x);
    }
    PageReaches(after, log, since, limit, page, messages);
  }

  lemma PageIsShort(log: Log, since: nat, limit: nat, page: seq<Id>)
    requires IsPage(log, since, limit, page)
    ensures |page| <= limit
  {
  }

  /** What the client holds of rows the server no longer has stays. */
  ghost predicate KeptBesides(client: Client, after: Client, log: Log) {
    forall id :: id in client.held && id !in log.rows ==> id in after.held && after.held[id] == client.held[id]
  }

  /** The loop ends, in as many pages as it takes, with the client at the
      channel's seq and holding every row exactly. */
  method CatchUpPages(log: Log, client: Client, requested: int) returns (after: Client)
    requires Valid(log) && ExactUpTo(client, log, client.position) && Bounded(client.held, log)
    ensures after.position == log.seqNo
    ensures forall id :: id in log.rows ==> id in after.held && after.held[id] == ViewOf(log, id)
    ensures KeptBesides(client, after, log)
  {
    hide Valid, Changes, ExactUpTo, Bounded, Hydrated, Covers, ViewOf;
    var limit := Paging.ClampPageSize(requested, DEFAULT_PAGE, MAX_PAGE);
    var since := client.position;
    after := client;
    var hasMore := true;
    ExactBelow(client, log, since);
    while hasMore
      invariant since <= log.seqNo
      invariant hasMore ==> ExactUpTo(after, log, since) && Bounded(after.held, log)
      invariant !hasMore ==> after.position == log.seqNo && ExactUpTo(after, log, log.seqNo)
      invariant KeptBesides(client, after, log)
      decreases hasMore, log.seqNo - since
    {
      QuietMoments(log);
      var res := ListChanges(seq(MOMENTS, _ => log), since, requested, 0, None);
      PageStep(after, log, since, limit, Changes(log, since, limit), res.messages);
      after := after.(held := TakeAll(after.held, res.messages));
      hasMore := res.hasMore;
      if hasMore {
        since := res.messages[|res.messages| - 1].1.row.seqNo;
      } else {
        ExactHeld(after, after.(position := log.seqNo), log, log.seqNo);
        after := after.(position := log.seqNo);
      }
    }
    EveryRow(after, log);
  }

  lemma ExactBelow(client: Client, log: Log, p: nat)
    requires ExactUpTo(client, log, p)
    ensures p <= log.seqNo
  {
  }

  lemma QuietMoments(log: Log)
    requires Valid(log)
    ensures Moments(seq(MOMENTS, _ => log)) && StampsOk(log)
  {
    hide Core, ThreadsOk, NewestShown, Extends;
    StampsOfValid(log);
    ExtendsSelf(log);
  }
}
