/** The same client, if it took a page's or an answer's row only at a higher
    seq: where that goes wrong, and what events it would be right with. */
module StrictMerging {
  import opened Options
  import opened ThreadSummaries
  import opened ChannelLog
  import opened Transactions
  import opened LogSafety
  import opened ChannelRuns
  import opened CatchUp

  function StrictlyMerged(held: map<Id, View>, views: map<Id, View>): map<Id, View> {
    map id | id in held.Keys + views.Keys ::
      if id in views && !(id in held && held[id].row.seqNo >= views[id].row.seqNo) then views[id] else held[id]
  }

  ghost predicate StrictStep(w: CatchUp.World, move: Move, after: CatchUp.World) {
    match move
    case TakePage =>
      && w.fetch.Filling? && w.fetch.draft.done == READS
      && after == PageLanded(w, StrictlyMerged(w.client.held, w.fetch.draft.views))
    case TakeOther(k) =>
      && k < |w.others| && w.others[k].done == READS
      && after == w.(client := w.client.(held := StrictlyMerged(w.client.held, w.others[k].views)))
    case _ => CatchUp.Step(w, move, after)
  }

  ghost predicate IsStrictHistory(worlds: seq<CatchUp.World>, moves: seq<Move>) {
    && |worlds| == |moves| + 1
    && worlds[0] == START
    && forall k :: 0 <= k < |moves| ==> StrictStep(worlds[k], moves[k], worlds[k + 1])
  }

  // ---- With whole events ----------------------------------------------------------

  /** Every event before k carried its whole row, hydrated as a page's is. */
  ghost predicate WholeEvents(worlds: seq<CatchUp.World>, moves: seq<Move>, k: nat)
    requires k <= |moves| && k < |worlds|
  {
    forall j :: 0 <= j < k && moves[j].TakeEvent? ==> Honest(worlds[j].channel.log, moves[j].id, moves[j].view, READS)
  }

  ghost predicate AllHonest(held: map<Id, View>, log: Log) {
    forall id :: id in held ==> Honest(log, id, held[id], READS)
  }

  ghost predicate AllGood(w: CatchUp.World) {
    Good(w) && AllHonest(w.client.held, w.channel.log)
  }

  lemma AllHonestLater(held: map<Id, View>, before: Log, after: Log)
    requires Extends(before, after) && AllHonest(held, before)
    ensures AllHonest(held, after)
  {
    hide Extends, Honest;
    forall id | id in held ensures Honest(after, id, held[id], READS) {
      HonestLater(before, after, id, held[id], READS);
    }
  }

  /** Honest copies differ only where their seqs do: among them a tie is no
      tie, so both merges leave the same exact rows. */
  lemma StrictKeepsExact(client: Client, log: Log, p: nat, draft: Draft)
    requires ExactUpTo(client, log, p) && HonestDraft(log, draft) && draft.done == READS
    ensures ExactUpTo(client.(held := StrictlyMerged(client.held, draft.views)), log, p)
  {
    hide Honest;
    var held := StrictlyMerged(client.held, draft.views);
    forall id | id in log.rows && log.rows[id].seqNo <= p ensures id in held && held[id] == ViewOf(log, id) {
      if id in draft.views && held[id] == draft.views[id] {
        WholeAt(log, id, draft.views[id], client.held[id]);
      }
    }
  }

  lemma StrictKeepsHonest(held: map<Id, View>, log: Log, draft: Draft)
    requires AllHonest(held, log) && HonestDraft(log, draft) && draft.done == READS
    ensures AllHonest(StrictlyMerged(held, draft.views), log) && Bounded(StrictlyMerged(held, draft.views), log)
  {
    hide Honest;
    var merged := StrictlyMerged(held, draft.views);
    forall id | id in merged ensures Honest(log, id, merged[id], READS) && BoundedAt(merged[id], id, log) {
      HonestIsBounded(log, id, merged[id]);
    }
  }

  lemma HonestIsBounded(log: Log, id: Id, v: View)
    ensures Honest(log, id, v, READS) ==> BoundedAt(v, id, log)
  {
  }

  lemma StrictPageExact(client: Client, log: Log, since: nat, upTo: nat, draft: Draft)
    requires ExactUpTo(client, log, since) && AllHonest(client.held, log)
    requires Covers(log, since, upTo, draft.views) && HonestDraft(log, draft) && draft.done == READS
    ensures ExactUpTo(client.(held := StrictlyMerged(client.held, draft.views)), log, upTo)
  {
    hide Honest;
    var held := StrictlyMerged(client.held, draft.views);
    StrictKeepsExact(client, log, since, draft);
    forall id | id in log.rows && log.rows[id].seqNo <= upTo ensures id in held && held[id] == ViewOf(log, id) {
      if log.rows[id].seqNo > since {
        ReadIsWhole(log, id, draft.views[id]);
        if id in client.held {
          HonestIsBounded(log, id, client.held[id]);
          if held[id] == client.held[id] {
            ReadIsWhole(log, id, client.held[id]);
          }
        }
      }
    }
  }

  lemma StrictPageTaken(w: CatchUp.World, after: CatchUp.World)
    requires AllGood(w) && StrictStep(w, TakePage, after)
    ensures AllGood(after)
  {
    hide ChannelRuns.Safe, ExactUpTo, Bounded, Covers, StrictlyMerged, MaxSeq, AllHonest;
    var log, client, fetch := w.channel.log, w.client, w.fetch;
    StrictPageExact(client, log, fetch.since, fetch.upTo, fetch.draft);
    StrictKeepsHonest(client.held, log, fetch.draft);
    CoversOrder(log, fetch.since, fetch.upTo, fetch.draft.views);
    var merged := client.(held := StrictlyMerged(client.held, fetch.draft.views));
    ExactLess(merged, log, fetch.upTo, client.position);
    Larger(client.position, fetch.upTo);
    ExactHeld(merged, after.client, log, after.client.position);
    ExactHeld(merged, after.client, log, fetch.upTo);
  }

  lemma StrictOtherTaken(w: CatchUp.World, k: nat, after: CatchUp.World)
    requires AllGood(w) && StrictStep(w, TakeOther(k), after)
    ensures AllGood(after)
  {
    hide ChannelRuns.Safe, ExactUpTo, Bounded, Covers, StrictlyMerged, AllHonest;
    var log, client := w.channel.log, w.client;
    assert HonestDraft(log, w.others[k]);
    StrictKeepsExact(client, log, client.position, w.others[k]);
    StrictKeepsHonest(client.held, log, w.others[k]);
    if !w.fetch.Idle? {
      StrictKeepsExact(client, log, w.fetch.since, w.others[k]);
    }
  }

  lemma StrictStepIsGood(w: CatchUp.World, move: Move, after: CatchUp.World)
    requires AllGood(w) && StrictStep(w, move, after)
    requires move.TakeEvent? ==> Honest(w.channel.log, move.id, move.view, READS)
    ensures AllGood(after)
  {
    hide Good, CatchUp.Step, AllHonest, Honest;
    match move {
      case TakePage => StrictPageTaken(w, after);
      case TakeOther(k) => StrictOtherTaken(w, k, after);
      case _ =>
        StepIsGood(w, move, after);
        OthersHonest(w, move, after);
    }
  }

  lemma OthersHonest(w: CatchUp.World, move: Move, after: CatchUp.World)
    requires AllGood(w) && CatchUp.Step(w, move, after) && !move.TakePage? && !move.TakeOther?
    requires move.TakeEvent? ==> Honest(w.channel.log, move.id, move.view, READS)
    ensures AllHonest(after.client.held, after.channel.log)
  {
    hide Honest, ChannelRuns.Next, Safe, Extends, ExactUpTo, Bounded, FetchOk, HonestDraft, IsEvent;
    if move.Channel? {
      hide AllHonest;
      NextIsSafe(w.channel, move.event, after.channel);
      AllHonestLater(w.client.held, w.channel.log, after.channel.log);
    }
  }

  /** With whole events the stricter rule is right too: whatever happens in
      whatever order, the client is exact up to its position. */
  lemma {:induction false} StrictConverges(worlds: seq<CatchUp.World>, moves: seq<Move>, k: nat)
    requires IsStrictHistory(worlds, moves) && k < |worlds| && WholeEvents(worlds, moves, k)
    ensures AllGood(worlds[k])
    ensures ExactUpTo(worlds[k].client, worlds[k].channel.log, worlds[k].client.position)
  {
    hide StrictStep, Bounded, Covers, HonestDraft, Valid, ExactUpTo, Honest;
    if k == 0 {
      StartIsGood();
    } else {
      StrictConverges(worlds, moves, k - 1);
      StrictStepIsGood(worlds[k - 1], moves[k - 1], worlds[k]);
    }
  }

  // ---- With an event that carries part of its row -----------------------------------

  lemma {:induction false} HistoryOn(worlds: seq<CatchUp.World>, moves: seq<Move>, move: Move, after: CatchUp.World)
      returns (longer: seq<CatchUp.World>, more: seq<Move>)
    requires IsStrictHistory(worlds, moves) && |worlds| == |moves| + 1 && StrictStep(worlds[|moves|], move, after)
    ensures longer == worlds + [after] && more == moves + [move]
    ensures IsStrictHistory(longer, more) && |longer| == |more| + 1 && longer[|more|] == after
  {
    hide StrictStep;
    longer, more := worlds + [after], moves + [move];
    forall k | 0 <= k < |more| ensures StrictStep(longer[k], more[k], longer[k + 1]) {
      if k < |moves| {
        assert longer[k] == worlds[k] && longer[k + 1] == worlds[k + 1] && more[k] == moves[k];
      }
    }
  }

  /** A call admitted and committed with nothing in between. */
  lemma CommittedOn(worlds: seq<CatchUp.World>, moves: seq<Move>, call: Call, id: Id)
      returns (longer: seq<CatchUp.World>, more: seq<Move>)
    requires IsStrictHistory(worlds, moves) && |worlds| == |moves| + 1 && worlds[|moves|].channel.pending == {}
    requires var log := worlds[|moves|].channel.log;
             Admits(log, call) && log.minted < id && Apply(log, call, id).Committed?
    ensures IsStrictHistory(longer, more) && |longer| == |more| + 1
    ensures var w := worlds[|moves|];
            longer[|more|] == w.(channel := ChannelRuns.World.World(Apply(w.channel.log, call, id).log, {}))
  {
    hide IsStrictHistory, Admits, Apply;
    var w := worlds[|moves|];
    var log := w.channel.log;
    var checked := w.(channel := ChannelRuns.World.World(log, {call}));
    longer, more := HistoryOn(worlds, moves, Channel(Check(call)), checked);
    var run := w.(channel := ChannelRuns.World.World(Apply(log, call, id).log, {}));
    longer, more := HistoryOn(longer, more, Channel(Run(call, id)), run);
  }

  const THUMB := Reaction(AUTHOR, "thumb")

  const EDIT := Edit(1, "evening", [], false)

  /** The one message, edited and then reacted to. */
  const EDITED := ONE_MESSAGE.(
    seqNo := 2, stamps := [1, 1], rows := map[1 := FIRST_ROW.(seqNo := 2, content := NEW_TEXT)])

  const NEW_TEXT := GREETING.(text := "evening", edited := true)

  const REACTED := EDITED.(
    seqNo := 3, stamps := [1, 1, 1],
    rows := map[1 := FIRST_ROW.(seqNo := 3, content := NEW_TEXT, extras := NO_EXTRAS.(reactions := [THUMB]))])

  /** The message as first sent, with the reaction patched onto it. */
  const PATCHED := View(FIRST_ROW.(seqNo := 3, extras := NO_EXTRAS.(reactions := [THUMB])), None, false)

  /** The client holds a message whose edit it missed, and the event of a
      reaction to it patches what it holds. */
  lemma PatchedHistory() returns (worlds: seq<CatchUp.World>, moves: seq<Move>)
    ensures IsStrictHistory(worlds, moves) && |worlds| == |moves| + 1
    ensures worlds[|moves|]
            == CatchUp.World.World(ChannelRuns.World.World(REACTED, {}), Client(map[1 := PATCHED], 0), Idle, [])
  {
    hide IsStrictHistory;
    worlds, moves := HeldHistory();
    worlds, moves := CommittedOn(worlds, moves, EDIT, 2);
    worlds, moves := EditedThen(worlds, moves);
    assert REACTED.stamps[2] == 1 && PATCHED.row.seqNo == 3;
    worlds, moves := HistoryOn(worlds, moves, TakeEvent(1, PATCHED),
                               worlds[|moves|].(client := Client(map[1 := PATCHED], 0)));
  }

  /** The message is sent, and its event brings it whole. */
  lemma HeldHistory() returns (worlds: seq<CatchUp.World>, moves: seq<Move>)
    ensures IsStrictHistory(worlds, moves) && |worlds| == |moves| + 1
    ensures worlds[|moves|] == Holding(ONE_MESSAGE)
  {
    hide IsStrictHistory;
    worlds, moves := Begun();
    worlds, moves := CommittedOn(worlds, moves, Send(AUTHOR, None, false, GREETING, NO_EXTRAS), 1);
    assert worlds[|moves|].channel.log == ONE_MESSAGE;
    var first := ViewOf(ONE_MESSAGE, 1);
    assert ONE_MESSAGE.stamps[0] == 1 && first.row.seqNo == 1;
    worlds, moves := HistoryOn(worlds, moves, TakeEvent(1, first), Holding(ONE_MESSAGE));
  }

  /** The client holding the message as first sent. */
  function Holding(log: Log): CatchUp.World {
    CatchUp.World.World(ChannelRuns.World.World(log, {}), Client(map[1 := ViewOf(ONE_MESSAGE, 1)], 0), Idle, [])
  }

  lemma EditedThen(worlds: seq<CatchUp.World>, moves: seq<Move>) returns (longer: seq<CatchUp.World>, more: seq<Move>)
    requires IsStrictHistory(worlds, moves) && |worlds| == |moves| + 1
    requires Apply(ONE_MESSAGE, EDIT, 2).Committed? && worlds[|moves|] == Holding(Apply(ONE_MESSAGE, EDIT, 2).log)
    ensures IsStrictHistory(longer, more) && |longer| == |more| + 1 && longer[|more|] == Holding(REACTED)
  {
    hide IsStrictHistory;
    assert worlds[|moves|].channel.log == EDITED;
    assert Toggled([], THUMB) == [THUMB];
    assert Apply(EDITED, React(1, THUMB), 2) == Committed(REACTED);
    longer, more := CommittedOn(worlds, moves, React(1, THUMB), 2);
  }

  lemma Begun() returns (worlds: seq<CatchUp.World>, moves: seq<Move>)
    ensures IsStrictHistory(worlds, moves) && |worlds| == |moves| + 1 && worlds[|moves|] == START
  {
    worlds, moves := [START], [];
  }

  /** A channel of the one message, however often stamped. */
  ghost predicate OneRow(log: Log) {
    && log.rows.Keys == {1} && TopLevel(log, 1) && IsLive(log, 1) && log.rows[1].inChannel
    && log.rows[1].seqNo == log.seqNo == |log.stamps| > 0 && (forall k :: 0 <= k < |log.stamps| ==> log.stamps[k] == 1)
    && log.threads == map[] && log.pins == {} && log.last == Some(1) && log.minted == 1
  }

  lemma OneRowIsValid(log: Log)
    requires OneRow(log)
    ensures Valid(log)
  {
    assert LastStamp(log, 1, log.seqNo);
    forall root: Id ensures ThreadOk(log, root) {
      assert LiveReplies(log.rows, root) == {};
    }
    assert ShownIds(log) == {1};
    assert Max({1}) in {1};
  }

  lemma TwoDiffer(log: Log, since: nat, limit: nat, page: seq<Id>)
    requires IsPage(log, since, limit, page) && |page| >= 2
    ensures page[0] != page[1]
  {
    assert log.rows[page[0]].seqNo < log.rows[page[1]].seqNo;
  }

  /** A page from before the one row holds it. */
  lemma OneRowPage(log: Log, since: nat)
    requires OneRow(log) && since < log.seqNo
    ensures StampsOk(log)
    ensures PageRead(log, since, log.seqNo, DEFAULT_PAGE)
            == Filling(since, false, log.seqNo, Draft(map[1 := Bare(log, 1)], 0))
  {
    hide Changes, ViewOf, Known, OneRow;
    OneRowIsValid(log);
    StampsOfValid(log);
    ChangesArePage(log, since, DEFAULT_PAGE);
    var limit: nat := DEFAULT_PAGE;
    var page := Changes(log, since, limit);
    OneRowIs(log);
    assert Reached(log, since, limit, page, 1);
    assert forall k :: 0 <= k < |page| ==> page[k] == 1;
    if |page| >= 2 {
      TwoDiffer(log, since, limit, page);
    }
    assert page == [1];
    assert RowsRead(log, set id | id in page) == Draft(map[1 := Bare(log, 1)], 0);
  }

  lemma OneRowIs(log: Log)
    requires OneRow(log)
    ensures forall id :: id in log.rows <==> id == 1
    ensures log.rows[1].seqNo == log.seqNo
  {
  }

  /** The page of the one row, some of its reads made. */
  ghost predicate AtPage(w: CatchUp.World, done: nat) {
    && w.channel.log == REACTED && w.client == Client(map[1 := PATCHED], 0)
    && w.fetch.Filling? && !w.fetch.hasMore && w.fetch.upTo == 3 && w.fetch.draft.done == done
    && w.fetch.draft.views.Keys == {1} && w.fetch.draft.views[1].row.seqNo == 3
  }

  lemma {:induction false} FillOn(worlds: seq<CatchUp.World>, moves: seq<Move>, done: nat)
      returns (longer: seq<CatchUp.World>, more: seq<Move>)
    requires IsStrictHistory(worlds, moves) && |worlds| == |moves| + 1 && AtPage(worlds[|moves|], done) && done <= READS
    ensures IsStrictHistory(longer, more) && |longer| == |more| + 1 && AtPage(longer[|more|], READS)
    decreases READS - done
  {
    hide IsStrictHistory;
    longer, more := worlds, moves;
    if done < READS {
      var w := worlds[|moves|];
      longer, more := HistoryOn(worlds, moves, FillPage, w.(fetch := w.fetch.(draft := Filled(REACTED, w.fetch.draft))));
      longer, more := FillOn(longer, more, done + 1);
    }
  }

  /** With a merge only at a higher seq a whole catch-up leaves the patched
      copy: the client ends at the channel's seq without the edit. */
  lemma StrictLoses() returns (worlds: seq<CatchUp.World>, moves: seq<Move>)
    ensures IsStrictHistory(worlds, moves) && |worlds| == |moves| + 1
    ensures var w := worlds[|moves|];
            && w.client.position == w.channel.log.seqNo == 3 && w.fetch.Idle?
            && 1 in w.channel.log.rows && w.channel.log.rows[1].content == NEW_TEXT
            && 1 in w.client.held && w.client.held[1].row.content == GREETING
            && !ExactUpTo(w.client, w.channel.log, w.client.position)
  {
    hide IsStrictHistory, PageRead;
    worlds, moves := PatchedHistory();
    var w := worlds[|moves|];
    worlds, moves := HistoryOn(worlds, moves, StartCatchUp, w.(fetch := Asking(0)));
    worlds, moves := HistoryOn(worlds, moves, ReadChannel, w.(fetch := CatchUp.Asked(0, 3)));
    OneRowPage(REACTED, 0);
    var page := PageRead(REACTED, 0, 3, DEFAULT_PAGE);
    worlds, moves := HistoryOn(worlds, moves, ReadRows(DEFAULT_PAGE), w.(fetch := page));
    worlds, moves := FillOn(worlds, moves, 0);
    var full := worlds[|moves|];
    var held := StrictlyMerged(full.client.held, full.fetch.draft.views);
    assert held[1] == PATCHED;
    worlds, moves := HistoryOn(worlds, moves, TakePage, PageLanded(full, held));
  }
}
