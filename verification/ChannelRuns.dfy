/** Whole runs of a channel: handlers check, and their transactions commit
    later, in any order, with anything in between. */
module ChannelRuns {
  import opened Options
  import opened ThreadSummaries
  import opened ChannelLog
  import opened Transactions
  import opened LogSafety

  /** The channel, and the calls whose handlers have checked and whose
      transactions have not yet run. */
  datatype World = World(log: Log, pending: set<Call>)

  datatype Event = Check(call: Call) | Run(call: Call, id: Id)

  /** Check: a handler reads the log and asks for its transaction. Run: a
      transaction commits, or rolls back. A send's id is newer than any
      minted. */
  ghost predicate Next(before: World, event: Event, after: World) {
    match event
    case Check(call) =>
      Admits(before.log, call) && after == before.(pending := before.pending + {call})
    case Run(call, id) =>
      && call in before.pending && before.log.minted < id
      && after.pending == before.pending - {call}
      && after.log == match Apply(before.log, call, id)
                      case Committed(log) => log
                      case RolledBack(_) => before.log
  }

  ghost predicate IsRun(worlds: seq<World>, events: seq<Event>) {
    && |worlds| == |events| + 1 && worlds[0] == World(EMPTY_LOG, {})
    && forall k :: 0 <= k < |events| ==> Next(worlds[k], events[k], worlds[k + 1])
  }

  ghost predicate Safe(world: World) {
    Valid(world.log) && forall call :: call in world.pending ==> StillFits(world.log, call)
  }

  lemma EmptyIsValid()
    ensures Valid(EMPTY_LOG)
  {
    forall root ensures ThreadOk(EMPTY_LOG, root) {
      assert LiveReplies(EMPTY_LOG.rows, root) == {};
    }
    assert ShownIds(EMPTY_LOG) == {};
  }

  lemma NextIsSafe(before: World, event: Event, after: World)
    requires Safe(before) && Next(before, event, after)
    ensures Safe(after) && Extends(before.log, after.log)
  {
    hide Valid, Extends, StillFits, Admits, Apply;
    match event {
      case Check(call) =>
        AdmittedFits(before.log, call);
        ExtendsSelf(before.log);
      case Run(call, id) =>
        if Apply(before.log, call, id).Committed? {
          CommitIsSafe(before.log, call, id);
          forall c | c in after.pending ensures StillFits(after.log, c) {
            FitsLater(before.log, after.log, c);
          }
        } else {
          ExtendsSelf(before.log);
        }
    }
  }

  /** Every state of every run keeps the log's invariant. */
  lemma {:induction false} RunIsSafe(worlds: seq<World>, events: seq<Event>, k: nat)
    requires IsRun(worlds, events) && k < |worlds|
    ensures Safe(worlds[k])
  {
    hide Next, Valid;
    if k == 0 {
      EmptyIsValid();
    } else {
      RunIsSafe(worlds, events, k - 1);
      NextIsSafe(worlds[k - 1], events[k - 1], worlds[k]);
    }
  }

  /** Every later state of a run extends every earlier one. */
  lemma {:induction false} RunExtends(worlds: seq<World>, events: seq<Event>, j: nat, k: nat)
    requires IsRun(worlds, events) && j <= k < |worlds|
    ensures Extends(worlds[j].log, worlds[k].log)
    decreases k
  {
    hide Next, Extends, Valid;
    RunIsSafe(worlds, events, j);
    if j == k {
      ExtendsSelf(worlds[j].log);
    } else {
      RunExtends(worlds, events, j, k - 1);
      RunIsSafe(worlds, events, k - 1);
      NextIsSafe(worlds[k - 1], events[k - 1], worlds[k]);
      CoreOfValid(worlds[j].log);
      ExtendsOnValid(worlds[j].log, worlds[k - 1].log, worlds[k].log);
    }
  }

  lemma CoreOfValid(log: Log)
    requires Valid(log)
    ensures Core(log)
  {
  }

  // ---- Runs built step by step ----------------------------------------------------------

  lemma {:induction false} RunOn(worlds: seq<World>, events: seq<Event>, event: Event, after: World)
      returns (longer: seq<World>, more: seq<Event>)
    requires IsRun(worlds, events) && Next(worlds[|events|], event, after)
    ensures longer == worlds + [after] && more == events + [event]
    ensures IsRun(longer, more) && |longer| == |more| + 1 && longer[|more|] == after
  {
    hide Next;
    longer, more := worlds + [after], events + [event];
    forall k | 0 <= k < |more| ensures Next(longer[k], more[k], longer[k + 1]) {
      if k < |events| {
        assert longer[k] == worlds[k] && longer[k + 1] == worlds[k + 1] && more[k] == events[k];
      }
    }
  }

  /** A call admitted and committed with nothing in between. */
  lemma Asked(worlds: seq<World>, events: seq<Event>, call: Call, id: Id) returns (longer: seq<World>, more: seq<Event>)
    requires IsRun(worlds, events) && call !in worlds[|events|].pending
    requires Admits(worlds[|events|].log, call) && worlds[|events|].log.minted < id
    requires Apply(worlds[|events|].log, call, id).Committed?
    ensures IsRun(longer, more) && |longer| == |more| + 1 == |events| + 3
    ensures longer[|more|] == World(Apply(worlds[|events|].log, call, id).log, worlds[|events|].pending)
  {
    hide IsRun, Admits, Apply;
    RunHasLast(worlds, events);
    var log, pending := worlds[|events|].log, worlds[|events|].pending;
    longer, more := RunOn(worlds, events, Check(call), World(log, pending + {call}));
    assert pending + {call} - {call} == pending;
    longer, more := RunOn(longer, more, Run(call, id), World(Apply(log, call, id).log, pending));
  }

  lemma RunHasLast(worlds: seq<World>, events: seq<Event>)
    requires IsRun(worlds, events)
    ensures |worlds| == |events| + 1
  {
  }

  const AUTHOR: Person := 7

  const GREETING := Content("morning", false, false, false)

  const FIRST_ROW := Row(1, AUTHOR, None, true, false, GREETING, NO_EXTRAS)

  const ONE_MESSAGE := Log(1, map[1 := FIRST_ROW], map[], {}, Some(1), 1, [1])

  lemma Started() returns (worlds: seq<World>, events: seq<Event>)
    ensures IsRun(worlds, events) && |worlds| == |events| + 1 && worlds[|events|] == World(EMPTY_LOG, {})
  {
    worlds, events := [World(EMPTY_LOG, {})], [];
  }

  /** A channel with one message. */
  lemma OneMessage() returns (worlds: seq<World>, events: seq<Event>)
    ensures IsRun(worlds, events) && |worlds| == |events| + 1 && worlds[|events|] == World(ONE_MESSAGE, {})
  {
    var send := Send(AUTHOR, None, false, GREETING, NO_EXTRAS);
    assert Apply(EMPTY_LOG, send, 1) == Committed(ONE_MESSAGE);
    worlds, events := Started();
    worlds, events := Asked(worlds, events, send, 1);
  }

  // ---- What that says ------------------------------------------------------------------

  /** Seq order is commit order: as many positions as stamps, each row at its
      last one, no two rows at the same. */
  lemma PositionsAreDistinct(worlds: seq<World>, events: seq<Event>, k: nat)
    requires IsRun(worlds, events) && k < |worlds|
    ensures var log := worlds[k].log;
            && |log.stamps| == log.seqNo
            && (forall id :: id in log.rows ==> 1 <= log.rows[id].seqNo <= log.seqNo)
            && (forall x, y :: x in log.rows && y in log.rows && x != y ==> log.rows[x].seqNo != log.rows[y].seqNo)
  {
    hide IsRun, IdsOk, RootsOk, BlankOk, PinsOk, ThreadsOk, NewestShown;
    RunIsSafe(worlds, events, k);
    var log := worlds[k].log;
    forall id | id in log.rows ensures 1 <= log.rows[id].seqNo <= log.seqNo && LastStamp(log, id, log.rows[id].seqNo) {
    }
  }

  /** After a reader has seen position s, no row ever appears or changes at
      or below s. */
  lemma NothingChangesBelow(worlds: seq<World>, events: seq<Event>, j: nat, k: nat, id: Id)
    requires IsRun(worlds, events) && j <= k < |worlds| && id in worlds[k].log.rows
    requires worlds[k].log.rows[id].seqNo <= worlds[j].log.seqNo
    ensures id in worlds[j].log.rows && ViewOf(worlds[k].log, id) == ViewOf(worlds[j].log, id)
    ensures worlds[j].log.stamps <= worlds[k].log.stamps
  {
    hide IsRun;
    RunExtends(worlds, events, j, k);
    assert Follows(worlds[j].log, worlds[k].log, id);
  }

  /** A hidden tombstone never shows again, takes no reply and is never
      pinned, whatever was already on its way when it was hidden. */
  lemma HiddenForGood(worlds: seq<World>, events: seq<Event>, j: nat, k: nat, id: Id)
    requires IsRun(worlds, events) && j <= k < |worlds| && Hidden(worlds[j].log, id)
    ensures !Readable(worlds[k].log, id) && LiveReplies(worlds[k].log.rows, id) == {}
    ensures id !in worlds[k].log.pins && id !in worlds[k].log.threads
  {
    hide IsRun, StampsOk, BlankOk, NewestShown, Recounted;
    RunExtends(worlds, events, j, k);
    RunIsSafe(worlds, events, k);
    var log := worlds[k].log;
    assert ThreadOk(log, id);
    if id in log.rows {
      assert Follows(worlds[j].log, log, id);
    }
    assert id in log.pins ==> IsLive(log, id);
    assert id in log.threads ==> TopLevel(log, id);
  }

  /** A deleted root is a placeholder exactly while its thread has live
      replies, and its summary is the count of them. */
  lemma PlaceholderWhileReplies(worlds: seq<World>, events: seq<Event>, k: nat, root: Id)
    requires IsRun(worlds, events) && k < |worlds| && TopLevel(worlds[k].log, root)
    ensures var log := worlds[k].log;
            var replies := LiveReplies(log.rows, root);
            && (log.rows[root].deleted ==> (Readable(log, root) <==> replies != {}))
            && (root in log.threads <==> replies != {})
            && (replies != {} ==> log.threads[root].count == |replies| && log.threads[root].last == Max(replies))
            && (forall id :: id in replies ==> Readable(log, root))
  {
    hide IsRun, StampsOk, BlankOk, NewestShown, Core, AuthorsByNewest;
    RunIsSafe(worlds, events, k);
    assert ThreadOk(worlds[k].log, root);
  }

  /** The channel's last message is the newest row it shows. */
  lemma LastIsNewestShown(worlds: seq<World>, events: seq<Event>, k: nat)
    requires IsRun(worlds, events) && k < |worlds|
    ensures var log := worlds[k].log;
            match log.last
            case None => forall id :: id in log.rows ==> !(log.rows[id].inChannel && Readable(log, id))
            case Some(last) =>
              && last in log.rows && log.rows[last].inChannel && Readable(log, last)
              && forall id :: id in log.rows && log.rows[id].inChannel && Readable(log, id) ==> id <= last
  {
    hide IsRun, Core, ThreadsOk, Readable;
    RunIsSafe(worlds, events, k);
    var log := worlds[k].log;
    forall id | id in log.rows && log.rows[id].inChannel && Readable(log, id) ensures id in ShownIds(log) {
    }
    if log.last.Some? {
      assert log.last.value in ShownIds(log);
    }
  }
}
