/** The retention sweep over every channel: batch by batch, until nothing the
    setting no longer keeps is left. */
module Sweeping {
  import opened Options
  import opened ThreadSummaries
  import opened ChannelLog
  import opened Transactions
  import opened LogSafety
  import ChannelRuns

  const BATCH: nat := 1000

  type Channels = map<Id, Log>

  /** An expired row: top-level, below the cutoff, not pinned. */
  predicate Expired(log: Log, cutoff: Id, id: Id) {
    id < cutoff && TopLevel(log, id) && id !in log.pins
  }

  function ExpiredIn(log: Log, cutoff: Id): set<Id> {
    set id | id in log.rows && Expired(log, cutoff, id)
  }

  function ExpiredAll(channels: Channels, cutoff: Id): set<Id> {
    set c, id | c in channels && id in channels[c].rows && Expired(channels[c], cutoff, id) :: id
  }

  function AllIds(channels: Channels): set<Id> {
    set c, id | c in channels && id in channels[c].rows :: id
  }

  /** Every channel is valid, and no two share a message id. */
  ghost predicate ChannelsOk(channels: Channels) {
    && (forall c :: c in channels ==> Valid(channels[c]))
    && forall c, d, id :: c in channels && d in channels && id in channels[c].rows && id in channels[d].rows ==> c == d
  }

  /** The log once a sweep of these roots has committed. */
  function After(log: Log, roots: set<Id>): Log {
    SweepTx(log, roots).log
  }

  // ---- What a sweep leaves ---------------------------------------------------------

  /** A row goes exactly when it, or the root it answers, was listed. What
      stays is as it was, and no reply stays without its root. */
  lemma SweepTakesThreads(log: Log, roots: set<Id>, id: Id)
    requires Valid(log) && id in log.rows && forall r :: r in roots ==> IsRootIfThere(log, r)
    ensures var after := After(log, roots);
            var root := RootOf(log, id);
            && (id in after.rows <==> root !in roots)
            && (id in after.rows ==> ViewOf(after, id) == ViewOf(log, id) && root in after.rows)
  {
    hide StampsOk, IdsOk, BlankOk, PinsOk, ThreadsOk, NewestShown;
    if log.rows[id].root.Some? {
      assert TopLevel(log, log.rows[id].root.value);
    }
  }

  /** A pin keeps its root and its whole thread from a sweep that lists what
      is expired now; from one that listed its root before, nothing does. */
  lemma PinnedSurvives(log: Log, roots: set<Id>, cutoff: Id, id: Id)
    requires Valid(log) && id in log.rows && forall r :: r in roots ==> IsRootIfThere(log, r)
    ensures var root := RootOf(log, id);
            root in log.pins ==>
              && id in After(log, ExpiredIn(log, cutoff)).rows
              && (id in After(log, roots).rows <==> root !in roots)
  {
    hide Valid, NewestShown;
    ExpiredAreRoots(log, cutoff);
    SweepTakesThreads(log, ExpiredIn(log, cutoff), id);
    SweepTakesThreads(log, roots, id);
  }

  /** A sweep lists a message, the message is pinned, and the sweep runs: the
      pin does not keep it. */
  lemma PinnedMeanwhile() returns (worlds: seq<ChannelRuns.World>, events: seq<ChannelRuns.Event>)
    ensures ChannelRuns.IsRun(worlds, events) && |events| > 0
    ensures events[|events| - 1] == ChannelRuns.Run(Sweep({1}), 2)
    ensures var before, after := worlds[|events| - 1].log, worlds[|events|].log;
            1 in before.rows && 1 in before.pins && 1 !in after.rows
  {
    hide ChannelRuns.IsRun, NewestShown;
    worlds, events := ChannelRuns.OneMessage();
    var log, sweep := worlds[|events|].log, Sweep({1});
    worlds, events := ChannelRuns.RunOn(worlds, events, ChannelRuns.Check(sweep), ChannelRuns.World.World(log, {sweep}));
    worlds, events := ChannelRuns.Asked(worlds, events, Pin(1), 2);
    var swept := After(worlds[|events|].log, {1});
    worlds, events := ChannelRuns.RunOn(worlds, events, ChannelRuns.Run(sweep, 2), ChannelRuns.World.World(swept, {}));
  }

  lemma ExpiredAreRoots(log: Log, cutoff: Id)
    requires Valid(log)
    ensures forall r :: r in ExpiredIn(log, cutoff) ==> IsRootIfThere(log, r)
  {
    hide StampsOk, BlankOk, PinsOk, ThreadsOk, NewestShown;
  }

  /** Two sweeps are one sweep of what both listed. */
  lemma SweepsCompose(log: Log, a: set<Id>, b: set<Id>)
    ensures After(After(log, a), b) == After(log, a + b)
  {
    var first, both := After(log, a), After(log, a + b);
    var second := After(first, b);
    assert Swept(log, a) + Swept(first, b) == Swept(log, a + b);
    assert second.rows == both.rows;
    assert second.threads == both.threads;
    assert second.pins == both.pins;
    assert ShownIds(second) == ShownIds(both);
    var bare, bareBoth := first.(rows := second.rows, threads := second.threads, pins := second.pins),
                          log.(rows := both.rows, threads := both.threads, pins := both.pins);
    assert ShownIds(bare) == ShownIds(bareBoth);
    SameShown(bareBoth, bare);
  }

  lemma SweepNone(log: Log, roots: set<Id>)
    requires Valid(log) && Swept(log, roots) == {}
    ensures After(log, roots) == log
  {
    hide Core, ThreadsOk, NewestShown;
    assert log.rows - {} == log.rows && log.threads - {} == log.threads && log.pins - {} == log.pins;
  }

  lemma ExpiredAfter(log: Log, cutoff: Id, gone: set<Id>)
    requires Valid(log) && gone <= ExpiredIn(log, cutoff) + gone && forall r :: r in gone ==> IsRootIfThere(log, r)
    ensures ExpiredIn(After(log, gone), cutoff) == ExpiredIn(log, cutoff) - gone
  {
    hide StampsOk, IdsOk, BlankOk, PinsOk, ThreadsOk, NewestShown;
    var after := After(log, gone);
    forall id | id in ExpiredIn(log, cutoff) && id !in gone ensures id in after.rows {
    }
  }

  // ---- SweepMessages -------------------------------------------------------------------

  /** The listed ids that are rows of one channel. */
  function Of(log: Log, ids: set<Id>): set<Id> {
    set id | id in ids && id in log.rows
  }

  ghost predicate SweptFrom(before: Channels, after: Channels, ids: set<Id>) {
    after.Keys == before.Keys && forall c :: c in before ==> after[c] == After(before[c], Of(before[c], ids))
  }

  lemma OneChannelSwept(channels: Channels, c: Id, roots: set<Id>)
    requires ChannelsOk(channels) && c in channels && forall r :: r in roots ==> IsRootIfThere(channels[c], r)
    ensures var after := channels[c := After(channels[c], roots)];
            && ChannelsOk(after) && AllIds(after) == AllIds(channels) - Swept(channels[c], roots)
            && |AllIds(after)| == |AllIds(channels)| - |Swept(channels[c], roots)|
  {
    hide Valid, NewestShown;
    var log, gone := channels[c], Swept(channels[c], roots);
    var after := channels[c := After(log, roots)];
    SweepIsSafe(log, roots);
    assert after[c].rows == log.rows - gone;
    forall id | id in AllIds(channels) - gone ensures id in AllIds(after) {
      var d :| d in channels && id in channels[d].rows;
      assert d in after && id in after[d].rows;
    }
    assert gone <= AllIds(channels);
    assert AllIds(channels) == AllIds(after) + gone;
  }

  lemma ListedAreRoots(channels: Channels, cutoff: Id, ids: set<Id>, c: Id)
    requires ChannelsOk(channels) && c in channels && ids <= ExpiredAll(channels, cutoff)
    ensures Of(channels[c], ids) <= ExpiredIn(channels[c], cutoff)
    ensures forall r :: r in Of(channels[c], ids) ==> IsRootIfThere(channels[c], r)
  {
    hide Valid;
    ExpiredAreRoots(channels[c], cutoff);
    forall id | id in Of(channels[c], ids) ensures id in ExpiredIn(channels[c], cutoff) {
      var d :| d in channels && id in channels[d].rows && Expired(channels[d], cutoff, id);
      assert d == c;
    }
  }

  /** After a batch, what is expired is what was, less the batch. */
  lemma ExpiredAfterBatch(before: Channels, after: Channels, cutoff: Id, ids: set<Id>)
    requires ChannelsOk(before) && SweptFrom(before, after, ids) && ids <= ExpiredAll(before, cutoff)
    ensures ExpiredAll(after, cutoff) == ExpiredAll(before, cutoff) - ids
  {
    hide Valid, NewestShown, Expired;
    forall c | c in before ensures ExpiredIn(after[c], cutoff) == ExpiredIn(before[c], cutoff) - ids {
      ListedAreRoots(before, cutoff, ids, c);
      ExpiredAfter(before[c], cutoff, Of(before[c], ids));
    }
    forall id ensures id in ExpiredAll(after, cutoff) <==> id in ExpiredAll(before, cutoff) && id !in ids {
      if id in ExpiredAll(before, cutoff) && id !in ids {
        var c :| c in before && id in before[c].rows && Expired(before[c], cutoff, id);
        assert id in ExpiredIn(before[c], cutoff);
        assert id in ExpiredIn(after[c], cutoff);
      }
      if id in ExpiredAll(after, cutoff) {
        var c :| c in after && id in after[c].rows && Expired(after[c], cutoff, id);
        assert id in ExpiredIn(after[c], cutoff);
        assert id in ExpiredIn(before[c], cutoff);
      }
    }
  }

  lemma SweptTwice(start: Channels, before: Channels, after: Channels, cutoff: Id, done: set<Id>, ids: set<Id>)
    requires ChannelsOk(start) && SweptFrom(start, before, done) && SweptFrom(before, after, ids)
    ensures SweptFrom(start, after, done + ids)
  {
    hide After;
    forall c | c in start ensures after[c] == After(start[c], Of(start[c], done + ids)) {
      SweepTwiceSame(start[c], done, ids);
    }
  }

  /** A root already swept adds nothing by being listed again. */
  lemma SweepTwiceSame(log: Log, done: set<Id>, ids: set<Id>)
    requires RootsOk(log)
    ensures var first := After(log, Of(log, done));
            After(first, Of(first, ids)) == After(log, Of(log, done + ids))
  {
    hide NewestShown;
    var first := After(log, Of(log, done));
    SweepsCompose(log, Of(log, done), Of(log, ids));
    forall id | id in first.rows ensures id in Swept(first, Of(first, ids)) <==> id in Swept(first, Of(log, ids)) {
      if log.rows[id].root.Some? {
        assert TopLevel(log, log.rows[id].root.value);
      }
    }
    assert Swept(first, Of(first, ids)) == Swept(first, Of(log, ids));
    assert Of(log, done) + Of(log, ids) == Of(log, done + ids);
  }

  /** Of the channels, those done are swept. */
  ghost predicate SweptSome(before: Channels, now: Channels, ids: set<Id>, done: set<Id>) {
    && now.Keys == before.Keys
    && forall c :: c in before ==> now[c] == if c in done then After(before[c], Of(before[c], ids)) else before[c]
  }

  lemma SameYet(before: Channels, now: Channels, ids: set<Id>, done: set<Id>, c: Id)
    requires SweptSome(before, now, ids, done) && c in before && c !in done
    ensures c in now && now[c] == before[c]
  {
  }

  lemma OneMore(before: Channels, now: Channels, ids: set<Id>, done: set<Id>, c: Id)
    requires SweptSome(before, now, ids, done) && c in before && c !in done
    ensures SweptSome(before, now[c := After(before[c], Of(before[c], ids))], ids, done + {c})
  {
    hide After;
  }

  /** The channels that hold a listed row, in one order. */
  function Touched(channels: Channels, ids: set<Id>): (order: seq<Id>)
    ensures Increasing(order)
    ensures forall c :: c in order <==> c in channels && Of(channels[c], ids) != {}
  {
    Ascending(set c | c in channels && Of(channels[c], ids) != {})
  }

  function Firsts(order: seq<Id>, k: nat): set<Id>
    requires k <= |order|
  {
    set c | c in order[..k]
  }

  lemma FirstsGrow(order: seq<Id>, k: nat)
    requires Increasing(order) && k < |order|
    ensures order[k] !in Firsts(order, k) && Firsts(order, k + 1) == Firsts(order, k) + {order[k]}
  {
    assert order[..k + 1] == order[..k] + [order[k]];
  }

  /** One channel of the batch: it is as it was, what it is listed for are its
      own roots, and with it swept the batch is a channel further. */
  lemma BatchStep(before: Channels, now: Channels, cutoff: Id, ids: set<Id>, k: nat)
    requires ChannelsOk(before) && ids <= ExpiredAll(before, cutoff) && k < |Touched(before, ids)|
    requires SweptSome(before, now, ids, Firsts(Touched(before, ids), k))
    ensures var c := Touched(before, ids)[k];
            && c in now && (forall r :: r in Of(now[c], ids) ==> IsRootIfThere(now[c], r))
            && SweptSome(before, now[c := After(now[c], Of(now[c], ids))], ids, Firsts(Touched(before, ids), k + 1))
  {
    hide ChannelsOk, ExpiredAll, After, SweptSome, Of, Touched, Firsts;
    var order := Touched(before, ids);
    var c := order[k];
    assert c in order;
    FirstsGrow(order, k);
    SameYet(before, now, ids, Firsts(order, k), c);
    ListedAreRoots(before, cutoff, ids, c);
    OneMore(before, now, ids, Firsts(order, k), c);
  }

  lemma NoneYet(before: Channels, ids: set<Id>)
    ensures SweptSome(before, before, ids, Firsts(Touched(before, ids), 0))
  {
    hide Touched, After;
  }

  lemma AllDone(before: Channels, now: Channels, ids: set<Id>)
    requires ChannelsOk(before)
    requires SweptSome(before, now, ids, Firsts(Touched(before, ids), |Touched(before, ids)|))
    ensures SweptFrom(before, now, ids)
  {
    hide Valid, After, Touched;
    forall c | c in before ensures now[c] == After(before[c], Of(before[c], ids)) {
      if c !in Touched(before, ids) {
        NothingListed(before, c, {});
      }
    }
  }

  class Server {
    var channels: Channels

    /** ListExpiredMessages: the oldest expired rows of any channel, a batch at
        most. */
    method ListExpired(cutoff: Id) returns (ids: seq<Id>)
      ensures |ids| <= BATCH && forall id :: id in ids ==> id in ExpiredAll(channels, cutoff)
      ensures |ids| < BATCH ==> forall id :: id in ExpiredAll(channels, cutoff) ==> id in ids
      ensures forall id, other :: id in ids && other in ExpiredAll(channels, cutoff) && other < id ==> other in ids
    {
      hide ExpiredAll;
      var all := Ascending(ExpiredAll(channels, cutoff));
      ids := if |all| <= BATCH then all else all[..BATCH];
      forall id, other | id in ids && other in ExpiredAll(channels, cutoff) && other < id ensures other in ids {
        var j :| 0 <= j < |ids| && ids[j] == id;
        var k :| 0 <= k < |all| && all[k] == other;
        assert k < j;
        assert ids[k] == other;
      }
    }

    /** sweepChannel on one of the channels. */
    method SweepChannel(c: Id, roots: set<Id>) returns (removed: nat)
      requires ChannelsOk(channels) && c in channels && forall r :: r in roots ==> IsRootIfThere(channels[c], r)
      modifies this
      ensures channels == old(channels)[c := After(old(channels)[c], roots)] && ChannelsOk(channels)
      ensures removed == |AllIds(old(channels))| - |AllIds(channels)|
    {
      hide ChannelsOk, After, AllIds;
      OneChannelSwept(channels, c, roots);
      removed := |Swept(channels[c], roots)|;
      channels := channels[c := After(channels[c], roots)];
    }

    /** The batch, one transaction per channel, channels in one order. */
    method SweepBatch(cutoff: Id, ids: set<Id>) returns (removed: nat)
      requires ChannelsOk(channels) && ids <= ExpiredAll(channels, cutoff)
      modifies this
      ensures ChannelsOk(channels) && SweptFrom(old(channels), channels, ids)
      ensures removed == |AllIds(old(channels))| - |AllIds(channels)|
    {
      hide ExpiredAll, AllIds, After, ChannelsOk, SweptSome, SweptFrom, Of, Touched;
      ghost var before := channels;
      var order := Touched(channels, ids);
      removed := 0;
      NoneYet(before, ids);
      for k := 0 to |order|
        invariant ChannelsOk(channels) && SweptSome(before, channels, ids, Firsts(order, k))
        invariant removed == |AllIds(before)| - |AllIds(channels)|
      {
        BatchStep(before, channels, cutoff, ids, k);
        var count := SweepChannel(order[k], Of(channels[order[k]], ids));
        removed := removed + count;
      }
      AllDone(before, channels, ids);
    }

    /** SweepMessages: it ends, in batches, with nothing expired left, and with
        every channel as one sweep of all that was expired would leave it. */
    method SweepMessages(cutoff: Id) returns (removed: nat)
      requires ChannelsOk(channels)
      modifies this
      ensures ChannelsOk(channels) && SweptFrom(old(channels), channels, ExpiredAll(old(channels), cutoff))
      ensures ExpiredAll(channels, cutoff) == {}
      ensures removed == |AllIds(old(channels))| - |AllIds(channels)|
    {
      hide Valid, NewestShown, ExpiredAll, AllIds, ChannelsOk, SweptFrom;
      ghost var start := channels;
      ghost var gone: set<Id> := {};
      removed := 0;
      NothingSwept(channels);
      while true
        invariant ChannelsOk(channels) && SweptFrom(start, channels, gone)
        invariant gone + ExpiredAll(channels, cutoff) == ExpiredAll(start, cutoff)
        invariant removed == |AllIds(start)| - |AllIds(channels)|
        decreases |ExpiredAll(channels, cutoff)|
      {
        var ids := ListExpired(cutoff);
        if |ids| == 0 {
          assert ExpiredAll(channels, cutoff) == {};
          assert gone == ExpiredAll(start, cutoff);
          return;
        }
        ghost var before := channels;
        var batch := set id | id in ids;
        var count := SweepBatch(cutoff, batch);
        removed := removed + count;
        ExpiredAfterBatch(before, channels, cutoff, batch);
        SweptTwice(start, before, channels, cutoff, gone, batch);
        gone := gone + batch;
        assert ids[0] in batch;
        SubsetSize(ExpiredAll(before, cutoff) - batch, ExpiredAll(before, cutoff));
        if |ids| < BATCH {
          assert ExpiredAll(channels, cutoff) == {};
          assert gone == ExpiredAll(start, cutoff);
          return;
        }
      }
    }
  }

  lemma NothingListed(channels: Channels, c: Id, ids: set<Id>)
    requires ChannelsOk(channels) && c in channels && forall id :: id in ids ==> id !in channels[c].rows
    ensures channels[c] == After(channels[c], {}) && Of(channels[c], ids) == {}
  {
    hide Core, ThreadsOk, NewestShown;
    var log := channels[c];
    assert Swept(log, {}) == {};
    SweepNone(log, {});
  }

  lemma NothingSwept(channels: Channels)
    requires ChannelsOk(channels)
    ensures SweptFrom(channels, channels, {})
  {
    hide Valid, After;
    forall c | c in channels ensures channels[c] == After(channels[c], Of(channels[c], {})) {
      NothingListed(channels, c, {});
    }
  }
}
