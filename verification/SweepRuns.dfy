/** The sweep while the channels go on changing: other transactions commit
    between its listings and its deletes, and channels come and go. */
module SweepRuns {
  import opened Options
  import opened ThreadSummaries
  import opened ChannelLog
  import opened Transactions
  import opened LogSafety
  import opened Sweeping

  /** Where SweepMessages is: about to list, with channels of a batch left to
      sweep, or done. `short` is that the batch was not a full one. */
  datatype Phase = Listing | Taking(left: map<Id, set<Id>>, short: bool) | Finished

  datatype State = State(channels: Channels, phase: Phase)

  datatype Step = Commit(c: Id, log: Log) | Open(c: Id) | Drop(c: Id) | List(ids: seq<Id>) | Take(c: Id)

  /** What ListExpired answers. */
  ghost predicate IsBatch(channels: Channels, cutoff: Id, ids: seq<Id>) {
    && |ids| <= BATCH && (forall id :: id in ids ==> id in ExpiredAll(channels, cutoff))
    && (|ids| < BATCH ==> forall id :: id in ExpiredAll(channels, cutoff) ==> id in ids)
  }

  function ByChannel(channels: Channels, ids: set<Id>): map<Id, set<Id>> {
    map c | c in channels && Of(channels[c], ids) != {} :: Of(channels[c], ids)
  }

  function Taken(phase: Phase, c: Id): Phase
    requires phase.Taking?
  {
    var left := phase.left - {c};
    if left != map[] then Taking(left, phase.short) else if phase.short then Finished else Listing
  }

  /** A message committed meanwhile is newer than the cutoff. */
  ghost predicate Next(cutoff: Id, s: State, step: Step, after: State) {
    match step
    case Commit(c, log) =>
      && c in s.channels && Extends(s.channels[c], log)
      && (forall id :: id in log.rows && id !in s.channels[c].rows ==> cutoff <= id)
      && after == s.(channels := s.channels[c := log])
    case Open(c) => c !in s.channels && after == s.(channels := s.channels[c := EMPTY_LOG])
    case Drop(c) => after == s.(channels := s.channels - {c})
    case List(ids) =>
      && s.phase.Listing? && IsBatch(s.channels, cutoff, ids)
      && after == s.(phase := if |ids| == 0 then Finished
                              else Taking(ByChannel(s.channels, set id | id in ids), |ids| < BATCH))
    case Take(c) =>
      && s.phase.Taking? && c in s.phase.left
      && after == State(if c in s.channels then s.channels[c := After(s.channels[c], s.phase.left[c])] else s.channels,
                        Taken(s.phase, c))
  }

  ghost predicate IsRun(cutoff: Id, states: seq<State>, steps: seq<Step>) {
    && |states| == |steps| + 1 && states[0].phase == Listing
    && forall k :: 0 <= k < |steps| ==> Next(cutoff, states[k], steps[k], states[k + 1])
  }

  // ---- It ends ------------------------------------------------------------------------

  /** The rows older than the cutoff, by channel. */
  function OldRows(channels: Channels, cutoff: Id): set<(Id, Id)> {
    set c, id | c in channels && id in channels[c].rows && id < cutoff :: (c, id)
  }

  function Pending(phase: Phase): set<(Id, Id)> {
    if phase.Taking? then set c, id | c in phase.left && id in phase.left[c] :: (c, id) else {}
  }

  /** How many listings found something. */
  function Rounds(steps: seq<Step>): nat {
    if |steps| == 0 then 0
    else
      var last := steps[|steps| - 1];
      Rounds(steps[..|steps| - 1]) + (if last.List? && |last.ids| > 0 then 1 else 0)
  }

  function Ahead(cutoff: Id, s: State): set<(Id, Id)> {
    OldRows(s.channels, cutoff) - Pending(s.phase)
  }

  predicate IsOld(channels: Channels, cutoff: Id, c: Id, id: Id) {
    c in channels && id in channels[c].rows && id < cutoff
  }

  predicate IsPending(phase: Phase, c: Id, id: Id) {
    phase.Taking? && c in phase.left && id in phase.left[c]
  }

  lemma AheadIs(cutoff: Id, s: State, c: Id, id: Id)
    ensures (c, id) in Ahead(cutoff, s) <==> IsOld(s.channels, cutoff, c, id) && !IsPending(s.phase, c, id)
  {
  }

  lemma AheadBefore(cutoff: Id, s: State, step: Step, after: State, c: Id, id: Id)
    requires Next(cutoff, s, step, after) && !step.List?
    requires IsOld(after.channels, cutoff, c, id) && !IsPending(after.phase, c, id)
    ensures IsOld(s.channels, cutoff, c, id) && !IsPending(s.phase, c, id)
  {
    hide ExpiredAll, NewestShown, Extends, IsBatch, ByChannel;
    if step.Take? && c != step.c {
      assert c in s.phase.left ==> c in s.phase.left - {step.c};
    }
  }

  lemma FewerAhead(cutoff: Id, s: State, step: Step, after: State)
    requires Next(cutoff, s, step, after) && !step.List?
    ensures Ahead(cutoff, after) <= Ahead(cutoff, s)
  {
    hide Next, IsOld, IsPending, Ahead;
    forall pair: (Id, Id) | pair in Ahead(cutoff, after) ensures pair in Ahead(cutoff, s) {
      var (c, id) := pair;
      assert pair == (c, id);
      AheadIs(cutoff, after, c, id);
      AheadBefore(cutoff, s, step, after, c, id);
      AheadIs(cutoff, s, c, id);
    }
  }

  lemma FirstTaken(cutoff: Id, s: State, ids: seq<Id>, after: State) returns (c: Id)
    requires Next(cutoff, s, List(ids), after) && |ids| > 0
    ensures IsOld(s.channels, cutoff, c, ids[0]) && IsPending(after.phase, c, ids[0]) && after.channels == s.channels
  {
    assert ids[0] in ExpiredAll(s.channels, cutoff);
    c :| c in s.channels && ids[0] in s.channels[c].rows && Expired(s.channels[c], cutoff, ids[0]);
    assert ids[0] in Of(s.channels[c], set id | id in ids);
  }

  lemma ListingTakes(cutoff: Id, s: State, ids: seq<Id>, after: State)
    requires Next(cutoff, s, List(ids), after)
    ensures |Ahead(cutoff, after)| + (if |ids| > 0 then 1 else 0) <= |Ahead(cutoff, s)|
  {
    hide IsBatch, ByChannel, OldRows, IsOld, IsPending, BATCH;
    var before, now := Ahead(cutoff, s), Ahead(cutoff, after);
    assert now <= before;
    SubsetSize(now, before);
    if |ids| > 0 {
      hide Ahead;
      var c := FirstTaken(cutoff, s, ids, after);
      AheadIs(cutoff, s, c, ids[0]);
      AheadIs(cutoff, after, c, ids[0]);
      NotPending(s.phase, c, ids[0]);
      assert (c, ids[0]) in before && (c, ids[0]) !in now;
    }
  }

  lemma NotPending(phase: Phase, c: Id, id: Id)
    requires phase.Listing?
    ensures !IsPending(phase, c, id)
  {
  }

  /** Every listing that finds something takes rows older than the cutoff for
      good, and nothing adds any: whatever commits in between, the sweep lists
      no more often than there were such rows. */
  lemma {:induction false} SweepEnds(cutoff: Id, states: seq<State>, steps: seq<Step>)
    requires IsRun(cutoff, states, steps)
    ensures Rounds(steps) + |Ahead(cutoff, states[|steps|])| <= |OldRows(states[0].channels, cutoff)|
    decreases |steps|
  {
    hide Next, OldRows, Pending;
    if |steps| == 0 {
      NothingPending(cutoff, states[0]);
    } else {
      var n := |steps| - 1;
      SweepEnds(cutoff, states[..n + 1], steps[..n]);
      if steps[n].List? {
        ListingTakes(cutoff, states[n], steps[n].ids, states[n + 1]);
      } else {
        FewerAhead(cutoff, states[n], steps[n], states[n + 1]);
        SubsetSize(Ahead(cutoff, states[n + 1]), Ahead(cutoff, states[n]));
      }
    }
  }

  lemma NothingPending(cutoff: Id, s: State)
    requires s.phase == Listing
    ensures Ahead(cutoff, s) == OldRows(s.channels, cutoff)
  {
  }

  // ---- What it can miss ------------------------------------------------------------------

  /** Every old row was there when the sweep last listed, and unless it was
      pinned then its root is still on the list. */
  ghost predicate Tracked(cutoff: Id, listed: Channels, s: State) {
    forall c, id :: c in s.channels && id in s.channels[c].rows && id < cutoff ==> TrackedAt(listed, s, c, id)
  }

  ghost predicate TrackedAt(listed: Channels, s: State, c: Id, id: Id)
    requires c in s.channels && id in s.channels[c].rows
  {
    && c in listed && id in listed[c].rows && listed[c].rows[id].root == s.channels[c].rows[id].root
    && (TopLevel(listed[c], id) && id !in listed[c].pins ==>
          s.phase.Taking? && c in s.phase.left && id in s.phase.left[c])
  }

  lemma ListedTracked(cutoff: Id, s: State, ids: seq<Id>, after: State)
    requires Next(cutoff, s, List(ids), after) && |ids| < BATCH
    ensures Tracked(cutoff, s.channels, after)
  {
    var listed := set id | id in ids;
    forall c, id | c in after.channels && id in after.channels[c].rows && id < cutoff
      ensures TrackedAt(s.channels, after, c, id)
    {
      if TopLevel(s.channels[c], id) && id !in s.channels[c].pins {
        assert Expired(s.channels[c], cutoff, id);
        assert id in ExpiredAll(s.channels, cutoff);
        assert id in Of(s.channels[c], listed);
      }
    }
  }

  /** An old row of a later state is one of the earlier, of the same root, and
      still listed if it was. */
  lemma OldBefore(cutoff: Id, s: State, step: Step, after: State, c: Id, id: Id)
    requires Next(cutoff, s, step, after) && !step.List?
    requires c in after.channels && id in after.channels[c].rows && id < cutoff
    ensures c in s.channels && id in s.channels[c].rows
    ensures after.channels[c].rows[id].root == s.channels[c].rows[id].root
    ensures IsPending(s.phase, c, id) ==> IsPending(after.phase, c, id)
  {
    hide ExpiredAll, NewestShown, IsBatch, Extends, ByChannel;
    match step {
      case Commit(d, log) =>
        if d == c {
          SameRoot(s.channels[c], log, id);
        }
      case Take(d) =>
        if c != d && c in s.phase.left {
          assert c in s.phase.left - {d};
        }
      case _ =>
    }
  }

  lemma StaysTracked(cutoff: Id, listed: Channels, s: State, step: Step, after: State)
    requires Next(cutoff, s, step, after) && !step.List? && Tracked(cutoff, listed, s)
    ensures Tracked(cutoff, listed, after)
  {
    hide Next;
    forall c, id | c in after.channels && id in after.channels[c].rows && id < cutoff
      ensures TrackedAt(listed, after, c, id)
    {
      OldBefore(cutoff, s, step, after, c, id);
      assert TrackedAt(listed, s, c, id);
    }
  }

  lemma SameRoot(before: Log, after: Log, id: Id)
    requires Extends(before, after) && id in after.rows && id in before.rows
    ensures after.rows[id].root == before.rows[id].root
  {
    assert Follows(before, after, id);
  }

  /** When the sweep is done, any message it should have taken and did not was
      pinned when it last listed; so was one it has still to take, or it is on
      its list. */
  lemma {:induction false} SweepMisses(cutoff: Id, states: seq<State>, steps: seq<Step>) returns (j: nat)
    requires IsRun(cutoff, states, steps)
    requires var phase := states[|steps|].phase; phase.Finished? || (phase.Taking? && phase.short)
    ensures j < |steps| && steps[j].List? && Tracked(cutoff, states[j].channels, states[|steps|])
    decreases |steps|
  {
    hide Tracked, IsBatch, Extends;
    assert |steps| > 0;
    var n := |steps| - 1;
    assert Next(cutoff, states[n], steps[n], states[n + 1]);
    if steps[n].List? {
      j := n;
      ListedTracked(cutoff, states[n], steps[n].ids, states[n + 1]);
    } else {
      j := SweepMisses(cutoff, states[..n + 1], steps[..n]);
      StaysTracked(cutoff, states[j].channels, states[n], steps[n], states[n + 1]);
    }
  }

  /** So what is expired once the sweep is done was pinned then, and has been
      unpinned since. */
  lemma OnlyUnpinnedLeft(cutoff: Id, states: seq<State>, steps: seq<Step>, c: Id, id: Id) returns (j: nat)
    requires IsRun(cutoff, states, steps) && states[|steps|].phase.Finished?
    requires var channels := states[|steps|].channels; c in channels && Expired(channels[c], cutoff, id)
    ensures j < |steps| && steps[j].List?
    ensures c in states[j].channels && id in states[j].channels[c].rows && id in states[j].channels[c].pins
    ensures id !in states[|steps|].channels[c].pins
  {
    hide Next;
    j := SweepMisses(cutoff, states, steps);
    assert TrackedAt(states[j].channels, states[|steps|], c, id);
  }
}
