/** ListMessages' pages of a timeline, a channel's or one thread's: the newest,
    those before and after a message, and a window around one. */
module Paging {
  import opened Options
  import opened ThreadSummaries
  import opened ChannelLog

  const DEFAULT_PAGE: int := 50
  const MAX_PAGE: int := 100

  function ClampPageSize(requested: int, fallback: int, maximum: int): (limit: int)
    ensures 0 < fallback <= maximum ==> 0 < limit <= maximum
    ensures requested <= 0 ==> limit == fallback
    ensures requested > 0 ==> limit <= requested && limit <= maximum && (limit == requested || limit == maximum)
  {
    if requested <= 0 then fallback else if requested < maximum then requested else maximum
  }

  /** What the channel lists, or the live replies under a root. */
  function Timeline(log: Log, thread: Option<Id>): set<Id> {
    match thread
    case None => ShownIds(log)
    case Some(root) => LiveReplies(log.rows, root)
  }

  /** The rows of a page, oldest first, and whether there may be more. */
  datatype Page = Page(ids: seq<Id>, hasOlder: bool, hasNewer: bool)

  function Below(line: set<Id>, before: Option<Id>): set<Id> {
    set id | id in line && (before.Some? ==> id < before.value)
  }

  function From(line: set<Id>, after: Id, inclusive: bool): set<Id> {
    set id | id in line && (after < id || (inclusive && id == after))
  }

  /** ListMessagesBefore and ListThreadBefore, turned oldest first. */
  function Before(line: set<Id>, before: Option<Id>, limit: nat): seq<Id> {
    LastOf(limit, Ascending(Below(line, before)))
  }

  /** ListMessagesAfter and ListThreadAfter. */
  function After(line: set<Id>, after: Id, inclusive: bool, limit: nat): seq<Id> {
    FirstOf(limit, Ascending(From(line, after, inclusive)))
  }

  /** A page in order that skips nothing of its timeline between its ends, and
      says so when nothing lies past one of them. */
  ghost predicate IsWindow(line: set<Id>, page: Page) {
    && Increasing(page.ids) && (forall id :: id in page.ids ==> id in line)
    && (|page.ids| > 0 ==> forall id :: id in line ==>
          || id in page.ids
          || (id < page.ids[0] && page.hasOlder)
          || (id > page.ids[|page.ids| - 1] && page.hasNewer))
  }

  /** The page next below a bound, or the newest: all of the timeline below it
      that is no older than the page's first, and as much as fits. */
  ghost predicate IsBeforePage(line: set<Id>, before: Option<Id>, limit: nat, page: Page) {
    && page.hasOlder == (|page.ids| == limit) && page.hasNewer == before.Some?
    && (forall id :: id in page.ids ==> before.Some? ==> id < before.value)
    && forall id :: id in line && (before.Some? ==> id < before.value) ==>
         id in page.ids || (|page.ids| == limit > 0 && id < page.ids[0])
  }

  /** The page next above a message. */
  ghost predicate IsAfterPage(line: set<Id>, after: Id, limit: nat, page: Page) {
    && page.hasOlder && page.hasNewer == (|page.ids| == limit)
    && (forall id :: id in page.ids ==> id > after)
    && forall id :: id in line && id > after ==>
         id in page.ids || (|page.ids| == limit > 0 && id > page.ids[|page.ids| - 1])
  }

  /** A page around a message: half of it the messages next below, the rest the
      message and those next above. */
  ghost predicate IsAroundPage(line: set<Id>, centre: Id, limit: nat, page: Page) {
    exists k: nat :: CentredAt(line, centre, limit, page, k)
  }

  ghost predicate CentredAt(line: set<Id>, centre: Id, limit: nat, page: Page, k: nat) {
    var older := limit / 2;
    var newer := limit - older;
    && k < |page.ids| && page.ids[k] == centre && k <= older && |page.ids| - k <= newer
    && page.hasOlder == (k == older) && page.hasNewer == (|page.ids| - k == newer)
    && (forall id :: id in line && id < centre ==> id in page.ids || (k == older && (k > 0 ==> id < page.ids[0])))
    && forall id :: id in line && id > centre ==>
         id in page.ids || (|page.ids| - k == newer && id > page.ids[|page.ids| - 1])
  }

  /** What a before-page holds: in order, everything below that is not older
      than its first. */
  lemma BeforeIs(line: set<Id>, before: Option<Id>, limit: nat)
    ensures var ids := Before(line, before, limit);
            && Increasing(ids) && |ids| <= limit
            && (forall id :: id in ids ==> id in Below(line, before))
            && (|ids| < limit ==> forall id :: id in Below(line, before) ==> id in ids)
            && (|ids| > 0 ==> forall id :: id in Below(line, before) ==> id in ids || id < ids[0])
            && (limit > 0 && Below(line, before) != {} ==> |ids| > 0)
  {
    hide Below, Ascending, LastOf;
    var all := Ascending(Below(line, before));
    LastIs(all, limit);
    assert forall id :: id in all <==> id in Below(line, before);
  }

  lemma AfterIs(line: set<Id>, after: Id, inclusive: bool, limit: nat)
    ensures var ids := After(line, after, inclusive, limit);
            && Increasing(ids) && |ids| <= limit
            && (forall id :: id in ids ==> id in From(line, after, inclusive))
            && (|ids| < limit ==> forall id :: id in From(line, after, inclusive) ==> id in ids)
            && (|ids| > 0 ==> forall id :: id in From(line, after, inclusive) ==> id in ids || id > ids[|ids| - 1])
            && (limit > 0 && From(line, after, inclusive) != {} ==> |ids| > 0)
  {
    hide From, Ascending, FirstOf;
    var all := Ascending(From(line, after, inclusive));
    FirstIs(all, limit);
    assert forall id :: id in all <==> id in From(line, after, inclusive);
  }

  // ---- A window ----------------------------------------------------------------------

  /** Whether a window can be centred on a message: it can be read, and a
      thread's window only on a reply of the thread. */
  predicate CanCentre(log: Log, thread: Option<Id>, around: Id) {
    Readable(log, around) && (thread.Some? ==> log.rows[around].root == thread)
  }

  /** What a window is centred on: the message, or in a channel, for a reply
      that shows only in its thread, its root and the thread to open. */
  method FindCentre(log: Log, thread: Option<Id>, around: Id) returns (centre: Option<Id>, openThread: Option<Id>)
    requires Valid(log)
    ensures centre.Some? <==> CanCentre(log, thread, around)
    ensures centre.Some? ==> centre.value in Timeline(log, thread)
    ensures centre.Some? && openThread.None? ==> centre.value == around
    ensures centre.None? ==> openThread.None?
    ensures centre.Some? ==> (openThread.Some? <==> thread.None? && !log.rows[around].inChannel)
    ensures openThread.Some? ==> centre == openThread && log.rows[around].root == openThread
  {
    hide StampsOk, IdsOk, BlankOk, PinsOk, NewestShown, Recounted;
    if !Readable(log, around) {
      return None, None;
    }
    ReadableReply(log, around);
    if if thread.None? then log.rows[around].inChannel else log.rows[around].root == thread {
      return Some(around), None;
    }
    if thread.Some? || log.rows[around].root.None? {
      return None, None;
    }
    return log.rows[around].root, log.rows[around].root;
  }

  /** A reply that can be read is live, its root can be too, and it is not its
      own root. */
  lemma ReadableReply(log: Log, id: Id)
    requires Valid(log) && Readable(log, id)
    ensures log.rows[id].root.None? ==> log.rows[id].inChannel
    ensures log.rows[id].root.Some? ==>
      && log.rows[id].root.value != id && id in LiveReplies(log.rows, log.rows[id].root.value)
      && log.rows[id].root.value in ShownIds(log)
  {
    hide StampsOk, IdsOk, BlankOk, PinsOk, NewestShown, Recounted;
    if log.rows[id].root.Some? {
      var root := log.rows[id].root.value;
      assert id in log.threads ==> TopLevel(log, id);
      assert id in LiveReplies(log.rows, root);
      assert ThreadOk(log, root) && TopLevel(log, root);
    }
  }

  /** around_id: half the page before the message and the rest from it on. The
      message is in it, and nothing of the timeline between its ends is
      missed. */
  method ListAround(line: set<Id>, centre: Id, limit: nat) returns (page: Page)
    requires limit > 0 && centre in line
    ensures IsWindow(line, page) && centre in page.ids && |page.ids| <= limit
    ensures IsAroundPage(line, centre, limit, page)
  {
    hide Before, After;
    var older := limit / 2;
    var newer := limit - older;
    var before := Before(line, Some(centre), older);
    var after := After(line, centre, true, newer);
    BeforeIs(line, Some(centre), older);
    AfterIs(line, centre, true, newer);
    page := Page(before + after, |before| == older, |after| == newer);
    assert centre in From(line, centre, true);
    StartsAt(after, centre);
    WindowJoins(line, centre, before, after, page);
    Centred(line, centre, limit, before, after, page);
  }

  lemma Centred(line: set<Id>, centre: Id, limit: nat, before: seq<Id>, after: seq<Id>, page: Page)
    requires limit > 0 && page.ids == before + after && |after| > 0 && after[0] == centre
    requires |before| <= limit / 2 && |after| <= limit - limit / 2
    requires page.hasOlder == (|before| == limit / 2) && page.hasNewer == (|after| == limit - limit / 2)
    requires forall id :: id in line && id < centre ==>
      id in before || (|before| == limit / 2 && (|before| > 0 ==> id < before[0]))
    requires forall id :: id in line && id > centre ==>
      id in after || (|after| == limit - limit / 2 && id > after[|after| - 1])
    ensures IsAroundPage(line, centre, limit, page)
  {
    var k := |before|;
    assert page.ids[k] == centre && page.ids[|page.ids| - 1] == after[|after| - 1];
    assert k > 0 ==> page.ids[0] == before[0];
    assert CentredAt(line, centre, limit, page, k);
  }

  lemma StartsAt(ids: seq<Id>, least: Id)
    requires |ids| > 0 && Increasing(ids) && forall id :: id in ids ==> least <= id
    requires least in ids || least > ids[|ids| - 1]
    ensures ids[0] == least
  {
    assert ids[0] in ids && ids[|ids| - 1] in ids;
  }

  lemma WindowJoins(line: set<Id>, centre: Id, before: seq<Id>, after: seq<Id>, page: Page)
    requires page.ids == before + after && |after| > 0 && after[0] == centre && Increasing(before) && Increasing(after)
    requires forall id :: id in before ==> id in line && id < centre
    requires forall id :: id in after ==> id in line
    requires forall id :: id in line && id < centre ==>
      id in before || (page.hasOlder && (|before| > 0 ==> id < before[0]))
    requires forall id :: id in line && id >= centre ==> id in after || (page.hasNewer && id > after[|after| - 1])
    ensures IsWindow(line, page) && centre in page.ids
  {
    forall j, k | 0 <= j < k < |page.ids| ensures page.ids[j] < page.ids[k] {
      if j < |before| <= k {
        assert before[j] in before && page.ids[j] == before[j];
        assert after[k - |before|] >= after[0];
      }
    }
    assert page.ids[|before|] == centre;
  }

  // ---- ListMessages -------------------------------------------------------------------

  datatype Answer = Invalid | NotFound | Listed(page: Page, openThread: Option<Id>)

  /** A thread's pages are of a root that can be read. */
  predicate ThreadFound(log: Log, thread: Option<Id>) {
    thread.Some? ==> Readable(log, thread.value) && TopLevel(log, thread.value)
  }

  predicate Clashing(before: Option<Id>, after: Option<Id>, around: Option<Id>) {
    (before.Some? && after.Some?) || (around.Some? && (before.Some? || after.Some?))
  }

  lemma AfterWindow(line: set<Id>, after: Id, limit: nat)
    requires limit > 0
    ensures var page := Page(After(line, after, false, limit), true, |After(line, after, false, limit)| == limit);
            IsWindow(line, page) && |page.ids| <= limit && IsAfterPage(line, after, limit, page)
  {
    hide After;
    AfterIs(line, after, false, limit);
    var ids := After(line, after, false, limit);
    assert |ids| > 0 ==> ids[0] in ids;
  }

  lemma BeforeWindow(line: set<Id>, before: Option<Id>, limit: nat)
    requires limit > 0
    ensures var page := Page(Before(line, before, limit), |Before(line, before, limit)| == limit, before.Some?);
            IsWindow(line, page) && |page.ids| <= limit && IsBeforePage(line, before, limit, page)
  {
    hide Before;
    BeforeIs(line, before, limit);
    var ids := Before(line, before, limit);
    assert |ids| > 0 ==> ids[|ids| - 1] in ids;
  }

  method ListMessages(log: Log, thread: Option<Id>, before: Option<Id>, after: Option<Id>, around: Option<Id>,
                      requested: int) returns (answer: Answer)
    requires Valid(log)
    ensures answer.Invalid? <==> ThreadFound(log, thread) && Clashing(before, after, around)
    ensures answer.NotFound? <==>
      || !ThreadFound(log, thread)
      || (!Clashing(before, after, around) && around.Some? && !CanCentre(log, thread, around.value))
    ensures var line, limit := Timeline(log, thread), ClampPageSize(requested, DEFAULT_PAGE, MAX_PAGE);
            answer.Listed? ==>
              && IsWindow(line, answer.page) && |answer.page.ids| <= limit
              && (after.None? && around.None? ==> IsBeforePage(line, before, limit, answer.page))
              && (after.Some? ==> IsAfterPage(line, after.value, limit, answer.page))
              && (around.Some? ==> IsAroundPage(line, Centre(around.value, answer.openThread), limit, answer.page))
              && (around.None? ==> answer.openThread.None?)
    ensures answer.Listed? && around.Some? ==>
      && CanCentre(log, thread, around.value)
      && (answer.openThread.Some? <==> thread.None? && !log.rows[around.value].inChannel)
      && (answer.openThread.Some? ==> log.rows[around.value].root == answer.openThread)
  {
    hide Before, After, Timeline, Valid, IsWindow, IsBeforePage, IsAfterPage, IsAroundPage;
    var limit := ClampPageSize(requested, DEFAULT_PAGE, MAX_PAGE);
    if thread.Some? && !(Readable(log, thread.value) && TopLevel(log, thread.value)) {
      return NotFound;
    }
    if Clashing(before, after, around) {
      return Invalid;
    }
    var line := Timeline(log, thread);
    if after.Some? {
      var ids := After(line, after.value, false, limit);
      AfterWindow(line, after.value, limit);
      return Listed(Page(ids, true, |ids| == limit), None);
    }
    if around.Some? {
      var centre, openThread := FindCentre(log, thread, around.value);
      if centre.None? {
        return NotFound;
      }
      var page := ListAround(line, centre.value, limit);
      return Listed(page, openThread);
    }
    var ids := Before(line, before, limit);
    BeforeWindow(line, before, limit);
    return Listed(Page(ids, |ids| == limit, before.Some?), None);
  }

  /** The message a window is on: the one asked for, or the thread's root. */
  function Centre(around: Id, openThread: Option<Id>): Id {
    if openThread.Some? then openThread.value else around
  }

  // ---- Paging back -----------------------------------------------------------------------

  /** Paging back from the newest, each page before the last one's first: it
      ends, and every message of the timeline is on exactly one page. */
  method PageBack(line: set<Id>, limit: nat) returns (seen: seq<Id>)
    requires limit > 0
    ensures Increasing(seen) && forall id :: id in seen <==> id in line
  {
    hide Before;
    seen := [];
    var before: Option<Id> := None;
    var hasOlder := true;
    while hasOlder
      invariant Increasing(seen)
      invariant forall id :: id in seen ==> id in line
      invariant hasOlder ==> forall id :: id in seen ==> before.Some? && before.value <= id
      invariant forall id :: id in line ==> id in seen || id in Below(line, before)
      invariant !hasOlder ==> forall id :: id in line ==> id in seen
      decreases hasOlder, |Below(line, before)|
    {
      var page := Before(line, before, limit);
      BeforeIs(line, before, limit);
      ghost var left := Below(line, before);
      forall j, k | 0 <= j < k < |page + seen| ensures (page + seen)[j] < (page + seen)[k] {
        if j < |page| <= k {
          assert page[j] in left && seen[k - |page|] in seen;
        }
      }
      seen := page + seen;
      hasOlder := |page| == limit;
      if hasOlder {
        assert page[0] in left;
        before := Some(page[0]);
        FewerLeft(line, left, page);
      }
    }
  }

  lemma FewerLeft(line: set<Id>, left: set<Id>, page: seq<Id>)
    requires |page| > 0 && page[0] in left && Below(line, Some(page[0])) <= left
    ensures |Below(line, Some(page[0]))| < |left|
  {
    var now := Below(line, Some(page[0]));
    assert page[0] !in now;
    SubsetSize(now, left);
  }
}
