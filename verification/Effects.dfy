/** What each transaction does: when it commits, the positions it spends and
    on which rows, and that no other row changes. */
module Effects {
  import opened Options
  import opened ThreadSummaries
  import opened ChannelLog
  import opened Transactions
  import opened LogSafety
  import opened ChannelRuns
  import Sweeping

  /** When a call's transaction commits. */
  predicate Commits(log: Log, call: Call) {
    match call
    case Send(_, thread, _, _, _) => thread.Some? ==> IsLive(log, thread.value)
    case Edit(id, _, _, _) => IsLive(log, id)
    case React(id, _) => IsLive(log, id)
    case Pin(id) => IsLive(log, id) && id !in log.pins && |log.pins| < MAX_PINS
    case Unpin(id) => id in log.pins
    case DismissLink(id, url) => IsLive(log, id) && HasUrl(log.rows[id].extras.links, url)
    case Previewed(id) => IsLive(log, id)
    case DeleteTopLevel(id) => IsLive(log, id)
    case DeleteReply(id, _, _) => IsLive(log, id)
    case DeleteThread(root, sawDeleted) => root in log.rows && (sawDeleted || !log.rows[root].deleted)
    case Sweep(_) => true
  }

  /** The rows a committed call stamps, in order. */
  function Spent(log: Log, call: Call, id: Id): seq<Id> {
    match call
    case Send(_, thread, _, _, _) => if thread.Some? then [id, thread.value] else [id]
    case Edit(at, _, _, _) => [at]
    case React(at, _) => [at]
    case Pin(at) => [at]
    case Unpin(at) => [at]
    case DismissLink(at, _) => [at]
    case Previewed(at) => [at]
    case DeleteTopLevel(at) => [at]
    case DeleteReply(at, root, _) => [at, root]
    case DeleteThread(root, _) => LiveInOrder(log.rows, root) + [root]
    case Sweep(_) => []
  }

  /** Which calls commit: no more than their handler's check can still be
      undone by what committed since. */
  lemma CommitsWhen(log: Log, call: Call, id: Id)
    requires Valid(log) && StillFits(log, call)
    ensures Apply(log, call, id).Committed? <==> Commits(log, call)
  {
    hide StampsOk, Recounted, NewestShown, ThreadOk;
    match call {
      case DeleteReply(at, root, inChannel) =>
        if IsLive(log, at) {
          ReplyInThread(log, at, root);
          assert TopLevel(log, root);
        }
      case Unpin(at) =>
        if at in log.pins {
          assert IsLive(log, at);
        }
      case DismissLink(at, url) =>
        if at in log.rows && HasUrl(log.rows[at].extras.links, url) {
          assert |log.rows[at].extras.links| > 0;
        }
      case _ =>
    }
  }

  /** Each position spent stamps one row, in commit order, and a row that is
      not stamped is as it was. */
  lemma SpendsExactly(log: Log, call: Call, id: Id)
    requires Valid(log) && StillFits(log, call) && log.minted < id && Commits(log, call)
    ensures var outcome := Apply(log, call, id);
            && outcome.Committed?
            && outcome.log.stamps == log.stamps + Spent(log, call, id)
            && outcome.log.seqNo == log.seqNo + |Spent(log, call, id)|
            && forall x :: x in outcome.log.rows && x !in Spent(log, call, id) ==>
                 x in log.rows && ViewOf(outcome.log, x) == ViewOf(log, x)
  {
    hide Recounted, NewestShown, BuryAll, LiveReplies, Recorded, Valid, StillFits, SendTx, DeleteReplyTx, DeleteThreadTx;
    CommitsWhen(log, call, id);
    match call {
      case DeleteThread(root, sawDeleted) => ThreadSpends(log, root, sawDeleted);
      case Send(_, _, _, _, _) => SendSpends(log, call, id);
      case DeleteReply(at, root, inChannel) => ReplySpends(log, at, root, inChannel);
      case _ =>
    }
  }

  lemma SendSpends(log: Log, call: Call, id: Id)
    requires call.Send? && SendTx(log, call, id).Committed?
    ensures var after, spent := SendTx(log, call, id).log, Spent(log, call, id);
            && after.stamps == log.stamps + spent && after.seqNo == log.seqNo + |spent|
            && (forall x :: x in after.rows && x !in spent ==> x in log.rows && ViewOf(after, x) == ViewOf(log, x))
  {
    hide Recorded;
    if call.thread.Some? {
      assert log.stamps + [id] + [call.thread.value] == log.stamps + [id, call.thread.value];
    }
  }

  lemma ReplySpends(log: Log, id: Id, root: Id, inChannel: bool)
    requires DeleteReplyTx(log, id, root, inChannel).Committed?
    ensures var after := DeleteReplyTx(log, id, root, inChannel).log;
            && after.stamps == log.stamps + [id, root] && after.seqNo == log.seqNo + 2
            && (forall x :: x in after.rows && x != id && x != root ==> x in log.rows && ViewOf(after, x) == ViewOf(log, x))
  {
    hide NewestShown, Recounted, LiveReplies;
    assert log.stamps + [id] + [root] == log.stamps + [id, root];
  }

  lemma ThreadSpends(log: Log, root: Id, sawDeleted: bool)
    requires DeleteThreadTx(log, root, sawDeleted).Committed?
    ensures var after, spent := DeleteThreadTx(log, root, sawDeleted).log, LiveInOrder(log.rows, root) + [root];
            && after.stamps == log.stamps + spent && after.seqNo == log.seqNo + |spent|
            && (forall x :: x in after.rows && x !in spent ==> x in log.rows && ViewOf(after, x) == ViewOf(log, x))
  {
    hide NewestShown, BuryAll, LiveInOrder;
    var ids := LiveInOrder(log.rows, root);
    BuriedStamps(log, ids);
    assert log.stamps + ids + [root] == log.stamps + (ids + [root]);
  }

  /** What a caller sees of a write that committed, on the row it was about. */
  ghost predicate Granted(log: Log, call: Call, id: Id, after: Log) {
    match call
    case Send(author, thread, alsoSend, content, extras) =>
      && id !in log.rows && IsLive(after, id) && id !in after.pins && id !in after.threads
      && after.rows[id].author == author && after.rows[id].root == thread
      && after.rows[id].content == content && after.rows[id].extras == extras
      && (after.rows[id].inChannel <==> thread.None? || alsoSend)
      && (after.last == Some(id) <==> thread.None? || alsoSend)
      && (thread.Some? ==>
            && id in LiveReplies(after.rows, thread.value) && thread.value in after.threads
            && after.threads[thread.value].last == id
            && after.threads[thread.value].count == |LiveReplies(log.rows, thread.value)| + 1
            && [author] <= after.threads[thread.value].recent
            && OnlyStamped(log, after, thread.value) && SamePin(log, after, thread.value))
    case Edit(at, text, urls, previewing) =>
      && at in log.rows && IsLive(after, at) && SamePin(log, after, at) && SummaryOf(after, at) == SummaryOf(log, at)
      && after.rows[at].content.text == text && after.rows[at].content.edited
      && OnlyTextAndLinks(log.rows[at], after.rows[at])
      && LinksOf(log.rows[at].extras.links, after.rows[at].extras.links, urls, previewing)
    case React(at, reaction) =>
      && at in log.rows && at in after.rows
      && (reaction in after.rows[at].extras.reactions <==> reaction !in log.rows[at].extras.reactions)
      && (forall r :: r != reaction ==>
            (r in after.rows[at].extras.reactions <==> r in log.rows[at].extras.reactions))
      && OnlyExtras(log, after, at)
      && after.rows[at].extras == log.rows[at].extras.(reactions := after.rows[at].extras.reactions)
    case Pin(at) =>
      && at in after.pins && at !in log.pins && IsLive(after, at) && |after.pins| == |log.pins| + 1 <= MAX_PINS
      && OnlyStamped(log, after, at) && SummaryOf(after, at) == SummaryOf(log, at)
      && forall x :: x != at ==> (x in after.pins <==> x in log.pins)
    case Unpin(at) =>
      && at !in after.pins && at in log.pins && IsLive(after, at) && |after.pins| == |log.pins| - 1
      && OnlyStamped(log, after, at) && SummaryOf(after, at) == SummaryOf(log, at)
      && forall x :: x != at ==> (x in after.pins <==> x in log.pins)
    case DismissLink(at, url) =>
      && at in log.rows && at in after.rows && OnlyExtras(log, after, at)
      && after.rows[at].extras == log.rows[at].extras.(links := after.rows[at].extras.links)
      && var before, links := log.rows[at].extras.links, after.rows[at].extras.links;
      && |links| == |before| && HasUrl(links, url)
      && (forall k :: 0 <= k < |links| ==>
            && links[k].url == before[k].url
            && (links[k].dismissed <==> before[k].dismissed || links[k].url == url))
    case Previewed(at) =>
      OnlyStamped(log, after, at) && SamePin(log, after, at) && SummaryOf(after, at) == SummaryOf(log, at)
    case DeleteTopLevel(at) =>
      && at in after.rows && IsBlank(after, at) && SummaryOf(after, at) == SummaryOf(log, at)
      && (Readable(after, at) <==> LiveReplies(log.rows, at) != {})
    case DeleteReply(at, root, _) =>
      && at in after.rows && IsBlank(after, at) && Hidden(after, at) && root in log.rows && root in after.rows
      && (Readable(after, root) <==> !log.rows[root].deleted || LiveReplies(log.rows, root) != {at})
      && SummaryOf(after, root) == Recount(after.rows, root)
      && OnlyStamped(log, after, root) && SamePin(log, after, root)
    case DeleteThread(root, _) =>
      && Hidden(after, root) && root !in after.pins
      && forall x :: x in log.rows && log.rows[x].root == Some(root) ==> Hidden(after, x)
    case Sweep(roots) =>
      forall x :: x in log.rows ==>
        && (x in after.rows <==> RootOf(log, x) !in roots)
        && (x in after.rows ==> ViewOf(after, x) == ViewOf(log, x))
  }

  /** The row is as it was but for its position. */
  predicate OnlyStamped(log: Log, after: Log, id: Id) {
    id in log.rows && id in after.rows && after.rows[id] == log.rows[id].(seqNo := after.rows[id].seqNo)
  }

  predicate SamePin(log: Log, after: Log, id: Id) {
    id in after.pins <==> id in log.pins
  }

  /** The message is as it was but for its position and what hangs off it. */
  predicate OnlyExtras(log: Log, after: Log, id: Id) {
    && id in log.rows && id in after.rows && SamePin(log, after, id) && SummaryOf(after, id) == SummaryOf(log, id)
    && after.rows[id] == log.rows[id].(seqNo := after.rows[id].seqNo, extras := after.rows[id].extras)
  }

  predicate IsBlank(log: Log, id: Id)
    requires id in log.rows
  {
    log.rows[id].deleted && log.rows[id].content == NO_CONTENT && log.rows[id].extras == NO_EXTRAS && id !in log.pins
  }

  /** An edit's row keeps what it is a message of, who it alerts, its reactions
      and its files. */
  predicate OnlyTextAndLinks(before: Row, after: Row) {
    && after.author == before.author && after.root == before.root && after.inChannel == before.inChannel
    && after.content.entireChannel == before.content.entireChannel && after.content.here == before.content.here
    && after.extras.mentions == before.extras.mentions && after.extras.reactions == before.extras.reactions
    && after.extras.files == before.extras.files
  }

  /** With previews, a link for each address in order, dismissed exactly if one
      to the address was; without, the links still there. */
  ghost predicate LinksOf(before: seq<Link>, after: seq<Link>, urls: seq<string>, previewing: bool) {
    if previewing then
      && |after| == |urls|
      && forall k :: 0 <= k < |urls| ==>
           after[k].url == urls[k] && (after[k].dismissed <==> Link(urls[k], true) in before)
    else forall link :: link in after <==> link in before && link.url in urls
  }

  lemma SendGranted(log: Log, call: Call, id: Id)
    requires Valid(log) && StillFits(log, call) && log.minted < id && call.Send? && Commits(log, call)
    ensures Granted(log, call, id, SendTx(log, call, id).log)
  {
    hide NewestShown, StampsOk, BlankOk, PinsOk, AuthorsByNewest, Core;
    var after := SendTx(log, call, id).log;
    CommitsWhen(log, call, id);
    NewId(log, id);
    if call.thread.Some? {
      var root := call.thread.value;
      assert ThreadOk(log, root);
      assert id in LiveReplies(after.rows, root);
      RecordedIs(SummaryOf(log, root), id, call.author);
    }
    LastIsOld(log);
  }

  lemma NewId(log: Log, id: Id)
    requires Valid(log) && log.minted < id
    ensures IdsOk(log) && id !in log.rows && id !in log.pins && id !in log.threads
  {
    hide StampsOk, BlankOk, RootsOk, ThreadOk;
    assert id in log.pins ==> IsLive(log, id);
    assert id in log.threads ==> TopLevel(log, id);
  }

  lemma LastIsOld(log: Log)
    requires Valid(log)
    ensures log.last.Some? ==> log.last.value <= log.minted
  {
    hide StampsOk, BlankOk, PinsOk, RootsOk, ThreadsOk;
    if log.last.Some? {
      assert log.last.value in ShownIds(log);
    }
  }

  lemma RecordedIs(summary: Option<Summary>, id: Id, author: Person)
    ensures var s := Recorded(summary, id, author);
            s.last == id && [author] <= s.recent && s.count == (if summary.None? then 0 else summary.value.count) + 1
  {
    hide Without;
  }

  lemma LinksGranted(links: seq<Link>, urls: seq<string>)
    ensures LinksOf(links, RecordedLinks(links, urls), urls, true)
    ensures LinksOf(links, KeptLinks(links, urls), urls, false)
  {
    KeptAre(links, urls);
    forall url ensures url in DismissedUrls(links) <==> Link(url, true) in links {
      if Link(url, true) in links {
        var k :| 0 <= k < |links| && links[k] == Link(url, true);
        assert links[k].url in DismissedUrls(links);
      }
    }
  }

  lemma EditGranted(log: Log, call: Call, id: Id)
    requires call.Edit? && IsLive(log, call.id)
    ensures Granted(log, call, id, EditTx(log, call).log)
  {
    hide RecordedLinks, KeptLinks, LinksOf;
    LinksGranted(log.rows[call.id].extras.links, call.urls);
  }

  lemma DeletesGranted(log: Log, call: Call, id: Id)
    requires Valid(log) && StillFits(log, call) && Commits(log, call)
    requires call.DeleteTopLevel? || call.DeleteReply? || call.DeleteThread? || call.Sweep?
    ensures Apply(log, call, id).Committed? && Granted(log, call, id, Apply(log, call, id).log)
  {
    hide NewestShown, Valid, DeleteThreadTx, DeleteReplyTx, SweepTx, LiveReplies, DeleteTopLevelTx;
    CommitsWhen(log, call, id);
    match call {
      case DeleteTopLevel(at) =>
        DeletedTopLevel(log, at);
        TopLevelStays(log, at);
      case DeleteReply(at, root, inChannel) =>
        DeletedReply(log, at, root);
        if root in log.pins {
          PinnedIsLive(log, root);
        }
        ReplyStays(log, at, root, inChannel);
      case DeleteThread(root, sawDeleted) => DeletedThread(log, root, sawDeleted);
      case Sweep(roots) =>
        forall x | x in log.rows
          ensures var after := Apply(log, call, id).log;
                  && (x in after.rows <==> RootOf(log, x) !in roots)
                  && (x in after.rows ==> ViewOf(after, x) == ViewOf(log, x))
        {
          Sweeping.SweepTakesThreads(log, roots, x);
        }
    }
  }

  lemma PinnedIsLive(log: Log, id: Id)
    requires Valid(log) && id in log.pins
    ensures IsLive(log, id)
  {
  }

  lemma TopLevelStays(log: Log, id: Id)
    requires IsLive(log, id)
    ensures id in DeleteTopLevelTx(log, id).log.rows
  {
    hide NewestShown;
  }

  lemma ReplyStays(log: Log, id: Id, root: Id, inChannel: bool)
    requires id != root && DeleteReplyTx(log, id, root, inChannel).Committed?
    requires root in log.pins ==> IsLive(log, root)
    ensures var after := DeleteReplyTx(log, id, root, inChannel).log;
            id in after.rows && IsBlank(after, id) && OnlyStamped(log, after, root) && SamePin(log, after, root)
  {
    hide NewestShown, Recounted, LiveReplies;
  }

  /** A call that commits does what it was asked. */
  lemma CommittedIsGranted(log: Log, call: Call, id: Id)
    requires Valid(log) && StillFits(log, call) && log.minted < id && Commits(log, call)
    ensures Apply(log, call, id).Committed? && Granted(log, call, id, Apply(log, call, id).log)
  {
    hide Valid, Granted, SendTx, EditTx, DeleteThreadTx, DeleteReplyTx, DeleteTopLevelTx, SweepTx;
    CommitsWhen(log, call, id);
    match call {
      case Send(_, _, _, _, _) => SendGranted(log, call, id);
      case Edit(at, _, urls, _) => EditGranted(log, call, id);
      case DeleteTopLevel(_) => DeletesGranted(log, call, id);
      case DeleteReply(_, _, _) => DeletesGranted(log, call, id);
      case DeleteThread(_, _) => DeletesGranted(log, call, id);
      case Sweep(_) => DeletesGranted(log, call, id);
      case _ => WritesGranted(log, call, id);
    }
  }

  lemma WritesGranted(log: Log, call: Call, id: Id)
    requires Valid(log) && StillFits(log, call) && Commits(log, call)
    requires call.React? || call.Pin? || call.Unpin? || call.DismissLink? || call.Previewed?
    ensures Apply(log, call, id).Committed? && Granted(log, call, id, Apply(log, call, id).log)
  {
    hide NewestShown, Valid, PinTx, UnpinTx, Toggled;
    match call {
      case DismissLink(at, url) => DismissGranted(log.rows[at].extras.links, url);
      case React(at, reaction) => ToggledTwice(log.rows[at].extras.reactions, reaction);
      case Pin(_) => PinGranted(log, call, id);
      case Unpin(_) => PinGranted(log, call, id);
      case _ =>
    }
  }

  lemma PinGranted(log: Log, call: Call, id: Id)
    requires Valid(log) && Commits(log, call) && (call.Pin? || call.Unpin?)
    ensures Apply(log, call, id).Committed? && Granted(log, call, id, Apply(log, call, id).log)
  {
    hide NewestShown, Valid;
    if call.Unpin? {
      PinnedIsLive(log, call.id);
      assert log.pins == log.pins - {call.id} + {call.id};
    }
  }

  lemma DismissGranted(links: seq<Link>, url: string)
    requires HasUrl(links, url)
    ensures var after := Dismissed(links, url);
            && |after| == |links| && HasUrl(after, url)
            && forall k :: 0 <= k < |after| ==>
                 after[k].url == links[k].url && (after[k].dismissed <==> links[k].dismissed || after[k].url == url)
  {
    var k :| 0 <= k < |links| && links[k].url == url;
    assert Dismissed(links, url)[k].url == url;
  }

  // ---- What the rows become -----------------------------------------------------------------

  /** A delete blanks and unpins its message; the root of a live thread stays
      as a placeholder, anything else is shown to nobody. */
  lemma DeletedTopLevel(log: Log, id: Id)
    requires Valid(log) && IsLive(log, id) && TopLevel(log, id)
    ensures var after := DeleteTopLevelTx(log, id).log;
            && after.rows[id].deleted && after.rows[id].content == NO_CONTENT && after.rows[id].extras == NO_EXTRAS
            && id !in after.pins
            && (Readable(after, id) <==> LiveReplies(log.rows, id) != {})
            && after.threads == log.threads
  {
    hide NewestShown;
    SummaryCounts(log, id);
  }

  lemma DeletedReply(log: Log, id: Id, root: Id)
    requires Valid(log) && IsLive(log, id) && log.rows[id].root == Some(root)
    ensures var outcome := DeleteReplyTx(log, id, root, log.rows[id].inChannel);
            && outcome.Committed? && Hidden(outcome.log, id) && root in outcome.log.rows
            && (Readable(outcome.log, root) <==> !log.rows[root].deleted || LiveReplies(log.rows, root) != {id})
            && SummaryOf(outcome.log, root) == Recount(outcome.log.rows, root)
            && outcome.log.rows[root].content == log.rows[root].content
            && outcome.log.rows[root].extras == log.rows[root].extras
  {
    hide NewestShown, Recounted, StampsOk, BlankOk, PinsOk, ThreadsOk, LiveReplies, DeleteReplyTx, Extends;
    assert TopLevel(log, root);
    CommitsWhen(log, DeleteReply(id, root, log.rows[id].inChannel), 0);
    ReplyInThread(log, id, root);
    DeleteReplyIsSafe(log, id, root, log.rows[id].inChannel);
    var after := DeleteReplyTx(log, id, root, log.rows[id].inChannel).log;
    IsRecounted(after, root);
    ReplyShape(log, id, root, log.rows[id].inChannel);
    ReplyGone(log, after, id, root);
  }

  lemma ReplyShape(log: Log, id: Id, root: Id, inChannel: bool)
    requires id != root && id !in log.threads && DeleteReplyTx(log, id, root, inChannel).Committed?
    ensures var after := DeleteReplyTx(log, id, root, inChannel).log;
            && after.rows.Keys == log.rows.Keys && root in log.rows && id !in after.threads
            && after.rows[id] == Tombstone(log.rows[id]).(seqNo := log.seqNo + 1)
            && after.rows[root] == log.rows[root].(seqNo := log.seqNo + 2)
            && forall x :: x in log.rows && x != id && x != root ==> after.rows[x] == log.rows[x]
  {
    hide NewestShown, Recounted, LiveReplies;
  }

  lemma ReplyGone(log: Log, after: Log, id: Id, root: Id)
    requires IsLive(log, id) && log.rows[id].root == Some(root) && root != id && after.rows.Keys == log.rows.Keys
    requires after.rows[id].deleted && after.rows[id].root == Some(root)
    requires forall x :: x in log.rows && x != id ==>
      after.rows[x].root == log.rows[x].root && after.rows[x].deleted == log.rows[x].deleted
    ensures LiveReplies(after.rows, root) == LiveReplies(log.rows, root) - {id}
    ensures LiveReplies(after.rows, root) == {} <==> LiveReplies(log.rows, root) == {id}
  {
    assert id in LiveReplies(log.rows, root);
    assert LiveReplies(after.rows, root) == LiveReplies(log.rows, root) - {id};
    if LiveReplies(after.rows, root) == {} {
      assert LiveReplies(log.rows, root) == LiveReplies(after.rows, root) + {id};
    }
  }

  lemma IsRecounted(log: Log, root: Id)
    requires ThreadsOk(log)
    ensures SummaryOf(log, root) == Recount(log.rows, root)
  {
    assert ThreadOk(log, root);
  }

  /** Delete thread leaves nothing of the thread that anyone is shown, and
      stamps each row it took: the replies oldest first, then the root. */
  lemma DeletedThread(log: Log, root: Id, sawDeleted: bool)
    requires Valid(log) && TopLevel(log, root) && (sawDeleted ==> log.rows[root].deleted)
    requires DeleteThreadTx(log, root, sawDeleted).Committed?
    ensures var after := DeleteThreadTx(log, root, sawDeleted).log;
            && Hidden(after, root) && root !in after.pins
            && forall id :: id in log.rows && log.rows[id].root == Some(root) ==> Hidden(after, id)
  {
    hide NewestShown, Recounted, StampsOk, ThreadOk, BuryAll, Ascending;
    var ids := LiveInOrder(log.rows, root);
    BuryAllKeeps(log, ids);
    BuriedStamps(log, ids);
    forall id ensures id in ids <==> id in LiveReplies(log.rows, root) {
    }
    forall id | id in log.rows && log.rows[id].root == Some(root) ensures id !in log.threads {
      assert id in log.threads ==> TopLevel(log, id);
    }
    assert root in BuryAll(log, ids).pins ==> IsLive(BuryAll(log, ids), root);
  }

  /** The one position that can go to no visible change: Delete thread trusts
      that the root was a placeholder when its handler read it. It spends one
      without a change exactly when the placeholder was hidden since. */
  lemma HiddenRootIsStampedAgain(log: Log, root: Id)
    requires Valid(log) && TopLevel(log, root) && log.rows[root].deleted
    ensures var outcome := DeleteThreadTx(log, root, true);
            && outcome.Committed?
            && (Hidden(log, root) <==>
                  outcome.log.rows == log.rows[root := log.rows[root].(seqNo := log.seqNo + 1)]
                  && outcome.log.threads == log.threads)
            && (Hidden(log, root) ==> outcome.log.seqNo == log.seqNo + 1)
  {
    hide NewestShown, Recounted, StampsOk, BuryAll, Ascending;
    assert ThreadOk(log, root);
    var ids := LiveInOrder(log.rows, root);
    if Hidden(log, root) {
      assert LiveReplies(log.rows, root) == {};
      assert |ids| == 0;
      BuriedNone(log, ids);
    } else {
      assert root in log.threads;
    }
  }

  lemma BuriedNone(log: Log, ids: seq<Id>)
    requires |ids| == 0
    ensures BuryAll(log, ids) == log
  {
  }

  /** A root with one reply, and the root deleted. */
  lemma PlaceholderRun() returns (worlds: seq<World>, events: seq<Event>)
    ensures IsRun(worlds, events) && |worlds| == |events| + 1 && worlds[|events|].pending == {}
    ensures var log := worlds[|events|].log;
            && log.minted == 2 && Readable(log, 1) && TopLevel(log, 1) && log.rows[1].deleted
            && IsLive(log, 2) && log.rows[2].root == Some(1) && !log.rows[2].inChannel
            && LiveReplies(log.rows, 1) == {2}
  {
    hide IsRun, NewestShown, Recorded, Valid;
    worlds, events := OneMessage();
    worlds, events := Asked(worlds, events, Send(AUTHOR, Some(1), false, GREETING, NO_EXTRAS), 2);
    var log := worlds[|events|].log;
    RunIsSafe(worlds, events, |events|);
    assert LiveReplies(log.rows, 1) == {2};
    DeletedTopLevel(log, 1);
    worlds, events := Asked(worlds, events, DeleteTopLevel(1), 3);
    assert LiveReplies(worlds[|events|].log.rows, 1) == {2};
  }

  /** Delete thread is asked for the placeholder, its last reply is deleted,
      and then it runs: a position is spent and nobody sees a change. */
  lemma SpentOnNothing() returns (worlds: seq<World>, events: seq<Event>)
    ensures IsRun(worlds, events) && |events| > 0 && events[|events| - 1] == Run(DeleteThread(1, true), 3)
    ensures var before, after := worlds[|events| - 1].log, worlds[|events|].log;
            && 1 in before.rows && Hidden(before, 1) && after.seqNo == before.seqNo + 1
            && after.rows == before.rows[1 := before.rows[1].(seqNo := after.seqNo)]
            && after.threads == before.threads
  {
    hide IsRun, NewestShown, Valid, DeleteReplyTx, DeleteThreadTx, Recount, LiveReplies;
    worlds, events := PlaceholderRun();
    var log, thread := worlds[|events|].log, DeleteThread(1, true);
    worlds, events := RunOn(worlds, events, Check(thread), World(log, {thread}));
    RunIsSafe(worlds, events, |events|);
    DeletedReply(log, 2, 1);
    assert Apply(log, DeleteReply(2, 1, false), 3).Committed?;
    worlds, events := Asked(worlds, events, DeleteReply(2, 1, false), 3);
    RunIsSafe(worlds, events, |events|);
    var hidden := worlds[|events|].log;
    RootKept(log, 2, 1);
    HiddenRootIsStampedAgain(hidden, 1);
    worlds, events := RunOn(worlds, events, Run(thread, 3), World(DeleteThreadTx(hidden, 1, true).log, {}));
  }

  lemma RootKept(log: Log, id: Id, root: Id)
    requires IsLive(log, id) && root in log.rows && id != root && DeleteReplyTx(log, id, root, false).Committed?
    ensures var after := DeleteReplyTx(log, id, root, false).log;
            && after.minted == log.minted && root in after.rows
            && after.rows[root] == log.rows[root].(seqNo := after.rows[root].seqNo)
  {
    hide NewestShown, Recounted, LiveReplies;
  }

  // ---- What hangs off a row --------------------------------------------------------------------

  lemma {:induction false} RemovedAbsent(reactions: seq<Reaction>, reaction: Reaction)
    requires reaction !in reactions
    ensures Removed(reactions, reaction) == reactions
    ensures Removed(reactions + [reaction], reaction) == reactions
  {
    if |reactions| > 0 {
      RemovedAbsent(reactions[1..], reaction);
      assert (reactions + [reaction])[1..] == reactions[1..] + [reaction];
    }
  }

  /** Toggling twice leaves the same reactions, and toggling once always
      changes them, by the one. */
  lemma ToggledTwice(reactions: seq<Reaction>, reaction: Reaction)
    ensures forall r :: r != reaction ==> (r in Toggled(reactions, reaction) <==> r in reactions)
    ensures forall r :: r in Toggled(Toggled(reactions, reaction), reaction) <==> r in reactions
    ensures reaction in Toggled(reactions, reaction) <==> reaction !in reactions
    ensures reaction !in reactions ==> Toggled(Toggled(reactions, reaction), reaction) == reactions
  {
    if reaction !in reactions {
      RemovedAbsent(reactions, reaction);
    }
  }

  lemma {:induction false} KeptAre(links: seq<Link>, urls: seq<string>)
    ensures forall link :: link in KeptLinks(links, urls) <==> link in links && link.url in urls
  {
    if |links| > 0 {
      KeptAre(links[1..], urls);
    }
  }

  /** A card dismissed before an edit stays dismissed, whichever way the edit
      rebuilds the links. */
  lemma DismissalSurvivesEdit(links: seq<Link>, urls: seq<string>, url: string, link: Link)
    requires Link(url, true) in links && forall l :: l in links && l.url == url ==> l.dismissed
    requires link.url == url && (link in RecordedLinks(links, urls) || link in KeptLinks(links, urls))
    ensures link.dismissed
  {
    KeptAre(links, urls);
    var k :| 0 <= k < |links| && links[k] == Link(url, true);
    assert links[k].url in DismissedUrls(links);
  }

  /** And a link that was not dismissed is not dismissed by one. */
  lemma EditDismissesNothing(links: seq<Link>, urls: seq<string>, link: Link)
    requires link.dismissed && (link in RecordedLinks(links, urls) || link in KeptLinks(links, urls))
    ensures exists l :: l in links && l.url == link.url && l.dismissed
  {
    KeptAre(links, urls);
    if link in RecordedLinks(links, urls) {
      assert link.url in DismissedUrls(links);
      var k :| 0 <= k < |links| && links[k].dismissed && links[k].url == link.url;
      assert links[k] in links;
    }
  }
}
