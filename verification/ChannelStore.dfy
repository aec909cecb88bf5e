/** The channel's tables, the statements that write them, and the
    transactions made of those statements, each proved to do what
    Transactions says of it. */
module ChannelStore {
  import opened Options
  import opened ThreadSummaries
  import opened ChannelLog
  import opened Transactions
  import opened LogSafety
  import opened Effects

  /** What a transaction puts back when it rolls back. */
  datatype Saved = Saved(
    seqNo: nat, rows: map<Id, Row>, threads: map<Id, Summary>, pins: set<Id>, last: Option<Id>, minted: Id)

  type Failure = Option<Error>

  /** The call ended as its transaction says: committed, or with an error and
      nothing written. */
  ghost predicate Settles(outcome: Outcome, before: Log, after: Log, error: Failure) {
    match error
    case None => outcome == Committed(after)
    case Some(e) => outcome == RolledBack(e) && after == before
  }

  /** recordLinks' loop over the addresses of the new text. */
  method RecordLinks(links: seq<Link>, urls: seq<string>) returns (recorded: seq<Link>)
    ensures recorded == RecordedLinks(links, urls)
  {
    var dismissed := DismissedUrls(links);
    recorded := [];
    for k := 0 to |urls|
      invariant |recorded| == k
      invariant forall j :: 0 <= j < k ==> recorded[j] == Link(urls[j], urls[j] in dismissed)
    {
      recorded := recorded + [Link(urls[k], urls[k] in dismissed)];
    }
  }

  class Channel {
    var seqNo: nat
    var rows: map<Id, Row>
    var threads: map<Id, Summary>
    var pins: set<Id>
    var last: Option<Id>
    var minted: Id
    /** The committed history of stamps: nothing the server keeps. */
    ghost var stamps: seq<Id>

    ghost function Contents(): Log
      reads this
    {
      Log(seqNo, rows, threads, pins, last, minted, stamps)
    }

    constructor ()
      ensures Contents() == EMPTY_LOG
    {
      seqNo, rows, threads, pins, last, minted, stamps := 0, map[], map[], {}, None, 0, [];
    }

    // ---- Statements ------------------------------------------------------------------

    method Save() returns (saved: Saved)
      ensures saved == Saved(seqNo, rows, threads, pins, last, minted)
    {
      saved := Saved(seqNo, rows, threads, pins, last, minted);
    }

    method Rollback(saved: Saved, ghost committed: seq<Id>)
      modifies this
      ensures Contents() == Log(saved.seqNo, saved.rows, saved.threads, saved.pins, saved.last, saved.minted, committed)
    {
      seqNo, rows, threads := saved.seqNo, saved.rows, saved.threads;
      pins, last, minted, stamps := saved.pins, saved.last, saved.minted, committed;
    }

    method NextChannelSeq() returns (next: nat)
      modifies this`seqNo
      ensures seqNo == next == old(seqNo) + 1
    {
      seqNo := seqNo + 1;
      next := seqNo;
    }

    method StampMessageSeq(id: Id, p: nat) returns (stamped: nat)
      modifies this`rows, this`stamps
      ensures stamped == if id in old(rows) then 1 else 0
      ensures rows == if id in old(rows) then old(rows)[id := old(rows)[id].(seqNo := p)] else old(rows)
      ensures stamps == old(stamps) + if id in old(rows) then [id] else []
    {
      stamped := 0;
      if id in rows {
        rows, stamps, stamped := rows[id := rows[id].(seqNo := p)], stamps + [id], 1;
      }
    }

    method GetMessage(id: Id) returns (row: Option<Row>)
      ensures row == if Readable(Contents(), id) then Some(rows[id]) else None
    {
      row := if id in rows && (!rows[id].deleted || id in threads) then Some(rows[id]) else None;
    }

    method TombstoneMessage(id: Id) returns (changed: nat)
      modifies this`rows, this`pins
      ensures changed == if IsLive(old(Contents()), id) then 1 else 0
      ensures changed == 1 ==> rows == old(rows)[id := Tombstone(old(rows)[id])]
      ensures changed == 0 ==> rows == old(rows)
      ensures pins == old(pins) - {id}
    {
      changed := 0;
      pins := pins - {id};
      if id in rows && !rows[id].deleted {
        rows, changed := rows[id := Tombstone(rows[id])], 1;
      }
    }

    method LockThread(root: Id) returns (replies: nat)
      ensures replies == if root in threads then threads[root].count else 0
    {
      replies := if root in threads then threads[root].count else 0;
    }

    method RecomputeThread(root: Id) returns (summary: Option<Summary>)
      modifies this`threads
      ensures var live := LiveReplies(rows, root);
              summary == if root in old(threads) && live != {} then Recount(rows, root) else None
      ensures summary.Some? ==> threads == old(threads)[root := summary.value]
      ensures summary.None? ==> threads == old(threads)
    {
      summary := None;
      if root in threads && LiveReplies(rows, root) != {} {
        summary := Recount(rows, root);
        threads := threads[root := summary.value];
      }
    }

    method DeleteThreadSummary(root: Id)
      modifies this`threads
      ensures threads == old(threads) - {root}
    {
      threads := threads - {root};
    }

    method UnpinMessage(id: Id) returns (removed: nat)
      modifies this`pins
      ensures removed == if id in old(pins) then 1 else 0
      ensures pins == old(pins) - {id}
    {
      removed := if id in pins then 1 else 0;
      pins := pins - {id};
    }

    method RecomputeChannelLastMessage()
      modifies this`last
      ensures Contents() == Relast(old(Contents()))
    {
      var shown := set id | id in rows && rows[id].inChannel && (!rows[id].deleted || id in threads);
      assert shown == ShownIds(Contents());
      last := if shown == {} then None else Some(Max(shown));
      assert ShownIds(Contents()) == shown;
    }

    // ---- What the handlers' transactions share -------------------------------------------

    /** stampMessage: the channel's next position, on the row; no row, no stamp. */
    method StampMessage(id: Id) returns (gone: Failure)
      modifies this
      ensures gone.None? ==> id in old(rows) && Contents() == Stamp(old(Contents()), id)
      ensures gone.Some? ==> gone == Some(MessageGone) && id !in old(rows) && stamps == old(stamps)
    {
      var next := NextChannelSeq();
      var stamped := StampMessageSeq(id, next);
      gone := if stamped == 0 then Some(MessageGone) else None;
    }

    method LiveMessage(id: Id) returns (failed: Failure)
      ensures failed == NotLive(Contents(), id)
    {
      var row := GetMessage(id);
      failed := if row.None? then Some(MessageGone) else if row.value.deleted then Some(IsPlaceholder) else None;
    }

    /** tombstoneRow. */
    method TombstoneRow(id: Id) returns (gone: Failure)
      modifies this
      ensures gone.None? ==> IsLive(old(Contents()), id) && Contents() == Bury(old(Contents()), id)
      ensures gone.Some? ==> gone == Some(MessageGone) && !IsLive(old(Contents()), id)
    {
      var changed := TombstoneMessage(id);
      if changed == 0 {
        return Some(MessageGone);
      }
      gone := StampMessage(id);
      assert rows == Bury(old(Contents()), id).rows;
    }

    /** hideRoot, without the viewers' rows. */
    method Hide(root: Id)
      modifies this
      ensures Contents() == HideRoot(old(Contents()), root)
    {
      var _ := UnpinMessage(root);
      RecomputeChannelLastMessage();
    }

    /** tombstoneTopLevel. */
    method TombstoneTopLevel(id: Id) returns (gone: Failure)
      modifies this
      ensures var outcome := DeleteTopLevelTx(old(Contents()), id);
              match gone
              case None => outcome == Committed(Contents())
              case Some(error) => outcome == RolledBack(error)
    {
      hide Bury, HideRoot;
      var replies := LockThread(id);
      gone := TombstoneRow(id);
      if gone.None? && replies == 0 {
        Hide(id);
      }
    }

    /** tombstoneReply. */
    method TombstoneReply(id: Id, root: Id, inChannel: bool) returns (failed: Failure)
      requires id != root
      modifies this
      ensures var outcome := DeleteReplyTx(old(Contents()), id, root, inChannel);
              match failed
              case None => outcome == Committed(Contents())
              case Some(error) => outcome == RolledBack(error)
    {
      hide Recount, NewestShown, LiveReplies, HideRoot;
      ghost var before := Contents();
      var row := GetMessage(root);
      if row.None? {
        return Some(NoRoot);
      }
      failed := TombstoneRow(id);
      if failed.Some? {
        return;
      }
      if inChannel {
        RecomputeChannelLastMessage();
      }
      ghost var buried := Contents();
      RecountOf(buried, root);
      var recounted := RecomputeThread(root);
      if recounted.Some? {
        failed := StampMessage(root);
        assert Contents() == Summarise(buried, root, recounted);
        return;
      }
      DeleteThreadSummary(root);
      failed := StampMessage(root);
      assert Contents() == Summarise(buried, root, None);
      if row.value.deleted {
        Hide(root);
      }
    }

    lemma RecountOf(log: Log, root: Id)
      ensures Recount(log.rows, root).Some? <==> LiveReplies(log.rows, root) != {}
      ensures LiveReplies(log.rows, root) != {} ==>
        Recount(log.rows, root) == Some(Recounted(Authors(log.rows), LiveReplies(log.rows, root)))
    {
    }

    /** tombstoneThread. */
    method TombstoneThread(root: Id, sawDeleted: bool) returns (failed: Failure)
      requires root in rows ==> rows[root].root.None?
      modifies this
      ensures var outcome := DeleteThreadTx(old(Contents()), root, sawDeleted);
              match failed
              case None => outcome == Committed(Contents())
              case Some(error) => outcome == RolledBack(error)
    {
      hide NewestShown, HideRoot, BuryAll, LiveInOrder;
      ghost var before := Contents();
      var replies := LiveInOrder(rows, root);
      LiveInOrderIs(rows, root);
      assert forall j :: 0 <= j < |replies| ==> replies[j] in LiveReplies(rows, root);
      BuriedSoFar(before, replies, 0);
      for k := 0 to |replies|
        invariant Contents() == BuryAll(before, replies[..k])
      {
        BuriedSoFar(before, replies, k);
        failed := TombstoneRow(replies[k]);
        assert failed.None?;
      }
      assert replies[..|replies|] == replies;
      BuriedStamps(before, replies);
      assert root in before.rows ==> rows[root] == before.rows[root];
      if !sawDeleted {
        failed := TombstoneRow(root);
      } else {
        failed := StampMessage(root);
      }
      if failed.Some? {
        return;
      }
      DeleteThreadSummary(root);
      Hide(root);
    }

    // ---- The transactions ------------------------------------------------------------------

    method Send(author: Person, thread: Option<Id>, alsoSend: bool, content: Content, extras: Extras, id: Id)
      returns (failed: Failure)
      requires thread != Some(id) && (alsoSend ==> thread.Some?)
      modifies this
      ensures Settles(SendTx(old(Contents()), Call.Send(author, thread, alsoSend, content, extras), id),
                      old(Contents()), Contents(), failed)
    {
      hide Recorded;
      ghost var committed := stamps;
      var saved := Save();
      var next := NextChannelSeq();
      failed := None;
      if thread.Some? {
        failed := LiveMessage(thread.value);
        if failed.Some? {
          Rollback(saved, committed);
          return;
        }
      }
      rows := rows[id := Row(next, author, thread, thread.None? || alsoSend, false, content, extras)];
      stamps, minted := stamps + [id], id;
      if thread.Some? {
        var root := thread.value;
        threads := threads[root := Recorded(if root in threads then Some(threads[root]) else None, id, author)];
        failed := StampMessage(root);
        if !alsoSend {
          return;
        }
      }
      last := Some(id);
    }

    method Edit(id: Id, text: string, urls: seq<string>, previewing: bool) returns (failed: Failure)
      modifies this
      ensures Settles(EditTx(old(Contents()), Call.Edit(id, text, urls, previewing)), old(Contents()), Contents(), failed)
    {
      ghost var committed := stamps;
      var saved := Save();
      failed := StampMessage(id);
      if failed.None? && rows[id].deleted {
        failed := Some(IsPlaceholder);
      }
      if failed.Some? {
        Rollback(saved, committed);
        return;
      }
      var row := rows[id];
      var links := KeptLinks(row.extras.links, urls);
      if previewing {
        links := RecordLinks(row.extras.links, urls);
      }
      rows := rows[id := row.(content := row.content.(text := text, edited := true),
                              extras := row.extras.(links := links))];
    }

    method ToggleReaction(id: Id, reaction: Reaction) returns (failed: Failure)
      modifies this
      ensures Settles(ReactTx(old(Contents()), id, reaction), old(Contents()), Contents(), failed)
      requires forall x :: x in rows && rows[x].deleted ==> rows[x].extras == NO_EXTRAS
    {
      ghost var committed := stamps;
      var saved := Save();
      failed := StampMessage(id);
      if failed.Some? {
        Rollback(saved, committed);
        return;
      }
      var row := rows[id];
      var reactions := row.extras.reactions;
      if !row.deleted && reaction !in reactions {
        rows := rows[id := row.(extras := row.extras.(reactions := reactions + [reaction]))];
      } else if reaction in reactions {
        rows := rows[id := row.(extras := row.extras.(reactions := Removed(reactions, reaction)))];
      } else {
        failed := Some(IsPlaceholder);
        Rollback(saved, committed);
      }
    }

    method PinMessage(id: Id) returns (failed: Failure)
      modifies this
      ensures Settles(PinTx(old(Contents()), id), old(Contents()), Contents(), failed)
    {
      ghost var committed := stamps;
      var saved := Save();
      failed := StampMessage(id);
      if failed.None? {
        failed := LiveMessage(id);
      }
      if failed.None? {
        if |pins| < MAX_PINS && id !in pins {
          pins := pins + {id};
          return;
        }
        failed := Some(NotPinned);
      }
      Rollback(saved, committed);
    }

    method Unpin(id: Id) returns (failed: Failure)
      modifies this
      ensures Settles(UnpinTx(old(Contents()), id), old(Contents()), Contents(), failed)
    {
      ghost var committed := stamps;
      var saved := Save();
      failed := StampMessage(id);
      if failed.None? {
        var removed := UnpinMessage(id);
        if removed > 0 {
          return;
        }
        failed := Some(Unchanged);
      }
      Rollback(saved, committed);
    }

    method DismissLinkPreview(id: Id, url: string) returns (failed: Failure)
      modifies this
      ensures Settles(DismissTx(old(Contents()), id, url), old(Contents()), Contents(), failed)
    {
      ghost var committed := stamps;
      var saved := Save();
      failed := StampMessage(id);
      if failed.None? {
        var row := rows[id];
        if HasUrl(row.extras.links, url) {
          rows := rows[id := row.(extras := row.extras.(links := Dismissed(row.extras.links, url)))];
          return;
        }
        failed := Some(Unchanged);
      }
      Rollback(saved, committed);
    }

    /** stampPreviewed: a stamp on a live message only. */
    method StampPreviewed(id: Id) returns (failed: Failure)
      modifies this
      ensures Settles(PreviewedTx(old(Contents()), id), old(Contents()), Contents(), failed)
    {
      ghost var committed := stamps;
      var saved := Save();
      var next := NextChannelSeq();
      if id in rows && !rows[id].deleted {
        rows, stamps := rows[id := rows[id].(seqNo := next)], stamps + [id];
        return None;
      }
      Rollback(saved, committed);
      return Some(MessageGone);
    }

    method DeleteMessage(id: Id, thread: Option<Id>, inChannel: bool) returns (failed: Failure)
      requires thread != Some(id)
      modifies this
      ensures var outcome := match thread
                             case None => DeleteTopLevelTx(old(Contents()), id)
                             case Some(root) => DeleteReplyTx(old(Contents()), id, root, inChannel);
              Settles(outcome, old(Contents()), Contents(), failed)
    {
      hide DeleteReplyTx, DeleteTopLevelTx;
      ghost var committed := stamps;
      var saved := Save();
      match thread {
        case None => failed := TombstoneTopLevel(id);
        case Some(root) => failed := TombstoneReply(id, root, inChannel);
      }
      if failed.Some? {
        Rollback(saved, committed);
      }
    }

    method DeleteThread(root: Id, sawDeleted: bool) returns (failed: Failure)
      requires root in rows ==> rows[root].root.None?
      modifies this
      ensures Settles(DeleteThreadTx(old(Contents()), root, sawDeleted), old(Contents()), Contents(), failed)
    {
      hide DeleteThreadTx;
      ghost var committed := stamps;
      var saved := Save();
      failed := TombstoneThread(root, sawDeleted);
      if failed.Some? {
        Rollback(saved, committed);
      }
    }

    /** sweepChannel: the listed roots and every reply under them, with what
        cascades, and how many rows went. */
    method SweepChannel(roots: set<Id>) returns (removed: nat)
      modifies this
      ensures Committed(Contents()) == SweepTx(old(Contents()), roots)
      ensures removed == |old(rows)| - |rows|
    {
      var gone := set id | id in rows && (id in roots || (rows[id].root.Some? && rows[id].root.value in roots));
      removed := |gone|;
      Fewer(rows, gone);
      rows, threads, pins := rows - gone, threads - gone, pins - gone;
      RecomputeChannelLastMessage();
    }

    // ---- Every call ----------------------------------------------------------------------------

    /** Whichever call runs, at whatever moment: the channel is left valid, and
        what any reader was told of an earlier position still stands. */
    method Serve(call: Call, id: Id) returns (failed: Failure)
      requires Valid(Contents()) && StillFits(Contents(), call) && minted < id
      modifies this
      ensures Valid(Contents()) && Extends(old(Contents()), Contents())
      ensures Settles(Apply(old(Contents()), call, id), old(Contents()), Contents(), failed)
      ensures failed.None? <==> Commits(old(Contents()), call)
    {
      hide Extends, SendTx, EditTx, ReactTx, PinTx, UnpinTx, DismissTx, PreviewedTx, Commits, NewestShown, Recount;
      hide DeleteTopLevelTx, DeleteReplyTx, DeleteThreadTx, SweepTx, StampsOk, PinsOk, ThreadsOk;
      ghost var before := Contents();
      CommitsWhen(before, call, id);
      if Apply(before, call, id).Committed? {
        CommitIsSafe(before, call, id);
      }
      ExtendsSelf(before);
      RootsAreOthers(before, call, id);
      failed := None;
      match call {
        case Send(author, thread, alsoSend, content, extras) =>
          failed := Send(author, thread, alsoSend, content, extras, id);
        case Edit(at, text, urls, previewing) => failed := Edit(at, text, urls, previewing);
        case React(at, reaction) => failed := ToggleReaction(at, reaction);
        case Pin(at) => failed := PinMessage(at);
        case Unpin(at) => failed := Unpin(at);
        case DismissLink(at, url) => failed := DismissLinkPreview(at, url);
        case Previewed(at) => failed := StampPreviewed(at);
        case DeleteTopLevel(at) => failed := DeleteMessage(at, None, true);
        case DeleteReply(at, root, inChannel) => failed := DeleteMessage(at, Some(root), inChannel);
        case DeleteThread(root, sawDeleted) => failed := DeleteThread(root, sawDeleted);
        case Sweep(roots) => var _ := SweepChannel(roots);
      }
    }
  }

  lemma Fewer(rows: map<Id, Row>, gone: set<Id>)
    requires gone <= rows.Keys
    ensures |gone| == |rows| - |rows - gone|
  {
    assert (rows - gone).Keys == rows.Keys - gone;
    assert rows.Keys == gone + (rows.Keys - gone);
    assert |rows| == |rows.Keys| && |rows - gone| == |(rows - gone).Keys|;
  }

  /** A reply is never its own root, and a new message nobody's. */
  lemma RootsAreOthers(log: Log, call: Call, id: Id)
    requires Valid(log) && StillFits(log, call) && log.minted < id
    ensures call.Send? ==> call.thread != Some(id)
    ensures call.DeleteReply? ==> call.root != call.id
    ensures forall x :: x in log.rows && log.rows[x].deleted ==> log.rows[x].extras == NO_EXTRAS
  {
  }

  lemma BuriedSoFar(log: Log, ids: seq<Id>, k: nat)
    requires k <= |ids| && forall j :: 0 <= j < |ids| ==> ids[j] in log.rows && !log.rows[ids[j]].deleted
    requires forall i, j :: 0 <= i < j < |ids| ==> ids[i] < ids[j]
    ensures k == 0 ==> BuryAll(log, ids[..k]) == log
    ensures k < |ids| ==>
      var buried := BuryAll(log, ids[..k]);
      IsLive(buried, ids[k]) && Bury(buried, ids[k]) == BuryAll(log, ids[..k + 1])
  {
    BuriedStamps(log, ids[..k]);
    if k < |ids| {
      assert ids[..k + 1][..k] == ids[..k];
      assert ids[k] !in ids[..k];
    }
  }
}
