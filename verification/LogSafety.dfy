/** Every transaction that commits keeps the log's invariant, and never takes
    back what a reader of an earlier position was told. */
module LogSafety {
  import opened Options
  import opened ThreadSummaries
  import opened ChannelLog
  import opened Transactions

  // ---- Threads -----------------------------------------------------------------------

  lemma SameThread(log: Log, after: Log, root: Id)
    requires ThreadOk(log, root) && LiveReplies(after.rows, root) == LiveReplies(log.rows, root)
    requires SummaryOf(after, root) == SummaryOf(log, root)
    requires forall id :: id in LiveReplies(log.rows, root) ==> after.rows[id].author == log.rows[id].author
    ensures ThreadOk(after, root)
  {
    hide AuthorsByNewest;
    var replies := LiveReplies(log.rows, root);
    if replies != {} {
      SameAuthors(Authors(log.rows), Authors(after.rows), replies);
    }
  }

  /** A write that touches no reply's life and no summary. */
  lemma SameThreads(log: Log, after: Log)
    requires ThreadsOk(log) && after.threads == log.threads && after.rows.Keys == log.rows.Keys
    requires forall id :: id in log.rows ==>
      SameMessage(log.rows[id], after.rows[id]) && (log.rows[id].deleted == after.rows[id].deleted || TopLevel(log, id))
    ensures ThreadsOk(after)
  {
    hide ThreadOk, Recounted;
    forall root ensures ThreadOk(after, root) {
      assert LiveReplies(after.rows, root) == LiveReplies(log.rows, root);
      SameThread(log, after, root);
    }
    forall root | root in after.threads ensures TopLevel(after, root) {
      assert TopLevel(log, root);
    }
  }

  /** After a write under one root, its summary is what counting again says,
      and every other thread is as it was. */
  lemma OneThread(log: Log, after: Log, root: Id)
    requires ThreadsOk(log) && ThreadOk(after, root) && (root in after.threads ==> TopLevel(after, root))
    requires forall r :: r in log.threads && r != root ==> TopLevel(after, r)
    requires forall r :: r != root ==> SummaryOf(after, r) == SummaryOf(log, r)
    requires forall r :: r != root ==> LiveReplies(after.rows, r) == LiveReplies(log.rows, r)
    requires forall id :: id in log.rows && id in after.rows ==> after.rows[id].author == log.rows[id].author
    ensures ThreadsOk(after)
  {
    hide ThreadOk, Recounted;
    forall r ensures ThreadOk(after, r) {
      if r != root {
        SameThread(log, after, r);
      }
    }
    forall r | r in after.threads ensures TopLevel(after, r) {
      if r != root {
        assert SummaryOf(after, r) == SummaryOf(log, r);
      }
    }
  }

  lemma SameShown(log: Log, after: Log)
    requires ShownIds(after) == ShownIds(log)
    ensures NewestShown(after) == NewestShown(log)
  {
  }

  // ---- One row changed ------------------------------------------------------------------

  lemma ChangeIsSafe(log: Log, id: Id, row: Row)
    requires Valid(log) && IsLive(log, id) && SameMessage(log.rows[id], row) && !row.deleted
    ensures Valid(Put(log, id, row)) && Extends(log, Put(log, id, row))
  {
    hide Core, Extends, ThreadsOk;
    var after := Put(log, id, row);
    ChangeKeeps(log, id, row);
    SameThreads(log, after);
    assert ShownIds(after) == ShownIds(log);
    SameShown(log, after);
  }

  lemma PinIsSafe(log: Log, id: Id, pins: set<Id>)
    requires Valid(log) && id in log.rows && |pins| <= MAX_PINS
    requires pins == log.pins - {id} || (pins == log.pins + {id} && IsLive(log, id) && TopLevel(log, id))
    ensures var after := Stamp(log, id).(pins := pins); Valid(after) && Extends(log, after)
  {
    hide StampsOk, LastStamp, Extends, ThreadsOk, RootsOk, PinsOk, NewestShown;
    var row, after := log.rows[id], Stamp(log, id).(pins := pins);
    ChangeKeeps(log, id, row);
    StampsSame(Put(log, id, row), after);
    PutExtends(log, after, id, row);
    RootsAfterPut(log, after, id);
    PinsAfter(log, id, pins);
    BlankAfter(Put(log, id, row), after);
    SameThreads(log, after);
    assert ShownIds(after) == ShownIds(log);
    SameShown(log, after);
  }

  lemma PinsAfter(log: Log, id: Id, pins: set<Id>)
    requires PinsOk(log) && id in log.rows && |pins| <= MAX_PINS
    requires pins == log.pins - {id} || (pins == log.pins + {id} && IsLive(log, id) && TopLevel(log, id))
    ensures PinsOk(Stamp(log, id).(pins := pins))
  {
    var after := Stamp(log, id).(pins := pins);
    forall x | x in after.pins ensures IsLive(after, x) && TopLevel(after, x) {
      assert x == id || (IsLive(log, x) && TopLevel(log, x));
    }
  }

  lemma BlankAfter(log: Log, after: Log)
    requires BlankOk(log) && after.rows == log.rows
    ensures BlankOk(after)
  {
  }

  // ---- Sending ------------------------------------------------------------------------------

  lemma CreateKeeps(log: Log, id: Id, row: Row)
    requires Core(log) && log.minted < id && !row.deleted
    requires match row.root case None => row.inChannel case Some(root) => TopLevel(log, root)
    ensures var after := Put(log, id, row).(minted := id); Core(after) && Extends(log, after)
  {
    hide LastStamp, Extends;
    var after := Put(log, id, row).(minted := id);
    assert id !in log.rows && id !in log.pins;
    StampsAfterPut(log, id, row);
    StampsSame(Put(log, id, row), after);
    assert SummaryOf(after, id) == SummaryOf(log, id);
    PutExtends(log, after, id, row);
    forall x | x in after.rows
      ensures match after.rows[x].root case None => after.rows[x].inChannel case Some(root) => TopLevel(after, root)
    {
      if x != id && log.rows[x].root.Some? {
        assert TopLevel(log, log.rows[x].root.value);
      }
    }
    forall x | x in after.pins ensures IsLive(after, x) && TopLevel(after, x) {
      assert IsLive(log, x) && TopLevel(log, x);
    }
  }

  lemma NewestIs(log: Log, id: Id)
    requires id in ShownIds(log) && forall x :: x in log.rows ==> x <= id
    ensures NewestShown(log) == Some(id)
  {
  }

  lemma ReplyCounted(log: Log, after: Log, root: Id, id: Id, author: Person)
    requires ThreadsOk(log) && IdsOk(log) && log.minted < id && id in after.rows
    requires LiveReplies(after.rows, root) == LiveReplies(log.rows, root) + {id}
    requires after.rows[id].author == author
    requires forall x :: x in log.rows ==> x in after.rows && after.rows[x].author == log.rows[x].author
    requires SummaryOf(after, root) == Some(Recorded(SummaryOf(log, root), id, author))
    ensures ThreadOk(after, root)
  {
    hide AuthorsByNewest;
    assert ThreadOk(log, root);
    var replies := LiveReplies(log.rows, root);
    RecordedIsRecounted(Authors(log.rows), replies, id, author);
    SameAuthors(Authors(log.rows)[id := author], Authors(after.rows), replies + {id});
  }

  lemma SendIsSafe(log: Log, call: Call, id: Id)
    requires Valid(log) && call.Send? && StillFits(log, call) && log.minted < id
    ensures SendTx(log, call, id).Committed? ==>
      Valid(SendTx(log, call, id).log) && Extends(log, SendTx(log, call, id).log)
  {
    hide Extends, StampsOk, PinsOk, BlankOk, RootsOk, Recounted, Recorded;
    var row := Row(0, call.author, call.thread, call.thread.None? || call.alsoSend, false, call.content, call.extras);
    var created := Put(log, id, row).(minted := id);
    if SendTx(log, call, id).Committed? {
      CreateKeeps(log, id, row);
      assert id !in log.rows && id !in log.threads;
      match call.thread {
        case None =>
          TopLevelSent(log, id, row);
          SameRowsCore(created, created.(last := Some(id)));
          SameView(log, created, created.(last := Some(id)));
        case Some(root) =>
          var summary := Recorded(SummaryOf(log, root), id, call.author);
          assert Readable(created, root);
          SummariseKeeps(created, root, Some(summary));
          var answered := Summarise(created, root, Some(summary));
          ExtendsOn(log, created, answered);
          ReplySent(log, id, row, root);
          SameRowsCore(answered, answered.(last := Some(id)));
          LastIsNotShown(answered, Some(id));
          SameView(log, answered, answered.(last := Some(id)));
      }
    }
  }

  lemma LastIsNotShown(log: Log, last: Option<Id>)
    requires ThreadsOk(log)
    ensures var after := log.(last := last); NewestShown(after) == NewestShown(log) && ThreadsOk(after)
  {
    hide Recounted;
    var after := log.(last := last);
    assert ShownIds(after) == ShownIds(log);
    SameShown(log, after);
    forall root ensures ThreadOk(after, root) {
      assert ThreadOk(log, root);
    }
    forall root | root in after.threads ensures TopLevel(after, root) {
      assert TopLevel(log, root);
    }
  }

  lemma SameView(log: Log, after: Log, relast: Log)
    requires Extends(log, after) && relast == after.(last := relast.last)
    ensures Extends(log, relast)
  {
    forall x | x in relast.rows ensures Follows(log, relast, x) {
      assert Follows(log, after, x);
    }
  }

  lemma TopLevelSent(log: Log, id: Id, row: Row)
    requires Valid(log) && log.minted < id && row.root.None? && row.inChannel && !row.deleted
    ensures var after := Put(log, id, row).(minted := id, last := Some(id));
            ThreadsOk(after) && NewestShown(after) == Some(id)
  {
    hide ThreadOk, Recounted;
    var after := Put(log, id, row).(minted := id, last := Some(id));
    assert id !in log.rows;
    forall root ensures ThreadOk(after, root) {
      assert ThreadOk(log, root);
      assert LiveReplies(after.rows, root) == LiveReplies(log.rows, root);
      SameThread(log, after, root);
    }
    forall root | root in after.threads ensures TopLevel(after, root) {
      assert TopLevel(log, root);
    }
    NewestIs(after, id);
  }

  lemma ReplyShown(log: Log, after: Log, id: Id, root: Id)
    requires IdsOk(log) && log.minted < id && IsLive(log, root) && id in after.rows
    requires after.rows.Keys == log.rows.Keys + {id} && after.threads.Keys == log.threads.Keys + {root}
    requires forall x :: x in log.rows ==>
      after.rows[x].inChannel == log.rows[x].inChannel && after.rows[x].deleted == log.rows[x].deleted
    requires !after.rows[id].deleted
    ensures NewestShown(after) == if after.rows[id].inChannel then Some(id) else NewestShown(log)
  {
    assert id !in log.rows;
    if after.rows[id].inChannel {
      NewestIs(after, id);
    } else {
      assert ShownIds(after) == ShownIds(log);
      SameShown(log, after);
    }
  }

  lemma ReplySent(log: Log, id: Id, row: Row, root: Id)
    requires Valid(log) && log.minted < id && row.root == Some(root) && !row.deleted
    requires IsLive(log, root) && TopLevel(log, root)
    ensures var created := Put(log, id, row).(minted := id);
            var after := Summarise(created, root, Some(Recorded(SummaryOf(log, root), id, row.author)));
            && ThreadsOk(after)
            && NewestShown(after) == if row.inChannel then Some(id) else log.last
  {
    hide ThreadOk, Recounted, Recorded, NewestShown, Readable, StampsOk, PinsOk, BlankOk, RootsOk;
    var created := Put(log, id, row).(minted := id);
    var after := Summarise(created, root, Some(Recorded(SummaryOf(log, root), id, row.author)));
    assert id !in log.rows;
    assert LiveReplies(after.rows, root) == LiveReplies(log.rows, root) + {id};
    ReplyCounted(log, after, root, id, row.author);
    forall r | r != root ensures LiveReplies(after.rows, r) == LiveReplies(log.rows, r) {
    }
    forall r | r in log.threads ensures TopLevel(after, r) {
      assert TopLevel(log, r);
    }
    OneThread(log, after, root);
    ReplyShown(log, after, id, root);
  }

  // ---- Deleting ------------------------------------------------------------------------------

  /** Only the newest message is written over. */
  lemma RelastKeeps(log: Log, last: Option<Id>)
    requires Core(log)
    ensures var after := log.(last := last);
            Core(after) && Extends(log, after) && NewestShown(after) == NewestShown(log)
  {
    hide Core;
    var after := log.(last := last);
    SameRowsCore(log, after);
    ExtendsSelf(log);
    SameView(log, log, after);
    assert ShownIds(after) == ShownIds(log);
    SameShown(log, after);
  }

  /** A hidden root has no pin left to drop. */
  lemma HideRootKeeps(log: Log, root: Id)
    requires Core(log) && !IsLive(log, root)
    ensures HideRoot(log, root) == Relast(log)
    ensures Core(HideRoot(log, root)) && Extends(log, HideRoot(log, root))
    ensures HideRoot(log, root).last == NewestShown(HideRoot(log, root))
    ensures ThreadsOk(log) ==> ThreadsOk(HideRoot(log, root))
  {
    hide Extends, StampsOk, IdsOk, BlankOk, RootsOk, NewestShown, ThreadsOk;
    assert root !in log.pins;
    assert log.pins - {root} == log.pins;
    RelastKeeps(log, NewestShown(log));
    if ThreadsOk(log) {
      LastIsNotShown(log, NewestShown(log));
    }
  }

  lemma DeleteTopLevelIsSafe(log: Log, id: Id)
    requires Valid(log) && IsRootIfThere(log, id)
    ensures DeleteTopLevelTx(log, id).Committed? ==>
      Valid(DeleteTopLevelTx(log, id).log) && Extends(log, DeleteTopLevelTx(log, id).log)
  {
    hide Extends, Core, ThreadsOk, NewestShown;
    if IsLive(log, id) {
      var buried := Bury(log, id);
      BuryKeeps(log, id);
      SameThreads(log, buried);
      SummaryCounts(log, id);
      if id in log.threads {
        assert ShownIds(buried) == ShownIds(log);
        SameShown(log, buried);
      } else {
        HideRootKeeps(buried, id);
        ExtendsOnValid(log, buried, HideRoot(buried, id));
      }
    }
  }

  lemma ExtendsOnValid(a: Log, b: Log, c: Log)
    requires Core(a) && Extends(a, b) && Extends(b, c)
    ensures Extends(a, c)
  {
    hide StampsOk, IdsOk, Extends;
    ExtendsOn(a, b, c);
  }

  lemma SummaryCounts(log: Log, root: Id)
    requires ThreadsOk(log)
    ensures root in log.threads ==> log.threads[root].count > 0
    ensures root in log.threads <==> LiveReplies(log.rows, root) != {}
  {
    assert ThreadOk(log, root);
  }

  lemma ReplyBuried(log: Log, id: Id, root: Id)
    requires RootsOk(log) && IsLive(log, id) && log.rows[id].root == Some(root)
    ensures var after := Bury(log, id);
            && LiveReplies(after.rows, root) == LiveReplies(log.rows, root) - {id}
            && (forall r :: r != root ==> LiveReplies(after.rows, r) == LiveReplies(log.rows, r))
            && Authors(after.rows) == Authors(log.rows)
            && IsLive(after, root) == IsLive(log, root) && TopLevel(after, root)
  {
    assert TopLevel(log, root);
  }

  /** Under one root the replies changed and the summary was written from
      them, or dropped with the last. */
  lemma SummaryRewritten(log: Log, buried: Log, after: Log, root: Id)
    requires ThreadsOk(log) && root in buried.rows && TopLevel(buried, root)
    requires buried.threads == log.threads && buried.rows.Keys == log.rows.Keys
    requires forall r :: r in log.rows ==> SameMessage(log.rows[r], buried.rows[r])
    requires forall r :: r != root ==> LiveReplies(buried.rows, r) == LiveReplies(log.rows, r)
    requires after == Summarise(buried, root, Recount(buried.rows, root))
    ensures ThreadsOk(after)
  {
    hide ThreadOk, Recounted;
    assert LiveReplies(after.rows, root) == LiveReplies(buried.rows, root);
    assert Authors(after.rows) == Authors(buried.rows);
    Written(after, root);
    forall r | r != root ensures LiveReplies(after.rows, r) == LiveReplies(log.rows, r) {
      assert LiveReplies(after.rows, r) == LiveReplies(buried.rows, r);
    }
    forall r | r in log.threads ensures TopLevel(after, r) {
      assert TopLevel(log, r);
    }
    OneThread(log, after, root);
  }

  lemma Written(after: Log, root: Id)
    requires SummaryOf(after, root) == Recount(after.rows, root)
    ensures ThreadOk(after, root)
  {
  }

  lemma DeleteReplyIsSafe(log: Log, id: Id, root: Id, inChannel: bool)
    requires Valid(log) && StillFits(log, DeleteReply(id, root, inChannel))
    ensures DeleteReplyTx(log, id, root, inChannel).Committed? ==>
      Valid(DeleteReplyTx(log, id, root, inChannel).log) && Extends(log, DeleteReplyTx(log, id, root, inChannel).log)
  {
    hide Extends, Core, ThreadsOk, NewestShown, Recounted, LiveReplies;
    if DeleteReplyTx(log, id, root, inChannel).Committed? {
      var bare := Bury(log, id);
      var buried := if inChannel then Relast(bare) else bare;
      var summary := Recount(buried.rows, root);
      BuryKeeps(log, id);
      RelastKeeps(bare, buried.last);
      ExtendsOnValid(log, bare, buried);
      RootsOfCore(log);
      ReplyBuried(log, id, root);
      ReplyInThread(log, id, root);
      var after := Summarise(buried, root, summary);
      SummariseKeeps(buried, root, summary);
      ExtendsOnValid(log, buried, after);
      SummaryRewritten(log, buried, after, root);
      if summary.None? && log.rows[root].deleted {
        HideRootKeeps(after, root);
        ExtendsOnValid(log, after, HideRoot(after, root));
      } else {
        ReplyUnshown(log, buried, after, id, root);
      }
    }
  }

  lemma RootsOfCore(log: Log)
    requires Core(log)
    ensures RootsOk(log)
  {
  }

  lemma ReplyInThread(log: Log, id: Id, root: Id)
    requires ThreadsOk(log) && IsLive(log, id) && log.rows[id].root == Some(root)
    ensures root in log.threads && id !in log.threads && (RootsOk(log) ==> id != root)
  {
    assert id in LiveReplies(log.rows, root);
    assert ThreadOk(log, root);
  }

  /** The channel's newest message after a reply went and its root stayed. */
  lemma ReplyUnshown(log: Log, buried: Log, after: Log, id: Id, root: Id)
    requires log.last == NewestShown(log) && id in log.rows && root in log.rows && id !in log.threads && id != root
    requires buried == Bury(log, id).(last := if log.rows[id].inChannel then NewestShown(buried) else log.last)
    requires after.rows.Keys == log.rows.Keys && after.last == buried.last
    requires forall x :: x in log.rows ==>
      after.rows[x].inChannel == buried.rows[x].inChannel && after.rows[x].deleted == buried.rows[x].deleted
    requires after.threads.Keys == buried.threads.Keys
      || (after.threads.Keys == buried.threads.Keys - {root} && !log.rows[root].deleted)
    ensures after.last == NewestShown(after)
  {
    assert ShownIds(after) == ShownIds(buried);
    SameShown(buried, after);
    if !log.rows[id].inChannel {
      assert ShownIds(buried) == ShownIds(log);
      SameShown(log, buried);
    }
  }

  // ---- Deleting a thread ------------------------------------------------------------------------

  lemma {:induction false} BuryAllKeeps(log: Log, ids: seq<Id>)
    requires Core(log) && forall k :: 0 <= k < |ids| ==> ids[k] in log.rows
    ensures var buried := BuryAll(log, ids);
            && Core(buried) && Extends(log, buried) && buried.threads == log.threads
            && (forall x :: x in log.rows ==>
                  && SameMessage(log.rows[x], buried.rows[x])
                  && buried.rows[x].deleted == (log.rows[x].deleted || x in ids))
    decreases |ids|
  {
    hide Core, Extends, ViewOf;
    if |ids| == 0 {
      ExtendsSelf(log);
    } else {
      var init, id := ids[..|ids| - 1], ids[|ids| - 1];
      BuryAllKeeps(log, init);
      var buried := BuryAll(log, init);
      BuryKeeps(buried, id);
      ExtendsOnValid(log, buried, Bury(buried, id));
      assert ids == init + [id];
    }
  }

  lemma BuryRootKeeps(log: Log, root: Id)
    requires Core(log) && root in log.rows
    ensures var after := Bury(log, root).(threads := log.threads - {root}); Core(after) && Extends(log, after)
  {
    hide StampsOk, LastStamp, Extends, RootsOk, PinsOk;
    var row, buried := Tombstone(log.rows[root]), Bury(log, root);
    var after := buried.(threads := log.threads - {root});
    BuryKeeps(log, root);
    SameRowsCore(buried, after);
    PutExtends(log, after, root, row);
  }

  lemma DeleteThreadIsSafe(log: Log, root: Id, sawDeleted: bool)
    requires Valid(log) && StillFits(log, DeleteThread(root, sawDeleted))
    ensures DeleteThreadTx(log, root, sawDeleted).Committed? ==>
      Valid(DeleteThreadTx(log, root, sawDeleted).log) && Extends(log, DeleteThreadTx(log, root, sawDeleted).log)
  {
    hide Extends, Core, ThreadsOk, NewestShown, Recounted, LiveReplies, BuryAll, HideRoot;
    if DeleteThreadTx(log, root, sawDeleted).Committed? {
      var ids := LiveInOrder(log.rows, root);
      var buried := BuryAll(log, ids);
      BuryAllKeeps(log, ids);
      var gone := (if sawDeleted then Stamp(buried, root) else Bury(buried, root)).(threads := buried.threads - {root});
      if sawDeleted {
        SummariseKeeps(buried, root, None);
      } else {
        BuryRootKeeps(buried, root);
      }
      ExtendsOnValid(log, buried, gone);
      ThreadDropped(log, gone, ids, root);
      HideRootKeeps(gone, root);
      ExtendsOnValid(log, gone, HideRoot(gone, root));
    }
  }

  lemma ThreadDropped(log: Log, gone: Log, ids: seq<Id>, root: Id)
    requires ThreadsOk(log) && TopLevel(log, root) && ids == LiveInOrder(log.rows, root)
    requires gone.rows.Keys == log.rows.Keys && gone.threads == log.threads - {root}
    requires forall x :: x in log.rows ==>
      && SameMessage(log.rows[x], gone.rows[x])
      && gone.rows[x].deleted == (log.rows[x].deleted || x in ids || x == root)
    ensures ThreadsOk(gone)
  {
    hide ThreadOk, Recounted, Ascending;
    forall x ensures x in ids <==> x in LiveReplies(log.rows, root) {
    }
    assert LiveReplies(gone.rows, root) == {};
    Written(gone, root);
    forall r | r != root ensures LiveReplies(gone.rows, r) == LiveReplies(log.rows, r) {
    }
    forall r | r in log.threads ensures TopLevel(gone, r) {
      assert TopLevel(log, r);
    }
    OneThread(log, gone, root);
  }

  // ---- The sweep ------------------------------------------------------------------------------------

  lemma SurvivorFollows(log: Log, roots: set<Id>, x: Id)
    requires StampsOk(log) && x in SweepTx(log, roots).log.rows
    ensures var after := SweepTx(log, roots).log; LastStamp(after, x, after.rows[x].seqNo) && Follows(log, after, x)
  {
    hide NewestShown;
    assert LastStamp(log, x, log.rows[x].seqNo);
  }

  lemma SurvivorRooted(log: Log, roots: set<Id>, x: Id)
    requires RootsOk(log) && x in SweepTx(log, roots).log.rows && forall id :: id in roots ==> IsRootIfThere(log, id)
    ensures match log.rows[x].root
            case None => log.rows[x].inChannel
            case Some(root) => TopLevel(SweepTx(log, roots).log, root)
  {
    hide NewestShown;
    if log.rows[x].root.Some? {
      assert TopLevel(log, log.rows[x].root.value);
    }
  }

  lemma SweepKeepsRows(log: Log, roots: set<Id>)
    requires Core(log) && forall id :: id in roots ==> IsRootIfThere(log, id)
    ensures var after := SweepTx(log, roots).log;
            StampsOk(after) && IdsOk(after) && RootsOk(after) && BlankOk(after) && Extends(log, after)
  {
    hide NewestShown, PinsOk, LastStamp, Follows, Swept, IsRootIfThere;
    var after := SweepTx(log, roots).log;
    forall x | x in after.rows
      ensures LastStamp(after, x, after.rows[x].seqNo) && Follows(log, after, x)
      ensures match after.rows[x].root case None => after.rows[x].inChannel case Some(root) => TopLevel(after, root)
    {
      SurvivorFollows(log, roots, x);
      SurvivorRooted(log, roots, x);
    }
  }

  lemma SweepKeepsCore(log: Log, roots: set<Id>)
    requires Core(log) && forall id :: id in roots ==> IsRootIfThere(log, id)
    ensures Core(SweepTx(log, roots).log) && Extends(log, SweepTx(log, roots).log)
  {
    hide NewestShown, StampsOk, IdsOk, RootsOk, BlankOk, Extends;
    SweepKeepsRows(log, roots);
    var after := SweepTx(log, roots).log;
    SubsetSize(after.pins, log.pins);
    forall x | x in after.pins ensures IsLive(after, x) && TopLevel(after, x) {
      assert IsLive(log, x) && TopLevel(log, x);
    }
  }

  lemma SweepIsSafe(log: Log, roots: set<Id>)
    requires Valid(log) && forall id :: id in roots ==> IsRootIfThere(log, id)
    ensures Valid(SweepTx(log, roots).log) && Extends(log, SweepTx(log, roots).log)
  {
    hide Core, Extends, Recounted, NewestShown;
    var gone, after := Swept(log, roots), SweepTx(log, roots).log;
    SweepKeepsCore(log, roots);
    RootsOfCore(log);
    forall r ensures ThreadOk(after, r) {
      SweptThread(log, roots, r);
    }
    forall r | r in after.threads ensures TopLevel(after, r) {
      assert TopLevel(log, r);
    }
    var before := log.(rows := log.rows - gone, threads := log.threads - gone, pins := log.pins - gone);
    assert ShownIds(after) == ShownIds(before);
    SameShown(before, after);
  }

  lemma SweptThread(log: Log, roots: set<Id>, r: Id)
    requires ThreadsOk(log) && RootsOk(log) && forall id :: id in roots ==> IsRootIfThere(log, id)
    ensures ThreadOk(SweepTx(log, roots).log, r)
  {
    hide NewestShown, Recounted;
    var gone, after := Swept(log, roots), SweepTx(log, roots).log;
    assert ThreadOk(log, r);
    if r in gone && TopLevel(log, r) {
      assert LiveReplies(after.rows, r) == {};
    } else {
      forall x | x in LiveReplies(log.rows, r) ensures x !in gone {
        assert TopLevel(log, log.rows[x].root.value);
      }
      assert LiveReplies(after.rows, r) == LiveReplies(log.rows, r);
      SameThread(log, after, r);
    }
  }

  // ---- Every transaction ------------------------------------------------------------------------------

  /** Whatever a handler read before its transaction, and whatever committed
      since: a transaction that commits keeps the invariant and takes back
      nothing told of an earlier position. */
  lemma CommitIsSafe(log: Log, call: Call, id: Id)
    requires Valid(log) && StillFits(log, call) && (call.Send? ==> log.minted < id)
    requires Apply(log, call, id).Committed?
    ensures Valid(Apply(log, call, id).log) && Extends(log, Apply(log, call, id).log)
  {
    hide Valid, Extends, BuryAll, SendTx, DeleteThreadTx, DeleteReplyTx, DeleteTopLevelTx, SweepTx;
    match call {
      case Send(_, _, _, _, _) => SendIsSafe(log, call, id);
      case Edit(at, _, _, _) => EditIsSafe(log, call);
      case React(at, reaction) => ChangeIsSafe(log, at,
        log.rows[at].(extras := log.rows[at].extras.(reactions := Toggled(log.rows[at].extras.reactions, reaction))));
      case Pin(at) => PinTxIsSafe(log, at);
      case Unpin(at) => PinTxIsSafe(log, at);
      case DismissLink(at, url) => DismissIsSafe(log, at, url);
      case Previewed(at) => ChangeIsSafe(log, at, log.rows[at]);
      case DeleteTopLevel(at) => DeleteTopLevelIsSafe(log, at);
      case DeleteReply(at, root, inChannel) => DeleteReplyIsSafe(log, at, root, inChannel);
      case DeleteThread(root, sawDeleted) => DeleteThreadIsSafe(log, root, sawDeleted);
      case Sweep(roots) => SweepIsSafe(log, roots);
    }
  }

  lemma EditIsSafe(log: Log, call: Call)
    requires Valid(log) && call.Edit? && EditTx(log, call).Committed?
    ensures Valid(EditTx(log, call).log) && Extends(log, EditTx(log, call).log)
  {
    hide Valid, Extends;
    ChangeIsSafe(log, call.id, EditTx(log, call).log.rows[call.id].(seqNo := log.rows[call.id].seqNo));
  }

  lemma DismissIsSafe(log: Log, id: Id, url: string)
    requires Valid(log) && DismissTx(log, id, url).Committed?
    ensures Valid(DismissTx(log, id, url).log) && Extends(log, DismissTx(log, id, url).log)
  {
    hide Extends, StampsOk, IdsOk, RootsOk, PinsOk, ThreadsOk, NewestShown;
    var row := log.rows[id];
    assert |row.extras.links| > 0;
    assert !row.deleted;
    ChangeIsSafe(log, id, row.(extras := row.extras.(links := Dismissed(row.extras.links, url))));
  }

  lemma PinTxIsSafe(log: Log, id: Id)
    requires Valid(log)
    ensures PinTx(log, id).Committed? && IsRootIfThere(log, id) ==>
      Valid(PinTx(log, id).log) && Extends(log, PinTx(log, id).log)
    ensures UnpinTx(log, id).Committed? ==> Valid(UnpinTx(log, id).log) && Extends(log, UnpinTx(log, id).log)
  {
    hide Extends, StampsOk, IdsOk, RootsOk, BlankOk, ThreadsOk, NewestShown;
    if PinTx(log, id).Committed? && IsRootIfThere(log, id) {
      assert |log.pins + {id}| == |log.pins| + 1;
      PinIsSafe(log, id, log.pins + {id});
    }
    if UnpinTx(log, id).Committed? {
      SubsetSize(log.pins - {id}, log.pins);
      PinIsSafe(log, id, log.pins - {id});
    }
  }
}
