/** The transactions that write message rows. Each either commits a new log
    or rolls back, spending no position. */
module Transactions {
  import opened Options
  import opened ThreadSummaries
  import opened ChannelLog

  datatype Error = MessageGone | IsPlaceholder | NoRoot | Unchanged | NotPinned

  datatype Outcome = Committed(log: Log) | RolledBack(error: Error)

  /** What a request's handler read before its transaction began, and asks of
      it. A row's root and whether it is in the channel never change; that it
      is live, or a placeholder, can have changed since. */
  datatype Call =
    | Send(author: Person, thread: Option<Id>, alsoSend: bool, content: Content, extras: Extras)
    | Edit(id: Id, text: string, urls: seq<string>, previewing: bool)
    | React(id: Id, reaction: Reaction)
    | Pin(id: Id)
    | Unpin(id: Id)
    | DismissLink(id: Id, url: string)
    | Previewed(id: Id)
    | DeleteTopLevel(id: Id)
    | DeleteReply(id: Id, root: Id, inChannel: bool)
    | DeleteThread(root: Id, sawDeleted: bool)
    | Sweep(roots: set<Id>)

  // ---- The bodies, over values ------------------------------------------------------

  /** liveMessage's answer: none when the row is live. */
  function NotLive(log: Log, id: Id): Option<Error> {
    if !Readable(log, id) then Some(MessageGone)
    else if log.rows[id].deleted then Some(IsPlaceholder)
    else None
  }

  function SendTx(log: Log, call: Call, id: Id): Outcome
    requires call.Send?
  {
    var row := Row(0, call.author, call.thread, call.thread.None? || call.alsoSend, false, call.content, call.extras);
    var created := Put(log, id, row).(minted := id);
    match call.thread
    case None => Committed(created.(last := Some(id)))
    case Some(root) =>
      if NotLive(log, root).Some? then RolledBack(NotLive(log, root).value)
      else
        var summary := Recorded(SummaryOf(log, root), id, call.author);
        var answered := Summarise(created, root, Some(summary));
        Committed(if call.alsoSend then answered.(last := Some(id)) else answered)
  }

  function DismissedUrls(links: seq<Link>): set<string> {
    set k | 0 <= k < |links| && links[k].dismissed :: links[k].url
  }

  /** recordLinks: a card dismissed before stays dismissed. */
  function RecordedLinks(links: seq<Link>, urls: seq<string>): seq<Link> {
    seq(|urls|, k requires 0 <= k < |urls| => Link(urls[k], urls[k] in DismissedUrls(links)))
  }

  /** dropRemovedLinks. */
  function KeptLinks(links: seq<Link>, urls: seq<string>): seq<Link> {
    if |links| == 0 then []
    else (if links[0].url in urls then [links[0]] else []) + KeptLinks(links[1..], urls)
  }

  function EditTx(log: Log, call: Call): Outcome
    requires call.Edit?
  {
    if call.id !in log.rows then RolledBack(MessageGone)
    else if log.rows[call.id].deleted then RolledBack(IsPlaceholder)
    else
      var row := log.rows[call.id];
      var links :=
        if call.previewing then RecordedLinks(row.extras.links, call.urls) else KeptLinks(row.extras.links, call.urls);
      Committed(Put(log, call.id, row.(content := row.content.(text := call.text, edited := true),
                                       extras := row.extras.(links := links))))
  }

  function Removed(reactions: seq<Reaction>, reaction: Reaction): (rest: seq<Reaction>)
    ensures forall r :: r in rest <==> r in reactions && r != reaction
  {
    if |reactions| == 0 then []
    else (if reactions[0] == reaction then [] else [reactions[0]]) + Removed(reactions[1..], reaction)
  }

  function Toggled(reactions: seq<Reaction>, reaction: Reaction): seq<Reaction> {
    if reaction in reactions then Removed(reactions, reaction) else reactions + [reaction]
  }

  function ReactTx(log: Log, id: Id, reaction: Reaction): Outcome {
    if id !in log.rows then RolledBack(MessageGone)
    else
      var row := log.rows[id];
      if row.deleted then RolledBack(IsPlaceholder)
      else Committed(Put(log, id, row.(extras := row.extras.(reactions := Toggled(row.extras.reactions, reaction)))))
  }

  function PinTx(log: Log, id: Id): Outcome {
    if id !in log.rows then RolledBack(MessageGone)
    else if NotLive(log, id).Some? then RolledBack(NotLive(log, id).value)
    else if id in log.pins || |log.pins| >= MAX_PINS then RolledBack(NotPinned)
    else Committed(Stamp(log, id).(pins := log.pins + {id}))
  }

  function UnpinTx(log: Log, id: Id): Outcome {
    if id !in log.rows then RolledBack(MessageGone)
    else if id !in log.pins then RolledBack(Unchanged)
    else Committed(Stamp(log, id).(pins := log.pins - {id}))
  }

  function Dismissed(links: seq<Link>, url: string): seq<Link> {
    seq(|links|, k requires 0 <= k < |links| => if links[k].url == url then Link(url, true) else links[k])
  }

  predicate HasUrl(links: seq<Link>, url: string) {
    exists k :: 0 <= k < |links| && links[k].url == url
  }

  function DismissTx(log: Log, id: Id, url: string): Outcome {
    if id !in log.rows then RolledBack(MessageGone)
    else
      var row := log.rows[id];
      if !HasUrl(row.extras.links, url) then RolledBack(Unchanged)
      else Committed(Put(log, id, row.(extras := row.extras.(links := Dismissed(row.extras.links, url)))))
  }

  function PreviewedTx(log: Log, id: Id): Outcome {
    if IsLive(log, id) then Committed(Stamp(log, id)) else RolledBack(MessageGone)
  }

  /** hideRoot's writes to the channel's state. */
  function HideRoot(log: Log, root: Id): Log {
    Relast(log.(pins := log.pins - {root}))
  }

  /** tombstoneTopLevel. */
  function DeleteTopLevelTx(log: Log, id: Id): Outcome {
    if !IsLive(log, id) then RolledBack(MessageGone)
    else
      var replies := if id in log.threads then log.threads[id].count else 0;
      Committed(if replies > 0 then Bury(log, id) else HideRoot(Bury(log, id), id))
  }

  /** tombstoneReply. */
  function DeleteReplyTx(log: Log, id: Id, root: Id, inChannel: bool): Outcome {
    if !Readable(log, root) then RolledBack(NoRoot)
    else if !IsLive(log, id) then RolledBack(MessageGone)
    else
      var buried := if inChannel then Relast(Bury(log, id)) else Bury(log, id);
      var replies := LiveReplies(buried.rows, root);
      if root in log.threads && replies != {}
      then Committed(Summarise(buried, root, Some(Recounted(Authors(buried.rows), replies))))
      else
        var dropped := Summarise(buried, root, None);
        Committed(if log.rows[root].deleted then HideRoot(dropped, root) else dropped)
  }

  /** tombstoneRow on each of some live rows, in order. */
  function BuryAll(log: Log, ids: seq<Id>): (buried: Log)
    requires forall k :: 0 <= k < |ids| ==> ids[k] in log.rows
    ensures buried.rows.Keys == log.rows.Keys
    decreases |ids|
  {
    if |ids| == 0 then log else Bury(BuryAll(log, ids[..|ids| - 1]), ids[|ids| - 1])
  }

  lemma {:induction false} BuriedStamps(log: Log, ids: seq<Id>)
    requires forall k :: 0 <= k < |ids| ==> ids[k] in log.rows
    ensures var buried := BuryAll(log, ids);
            && buried.stamps == log.stamps + ids && buried.seqNo == log.seqNo + |ids| && buried.threads == log.threads
            && (forall x :: x in log.rows && x !in ids ==>
                  buried.rows[x] == log.rows[x] && (x in buried.pins <==> x in log.pins))
    decreases |ids|
  {
    if |ids| > 0 {
      var init, id := ids[..|ids| - 1], ids[|ids| - 1];
      BuriedStamps(log, init);
      assert ids == init + [id];
      assert log.stamps + init + [id] == log.stamps + ids;
    }
  }

  /** ListLiveThreadReplies: the live replies, oldest first. */
  function LiveInOrder(rows: map<Id, Row>, root: Id): (ids: seq<Id>)
    ensures forall k :: 0 <= k < |ids| ==> ids[k] in rows
  {
    var ids := Ascending(LiveReplies(rows, root));
    assert forall k :: 0 <= k < |ids| ==> ids[k] in LiveReplies(rows, root);
    ids
  }

  lemma LiveInOrderIs(rows: map<Id, Row>, root: Id)
    ensures var ids := LiveInOrder(rows, root);
            && (forall x :: x in ids <==> x in LiveReplies(rows, root))
            && (forall j, k :: 0 <= j < k < |ids| ==> ids[j] < ids[k])
  {
  }

  /** tombstoneThread, with the root as the handler read it. */
  function DeleteThreadTx(log: Log, root: Id, sawDeleted: bool): Outcome {
    if root !in log.rows || (!sawDeleted && log.rows[root].deleted) then RolledBack(MessageGone)
    else
      var buried := BuryAll(log, LiveInOrder(log.rows, root));
      var gone := if sawDeleted then Stamp(buried, root) else Bury(buried, root);
      Committed(HideRoot(gone.(threads := gone.threads - {root}), root))
  }

  /** The rows a sweep of these roots deletes: them, and every reply. */
  function Swept(log: Log, roots: set<Id>): set<Id> {
    set id | id in log.rows && (id in roots || (log.rows[id].root.Some? && log.rows[id].root.value in roots))
  }

  /** sweepChannel; summaries and pins cascade. */
  function SweepTx(log: Log, roots: set<Id>): Outcome {
    var gone := Swept(log, roots);
    Committed(Relast(log.(rows := log.rows - gone, threads := log.threads - gone, pins := log.pins - gone)))
  }

  /** What the call's transaction does to the log; id is the one a send mints. */
  function Apply(log: Log, call: Call, id: Id): Outcome {
    match call
    case Send(_, _, _, _, _) => SendTx(log, call, id)
    case Edit(_, _, _, _) => EditTx(log, call)
    case React(at, reaction) => ReactTx(log, at, reaction)
    case Pin(at) => PinTx(log, at)
    case Unpin(at) => UnpinTx(log, at)
    case DismissLink(at, url) => DismissTx(log, at, url)
    case Previewed(at) => PreviewedTx(log, at)
    case DeleteTopLevel(at) => DeleteTopLevelTx(log, at)
    case DeleteReply(at, root, inChannel) => DeleteReplyTx(log, at, root, inChannel)
    case DeleteThread(root, sawDeleted) => DeleteThreadTx(log, root, sawDeleted)
    case Sweep(roots) => SweepTx(log, roots)
  }

  // ---- What a handler checks first, and what is left of it ---------------------------

  /** The handler's check, against the log as it is then. */
  predicate Admits(log: Log, call: Call) {
    match call
    case Send(_, thread, alsoSend, _, _) =>
      (thread.Some? ==> IsLive(log, thread.value) && TopLevel(log, thread.value)) && (alsoSend ==> thread.Some?)
    case Edit(id, _, _, _) => IsLive(log, id)
    case React(id, _) => IsLive(log, id)
    case Pin(id) => IsLive(log, id) && TopLevel(log, id)
    case Unpin(id) => Readable(log, id)
    case DismissLink(id, _) => Readable(log, id)
    case Previewed(id) => id in log.rows
    case DeleteTopLevel(id) => IsLive(log, id) && TopLevel(log, id)
    case DeleteReply(id, root, inChannel) =>
      IsLive(log, id) && log.rows[id].root == Some(root) && log.rows[id].inChannel == inChannel
    case DeleteThread(root, sawDeleted) =>
      Readable(log, root) && TopLevel(log, root) && log.rows[root].deleted == sawDeleted
    case Sweep(roots) => forall id :: id in roots ==> TopLevel(log, id) && id !in log.pins
  }

  /** The part of the check that nothing committing in between can undo. */
  predicate StillFits(log: Log, call: Call) {
    match call
    case Send(_, thread, alsoSend, _, _) =>
      (thread.Some? ==> IsRootIfThere(log, thread.value)) && (alsoSend ==> thread.Some?)
    case Pin(id) => IsRootIfThere(log, id)
    case DeleteTopLevel(id) => IsRootIfThere(log, id)
    case DeleteReply(id, root, inChannel) =>
      && IsRootIfThere(log, root) && id != root && id <= log.minted
      && (id in log.rows ==> log.rows[id].root == Some(root) && log.rows[id].inChannel == inChannel)
    case DeleteThread(root, sawDeleted) =>
      IsRootIfThere(log, root) && (sawDeleted && root in log.rows ==> log.rows[root].deleted)
    case Sweep(roots) => forall id :: id in roots ==> IsRootIfThere(log, id)
    case _ => true
  }

  predicate IsRootIfThere(log: Log, id: Id) {
    id <= log.minted && (id in log.rows ==> log.rows[id].root.None?)
  }

  lemma AdmittedFits(log: Log, call: Call)
    requires Valid(log) && Admits(log, call)
    ensures StillFits(log, call)
  {
    hide StampsOk, PinsOk, BlankOk, ThreadsOk;
    if call.DeleteReply? {
      assert TopLevel(log, call.root);
    }
  }

  /** Whatever commits in between, it still fits. */
  lemma FitsLater(before: Log, after: Log, call: Call)
    requires Extends(before, after) && StillFits(before, call)
    ensures StillFits(after, call)
  {
    forall id | IsRootIfThere(before, id) ensures IsRootIfThere(after, id) {
      if id in after.rows {
        assert Follows(before, after, id);
      }
    }
    match call {
      case DeleteReply(id, root, inChannel) =>
        if id in after.rows {
          assert Follows(before, after, id);
        }
      case DeleteThread(root, sawDeleted) =>
        if root in after.rows {
          assert Follows(before, after, root);
        }
      case _ =>
    }
  }
}
