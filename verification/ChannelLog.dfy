/** A channel's log: its rows, thread summaries, pins and newest message, and
    the positions its writes were stamped with. */
module ChannelLog {
  import opened Options
  import opened ThreadSummaries

  const MAX_PINS: nat := 50

  datatype Content = Content(text: string, entireChannel: bool, here: bool, edited: bool)

  const NO_CONTENT := Content("", false, false, false)

  datatype Reaction = Reaction(user: Person, emoji: string)

  datatype Link = Link(url: string, dismissed: bool)

  /** What hangs off a message row in tables of its own. */
  datatype Extras = Extras(mentions: set<Person>, reactions: seq<Reaction>, files: seq<Id>, links: seq<Link>)

  const NO_EXTRAS := Extras({}, [], [], [])

  datatype Row = Row(
    seqNo: nat, author: Person, root: Option<Id>, inChannel: bool, deleted: bool, content: Content, extras: Extras)

  /** `stamps` is the committed history: position p went to stamps[p - 1].
      `minted` is the highest message id handed out. */
  datatype Log = Log(
    seqNo: nat, rows: map<Id, Row>, threads: map<Id, Summary>, pins: set<Id>, last: Option<Id>,
    minted: Id, stamps: seq<Id>)

  const EMPTY_LOG := Log(0, map[], map[], {}, None, 0, [])

  // ---- Reading -----------------------------------------------------------------

  function LiveReplies(rows: map<Id, Row>, root: Id): set<Id> {
    set id | id in rows && rows[id].root == Some(root) && !rows[id].deleted
  }

  function Authors(rows: map<Id, Row>): map<Id, Person> {
    map id | id in rows :: rows[id].author
  }

  /** The summary that counting the live replies under a root gives. */
  function Recount(rows: map<Id, Row>, root: Id): Option<Summary> {
    if LiveReplies(rows, root) == {} then None else Some(Recounted(Authors(rows), LiveReplies(rows, root)))
  }

  /** GetMessage finds live rows and roots kept as placeholders. */
  predicate Readable(log: Log, id: Id) {
    id in log.rows && (!log.rows[id].deleted || id in log.threads)
  }

  /** A tombstone shown to nobody. */
  predicate Hidden(log: Log, id: Id) {
    id in log.rows && !Readable(log, id)
  }

  predicate IsLive(log: Log, id: Id) {
    id in log.rows && !log.rows[id].deleted
  }

  predicate TopLevel(log: Log, id: Id) {
    id in log.rows && log.rows[id].root.None?
  }

  /** The thread a row is in: its own, or that of the root it answers. */
  function RootOf(log: Log, id: Id): Id
    requires id in log.rows
  {
    if log.rows[id].root.Some? then log.rows[id].root.value else id
  }

  function ShownIds(log: Log): set<Id> {
    set id | id in log.rows && log.rows[id].inChannel && Readable(log, id)
  }

  function NewestShown(log: Log): Option<Id> {
    if ShownIds(log) == {} then None else Some(Max(ShownIds(log)))
  }

  function SummaryOf(log: Log, id: Id): Option<Summary> {
    if id in log.threads then Some(log.threads[id]) else None
  }

  /** A message as a client is sent it: what its seq says the state of. */
  datatype View = View(row: Row, thread: Option<Summary>, pinned: bool)

  function ViewOf(log: Log, id: Id): View
    requires id in log.rows
  {
    View(log.rows[id], SummaryOf(log, id), id in log.pins)
  }

  // ---- What every state keeps ---------------------------------------------------

  /** Every row carries the last position its id was stamped with. */
  ghost predicate StampsOk(log: Log) {
    && |log.stamps| == log.seqNo
    && forall id :: id in log.rows ==> LastStamp(log, id, log.rows[id].seqNo)
  }

  ghost predicate LastStamp(log: Log, id: Id, p: nat) {
    1 <= p <= |log.stamps| && log.stamps[p - 1] == id && forall q :: p <= q < |log.stamps| ==> log.stamps[q] != id
  }

  ghost predicate IdsOk(log: Log) {
    && (forall id :: id in log.rows ==> id <= log.minted)
    && (forall k :: 0 <= k < |log.stamps| ==> log.stamps[k] <= log.minted)
  }

  /** A reply's root is a top-level row, and every top-level row is in the
      channel. */
  ghost predicate RootsOk(log: Log) {
    forall id :: id in log.rows ==>
      match log.rows[id].root
      case None => log.rows[id].inChannel
      case Some(root) => TopLevel(log, root)
  }

  /** A tombstone has no text and nothing hanging off it. */
  ghost predicate BlankOk(log: Log) {
    forall id :: id in log.rows && log.rows[id].deleted ==>
      log.rows[id].content == NO_CONTENT && log.rows[id].extras == NO_EXTRAS
  }

  /** Only live top-level messages are pinned, never more than the cap. */
  ghost predicate PinsOk(log: Log) {
    (forall id :: id in log.pins ==> IsLive(log, id) && TopLevel(log, id)) && |log.pins| <= MAX_PINS
  }

  ghost predicate ThreadOk(log: Log, root: Id) {
    SummaryOf(log, root) == Recount(log.rows, root)
  }

  /** A root has a summary exactly while its thread has live replies, and the
      summary is what counting them again would say. */
  ghost predicate ThreadsOk(log: Log) {
    (forall root :: root in log.threads ==> TopLevel(log, root)) && forall root: Id :: ThreadOk(log, root)
  }

  /** What holds between the statements of a transaction too. */
  ghost predicate Core(log: Log) {
    StampsOk(log) && IdsOk(log) && RootsOk(log) && BlankOk(log) && PinsOk(log)
  }

  ghost predicate Valid(log: Log) {
    Core(log) && ThreadsOk(log) && log.last == NewestShown(log)
  }

  // ---- What every later state keeps ----------------------------------------------

  /** `after` comes after `before`: no row appears or changes at or below the
      position a reader of `before` has seen, nothing about who and where a
      row is changes, and a hidden row stays hidden. */
  ghost predicate Extends(before: Log, after: Log) {
    && before.seqNo <= after.seqNo && before.minted <= after.minted && before.stamps <= after.stamps
    && forall id :: id in after.rows ==> Follows(before, after, id)
  }

  ghost predicate Follows(before: Log, after: Log, id: Id)
    requires id in after.rows
  {
    && (id !in before.rows ==> before.minted < id && before.seqNo < after.rows[id].seqNo)
    && (id in before.rows ==>
          && before.rows[id].seqNo <= after.rows[id].seqNo
          && (after.rows[id].seqNo <= before.seqNo ==> ViewOf(after, id) == ViewOf(before, id))
          && SameMessage(before.rows[id], after.rows[id])
          && (Hidden(before, id) ==> Hidden(after, id)))
  }

  predicate SameMessage(before: Row, after: Row) {
    && after.author == before.author && after.root == before.root && after.inChannel == before.inChannel
    && (before.deleted ==> after.deleted)
  }

  lemma ExtendsSelf(log: Log)
    ensures Extends(log, log)
  {
    forall id | id in log.rows ensures Follows(log, log, id) {
    }
  }

  lemma FollowsOn(a: Log, b: Log, c: Log, id: Id)
    requires IdsOk(a) && StampsOk(a) && a.seqNo <= b.seqNo && a.minted <= b.minted && id in c.rows
    requires Follows(b, c, id) && (id in b.rows ==> Follows(a, b, id))
    ensures Follows(a, c, id)
  {
    hide ViewOf, LastStamp, Readable;
    if id in a.rows {
      assert LastStamp(a, id, a.rows[id].seqNo);
    }
  }

  lemma ExtendsOn(a: Log, b: Log, c: Log)
    requires IdsOk(a) && StampsOk(a) && Extends(a, b) && Extends(b, c)
    ensures Extends(a, c)
  {
    hide Follows, LastStamp;
    forall id | id in c.rows ensures Follows(a, c, id) {
      FollowsOn(a, b, c, id);
    }
  }

  // ---- The statements a transaction is made of -------------------------------------

  /** NextChannelSeq and StampMessageSeq, on a row that may change with them. */
  function Put(log: Log, id: Id, row: Row): Log {
    log.(seqNo := log.seqNo + 1, stamps := log.stamps + [id],
         rows := log.rows[id := row.(seqNo := log.seqNo + 1)])
  }

  function Stamp(log: Log, id: Id): Log
    requires id in log.rows
  {
    Put(log, id, log.rows[id])
  }

  function Tombstone(row: Row): Row {
    row.(deleted := true, content := NO_CONTENT, extras := NO_EXTRAS)
  }

  /** tombstoneRow: the row blanked, unpinned and stamped. */
  function Bury(log: Log, id: Id): Log
    requires id in log.rows
  {
    Put(log, id, Tombstone(log.rows[id])).(pins := log.pins - {id})
  }

  function SetSummary(threads: map<Id, Summary>, root: Id, summary: Option<Summary>): map<Id, Summary> {
    match summary
    case None => threads - {root}
    case Some(s) => threads[root := s]
  }

  /** The summary under a root written or dropped, and the root stamped. */
  function Summarise(log: Log, root: Id, summary: Option<Summary>): Log
    requires root in log.rows
  {
    Stamp(log, root).(threads := SetSummary(log.threads, root, summary))
  }

  function Relast(log: Log): Log {
    log.(last := NewestShown(log))
  }

  // ---- Each statement keeps the core -------------------------------------------------

  lemma StampsAfterPut(log: Log, id: Id, row: Row)
    requires StampsOk(log) && IdsOk(log) && (id in log.rows || log.minted < id)
    ensures StampsOk(Put(log, id, row))
  {
    var after := Put(log, id, row);
    forall x | x in after.rows ensures LastStamp(after, x, after.rows[x].seqNo) {
      if x != id {
        assert LastStamp(log, x, log.rows[x].seqNo);
      }
    }
  }

  /** A row written at the next position, with what goes with it. */
  lemma PutExtends(log: Log, after: Log, id: Id, row: Row)
    requires StampsOk(log) && IdsOk(log) && (id in log.rows || log.minted < id)
    requires id in log.rows ==> SameMessage(log.rows[id], row)
    requires after == Put(log, id, row).(pins := after.pins, threads := after.threads, minted := after.minted)
    requires log.minted <= after.minted
    requires forall x :: x in log.rows && x != id ==>
      (x in after.pins <==> x in log.pins) && SummaryOf(after, x) == SummaryOf(log, x)
    requires Hidden(log, id) ==> id !in after.threads
    ensures Extends(log, after)
  {
    forall x | x in after.rows ensures Follows(log, after, x) {
      if x in log.rows {
        assert LastStamp(log, x, log.rows[x].seqNo);
        if x != id {
          assert SummaryOf(after, x) == SummaryOf(log, x);
        }
      }
    }
  }

  lemma BuryKeeps(log: Log, id: Id)
    requires Core(log) && id in log.rows
    ensures Core(Bury(log, id)) && Extends(log, Bury(log, id))
  {
    hide StampsOk, LastStamp, Extends, PinsOk, RootsOk;
    var row, after := Tombstone(log.rows[id]), Bury(log, id);
    StampsAfterPut(log, id, row);
    StampsSame(Put(log, id, row), after);
    PutExtends(log, after, id, row);
    RootsAfterPut(log, after, id);
    BuryPins(log, id);
  }

  lemma BuryPins(log: Log, id: Id)
    requires PinsOk(log) && id in log.rows
    ensures PinsOk(Bury(log, id))
  {
    var after := Bury(log, id);
    SubsetSize(after.pins, log.pins);
    forall x | x in after.pins ensures IsLive(after, x) && TopLevel(after, x) {
      assert IsLive(log, x) && TopLevel(log, x);
    }
  }

  lemma StampsSame(log: Log, after: Log)
    requires StampsOk(log) && after.rows == log.rows && after.stamps == log.stamps && after.seqNo == log.seqNo
    ensures StampsOk(after)
  {
    forall x | x in after.rows ensures LastStamp(after, x, after.rows[x].seqNo) {
      assert LastStamp(log, x, log.rows[x].seqNo);
    }
  }

  lemma RootsAfterPut(log: Log, after: Log, id: Id)
    requires RootsOk(log) && id in log.rows && id in after.rows
    requires after.rows == log.rows[id := after.rows[id]] && SameMessage(log.rows[id], after.rows[id])
    ensures RootsOk(after)
  {
    forall x | x in after.rows
      ensures match after.rows[x].root case None => after.rows[x].inChannel case Some(root) => TopLevel(after, root)
    {
      assert log.rows[x].root == after.rows[x].root;
      if after.rows[x].root.Some? {
        assert TopLevel(log, after.rows[x].root.value);
      }
    }
  }

  /** A live row changed, or any row only stamped. */
  lemma ChangeKeeps(log: Log, id: Id, row: Row)
    requires Core(log) && id in log.rows && SameMessage(log.rows[id], row) && row.deleted == log.rows[id].deleted
    requires row.deleted ==> row.content == NO_CONTENT && row.extras == NO_EXTRAS
    ensures Core(Put(log, id, row)) && Extends(log, Put(log, id, row))
  {
    hide StampsOk, LastStamp, Extends;
    var after := Put(log, id, row);
    StampsAfterPut(log, id, row);
    PutExtends(log, after, id, row);
    RootsAfterPut(log, after, id);
    forall x | x in after.pins ensures IsLive(after, x) && TopLevel(after, x) {
      assert IsLive(log, x) && TopLevel(log, x);
    }
  }

  lemma SummariseKeeps(log: Log, root: Id, summary: Option<Summary>)
    requires Core(log) && root in log.rows && (summary.Some? ==> Readable(log, root))
    ensures Core(Summarise(log, root, summary)) && Extends(log, Summarise(log, root, summary))
  {
    hide StampsOk, LastStamp, Extends, PinsOk, RootsOk;
    var row, after := log.rows[root], Summarise(log, root, summary);
    ChangeKeeps(log, root, row);
    StampsSame(Put(log, root, row), after);
    PutExtends(log, after, root, row);
    SameRowsCore(Put(log, root, row), after);
  }

  lemma SameRowsCore(log: Log, after: Log)
    requires Core(log) && after.rows == log.rows && after.stamps == log.stamps && after.seqNo == log.seqNo
    requires after.minted == log.minted && after.pins == log.pins
    ensures Core(after)
  {
    hide LastStamp;
    StampsSame(log, after);
    forall x | x in after.rows && after.rows[x].root.Some? ensures TopLevel(after, after.rows[x].root.value) {
      assert TopLevel(log, after.rows[x].root.value);
    }
    forall x | x in after.pins ensures IsLive(after, x) && TopLevel(after, x) {
      assert IsLive(log, x) && TopLevel(log, x);
    }
  }
}
