/** The activity feed and the read markers: the statements that write items,
    the two that mark them read, and the rule they share. */
module Activity {
  import opened Options

  type Id = nat
  type Person = nat

  datatype Kind = AboutMention | AboutReply | AboutDm | AboutThread

  datatype Message = Message(channel: Id, root: Option<Id>, inChannel: bool, deleted: bool)

  datatype Item = Item(user: Person, kind: Kind, channel: Id, message: Id, actor: Person, read: bool)

  /** channelReads and threadReads hold each person's marker in a channel and
      under a root; `minted` is the highest item id handed out. */
  datatype Feed = Feed(
    messages: map<Id, Message>, channelReads: map<(Person, Id), Id>, threadReads: map<(Person, Id), Id>,
    items: map<Id, Item>, minted: Id)

  // ---- Already seen --------------------------------------------------------------

  predicate Passed(markers: map<(Person, Id), Id>, user: Person, place: Id, message: Id) {
    (user, place) in markers && message <= markers[(user, place)]
  }

  /** The rule a new item is born by. */
  predicate Seen(feed: Feed, user: Person, kind: Kind, id: Id) {
    && id in feed.messages
    && var m := feed.messages[id];
       || (kind != AboutThread && m.inChannel && Passed(feed.channelReads, user, m.channel, id))
       || (m.root.Some? && Passed(feed.threadReads, user, m.root.value, id))
  }

  // ---- The statements --------------------------------------------------------------

  function NewItem(feed: Feed, user: Person, kind: Kind, id: Id, actor: Person): Item
    requires id in feed.messages
  {
    Item(user, kind, feed.messages[id].channel, id, actor, Seen(feed, user, kind, id))
  }

  predicate IsLive(feed: Feed, id: Id) {
    id in feed.messages && !feed.messages[id].deleted
  }

  function Highest(floor: nat, ids: set<nat>): nat {
    if ids == {} || Max(ids) <= floor then floor else Max(ids)
  }

  /** CreateActivityItems: one item for each recipient, under a new id. */
  function Create(feed: Feed, kind: Kind, id: Id, actor: Person, to: map<Id, Person>): Feed {
    if !IsLive(feed, id) then feed
    else
      feed.(items := feed.items + map item | item in to :: NewItem(feed, to[item], kind, id, actor),
            minted := Highest(feed.minted, to.Keys))
  }

  /** An unread item of the kind, where a coalescing one for the message goes:
      in its channel, and for a thread's in its thread. */
  predicate Waiting(feed: Feed, item: Item, user: Person, kind: Kind, id: Id)
    requires id in feed.messages
  {
    && item.user == user && item.kind == kind && !item.read && item.channel == feed.messages[id].channel
    && (kind == AboutThread ==>
          item.message in feed.messages && feed.messages[item.message].root == feed.messages[id].root)
  }

  function WaitingIds(feed: Feed, user: Person, kind: Kind, id: Id): set<Id>
    requires id in feed.messages
  {
    set item | item in feed.items && Waiting(feed, feed.items[item], user, kind, id)
  }

  /** The items a refresh rewrites: each recipient's newest waiting one. */
  function Refreshed(feed: Feed, kind: Kind, id: Id, people: set<Person>): set<Id>
    requires id in feed.messages
  {
    set item | item in feed.items
      && feed.items[item].user in people
      && item in WaitingIds(feed, feed.items[item].user, kind, id)
      && item == Max(WaitingIds(feed, feed.items[item].user, kind, id))
  }

  /** UpsertUnreadActivityItems: a recipient's waiting item moves to the message
      under a new id; a recipient without one gets one. */
  function Upsert(feed: Feed, kind: Kind, id: Id, actor: Person, to: map<Id, Person>): Feed {
    if !IsLive(feed, id) then feed
    else
      var stale := Refreshed(feed, kind, id, to.Values);
      feed.(items := (feed.items - stale) + map item | item in to :: NewItem(feed, to[item], kind, id, actor),
            minted := Highest(feed.minted, to.Keys))
  }

  function Moved(markers: map<(Person, Id), Id>, user: Person, place: Id, target: Id): map<(Person, Id), Id> {
    if Passed(markers, user, place, target) then markers else markers[(user, place) := target]
  }

  /** MarkChannelActivityRead's own conditions on an item. */
  predicate ChannelMatches(feed: Feed, item: Item, user: Person, channel: Id) {
    && item.user == user && item.channel == channel && !item.read && item.kind != AboutThread
    && item.message in feed.messages && feed.messages[item.message].inChannel
    && Passed(feed.channelReads, user, item.channel, item.message)
  }

  /** MarkThreadActivityRead's. */
  predicate ThreadMatches(feed: Feed, item: Item, user: Person, channel: Id, root: Id) {
    && item.user == user && item.channel == channel && !item.read
    && item.message in feed.messages && feed.messages[item.message].root == Some(root)
    && Passed(feed.threadReads, user, root, item.message)
  }

  function ReadWhere(items: map<Id, Item>, matched: set<Id>): map<Id, Item> {
    map item | item in items :: if item in matched then items[item].(read := true) else items[item]
  }

  function ChannelMatched(feed: Feed, user: Person, channel: Id): set<Id> {
    set i | i in feed.items && ChannelMatches(feed, feed.items[i], user, channel)
  }

  function ThreadMatched(feed: Feed, user: Person, channel: Id, root: Id): set<Id> {
    set i | i in feed.items && ThreadMatches(feed, feed.items[i], user, channel, root)
  }

  /** markChannelRead: the marker moves forward, and a credential that covers
      activity clears what it has passed. */
  function MarkChannel(feed: Feed, user: Person, channel: Id, target: Id, covers: bool): Feed {
    var moved := feed.(channelReads := Moved(feed.channelReads, user, channel, target));
    if !covers then moved else moved.(items := ReadWhere(moved.items, ChannelMatched(moved, user, channel)))
  }

  /** markThreadRead. */
  function MarkThread(feed: Feed, user: Person, channel: Id, root: Id, target: Id, covers: bool): Feed {
    var moved := feed.(threadReads := Moved(feed.threadReads, user, root, target));
    if !covers then moved else moved.(items := ReadWhere(moved.items, ThreadMatched(moved, user, channel, root)))
  }

  /** What else happens to the feed: messages come and go, their items with
      them; items are marked read one by one, or dropped; a hidden thread's
      markers go. */
  datatype Step =
    | Post(id: Id, message: Message)
    | Record(kind: Kind, id: Id, actor: Person, to: map<Id, Person>)
    | Coalesce(kind: Kind, id: Id, actor: Person, to: map<Id, Person>)
    | MoveChannel(user: Person, channel: Id, target: Id, covers: bool)
    | MoveThread(user: Person, root: Id, target: Id, covers: bool)
    | MarkItems(ids: set<Id>)
    | DropItems(ids: set<Id>)
    | Tombstone(id: Id)
    | Sweep(ids: set<Id>)
    | ForgetThread(root: Id)

  function WithoutMessages(items: map<Id, Item>, ids: set<Id>): map<Id, Item> {
    map i | i in items && items[i].message !in ids :: items[i]
  }

  function Apply(feed: Feed, step: Step): Feed {
    match step
    case Post(id, message) => feed.(messages := feed.messages[id := message])
    case Record(kind, id, actor, to) => Create(feed, kind, id, actor, to)
    case Coalesce(kind, id, actor, to) => Upsert(feed, kind, id, actor, to)
    case MoveChannel(user, channel, target, covers) => MarkChannel(feed, user, channel, target, covers)
    case MoveThread(user, root, target, covers) =>
      if root !in feed.messages then feed
      else MarkThread(feed, user, feed.messages[root].channel, root, target, covers)
    case MarkItems(ids) => feed.(items := ReadWhere(feed.items, ids))
    case DropItems(ids) => feed.(items := feed.items - ids)
    case Tombstone(id) =>
      if id !in feed.messages then feed
      else feed.(messages := feed.messages[id := feed.messages[id].(deleted := true)],
                 items := WithoutMessages(feed.items, {id}))
    case Sweep(ids) => feed.(messages := feed.messages - ids, items := WithoutMessages(feed.items, ids))
    case ForgetThread(root) =>
      feed.(threadReads := map key | key in feed.threadReads && key.1 != root :: feed.threadReads[key])
  }

  /** What a step's caller keeps: item ids are new; a coalescing write has one
      id a recipient; only mentions and replies are written singly; a message
      id is used once, and a reply is in its root's channel. */
  ghost predicate Proper(feed: Feed, step: Step) {
    match step
    case Post(id, message) =>
      && id !in feed.messages && !message.deleted
      && (message.root.Some? ==>
            && message.root.value in feed.messages
            && feed.messages[message.root.value].channel == message.channel)
    case Record(kind, id, _, to) =>
      (kind == AboutMention || kind == AboutReply) && forall item :: item in to ==> feed.minted < item
    case Coalesce(kind, id, _, to) =>
      && (kind == AboutDm || (kind == AboutThread && (id in feed.messages ==> feed.messages[id].root.Some?)))
      && (forall item :: item in to ==> feed.minted < item)
      && (forall i, j :: i in to && j in to && i != j ==> to[i] != to[j])
    case Sweep(ids) =>
      forall id :: id in feed.messages && feed.messages[id].root.Some? && feed.messages[id].root.value in ids ==> id in ids
    case _ => true
  }

  // ---- What every state keeps ------------------------------------------------------

  /** An item is about a live message, of its channel. */
  ghost predicate ItemOk(feed: Feed, i: Id, item: Item) {
    && i <= feed.minted && IsLive(feed, item.message)
    && feed.messages[item.message].channel == item.channel
    && (item.kind == AboutThread ==> feed.messages[item.message].root.Some?)
  }

  ghost predicate ItemsOk(feed: Feed) {
    && (forall i :: i in feed.items ==> ItemOk(feed, i, feed.items[i]))
    && forall id :: id in feed.messages && feed.messages[id].root.Some? ==>
         && feed.messages[id].root.value in feed.messages
         && feed.messages[feed.messages[id].root.value].channel == feed.messages[id].channel
  }

  /** Two unread items that coalescing should have made one. */
  predicate Doubled(feed: Feed, a: Item, b: Item) {
    && !a.read && !b.read && a.user == b.user && a.kind == b.kind && a.channel == b.channel
    && (a.kind == AboutDm
        || (a.kind == AboutThread && a.message in feed.messages && b.message in feed.messages
            && feed.messages[a.message].root == feed.messages[b.message].root))
  }

  /** One unread dm item a person and channel, one unread thread item a person
      and thread. */
  ghost predicate Single(feed: Feed) {
    forall i, j :: i in feed.items && j in feed.items && i != j ==> !Doubled(feed, feed.items[i], feed.items[j])
  }

  ghost predicate UnreadUnseen(feed: Feed) {
    forall i :: i in feed.items && !feed.items[i].read ==>
      !Seen(feed, feed.items[i].user, feed.items[i].kind, feed.items[i].message)
  }

  // ---- One rule -----------------------------------------------------------------------

  /** The rule an item is born by is the two mark statements together: once
      seen, exactly one of them, or both, would take it. */
  lemma OneRule(feed: Feed, i: Id)
    requires ItemsOk(feed) && i in feed.items && !feed.items[i].read
    ensures var item := feed.items[i];
            var m := feed.messages[item.message];
            Seen(feed, item.user, item.kind, item.message) <==>
              || ChannelMatches(feed, item, item.user, item.channel)
              || (m.root.Some? && ThreadMatches(feed, item, item.user, feed.messages[m.root.value].channel, m.root.value))
  {
    assert ItemOk(feed, i, feed.items[i]);
  }

  // ---- Every step -----------------------------------------------------------------------

  lemma HighestBounds(floor: nat, ids: set<nat>)
    ensures floor <= Highest(floor, ids) && forall i :: i in ids ==> i <= Highest(floor, ids)
  {
  }

  lemma KeepsItems(feed: Feed, step: Step)
    requires ItemsOk(feed) && Proper(feed, step)
    ensures ItemsOk(Apply(feed, step))
  {
    hide Create, Upsert, MarkChannel, MarkThread, ItemsOk, ReadWhere, WithoutMessages;
    var after := Apply(feed, step);
    match step {
      case Record(kind, id, actor, to) => CreatedItems(feed, kind, id, actor, to);
      case Coalesce(kind, id, actor, to) => UpsertedItems(feed, kind, id, actor, to);
      case MoveChannel(user, channel, target, covers) => MarkedItems(feed, user, channel, 0, target, covers);
      case MoveThread(user, root, target, covers) =>
        if root in feed.messages {
          MarkedItems(feed, user, feed.messages[root].channel, root, target, covers);
        }
      case MarkItems(ids) => ReadItems(feed, after, ids);
      case _ => OtherItems(feed, step);
    }
  }

  lemma MarkedItems(feed: Feed, user: Person, channel: Id, root: Id, target: Id, covers: bool)
    requires ItemsOk(feed)
    ensures ItemsOk(MarkChannel(feed, user, channel, target, covers))
    ensures ItemsOk(MarkThread(feed, user, channel, root, target, covers))
  {
    hide ItemsOk, ReadWhere, Moved;
    var moved := feed.(channelReads := Moved(feed.channelReads, user, channel, target));
    ReadItems(feed, moved, ChannelMatched(moved, user, channel));
    SameItems(feed, moved);
    SameItems(moved.(items := MarkChannel(feed, user, channel, target, covers).items),
              MarkChannel(feed, user, channel, target, covers));
    moved := feed.(threadReads := Moved(feed.threadReads, user, root, target));
    ReadItems(feed, moved, ThreadMatched(moved, user, channel, root));
    SameItems(feed, moved);
  }

  lemma SameItems(feed: Feed, after: Feed)
    requires after.items == feed.items && after.messages == feed.messages && after.minted == feed.minted
    ensures ItemsOk(feed) ==> ItemsOk(after)
  {
    forall i | ItemsOk(feed) && i in after.items ensures ItemOk(after, i, after.items[i]) {
      assert ItemOk(feed, i, feed.items[i]);
    }
  }

  lemma OtherItems(feed: Feed, step: Step)
    requires ItemsOk(feed) && Proper(feed, step)
    requires step.Post? || step.DropItems? || step.Tombstone? || step.Sweep? || step.ForgetThread?
    ensures ItemsOk(Apply(feed, step))
  {
    hide Create, Upsert, MarkChannel, MarkThread, ReadWhere;
    var after := Apply(feed, step);
    forall i | i in after.items ensures ItemOk(after, i, after.items[i]) {
      assert ItemOk(feed, i, feed.items[i]);
    }
  }

  lemma ReadItems(feed: Feed, moved: Feed, matched: set<Id>)
    requires ItemsOk(feed) && moved.messages == feed.messages && moved.minted == feed.minted
    ensures ItemsOk(moved.(items := ReadWhere(feed.items, matched)))
  {
    var after := moved.(items := ReadWhere(feed.items, matched));
    forall i | i in after.items ensures ItemOk(after, i, after.items[i]) {
      assert ItemOk(feed, i, feed.items[i]);
    }
  }

  lemma CreatedItems(feed: Feed, kind: Kind, id: Id, actor: Person, to: map<Id, Person>)
    requires ItemsOk(feed) && (kind == AboutThread && id in feed.messages ==> feed.messages[id].root.Some?)
    ensures ItemsOk(Create(feed, kind, id, actor, to))
  {
    hide Highest, Seen;
    var after := Create(feed, kind, id, actor, to);
    HighestBounds(feed.minted, to.Keys);
    forall i | i in after.items ensures ItemOk(after, i, after.items[i]) {
      assert i in feed.items ==> ItemOk(feed, i, feed.items[i]);
    }
  }

  lemma UpsertedItems(feed: Feed, kind: Kind, id: Id, actor: Person, to: map<Id, Person>)
    requires ItemsOk(feed) && (kind == AboutThread && id in feed.messages ==> feed.messages[id].root.Some?)
    ensures ItemsOk(Upsert(feed, kind, id, actor, to))
  {
    hide Highest, Seen, Refreshed;
    var after := Upsert(feed, kind, id, actor, to);
    HighestBounds(feed.minted, to.Keys);
    forall i | i in after.items ensures ItemOk(after, i, after.items[i]) {
      assert i in feed.items ==> ItemOk(feed, i, feed.items[i]);
    }
  }

  /** A refresh leaves no other waiting item of the recipient. */
  lemma UpsertSingle(feed: Feed, kind: Kind, id: Id, actor: Person, to: map<Id, Person>)
    requires ItemsOk(feed) && Single(feed) && Proper(feed, Coalesce(kind, id, actor, to)) && IsLive(feed, id)
    ensures Single(Upsert(feed, kind, id, actor, to))
  {
    hide Seen, Highest;
    var after := Upsert(feed, kind, id, actor, to);
    forall i, j | i in after.items && j in after.items && i != j ensures !Doubled(after, after.items[i], after.items[j]) {
      if i in to && j !in to {
        KeptIsElsewhere(feed, kind, id, actor, to, j, i);
      } else if j in to && i !in to {
        KeptIsElsewhere(feed, kind, id, actor, to, i, j);
      } else if i !in to {
        assert !Doubled(feed, feed.items[i], feed.items[j]);
      }
    }
  }

  lemma KeptIsElsewhere(feed: Feed, kind: Kind, id: Id, actor: Person, to: map<Id, Person>, kept: Id, fresher: Id)
    requires ItemsOk(feed) && Single(feed) && Proper(feed, Coalesce(kind, id, actor, to)) && IsLive(feed, id)
    requires kept in feed.items && kept !in Refreshed(feed, kind, id, to.Values) && fresher in to
    ensures !Doubled(feed, feed.items[kept], NewItem(feed, to[fresher], kind, id, actor))
    ensures !Doubled(feed, NewItem(feed, to[fresher], kind, id, actor), feed.items[kept])
  {
    hide Seen, Refreshed;
    var user := to[fresher];
    if Waiting(feed, feed.items[kept], user, kind, id) {
      OneWaiting(feed, user, kind, id, kept);
      IsRefreshed(feed, kind, id, to.Values, kept);
    }
  }

  lemma IsRefreshed(feed: Feed, kind: Kind, id: Id, people: set<Person>, item: Id)
    requires item in feed.items && id in feed.messages && feed.items[item].user in people
    requires WaitingIds(feed, feed.items[item].user, kind, id) == {item}
    ensures item in Refreshed(feed, kind, id, people)
  {
    assert item in WaitingIds(feed, feed.items[item].user, kind, id);
  }

  lemma OneWaiting(feed: Feed, user: Person, kind: Kind, id: Id, item: Id)
    requires Single(feed) && id in feed.messages && (kind == AboutDm || kind == AboutThread)
    requires item in feed.items && Waiting(feed, feed.items[item], user, kind, id)
    ensures WaitingIds(feed, user, kind, id) == {item}
  {
    forall other | other in WaitingIds(feed, user, kind, id) ensures other == item {
      assert Waiting(feed, feed.items[other], user, kind, id);
      assert other != item ==> !Doubled(feed, feed.items[other], feed.items[item]);
    }
  }

  /** A step that only reads items, drops them or leaves them. */
  lemma FewerUnread(feed: Feed, after: Feed)
    requires Single(feed) && ItemsOk(feed) && after.items.Keys <= feed.items.Keys
    requires forall i :: i in after.items ==>
      after.items[i] == feed.items[i] || after.items[i] == feed.items[i].(read := true)
    requires forall i :: i in after.items ==>
      && after.items[i].message in after.messages
      && after.messages[after.items[i].message].root == feed.messages[after.items[i].message].root
    ensures Single(after)
  {
    forall i, j | i in after.items && j in after.items && i != j ensures !Doubled(after, after.items[i], after.items[j]) {
      assert !Doubled(feed, feed.items[i], feed.items[j]);
      assert ItemOk(feed, i, feed.items[i]) && ItemOk(feed, j, feed.items[j]);
    }
  }

  lemma CreateSingle(feed: Feed, kind: Kind, id: Id, actor: Person, to: map<Id, Person>)
    requires ItemsOk(feed) && Single(feed) && Proper(feed, Record(kind, id, actor, to)) && IsLive(feed, id)
    ensures Single(Create(feed, kind, id, actor, to))
  {
    hide Seen, Highest;
    var after := Create(feed, kind, id, actor, to);
    forall i, j | i in after.items && j in after.items && i != j ensures !Doubled(after, after.items[i], after.items[j]) {
      if i !in to && j !in to {
        assert !Doubled(feed, feed.items[i], feed.items[j]);
      }
    }
  }

  lemma KeepsSingle(feed: Feed, step: Step)
    requires ItemsOk(feed) && Single(feed) && Proper(feed, step)
    ensures Single(Apply(feed, step))
  {
    hide Seen, Single, Doubled;
    match step {
      case Record(kind, id, actor, to) =>
        if IsLive(feed, id) {
          CreateSingle(feed, kind, id, actor, to);
        }
      case Coalesce(kind, id, actor, to) =>
        if IsLive(feed, id) {
          UpsertSingle(feed, kind, id, actor, to);
        }
      case _ => FewerSingle(feed, step);
    }
  }

  lemma FewerSingle(feed: Feed, step: Step)
    requires ItemsOk(feed) && Single(feed) && Proper(feed, step) && !step.Record? && !step.Coalesce?
    ensures Single(Apply(feed, step))
  {
    hide Seen, Single, Doubled, Passed, ChannelMatches, ThreadMatches, Moved;
    var after := Apply(feed, step);
    forall i | i in after.items
      ensures after.items[i].message in after.messages
      ensures i in feed.items && after.messages[after.items[i].message].root == feed.messages[after.items[i].message].root
    {
      assert ItemOk(feed, i, feed.items[i]);
    }
    FewerUnread(feed, after);
  }

  /** Whether a step is a marker moved with a credential that does not cover
      activity. */
  predicate Uncovered(step: Step) {
    (step.MoveChannel? && !step.covers) || (step.MoveThread? && !step.covers)
  }

  lemma MarkedUnseen(feed: Feed, user: Person, channel: Id, target: Id, i: Id)
    requires ItemsOk(feed) && UnreadUnseen(feed) && i in feed.items
    ensures var after := MarkChannel(feed, user, channel, target, true);
            !after.items[i].read ==> !Seen(after, after.items[i].user, after.items[i].kind, after.items[i].message)
  {
    assert ItemOk(feed, i, feed.items[i]);
  }

  lemma ThreadMarkedUnseen(feed: Feed, user: Person, root: Id, target: Id, i: Id)
    requires ItemsOk(feed) && UnreadUnseen(feed) && i in feed.items && root in feed.messages
    ensures var after := MarkThread(feed, user, feed.messages[root].channel, root, target, true);
            !after.items[i].read ==> !Seen(after, after.items[i].user, after.items[i].kind, after.items[i].message)
  {
    assert ItemOk(feed, i, feed.items[i]);
  }

  lemma ChannelMoveUnseen(feed: Feed, user: Person, channel: Id, target: Id)
    requires ItemsOk(feed) && UnreadUnseen(feed)
    ensures UnreadUnseen(MarkChannel(feed, user, channel, target, true))
  {
    hide MarkChannel, ItemsOk, Seen;
    var after := MarkChannel(feed, user, channel, target, true);
    MarkKeys(feed, user, channel, 0, target);
    forall i | i in feed.items ensures MarkedOk(after, i) {
      MarkedUnseen(feed, user, channel, target, i);
    }
    AllMarked(after);
  }

  lemma ThreadMoveUnseen(feed: Feed, user: Person, root: Id, target: Id)
    requires ItemsOk(feed) && UnreadUnseen(feed) && root in feed.messages
    ensures UnreadUnseen(MarkThread(feed, user, feed.messages[root].channel, root, target, true))
  {
    hide MarkThread, ItemsOk, Seen;
    var channel := feed.messages[root].channel;
    var after := MarkThread(feed, user, channel, root, target, true);
    MarkKeys(feed, user, channel, root, target);
    forall i | i in feed.items ensures MarkedOk(after, i) {
      ThreadMarkedUnseen(feed, user, root, target, i);
    }
    AllMarked(after);
  }

  lemma AllMarked(feed: Feed)
    requires forall i :: i in feed.items ==> MarkedOk(feed, i)
    ensures UnreadUnseen(feed)
  {
    hide Seen;
  }

  /** Whatever else runs in between, no unread item has been seen, as long as
      markers move with credentials that cover activity. */
  lemma KeepsUnseen(feed: Feed, step: Step)
    requires ItemsOk(feed) && UnreadUnseen(feed) && Proper(feed, step) && !Uncovered(step)
    ensures UnreadUnseen(Apply(feed, step))
  {
    hide MarkChannel, MarkThread, Highest, UnreadUnseen, ItemsOk, Proper;
    match step {
      case MoveChannel(user, channel, target, _) => ChannelMoveUnseen(feed, user, channel, target);
      case MoveThread(user, root, target, _) =>
        if root in feed.messages {
          ThreadMoveUnseen(feed, user, root, target);
        }
      case _ => OtherUnseen(feed, step);
    }
  }

  lemma OtherUnseen(feed: Feed, step: Step)
    requires ItemsOk(feed) && UnreadUnseen(feed) && Proper(feed, step) && !step.MoveChannel? && !step.MoveThread?
    ensures UnreadUnseen(Apply(feed, step))
  {
    hide MarkChannel, MarkThread, Highest;
    var after := Apply(feed, step);
    forall i | i in after.items && !after.items[i].read
      ensures !Seen(after, after.items[i].user, after.items[i].kind, after.items[i].message)
    {
      assert i in feed.items ==> ItemOk(feed, i, feed.items[i]);
    }
  }

  ghost predicate MarkedOk(after: Feed, i: Id) {
    i in after.items
    && (!after.items[i].read ==> !Seen(after, after.items[i].user, after.items[i].kind, after.items[i].message))
  }

  lemma MarkKeys(feed: Feed, user: Person, channel: Id, root: Id, target: Id)
    ensures MarkChannel(feed, user, channel, target, true).items.Keys == feed.items.Keys
    ensures MarkThread(feed, user, channel, root, target, true).items.Keys == feed.items.Keys
  {
    assert MarkChannel(feed, user, channel, target, true).items.Keys == feed.items.Keys;
    assert MarkThread(feed, user, channel, root, target, true).items.Keys == feed.items.Keys;
  }

  /** A marker moved without cover leaves a seen item unread exactly when it
      passes one, in the channel's timeline and not a thread's. */
  lemma UncoveredMoveShows(feed: Feed, user: Person, channel: Id, target: Id)
    requires ItemsOk(feed) && UnreadUnseen(feed)
    ensures var after := MarkChannel(feed, user, channel, target, false);
            UnreadUnseen(after) <==>
              forall i :: i in feed.items && !feed.items[i].read && feed.items[i].user == user ==>
                !(feed.items[i].kind != AboutThread && feed.items[i].channel == channel
                  && feed.messages[feed.items[i].message].inChannel && feed.items[i].message <= target)
  {
    var after := MarkChannel(feed, user, channel, target, false);
    forall i | i in feed.items && !feed.items[i].read
      ensures Seen(after, feed.items[i].user, feed.items[i].kind, feed.items[i].message) <==>
                feed.items[i].user == user && feed.items[i].kind != AboutThread && feed.items[i].channel == channel
                && feed.messages[feed.items[i].message].inChannel && feed.items[i].message <= target
    {
      assert ItemOk(feed, i, feed.items[i]);
    }
  }

  lemma UncoveredThreadMoveShows(feed: Feed, user: Person, channel: Id, root: Id, target: Id)
    requires ItemsOk(feed) && UnreadUnseen(feed)
    ensures var after := MarkThread(feed, user, channel, root, target, false);
            UnreadUnseen(after) <==>
              forall i :: i in feed.items && !feed.items[i].read && feed.items[i].user == user ==>
                !(feed.messages[feed.items[i].message].root == Some(root) && feed.items[i].message <= target)
  {
    var after := MarkThread(feed, user, channel, root, target, false);
    forall i | i in feed.items && !feed.items[i].read
      ensures Seen(after, feed.items[i].user, feed.items[i].kind, feed.items[i].message) <==>
                feed.items[i].user == user
                && feed.messages[feed.items[i].message].root == Some(root) && feed.items[i].message <= target
    {
      assert ItemOk(feed, i, feed.items[i]);
    }
  }

  // ---- Runs -------------------------------------------------------------------------------

  ghost predicate IsRun(feeds: seq<Feed>, steps: seq<Step>) {
    && |feeds| == |steps| + 1 && feeds[0] == Feed(map[], map[], map[], map[], 0)
    && forall k :: 0 <= k < |steps| ==> Proper(feeds[k], steps[k]) && feeds[k + 1] == Apply(feeds[k], steps[k])
  }

  /** In every run there is one unread dm item a person and channel and one
      unread thread item a person and thread; and while markers are moved
      with credentials that cover activity, no unread item has been seen. */
  lemma {:induction false} FeedRuns(feeds: seq<Feed>, steps: seq<Step>, k: nat)
    requires IsRun(feeds, steps) && k < |feeds|
    ensures ItemsOk(feeds[k]) && Single(feeds[k])
    ensures (forall j :: 0 <= j < k ==> !Uncovered(steps[j])) ==> UnreadUnseen(feeds[k])
  {
    hide Apply, ItemsOk, Single, Proper;
    if k == 0 {
      EmptyFeed();
    } else {
      FeedRuns(feeds, steps, k - 1);
      KeepsItems(feeds[k - 1], steps[k - 1]);
      KeepsSingle(feeds[k - 1], steps[k - 1]);
      if forall j :: 0 <= j < k ==> !Uncovered(steps[j]) {
        KeepsUnseen(feeds[k - 1], steps[k - 1]);
      }
    }
  }

  lemma {:induction false} RunOn(feeds: seq<Feed>, steps: seq<Step>, step: Step)
      returns (longer: seq<Feed>, more: seq<Step>)
    requires IsRun(feeds, steps) && |feeds| == |steps| + 1 && Proper(feeds[|steps|], step)
    ensures longer == feeds + [Apply(feeds[|steps|], step)] && more == steps + [step]
    ensures IsRun(longer, more) && |longer| == |more| + 1 && longer[|more|] == Apply(feeds[|steps|], step)
  {
    hide Apply, Proper;
    longer, more := feeds + [Apply(feeds[|steps|], step)], steps + [step];
    forall k | 0 <= k < |more| ensures Proper(longer[k], more[k]) && longer[k + 1] == Apply(longer[k], more[k]) {
      if k < |steps| {
        assert longer[k] == feeds[k] && longer[k + 1] == feeds[k + 1] && more[k] == steps[k];
      }
    }
  }

  /** A message and a reply to it, posted. */
  lemma Posted() returns (feeds: seq<Feed>, steps: seq<Step>)
    ensures IsRun(feeds, steps) && |feeds| == |steps| + 1
    ensures feeds[|steps|] == Feed(map[1 := Message(5, None, true, false), 2 := Message(5, Some(1), true, false)],
                                   map[], map[], map[], 0)
  {
    feeds, steps := [Feed(map[], map[], map[], map[], 0)], [];
    feeds, steps := RunOn(feeds, steps, Post(1, Message(5, None, true, false)));
    feeds, steps := RunOn(feeds, steps, Post(2, Message(5, Some(1), true, false)));
  }

  lemma HighestOne(floor: nat, id: Id)
    requires floor <= id
    ensures Highest(floor, {id}) == id
  {
    assert Max({id}) in {id};
  }

  /** A mention is recorded, and its reader's channel marker is moved past it
      by a credential that does not cover activity. */
  lemma SeenAndUnread() returns (feeds: seq<Feed>, steps: seq<Step>)
    ensures IsRun(feeds, steps) && |feeds| == |steps| + 1 && |steps| > 0
    ensures steps[|steps| - 1] == MoveChannel(9, 5, 2, false)
    ensures UnreadUnseen(feeds[|steps| - 1]) && !UnreadUnseen(feeds[|steps|])
  {
    hide IsRun, Highest;
    feeds, steps := Posted();
    feeds, steps := RunOn(feeds, steps, Record(AboutMention, 1, 7, map[10 := 9]));
    feeds, steps := RunOn(feeds, steps, MoveChannel(9, 5, 2, false));
    var feed := feeds[|steps|];
    assert 10 in feed.items && !feed.items[10].read && Seen(feed, 9, AboutMention, 1);
  }

  /** A reply's item, and the thread's marker moved past the reply. */
  lemma SeenInThreadAndUnread() returns (feeds: seq<Feed>, steps: seq<Step>)
    ensures IsRun(feeds, steps) && |feeds| == |steps| + 1 && |steps| > 0
    ensures steps[|steps| - 1] == MoveThread(9, 1, 2, false)
    ensures UnreadUnseen(feeds[|steps| - 1]) && !UnreadUnseen(feeds[|steps|])
  {
    hide IsRun, Highest;
    feeds, steps := Posted();
    feeds, steps := RunOn(feeds, steps, Record(AboutReply, 2, 7, map[10 := 9]));
    feeds, steps := RunOn(feeds, steps, MoveThread(9, 1, 2, false));
    var feed := feeds[|steps|];
    assert 10 in feed.items && !feed.items[10].read && Seen(feed, 9, AboutReply, 2);
  }

  lemma EmptyFeed()
    ensures var feed := Feed(map[], map[], map[], map[], 0); ItemsOk(feed) && Single(feed) && UnreadUnseen(feed)
  {
  }

  // ---- Refreshing ------------------------------------------------------------------------------

  /** A live message's recording is never lost on its recipient: their item is
      about it, under an id greater than any before, and it is their only
      waiting item there, or they have none because they have seen it. */
  lemma RefreshIsExact(feed: Feed, kind: Kind, id: Id, actor: Person, to: map<Id, Person>, item: Id)
    requires ItemsOk(feed) && Single(feed) && Proper(feed, Coalesce(kind, id, actor, to)) && IsLive(feed, id)
    requires item in to
    ensures var after := Upsert(feed, kind, id, actor, to);
            && item in after.items && after.items[item] == NewItem(feed, to[item], kind, id, actor)
            && (forall i :: i in feed.items ==> i < item)
            && WaitingIds(after, to[item], kind, id) == if Seen(feed, to[item], kind, id) then {} else {item}
  {
    hide Seen, Highest;
    var after, user := Upsert(feed, kind, id, actor, to), to[item];
    forall i | i in feed.items ensures i < item {
      assert ItemOk(feed, i, feed.items[i]);
    }
    forall i | i in WaitingIds(after, user, kind, id) ensures i == item {
      if i !in to {
        KeptIsElsewhere(feed, kind, id, actor, to, i, item);
      }
    }
  }

  /** So a refresh takes an unread item away with nothing in its place exactly
      when the message it moves to was already seen; the one it stood for may
      not have been. */
  lemma RefreshLosesUnseen(feed: Feed, kind: Kind, id: Id, actor: Person, to: map<Id, Person>, item: Id, waiting: Id)
    requires ItemsOk(feed) && Single(feed) && UnreadUnseen(feed) && IsLive(feed, id)
    requires Proper(feed, Coalesce(kind, id, actor, to)) && item in to
    requires waiting in WaitingIds(feed, to[item], kind, id)
    ensures var after := Upsert(feed, kind, id, actor, to);
            && !Seen(feed, to[item], kind, feed.items[waiting].message)
            && (WaitingIds(after, to[item], kind, id) == {} <==> Seen(feed, to[item], kind, id))
  {
    RefreshIsExact(feed, kind, id, actor, to, item);
  }

  /** It loses nothing while messages of one timeline are recorded in order. */
  lemma NewerHidesNothing(feed: Feed, user: Person, kind: Kind, older: Id, newer: Id)
    requires older in feed.messages && newer in feed.messages && older <= newer
    requires feed.messages[older].channel == feed.messages[newer].channel
    requires feed.messages[older].root == feed.messages[newer].root
    requires feed.messages[older].inChannel == feed.messages[newer].inChannel
    ensures Seen(feed, user, kind, newer) ==> Seen(feed, user, kind, older)
  {
  }

  const TWO_DMS := Feed(map[1 := Message(5, None, true, false), 2 := Message(5, None, true, false)],
                        map[(9, 5) := 1], map[], map[10 := Item(9, AboutDm, 5, 2, 7, false)], 10)

  lemma TwoDmsAreGood()
    ensures ItemsOk(TWO_DMS) && Single(TWO_DMS) && UnreadUnseen(TWO_DMS)
    ensures Proper(TWO_DMS, Coalesce(AboutDm, 1, 7, map[11 := 9]))
  {
    assert ItemOk(TWO_DMS, 10, TWO_DMS.items[10]);
  }

  /** Two direct messages, the reader's marker at the first, and the second
      recorded. */
  lemma TwoDmsRun() returns (feeds: seq<Feed>, steps: seq<Step>)
    ensures IsRun(feeds, steps) && |feeds| == |steps| + 1 && feeds[|steps|] == TWO_DMS
  {
    hide Highest;
    feeds, steps := [Feed(map[], map[], map[], map[], 0)], [];
    feeds, steps := RunOn(feeds, steps, Post(1, Message(5, None, true, false)));
    feeds, steps := RunOn(feeds, steps, Post(2, Message(5, None, true, false)));
    feeds, steps := RunOn(feeds, steps, MoveChannel(9, 5, 1, true));
    var feed := feeds[|steps|];
    assert feed == TWO_DMS.(items := map[], minted := 0);
    SecondRecorded(feed);
    feeds, steps := RunOn(feeds, steps, Coalesce(AboutDm, 2, 7, map[10 := 9]));
  }

  lemma SecondRecorded(feed: Feed)
    requires feed == TWO_DMS.(items := map[], minted := 0)
    ensures Upsert(feed, AboutDm, 2, 7, map[10 := 9]) == TWO_DMS
    ensures Proper(feed, Coalesce(AboutDm, 2, 7, map[10 := 9]))
  {
    hide Highest;
    assert map[10 := 9].Keys == {10};
    HighestOne(0, 10);
    assert Refreshed(feed, AboutDm, 2, {9}) == {};
  }

  /** Out of order it can: two direct messages, the newer recorded first, the
      reader's marker at the older. The newer is left unseen with nothing
      unread. */
  lemma OutOfOrderLoses() returns (feeds: seq<Feed>, steps: seq<Step>)
    ensures IsRun(feeds, steps) && |feeds| == |steps| + 1 && |steps| > 0
    ensures steps[|steps| - 1] == Coalesce(AboutDm, 1, 7, map[11 := 9])
    ensures var before, after := feeds[|steps| - 1], feeds[|steps|];
            && 2 in before.messages && 2 in after.messages && !Seen(after, 9, AboutDm, 2)
            && WaitingIds(before, 9, AboutDm, 2) == {10} && before.items[10].message == 2
            && WaitingIds(after, 9, AboutDm, 2) == {}
  {
    hide IsRun, Highest, Refreshed, ItemsOk, Single, UnreadUnseen, Upsert;
    TwoDmsAreGood();
    feeds, steps := TwoDmsRun();
    feeds, steps := RunOn(feeds, steps, Coalesce(AboutDm, 1, 7, map[11 := 9]));
    var after := feeds[|steps|];
    UpsertLeaves(TWO_DMS, AboutDm, 1, 7, map[11 := 9]);
    RefreshIsExact(TWO_DMS, AboutDm, 1, 7, map[11 := 9], 11);
    assert WaitingIds(after, 9, AboutDm, 2) == WaitingIds(after, 9, AboutDm, 1);
  }

  lemma UpsertLeaves(feed: Feed, kind: Kind, id: Id, actor: Person, to: map<Id, Person>)
    ensures var after := Upsert(feed, kind, id, actor, to);
            && after.messages == feed.messages
            && after.channelReads == feed.channelReads && after.threadReads == feed.threadReads
  {
  }

  /** mintIDs: a new id for each recipient, in order. */
  function NewIds(minted: nat, recipients: seq<Person>): (to: map<Id, Person>)
    ensures forall item :: item in to ==> minted < item <= minted + |recipients| && to[item] in recipients
  {
    if |recipients| == 0 then map[]
    else
      var last := |recipients| - 1;
      NewIds(minted, recipients[..last])[minted + |recipients| := recipients[last]]
  }

  // ---- In place ------------------------------------------------------------------------------------

  class ActivityStore {
    var messages: map<Id, Message>
    var channelReads: map<(Person, Id), Id>
    var threadReads: map<(Person, Id), Id>
    var items: map<Id, Item>
    var minted: Id

    function Contents(): Feed
      reads this
    {
      Feed(messages, channelReads, threadReads, items, minted)
    }

    constructor ()
      ensures Contents() == Feed(map[], map[], map[], map[], 0)
    {
      messages, channelReads, threadReads, items, minted := map[], map[], map[], map[], 0;
    }

    /** writeActivityItems: singly, or under the place's lock, refreshing. */
    method WriteActivityItems(recipients: seq<Person>, kind: Kind, id: Id, actor: Person) returns (to: map<Id, Person>)
      requires ItemsOk(Contents()) && Single(Contents())
      requires Distinct(recipients)
      requires kind == AboutThread && id in messages ==> messages[id].root.Some?
      modifies this
      ensures Contents() == Apply(old(Contents()), if kind == AboutMention || kind == AboutReply
                                                   then Record(kind, id, actor, to) else Coalesce(kind, id, actor, to))
      ensures ItemsOk(Contents()) && Single(Contents())
      ensures old(UnreadUnseen(Contents())) ==> UnreadUnseen(Contents())
      ensures forall p :: p in to.Values <==> p in recipients
      ensures !IsLive(old(Contents()), id) ==> items == old(items)
      ensures IsLive(old(Contents()), id) ==>
        forall i :: i in items <==> i in to || (i in old(items) && !Replaced(old(Contents()), i, kind, id, to))
      ensures forall i :: i in items && i !in to ==> i in old(items) && items[i] == old(items)[i]
      ensures IsLive(old(Contents()), id) ==> forall i :: i in to ==>
        items[i] == Item(to[i], kind, messages[id].channel, id, actor, Seen(old(Contents()), to[i], kind, id))
    {
      hide Seen, Highest, Single, ItemsOk, UnreadUnseen, Create, Upsert;
      to := map[];
      for k := 0 to |recipients|
        invariant to == NewIds(minted, recipients[..k])
      {
        assert recipients[..k + 1][..k] == recipients[..k];
        to := to[minted + 1 + k := recipients[k]];
      }
      assert recipients[..|recipients|] == recipients;
      EachOnce(recipients, minted);
      ghost var step :=
        if kind == AboutMention || kind == AboutReply then Record(kind, id, actor, to) else Coalesce(kind, id, actor, to);
      KeepsItems(Contents(), step);
      KeepsSingle(Contents(), step);
      if UnreadUnseen(Contents()) {
        KeepsUnseen(Contents(), step);
      }
      var after :=
        if kind == AboutMention || kind == AboutReply then Create(Contents(), kind, id, actor, to)
        else Upsert(Contents(), kind, id, actor, to);
      OnlyItems(Contents(), kind, id, actor, to);
      RecordedExact(Contents(), kind, id, actor, to);
      items, minted := after.items, after.minted;
    }

    /** markChannelRead: no marker goes back, the one named is at least at its
        target, and where the credential covers activity nothing seen is left
        unread. */
    method MarkChannelRead(user: Person, channel: Id, target: Id, covers: bool)
      modifies this`channelReads, this`items
      ensures Contents() == MarkChannel(old(Contents()), user, channel, target, covers)
      ensures (user, channel) in channelReads && channelReads[(user, channel)] >= target
      ensures Forward(old(channelReads), channelReads, (user, channel))
      ensures KeptBy(old(Contents()), Contents(), covers)
      ensures items.Keys == old(items).Keys
      ensures forall i :: i in items ==>
        var item := old(items)[i];
        items[i] == if && covers && !item.read && item.user == user && item.channel == channel
                       && item.kind != AboutThread && item.message in messages && messages[item.message].inChannel
                       && item.message <= channelReads[(user, channel)]
                    then item.(read := true) else item
    {
      hide KeptBy, ChannelMatched, ReadWhere;
      ChannelMarkExact(Contents(), user, channel, target);
      ChannelMarkKeeps(Contents(), user, channel, target, covers);
      if !((user, channel) in channelReads && target <= channelReads[(user, channel)]) {
        channelReads := channelReads[(user, channel) := target];
      }
      if !covers {
        return;
      }
      items := ReadWhere(items, ChannelMatched(Contents(), user, channel));
    }

    /** markThreadRead, the same for a thread in its root's channel. */
    method MarkThreadRead(user: Person, channel: Id, root: Id, target: Id, covers: bool) returns (marker: Id)
      modifies this`threadReads, this`items
      ensures Contents() == MarkThread(old(Contents()), user, channel, root, target, covers)
      ensures (user, root) in threadReads && threadReads[(user, root)] == marker >= target
      ensures Forward(old(threadReads), threadReads, (user, root))
      ensures root in messages && messages[root].channel == channel ==> KeptBy(old(Contents()), Contents(), covers)
      ensures items.Keys == old(items).Keys
      ensures forall i :: i in items ==>
        var item := old(items)[i];
        items[i] == if && covers && !item.read && item.user == user && item.channel == channel
                       && item.message in messages && messages[item.message].root == Some(root)
                       && item.message <= threadReads[(user, root)]
                    then item.(read := true) else item
    {
      hide KeptBy, ThreadMatched, ReadWhere;
      ThreadMarkExact(Contents(), user, channel, root, target);
      ThreadMarkKeeps(Contents(), user, channel, root, target, covers);
      if !((user, root) in threadReads && target <= threadReads[(user, root)]) {
        threadReads := threadReads[(user, root) := target];
      }
      marker := threadReads[(user, root)];
      if !covers {
        return;
      }
      items := ReadWhere(items, ThreadMatched(Contents(), user, channel, root));
    }
  }

  /** A marker's move reads exactly the items it has passed in its place, and
      leaves every other item as it was. */
  lemma ChannelMarkExact(feed: Feed, user: Person, channel: Id, target: Id)
    ensures var after := MarkChannel(feed, user, channel, target, true);
            && after.items.Keys == feed.items.Keys && (user, channel) in after.channelReads
            && forall i :: i in after.items ==>
                 var item := feed.items[i];
                 after.items[i] == if && !item.read && item.user == user && item.channel == channel
                                      && item.kind != AboutThread && item.message in feed.messages
                                      && feed.messages[item.message].inChannel
                                      && item.message <= after.channelReads[(user, channel)]
                                   then item.(read := true) else item
  {
    MarkKeys(feed, user, channel, 0, target);
  }

  lemma ThreadMarkExact(feed: Feed, user: Person, channel: Id, root: Id, target: Id)
    ensures var after := MarkThread(feed, user, channel, root, target, true);
            && after.items.Keys == feed.items.Keys && (user, root) in after.threadReads
            && forall i :: i in after.items ==>
                 var item := feed.items[i];
                 after.items[i] == if && !item.read && item.user == user && item.channel == channel
                                      && item.message in feed.messages
                                      && feed.messages[item.message].root == Some(root)
                                      && item.message <= after.threadReads[(user, root)]
                                   then item.(read := true) else item
  {
    MarkKeys(feed, user, channel, root, target);
  }

  /** Only the one marker moved, and not back. */
  ghost predicate Forward(before: map<(Person, Id), Id>, after: map<(Person, Id), Id>, moved: (Person, Id)) {
    && (forall key :: key in before ==> key in after && before[key] <= after[key])
    && forall key :: key in after && key != moved ==> key in before && after[key] == before[key]
  }

  /** A marker's move keeps what every step keeps. */
  ghost predicate KeptBy(before: Feed, after: Feed, covers: bool) {
    ItemsOk(before) ==>
      && ItemsOk(after)
      && (Single(before) ==> Single(after))
      && (covers && UnreadUnseen(before) ==> UnreadUnseen(after))
  }

  lemma MarkKeeps(feed: Feed, step: Step)
    requires step.MoveChannel? || step.MoveThread?
    ensures KeptBy(feed, Apply(feed, step), step.covers)
  {
    hide ItemsOk, Single, UnreadUnseen, Apply;
    if ItemsOk(feed) {
      KeepsItems(feed, step);
      if Single(feed) {
        KeepsSingle(feed, step);
      }
      if step.covers && UnreadUnseen(feed) {
        KeepsUnseen(feed, step);
      }
    }
  }

  lemma ChannelMarkKeeps(feed: Feed, user: Person, channel: Id, target: Id, covers: bool)
    ensures KeptBy(feed, MarkChannel(feed, user, channel, target, covers), covers)
  {
    hide KeptBy, MarkChannel;
    MarkKeeps(feed, MoveChannel(user, channel, target, covers));
  }

  lemma ThreadMarkKeeps(feed: Feed, user: Person, channel: Id, root: Id, target: Id, covers: bool)
    ensures root in feed.messages && feed.messages[root].channel == channel ==>
      KeptBy(feed, MarkThread(feed, user, channel, root, target, covers), covers)
  {
    hide KeptBy, MarkThread;
    MarkKeeps(feed, MoveThread(user, root, target, covers));
  }

  /** A recording of this kind about this message takes the item away, for one
      about the message: an unread one of a recipient's, of the same kind and
      place, where the kind has but one unread. */
  predicate Replaced(feed: Feed, i: Id, kind: Kind, id: Id, to: map<Id, Person>)
    requires i in feed.items && id in feed.messages
  {
    var item := feed.items[i];
    && (kind == AboutDm || kind == AboutThread) && item.user in to.Values && item.kind == kind && !item.read
    && item.channel == feed.messages[id].channel
    && (kind == AboutThread ==>
          item.message in feed.messages && feed.messages[item.message].root == feed.messages[id].root)
  }

  /** What a recording leaves, takes away and adds, item by item. */
  lemma RecordedExact(feed: Feed, kind: Kind, id: Id, actor: Person, to: map<Id, Person>)
    requires ItemsOk(feed) && Single(feed) && forall item :: item in to ==> feed.minted < item
    requires forall i, j :: i in to && j in to && i != j ==> to[i] != to[j]
    requires kind == AboutThread && id in feed.messages ==> feed.messages[id].root.Some?
    ensures var after := if kind == AboutMention || kind == AboutReply then Create(feed, kind, id, actor, to)
                         else Upsert(feed, kind, id, actor, to);
            && (!IsLive(feed, id) ==> after == feed)
            && (IsLive(feed, id) ==>
                  && (forall i :: i in after.items <==> i in to || (i in feed.items && !Replaced(feed, i, kind, id, to)))
                  && (forall i :: i in to ==>
                        after.items[i] == Item(to[i], kind, feed.messages[id].channel, id, actor, Seen(feed, to[i], kind, id))))
            && forall i :: i in after.items && i !in to ==> i in feed.items && after.items[i] == feed.items[i]
  {
    hide Seen, Highest, Single, Refreshed;
    if IsLive(feed, id) && (kind == AboutDm || kind == AboutThread) {
      forall i | i in feed.items
        ensures i in Refreshed(feed, kind, id, to.Values) <==> Replaced(feed, i, kind, id, to)
      {
        RefreshedExact(feed, kind, id, to, i);
      }
    }
  }

  lemma RefreshedExact(feed: Feed, kind: Kind, id: Id, to: map<Id, Person>, i: Id)
    requires Single(feed) && i in feed.items && id in feed.messages && (kind == AboutDm || kind == AboutThread)
    ensures i in Refreshed(feed, kind, id, to.Values) <==> Replaced(feed, i, kind, id, to)
  {
    if Replaced(feed, i, kind, id, to) {
      var user := feed.items[i].user;
      OneWaiting(feed, user, kind, id, i);
      IsRefreshed(feed, kind, id, to.Values, i);
    }
  }

  lemma OnlyItems(feed: Feed, kind: Kind, id: Id, actor: Person, to: map<Id, Person>)
    ensures var created := Create(feed, kind, id, actor, to);
            created == feed.(items := created.items, minted := created.minted)
    ensures var upserted := Upsert(feed, kind, id, actor, to);
            upserted == feed.(items := upserted.items, minted := upserted.minted)
  {
    hide Highest, Refreshed;
  }

  lemma {:induction false} EachOnce(recipients: seq<Person>, minted: nat)
    requires Distinct(recipients)
    ensures var to := NewIds(minted, recipients);
            && (forall i, j :: i in to && j in to && i != j ==> to[i] != to[j])
            && (forall p :: p in to.Values <==> p in recipients)
  {
    if |recipients| > 0 {
      var last := |recipients| - 1;
      EachOnce(recipients[..last], minted);
      var before, to := NewIds(minted, recipients[..last]), NewIds(minted, recipients);
      assert recipients == recipients[..last] + [recipients[last]];
      assert minted + |recipients| !in before;
      forall p | p in to.Values ensures p in recipients {
        var i :| i in to && to[i] == p;
      }
      forall p | p in recipients ensures p in to.Values {
        if p == recipients[last] {
          assert to[minted + |recipients|] == p;
        } else {
          assert p in before.Values;
          var i :| i in before && before[i] == p;
          assert i in to && to[i] == p;
        }
      }
    }
  }
}
