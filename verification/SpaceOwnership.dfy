/** Who owns a space: the member with the owner's role, and the space's
    owner_id, over every call that touches either. */
module SpaceOwnership {
  import opened Options

  type Id = nat

  datatype Role = IsMember | IsAdmin | IsOwner

  datatype Membership = Membership(role: Role, joined: nat)

  datatype Space = Space(owner: Id, members: map<Id, Membership>)

  /** The caller as a space sees them: their effective role, if any. */
  datatype Actor = Actor(role: Option<Role>, instanceAdmin: bool)

  function Rank(role: Option<Role>): nat {
    match role
    case None => 0
    case Some(IsMember) => 1
    case Some(IsAdmin) => 2
    case Some(IsOwner) => 3
  }

  /** actorForUser: an instance admin is at least an admin everywhere. */
  function ActorIn(space: Space, user: Id, instanceAdmin: bool): Actor {
    var role := if user in space.members then Some(space.members[user].role) else None;
    Actor(if instanceAdmin && Rank(role) < Rank(Some(IsAdmin)) then Some(IsAdmin) else role, instanceAdmin)
  }

  predicate CanActOn(a: Actor, target: Role) {
    target != IsOwner && (a.role == Some(IsOwner) || a.instanceAdmin || Rank(a.role) > Rank(Some(target)))
  }

  function CapRole(a: Actor, granted: Role): Role {
    if Rank(a.role) >= Rank(Some(granted)) then granted else IsMember
  }

  /** The space's one owner: the member holding the role is the one owner_id
      names. */
  ghost predicate OwnerOk(space: Space) {
    && space.owner in space.members && space.members[space.owner].role == IsOwner
    && forall m :: m in space.members && space.members[m].role == IsOwner ==> m == space.owner
  }

  // ---- Statements ----------------------------------------------------------------

  /** SetSpaceMemberRole; the one-owner index refuses a second owner. */
  function SetRole(members: map<Id, Membership>, user: Id, role: Role): Option<map<Id, Membership>> {
    if user !in members then Some(members)
    else if role == IsOwner && exists m :: m in members && m != user && members[m].role == IsOwner then None
    else Some(members[user := members[user].(role := role)])
  }

  /** CreateSpaceMember: a conflict with any unique index, the one-owner index
      among them, writes nothing. */
  function CreateMember(members: map<Id, Membership>, user: Id, role: Role, now: nat): map<Id, Membership> {
    if user in members || (role == IsOwner && exists m :: m in members && members[m].role == IsOwner) then members
    else members[user := Membership(role, now)]
  }

  // ---- Calls ------------------------------------------------------------------------

  /** A call that has passed its checks, with the writes it is about to make. */
  datatype Call =
    | Assign(target: Id, role: Role)
    | Remove(target: Id)
    | Join(user: Id, role: Role, now: nat)
    | Transfer(from: Id, to: Id)
    | HandOver(from: Id, to: Id, now: nat)

  /** What the handlers check: SetMemberRole and SetBotAdmin, KickMember,
      LeaveSpace, BanMember and RemoveBotMember (and, for a departing person,
      that their spaces were handed on), joins and invites, TransferOwnership,
      and handOver. */
  predicate Admits(space: Space, call: Call) {
    match call
    case Assign(target, role) =>
      role != IsOwner && target in space.members && space.members[target].role != IsOwner
    case Remove(target) => target in space.members && space.members[target].role != IsOwner
    case Join(_, role, _) => role != IsOwner
    case Transfer(from, to) =>
      from in space.members && space.members[from].role == IsOwner && to != from
    case HandOver(from, to, _) => space.owner == from && to != from
  }

  /** The call's writes, against the space as it is then; none when the
      transaction rolls back. */
  function Write(space: Space, call: Call): Space {
    match call
    case Assign(target, role) =>
      var updated := SetRole(space.members, target, role);
      if updated.None? then space else space.(members := updated.value)
    case Remove(target) => space.(members := space.members - {target})
    case Join(user, role, now) => space.(members := CreateMember(space.members, user, role, now))
    case Transfer(from, to) =>
      var demoted := SetRole(space.members, from, IsAdmin).value;
      var promoted := SetRole(demoted, to, IsOwner);
      if to !in demoted || promoted.None? then space else Space(to, promoted.value)
    case HandOver(from, to, now) =>
      var demoted := SetRole(space.members, from, IsAdmin).value;
      var promoted := SetRole(demoted, to, IsOwner);
      if promoted.None? then space
      else Space(to, if to in demoted then promoted.value else CreateMember(promoted.value, to, IsOwner, now))
  }

  /** Joining never grants ownership: an invite's role is a member's or an
      admin's, capped to what its maker still holds. */
  lemma CapNeverGrantsOwner(a: Actor, granted: Role)
    requires granted != IsOwner
    ensures CapRole(a, granted) != IsOwner && Rank(Some(CapRole(a, granted))) <= Rank(Some(granted))
    ensures CapRole(a, granted) == IsMember || Rank(Some(CapRole(a, granted))) <= Rank(a.role)
  {
  }

  /** Nobody acts on an owner; an inherited admin acts on anyone else. */
  lemma NobodyActsOnOwner(space: Space, user: Id, instanceAdmin: bool, target: Id)
    requires OwnerOk(space) && target in space.members
    ensures CanActOn(ActorIn(space, user, instanceAdmin), space.members[target].role) ==>
      target != space.owner && Admits(space, Remove(target)) && Admits(space, Assign(target, IsMember))
    ensures user == space.owner && target != user ==>
      CanActOn(ActorIn(space, user, instanceAdmin), space.members[target].role)
  {
  }

  // ---- What a call leaves alone -------------------------------------------------------------

  predicate Same(before: Space, after: Space, m: Id) {
    (m in after.members <==> m in before.members) && (m in before.members ==> after.members[m] == before.members[m])
  }

  /** Everyone but these is as they were. */
  ghost predicate OthersSame(before: Space, after: Space, people: set<Id>) {
    forall m: Id :: m !in people ==> Same(before, after, m)
  }

  /** The space handed from one member to another, who joins if they must; each
      keeps when they joined. */
  ghost predicate Handed(before: Space, after: Space, from: Id, to: Id, now: nat) {
    && from in before.members && from in after.members && to in after.members && after.owner == to
    && after.members[from] == Membership(IsAdmin, before.members[from].joined)
    && after.members[to] == Membership(IsOwner, if to in before.members then before.members[to].joined else now)
    && OthersSame(before, after, {from, to})
  }

  /** A transfer already made by another: it only makes its maker an admin. */
  ghost predicate Overtaken(before: Space, after: Space, from: Id) {
    && after.owner == before.owner && OthersSame(before, after, {from})
    && (from in after.members <==> from in before.members)
    && (from in before.members ==> after.members[from] == Membership(IsAdmin, before.members[from].joined))
  }

  /** What each call writes, on those it is about, and that nobody else's
      membership changes. */
  lemma WriteDoes(space: Space, call: Call)
    requires OwnerOk(space)
    ensures var after := Write(space, call);
            match call
            case Assign(target, role) =>
              && OthersSame(space, after, {target}) && after.owner == space.owner
              && (target in after.members <==> target in space.members)
              && (target in space.members && role != IsOwner ==>
                    after.members[target] == Membership(role, space.members[target].joined))
            case Remove(target) =>
              OthersSame(space, after, {target}) && after.owner == space.owner && target !in after.members
            case Join(user, role, now) =>
              && OthersSame(space, after, {user}) && after.owner == space.owner
              && (user in space.members ==> Same(space, after, user))
              && (user !in space.members && role != IsOwner ==>
                    user in after.members && after.members[user] == Membership(role, now))
            case Transfer(from, to) =>
              if from == space.owner && from != to && to in space.members then Handed(space, after, from, to, 0)
              else if from != space.owner && to == space.owner then Overtaken(space, after, from)
              else after == space
            case HandOver(from, to, now) =>
              from == space.owner && from != to ==> Handed(space, after, from, to, now)
  {
    match call {
      case Transfer(from, to) => TransferDoes(space, from, to);
      case HandOver(from, to, now) =>
        if from == space.owner && from != to {
          HandOverDoes(space, from, to, now);
        }
      case _ =>
    }
  }

  lemma TransferDoes(space: Space, from: Id, to: Id)
    requires OwnerOk(space)
    ensures var after := Write(space, Transfer(from, to));
            if from == space.owner && from != to && to in space.members then Handed(space, after, from, to, 0)
            else if from != space.owner && to == space.owner then Overtaken(space, after, from)
            else after == space
  {
    var demoted := SetRole(space.members, from, IsAdmin).value;
    if from != space.owner {
      assert demoted[space.owner].role == IsOwner;
      if to in demoted && to != space.owner {
        assert SetRole(demoted, to, IsOwner).None?;
      }
    } else if from == to {
      assert Write(space, Transfer(from, to)).members == space.members;
    }
  }

  lemma HandOverDoes(space: Space, from: Id, to: Id, now: nat)
    requires OwnerOk(space) && from == space.owner && from != to
    ensures Handed(space, Write(space, HandOver(from, to, now)), from, to, now)
  {
    var demoted := SetRole(space.members, from, IsAdmin).value;
    assert forall m :: m in demoted ==> demoted[m].role != IsOwner;
  }

  // ---- One step at a time -----------------------------------------------------------------

  /** The condition under which a call's writes keep the space owned, whatever
      changed since its checks. */
  predicate Harmless(space: Space, call: Call) {
    match call
    case Assign(target, role) => target != space.owner
    case Remove(target) => target != space.owner
    case Join(_, _, _) => true
    case Transfer(_, _) => true
    case HandOver(from, to, _) => from == space.owner || to in space.members
  }

  /** Checked and written in one step, no call leaves a space without its
      owner; and only a transfer or a hand-over changes who it is. */
  lemma CheckedCallIsHarmless(space: Space, call: Call)
    requires OwnerOk(space) && Admits(space, call)
    ensures Harmless(space, call) && OwnerOk(Write(space, call))
    ensures !call.Transfer? && !call.HandOver? ==> Write(space, call).owner == space.owner
    ensures call.Transfer? ==> Write(space, call).owner == if call.to in space.members then call.to else space.owner
    ensures call.HandOver? ==> Write(space, call).owner == call.to
  {
    WriteKeepsOwner(space, call);
  }

  /** Checked earlier and written now, a call keeps the space owned exactly
      when it is harmless now. */
  lemma WriteKeepsOwner(space: Space, call: Call)
    requires OwnerOk(space)
    requires (call.Assign? || call.Join?) ==> call.role != IsOwner
    requires call.HandOver? ==> call.from != call.to
    ensures OwnerOk(Write(space, call)) <==> Harmless(space, call)
  {
    var after := Write(space, call);
    match call {
      case Assign(target, role) =>
        if target == space.owner {
          assert after.members[space.owner].role != IsOwner;
        }
      case Remove(target) =>
      case Join(_, _, _) =>
      case Transfer(from, to) => TransferKeepsOwner(space, from, to);
      case HandOver(from, to, now) => HandOverKeepsOwner(space, from, to, now);
    }
  }

  lemma TransferKeepsOwner(space: Space, from: Id, to: Id)
    requires OwnerOk(space)
    ensures OwnerOk(Write(space, Transfer(from, to)))
  {
    var demoted := SetRole(space.members, from, IsAdmin).value;
    if from != space.owner && to != space.owner && to in demoted {
      assert demoted[space.owner].role == IsOwner;
      assert SetRole(demoted, to, IsOwner).None?;
    }
  }

  lemma HandOverKeepsOwner(space: Space, from: Id, to: Id, now: nat)
    requires OwnerOk(space) && from != to
    ensures OwnerOk(Write(space, HandOver(from, to, now))) <==> from == space.owner || to in space.members
  {
    var demoted := SetRole(space.members, from, IsAdmin).value;
    if from != space.owner {
      assert demoted[space.owner].role == IsOwner;
      if to in demoted && to != space.owner {
        assert SetRole(demoted, to, IsOwner).None?;
      }
    }
  }

  /** Between its checks and its writes each of these can be overtaken: a
      member is checked, then the owner makes them owner, then the write
      lands on them. */
  lemma TransferInBetween(space: Space, target: Id)
    requires OwnerOk(space) && target in space.members && target != space.owner
    ensures var remove, transfer := Remove(target), Transfer(space.owner, target);
            && Admits(space, remove) && Admits(space, Assign(target, IsMember)) && Admits(space, transfer)
            && OwnerOk(Write(space, transfer)) && Write(space, transfer).owner == target
            && !OwnerOk(Write(Write(space, transfer), remove))
            && !OwnerOk(Write(Write(space, transfer), Assign(target, IsMember)))
  {
    var transfer := Transfer(space.owner, target);
    CheckedCallIsHarmless(space, transfer);
    WriteKeepsOwner(Write(space, transfer), Remove(target));
    var demoted := SetRole(space.members, space.owner, IsAdmin).value;
    assert SetRole(demoted, target, IsOwner).Some?;
    WriteKeepsOwner(Write(space, transfer), Assign(target, IsMember));
  }

  // ---- Runs ------------------------------------------------------------------------------------

  ghost predicate IsRun(spaces: seq<Space>, calls: seq<Call>) {
    && |spaces| == |calls| + 1
    && forall k :: 0 <= k < |calls| ==> Admits(spaces[k], calls[k]) && spaces[k + 1] == Write(spaces[k], calls[k])
  }

  /** CreateSpace: the maker is its owner and first member. */
  function Created(maker: Id, now: nat): Space {
    Space(maker, map[maker := Membership(IsOwner, now)])
  }

  lemma {:induction false} SpaceStaysOwned(spaces: seq<Space>, calls: seq<Call>, k: nat, maker: Id, now: nat)
    requires IsRun(spaces, calls) && spaces[0] == Created(maker, now) && k < |spaces|
    ensures OwnerOk(spaces[k])
  {
    if k > 0 {
      SpaceStaysOwned(spaces, calls, k - 1, maker, now);
      CheckedCallIsHarmless(spaces[k - 1], calls[k - 1]);
    }
  }

  // ---- Late writes -----------------------------------------------------------------------------

  /** A space, and the calls that have passed their checks and not yet
      written. */
  datatype Busy = Busy(space: Space, pending: set<Call>)

  datatype Event = Check(call: Call) | Land(call: Call)

  ghost predicate Next(before: Busy, event: Event, after: Busy) {
    match event
    case Check(call) =>
      Admits(before.space, call) && after == before.(pending := before.pending + {call})
    case Land(call) =>
      call in before.pending && after == Busy(Write(before.space, call), before.pending - {call})
  }

  ghost predicate IsBusyRun(states: seq<Busy>, events: seq<Event>, maker: Id, now: nat) {
    && |states| == |events| + 1 && states[0] == Busy(Created(maker, now), {})
    && forall k :: 0 <= k < |events| ==> Next(states[k], events[k], states[k + 1])
  }

  /** What a check leaves settled of a call, whenever it writes. */
  predicate Settled(call: Call) {
    (call.Assign? || call.Join? ==> call.role != IsOwner) && (call.HandOver? ==> call.from != call.to)
  }

  lemma {:induction false} PendingSettled(states: seq<Busy>, events: seq<Event>, k: nat, maker: Id, now: nat)
    requires IsBusyRun(states, events, maker, now) && k < |states|
    ensures forall call :: call in states[k].pending ==> Settled(call)
  {
    if k > 0 {
      PendingSettled(states, events, k - 1, maker, now);
      assert Next(states[k - 1], events[k - 1], states[k]);
    }
  }

  predicate LandsHarmless(before: Busy, event: Event) {
    event.Land? ==> Harmless(before.space, event.call)
  }

  /** With checks and writes apart, a space has its owner in every state up to
      one exactly when every write before it was harmless as it landed. */
  lemma {:induction false} BusySpaceStaysOwned(states: seq<Busy>, events: seq<Event>, k: nat, maker: Id, now: nat)
    requires IsBusyRun(states, events, maker, now) && k < |states|
    ensures (forall j :: 0 <= j <= k ==> OwnerOk(states[j].space))
            <==> (forall j :: 0 <= j < k ==> LandsHarmless(states[j], events[j]))
  {
    hide Harmless, Write, OwnerOk;
    if k == 0 {
      CreatedIsOwned(maker, now);
    } else {
      BusySpaceStaysOwned(states, events, k - 1, maker, now);
      PendingSettled(states, events, k - 1, maker, now);
      assert Next(states[k - 1], events[k - 1], states[k]);
      if OwnerOk(states[k - 1].space) && events[k - 1].Land? {
        WriteKeepsOwner(states[k - 1].space, events[k - 1].call);
      }
    }
  }

  lemma CreatedIsOwned(maker: Id, now: nat)
    ensures OwnerOk(Created(maker, now))
  {
  }

  /** A departing owner's hand-over, overtaken by their own transfer: the space
      ends up naming an owner who is no member of it. */
  lemma HandOverInBetween() returns (states: seq<Busy>, events: seq<Event>)
    ensures IsBusyRun(states, events, 1, 0)
    ensures var space := states[|events|].space;
            space.owner !in space.members && 2 in space.members && space.members[2].role == IsOwner && !OwnerOk(space)
  {
    var join, transfer, handOver := Join(2, IsMember, 1), Transfer(1, 2), HandOver(1, 9, 2);
    events := [Check(join), Land(join), Check(handOver), Check(transfer), Land(transfer), Land(handOver)];
    var created := Created(1, 0);
    var joined := Space(1, map[1 := Membership(IsOwner, 0), 2 := Membership(IsMember, 1)]);
    var moved := Space(2, map[1 := Membership(IsAdmin, 0), 2 := Membership(IsOwner, 1)]);
    var named := Space(9, moved.members);
    assert Write(created, join) == joined;
    assert Write(joined, transfer) == moved;
    assert Write(moved, handOver) == named by {
      assert moved.members[2].role == IsOwner;
      assert SetRole(moved.members, 1, IsAdmin).value == moved.members;
    }
    states := [Busy(created, {}), Busy(created, {join}), Busy(joined, {}), Busy(joined, {handOver}),
               Busy(joined, {handOver, transfer}), Busy(moved, {handOver}), Busy(named, {})];
  }

  // ---- A person leaving every space ---------------------------------------------------------------

  function Admins(space: Space): set<Id> {
    set m | m in space.members && space.members[m].role == IsAdmin
  }

  ghost predicate LongestServing(space: Space, heir: Id) {
    heir in Admins(space) && forall m :: m in Admins(space) ==> space.members[heir].joined <= space.members[m].joined
  }

  /** LongestServingAdmin. */
  method FindHeir(space: Space) returns (heir: Option<Id>)
    ensures heir.None? <==> Admins(space) == {}
    ensures heir.Some? ==> LongestServing(space, heir.value)
  {
    var left := Admins(space);
    heir := None;
    while left != {}
      invariant left <= Admins(space)
      invariant heir.None? ==> left == Admins(space)
      invariant heir.Some? ==> heir.value in Admins(space) && forall m :: m in Admins(space) - left ==>
        space.members[heir.value].joined <= space.members[m].joined
      decreases left
    {
      var m :| m in left;
      if heir.None? || space.members[m].joined < space.members[heir.value].joined {
        heir := Some(m);
      }
      left := left - {m};
    }
  }

  class Directory {
    var spaces: map<Id, Space>

    /** TransferOwnership's transaction: the caller demoted first, since the
        index forbids two owners even briefly; all of it or none. */
    method TransferOwnership(s: Id, from: Id, to: Id) returns (done: bool)
      requires s in spaces && OwnerOk(spaces[s])
      modifies this
      ensures spaces == old(spaces)[s := Write(old(spaces)[s], Transfer(from, to))] && OwnerOk(spaces[s])
      ensures done <==> to in old(spaces)[s].members && (to == old(spaces)[s].owner || from == old(spaces)[s].owner)
      ensures done ==> spaces[s].owner == to
      ensures done && from != to && from == old(spaces)[s].owner ==> Handed(old(spaces)[s], spaces[s], from, to, 0)
      ensures !done ==> spaces == old(spaces)
    {
      TransferDoes(spaces[s], from, to);
      TransferKeepsOwner(spaces[s], from, to);
      assert spaces[s := spaces[s]] == spaces;
      var members := spaces[s].members;
      if from in members {
        members := members[from := members[from].(role := IsAdmin)];
      }
      assert from != spaces[s].owner ==> spaces[s].owner in members && members[spaces[s].owner].role == IsOwner;
      if exists m :: m in members && m != to && members[m].role == IsOwner {
        return false;
      }
      if to !in members {
        return false;
      }
      members := members[to := members[to].(role := IsOwner)];
      spaces := spaces[s := Space(to, members)];
      return true;
    }

    /** handOver's transaction, to an heir who may not be a member yet. */
    method HandOverSpace(s: Id, from: Id, to: Id, now: nat) returns (done: bool)
      requires s in spaces && OwnerOk(spaces[s]) && from != to
      modifies this
      ensures spaces == old(spaces)[s := Write(old(spaces)[s], HandOver(from, to, now))]
      ensures OwnerOk(spaces[s]) <==> from == old(spaces)[s].owner || to in old(spaces)[s].members
      ensures from == old(spaces)[s].owner ==> done && Handed(old(spaces)[s], spaces[s], from, to, now)
    {
      if from == spaces[s].owner {
        HandOverDoes(spaces[s], from, to, now);
      }
      HandOverKeepsOwner(spaces[s], from, to, now);
      assert spaces[s := spaces[s]] == spaces;
      var members := spaces[s].members;
      if from in members {
        members := members[from := members[from].(role := IsAdmin)];
      }
      var taken := exists m :: m in members && m != to && members[m].role == IsOwner;
      if to in members {
        if taken {
          return false;
        }
        members := members[to := members[to].(role := IsOwner)];
      } else if !taken {
        members := members[to := Membership(IsOwner, now)];
      }
      spaces := spaces[s := Space(to, members)];
      return true;
    }

    /** removeMember, in one space. */
    method RemoveMember(s: Id, user: Id)
      requires s in spaces && OwnerOk(spaces[s]) && spaces[s].owner != user
      modifies this
      ensures spaces == old(spaces)[s := Write(old(spaces)[s], Remove(user))]
      ensures OwnerOk(spaces[s]) && Left(old(spaces)[s], spaces[s], user)
    {
      WriteKeepsOwner(spaces[s], Remove(user));
      LeavingIs(spaces[s], user);
      spaces := spaces[s := spaces[s].(members := spaces[s].members - {user})];
    }

    /** Each space the person owns handed to its heir, up to one that has none. */
    method HandOnAll(user: Id, fallback: Option<Id>, owned: seq<Id>, now: nat) returns (done: bool)
      requires forall s :: s in spaces ==> OwnerOk(spaces[s])
      requires fallback != Some(user)
      requires forall s :: s in owned <==> s in spaces && spaces[s].owner == user
      requires Distinct(owned)
      modifies this
      ensures spaces.Keys == old(spaces).Keys && forall s :: s in spaces ==> OwnerOk(spaces[s])
      ensures done <==> fallback.Some? || forall s :: s in owned ==> Admins(old(spaces)[s]) != {}
      ensures forall s :: s in spaces && s !in owned ==> spaces[s] == old(spaces)[s]
      ensures done ==> forall s :: s in owned ==> HandedOn(old(spaces)[s], spaces[s], user, fallback, now)
      ensures !done ==> forall s :: s in owned ==>
        spaces[s] == old(spaces)[s] || HandedOn(old(spaces)[s], spaces[s], user, fallback, now)
    {
      hide OwnerOk, HandedOn, Admins, LongestServing;
      ghost var before := spaces;
      for k := 0 to |owned|
        invariant spaces.Keys == before.Keys
        invariant forall s :: s in spaces ==> OwnerOk(spaces[s])
        invariant forall s :: s in spaces && s !in owned[..k] ==> spaces[s] == before[s]
        invariant forall s :: s in owned[..k] ==> s in spaces && HandedOn(before[s], spaces[s], user, fallback, now)
        invariant fallback.Some? || forall s :: s in owned[..k] ==> Admins(before[s]) != {}
      {
        var s := owned[k];
        assert s in owned && s !in owned[..k];
        assert owned[..k + 1] == owned[..k] + [s];
        var heir := FindHeir(spaces[s]);
        if heir.None? {
          heir := fallback;
        }
        if heir.None? {
          return false;
        }
        HandingOn(spaces[s], user, heir.value, fallback, now);
        var _ := HandOverSpace(s, user, heir.value, now);
      }
      assert owned[..|owned|] == owned;
      return true;
    }

    /** The person out of every space they are in, none of which they own. */
    method LeaveAll(user: Id)
      requires forall s :: s in spaces ==> OwnerOk(spaces[s]) && spaces[s].owner != user
      modifies this
      ensures spaces.Keys == old(spaces).Keys
      ensures forall s :: s in spaces ==> OwnerOk(spaces[s]) && Left(old(spaces)[s], spaces[s], user)
    {
      hide OwnerOk, Left;
      ghost var before := spaces;
      forall s | s in spaces && user !in spaces[s].members ensures Left(spaces[s], spaces[s], user) {
        NotThere(spaces[s], user);
      }
      var left := set s | s in spaces && user in spaces[s].members;
      while left != {}
        invariant spaces.Keys == before.Keys && left <= spaces.Keys
        invariant forall s :: s in spaces ==> OwnerOk(spaces[s])
        invariant forall s :: s in left ==> spaces[s] == before[s]
        invariant forall s :: s in spaces && s !in left ==> Left(before[s], spaces[s], user)
        decreases left
      {
        var s :| s in left;
        RemoveMember(s, user);
        left := left - {s};
      }
    }

    /** RemovePerson: the spaces they own go to their longest-serving admin, or
        to the fallback; then they leave every space they are in. Without an
        heir for one it stops there, and nobody has left. */
    method RemovePerson(user: Id, fallback: Option<Id>, owned: seq<Id>, now: nat) returns (done: bool)
      requires forall s :: s in spaces ==> OwnerOk(spaces[s])
      requires fallback != Some(user)
      requires forall s :: s in owned <==> s in spaces && spaces[s].owner == user
      requires Distinct(owned)
      modifies this
      ensures spaces.Keys == old(spaces).Keys && forall s :: s in spaces ==> OwnerOk(spaces[s])
      ensures done <==> fallback.Some? || forall s :: s in old(spaces) && old(spaces)[s].owner == user ==>
        Admins(old(spaces)[s]) != {}
      ensures done ==> forall s :: s in spaces ==>
        if old(spaces)[s].owner == user then Inherited(old(spaces)[s], spaces[s], user, fallback, now)
        else Left(old(spaces)[s], spaces[s], user)
      ensures !done ==> forall s :: s in spaces ==>
        || spaces[s] == old(spaces)[s]
        || (old(spaces)[s].owner == user && HandedOn(old(spaces)[s], spaces[s], user, fallback, now))
    {
      hide OwnerOk, HandedOn, Admins, Left, Inherited;
      ghost var before := spaces;
      done := HandOnAll(user, fallback, owned, now);
      if !done {
        return;
      }
      ghost var handed := spaces;
      forall s | s in spaces ensures spaces[s].owner != user {
        if s in owned {
          OwnerMoved(before[s], spaces[s], user, fallback, now);
        }
      }
      LeaveAll(user);
      forall s | s in spaces && s in owned ensures Inherited(before[s], spaces[s], user, fallback, now) {
        Inherits(before[s], handed[s], spaces[s], user, fallback, now);
      }
    }
  }

  /** The space without the person, and nobody else's membership changed. */
  ghost predicate Left(before: Space, after: Space, user: Id) {
    after.owner == before.owner && user !in after.members && OthersSame(before, after, {user})
  }

  lemma LeavingIs(space: Space, user: Id)
    requires OwnerOk(space)
    ensures Left(space, Write(space, Remove(user)), user)
  {
    WriteDoes(space, Remove(user));
  }

  lemma NotThere(space: Space, user: Id)
    requires user !in space.members
    ensures Left(space, space, user)
  {
  }

  /** Who inherits a space: the admin who joined first, or the fallback when it
      has no admin. */
  ghost predicate IsHeir(space: Space, heir: Id, fallback: Option<Id>) {
    LongestServing(space, heir) || (Admins(space) == {} && Some(heir) == fallback)
  }

  ghost predicate HandedOn(before: Space, after: Space, user: Id, fallback: Option<Id>, now: nat) {
    after.owner != user && IsHeir(before, after.owner, fallback) && Handed(before, after, user, after.owner, now)
  }

  /** The space of the person's heir, without the person: the heir as owner,
      joined now if they had not before, and everyone else as they were. */
  ghost predicate Inherited(before: Space, after: Space, user: Id, fallback: Option<Id>, now: nat) {
    && after.owner != user && user !in after.members && IsHeir(before, after.owner, fallback)
    && after.owner in after.members
    && after.members[after.owner]
       == Membership(IsOwner, if after.owner in before.members then before.members[after.owner].joined else now)
    && OthersSame(before, after, {user, after.owner})
  }

  lemma OwnerMoved(before: Space, after: Space, user: Id, fallback: Option<Id>, now: nat)
    requires HandedOn(before, after, user, fallback, now)
    ensures after.owner != user
  {
  }

  lemma Inherits(before: Space, handed: Space, after: Space, user: Id, fallback: Option<Id>, now: nat)
    requires HandedOn(before, handed, user, fallback, now) && Left(handed, after, user)
    ensures Inherited(before, after, user, fallback, now)
  {
    hide LongestServing, Admins;
    assert Same(handed, after, after.owner);
    forall m: Id | m !in {user, after.owner} ensures Same(before, after, m) {
      assert Same(before, handed, m) && Same(handed, after, m);
    }
  }

  lemma HandingOn(space: Space, user: Id, heir: Id, fallback: Option<Id>, now: nat)
    requires OwnerOk(space) && space.owner == user && fallback != Some(user)
    requires LongestServing(space, heir) || (Admins(space) == {} && Some(heir) == fallback)
    ensures heir != user
    ensures var after := Write(space, HandOver(user, heir, now));
            OwnerOk(after) && HandedOn(space, after, user, fallback, now)
  {
    assert heir != user;
    CheckedCallIsHarmless(space, HandOver(user, heir, now));
    WriteDoes(space, HandOver(user, heir, now));
  }
}
