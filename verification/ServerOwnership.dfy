/** The server's owner and its admins: accounts made, promoted, demoted,
    deactivated, deleted and handed the server, with each check that runs
    outside a lock kept apart from the write it allows. */
module ServerOwnership {
  import opened Options

  type Id = nat

  datatype Account = Account(admin: bool, bot: bool, active: bool, deleted: bool, owner: bool)

  type Accounts = map<Id, Account>

  datatype Refusal =
    | NotFound | OwnerRefusal | LastAdmin | BotRefusal | NotActive | NotAdmin | NotOwner
    | NotAllowed | SignInTooOld | NoHeir

  datatype Result = Done(accounts: Accounts) | Refused(why: Refusal)

  // ---- The roster ----------------------------------------------------------------

  function ActiveAdmins(accounts: Accounts): set<Id> {
    set id | id in accounts && accounts[id].admin && !accounts[id].bot && accounts[id].active
  }

  /** CountAdmins. */
  function CountAdmins(accounts: Accounts): nat {
    |ActiveAdmins(accounts)|
  }

  predicate FitToOwn(a: Account) {
    a.admin && !a.bot && a.active
  }

  /** One account owns the server, and it is an active admin person. */
  ghost predicate OwnedBy(accounts: Accounts, owner: Id) {
    && owner in accounts && accounts[owner].owner && FitToOwn(accounts[owner])
    && forall id :: id in accounts && accounts[id].owner ==> id == owner
  }

  ghost predicate Owned(accounts: Accounts) {
    exists owner :: OwnedBy(accounts, owner)
  }

  /** No bot holds the admin role. */
  ghost predicate PeopleRule(accounts: Accounts) {
    forall id :: id in accounts && accounts[id].bot ==> !accounts[id].admin
  }

  /** A deleted account stays out of use. */
  ghost predicate DeletedAreOut(accounts: Accounts) {
    forall id :: id in accounts && accounts[id].deleted ==> !accounts[id].active
  }

  // ---- Under the roster lock ---------------------------------------------------------

  /** underAdminGuard's refusals, before the write it guards. */
  function GuardRefuses(accounts: Accounts, target: Id): Option<Refusal> {
    if target !in accounts then Some(NotFound)
    else if accounts[target].owner then Some(OwnerRefusal)
    else if accounts[target].admin && accounts[target].active && CountAdmins(accounts) <= 1 then Some(LastAdmin)
    else None
  }

  function Guarded(accounts: Accounts, target: Id, changed: Account -> Account): Result {
    if GuardRefuses(accounts, target).Some? then Refused(GuardRefuses(accounts, target).value)
    else Done(accounts[target := changed(accounts[target])])
  }

  function Demote(accounts: Accounts, target: Id): Result {
    Guarded(accounts, target, (a: Account) => a.(admin := false))
  }

  function Deactivate(accounts: Accounts, target: Id): Result {
    Guarded(accounts, target, (a: Account) => a.(active := false))
  }

  /** DeleteAccount's locked half; an account deleted already matches no row. */
  function DeleteLocked(accounts: Accounts, target: Id): Result {
    if GuardRefuses(accounts, target).None? && accounts[target].deleted then Refused(NotFound)
    else Guarded(accounts, target, (a: Account) => a.(active := false, deleted := true))
  }

  /** TransferOwnership; no `from` is the host's own command. */
  function Transfer(accounts: Accounts, from: Option<Id>, to: Id): Result {
    if from.Some? && from.value !in accounts then Refused(NotFound)
    else if from.Some? && !accounts[from.value].owner then Refused(NotOwner)
    else if to !in accounts then Refused(NotFound)
    else if accounts[to].owner then Done(accounts)
    else if accounts[to].bot then Refused(BotRefusal)
    else if !accounts[to].active then Refused(NotActive)
    else if !accounts[to].admin then Refused(NotAdmin)
    else
      var cleared := map id | id in accounts :: accounts[id].(owner := false);
      Done(cleared[to := cleared[to].(owner := true)])
  }

  /** createAccount, under the bootstrap lock: the first account is the admin
      and owns the server. */
  function Create(accounts: Accounts, id: Id): Accounts {
    var first := |accounts| == 0;
    accounts[id := Account(first, false, true, false, first)]
  }

  // ---- Checks made earlier -------------------------------------------------------------

  /** What a request found before the write it now makes: a sign-up, with
      whether its invite is what admitted it; a created account whose invite is
      being redeemed; a promotion of a person; a reactivation of an account
      not deleted then; a bot being made by an admin. */
  datatype Pending =
    | SigningUp(inviteRequired: bool)
    | Redeeming(id: Id, inviteRequired: bool)
    | Promoting(id: Id)
    | Reactivating(id: Id)
    | MakingBot

  datatype Server = Server(accounts: Accounts, pending: set<Pending>)

  datatype Step =
    | CheckSignUp(inviteRequired: bool)
    | CreateAccount(sign: Pending, id: Id, redeems: bool)
    | Redeemed(sign: Pending)
    | UndoAccount(sign: Pending)
    | CheckPromote(id: Id)
    | WritePromote(id: Id)
    | CheckReactivate(id: Id)
    | WriteReactivate(id: Id)
    | CheckBot
    | WriteBot(id: Id)
    | DemoteStep(id: Id)
    | DeactivateStep(id: Id)
    | DeleteStep(id: Id)
    | TransferStep(from: Option<Id>, to: Id)

  function After(accounts: Accounts, result: Result): Accounts {
    match result
    case Done(written) => written
    case Refused(_) => accounts
  }

  /** SetUserRole to admin; SetUserDeactivated to active. */
  function Promoted(accounts: Accounts, id: Id): Accounts {
    if id in accounts then accounts[id := accounts[id].(admin := true)] else accounts
  }

  function Reactivated(accounts: Accounts, id: Id): Accounts {
    if id in accounts then accounts[id := accounts[id].(active := true)] else accounts
  }

  /** An id nobody has had. */
  predicate IsNew(s: Server, id: Id) {
    id !in s.accounts && Promoting(id) !in s.pending && Reactivating(id) !in s.pending
  }

  ghost predicate Next(s: Server, step: Step, after: Server) {
    match step
    case CheckSignUp(required) =>
      // An empty server asks for no invite.
      && (required ==> |s.accounts| > 0)
      && after == s.(pending := s.pending + {SigningUp(required)})
    case CreateAccount(sign, id, redeems) =>
      && sign in s.pending && sign.SigningUp? && IsNew(s, id)
      && after.accounts == Create(s.accounts, id)
      && after.pending == if redeems then s.pending + {Redeeming(id, sign.inviteRequired)} else s.pending
    case Redeemed(sign) =>
      sign in s.pending && sign.Redeeming? && after == s.(pending := s.pending - {sign})
    case UndoAccount(sign) =>
      && sign in s.pending && sign.Redeeming? && sign.inviteRequired
      && after == Server(s.accounts - {sign.id}, s.pending - {sign})
    case CheckPromote(id) =>
      id in s.accounts && !s.accounts[id].bot && after == s.(pending := s.pending + {Promoting(id)})
    case WritePromote(id) =>
      Promoting(id) in s.pending && after == Server(Promoted(s.accounts, id), s.pending - {Promoting(id)})
    case CheckReactivate(id) =>
      id in s.accounts && !s.accounts[id].deleted && after == s.(pending := s.pending + {Reactivating(id)})
    case WriteReactivate(id) =>
      Reactivating(id) in s.pending && after == Server(Reactivated(s.accounts, id), s.pending - {Reactivating(id)})
    case CheckBot =>
      CountAdmins(s.accounts) > 0 && after == s.(pending := s.pending + {MakingBot})
    case WriteBot(id) =>
      && MakingBot in s.pending && IsNew(s, id)
      && after == s.(accounts := s.accounts[id := Account(false, true, true, false, false)])
    case DemoteStep(id) => after == s.(accounts := After(s.accounts, Demote(s.accounts, id)))
    case DeactivateStep(id) => after == s.(accounts := After(s.accounts, Deactivate(s.accounts, id)))
    case DeleteStep(id) => after == s.(accounts := After(s.accounts, DeleteLocked(s.accounts, id)))
    case TransferStep(from, to) => after == s.(accounts := After(s.accounts, Transfer(s.accounts, from, to)))
  }

  /** Once there is an account there is an owner; before, nobody's sign-up
      waits on an invite and nothing else waits at all. */
  ghost predicate Safe(s: Server) {
    && PeopleRule(s.accounts)
    && (forall id :: Promoting(id) in s.pending && id in s.accounts ==> !s.accounts[id].bot)
    && if |s.accounts| == 0 then forall p :: p in s.pending ==> p.SigningUp? && !p.inviteRequired
       else Owned(s.accounts)
  }

  // ---- What each write keeps -------------------------------------------------------------

  lemma OwnerIsActiveAdmin(accounts: Accounts, owner: Id)
    requires OwnedBy(accounts, owner)
    ensures owner in ActiveAdmins(accounts) && CountAdmins(accounts) >= 1
  {
    var admins := ActiveAdmins(accounts);
    assert admins == {owner} + (admins - {owner});
  }

  /** On an owned server the guard never refuses a last admin: whoever it
      guards is not the owner, who is an admin beside them. */
  lemma LastAdminNeverFires(accounts: Accounts, target: Id)
    requires Owned(accounts) && PeopleRule(accounts)
    ensures GuardRefuses(accounts, target) != Some(LastAdmin)
    ensures GuardRefuses(accounts, target).None? <==> target in accounts && !accounts[target].owner
  {
    var owner :| OwnedBy(accounts, owner);
    OwnerIsActiveAdmin(accounts, owner);
    if target in accounts && !accounts[target].owner && accounts[target].admin && accounts[target].active {
      AtLeastTwo(ActiveAdmins(accounts), owner, target);
    }
  }

  lemma AtLeastTwo(s: set<Id>, a: Id, b: Id)
    requires a in s && b in s && a != b
    ensures |s| >= 2
  {
    assert s == {a} + (s - {a});
    assert b in s - {a};
  }

  /** A write on one account that leaves the owner's alone. */
  lemma OthersMayChange(accounts: Accounts, owner: Id, id: Id, a: Account)
    requires OwnedBy(accounts, owner) && !a.owner && id != owner
    ensures OwnedBy(accounts[id := a], owner) && Owned(accounts[id := a])
  {
    assert OwnedBy(accounts[id := a], owner);
  }

  lemma GuardedKeeps(accounts: Accounts, target: Id, a: Account)
    requires Owned(accounts) && PeopleRule(accounts) && GuardRefuses(accounts, target).None?
    requires !a.owner && (a.bot ==> !a.admin)
    ensures Owned(accounts[target := a]) && PeopleRule(accounts[target := a])
  {
    var owner :| OwnedBy(accounts, owner);
    OthersMayChange(accounts, owner, target, a);
  }

  lemma TransferKeeps(accounts: Accounts, from: Option<Id>, to: Id)
    requires Owned(accounts) && PeopleRule(accounts)
    ensures var after := After(accounts, Transfer(accounts, from, to)); Owned(after) && PeopleRule(after)
    ensures Transfer(accounts, from, to).Done? ==> OwnedBy(Transfer(accounts, from, to).accounts, to)
  {
    var owner :| OwnedBy(accounts, owner);
    if Transfer(accounts, from, to).Done? {
      assert OwnedBy(Transfer(accounts, from, to).accounts, to);
    }
  }

  /** Who may hand the server on, and to whom: the owner, or the host, to an
      active admin person. */
  lemma TransferMoves(accounts: Accounts, from: Option<Id>, to: Id)
    requires Owned(accounts)
    ensures Transfer(accounts, from, to).Done? <==>
      && (from.Some? ==> from.value in accounts && accounts[from.value].owner)
      && to in accounts && FitToOwn(accounts[to])
  {
    var owner :| OwnedBy(accounts, owner);
  }

  lemma CreateKeeps(accounts: Accounts, id: Id)
    requires id !in accounts && PeopleRule(accounts) && (|accounts| > 0 ==> Owned(accounts))
    ensures Owned(Create(accounts, id)) && PeopleRule(Create(accounts, id))
    ensures Create(accounts, id)[id].owner <==> |accounts| == 0
  {
    if |accounts| == 0 {
      assert accounts == map[];
      assert OwnedBy(Create(accounts, id), id);
    } else {
      var owner :| OwnedBy(accounts, owner);
      OthersMayChange(accounts, owner, id, Create(accounts, id)[id]);
    }
  }

  /** Undoing a sign-up keeps the server owned exactly when the account is not,
      by then, the owner. */
  lemma UndoKeeps(accounts: Accounts, id: Id)
    requires Owned(accounts)
    ensures Owned(accounts - {id}) <==> !(id in accounts && accounts[id].owner)
  {
    var owner :| OwnedBy(accounts, owner);
    if id != owner {
      assert OwnedBy(accounts - {id}, owner);
    } else {
      forall other ensures !OwnedBy(accounts - {id}, other) {
      }
    }
  }

  /** A sign-up created and undone in one go leaves the server as it was. */
  lemma UndoneAtOnce(accounts: Accounts, id: Id)
    requires id !in accounts && |accounts| > 0 && Owned(accounts)
    ensures Create(accounts, id) - {id} == accounts && !Create(accounts, id)[id].owner
  {
    assert Create(accounts, id) - {id} == accounts;
  }

  // ---- Every step --------------------------------------------------------------------------

  /** The one step that can leave a server without its owner: an account made
      on an invite that turns out spent, promoted and handed the server before
      its redemption failed. */
  predicate TakesOwner(s: Server, step: Step) {
    step.UndoAccount? && step.sign.Redeeming? && step.sign.id in s.accounts && s.accounts[step.sign.id].owner
  }

  lemma NonEmpty(accounts: Accounts, id: Id)
    requires id in accounts
    ensures |accounts| > 0
  {
    assert accounts.Keys == {id} + (accounts.Keys - {id});
    assert |accounts| == |accounts.Keys|;
  }

  lemma StepIsSafe(s: Server, step: Step, after: Server)
    requires Safe(s) && Next(s, step, after)
    ensures !TakesOwner(s, step) ==> Safe(after) && (|s.accounts| > 0 ==> |after.accounts| > 0)
    ensures TakesOwner(s, step) ==> |s.accounts| > 0 && !Owned(after.accounts)
  {
    if TakesOwner(s, step) {
      NonEmpty(s.accounts, step.sign.id);
      UndoKeeps(s.accounts, step.sign.id);
    } else {
      OtherStepIsSafe(s, step, after);
    }
  }

  lemma OtherStepIsSafe(s: Server, step: Step, after: Server)
    requires Safe(s) && Next(s, step, after) && !TakesOwner(s, step)
    ensures Safe(after) && (|s.accounts| > 0 ==> |after.accounts| > 0)
  {
    hide Owned, CountAdmins, GuardRefuses, Transfer;
    match step {
      case CreateAccount(sign, id, redeems) =>
        CreateKeeps(s.accounts, id);
        NonEmpty(after.accounts, id);
      case UndoAccount(sign) => UndoIsSafe(s, sign, after);
      case CheckPromote(id) => NonEmpty(s.accounts, id);
      case CheckReactivate(id) => NonEmpty(s.accounts, id);
      case CheckBot => SomeAdmin(s.accounts);
      case WritePromote(id) => LateWrite(s, id, Promoted(s.accounts, id));
      case WriteReactivate(id) => LateWrite(s, id, Reactivated(s.accounts, id));
      case WriteBot(id) => BotMade(s, id, after);
      case DemoteStep(id) => GuardedStep(s, id, after, Demote(s.accounts, id));
      case DeactivateStep(id) => GuardedStep(s, id, after, Deactivate(s.accounts, id));
      case DeleteStep(id) => GuardedStep(s, id, after, DeleteLocked(s.accounts, id));
      case TransferStep(from, to) => TransferIsSafe(s, from, to, after);
      case _ =>
    }
  }

  lemma SomeAdmin(accounts: Accounts)
    requires CountAdmins(accounts) > 0
    ensures |accounts| > 0
  {
    var id :| id in ActiveAdmins(accounts);
    NonEmpty(accounts, id);
  }

  lemma UndoIsSafe(s: Server, sign: Pending, after: Server)
    requires Safe(s) && Next(s, UndoAccount(sign), after) && !TakesOwner(s, UndoAccount(sign))
    ensures Safe(after) && (|s.accounts| > 0 ==> |after.accounts| > 0)
  {
    UndoKeeps(s.accounts, sign.id);
    var owner :| OwnedBy(s.accounts, owner);
    NonEmpty(after.accounts, owner);
  }

  /** A promotion or reactivation whose check ran earlier. */
  lemma LateWrite(s: Server, id: Id, after: Accounts)
    requires Safe(s) && (Promoting(id) in s.pending || Reactivating(id) in s.pending)
    requires after == Reactivated(s.accounts, id) || (after == Promoted(s.accounts, id) && Promoting(id) in s.pending)
    ensures |after| > 0 && Owned(after) && PeopleRule(after)
    ensures forall x :: x in after ==> x in s.accounts && after[x].bot == s.accounts[x].bot
  {
    var owner :| OwnedBy(s.accounts, owner);
    assert OwnedBy(after, owner);
    NonEmpty(after, owner);
  }

  lemma BotMade(s: Server, id: Id, after: Server)
    requires Safe(s) && Next(s, WriteBot(id), after)
    ensures Safe(after)
  {
    var owner :| OwnedBy(s.accounts, owner);
    OthersMayChange(s.accounts, owner, id, after.accounts[id]);
    NonEmpty(after.accounts, id);
  }

  lemma GuardedStep(s: Server, id: Id, after: Server, result: Result)
    requires Safe(s) && after == s.(accounts := After(s.accounts, result))
    requires result == Demote(s.accounts, id) || result == Deactivate(s.accounts, id) || result == DeleteLocked(s.accounts, id)
    ensures Safe(after) && (|s.accounts| > 0 ==> |after.accounts| > 0)
  {
    if result.Done? {
      NonEmpty(s.accounts, id);
      GuardedKeeps(s.accounts, id, result.accounts[id]);
      NonEmpty(after.accounts, id);
    }
  }

  lemma TransferIsSafe(s: Server, from: Option<Id>, to: Id, after: Server)
    requires Safe(s) && after == s.(accounts := After(s.accounts, Transfer(s.accounts, from, to)))
    ensures Safe(after) && (|s.accounts| > 0 ==> |after.accounts| > 0)
  {
    if |s.accounts| > 0 {
      TransferKeeps(s.accounts, from, to);
      var owner :| OwnedBy(after.accounts, owner);
      NonEmpty(after.accounts, owner);
    } else {
      assert s.accounts == map[];
    }
  }

  ghost predicate OthersAsWere(before: Accounts, after: Accounts, id: Id) {
    forall x: Id :: x != id ==> (x in after <==> x in before) && (x in before ==> after[x] == before[x])
  }

  /** What each step changes: one account, and of it one thing; a hand-over only
      who owns the server; anything else no account at all. */
  ghost predicate Touches(was: Accounts, step: Step, now: Accounts) {
    match step
    case CreateAccount(_, id, _) => id !in was && id in now && OthersAsWere(was, now, id)
    case UndoAccount(sign) => sign.Redeeming? && sign.id !in now && OthersAsWere(was, now, sign.id)
    case WritePromote(id) => if id in was then now == was[id := was[id].(admin := true)] else now == was
    case WriteReactivate(id) => if id in was then now == was[id := was[id].(active := true)] else now == was
    case WriteBot(id) =>
      id !in was && id in now && now[id].bot && !now[id].admin && !now[id].owner && OthersAsWere(was, now, id)
    case DemoteStep(id) => now == was || (id in was && now == was[id := was[id].(admin := false)])
    case DeactivateStep(id) => now == was || (id in was && now == was[id := was[id].(active := false)])
    case DeleteStep(id) => now == was || (id in was && now == was[id := was[id].(active := false, deleted := true)])
    case TransferStep(_, to) =>
      now == was || (now.Keys == was.Keys && forall id :: id in was ==> now[id] == was[id].(owner := id == to))
    case _ => now == was
  }

  lemma StepTouches(s: Server, step: Step, after: Server)
    requires Next(s, step, after)
    ensures Touches(s.accounts, step, after.accounts)
  {
    hide Transfer, OthersAsWere;
    match step {
      case TransferStep(from, to) => TransferTouches(s.accounts, from, to);
      case CreateAccount(_, _, _) => MadeTouches(s, step, after);
      case UndoAccount(_) => MadeTouches(s, step, after);
      case WriteBot(_) => MadeTouches(s, step, after);
      case _ => WriteTouches(s, step, after);
    }
  }

  lemma MadeTouches(s: Server, step: Step, after: Server)
    requires Next(s, step, after) && (step.CreateAccount? || step.UndoAccount? || step.WriteBot?)
    ensures Touches(s.accounts, step, after.accounts)
  {
  }

  lemma WriteTouches(s: Server, step: Step, after: Server)
    requires Next(s, step, after) && !step.CreateAccount? && !step.UndoAccount? && !step.WriteBot? && !step.TransferStep?
    ensures Touches(s.accounts, step, after.accounts)
  {
    hide CountAdmins;
  }

  lemma TransferTouches(accounts: Accounts, from: Option<Id>, to: Id)
    ensures var after := After(accounts, Transfer(accounts, from, to));
            after == accounts
            || (after.Keys == accounts.Keys && forall id :: id in accounts ==> after[id] == accounts[id].(owner := id == to))
  {
  }

  ghost predicate IsRun(states: seq<Server>, steps: seq<Step>) {
    && |states| == |steps| + 1 && states[0] == Server(map[], {})
    && forall k :: 0 <= k < |steps| ==> Next(states[k], steps[k], states[k + 1])
  }

  /** Once some state up to k has had an account, every one since is owned. */
  ghost predicate OwnedSinceFirst(states: seq<Server>, k: nat)
    requires k < |states|
  {
    forall j :: 0 <= j <= k ==> (HadAccount(states, j) ==> Owned(states[j].accounts))
  }

  ghost predicate HadAccount(states: seq<Server>, j: nat)
    requires j < |states|
  {
    exists i :: 0 <= i <= j && |states[i].accounts| > 0
  }

  ghost predicate OwnerUntaken(states: seq<Server>, steps: seq<Step>, k: nat)
    requires k <= |states| && k <= |steps|
  {
    forall j :: 0 <= j < k ==> !TakesOwner(states[j], steps[j])
  }

  /** From the first account on, the server has exactly one owner, an active
      admin person, in every state up to one exactly when no step before it
      undid the owner's own sign-up. */
  lemma {:induction false} ServerStaysOwned(states: seq<Server>, steps: seq<Step>, k: nat)
    requires IsRun(states, steps) && k < |states|
    ensures OwnedSinceFirst(states, k) <==> OwnerUntaken(states, steps, k)
    ensures OwnerUntaken(states, steps, k) ==> Safe(states[k]) && (HadAccount(states, k) <==> |states[k].accounts| > 0)
  {
    hide Next, Safe, TakesOwner, Owned;
    if k == 0 {
      EmptyIsSafe();
    } else {
      ServerStaysOwned(states, steps, k - 1);
      SinceGrows(states, k);
      StepOf(states, steps, k - 1);
      if OwnerUntaken(states, steps, k - 1) {
        StepIsSafe(states[k - 1], steps[k - 1], states[k]);
        if !TakesOwner(states[k - 1], steps[k - 1]) {
          SafeIsOwned(states[k]);
        }
      }
    }
  }

  lemma StepOf(states: seq<Server>, steps: seq<Step>, k: nat)
    requires IsRun(states, steps) && k < |steps|
    ensures k + 1 < |states| && Next(states[k], steps[k], states[k + 1])
  {
  }

  lemma SinceGrows(states: seq<Server>, k: nat)
    requires 0 < k < |states|
    ensures OwnedSinceFirst(states, k)
            <==> OwnedSinceFirst(states, k - 1) && (HadAccount(states, k) ==> Owned(states[k].accounts))
    ensures HadAccount(states, k) <==> HadAccount(states, k - 1) || |states[k].accounts| > 0
  {
    hide Owned;
    if HadAccount(states, k - 1) {
      var i :| 0 <= i <= k - 1 && |states[i].accounts| > 0;
      assert 0 <= i <= k;
    }
  }

  lemma SafeIsOwned(s: Server)
    requires Safe(s)
    ensures |s.accounts| > 0 ==> Owned(s.accounts)
  {
  }

  lemma EmptyIsSafe()
    ensures Safe(Server(map[], {}))
  {
  }

  // ---- Deleting and reactivating ----------------------------------------------------------------

  /** An account deleted stays out of use, unless a reactivation that checked
      it before it was deleted writes after: exactly that brings one back. */
  lemma DeletedStayOut(s: Server, step: Step, after: Server)
    requires DeletedAreOut(s.accounts) && Next(s, step, after)
    ensures DeletedAreOut(after.accounts) <==>
      !(step.WriteReactivate? && step.id in s.accounts && s.accounts[step.id].deleted)
  {
    hide CountAdmins, Owned;
    if step.WriteReactivate? && step.id in s.accounts && s.accounts[step.id].deleted {
      assert after.accounts[step.id].deleted && after.accounts[step.id].active;
    }
  }

  /** DeleteAccount's refusals before its lock: the account as one query read
      it, and the admins as a later one counts them. */
  function EarlyRefuses(user: Account, admins: nat): Option<Refusal> {
    if user.owner then Some(OwnerRefusal)
    else if user.admin && admins <= 1 then Some(LastAdmin)
    else None
  }

  lemma EarlyLastAdmin(read: Account, counted: Accounts, user: Id)
    requires Owned(counted)
    ensures EarlyRefuses(read, CountAdmins(counted)) == Some(LastAdmin) <==>
      !read.owner && read.admin && forall id: Id :: id in ActiveAdmins(counted) ==> counted[id].owner
    ensures EarlyRefuses(read, CountAdmins(counted)) == Some(LastAdmin) ==>
      user !in ActiveAdmins(counted) || counted[user].owner
  {
    var owner :| OwnedBy(counted, owner);
    OwnerIsActiveAdmin(counted, owner);
    var admins := ActiveAdmins(counted);
    if CountAdmins(counted) <= 1 {
      assert admins == {owner} + (admins - {owner});
      assert admins - {owner} == {};
    }
    if forall id: Id :: id in admins ==> counted[id].owner {
      assert admins == {owner};
    }
  }

  /** So in a run the early check does refuse a last admin, to someone who is
      not one: exactly when it read an admin, and the owner alone is left to
      count; the person is by then no active admin, or is the owner. */
  lemma EarlyLastAdminInRun(states: seq<Server>, steps: seq<Step>, j: nat, k: nat, user: Id)
    requires IsRun(states, steps) && j <= k < |states| && user in states[j].accounts
    requires OwnerUntaken(states, steps, k)
    ensures var read, counted := states[j].accounts[user], states[k].accounts;
            && Owned(counted)
            && (EarlyRefuses(read, CountAdmins(counted)) == Some(LastAdmin) <==>
                  !read.owner && read.admin && forall id: Id :: id in ActiveAdmins(counted) ==> counted[id].owner)
            && (EarlyRefuses(read, CountAdmins(counted)) == Some(LastAdmin) ==>
                  user !in ActiveAdmins(counted) || counted[user].owner)
  {
    hide IsRun, Owned, ActiveAdmins, CountAdmins, EarlyRefuses, Safe;
    NonEmpty(states[j].accounts, user);
    assert HadAccount(states, k);
    ServerStaysOwned(states, steps, k);
    SafeIsOwned(states[k]);
    EarlyLastAdmin(states[j].accounts[user], states[k].accounts, user);
  }

  /** After the early refusals the person has left every space, for good; the
      locked write then deletes the account exactly unless it has come to own
      the server meanwhile, or is gone. */
  lemma LockedAfterEarly(states: seq<Server>, steps: seq<Step>, k: nat, user: Id)
    requires IsRun(states, steps) && k < |states| && OwnerUntaken(states, steps, k)
    ensures var accounts := states[k].accounts;
            DeleteLocked(accounts, user).Done? <==>
              user in accounts && !accounts[user].owner && !accounts[user].deleted
  {
    hide IsRun, Owned, PeopleRule, ActiveAdmins, CountAdmins;
    var accounts := states[k].accounts;
    ServerStaysOwned(states, steps, k);
    if user in accounts {
      NonEmpty(accounts, user);
      LastAdminNeverFires(accounts, user);
    }
  }

  // ---- Runs that do it ------------------------------------------------------------------------

  const MEMBER := Account(false, false, true, false, false)
  const ADMIN := Account(true, false, true, false, false)
  const OWNER := Account(true, false, true, false, true)

  lemma {:induction false} RunOn(states: seq<Server>, steps: seq<Step>, step: Step, after: Server)
      returns (longer: seq<Server>, more: seq<Step>)
    requires IsRun(states, steps) && Next(states[|steps|], step, after)
    ensures longer == states + [after] && more == steps + [step]
    ensures IsRun(longer, more) && longer[|more|] == after
  {
    hide Next;
    longer, more := states + [after], steps + [step];
    forall k | 0 <= k < |more| ensures Next(longer[k], more[k], longer[k + 1]) {
      if k < |steps| {
        assert longer[k] == states[k] && longer[k + 1] == states[k + 1] && more[k] == steps[k];
      }
    }
  }

  /** The owner signs up. */
  lemma OneSignUp() returns (states: seq<Server>, steps: seq<Step>)
    ensures IsRun(states, steps)
    ensures states[|steps|] == Server(map[1 := OWNER], {SigningUp(false)})
  {
    var open := SigningUp(false);
    var none: Accounts := map[];
    assert Create(none, 1) == map[1 := OWNER];
    states, steps := [Server(none, {})], [];
    states, steps := RunOn(states, steps, CheckSignUp(false), Server(none, {open}));
    states, steps := RunOn(states, steps, CreateAccount(open, 1, false), Server(map[1 := OWNER], {open}));
  }

  /** Then a member, whose invite, if it admitted them, is still to be
      redeemed. */
  lemma TwoSignUps(required: bool) returns (states: seq<Server>, steps: seq<Step>)
    ensures IsRun(states, steps)
    ensures states[|steps|].accounts == map[1 := OWNER, 2 := MEMBER]
    ensures states[|steps|].pending == {SigningUp(false), SigningUp(required), Redeeming(2, required)}
  {
    hide IsRun;
    states, steps := OneSignUp();
    assert IsRun(states, steps);
    var sign := SigningUp(required);
    var one: Accounts := map[1 := OWNER];
    NonEmpty(one, 1);
    assert Create(one, 2) == map[1 := OWNER, 2 := MEMBER];
    var signing := Server(one, {SigningUp(false), sign});
    RunHasLast(states, steps);
    states, steps := RunOn(states, steps, CheckSignUp(required), signing);
    var both := Server(map[1 := OWNER, 2 := MEMBER], {SigningUp(false), sign, Redeeming(2, required)});
    assert signing.pending + {Redeeming(2, required)} == both.pending;
    states, steps := RunOn(states, steps, CreateAccount(sign, 2, true), both);
  }

  lemma RunHasLast(states: seq<Server>, steps: seq<Step>)
    requires IsRun(states, steps)
    ensures |states| == |steps| + 1
  {
  }

  /** And the member is made an admin. */
  lemma SecondAdmin(required: bool) returns (states: seq<Server>, steps: seq<Step>)
    ensures IsRun(states, steps)
    ensures states[|steps|].accounts == map[1 := OWNER, 2 := ADMIN]
    ensures Redeeming(2, required) in states[|steps|].pending
  {
    hide IsRun;
    states, steps := TwoSignUps(required);
    RunHasLast(states, steps);
    var start := states[|steps|];
    var pending := start.pending;
    states, steps := RunOn(states, steps, CheckPromote(2), start.(pending := pending + {Promoting(2)}));
    assert pending + {Promoting(2)} - {Promoting(2)} == pending;
    states, steps := RunOn(states, steps, WritePromote(2), Server(map[1 := OWNER, 2 := ADMIN], pending));
  }

  /** That admin is handed the server, and then their invite turns out spent:
      nobody owns it any more. */
  lemma OwnerUndone() returns (states: seq<Server>, steps: seq<Step>)
    ensures IsRun(states, steps) && |states[|steps|].accounts| > 0 && !Owned(states[|steps|].accounts)
  {
    hide IsRun;
    states, steps := SecondAdmin(true);
    RunHasLast(states, steps);
    var pending := states[|steps|].pending;
    var moved: Accounts := map[1 := ADMIN, 2 := OWNER];
    HandsOver(states[|steps|].accounts, moved);
    states, steps := RunOn(states, steps, TransferStep(Some(1), 2), Server(moved, pending));
    var sign := Redeeming(2, true);
    assert moved - {2} == map[1 := ADMIN];
    states, steps := RunOn(states, steps, UndoAccount(sign), Server(map[1 := ADMIN], pending - {sign}));
    NonEmpty(states[|steps|].accounts, 1);
    forall owner ensures !OwnedBy(states[|steps|].accounts, owner) {
    }
  }

  lemma HandsOver(promoted: Accounts, moved: Accounts)
    requires promoted == map[1 := OWNER, 2 := ADMIN] && moved == map[1 := ADMIN, 2 := OWNER]
    ensures After(promoted, Transfer(promoted, Some(1), 2)) == moved
  {
    var cleared := map id | id in promoted :: promoted[id].(owner := false);
    assert cleared[2 := cleared[2].(owner := true)] == moved;
  }

  /** A reactivation is checked, the person deletes their account, and the
      reactivation writes. */
  lemma DeletedBroughtBack() returns (states: seq<Server>, steps: seq<Step>)
    ensures IsRun(states, steps) && !DeletedAreOut(states[|steps|].accounts)
  {
    hide IsRun;
    states, steps := TwoSignUps(false);
    RunHasLast(states, steps);
    var start := states[|steps|];
    var checked := start.(pending := start.pending + {Reactivating(2)});
    states, steps := RunOn(states, steps, CheckReactivate(2), checked);
    var gone := checked.(accounts := start.accounts[2 := Account(false, false, false, true, false)]);
    assert DeleteLocked(start.accounts, 2) == Done(gone.accounts);
    states, steps := RunOn(states, steps, DeleteStep(2), gone);
    var back := Server(Reactivated(gone.accounts, 2), checked.pending - {Reactivating(2)});
    states, steps := RunOn(states, steps, WriteReactivate(2), back);
    assert back.accounts[2].deleted && back.accounts[2].active;
  }

  /** An admin asks to delete their account, is demoted between its two reads,
      and is refused as the last admin. */
  lemma RefusedAsLastAdmin() returns (states: seq<Server>, steps: seq<Step>, read: nat)
    ensures IsRun(states, steps) && read < |steps| && 2 in states[read].accounts
    ensures EarlyRefuses(states[read].accounts[2], CountAdmins(states[|steps|].accounts)) == Some(LastAdmin)
  {
    hide IsRun;
    states, steps := SecondAdmin(false);
    RunHasLast(states, steps);
    read := |steps|;
    var before := states[read];
    var members: Accounts := map[1 := OWNER, 2 := MEMBER];
    assert ActiveAdmins(before.accounts) == {1, 2};
    assert Demote(before.accounts, 2) == Done(members);
    states, steps := RunOn(states, steps, DemoteStep(2), before.(accounts := members));
    assert ActiveAdmins(members) == {1};
  }

  /** An admin asks to delete their account, passes the early refusals, and is
      handed the server before the lock: they have left every space and keep
      the account. */
  lemma LeftAndKept() returns (states: seq<Server>, steps: seq<Step>, read: nat)
    ensures IsRun(states, steps) && read < |steps| && 2 in states[read].accounts
    ensures EarlyRefuses(states[read].accounts[2], CountAdmins(states[read].accounts)) == None
    ensures DeleteLocked(states[|steps|].accounts, 2) == Refused(OwnerRefusal)
  {
    hide IsRun;
    states, steps := SecondAdmin(false);
    RunHasLast(states, steps);
    read := |steps|;
    var before := states[read];
    var moved: Accounts := map[1 := ADMIN, 2 := OWNER];
    assert ActiveAdmins(before.accounts) == {1, 2};
    HandsOver(before.accounts, moved);
    states, steps := RunOn(states, steps, TransferStep(Some(1), 2), before.(accounts := moved));
  }

  // ---- In place ----------------------------------------------------------------------------------

  class Roster {
    var accounts: Accounts

    constructor ()
      ensures accounts == map[]
    {
      accounts := map[];
    }

    /** createAccount. */
    method CreateAccount(id: Id)
      requires id !in accounts && PeopleRule(accounts) && (|accounts| > 0 ==> Owned(accounts))
      modifies this
      ensures accounts == Create(old(accounts), id) && Owned(accounts) && PeopleRule(accounts)
      ensures accounts == old(accounts)[id := accounts[id]] && accounts[id].active
      ensures !accounts[id].bot && !accounts[id].deleted
      ensures accounts[id].admin == accounts[id].owner == (|old(accounts)| == 0)
    {
      CreateKeeps(accounts, id);
      var underLock := |accounts|;
      accounts := accounts[id := Account(underLock == 0, false, true, false, underLock == 0)];
    }

    /** underAdminGuard's checks, in order. */
    method Guard(target: Id) returns (why: Option<Refusal>)
      requires Owned(accounts) && PeopleRule(accounts)
      ensures why == GuardRefuses(accounts, target) && why != Some(LastAdmin)
    {
      LastAdminNeverFires(accounts, target);
      if target !in accounts {
        return Some(NotFound);
      }
      if accounts[target].owner {
        return Some(OwnerRefusal);
      }
      if accounts[target].admin && accounts[target].active {
        var admins := CountAdmins(accounts);
        if admins <= 1 {
          return Some(LastAdmin);
        }
      }
      return None;
    }

    method DemoteAccount(target: Id) returns (why: Option<Refusal>)
      requires Owned(accounts) && PeopleRule(accounts)
      modifies this
      ensures match why case None => Demote(old(accounts), target) == Done(accounts)
                        case Some(r) => Demote(old(accounts), target) == Refused(r) && accounts == old(accounts)
      ensures why.None? <==> target in old(accounts) && !old(accounts)[target].owner
      ensures why.None? ==> accounts == old(accounts)[target := old(accounts)[target].(admin := false)]
      ensures Owned(accounts) && PeopleRule(accounts)
    {
      why := Guard(target);
      if why.None? {
        GuardedKeeps(accounts, target, accounts[target].(admin := false));
        accounts := accounts[target := accounts[target].(admin := false)];
      }
    }

    method DeactivateAccount(target: Id) returns (why: Option<Refusal>)
      requires Owned(accounts) && PeopleRule(accounts)
      modifies this
      ensures match why case None => Deactivate(old(accounts), target) == Done(accounts)
                        case Some(r) => Deactivate(old(accounts), target) == Refused(r) && accounts == old(accounts)
      ensures why.None? <==> target in old(accounts) && !old(accounts)[target].owner
      ensures why.None? ==> accounts == old(accounts)[target := old(accounts)[target].(active := false)]
      ensures Owned(accounts) && PeopleRule(accounts)
    {
      why := Guard(target);
      if why.None? {
        GuardedKeeps(accounts, target, accounts[target].(active := false));
        accounts := accounts[target := accounts[target].(active := false)];
      }
    }

    /** DeleteAccount: what it refuses before the departure, and the locked
        write after. `allowed` is the server's policy, `recent` the sign-in's
        age, `departed` whether the spaces they own found an heir. */
    method DeleteAccount(user: Id, allowed: bool, recent: bool, departed: bool) returns (why: Option<Refusal>)
      requires Owned(accounts) && PeopleRule(accounts) && user in accounts
      modifies this
      ensures why.None? ==> DeleteLocked(old(accounts), user) == Done(accounts)
      ensures why.None? ==> accounts == old(accounts)[user := old(accounts)[user].(active := false, deleted := true)]
      ensures why.Some? ==> accounts == old(accounts)
      ensures var a := old(accounts)[user];
              (a.admin ==> a.active) ==>
                (why.None? <==> allowed && recent && departed && !a.bot && !a.owner && !a.deleted)
      ensures Owned(accounts) && PeopleRule(accounts)
    {
      LastAdminNeverFires(accounts, user);
      if accounts[user].bot {
        return Some(BotRefusal);
      }
      if !allowed {
        return Some(NotAllowed);
      }
      if !recent {
        return Some(SignInTooOld);
      }
      if accounts[user].admin && accounts[user].active {
        EarlyLastAdminNow(accounts, user);
      }
      why := EarlyRefuses(accounts[user], CountAdmins(accounts));
      if why.Some? {
        return;
      }
      if !departed {
        return Some(NoHeir);
      }
      why := Guard(user);
      if why.None? && accounts[user].deleted {
        why := Some(NotFound);
      }
      if why.None? {
        GuardedKeeps(accounts, user, accounts[user].(active := false, deleted := true));
        accounts := accounts[user := accounts[user].(active := false, deleted := true)];
      }
    }

    /** TransferOwnership: the owner cleared, then set. */
    method TransferOwnership(from: Option<Id>, to: Id) returns (why: Option<Refusal>)
      requires Owned(accounts) && PeopleRule(accounts)
      modifies this
      ensures match why case None => Transfer(old(accounts), from, to) == Done(accounts) && OwnedBy(accounts, to)
                        case Some(r) => Transfer(old(accounts), from, to) == Refused(r) && accounts == old(accounts)
      ensures why.None? ==> accounts.Keys == old(accounts).Keys && forall id :: id in accounts ==>
        accounts[id] == old(accounts)[id].(owner := id == to)
      ensures Owned(accounts) && PeopleRule(accounts)
    {
      TransferKeeps(accounts, from, to);
      if from.Some? {
        if from.value !in accounts {
          return Some(NotFound);
        }
        if !accounts[from.value].owner {
          return Some(NotOwner);
        }
      }
      if to !in accounts {
        return Some(NotFound);
      }
      if accounts[to].owner {
        return None;
      }
      if accounts[to].bot {
        return Some(BotRefusal);
      }
      if !accounts[to].active {
        return Some(NotActive);
      }
      if !accounts[to].admin {
        return Some(NotAdmin);
      }
      accounts := map id | id in accounts :: accounts[id].(owner := false);
      accounts := accounts[to := accounts[to].(owner := true)];
      return None;
    }
  }

  lemma EarlyLastAdminNow(accounts: Accounts, user: Id)
    requires Owned(accounts) && user in ActiveAdmins(accounts)
    ensures EarlyRefuses(accounts[user], CountAdmins(accounts)) == if accounts[user].owner then Some(OwnerRefusal) else None
  {
    if !accounts[user].owner {
      EarlyLastAdmin(accounts[user], accounts, user);
    }
  }
}
