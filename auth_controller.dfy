/** registerUser of controllers/authController.js: a new account, and the conversion of the
    invitations waiting for its e-mail into memberships. */
module AuthController {
  import opened Common
  import opened Text
  import opened GroupModel
  import opened Membership
  import opened Database
  import ExpenseModel
  import Conversion
  import PendingModel
  import GroupController

  /** The body of `POST /api/auth/register`. */
  datatype SignUp = SignUp(name: Option<string>, email: Option<string>, password: Option<string>)

  /** The answer: the new account and, when invitations were converted, how many groups. */
  datatype Registration = Registration(user: User, convertedGroups: Option<nat>)

  /** The shortest password accepted. */
  const MinPassword: nat := 6

  /** All three fields are given and non-empty. */
  predicate Filled(req: SignUp)
  {
    Present(req.name) && Present(req.email) && Present(req.password)
  }

  /** The stored form of the account: `name` trimmed, `email` lower-cased and trimmed. Both
      are required, so blank text fails validation. */
  predicate Storable(req: SignUp)
    requires Filled(req)
  {
    Trim(req.name.value) != "" && GroupController.InviteKey(req.email.value) != ""
  }

  /** Every check passes. */
  predicate Admitted(users: map<Id, User>, req: SignUp)
  {
    && Filled(req)
    && |req.password.value| >= MinPassword
    && !GroupController.HasAccount(users, GroupController.InviteKey(req.email.value))
    && Storable(req)
  }

  /** `populate('groups')`: the invited groups that still exist, in stored order. */
  function LiveGroups(groups: map<Id, Group>, gids: seq<Id>): (r: seq<Id>)
    ensures forall g :: g in r <==> g in gids && g in groups
    ensures |r| <= |gids|
    ensures (forall i :: 0 <= i < |gids| ==> gids[i] in groups) ==> r == gids
  {
    if gids == [] then []
    else
      var rest := LiveGroups(groups, gids[..|gids| - 1]);
      var last := gids[|gids| - 1];
      assert gids == gids[..|gids| - 1] + [last];
      if last in groups then rest + [last] else rest
  }

  /** `populate` keeps every existing group as often as it is listed, and no deleted one. */
  lemma {:induction false} LiveGroupsCount(groups: map<Id, Group>, gids: seq<Id>)
    ensures forall g :: multiset(LiveGroups(groups, gids))[g] == if g in groups then multiset(gids)[g] else 0
    decreases |gids|
  {
    if gids != [] {
      var last := gids[|gids| - 1];
      assert gids == gids[..|gids| - 1] + [last];
      assert multiset(gids) == multiset(gids[..|gids| - 1]) + multiset([last]);
      LiveGroupsCount(groups, gids[..|gids| - 1]);
    }
  }

  /** Dropping deleted groups from a concatenation drops them from each part, in order. */
  lemma {:induction false} LiveGroupsAppend(groups: map<Id, Group>, a: seq<Id>, b: seq<Id>)
    ensures LiveGroups(groups, a + b) == LiveGroups(groups, a) + LiveGroups(groups, b)
    decreases |b|
  {
    if b == [] {
      assert a + b == a;
    } else {
      var b' := b[..|b| - 1];
      assert (a + b)[..|a + b| - 1] == a + b';
      assert (a + b)[|a + b| - 1] == b[|b| - 1];
      LiveGroupsAppend(groups, a, b');
    }
  }

  /** A pending record exists for the e-mail and lists some live group: the branch that
      converts invitations. */
  predicate Invited(pending: map<string, PendingModel.PendingMember>, groups: map<Id, Group>, key: string)
  {
    key in pending && LiveGroups(groups, pending[key].groups) != []
  }

  /** The invitation branch is taken but `pendingMember.save()` throws: the record was
      stored by an upsert with a name that trims to nothing, which `required` rejects. */
  predicate SaveRejected(pending: map<string, PendingModel.PendingMember>, groups: map<Id, Group>, key: string)
  {
    Invited(pending, groups, key) && !PendingModel.Valid(pending[key])
  }

  /** The groups after the loop reconciled the groups `gids` in turn. */
  function ReconcileAll(groups: map<Id, Group>, gids: seq<Id>, key: string, uid: Id): (r: map<Id, Group>)
    ensures r.Keys == groups.Keys
  {
    if gids == [] then groups
    else
      var prev := ReconcileAll(groups, gids[..|gids| - 1], key, uid);
      var g := gids[|gids| - 1];
      if g in prev then prev[g := ReconcileGroup(prev[g], key, uid)] else prev
  }

  /** The records after the loop converted the groups `gids` in turn. */
  function ConvertAll(es: seq<ExpenseModel.Expense>, gids: seq<Id>, email: string, uid: Id): (r: seq<ExpenseModel.Expense>)
    ensures |r| == |es|
  {
    if gids == [] then es
    else Conversion.ConvertGroup(ConvertAll(es, gids[..|gids| - 1], email, uid), gids[|gids| - 1], email, uid)
  }

  /** What the loop does to the groups: each listed group is reconciled once, whatever
      its repetitions; every other group is unchanged. */
  lemma {:induction false} ReconcileAllEffect(groups: map<Id, Group>, gids: seq<Id>, key: string, uid: Id)
    ensures forall g :: g in groups && g !in gids ==> ReconcileAll(groups, gids, key, uid)[g] == groups[g]
    ensures forall g :: g in groups && g in gids ==>
              ReconcileAll(groups, gids, key, uid)[g] == ReconcileGroup(groups[g], key, uid)
  {
    if gids != [] {
      var init, last := gids[..|gids| - 1], gids[|gids| - 1];
      assert gids == init + [last];
      ReconcileAllEffect(groups, init, key, uid);
      var prev := ReconcileAll(groups, init, key, uid);
      var r := ReconcileAll(groups, gids, key, uid);
      forall g | g in groups
        ensures r[g] == (if g in gids then ReconcileGroup(groups[g], key, uid) else groups[g])
      {
        if g == last && last in init {
          ReconcileIdempotent(groups[last], key, uid);
        }
      }
    }
  }

  /** After the loop the user is a member of every listed group, with no pending entry
      left for the e-mail. */
  lemma Reconciled(groups: map<Id, Group>, gids: seq<Id>, email: string, uid: Id, g: Id)
    requires g in groups && g in gids
    ensures uid in ReconcileAll(groups, gids, Lower(email), uid)[g].members
    ensures !IsPendingIn(ReconcileAll(groups, gids, Lower(email), uid)[g].pendingMembers, email)
  {
    ReconcileAllEffect(groups, gids, Lower(email), uid);
    var r := ReconcileGroup(groups[g], Lower(email), uid);
    assert ReconcileAll(groups, gids, Lower(email), uid)[g] == r;
    assert forall i :: 0 <= i < |r.pendingMembers| ==> Lower(r.pendingMembers[i].email) != Lower(email);
  }

  /** The order in which the invited groups are visited does not matter. */
  lemma ReconcileAllOrder(groups: map<Id, Group>, a: seq<Id>, b: seq<Id>, key: string, uid: Id)
    requires forall g :: g in a <==> g in b
    ensures ReconcileAll(groups, a, key, uid) == ReconcileAll(groups, b, key, uid)
  {
    ReconcileAllEffect(groups, a, key, uid);
    ReconcileAllEffect(groups, b, key, uid);
    var ra, rb := ReconcileAll(groups, a, key, uid), ReconcileAll(groups, b, key, uid);
    assert forall g :: g in ra ==> ra[g] == rb[g];
  }

  /** What the loop does to the records: a record of a listed group is converted once,
      whatever the repetitions; any other record is unchanged. */
  lemma {:induction false} ConvertAllEffect(es: seq<ExpenseModel.Expense>, gids: seq<Id>, email: string, uid: Id)
    requires forall i :: 0 <= i < |es| ==> ExpenseModel.Normal(es[i])
    ensures forall i :: 0 <= i < |es| ==>
              ConvertAll(es, gids, email, uid)[i]
              == (if es[i].group in gids then Conversion.ConvertRecord(es[i], es[i].group, email, uid) else es[i])
  {
    if gids != [] {
      var init, last := gids[..|gids| - 1], gids[|gids| - 1];
      assert gids == init + [last];
      ConvertAllEffect(es, init, email, uid);
      forall i | 0 <= i < |es| && es[i].group == last && last in init
        ensures Conversion.ConvertRecord(Conversion.ConvertRecord(es[i], last, email, uid), last, email, uid)
                == Conversion.ConvertRecord(es[i], last, email, uid)
      {
        Conversion.ConvertRecordIdempotent(es[i], last, email, uid);
      }
    }
  }

  /** After the loop no record of a listed group keeps a pending split for the e-mail. */
  lemma ConvertAllClears(es: seq<ExpenseModel.Expense>, gids: seq<Id>, email: string, uid: Id)
    requires forall i :: 0 <= i < |es| ==> ExpenseModel.Normal(es[i])
    ensures forall i, k :: 0 <= i < |es| && es[i].group in gids && 0 <= k < |ConvertAll(es, gids, email, uid)[i].splits| ==>
              !Conversion.Matches(ConvertAll(es, gids, email, uid)[i].splits[k], email)
  {
    ConvertAllEffect(es, gids, email, uid);
    forall i | 0 <= i < |es| && es[i].group in gids
      ensures ConvertAll(es, gids, email, uid)[i].splits == Conversion.ConvertSplits(es[i].splits, email, uid)
    {
      Conversion.ConvertRecordInGroup(es[i], es[i].group, email, uid);
    }
  }

  /** The order in which the invited groups are visited does not matter. */
  lemma ConvertAllOrder(es: seq<ExpenseModel.Expense>, a: seq<Id>, b: seq<Id>, email: string, uid: Id)
    requires forall i :: 0 <= i < |es| ==> ExpenseModel.Normal(es[i])
    requires forall g :: g in a <==> g in b
    ensures ConvertAll(es, a, email, uid) == ConvertAll(es, b, email, uid)
  {
    ConvertAllEffect(es, a, email, uid);
    ConvertAllEffect(es, b, email, uid);
  }

  /** The collections and the answer after the invitation step. */
  datatype Joined = Joined(groups: map<Id, Group>, expenses: seq<ExpenseModel.Expense>,
                           pending: map<string, PendingModel.PendingMember>, converted: Option<nat>)

  /** The invitation step of registerUser for the account `uid` with e-mail `email`, whose
      stored form is `key`. When the pending record for `key` lists some live group, every
      live group is reconciled and converted with the lower-cased e-mail; then the record
      is marked registered and the number of live groups is reported. When that last save
      is rejected (`SaveRejected`), the groups and records stay written, the pending
      records are unchanged and no count is reported. Without a live invited group
      nothing changes. */
  function Join(groups: map<Id, Group>, es: seq<ExpenseModel.Expense>,
                pending: map<string, PendingModel.PendingMember>, key: string, email: string, uid: Id): Joined
  {
    if Invited(pending, groups, key) then
      var p := pending[key];
      var live := LiveGroups(groups, p.groups);
      var groups', es' := ReconcileAll(groups, live, Lower(email), uid), ConvertAll(es, live, Lower(email), uid);
      if PendingModel.Valid(p) then
        Joined(groups', es', pending[key := p.(status := PendingModel.Registered)], Some(|live|))
      else Joined(groups', es', pending, None)
    else Joined(groups, es, pending, None)
  }

  /** What registration promises an invitee: the count is reported exactly when some
      invited group still exists and the pending record passes validation; the user
      belongs to every invited group, which keeps no pending entry for the e-mail, and no
      record of those groups keeps a pending split for it (even when the final save is
      rejected); groups that were not invited and their records are unchanged; the pending
      record for `key` is marked registered exactly when the count is reported, and no
      other pending record changes. */
  lemma JoinEffect(groups: map<Id, Group>, es: seq<ExpenseModel.Expense>,
                   pending: map<string, PendingModel.PendingMember>, key: string, email: string, uid: Id)
    requires forall i :: 0 <= i < |es| ==> ExpenseModel.Normal(es[i])
    ensures Join(groups, es, pending, key, email, uid).converted.Some? <==>
              Invited(pending, groups, key) && !SaveRejected(pending, groups, key)
    ensures Join(groups, es, pending, key, email, uid).pending ==
              if Invited(pending, groups, key) && !SaveRejected(pending, groups, key)
              then pending[key := pending[key].(status := PendingModel.Registered)] else pending
    ensures Join(groups, es, pending, key, email, uid).groups.Keys == groups.Keys
    ensures |Join(groups, es, pending, key, email, uid).expenses| == |es|
    ensures forall g :: g in groups && key in pending && g in pending[key].groups ==>
              uid in Join(groups, es, pending, key, email, uid).groups[g].members
              && !IsPendingIn(Join(groups, es, pending, key, email, uid).groups[g].pendingMembers, email)
    ensures forall g :: g in groups && !(key in pending && g in pending[key].groups) ==>
              Join(groups, es, pending, key, email, uid).groups[g] == groups[g]
    ensures forall i, k :: 0 <= i < |es| && es[i].group in groups && key in pending && es[i].group in pending[key].groups
                           && 0 <= k < |Join(groups, es, pending, key, email, uid).expenses[i].splits| ==>
              !Conversion.Matches(Join(groups, es, pending, key, email, uid).expenses[i].splits[k], email)
    ensures forall i :: 0 <= i < |es| && !(es[i].group in groups && key in pending && es[i].group in pending[key].groups) ==>
              Join(groups, es, pending, key, email, uid).expenses[i] == es[i]
    ensures forall k :: k in pending && k != key ==> Join(groups, es, pending, key, email, uid).pending[k] == pending[k]
    ensures key in pending && pending[key].groups != [] && PendingModel.Valid(pending[key])
            && (forall i :: 0 <= i < |pending[key].groups| ==> pending[key].groups[i] in groups) ==>
              Join(groups, es, pending, key, email, uid).converted == Some(|pending[key].groups|)
  {
    if Invited(pending, groups, key) {
      var live := LiveGroups(groups, pending[key].groups);
      ReconcileAllEffect(groups, live, Lower(email), uid);
      ConvertAllEffect(es, live, Lower(email), uid);
      ConvertAllClears(es, live, Lower(email), uid);
      forall g | g in groups && g in live
        ensures uid in ReconcileAll(groups, live, Lower(email), uid)[g].members
        ensures !IsPendingIn(ReconcileAll(groups, live, Lower(email), uid)[g].pendingMembers, email)
      {
        Reconciled(groups, live, email, uid, g);
      }
      forall i | 0 <= i < |es| && es[i].group in live
        ensures forall k :: 0 <= k < |ConvertAll(es, live, Lower(email), uid)[i].splits| ==>
                  !Conversion.Matches(ConvertAll(es, live, Lower(email), uid)[i].splits[k], email)
      {
        LowerIdempotent(email);
      }
    }
  }

  /** registerUser. It refuses missing fields, a password shorter than six characters, an
      e-mail some account already has, and a name or e-mail that is blank once stored,
      changing nothing. Otherwise it creates the account and performs the invitation
      step (see `Join` and `JoinEffect`); when the step's final save is rejected the
      request fails with `ValidationFailed` after the account, the groups and the records
      were written. */
  method RegisterUser(db: Database, req: SignUp) returns (r: Result<Registration>)
    requires db.Valid()
    modifies db
    ensures db.Valid()
    ensures r == Err(MissingFields) <==> !Filled(req)
    ensures r == Err(ShortPassword) <==> Filled(req) && |req.password.value| < MinPassword
    ensures r == Err(UserExists) <==>
      Filled(req) && |req.password.value| >= MinPassword
      && GroupController.HasAccount(old(db.users), GroupController.InviteKey(req.email.value))
    ensures r == Err(ValidationFailed) <==>
      Filled(req) && |req.password.value| >= MinPassword
      && !GroupController.HasAccount(old(db.users), GroupController.InviteKey(req.email.value))
      && (!Storable(req) || SaveRejected(old(db.pending), old(db.groups), GroupController.InviteKey(req.email.value)))
    ensures r.Ok? <==>
      Admitted(old(db.users), req)
      && !SaveRejected(old(db.pending), old(db.groups), GroupController.InviteKey(req.email.value))
    ensures !Admitted(old(db.users), req) ==> unchanged(db)
    ensures Admitted(old(db.users), req) ==>
      var uid, key := old(db.nextId), GroupController.InviteKey(req.email.value);
      var user, j := User(uid, Trim(req.name.value), key),
                     Join(old(db.groups), old(db.expenses), old(db.pending), key, req.email.value, uid);
      && db.users == old(db.users)[uid := user] && db.nextId == old(db.nextId) + 1
      && db.groups == j.groups && db.expenses == j.expenses && db.pending == j.pending
      && (r.Ok? ==> r.value == Registration(user, j.converted))
  {
    if !Filled(req) {
      return Err(MissingFields);
    }
    if |req.password.value| < MinPassword {
      return Err(ShortPassword);
    }
    var key := GroupController.InviteKey(req.email.value);
    var existing := db.FindUserByEmail(key);
    if existing.Some? {
      return Err(UserExists);
    }
    if !Storable(req) {
      return Err(ValidationFailed);
    }
    r := CreateAccount(db, User(db.nextId, Trim(req.name.value), key), req.email.value);
  }

  /** `User.create` once every check has passed, then the invitation step for the
      account's raw e-mail `email`. The account stays created when the step fails. */
  method CreateAccount(db: Database, user: User, email: string) returns (r: Result<Registration>)
    requires db.Valid() && user.id == db.nextId && UserWellFormed(user)
    requires forall v :: v in db.users ==> db.users[v].email != user.email
    modifies db
    ensures db.Valid()
    ensures db.users == old(db.users)[user.id := user] && db.nextId == old(db.nextId) + 1
    ensures var j := Join(old(db.groups), old(db.expenses), old(db.pending), user.email, email, user.id);
      && db.groups == j.groups && db.expenses == j.expenses && db.pending == j.pending
      && r == if SaveRejected(old(db.pending), old(db.groups), user.email) then Err(ValidationFailed)
              else Ok(Registration(user, j.converted))
  {
    db.InsertUser(user);
    var converted := JoinInvitedGroups(db, user.email, email, user.id);
    if converted.Err? {
      return Err(converted.error);
    }
    r := Ok(Registration(user, converted.value));
  }

  /** The invitation step on the collections: the loop over the live invited groups, then
      `pendingMember.save()` with the status set to registered, which throws when the
      record fails validation. */
  method JoinInvitedGroups(db: Database, key: string, email: string, uid: Id) returns (r: Result<Option<nat>>)
    requires db.Valid()
    modifies db`groups, db`expenses, db`pending
    ensures db.Valid()
    ensures var j := Join(old(db.groups), old(db.expenses), old(db.pending), key, email, uid);
      && db.groups == j.groups && db.expenses == j.expenses && db.pending == j.pending
      && r == if SaveRejected(old(db.pending), old(db.groups), key) then Err(ValidationFailed) else Ok(j.converted)
  {
    if key in db.pending {
      var p := db.pending[key];
      var live := LiveGroups(db.groups, p.groups);
      if live != [] {
        JoinAll(db, live, Lower(email), uid);
        if !PendingModel.Valid(p) {
          return Err(ValidationFailed);
        }
        var registered := p.(status := PendingModel.Registered);
        assert PendingModel.WellFormed(registered) && registered.email == key;
        db.SavePending(registered);
        return Ok(Some(|live|));
      }
    }
    return Ok(None);
  }

  /** The loop over the live invited groups: reconcile and save each group, then convert
      its records. */
  method JoinAll(db: Database, live: seq<Id>, email: string, uid: Id)
    requires db.Valid()
    requires forall k :: 0 <= k < |live| ==> live[k] in db.groups
    modifies db`groups, db`expenses
    ensures db.Valid()
    ensures db.groups == ReconcileAll(old(db.groups), live, email, uid)
    ensures db.expenses == ConvertAll(old(db.expenses), live, email, uid)
  {
    ghost var g0, e0 := db.groups, db.expenses;
    for i := 0 to |live|
      invariant db.Valid()
      invariant db.groups == ReconcileAll(g0, live[..i], email, uid)
      invariant db.expenses == ConvertAll(e0, live[..i], email, uid)
    {
      var gid := live[i];
      assert live[..i + 1][..i] == live[..i];
      db.SaveGroup(ReconcileGroup(db.groups[gid], email, uid));
      GroupController.ConvertPendingMemberExpenses(db, gid, email, uid);
    }
    assert live[..|live|] == live;
  }

  /** An invitation whose name is white space only (truthy, so addMember accepts it) is
      upserted with the name trimmed to nothing; registering that e-mail while the group
      exists then fails at the final save. */
  lemma BlankInviteRejectsRegistration(pending: map<string, PendingModel.PendingMember>, groups: map<Id, Group>,
                                       key: string, name: string, actor: Id, gid: Id)
    requires IsLower(key) && Trimmed(key) && gid in groups
    requires forall i :: 0 <= i < |name| ==> IsSpace(name[i])
    ensures SaveRejected(pending[key := GroupController.Invite(pending, key, name, actor, gid)], groups, key)
  {
    var p := GroupController.Invite(pending, key, name, actor, gid);
    assert gid in LiveGroups(groups, p.groups);
  }
}
