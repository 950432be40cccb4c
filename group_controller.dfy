/** The request handlers of controllers/groupController.js over the in-memory collections,
    and its helper `convertPendingMemberExpenses` (also duplicated in
    controllers/authController.js). */
module GroupController {
  import opened Common
  import opened Text
  import opened GroupModel
  import opened Membership
  import opened Balances
  import opened Database
  import ExpenseModel
  import Ledger
  import Conversion
  import PendingModel

  // ----- convertPendingMemberExpenses -----

  /** The loop of `convertPendingMemberExpenses`: every record the query selects gets its
      splits rewritten and is saved, in stored order; no other record is touched. The
      rewrite keeps every record well-formed, so no save fails and the `catch` is never
      reached. */
  method ConvertPendingMemberExpenses(db: Database, gid: Id, email: string, uid: Id)
    requires db.Valid()
    modifies db`expenses
    ensures db.Valid()
    ensures db.expenses == Conversion.ConvertGroup(old(db.expenses), gid, email, uid)
  {
    ghost var es := db.expenses;
    var i := 0;
    while i < |db.expenses|
      invariant 0 <= i <= |db.expenses| == |es|
      invariant db.Valid()
      invariant forall k :: 0 <= k < i ==> db.expenses[k] == Conversion.ConvertRecord(es[k], gid, email, uid)
      invariant forall k :: i <= k < |es| ==> db.expenses[k] == es[k]
    {
      var e := db.expenses[i];
      if Conversion.Selected(e, gid, email) {
        Conversion.ConvertRecordWellFormed(e, gid, email, uid);
        db.SaveExpense(i, e.(splits := Conversion.ConvertSplits(e.splits, email, uid)));
      }
      i := i + 1;
    }
  }

  // ----- createGroup -----

  /** The body of `POST /api/groups`. */
  datatype NewGroup = NewGroup(name: Option<string>, currency: Option<string>, members: Option<seq<Id>>,
                               icon: Option<string>, image: Option<string>)

  /** createGroup. It refuses a missing name and a name that is blank once trimmed (the
      schema's `required`), changing nothing. Otherwise it stores a new group created by
      the requester, whose members are the requester followed by the listed ids, with no
      pending entries and the currency upper-cased, USD by default. */
  method CreateGroup(db: Database, actor: Id, req: NewGroup) returns (r: Result<Group>)
    requires db.Valid()
    modifies db
    ensures db.Valid()
    ensures r == Err(MissingFields) <==> !Present(req.name)
    ensures r == Err(ValidationFailed) <==> Present(req.name) && Trim(req.name.value) == ""
    ensures r.Ok? <==> Present(req.name) && Trim(req.name.value) != ""
    ensures r.Err? ==> unchanged(db)
    ensures r.Ok? ==>
      var g := r.value;
      && g.id == old(db.nextId) && g.id !in old(db.groups)
      && db.groups == old(db.groups)[g.id := g] && db.nextId == old(db.nextId) + 1
      && db.users == old(db.users) && db.expenses == old(db.expenses) && db.pending == old(db.pending)
      && g.name == Trim(req.name.value)
      && g.currency == Upper(OrElse(req.currency, DefaultCurrency))
      && (!Present(req.currency) ==> g.currency == "USD")
      && g.icon == Truthy(req.icon) && g.image == Truthy(req.image)
      && g.members == InitialMembers(actor, req.members)
      && g.pendingMembers == [] && g.createdBy == actor
      && IsCreator(g, actor) && IsMember(g, actor)
  {
    if !Present(req.name) {
      return Err(MissingFields);
    }
    UpperOfUpper(DefaultCurrency);
    var g := Group(db.nextId, Trim(req.name.value), Upper(OrElse(req.currency, DefaultCurrency)),
                   Truthy(req.icon), Truthy(req.image), InitialMembers(actor, req.members), [], actor);
    if !GroupModel.Valid(g) {
      return Err(ValidationFailed);
    }
    db.InsertGroup(g);
    r := Ok(g);
  }

  // ----- updateGroup -----

  /** The body of `PUT /api/groups/:id`. `icon` and `image` distinguish an absent field
      (None) from an explicit null (Some(None)). */
  datatype GroupEdit = GroupEdit(name: Option<string>, currency: Option<string>,
                                 icon: Option<Option<string>>, image: Option<Option<string>>)

  /** The group after the assignments of updateGroup: falsy name and currency keep the old
      value, icon and image are kept only when absent, and the setters apply. Members,
      pending entries and creator never change, and the setter guarantees survive. */
  function EditedGroup(g: Group, req: GroupEdit): (r: Group)
    ensures r == g.(name := r.name, currency := r.currency, icon := r.icon, image := r.image)
    ensures r.name == (if Present(req.name) then Trim(req.name.value) else g.name)
    ensures r.currency == (if Present(req.currency) then Upper(req.currency.value) else g.currency)
    ensures r.icon == (if req.icon.Some? then req.icon.value else g.icon)
    ensures r.image == (if req.image.Some? then req.image.value else g.image)
    ensures GroupModel.Normal(g) ==> GroupModel.Normal(r)
    ensures req == GroupEdit(None, None, None, None) ==> r == g
  {
    g.(name := if Present(req.name) then Trim(req.name.value) else g.name,
       currency := if Present(req.currency) then Upper(req.currency.value) else g.currency,
       icon := if req.icon.Some? then req.icon.value else g.icon,
       image := if req.image.Some? then req.image.value else g.image)
  }

  /** updateGroup. It refuses an unknown group, a requester who is not the creator, and a
      name that is blank once trimmed, changing nothing; otherwise the group becomes
      `EditedGroup`. */
  method UpdateGroup(db: Database, actor: Id, gid: Id, req: GroupEdit) returns (r: Result<Group>)
    requires db.Valid()
    modifies db`groups
    ensures db.Valid()
    ensures r == Err(GroupNotFound) <==> gid !in old(db.groups)
    ensures r == Err(NotCreator) <==> gid in old(db.groups) && old(db.groups)[gid].createdBy != actor
    ensures r == Err(ValidationFailed) <==>
      gid in old(db.groups) && old(db.groups)[gid].createdBy == actor
      && !GroupModel.Valid(EditedGroup(old(db.groups)[gid], req))
    ensures r.Ok? <==>
      gid in old(db.groups) && old(db.groups)[gid].createdBy == actor
      && GroupModel.Valid(EditedGroup(old(db.groups)[gid], req))
    ensures r.Err? ==> db.groups == old(db.groups)
    ensures r.Ok? ==>
      gid in old(db.groups) && r.value == EditedGroup(old(db.groups)[gid], req)
      && db.groups == old(db.groups)[gid := r.value]
  {
    if gid !in db.groups {
      return Err(GroupNotFound);
    }
    var g := db.groups[gid];
    if g.createdBy != actor {
      return Err(NotCreator);
    }
    if Present(req.name) {
      g := g.(name := Trim(req.name.value));
    }
    if Present(req.currency) {
      g := g.(currency := Upper(req.currency.value));
    }
    if req.icon.Some? {
      g := g.(icon := req.icon.value);
    }
    if req.image.Some? {
      g := g.(image := req.image.value);
    }
    if !GroupModel.Valid(g) {
      return Err(ValidationFailed);
    }
    db.SaveGroup(g);
    r := Ok(g);
  }

  // ----- addMember -----

  /** The body of `POST /api/groups/:id/members`. */
  datatype MemberRequest = MemberRequest(userId: Option<Id>, email: Option<string>, name: Option<string>)

  /** The e-mail as the User and PendingMember schemas store it, and so as their lookups
      (`findOne({ email: email.toLowerCase() })`) compare it. */
  function InviteKey(email: string): (k: string)
    ensures exists i, j :: 0 <= i <= j <= |email| && SpaceOutside(email, i, j) && k == Lower(email[i..j])
    ensures IsLower(k) && Trimmed(k)
  {
    var l := Lower(email);
    var k := NormEmail(l);
    var i, j :| 0 <= i <= j <= |l| && SpaceOutside(l, i, j) && k == Lower(l[i..j]);
    LowerKeepsSpace(email, i, j);
    LowerIdempotent(email[i..j]);
    k
  }

  /** Some account has this stored e-mail. */
  predicate HasAccount(users: map<Id, User>, key: string)
  {
    exists v :: v in users && users[v].email == key
  }

  /** The account with this stored e-mail is in `members`. */
  predicate AccountIn(users: map<Id, User>, key: string, members: seq<Id>)
  {
    exists v :: v in users && users[v].email == key && v in members
  }

  /** The requester may change the group's members. */
  predicate MemberAdmitted(groups: map<Id, Group>, actor: Id, gid: Id)
  {
    gid in groups && actor in groups[gid].members
  }

  /** The invite branch is taken: no user id, and both e-mail and name given. */
  predicate ByEmail(req: MemberRequest)
  {
    req.userId.None? && Present(req.email) && Present(req.name)
  }

  /** The pending record after the upsert of an invitation to group `gid`: e-mail, name
      (trimmed) and inviter are overwritten, the group joins `groups` only if absent, and
      the status of an existing record is kept (a new one starts as 'pending'). */
  function Invite(pending: map<string, PendingModel.PendingMember>, key: string, name: string,
                  actor: Id, gid: Id): (p: PendingModel.PendingMember)
    requires IsLower(key) && Trimmed(key)
    ensures p.email == key && p.name == Trim(name) && p.invitedBy == actor
    ensures gid in p.groups
    ensures key in pending ==>
      p.groups == AddToSet(pending[key].groups, gid) && p.status == pending[key].status
    ensures key !in pending ==> p.groups == [gid] && p.status == PendingModel.DefaultStatus
    ensures PendingModel.WellFormed(p)
  {
    if key in pending then
      PendingModel.PendingMember(key, Trim(name), actor, AddToSet(pending[key].groups, gid), pending[key].status)
    else
      PendingModel.PendingMember(key, Trim(name), actor, AddToSet([], gid), PendingModel.DefaultStatus)
  }

  /** Inviting the same e-mail to the same group again leaves the record as it was. */
  lemma InviteIdempotent(pending: map<string, PendingModel.PendingMember>, key: string, name: string,
                         actor: Id, gid: Id)
    requires IsLower(key) && Trimmed(key)
    ensures Invite(pending[key := Invite(pending, key, name, actor, gid)], key, name, actor, gid)
            == Invite(pending, key, name, actor, gid)
  {
    var p := Invite(pending, key, name, actor, gid);
    assert AddToSet(p.groups, gid) == p.groups;
  }

  /** The entry appended to `pendingMembers` by an invitation. */
  function PendingEntryFor(req: MemberRequest, actor: Id, now: Time): (pe: PendingEntry)
    requires ByEmail(req)
    ensures pe.email != "" && IsLower(pe.email) && pe.name != ""
    ensures Lower(pe.email) == Lower(req.email.value) && pe.invitedBy == Some(actor)
  {
    LowerIdempotent(req.email.value);
    PendingEntry(Lower(req.email.value), req.name.value, Some(actor), now)
  }

  /** Appending an entry with an e-mail, stored lower-cased, and a name keeps a group
      well-formed. */
  lemma Invited(g: Group, entry: PendingEntry)
    requires GroupModel.WellFormed(g)
    requires entry.email != "" && IsLower(entry.email) && entry.name != ""
    ensures GroupModel.WellFormed(g.(pendingMembers := g.pendingMembers + [entry]))
  {
    var pms := g.pendingMembers + [entry];
    assert forall i :: 0 <= i < |pms| ==> pms[i] == (if i < |g.pendingMembers| then g.pendingMembers[i] else entry);
  }

  /** addMember. After the group and membership checks it follows one of three branches.
      By user id: an unknown user or an existing member is refused; otherwise the user is
      appended and saved, the user's pending splits in the group are converted, and then
      the call to the unimported `Notification` throws, so the request fails with those
      changes made. By e-mail and name of an existing account: a member is refused, and
      otherwise the same throw comes before the save, so nothing changes. By e-mail and
      name of no account: an e-mail already pending in the group is refused; otherwise a
      pending entry is appended, the pending record is upserted with the group added, and
      the group is saved. Anything else is refused. */
  method AddMember(db: Database, actor: Id, gid: Id, req: MemberRequest, now: Time) returns (r: Result<Group>)
    requires db.Valid()
    modifies db
    ensures db.Valid()
    ensures r == Err(GroupNotFound) <==> gid !in old(db.groups)
    ensures r == Err(NotGroupMember) <==> gid in old(db.groups) && actor !in old(db.groups)[gid].members
    ensures r == Err(UserNotFound) <==>
      MemberAdmitted(old(db.groups), actor, gid) && req.userId.Some? && req.userId.value !in old(db.users)
    ensures r == Err(AlreadyMember) <==>
      MemberAdmitted(old(db.groups), actor, gid) &&
      ((req.userId.Some? && req.userId.value in old(db.users) && req.userId.value in old(db.groups)[gid].members)
       || (ByEmail(req) && AccountIn(old(db.users), InviteKey(req.email.value), old(db.groups)[gid].members)))
    ensures r == Err(NotificationUnavailable) <==>
      MemberAdmitted(old(db.groups), actor, gid) &&
      ((req.userId.Some? && req.userId.value in old(db.users) && req.userId.value !in old(db.groups)[gid].members)
       || (ByEmail(req) && HasAccount(old(db.users), InviteKey(req.email.value))
           && !AccountIn(old(db.users), InviteKey(req.email.value), old(db.groups)[gid].members)))
    ensures r == Err(AlreadyInvited) <==>
      MemberAdmitted(old(db.groups), actor, gid) && ByEmail(req)
      && !HasAccount(old(db.users), InviteKey(req.email.value))
      && IsPendingIn(old(db.groups)[gid].pendingMembers, req.email.value)
    ensures r == Err(MissingMemberFields) <==>
      MemberAdmitted(old(db.groups), actor, gid) && req.userId.None? && !ByEmail(req)
    ensures r.Ok? <==>
      MemberAdmitted(old(db.groups), actor, gid) && ByEmail(req)
      && !HasAccount(old(db.users), InviteKey(req.email.value))
      && !IsPendingIn(old(db.groups)[gid].pendingMembers, req.email.value)
    ensures r == Err(NotificationUnavailable) && req.userId.Some? ==>
      var g, uid := old(db.groups)[gid], req.userId.value;
      && db.groups == old(db.groups)[gid := g.(members := g.members + [uid])]
      && db.expenses == Conversion.ConvertGroup(old(db.expenses), gid, old(db.users)[uid].email, uid)
      && db.users == old(db.users) && db.pending == old(db.pending) && db.nextId == old(db.nextId)
    ensures r.Err? && !(r == Err(NotificationUnavailable) && req.userId.Some?) ==> unchanged(db)
    ensures r.Ok? ==>
      var g, key := old(db.groups)[gid], InviteKey(req.email.value);
      && r.value == g.(pendingMembers := g.pendingMembers + [PendingEntryFor(req, actor, now)])
      && db.groups == old(db.groups)[gid := r.value]
      && db.pending == old(db.pending)[key := Invite(old(db.pending), key, req.name.value, actor, gid)]
      && db.users == old(db.users) && db.expenses == old(db.expenses) && db.nextId == old(db.nextId)
  {
    if gid !in db.groups {
      return Err(GroupNotFound);
    }
    if actor !in db.groups[gid].members {
      return Err(NotGroupMember);
    }
    if req.userId.Some? {
      r := AddById(db, gid, req.userId.value);
    } else if Present(req.email) && Present(req.name) {
      r := AddByEmail(db, actor, gid, req, now);
    } else {
      r := Err(MissingMemberFields);
    }
  }

  /** The user-id branch of addMember. It never succeeds: after the user is appended, the
      group saved and the conversion done, the notification call throws. */
  method AddById(db: Database, gid: Id, uid: Id) returns (r: Result<Group>)
    requires db.Valid() && gid in db.groups
    modifies db
    ensures db.Valid()
    ensures r == Err(UserNotFound) <==> uid !in old(db.users)
    ensures r == Err(AlreadyMember) <==> uid in old(db.users) && uid in old(db.groups)[gid].members
    ensures r == Err(NotificationUnavailable) <==> uid in old(db.users) && uid !in old(db.groups)[gid].members
    ensures r != Err(NotificationUnavailable) ==> unchanged(db)
    ensures r == Err(NotificationUnavailable) ==>
      var g := old(db.groups)[gid];
      && db.groups == old(db.groups)[gid := g.(members := g.members + [uid])]
      && db.expenses == Conversion.ConvertGroup(old(db.expenses), gid, old(db.users)[uid].email, uid)
      && db.users == old(db.users) && db.pending == old(db.pending) && db.nextId == old(db.nextId)
  {
    var g := db.groups[gid];
    if uid !in db.users {
      return Err(UserNotFound);
    }
    if uid in g.members {
      return Err(AlreadyMember);
    }
    g := g.(members := g.members + [uid]);
    db.SaveGroup(g);
    ConvertPendingMemberExpenses(db, gid, db.users[uid].email, uid);
    r := Err(NotificationUnavailable);
  }

  /** The e-mail branch of addMember. */
  method AddByEmail(db: Database, actor: Id, gid: Id, req: MemberRequest, now: Time) returns (r: Result<Group>)
    requires db.Valid() && gid in db.groups && ByEmail(req)
    modifies db
    ensures db.Valid()
    ensures r == Err(AlreadyMember) <==>
      AccountIn(old(db.users), InviteKey(req.email.value), old(db.groups)[gid].members)
    ensures r == Err(NotificationUnavailable) <==>
      HasAccount(old(db.users), InviteKey(req.email.value))
      && !AccountIn(old(db.users), InviteKey(req.email.value), old(db.groups)[gid].members)
    ensures r == Err(AlreadyInvited) <==>
      !HasAccount(old(db.users), InviteKey(req.email.value))
      && IsPendingIn(old(db.groups)[gid].pendingMembers, req.email.value)
    ensures r.Ok? <==>
      !HasAccount(old(db.users), InviteKey(req.email.value))
      && !IsPendingIn(old(db.groups)[gid].pendingMembers, req.email.value)
    ensures r.Err? ==> unchanged(db)
    ensures r.Ok? ==>
      var g, key := old(db.groups)[gid], InviteKey(req.email.value);
      && r.value == g.(pendingMembers := g.pendingMembers + [PendingEntryFor(req, actor, now)])
      && db.groups == old(db.groups)[gid := r.value]
      && db.pending == old(db.pending)[key := Invite(old(db.pending), key, req.name.value, actor, gid)]
      && db.users == old(db.users) && db.expenses == old(db.expenses) && db.nextId == old(db.nextId)
  {
    var g := db.groups[gid];
    var key := InviteKey(req.email.value);
    var existing := db.FindUserByEmail(key);
    if existing.Some? {
      AccountLookup(db.users, key, existing.value, g.members);
      if existing.value in g.members {
        return Err(AlreadyMember);
      }
      return Err(NotificationUnavailable);
    }
    r := Invitation(db, actor, gid, req, now);
  }

  /** With e-mails unique, the account found for `key` is the only candidate. */
  lemma AccountLookup(users: map<Id, User>, key: string, v: Id, members: seq<Id>)
    requires forall a, b :: a in users && b in users && users[a].email == users[b].email ==> a == b
    requires v in users && users[v].email == key
    ensures AccountIn(users, key, members) <==> v in members
  {
  }

  /** The invite branch once no account has the e-mail: an e-mail already pending in the
      group is refused; otherwise the entry is appended and both writes happen. */
  method Invitation(db: Database, actor: Id, gid: Id, req: MemberRequest, now: Time) returns (r: Result<Group>)
    requires db.Valid() && gid in db.groups && ByEmail(req)
    modifies db`groups, db`pending
    ensures db.Valid()
    ensures r == Err(AlreadyInvited) <==> IsPendingIn(old(db.groups)[gid].pendingMembers, req.email.value)
    ensures r.Err? ==> r == Err(AlreadyInvited) && db.groups == old(db.groups) && db.pending == old(db.pending)
    ensures r.Ok? ==>
      var g, key := old(db.groups)[gid], InviteKey(req.email.value);
      && r.value == g.(pendingMembers := g.pendingMembers + [PendingEntryFor(req, actor, now)])
      && db.groups == old(db.groups)[gid := r.value]
      && db.pending == old(db.pending)[key := Invite(old(db.pending), key, req.name.value, actor, gid)]
  {
    var g := db.groups[gid];
    if IsPendingIn(g.pendingMembers, req.email.value) {
      return Err(AlreadyInvited);
    }
    var entry := PendingEntryFor(req, actor, now);
    Invited(g, entry);
    g := g.(pendingMembers := g.pendingMembers + [entry]);
    StoreInvite(db, g, Invite(db.pending, InviteKey(req.email.value), req.name.value, actor, gid));
    r := Ok(g);
  }

  /** The two writes of a new invitation: the upsert of the pending record, then the save
      of the group. */
  method StoreInvite(db: Database, g: Group, p: PendingModel.PendingMember)
    requires db.Valid() && g.id in db.groups && GroupModel.WellFormed(g) && PendingModel.WellFormed(p)
    modifies db`groups, db`pending
    ensures db.Valid()
    ensures db.groups == old(db.groups)[g.id := g] && db.pending == old(db.pending)[p.email := p]
  {
    db.SavePending(p);
    db.SaveGroup(g);
  }

  // ----- removeMember -----

  /** removeMember. It refuses an unknown group, and a requester who is neither the creator
      nor the user being removed. Otherwise every occurrence of the user leaves `members`;
      pending entries, the creator and the records are untouched. */
  method RemoveMember(db: Database, actor: Id, gid: Id, uid: Id) returns (r: Result<Group>)
    requires db.Valid()
    modifies db`groups
    ensures db.Valid()
    ensures r == Err(GroupNotFound) <==> gid !in old(db.groups)
    ensures r == Err(NotCreatorOrSelf) <==>
      gid in old(db.groups) && old(db.groups)[gid].createdBy != actor && uid != actor
    ensures r.Ok? <==> gid in old(db.groups) && (old(db.groups)[gid].createdBy == actor || uid == actor)
    ensures r.Err? ==> db.groups == old(db.groups)
    ensures r.Ok? ==>
      gid in old(db.groups)
      && r.value == old(db.groups)[gid].(members := RemoveAll(old(db.groups)[gid].members, uid))
      && db.groups == old(db.groups)[gid := r.value]
      && !IsMember(r.value, uid)
  {
    if gid !in db.groups {
      return Err(GroupNotFound);
    }
    var g := db.groups[gid];
    if g.createdBy != actor && uid != actor {
      return Err(NotCreatorOrSelf);
    }
    g := g.(members := RemoveAll(g.members, uid));
    db.SaveGroup(g);
    r := Ok(g);
  }

  // ----- deleteGroup -----

  /** deleteGroup. It refuses an unknown group and a requester who is not the creator;
      otherwise the group's records go, then the group. Pending records keep listing it. */
  method DeleteGroup(db: Database, actor: Id, gid: Id) returns (r: Result<Group>)
    requires db.Valid()
    modifies db`groups, db`expenses
    ensures db.Valid()
    ensures r == Err(GroupNotFound) <==> gid !in old(db.groups)
    ensures r == Err(NotCreator) <==> gid in old(db.groups) && old(db.groups)[gid].createdBy != actor
    ensures r.Ok? <==> gid in old(db.groups) && old(db.groups)[gid].createdBy == actor
    ensures r.Err? ==> db.groups == old(db.groups) && db.expenses == old(db.expenses)
    ensures r.Ok? ==>
      gid in old(db.groups) && r.value == old(db.groups)[gid]
      && db.groups == old(db.groups) - {gid}
      && db.expenses == OutsideGroup(old(db.expenses), gid)
      && forall k :: 0 <= k < |db.expenses| ==> db.expenses[k].group != gid
  {
    if gid !in db.groups {
      return Err(GroupNotFound);
    }
    var g := db.groups[gid];
    if g.createdBy != actor {
      return Err(NotCreator);
    }
    db.DeleteGroup(gid);
    r := Ok(g);
  }

  // ----- getGroupBalances -----

  /** `Expense.find({ group, type: 'EXPENSE' })`. */
  function GroupRecords(es: seq<ExpenseModel.Expense>, gid: Id): (r: seq<ExpenseModel.Expense>)
    ensures forall i :: 0 <= i < |r| ==> r[i].group == gid && r[i].kind == ExpenseModel.EXPENSE
    ensures forall e :: e in r <==> e in es && e.group == gid && e.kind == ExpenseModel.EXPENSE
  {
    Ledger.Select(es, (e: ExpenseModel.Expense) => e.group == gid && e.kind == ExpenseModel.EXPENSE)
  }

  /** Recording a payment, or a record of another group, selects the same records, so it
      never moves a balance. */
  lemma {:induction false} UnselectedAppend(es: seq<ExpenseModel.Expense>, e: ExpenseModel.Expense, gid: Id)
    requires e.kind == ExpenseModel.PAYMENT || e.group != gid
    ensures GroupRecords(es + [e], gid) == GroupRecords(es, gid)
  {
    assert (es + [e])[..|es|] == es;
  }

  /** getGroupBalances. It refuses an unknown group and a requester outside it. It fails
      when a selected record's payer has no account (`populate` leaves null, and
      `expense.payer._id` throws). When a record credits or debits an id outside the
      members, the entry would become NaN: that is reported as BalanceUndefined.
      Otherwise the sheet is the replay of the group's EXPENSE records, and it sums to
      zero. */
  method GetGroupBalances(db: Database, actor: Id, gid: Id) returns (r: Result<Sheet>)
    ensures r == Err(GroupNotFound) <==> gid !in db.groups
    ensures r == Err(NotGroupMember) <==> gid in db.groups && actor !in db.groups[gid].members
    ensures r == Err(MissingReference) <==>
      MemberAdmitted(db.groups, actor, gid) &&
      exists k :: 0 <= k < |GroupRecords(db.expenses, gid)| && GroupRecords(db.expenses, gid)[k].payer !in db.users
    ensures r == Err(BalanceUndefined) <==>
      MemberAdmitted(db.groups, actor, gid)
      && (forall k :: 0 <= k < |GroupRecords(db.expenses, gid)| ==> GroupRecords(db.expenses, gid)[k].payer in db.users)
      && !Covered(InitSheet(db.groups[gid]).members.Keys, GroupRecords(db.expenses, gid))
    ensures r.Ok? <==>
      MemberAdmitted(db.groups, actor, gid)
      && (forall k :: 0 <= k < |GroupRecords(db.expenses, gid)| ==> GroupRecords(db.expenses, gid)[k].payer in db.users)
      && Covered(InitSheet(db.groups[gid]).members.Keys, GroupRecords(db.expenses, gid))
    ensures r.Ok? ==>
      && MemberAdmitted(db.groups, actor, gid)
      && Covered(InitSheet(db.groups[gid]).members.Keys, GroupRecords(db.expenses, gid))
      && r.value == GroupBalances(db.groups[gid], GroupRecords(db.expenses, gid))
      && Total(r.value) == 0.0
  {
    if gid !in db.groups {
      return Err(GroupNotFound);
    }
    var g := db.groups[gid];
    if actor !in g.members {
      return Err(NotGroupMember);
    }
    var records := GroupRecords(db.expenses, gid);
    if exists k :: 0 <= k < |records| && records[k].payer !in db.users {
      return Err(MissingReference);
    }
    if !Covered(InitSheet(g).members.Keys, records) {
      return Err(BalanceUndefined);
    }
    var sheet := ComputeBalances(g, records);
    Conservation(g, records);
    r := Ok(sheet);
  }
}
