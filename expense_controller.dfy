/** The request handlers of controllers/expenseController.js over the in-memory collections:
    each handler performs the controller's checks in the controller's order, refuses with
    the first one that fails (leaving the collections as they were), and otherwise writes
    exactly the record the controller writes and returns the notifications it inserts. */
module ExpenseController {
  import opened Common
  import opened Text
  import opened ExpenseModel
  import opened Ledger
  import opened Database
  import GroupModel

  // ----- createExpense -----

  /** The body of `POST /api/expenses`; absent fields are None. */
  datatype NewExpense = NewExpense(
    description: Option<string>,
    amount: Option<real>,
    date: Option<Time>,
    group: Option<Id>,
    category: Option<Id>,
    kind: Option<string>,
    splits: Option<seq<SplitInput>>,
    receiptImage: Option<string>)

  /** A stored record with the notifications inserted for it. */
  datatype Created = Created(record: Expense, notices: seq<Notice>)

  /** The first guard: description, amount, group and a non-empty split list are given
      (and description and amount are truthy). */
  predicate Required(req: NewExpense)
  {
    Present(req.description) && NonZero(req.amount) && req.group.Some?
    && req.splits.Some? && |req.splits.value| > 0
  }

  /** The group exists and the requester is one of its members. */
  predicate Admitted(groups: map<Id, GroupModel.Group>, actor: Id, req: NewExpense)
  {
    Required(req) && req.group.value in groups && actor in groups[req.group.value].members
  }

  /** What `Expense.create` validates of the request: the trimmed description is not
      blank, the amounts are non-negative and the type names a kind. */
  predicate Storable(req: NewExpense)
    requires Required(req)
  {
    && Trim(req.description.value) != ""
    && req.amount.value >= 0.0
    && (forall i :: 0 <= i < |req.splits.value| ==> req.splits.value[i].amount >= 0.0)
    && ParseKind(OrElse(req.kind, "EXPENSE")).Some?
  }

  /** createExpense. It refuses, in this order: a missing field; an unknown group; a
      requester outside the group; splits that do not sum to the amount within 0.01; a
      split with neither user nor e-mail; a record the schema rejects. Otherwise it stores
      one record paid by the requester, whose splits are the normalised request splits
      and so sum to its amount, and returns one EXPENSE_ADDED notice per split of another
      registered user. */
  method CreateExpense(db: Database, actor: Id, req: NewExpense, now: Time) returns (r: Result<Created>)
    requires db.Valid()
    modifies db
    ensures db.Valid()
    ensures r == Err(MissingFields) <==> !Required(req)
    ensures r == Err(GroupNotFound) <==> Required(req) && req.group.value !in old(db.groups)
    ensures r == Err(NotGroupMember) <==>
      Required(req) && req.group.value in old(db.groups) && actor !in old(db.groups)[req.group.value].members
    ensures r == Err(SplitSumMismatch) <==>
      Admitted(old(db.groups), actor, req) && !SumMatches(InputTotal(req.splits.value), req.amount.value)
    ensures r == Err(SplitWithoutParty) <==>
      Admitted(old(db.groups), actor, req) && SumMatches(InputTotal(req.splits.value), req.amount.value)
      && NormaliseSplits(req.splits.value).Err?
    ensures r == Err(ValidationFailed) <==>
      Admitted(old(db.groups), actor, req) && SumMatches(InputTotal(req.splits.value), req.amount.value)
      && NormaliseSplits(req.splits.value).Ok? && !Storable(req)
    ensures r.Ok? <==>
      Admitted(old(db.groups), actor, req) && SumMatches(InputTotal(req.splits.value), req.amount.value)
      && NormaliseSplits(req.splits.value).Ok? && Storable(req)
    ensures r.Err? ==> unchanged(db)
    ensures r.Ok? ==>
      var e := r.value.record;
      && db.expenses == old(db.expenses) + [e]
      && db.nextId == old(db.nextId) + 1 && e.id == old(db.nextId)
      && db.users == old(db.users) && db.groups == old(db.groups) && db.pending == old(db.pending)
      && e.payer == actor && e.group == req.group.value && e.amount == req.amount.value
      && e.description == Trim(req.description.value)
      && e.date == (if Dated(req.date) then req.date.value else now)
      && e.category == req.category
      && Some(e.kind) == ParseKind(OrElse(req.kind, "EXPENSE"))
      && e.receiver.None? && e.details == NoPaymentDetails && e.verification == DefaultVerification
      && e.receiptImage == Truthy(req.receiptImage)
      && NormaliseSplits(req.splits.value) == Ok(e.splits)
      && SumMatches(SplitTotal(e.splits), e.amount)
      && r.value.notices == ExpenseAddedNotices(req.splits.value, actor, e.id)
  {
    if !Required(req) {
      return Err(MissingFields);
    }
    var gid := req.group.value;
    if gid !in db.groups {
      return Err(GroupNotFound);
    }
    if actor !in db.groups[gid].members {
      return Err(NotGroupMember);
    }
    var splits, amount := req.splits.value, req.amount.value;
    if !SumMatches(InputTotal(splits), amount) {
      return Err(SplitSumMismatch);
    }
    var processed := NormaliseSplits(splits);
    if processed.Err? {
      return Err(processed.error);
    }
    r := StoreExpense(db, actor, req, processed.value, now);
  }

  /** `Expense.create` of createExpense once the checks have passed and the splits are
      normalised: the schema rejects the record, changing nothing, or it is stored. */
  method StoreExpense(db: Database, actor: Id, req: NewExpense, done: seq<Split>, now: Time) returns (r: Result<Created>)
    requires db.Valid() && Admitted(db.groups, actor, req) && NormaliseSplits(req.splits.value) == Ok(done)
    modifies db
    ensures db.Valid()
    ensures r.Err? <==> !Storable(req)
    ensures r.Err? ==> r == Err(ValidationFailed) && unchanged(db)
    ensures r.Ok? ==>
      var e := r.value.record;
      && db.expenses == old(db.expenses) + [e]
      && db.nextId == old(db.nextId) + 1 && e.id == old(db.nextId)
      && db.users == old(db.users) && db.groups == old(db.groups) && db.pending == old(db.pending)
      && e.payer == actor && e.group == req.group.value && e.amount == req.amount.value
      && e.description == Trim(req.description.value)
      && e.date == (if Dated(req.date) then req.date.value else now)
      && e.category == req.category
      && Some(e.kind) == ParseKind(OrElse(req.kind, "EXPENSE"))
      && e.receiver.None? && e.details == NoPaymentDetails && e.verification == DefaultVerification
      && e.receiptImage == Truthy(req.receiptImage)
      && e.splits == done
      && r.value.notices == ExpenseAddedNotices(req.splits.value, actor, e.id)
  {
    var splits := req.splits.value;
    var kind := ParseKind(OrElse(req.kind, "EXPENSE"));
    var e := Expense(db.nextId, Trim(req.description.value), req.amount.value,
                     if Dated(req.date) then req.date.value else now, req.group.value, req.category,
                     if kind.Some? then kind.value else EXPENSE, actor, None,
                     NoPaymentDetails, DefaultVerification, Truthy(req.receiptImage), done);
    NormalisedAmounts(splits, done);
    Validated(req, done, e);
    if kind.None? || !ExpenseModel.Valid(e) {
      return Err(ValidationFailed);
    }
    NormalisedEmails(splits, done);
    db.InsertExpense(e);
    r := Ok(Created(e, ExpenseAddedNotices(splits, actor, e.id)));
  }

  /** The record built from a request passes the schema exactly when the request is
      storable. */
  lemma Validated(req: NewExpense, done: seq<Split>, e: Expense)
    requires Required(req) && |done| == |req.splits.value|
    requires forall i :: 0 <= i < |done| ==> done[i].amount == req.splits.value[i].amount
    requires e.description == Trim(req.description.value) && e.amount == req.amount.value
    requires e.details.remarks.None? && e.splits == done
    ensures (ParseKind(OrElse(req.kind, "EXPENSE")).Some? && ExpenseModel.Valid(e)) <==> Storable(req)
  {
  }

  /** Normalisation lower-cases every e-mail it keeps. */
  lemma NormalisedEmails(ss: seq<SplitInput>, done: seq<Split>)
    requires NormaliseSplits(ss) == Ok(done)
    ensures forall i :: 0 <= i < |done| && done[i].email.Some? ==> IsLower(done[i].email.value)
  {
    forall i | 0 <= i < |done| && done[i].email.Some?
      ensures IsLower(done[i].email.value)
    {
      assert NormaliseSplit(ss[i]) == Ok(done[i]);
    }
  }

  /** Normalisation keeps every amount. */
  lemma NormalisedAmounts(ss: seq<SplitInput>, done: seq<Split>)
    requires NormaliseSplits(ss) == Ok(done)
    ensures |done| == |ss|
    ensures forall i :: 0 <= i < |ss| ==> done[i].amount == ss[i].amount
  {
  }

  // ----- updateExpense -----

  /** The body of `PUT /api/expenses/:id`. `category` and `receiptImage` distinguish an
      absent field (None) from an explicit null (Some(None)). */
  datatype ExpenseEdit = ExpenseEdit(
    description: Option<string>,
    amount: Option<real>,
    date: Option<Time>,
    category: Option<Option<Id>>,
    splits: Option<seq<SplitInput>>,
    receiptImage: Option<Option<string>>)

  /** `amount || expense.amount`. */
  function EditAmount(e: Expense, req: ExpenseEdit): (a: real)
    ensures NonZero(req.amount) ==> a == req.amount.value
    ensures !NonZero(req.amount) ==> a == e.amount
  {
    if NonZero(req.amount) then req.amount.value else e.amount
  }

  /** The split check of updateExpense: replacement splits must sum, within 0.01, to the
      amount the record will have. Without replacement splits there is no check. */
  predicate EditSumOk(e: Expense, req: ExpenseEdit)
  {
    req.splits.Some? ==> SumMatches(InputTotal(req.splits.value), EditAmount(e, req))
  }

  /** The record after the assignments of updateExpense. Falsy description, amount and date
      (absent, "" or 0) keep the old value; category and receipt image are kept only when
      absent; splits are replaced as sent (only the schema's setters apply). Nothing outside those six fields
      changes, and an empty edit changes nothing. */
  function Edited(e: Expense, req: ExpenseEdit): (r: Expense)
    ensures r == e.(description := r.description, amount := r.amount, date := r.date,
                    category := r.category, splits := r.splits, receiptImage := r.receiptImage)
    ensures !Present(req.description) ==> r.description == e.description
    ensures Present(req.description) ==> r.description == Trim(req.description.value)
    ensures r.amount == EditAmount(e, req)
    ensures r.date == (if Dated(req.date) then req.date.value else e.date)
    ensures r.category == (if req.category.Some? then req.category.value else e.category)
    ensures r.receiptImage == (if req.receiptImage.Some? then req.receiptImage.value else e.receiptImage)
    ensures req.splits.None? ==> r.splits == e.splits
    ensures req.splits.Some? ==> r.splits == RawSplits(req.splits.value)
    ensures req == ExpenseEdit(None, None, None, None, None, None) ==> r == e
  {
    e.(description := if Present(req.description) then Trim(req.description.value) else e.description,
       amount := EditAmount(e, req),
       date := if Dated(req.date) then req.date.value else e.date,
       category := if req.category.Some? then req.category.value else e.category,
       splits := if req.splits.Some? then RawSplits(req.splits.value) else e.splits,
       receiptImage := if req.receiptImage.Some? then req.receiptImage.value else e.receiptImage)
  }

  /** The setter guarantees survive an edit, so a stored record stays normal. */
  lemma EditedNormal(e: Expense, req: ExpenseEdit)
    requires Normal(e)
    ensures Normal(Edited(e, req))
  {
    var r := Edited(e, req);
    if req.splits.Some? {
      assert forall i :: 0 <= i < |r.splits| ==> r.splits[i] == RawSplit(req.splits.value[i]);
    }
  }

  /** A record whose splits summed to its amount still does after an edit that passed the
      split check, unless the edit changed the amount alone; replacement splits that pass
      the check always sum to the new amount. */
  lemma EditedSum(e: Expense, req: ExpenseEdit)
    requires EditSumOk(e, req)
    requires req.splits.None? ==> SumMatches(SplitTotal(e.splits), e.amount) && !NonZero(req.amount)
    ensures SumMatches(SplitTotal(Edited(e, req).splits), Edited(e, req).amount)
  {
  }

  /** An edit of the amount alone passes the split check vacuously, so it can leave a record
      whose splits no longer sum to its amount. */
  lemma AmountOnlyEditBreaksSum(e: Expense, a: real)
    requires SumMatches(SplitTotal(e.splits), e.amount) && e.amount >= 0.0
    requires a > e.amount + 2.0 * Tolerance
    ensures EditSumOk(e, ExpenseEdit(None, Some(a), None, None, None, None))
    ensures !SumMatches(SplitTotal(Edited(e, ExpenseEdit(None, Some(a), None, None, None, None)).splits),
                        Edited(e, ExpenseEdit(None, Some(a), None, None, None, None)).amount)
  {
  }

  /** updateExpense. It refuses an unknown record, a requester who is not the payer,
      replacement splits that do not sum to the new amount and a result the schema rejects,
      changing nothing; otherwise it overwrites the record in place with `Edited`. */
  method UpdateExpense(db: Database, actor: Id, id: Id, req: ExpenseEdit) returns (r: Result<Expense>)
    requires db.Valid()
    modifies db`expenses
    ensures db.Valid()
    ensures
      var i := Position(old(db.expenses), id);
      && (r == Err(ExpenseNotFound) <==> i < 0)
      && (r == Err(NotPayer) <==> i >= 0 && old(db.expenses)[i].payer != actor)
      && (r == Err(SplitSumMismatch) <==>
            i >= 0 && old(db.expenses)[i].payer == actor && !EditSumOk(old(db.expenses)[i], req))
      && (r == Err(ValidationFailed) <==>
            i >= 0 && old(db.expenses)[i].payer == actor && EditSumOk(old(db.expenses)[i], req)
            && !ExpenseModel.Valid(Edited(old(db.expenses)[i], req)))
      && (r.Ok? <==>
            i >= 0 && old(db.expenses)[i].payer == actor && EditSumOk(old(db.expenses)[i], req)
            && ExpenseModel.Valid(Edited(old(db.expenses)[i], req)))
      && (r.Ok? ==>
            i >= 0 && r.value == Edited(old(db.expenses)[i], req)
            && db.expenses == old(db.expenses)[i := r.value])
    ensures r.Err? ==> db.expenses == old(db.expenses)
  {
    var i := Position(db.expenses, id);
    if i < 0 {
      return Err(ExpenseNotFound);
    }
    var x := db.expenses[i];
    ghost var e := x;
    if x.payer != actor {
      return Err(NotPayer);
    }
    if req.splits.Some? {
      var newAmount := if NonZero(req.amount) then req.amount.value else x.amount;
      if !SumMatches(InputTotal(req.splits.value), newAmount) {
        return Err(SplitSumMismatch);
      }
    }
    x := ApplyEdit(x, req);
    EditedNormal(e, req);
    if !ExpenseModel.Valid(x) {
      return Err(ValidationFailed);
    }
    db.SaveExpense(i, x);
    r := Ok(x);
  }

  /** The assignments of updateExpense on a loaded record, one field at a time. */
  method ApplyEdit(e: Expense, req: ExpenseEdit) returns (x: Expense)
    ensures x == Edited(e, req)
  {
    x := e;
    if Present(req.description) {
      x := x.(description := Trim(req.description.value));
    }
    if NonZero(req.amount) {
      x := x.(amount := req.amount.value);
    }
    if Dated(req.date) {
      x := x.(date := req.date.value);
    }
    if req.category.Some? {
      x := x.(category := req.category.value);
    }
    if req.splits.Some? {
      x := x.(splits := RawSplits(req.splits.value));
    }
    if req.receiptImage.Some? {
      x := x.(receiptImage := req.receiptImage.value);
    }
  }

  // ----- deleteExpense -----

  /** deleteExpense. It refuses an unknown record and a requester who is not the payer;
      otherwise the record leaves the collection, the others keep their order, and no
      record with that id remains. */
  method DeleteExpense(db: Database, actor: Id, id: Id) returns (r: Result<Expense>)
    requires db.Valid()
    modifies db`expenses
    ensures db.Valid()
    ensures
      var i := Position(old(db.expenses), id);
      && (r == Err(ExpenseNotFound) <==> i < 0)
      && (r == Err(NotPayer) <==> i >= 0 && old(db.expenses)[i].payer != actor)
      && (r.Ok? <==> i >= 0 && old(db.expenses)[i].payer == actor)
      && (r.Ok? ==>
            i >= 0 && r.value == old(db.expenses)[i] && r.value.payer == actor
            && db.expenses == old(db.expenses)[..i] + old(db.expenses)[i + 1..])
    ensures r.Err? ==> db.expenses == old(db.expenses)
    ensures r.Ok? ==> forall k :: 0 <= k < |db.expenses| ==> db.expenses[k].id != id
  {
    var i := Position(db.expenses, id);
    if i < 0 {
      return Err(ExpenseNotFound);
    }
    var e := db.expenses[i];
    if e.payer != actor {
      return Err(NotPayer);
    }
    ghost var before := db.expenses;
    assert forall k :: 0 <= k < |before| && k != i ==> before[k].id != id;
    db.DeleteExpense(i);
    assert forall k :: 0 <= k < |db.expenses| ==> db.expenses[k] == before[if k < i then k else k + 1];
    r := Ok(e);
  }

  // ----- settleUp -----

  /** The body of `POST /api/expenses/settle`. */
  datatype Settlement = Settlement(
    group: Option<Id>,
    payer: Option<Id>,
    receiver: Option<Id>,
    amount: Option<real>,
    paymentMethod: Option<string>,
    transactionId: Option<string>,
    remarks: Option<string>,
    date: Option<Time>,
    receiptImage: Option<string>)

  predicate SettleRequired(req: Settlement)
  {
    req.group.Some? && req.payer.Some? && req.receiver.Some? && NonZero(req.amount)
  }

  /** A member as `populate('members')` lists it: in `members` and with an account. */
  predicate Listed(users: map<Id, User>, g: GroupModel.Group, u: Id)
  {
    u in g.members && u in users
  }

  /** Every check of settleUp before the record is built passes. */
  predicate SettleAdmitted(users: map<Id, User>, groups: map<Id, GroupModel.Group>, actor: Id, req: Settlement)
  {
    && SettleRequired(req)
    && req.payer != req.receiver
    && req.group.value in groups
    && Listed(users, groups[req.group.value], actor)
    && Listed(users, groups[req.group.value], req.payer.value)
    && Listed(users, groups[req.group.value], req.receiver.value)
  }

  /** What `Expense.create` validates of a payment: a non-negative amount, a method from
      the enum (OTHER when absent) and remarks of at most 500 characters once trimmed. */
  predicate SettleStorable(req: Settlement)
    requires SettleRequired(req)
  {
    && req.amount.value >= 0.0
    && ParseMethod(OrElse(req.paymentMethod, "OTHER")).Some?
    && (Present(req.remarks) ==> |Trim(req.remarks.value)| <= MaxRemarks)
  }

  /** The description of a payment record: "Payment: " and the two names joined by the
      three characters the template literal holds, the arrow character garbled by an
      earlier Windows-1252 round trip. */
  function PaymentDescription(payerName: string, receiverName: string): (d: string)
    ensures receiverName != "" && Trimmed(receiverName) ==> Trimmed(d)
  {
    var d := "Payment: " + payerName + " \U{00E2}\U{2020}\U{2019} " + receiverName;
    assert d[0] == 'P';
    assert receiverName != "" ==> d[|d| - 1] == receiverName[|receiverName| - 1];
    d
  }

  /** settleUp. It refuses, in this order: a missing field; payer equal to receiver; an
      unknown group; a requester, payer or receiver who is not a listed member; a record
      the schema rejects. Otherwise it stores an unverified PAYMENT from payer to receiver
      with the single split {receiver, amount}, recorded by the requester, and notifies the
      receiver, and the payer too when someone else recorded it. */
  method SettleUp(db: Database, actor: Id, req: Settlement, now: Time) returns (r: Result<Created>)
    requires db.Valid()
    modifies db
    ensures db.Valid()
    ensures r == Err(MissingFields) <==> !SettleRequired(req)
    ensures r == Err(SameParty) <==> SettleRequired(req) && req.payer == req.receiver
    ensures r == Err(GroupNotFound) <==>
      SettleRequired(req) && req.payer != req.receiver && req.group.value !in old(db.groups)
    ensures r == Err(NotGroupMember) <==>
      SettleRequired(req) && req.payer != req.receiver && req.group.value in old(db.groups)
      && !Listed(old(db.users), old(db.groups)[req.group.value], actor)
    ensures r == Err(PartiesNotMembers) <==>
      SettleRequired(req) && req.payer != req.receiver && req.group.value in old(db.groups)
      && Listed(old(db.users), old(db.groups)[req.group.value], actor)
      && !(Listed(old(db.users), old(db.groups)[req.group.value], req.payer.value)
           && Listed(old(db.users), old(db.groups)[req.group.value], req.receiver.value))
    ensures r == Err(ValidationFailed) <==>
      SettleAdmitted(old(db.users), old(db.groups), actor, req) && !SettleStorable(req)
    ensures r.Ok? <==> SettleAdmitted(old(db.users), old(db.groups), actor, req) && SettleStorable(req)
    ensures r.Err? ==> unchanged(db)
    ensures r.Ok? ==>
      var e := r.value.record;
      && db.expenses == old(db.expenses) + [e]
      && db.nextId == old(db.nextId) + 1 && e.id == old(db.nextId)
      && db.users == old(db.users) && db.groups == old(db.groups) && db.pending == old(db.pending)
      && e.description == PaymentDescription(old(db.users)[req.payer.value].name,
                                             old(db.users)[req.receiver.value].name)
      && e.amount == req.amount.value
      && e.date == (if Dated(req.date) then req.date.value else now)
      && e.group == req.group.value && e.category.None? && e.kind == PAYMENT
      && e.payer == req.payer.value && e.receiver == req.receiver
      && e.details.paymentMethod == ParseMethod(OrElse(req.paymentMethod, "OTHER"))
      && e.details.transactionId == TrimOpt(Truthy(req.transactionId))
      && e.details.remarks == TrimOpt(Truthy(req.remarks))
      && e.details.recordedBy == Some(actor)
      && e.verification == DefaultVerification && !IsSettled(e)
      && e.receiptImage == Truthy(req.receiptImage)
      && e.splits == [Split(req.receiver, None, None, req.amount.value, false)]
      && r.value.notices == SettleNotices(req.payer.value, req.receiver.value, actor, e.id, req.amount.value)
  {
    if !SettleRequired(req) {
      return Err(MissingFields);
    }
    var payer, receiver, amount := req.payer.value, req.receiver.value, req.amount.value;
    if payer == receiver {
      return Err(SameParty);
    }
    var gid := req.group.value;
    if gid !in db.groups {
      return Err(GroupNotFound);
    }
    var g := db.groups[gid];
    if !Listed(db.users, g, actor) {
      return Err(NotGroupMember);
    }
    if !Listed(db.users, g, payer) || !Listed(db.users, g, receiver) {
      return Err(PartiesNotMembers);
    }
    var payerUser, receiverUser := db.users[payer], db.users[receiver];
    var description := PaymentDescription(payerUser.name, receiverUser.name);
    var method_ := ParseMethod(OrElse(req.paymentMethod, "OTHER"));
    if method_.None? {
      return Err(ValidationFailed);
    }
    var details := PaymentDetails(method_, TrimOpt(Truthy(req.transactionId)),
                                  TrimOpt(Truthy(req.remarks)), Some(actor));
    var e := Expense(db.nextId, Trim(description), amount,
                     if Dated(req.date) then req.date.value else now, gid, None, PAYMENT,
                     payer, Some(receiver), details, Verification(false, None, None, PENDING),
                     Truthy(req.receiptImage), [StoredSplit(Some(receiver), None, None, amount, false)]);
    if !ExpenseModel.Valid(e) {
      return Err(ValidationFailed);
    }
    db.InsertExpense(e);
    r := Ok(Created(e, SettleNotices(payer, receiver, actor, e.id, amount)));
  }

  // ----- verifyPayment -----

  /** The updated payment with the notification sent to its payer. */
  datatype Verified = Verified(record: Expense, notice: Notice)

  /** verifyPayment. It refuses an unknown record, a record that is not a PAYMENT, a
      payment without a receiver (the dereference throws), a requester who is not the
      receiver, and a status outside the enum, changing nothing. Otherwise the payment's
      verification, whatever it was, becomes `VerifyOutcome`; nothing else of the record
      changes; it is settled exactly when the request said ACCEPTED; and the payer is
      notified. */
  method VerifyPayment(db: Database, actor: Id, id: Id, status: Option<string>, now: Time)
    returns (r: Result<Verified>)
    requires db.Valid()
    modifies db`expenses
    ensures db.Valid()
    ensures
      var i := Position(old(db.expenses), id);
      && (r == Err(ExpenseNotFound) <==> i < 0)
      && (r == Err(NotAPayment) <==> i >= 0 && old(db.expenses)[i].kind != PAYMENT)
      && (r == Err(MissingReference) <==>
            i >= 0 && old(db.expenses)[i].kind == PAYMENT && old(db.expenses)[i].receiver.None?)
      && (r == Err(NotReceiver) <==>
            i >= 0 && old(db.expenses)[i].kind == PAYMENT && old(db.expenses)[i].receiver.Some?
            && old(db.expenses)[i].receiver != Some(actor))
      && (r == Err(ValidationFailed) <==>
            i >= 0 && old(db.expenses)[i].kind == PAYMENT && old(db.expenses)[i].receiver == Some(actor)
            && VerifyOutcome(actor, now, status).None?)
      && (r.Ok? <==>
            i >= 0 && old(db.expenses)[i].kind == PAYMENT && old(db.expenses)[i].receiver == Some(actor)
            && VerifyOutcome(actor, now, status).Some?)
      && (r.Ok? ==>
            i >= 0 && VerifyOutcome(actor, now, status).Some?
            && r.value.record == old(db.expenses)[i].(verification := VerifyOutcome(actor, now, status).value)
            && db.expenses == old(db.expenses)[i := r.value.record]
            && r.value.notice == VerifyNotice(r.value.record, actor, status)
            && (IsSettled(r.value.record) <==> status == Some("ACCEPTED")))
    ensures r.Err? ==> db.expenses == old(db.expenses)
  {
    var i := Position(db.expenses, id);
    if i < 0 {
      return Err(ExpenseNotFound);
    }
    var payment := db.expenses[i];
    if payment.kind != PAYMENT {
      return Err(NotAPayment);
    }
    if payment.receiver.None? {
      return Err(MissingReference);
    }
    if payment.receiver.value != actor {
      return Err(NotReceiver);
    }
    var v := payment.verification;
    v := v.(isVerified := status == Some("ACCEPTED"));
    v := v.(verifiedBy := Some(actor));
    v := v.(verifiedAt := Some(now));
    var st := ParseStatus(OrElse(status, "ACCEPTED"));
    if st.None? {
      return Err(ValidationFailed);
    }
    v := v.(status := st.value);
    payment := payment.(verification := v);
    db.SaveExpense(i, payment);
    r := Ok(Verified(payment, VerifyNotice(payment, actor, status)));
  }

  // ----- updatePaymentRemarks -----

  /** updatePaymentRemarks. It refuses an unknown record, a record that is not a PAYMENT,
      a requester `RemarksPermission` refuses (with its error), and remarks over 500
      characters once trimmed, changing nothing. Otherwise only the stored remarks change. */
  method UpdatePaymentRemarks(db: Database, actor: Id, id: Id, remarks: Option<string>)
    returns (r: Result<Expense>)
    requires db.Valid()
    modifies db`expenses
    ensures db.Valid()
    ensures
      var i := Position(old(db.expenses), id);
      && (r == Err(ExpenseNotFound) <==> i < 0)
      && (r == Err(NotAPayment) <==> i >= 0 && old(db.expenses)[i].kind != PAYMENT)
      && (r == Err(MissingReference) <==>
            i >= 0 && old(db.expenses)[i].kind == PAYMENT
            && RemarksPermission(old(db.expenses)[i], actor) == Some(MissingReference))
      && (r == Err(NotInvolved) <==>
            i >= 0 && old(db.expenses)[i].kind == PAYMENT
            && RemarksPermission(old(db.expenses)[i], actor) == Some(NotInvolved))
      && (r == Err(ValidationFailed) <==>
            i >= 0 && old(db.expenses)[i].kind == PAYMENT && RemarksPermission(old(db.expenses)[i], actor).None?
            && remarks.Some? && |Trim(remarks.value)| > MaxRemarks)
      && (r.Ok? <==>
            i >= 0 && old(db.expenses)[i].kind == PAYMENT && RemarksPermission(old(db.expenses)[i], actor).None?
            && (remarks.Some? ==> |Trim(remarks.value)| <= MaxRemarks))
      && (r.Ok? ==>
            i >= 0
            && r.value == old(db.expenses)[i].(details := old(db.expenses)[i].details.(remarks := TrimOpt(remarks)))
            && db.expenses == old(db.expenses)[i := r.value])
    ensures r.Err? ==> db.expenses == old(db.expenses)
  {
    var i := Position(db.expenses, id);
    if i < 0 {
      return Err(ExpenseNotFound);
    }
    var payment := db.expenses[i];
    if payment.kind != PAYMENT {
      return Err(NotAPayment);
    }
    var refusal := RemarksPermission(payment, actor);
    if refusal.Some? {
      return Err(refusal.value);
    }
    payment := payment.(details := payment.details.(remarks := TrimOpt(remarks)));
    if !ExpenseModel.Valid(payment) {
      return Err(ValidationFailed);
    }
    db.SaveExpense(i, payment);
    r := Ok(payment);
  }

  // ----- getPaymentsBetweenUsers -----

  /** The response of getPaymentsBetweenUsers, before rounding. */
  datatype PaymentSummary = PaymentSummary(payments: seq<Expense>, totalPayments: nat, netAmount: real)

  /** getPaymentsBetweenUsers, with the net computed from payer ids (see NetAsWritten for
      the comparison as the source writes it). It refuses a missing user; it fails when a
      payment's payer has no account (`populate` leaves null there). Otherwise it returns
      the payments between the two users, most recent first, their count, and the net
      amount user1 paid; naming the users the other way round negates the net. */
  method PaymentsBetweenUsers(db: Database, u1: Option<Id>, u2: Option<Id>, g: Option<Id>)
    returns (r: Result<PaymentSummary>)
    ensures r == Err(MissingFields) <==> u1.None? || u2.None?
    ensures r == Err(MissingReference) <==>
      u1.Some? && u2.Some? &&
      exists k :: 0 <= k < |PaymentsBetween(db.expenses, u1.value, u2.value, g)| &&
        PaymentsBetween(db.expenses, u1.value, u2.value, g)[k].payer !in db.users
    ensures r.Ok? <==>
      u1.Some? && u2.Some? &&
      forall k :: 0 <= k < |PaymentsBetween(db.expenses, u1.value, u2.value, g)| ==>
        PaymentsBetween(db.expenses, u1.value, u2.value, g)[k].payer in db.users
    ensures r.Ok? ==>
      var found := PaymentsBetween(db.expenses, u1.value, u2.value, g);
      && r.value.payments == SortByDateDesc(found)
      && r.value.totalPayments == |found|
      && r.value.netAmount == Net(found, u1.value)
      && (u1 != u2 ==> r.value.netAmount == -Net(PaymentsBetween(db.expenses, u2.value, u1.value, g), u2.value))
  {
    if u1.None? || u2.None? {
      return Err(MissingFields);
    }
    var found := PaymentsBetween(db.expenses, u1.value, u2.value, g);
    var payments := SortByDateDesc(found);
    if exists k :: 0 <= k < |found| && found[k].payer !in db.users {
      return Err(MissingReference);
    }
    var net := NetAmount(payments, u1.value);
    NetOrderIndependent(found, payments, u1.value);
    if u1 != u2 {
      PaymentsBetweenSymmetric(db.expenses, u1.value, u2.value, g);
      NetSwap(found, u1.value, u2.value, g);
    }
    r := Ok(PaymentSummary(payments, |payments|, net));
  }
}
