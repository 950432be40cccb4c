/** The collections the controllers read and write: users, groups, ledger records and
    pending invites, held in memory. Each store method performs one Mongoose write
    (`create`, `save`, `deleteOne`, `deleteMany`, an upsert) and keeps `Valid`, the
    invariant that every stored document passed its schema. */
module Database {
  import opened Common
  import opened Text
  import opened ExpenseModel
  import opened Ledger
  import GroupModel
  import PendingModel

  /** The fields of a user account the core reads. models/User.js stores `name` trimmed
      and `email` lower-cased and trimmed, both required, `email` unique. */
  datatype User = User(id: Id, name: string, email: string)

  predicate UserWellFormed(u: User)
  {
    u.name != "" && Trimmed(u.name) && u.email != "" && IsLower(u.email) && Trimmed(u.email)
  }

  class Database {
    var users: map<Id, User>
    var groups: map<Id, GroupModel.Group>
    /** The ledger collection, in insertion order (the order `find` returns). */
    var expenses: seq<Expense>
    /** The pending-invite records, by their stored e-mail. */
    var pending: map<string, PendingModel.PendingMember>
    /** Ids are allocated from this counter. */
    var nextId: Id

    ghost predicate Valid()
      reads this
    {
      && nextId >= 0
      && (forall u :: u in users ==> users[u].id == u && u < nextId && UserWellFormed(users[u]))
      && (forall u, v :: u in users && v in users && users[u].email == users[v].email ==> u == v)
      && (forall g :: g in groups ==> groups[g].id == g && g < nextId && GroupModel.WellFormed(groups[g]))
      && (forall i :: 0 <= i < |expenses| ==> expenses[i].id < nextId && ExpenseModel.WellFormed(expenses[i]))
      && (forall i, j :: 0 <= i < j < |expenses| ==> expenses[i].id != expenses[j].id)
      && (forall k :: k in pending ==> pending[k].email == k && PendingModel.WellFormed(pending[k]))
    }

    /** An empty database. */
    constructor ()
      ensures Valid()
      ensures users == map[] && groups == map[] && expenses == [] && pending == map[] && nextId == 0
    {
      users, groups, expenses, pending, nextId := map[], map[], [], map[], 0;
    }

    /** `User.findOne({ email })`: the account with that stored e-mail, if any. */
    method FindUserByEmail(email: string) returns (u: Option<Id>)
      requires Valid()
      ensures u.Some? ==> u.value in users && users[u.value].email == email
      ensures u.None? <==> forall v :: v in users ==> users[v].email != email
    {
      if exists v :: v in users && users[v].email == email {
        var v :| v in users && users[v].email == email;
        u := Some(v);
      } else {
        u := None;
      }
    }

    /** `User.create`: stores a new account under the next id. */
    method InsertUser(u: User)
      requires Valid() && u.id == nextId && UserWellFormed(u)
      requires forall v :: v in users ==> users[v].email != u.email
      modifies this
      ensures Valid()
      ensures users == old(users)[u.id := u] && nextId == old(nextId) + 1
      ensures groups == old(groups) && expenses == old(expenses) && pending == old(pending)
    {
      users := users[u.id := u];
      nextId := nextId + 1;
    }

    /** `Group.create`: stores a new group under the next id. */
    method InsertGroup(g: GroupModel.Group)
      requires Valid() && g.id == nextId && GroupModel.WellFormed(g)
      modifies this
      ensures Valid()
      ensures groups == old(groups)[g.id := g] && nextId == old(nextId) + 1
      ensures users == old(users) && expenses == old(expenses) && pending == old(pending)
    {
      groups := groups[g.id := g];
      nextId := nextId + 1;
    }

    /** `group.save()` of a loaded group. */
    method SaveGroup(g: GroupModel.Group)
      requires Valid() && g.id in groups && GroupModel.WellFormed(g)
      modifies this`groups
      ensures Valid()
      ensures groups == old(groups)[g.id := g]
    {
      groups := groups[g.id := g];
    }

    /** `group.deleteOne()` after `Expense.deleteMany({ group })`: the group and every record
        of it go; every other record stays, in order. The pending records still list the
        group. */
    method DeleteGroup(gid: Id)
      requires Valid() && gid in groups
      modifies this`groups, this`expenses
      ensures Valid()
      ensures groups == old(groups) - {gid}
      ensures expenses == OutsideGroup(old(expenses), gid)
    {
      var rest := OutsideGroup(expenses, gid);
      forall i, j | 0 <= i < j < |rest|
        ensures rest[i].id != rest[j].id
      {
        SelectIds(expenses, (e: Expense) => e.group != gid, i, j);
      }
      forall i | 0 <= i < |rest|
        ensures rest[i].id < nextId && ExpenseModel.WellFormed(rest[i])
      {
        assert rest[i] in expenses;
      }
      expenses := rest;
      groups := groups - {gid};
    }

    /** `Expense.create`: appends a new record under the next id. */
    method InsertExpense(e: Expense)
      requires Valid() && e.id == nextId && ExpenseModel.WellFormed(e)
      modifies this
      ensures Valid()
      ensures expenses == old(expenses) + [e] && nextId == old(nextId) + 1
      ensures users == old(users) && groups == old(groups) && pending == old(pending)
    {
      expenses := expenses + [e];
      nextId := nextId + 1;
    }

    /** `expense.save()` of a loaded record: the record at position `i` is replaced by its
        new version, which keeps its id. */
    method SaveExpense(i: nat, e: Expense)
      requires Valid() && i < |expenses| && e.id == expenses[i].id && ExpenseModel.WellFormed(e)
      modifies this`expenses
      ensures Valid()
      ensures expenses == old(expenses)[i := e]
    {
      expenses := expenses[i := e];
    }

    /** `expense.deleteOne()`: the record at position `i` goes; the others keep their order. */
    method DeleteExpense(i: nat)
      requires Valid() && i < |expenses|
      modifies this`expenses
      ensures Valid()
      ensures expenses == old(expenses)[..i] + old(expenses)[i + 1..]
    {
      expenses := expenses[..i] + expenses[i + 1..];
    }

    /** `pendingMember.save()` or an upsert of the record for its e-mail. */
    method SavePending(p: PendingModel.PendingMember)
      requires Valid() && PendingModel.WellFormed(p)
      modifies this`pending
      ensures Valid()
      ensures pending == old(pending)[p.email := p]
    {
      pending := pending[p.email := p];
    }
  }

  /** `Expense.findById`: the position of the record with that id, or -1 when there is none. */
  function Position(es: seq<Expense>, id: Id): (i: int)
    ensures -1 <= i < |es|
    ensures i >= 0 ==> es[i].id == id
    ensures i < 0 <==> forall j :: 0 <= j < |es| ==> es[j].id != id
  {
    if es == [] then -1
    else if es[|es| - 1].id == id then |es| - 1
    else Position(es[..|es| - 1], id)
  }

  /** `Expense.deleteMany({ group: gid })` seen from what remains: the records of the other
      groups, in stored order. */
  function OutsideGroup(es: seq<Expense>, gid: Id): seq<Expense>
  {
    Select(es, (e: Expense) => e.group != gid)
  }

  /** Two positions of a filtered collection hold records from two distinct positions of
      the original, so distinct ids stay distinct. */
  lemma {:induction false} SelectIds(es: seq<Expense>, keep: Expense -> bool, i: nat, j: nat)
    requires forall a, b :: 0 <= a < b < |es| ==> es[a].id != es[b].id
    requires i < j < |Select(es, keep)|
    ensures Select(es, keep)[i].id != Select(es, keep)[j].id
  {
    var init := es[..|es| - 1];
    var rest := Select(init, keep);
    assert forall a, b :: 0 <= a < b < |init| ==> init[a].id != init[b].id;
    if j < |rest| {
      SelectIds(init, keep, i, j);
    } else {
      var last := es[|es| - 1];
      assert Select(es, keep)[j] == last;
      assert Select(es, keep)[i] == rest[i];
      assert rest[i] in init;
      var a :| 0 <= a < |init| && init[a] == rest[i];
      assert es[a] == init[a];
    }
  }
}
