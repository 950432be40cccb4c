/** The list manipulations groupController.js and authController.js perform on a group's
    `members` and `pendingMembers`, and on a pending record's `groups`. */
module Membership {
  import opened Common
  import opened Text
  import opened GroupModel

  predicate NoDup<T(==)>(xs: seq<T>)
  {
    forall i, j :: 0 <= i < j < |xs| ==> xs[i] != xs[j]
  }

  /** Append `x` unless it is already there: `$addToSet`, and the guarded `push` of
      registerUser. The result holds exactly the old elements and `x`, keeps the old
      ones in place, and introduces no duplicate. */
  function AddToSet(xs: seq<Id>, x: Id): (r: seq<Id>)
    ensures x in r
    ensures forall y :: y in r <==> y in xs || y == x
    ensures |xs| <= |r| <= |xs| + 1 && r[..|xs|] == xs
    ensures x in xs ==> r == xs
    ensures NoDup(xs) ==> NoDup(r)
  {
    if x in xs then xs else xs + [x]
  }

  /** `members.filter(m => m !== x)`: every occurrence of `x` is dropped and every
      other element is kept, as many times as it occurred and in the same order. */
  function RemoveAll(xs: seq<Id>, x: Id): (r: seq<Id>)
    ensures x !in r
    ensures forall y :: y != x ==> multiset(r)[y] == multiset(xs)[y]
    ensures |r| <= |xs|
  {
    if xs == [] then []
    else
      var rest := RemoveAll(xs[..|xs| - 1], x);
      assert xs == xs[..|xs| - 1] + [xs[|xs| - 1]];
      if xs[|xs| - 1] == x then rest else rest + [xs[|xs| - 1]]
  }

  /** Filtering a concatenation filters each part and keeps their order. */
  lemma {:induction false} RemoveAllAppend(a: seq<Id>, b: seq<Id>, x: Id)
    ensures RemoveAll(a + b, x) == RemoveAll(a, x) + RemoveAll(b, x)
    decreases |b|
  {
    if b == [] {
      assert a + b == a;
    } else {
      var b' := b[..|b| - 1];
      assert (a + b)[..|a + b| - 1] == a + b';
      assert (a + b)[|a + b| - 1] == b[|b| - 1];
      RemoveAllAppend(a, b', x);
    }
  }

  /** `[creator, ...(members || [])]`: the creator first, then the given ids as sent
      (duplicates of the creator included). */
  function InitialMembers(creator: Id, members: Option<seq<Id>>): (r: seq<Id>)
    ensures |r| >= 1 && r[0] == creator
    ensures members.Some? ==> r[1..] == members.value
    ensures members.None? ==> r == [creator]
  {
    [creator] + (if members.Some? then members.value else [])
  }

  /** `pendingMembers.some(pm => pm.email.toLowerCase() === email.toLowerCase())`. */
  predicate IsPendingIn(pms: seq<PendingEntry>, email: string)
  {
    exists i :: 0 <= i < |pms| && Lower(pms[i].email) == Lower(email)
  }

  /** `pendingMembers.filter(pm => pm.email.toLowerCase() !== key)`: drops exactly the
      entries whose lower-cased e-mail is `key`, keeping the rest in order. */
  function DropPending(pms: seq<PendingEntry>, key: string): (r: seq<PendingEntry>)
    ensures forall i :: 0 <= i < |r| ==> Lower(r[i].email) != key
    ensures forall p :: p in r <==> p in pms && Lower(p.email) != key
    ensures |r| <= |pms|
    ensures (forall i :: 0 <= i < |pms| ==> Lower(pms[i].email) != key) ==> r == pms
  {
    if pms == [] then []
    else
      var rest := DropPending(pms[..|pms| - 1], key);
      var last := pms[|pms| - 1];
      assert pms == pms[..|pms| - 1] + [last];
      if Lower(last.email) == key then rest else rest + [last]
  }

  /** The filter keeps every entry not for `key` as often as it occurs, and no entry for it. */
  lemma {:induction false} DropPendingCount(pms: seq<PendingEntry>, key: string)
    ensures forall p :: multiset(DropPending(pms, key))[p] == if Lower(p.email) != key then multiset(pms)[p] else 0
    decreases |pms|
  {
    if pms != [] {
      var last := pms[|pms| - 1];
      assert pms == pms[..|pms| - 1] + [last];
      assert multiset(pms) == multiset(pms[..|pms| - 1]) + multiset([last]);
      DropPendingCount(pms[..|pms| - 1], key);
    }
  }

  /** Filtering a concatenation filters each part and keeps their order. */
  lemma {:induction false} DropPendingAppend(a: seq<PendingEntry>, b: seq<PendingEntry>, key: string)
    ensures DropPending(a + b, key) == DropPending(a, key) + DropPending(b, key)
    decreases |b|
  {
    if b == [] {
      assert a + b == a;
    } else {
      var b' := b[..|b| - 1];
      assert (a + b)[..|a + b| - 1] == a + b';
      assert (a + b)[|a + b| - 1] == b[|b| - 1];
      DropPendingAppend(a, b', key);
    }
  }

  /** The per-group step of registerUser: drop the pending entries for `key`, then add
      `uid` to the members unless present. Nothing else of the group changes. */
  function ReconcileGroup(g: Group, key: string, uid: Id): (r: Group)
    ensures uid in r.members
    ensures forall i :: 0 <= i < |r.pendingMembers| ==> Lower(r.pendingMembers[i].email) != key
    ensures forall p :: p in r.pendingMembers <==> p in g.pendingMembers && Lower(p.email) != key
    ensures forall u :: u in r.members <==> u in g.members || u == uid
    ensures NoDup(g.members) ==> NoDup(r.members)
    ensures r.id == g.id && r.name == g.name && r.currency == g.currency
    ensures r.createdBy == g.createdBy && r.icon == g.icon && r.image == g.image
    ensures WellFormed(g) ==> WellFormed(r)
  {
    g.(pendingMembers := DropPending(g.pendingMembers, key), members := AddToSet(g.members, uid))
  }

  /** Reconciling a group twice for the same user and e-mail changes nothing the
      second time. */
  lemma {:induction false} ReconcileIdempotent(g: Group, key: string, uid: Id)
    ensures ReconcileGroup(ReconcileGroup(g, key, uid), key, uid) == ReconcileGroup(g, key, uid)
  {
    var r := ReconcileGroup(g, key, uid);
    assert DropPending(r.pendingMembers, key) == r.pendingMembers;
  }
}
