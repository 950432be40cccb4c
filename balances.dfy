/** The balance sheet of `getGroupBalances` (controllers/groupController.js): every member and
    every invited e-mail starts at zero, then each EXPENSE record of the group is replayed
    split by split, crediting the payer and debiting the party the split names. */
module Balances {
  import opened Common
  import opened Text
  import opened ExpenseModel
  import opened GroupModel
  import opened Sums

  /** `balances` (by member id), the `balance` of each `pendingBalances` entry (by e-mail)
      and the `name` shown for that entry. */
  datatype Sheet = Sheet(members: map<Id, real>, pending: map<string, real>,
                         names: map<string, Option<string>>)

  /** Every pending entry has a name slot and vice versa. */
  predicate Consistent(s: Sheet)
  {
    s.names.Keys == s.pending.Keys
  }

  /** The signed total of the sheet. */
  ghost function Total(s: Sheet): real
  {
    SumMap(s.members) + SumMap(s.pending)
  }

  // ---------------------------------------------------------------- initialisation

  /** `group.members.forEach(m => balances[m] = 0)`. */
  function InitMembers(ms: seq<Id>): (r: map<Id, real>)
    ensures forall u :: u in r <==> u in ms
    ensures forall u :: u in r ==> r[u] == 0.0
  {
    if ms == [] then map[] else InitMembers(ms[..|ms| - 1])[ms[|ms| - 1] := 0.0]
  }

  /** The balances of `group.pendingMembers.forEach(...)`: one zero entry per listed e-mail. */
  function InitPending(pms: seq<PendingEntry>): (r: map<string, real>)
    ensures forall key :: key in r <==> exists i :: 0 <= i < |pms| && pms[i].email == key
    ensures forall key :: key in r ==> r[key] == 0.0
  {
    if pms == [] then map[] else InitPending(pms[..|pms| - 1])[pms[|pms| - 1].email := 0.0]
  }

  /** The names of the same loop: when an e-mail is listed twice, the later entry's name
      is the one kept. */
  function InitNames(pms: seq<PendingEntry>): (r: map<string, Option<string>>)
    ensures r.Keys == InitPending(pms).Keys
  {
    if pms == [] then map[]
    else InitNames(pms[..|pms| - 1])[pms[|pms| - 1].email := Some(pms[|pms| - 1].name)]
  }

  /** The name kept for a listed e-mail is that of its last entry. */
  lemma {:induction false} InitNamesLast(pms: seq<PendingEntry>, i: nat)
    requires i < |pms|
    requires forall j :: i < j < |pms| ==> pms[j].email != pms[i].email
    ensures InitNames(pms)[pms[i].email] == Some(pms[i].name)
  {
    if i < |pms| - 1 {
      var init := pms[..|pms| - 1];
      assert init[i] == pms[i];
      assert forall j :: i < j < |init| ==> init[j] == pms[j];
      InitNamesLast(init, i);
    }
  }

  function InitSheet(g: Group): (r: Sheet)
    ensures Consistent(r)
  {
    Sheet(InitMembers(g.members), InitPending(g.pendingMembers), InitNames(g.pendingMembers))
  }

  /** Every entry of the initial sheet is zero, so it sums to zero. */
  lemma InitSheetTotal(g: Group)
    ensures Total(InitSheet(g)) == 0.0
  {
    SumMapZero(InitSheet(g).members);
    SumMapZero(InitSheet(g).pending);
  }

  // ---------------------------------------------------------------- one split

  /** The first branch: a pending split with a (non-empty) e-mail. */
  predicate PendingShare(sp: Split)
  {
    sp.isPending && Present(sp.email)
  }

  /** The second branch, past the self-split test: a split for another user. */
  predicate UserShare(sp: Split, payer: Id)
  {
    !PendingShare(sp) && sp.user.Some? && sp.user.value != payer
  }

  /** The pending entry a split debits, if any. */
  function KeysOf(sp: Split): set<string>
  {
    if PendingShare(sp) then {Lower(sp.email.value)} else {}
  }

  /** The entries a split reads already exist; otherwise the JavaScript arithmetic on
      `undefined` yields NaN. The payer needs an entry whenever the split is not skipped. */
  predicate SplitCovered(keys: set<Id>, payer: Id, sp: Split)
  {
    && ((PendingShare(sp) || UserShare(sp, payer)) ==> payer in keys)
    && (UserShare(sp, payer) ==> sp.user.value in keys)
  }

  /** What a split adds to member `k`'s balance. */
  function MemberDelta(payer: Id, sp: Split, k: Id): real
  {
    if PendingShare(sp) then (if k == payer then sp.amount else 0.0)
    else if UserShare(sp, payer) then
      (if k == payer then sp.amount else if k == sp.user.value then -sp.amount else 0.0)
    else 0.0
  }

  /** What a split adds to the pending entry `key`. */
  function PendingDelta(sp: Split, key: string): real
  {
    if PendingShare(sp) && Lower(sp.email.value) == key then -sp.amount else 0.0
  }

  /** The balance of an entry before anything is added; a new entry starts at zero. */
  function Base(s: Sheet, key: string): real
  {
    if key in s.pending then s.pending[key] else 0.0
  }

  /** The body of `expense.splits.forEach`. A pending split debits its lower-cased e-mail
      (opening an entry, named after the split, if the e-mail is not listed) and credits
      the payer; a split for another user debits that user and credits the payer; a
      self-split or a split with no party is skipped. */
  function ApplySplit(s: Sheet, payer: Id, sp: Split): (r: Sheet)
    requires SplitCovered(s.members.Keys, payer, sp)
    ensures r.members.Keys == s.members.Keys
  {
    if PendingShare(sp) then
      var key := Lower(sp.email.value);
      Sheet(s.members[payer := s.members[payer] + sp.amount],
            s.pending[key := Base(s, key) - sp.amount],
            if key in s.pending then s.names else s.names[key := sp.name])
    else if UserShare(sp, payer) then
      var u := sp.user.value;
      var debited := s.members[u := s.members[u] - sp.amount];
      s.(members := debited[payer := debited[payer] + sp.amount])
    else s
  }

  /** What one split does to each entry: every member moves by `MemberDelta`, every
      pending entry by `PendingDelta`, the split's e-mail gains an entry if it had none,
      and a skipped split changes nothing. */
  lemma SplitEffect(s: Sheet, payer: Id, sp: Split)
    requires SplitCovered(s.members.Keys, payer, sp)
    ensures ApplySplit(s, payer, sp).pending.Keys == s.pending.Keys + KeysOf(sp)
    ensures forall k :: k in s.members ==>
              ApplySplit(s, payer, sp).members[k] == s.members[k] + MemberDelta(payer, sp, k)
    ensures forall key :: key in ApplySplit(s, payer, sp).pending ==>
              ApplySplit(s, payer, sp).pending[key] == Base(s, key) + PendingDelta(sp, key)
    ensures !PendingShare(sp) && !UserShare(sp, payer) ==> ApplySplit(s, payer, sp) == s
    ensures Consistent(s) ==> Consistent(ApplySplit(s, payer, sp))
  {
  }

  /** A split moves money between two entries and leaves the total unchanged. */
  lemma ApplySplitConserves(s: Sheet, payer: Id, sp: Split)
    requires SplitCovered(s.members.Keys, payer, sp)
    ensures Total(ApplySplit(s, payer, sp)) == Total(s)
  {
    var r := ApplySplit(s, payer, sp);
    if PendingShare(sp) {
      PendingSplitMembers(s, payer, sp);
      PendingSplitPending(s, payer, sp);
      Shifted(s, r, sp.amount);
    } else if UserShare(sp, payer) {
      UserSplitSums(s, payer, sp);
      Shifted(s, r, 0.0);
    }
  }

  /** A pending split adds its amount to the members' sum ... */
  lemma PendingSplitMembers(s: Sheet, payer: Id, sp: Split)
    requires SplitCovered(s.members.Keys, payer, sp) && PendingShare(sp)
    ensures SumMap(ApplySplit(s, payer, sp).members) == SumMap(s.members) + sp.amount
  {
    SumMapAdd(s.members, payer, sp.amount);
  }

  /** ... and takes it from the pending entries' sum. */
  lemma PendingSplitPending(s: Sheet, payer: Id, sp: Split)
    requires SplitCovered(s.members.Keys, payer, sp) && PendingShare(sp)
    ensures SumMap(ApplySplit(s, payer, sp).pending) == SumMap(s.pending) - sp.amount
  {
    var key := Lower(sp.email.value);
    SumMapTake(s.pending, key, sp.amount, Base(s, key) - sp.amount);
  }

  /** A split between two members leaves both sums as they were. */
  lemma UserSplitSums(s: Sheet, payer: Id, sp: Split)
    requires SplitCovered(s.members.Keys, payer, sp) && UserShare(sp, payer)
    ensures SumMap(ApplySplit(s, payer, sp).members) == SumMap(s.members)
    ensures ApplySplit(s, payer, sp).pending == s.pending
  {
    Transfer(s.members, sp.user.value, payer, sp.amount);
  }

  /** Moving `a` from one entry of a map to another keeps its sum. */
  lemma Transfer<K>(m: map<K, real>, from: K, to: K, a: real)
    requires from in m && to in m
    ensures SumMap(m[from := m[from] - a][to := m[from := m[from] - a][to] + a]) == SumMap(m)
  {
    var debited := m[from := m[from] - a];
    SumMapTake(m, from, a, m[from] - a);
    SumMapAdd(debited, to, a);
  }

  /** Moving `a` from the pending entries to the members keeps the total. */
  lemma Shifted(s: Sheet, t: Sheet, a: real)
    requires SumMap(t.members) == SumMap(s.members) + a
    requires SumMap(t.pending) == SumMap(s.pending) - a
    ensures Total(t) == Total(s)
  {
  }

  // ---------------------------------------------------------------- one record

  predicate SplitsCovered(keys: set<Id>, payer: Id, ss: seq<Split>)
  {
    forall k :: 0 <= k < |ss| ==> SplitCovered(keys, payer, ss[k])
  }

  /** The pending entries a list of splits debits. */
  function SplitKeys(ss: seq<Split>): (r: set<string>)
    ensures forall key :: key in r <==> exists k :: 0 <= k < |ss| && key in KeysOf(ss[k])
  {
    if ss == [] then {}
    else
      var init := ss[..|ss| - 1];
      assert forall k :: 0 <= k < |init| ==> init[k] == ss[k];
      SplitKeys(init) + KeysOf(ss[|ss| - 1])
  }

  /** `MemberDelta` as a function of the split, for sums. */
  function MemberShare(payer: Id, k: Id): Split -> real
  {
    (sp: Split) => MemberDelta(payer, sp, k)
  }

  /** `PendingDelta` as a function of the split, for sums. */
  function PendingShareOf(key: string): Split -> real
  {
    (sp: Split) => PendingDelta(sp, key)
  }

  /** An entry no split names is debited by nothing. */
  lemma {:induction false} UnnamedNotDebited(ss: seq<Split>, key: string)
    requires key !in SplitKeys(ss)
    ensures SumOf(ss, PendingShareOf(key)) == 0.0
  {
    if ss != [] {
      var init := ss[..|ss| - 1];
      assert key !in SplitKeys(init);
      UnnamedNotDebited(init, key);
    }
  }

  /** `expense.splits.forEach(...)`, in order. */
  function ApplySplits(s: Sheet, payer: Id, ss: seq<Split>): (r: Sheet)
    requires SplitsCovered(s.members.Keys, payer, ss)
    ensures r.members.Keys == s.members.Keys
  {
    if ss == [] then s
    else
      var init := ss[..|ss| - 1];
      assert SplitsCovered(s.members.Keys, payer, init) by {
        assert forall k :: 0 <= k < |init| ==> init[k] == ss[k];
      }
      ApplySplit(ApplySplits(s, payer, init), payer, ss[|ss| - 1])
  }

  /** What one record's splits do: each member moves by the sum of its deltas, each
      pending entry likewise, and the e-mails of the pending splits gain entries. */
  lemma {:induction false} SplitsEffect(s: Sheet, payer: Id, ss: seq<Split>)
    requires SplitsCovered(s.members.Keys, payer, ss)
    ensures ApplySplits(s, payer, ss).pending.Keys == s.pending.Keys + SplitKeys(ss)
    ensures forall k :: k in s.members ==>
              ApplySplits(s, payer, ss).members[k] == s.members[k] + SumOf(ss, MemberShare(payer, k))
    ensures forall key :: key in ApplySplits(s, payer, ss).pending ==>
              ApplySplits(s, payer, ss).pending[key] == Base(s, key) + SumOf(ss, PendingShareOf(key))
    ensures Consistent(s) ==> Consistent(ApplySplits(s, payer, ss))
  {
    if ss != [] {
      var init, last := ss[..|ss| - 1], ss[|ss| - 1];
      assert SplitsCovered(s.members.Keys, payer, init) by {
        assert forall k :: 0 <= k < |init| ==> init[k] == ss[k];
      }
      var prev := ApplySplits(s, payer, init);
      SplitsEffect(s, payer, init);
      SplitEffect(prev, payer, last);
      var r := ApplySplits(s, payer, ss);
      assert r == ApplySplit(prev, payer, last);
      forall key | key in r.pending
        ensures r.pending[key] == Base(s, key) + SumOf(ss, PendingShareOf(key))
      {
        if key !in prev.pending {
          UnnamedNotDebited(init, key);
        }
      }
    }
  }

  lemma {:induction false} ApplySplitsConserves(s: Sheet, payer: Id, ss: seq<Split>)
    requires SplitsCovered(s.members.Keys, payer, ss)
    ensures Total(ApplySplits(s, payer, ss)) == Total(s)
  {
    if ss != [] {
      var init := ss[..|ss| - 1];
      assert SplitsCovered(s.members.Keys, payer, init) by {
        assert forall k :: 0 <= k < |init| ==> init[k] == ss[k];
      }
      ApplySplitsConserves(s, payer, init);
      ApplySplitConserves(ApplySplits(s, payer, init), payer, ss[|ss| - 1]);
    }
  }

  // ---------------------------------------------------------------- all records

  /** No split of any replayed record would produce a NaN balance. */
  predicate Covered(keys: set<Id>, es: seq<Expense>)
  {
    forall i :: 0 <= i < |es| ==> SplitsCovered(keys, es[i].payer, es[i].splits)
  }

  /** The pending entries a list of records debits. */
  function RecordKeys(es: seq<Expense>): set<string>
  {
    if es == [] then {} else RecordKeys(es[..|es| - 1]) + SplitKeys(es[|es| - 1].splits)
  }

  /** An e-mail is debited by the records exactly when some record's splits debit it. */
  lemma {:induction false} RecordKeysIn(es: seq<Expense>, key: string)
    ensures key in RecordKeys(es) <==> exists i :: 0 <= i < |es| && key in SplitKeys(es[i].splits)
  {
    if es != [] {
      var init := es[..|es| - 1];
      RecordKeysIn(init, key);
      if key in RecordKeys(init) {
        var i :| 0 <= i < |init| && key in SplitKeys(init[i].splits);
        assert es[i] == init[i];
      }
      if exists i :: 0 <= i < |es| && key in SplitKeys(es[i].splits) {
        var i :| 0 <= i < |es| && key in SplitKeys(es[i].splits);
        if i < |init| {
          assert init[i] == es[i];
        }
      }
    }
  }

  /** What a whole record adds to member `k`. */
  function RecordShare(k: Id): Expense -> real
  {
    (e: Expense) => SumOf(e.splits, MemberShare(e.payer, k))
  }

  /** What a whole record adds to pending entry `key`. */
  function RecordPendingShare(key: string): Expense -> real
  {
    (e: Expense) => SumOf(e.splits, PendingShareOf(key))
  }

  lemma {:induction false} UnnamedNotDebitedAll(es: seq<Expense>, key: string)
    requires key !in RecordKeys(es)
    ensures SumOf(es, RecordPendingShare(key)) == 0.0
  {
    if es != [] {
      var init, e := es[..|es| - 1], es[|es| - 1];
      assert key !in RecordKeys(init) && key !in SplitKeys(e.splits);
      UnnamedNotDebitedAll(init, key);
      UnnamedNotDebited(e.splits, key);
    }
  }

  /** `expenses.forEach(...)`, in order. */
  function ApplyAll(s: Sheet, es: seq<Expense>): (r: Sheet)
    requires Covered(s.members.Keys, es)
    ensures r.members.Keys == s.members.Keys
  {
    if es == [] then s
    else
      var init := es[..|es| - 1];
      assert Covered(s.members.Keys, init) by {
        assert forall i :: 0 <= i < |init| ==> init[i] == es[i];
      }
      var e := es[|es| - 1];
      ApplySplits(ApplyAll(s, init), e.payer, e.splits)
  }

  /** The closed form of the replay: each member's balance is its start plus what every
      record adds to it, each pending entry likewise, and the pending entries are the
      starting ones plus every e-mail a pending split debits. */
  lemma {:induction false} AllEffect(s: Sheet, es: seq<Expense>)
    requires Covered(s.members.Keys, es)
    ensures ApplyAll(s, es).pending.Keys == s.pending.Keys + RecordKeys(es)
    ensures forall k :: k in s.members ==>
              ApplyAll(s, es).members[k] == s.members[k] + SumOf(es, RecordShare(k))
    ensures forall key :: key in ApplyAll(s, es).pending ==>
              ApplyAll(s, es).pending[key] == Base(s, key) + SumOf(es, RecordPendingShare(key))
    ensures Consistent(s) ==> Consistent(ApplyAll(s, es))
  {
    if es != [] {
      var init, e := es[..|es| - 1], es[|es| - 1];
      assert Covered(s.members.Keys, init) by {
        assert forall i :: 0 <= i < |init| ==> init[i] == es[i];
      }
      var prev := ApplyAll(s, init);
      AllEffect(s, init);
      SplitsEffect(prev, e.payer, e.splits);
      var r := ApplyAll(s, es);
      assert r == ApplySplits(prev, e.payer, e.splits);
      forall k | k in s.members
        ensures r.members[k] == s.members[k] + SumOf(es, RecordShare(k))
      {
        assert RecordShare(k)(e) == SumOf(e.splits, MemberShare(e.payer, k));
      }
      forall key | key in r.pending
        ensures r.pending[key] == Base(s, key) + SumOf(es, RecordPendingShare(key))
      {
        assert RecordPendingShare(key)(e) == SumOf(e.splits, PendingShareOf(key));
        if key !in prev.pending {
          UnnamedNotDebitedAll(init, key);
        }
      }
    }
  }

  lemma {:induction false} ApplyAllConserves(s: Sheet, es: seq<Expense>)
    requires Covered(s.members.Keys, es)
    ensures Total(ApplyAll(s, es)) == Total(s)
  {
    if es != [] {
      var init := es[..|es| - 1];
      assert Covered(s.members.Keys, init) by {
        assert forall i :: 0 <= i < |init| ==> init[i] == es[i];
      }
      var e := es[|es| - 1];
      ApplyAllConserves(s, init);
      ApplySplitsConserves(ApplyAll(s, init), e.payer, e.splits);
    }
  }

  // ---------------------------------------------------------------- the sheet

  /** The sheet for a group and the records it replays. */
  function GroupBalances(g: Group, es: seq<Expense>): (r: Sheet)
    requires Covered(InitSheet(g).members.Keys, es)
    ensures forall u :: u in r.members <==> u in g.members
  {
    ApplyAll(InitSheet(g), es)
  }

  /** The entries of the sheet: exactly the members, and exactly the listed e-mails plus
      every e-mail a pending split debits (an unlisted one gains an entry); each starts at
      zero, so its balance is what the records add to it. */
  lemma SheetEntries(g: Group, es: seq<Expense>)
    requires Covered(InitSheet(g).members.Keys, es)
    ensures forall key :: key in GroupBalances(g, es).pending <==>
              (exists i :: 0 <= i < |g.pendingMembers| && g.pendingMembers[i].email == key) || key in RecordKeys(es)
    ensures forall u :: u in GroupBalances(g, es).members ==>
              GroupBalances(g, es).members[u] == SumOf(es, RecordShare(u))
    ensures forall key :: key in GroupBalances(g, es).pending ==>
              GroupBalances(g, es).pending[key] == SumOf(es, RecordPendingShare(key))
    ensures Consistent(GroupBalances(g, es))
  {
    AllEffect(InitSheet(g), es);
  }

  /** Money is conserved: when every payer and split user has an entry, the balances of
      the sheet sum to zero. */
  lemma Conservation(g: Group, es: seq<Expense>)
    requires Covered(InitSheet(g).members.Keys, es)
    ensures Total(GroupBalances(g, es)) == 0.0
  {
    InitSheetTotal(g);
    ApplyAllConserves(InitSheet(g), es);
  }

  /** Coverage is a property of the records, not of their order. */
  lemma CoveredPermutation(keys: set<Id>, es1: seq<Expense>, es2: seq<Expense>)
    requires multiset(es1) == multiset(es2) && Covered(keys, es1)
    ensures Covered(keys, es2)
  {
    forall i | 0 <= i < |es2|
      ensures SplitsCovered(keys, es2[i].payer, es2[i].splits)
    {
      assert es2[i] in multiset(es1);
      var j :| 0 <= j < |es1| && es1[j] == es2[i];
    }
  }

  /** The amounts of the sheet do not depend on the order in which records are replayed
      (only the name shown for an unlisted e-mail does: it comes from the first pending
      split that opens the entry). */
  lemma {:induction false} OrderIndependent(g: Group, es1: seq<Expense>, es2: seq<Expense>)
    requires multiset(es1) == multiset(es2)
    requires Covered(InitSheet(g).members.Keys, es1)
    ensures Covered(InitSheet(g).members.Keys, es2)
    ensures GroupBalances(g, es1).members == GroupBalances(g, es2).members
    ensures GroupBalances(g, es1).pending == GroupBalances(g, es2).pending
  {
    var s := InitSheet(g);
    CoveredPermutation(s.members.Keys, es1, es2);
    AllEffect(s, es1);
    AllEffect(s, es2);
    var r1, r2 := GroupBalances(g, es1), GroupBalances(g, es2);
    forall k | k in r1.members
      ensures r1.members[k] == r2.members[k]
    {
      SumOfPermutation(es1, es2, RecordShare(k));
    }
    SameRecordKeys(es1, es2);
    forall key | key in r1.pending
      ensures r1.pending[key] == r2.pending[key]
    {
      SumOfPermutation(es1, es2, RecordPendingShare(key));
    }
  }

  lemma SameRecordKeys(es1: seq<Expense>, es2: seq<Expense>)
    requires multiset(es1) == multiset(es2)
    ensures RecordKeys(es1) == RecordKeys(es2)
  {
    forall key
      ensures key in RecordKeys(es1) <==> key in RecordKeys(es2)
    {
      RecordKeysIn(es1, key);
      RecordKeysIn(es2, key);
      if key in RecordKeys(es1) {
        var i :| 0 <= i < |es1| && key in SplitKeys(es1[i].splits);
        assert es1[i] in multiset(es2);
        var j :| 0 <= j < |es2| && es2[j] == es1[i];
      }
      if key in RecordKeys(es2) {
        var i :| 0 <= i < |es2| && key in SplitKeys(es2[i].splits);
        assert es2[i] in multiset(es1);
        var j :| 0 <= j < |es1| && es1[j] == es2[i];
      }
    }
  }

  lemma SameSplitKeys(ss1: seq<Split>, ss2: seq<Split>)
    requires multiset(ss1) == multiset(ss2)
    ensures SplitKeys(ss1) == SplitKeys(ss2)
  {
    forall key
      ensures key in SplitKeys(ss1) <==> key in SplitKeys(ss2)
    {
      if key in SplitKeys(ss1) {
        var i :| 0 <= i < |ss1| && key in KeysOf(ss1[i]);
        assert ss1[i] in multiset(ss2);
        var j :| 0 <= j < |ss2| && ss2[j] == ss1[i];
      }
      if key in SplitKeys(ss2) {
        var i :| 0 <= i < |ss2| && key in KeysOf(ss2[i]);
        assert ss2[i] in multiset(ss1);
        var j :| 0 <= j < |ss1| && ss1[j] == ss2[i];
      }
    }
  }

  /** Nor do they depend on the order of the splits inside a record. */
  lemma {:induction false} SplitOrderIndependent(s: Sheet, payer: Id, ss1: seq<Split>, ss2: seq<Split>)
    requires multiset(ss1) == multiset(ss2)
    requires SplitsCovered(s.members.Keys, payer, ss1)
    ensures SplitsCovered(s.members.Keys, payer, ss2)
    ensures ApplySplits(s, payer, ss1).members == ApplySplits(s, payer, ss2).members
    ensures ApplySplits(s, payer, ss1).pending == ApplySplits(s, payer, ss2).pending
  {
    forall k | 0 <= k < |ss2|
      ensures SplitCovered(s.members.Keys, payer, ss2[k])
    {
      assert ss2[k] in multiset(ss1);
      var j :| 0 <= j < |ss1| && ss1[j] == ss2[k];
    }
    SplitsEffect(s, payer, ss1);
    SplitsEffect(s, payer, ss2);
    var r1, r2 := ApplySplits(s, payer, ss1), ApplySplits(s, payer, ss2);
    forall k | k in r1.members
      ensures r1.members[k] == r2.members[k]
    {
      SumOfPermutation(ss1, ss2, MemberShare(payer, k));
    }
    SameSplitKeys(ss1, ss2);
    forall key | key in r1.pending
      ensures r1.pending[key] == r2.pending[key]
    {
      SumOfPermutation(ss1, ss2, PendingShareOf(key));
    }
  }

  // ---------------------------------------------------------------- the loops

  /** The nested `forEach` loops of `getGroupBalances`, filling the two dictionaries in
      place. They compute exactly `GroupBalances`. */
  method ComputeBalances(g: Group, es: seq<Expense>) returns (sheet: Sheet)
    requires Covered(InitSheet(g).members.Keys, es)
    ensures sheet == GroupBalances(g, es)
  {
    sheet := StartSheet(g);
    for i := 0 to |es|
      invariant sheet.members.Keys == InitSheet(g).members.Keys
      invariant Covered(InitSheet(g).members.Keys, es[..i])
      invariant sheet == ApplyAll(InitSheet(g), es[..i])
    {
      assert es[..i + 1][..i] == es[..i];
      assert Covered(InitSheet(g).members.Keys, es[..i + 1]);
      sheet := ReplayRecord(sheet, es[i].payer, es[i].splits);
    }
    assert es[..|es|] == es;
  }

  /** The two initialisation loops. */
  method StartSheet(g: Group) returns (sheet: Sheet)
    ensures sheet == InitSheet(g)
  {
    var members: map<Id, real> := map[];
    for i := 0 to |g.members|
      invariant members == InitMembers(g.members[..i])
    {
      assert g.members[..i + 1][..i] == g.members[..i];
      members := members[g.members[i] := 0.0];
    }
    assert g.members[..|g.members|] == g.members;
    var pending: map<string, real> := map[];
    var names: map<string, Option<string>> := map[];
    for i := 0 to |g.pendingMembers|
      invariant pending == InitPending(g.pendingMembers[..i])
      invariant names == InitNames(g.pendingMembers[..i])
    {
      var pm := g.pendingMembers[i];
      assert g.pendingMembers[..i + 1][..i] == g.pendingMembers[..i];
      pending := pending[pm.email := 0.0];
      names := names[pm.email := Some(pm.name)];
    }
    assert g.pendingMembers[..|g.pendingMembers|] == g.pendingMembers;
    sheet := Sheet(members, pending, names);
  }

  /** The inner loop over one record's splits. */
  method ReplayRecord(start: Sheet, payer: Id, ss: seq<Split>) returns (sheet: Sheet)
    requires SplitsCovered(start.members.Keys, payer, ss)
    ensures sheet == ApplySplits(start, payer, ss)
  {
    sheet := start;
    for k := 0 to |ss|
      invariant sheet.members.Keys == start.members.Keys
      invariant SplitsCovered(start.members.Keys, payer, ss[..k])
      invariant sheet == ApplySplits(start, payer, ss[..k])
    {
      assert ss[..k + 1][..k] == ss[..k];
      assert SplitsCovered(start.members.Keys, payer, ss[..k + 1]);
      sheet := ReplaySplit(sheet, payer, ss[k]);
    }
    assert ss[..|ss|] == ss;
  }

  /** The body of the inner loop, updating the dictionaries one entry at a time. */
  method ReplaySplit(start: Sheet, payer: Id, sp: Split) returns (sheet: Sheet)
    requires SplitCovered(start.members.Keys, payer, sp)
    ensures sheet == ApplySplit(start, payer, sp)
  {
    var members, pending, names := start.members, start.pending, start.names;
    if sp.isPending && Present(sp.email) {
      var key := Lower(sp.email.value);
      if key !in pending {
        pending := pending[key := 0.0];
        names := names[key := sp.name];
      }
      pending := pending[key := pending[key] - sp.amount];
      members := members[payer := members[payer] + sp.amount];
    } else if sp.user.Some? {
      var u := sp.user.value;
      if u != payer {
        members := members[u := members[u] - sp.amount];
        members := members[payer := members[payer] + sp.amount];
      }
    }
    sheet := Sheet(members, pending, names);
  }
}
