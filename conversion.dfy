/** The split rewrite of `convertPendingMemberExpenses` (controllers/groupController.js, and
    its copy in controllers/authController.js): when an invited e-mail registers or is added
    by id, every pending split for that e-mail in the group's records becomes a split of
    the user. */
module Conversion {
  import opened Common
  import opened Text
  import opened ExpenseModel
  import opened Ledger

  /** The test inside the `map`: the split has a non-empty e-mail equal to the target
      ignoring case, and it is pending. */
  predicate Matches(sp: Split, email: string)
  {
    Present(sp.email) && Lower(sp.email.value) == Lower(email) && sp.isPending
  }

  /** One split through the `map`: a matching split becomes the user's registered share
      of the same amount, with no e-mail and no name; any other split is returned as is. */
  function ConvertSplit(sp: Split, email: string, uid: Id): (r: Split)
    ensures r.amount == sp.amount && !Matches(r, email)
    ensures Matches(sp, email) ==> r.user == Some(uid) && !r.isPending && r.email.None? && r.name.None?
    ensures !Matches(sp, email) ==> r == sp
  {
    if Matches(sp, email) then Split(Some(uid), None, None, sp.amount, false) else sp
  }

  /** `expense.splits.map(...)`. The rewrite keeps the number, the order and the total of
      the splits, leaves every non-matching split alone, gives every matching one to the
      user, and leaves no matching split behind. */
  function ConvertSplits(ss: seq<Split>, email: string, uid: Id): (r: seq<Split>)
    ensures |r| == |ss|
    ensures forall i :: 0 <= i < |ss| && !Matches(ss[i], email) ==> r[i] == ss[i]
    ensures forall i :: 0 <= i < |ss| && Matches(ss[i], email) ==>
              r[i] == Split(Some(uid), None, None, ss[i].amount, false)
    ensures forall i :: 0 <= i < |r| ==> !Matches(r[i], email)
    ensures SplitTotal(r) == SplitTotal(ss)
  {
    if ss == [] then []
    else ConvertSplits(ss[..|ss| - 1], email, uid) + [ConvertSplit(ss[|ss| - 1], email, uid)]
  }

  /** Converting a second time, for any user, changes nothing. */
  lemma ConvertSplitsIdempotent(ss: seq<Split>, email: string, uid: Id, uid2: Id)
    ensures ConvertSplits(ConvertSplits(ss, email, uid), email, uid2) == ConvertSplits(ss, email, uid)
  {
  }

  /** The `Expense.find` filter: a record of the group with some split whose stored e-mail
      is the lower-cased target and some pending split (not necessarily the same one). */
  predicate Selected(e: Expense, gid: Id, email: string)
  {
    && e.group == gid
    && (exists i :: 0 <= i < |e.splits| && e.splits[i].email == Some(Lower(email)))
    && (exists j :: 0 <= j < |e.splits| && e.splits[j].isPending)
  }

  /** One record through the loop: a selected record gets its splits rewritten and is saved;
      any other record is not touched. */
  function ConvertRecord(e: Expense, gid: Id, email: string, uid: Id): (r: Expense)
    ensures r == e.(splits := r.splits)
    ensures Selected(e, gid, email) ==> r.splits == ConvertSplits(e.splits, email, uid)
    ensures !Selected(e, gid, email) ==> r == e
  {
    if Selected(e, gid, email) then e.(splits := ConvertSplits(e.splits, email, uid)) else e
  }

  /** The query misses no record the `map` would change: since stored split e-mails are
      lower-cased, a record of the group that is not selected has no matching split. */
  lemma {:induction false} UnselectedHasNoMatch(e: Expense, gid: Id, email: string)
    requires Normal(e) && e.group == gid && !Selected(e, gid, email)
    ensures forall i :: 0 <= i < |e.splits| ==> !Matches(e.splits[i], email)
  {
    forall i | 0 <= i < |e.splits|
      ensures !Matches(e.splits[i], email)
    {
      var sp := e.splits[i];
      if sp.email.Some? {
        LowerOfLower(sp.email.value);
      }
    }
  }

  /** Whether or not a record of the group was selected, after the loop it holds exactly
      the rewritten splits; this is what makes the query a sound pre-filter. */
  lemma {:induction false} ConvertRecordInGroup(e: Expense, gid: Id, email: string, uid: Id)
    requires Normal(e) && e.group == gid
    ensures ConvertRecord(e, gid, email, uid).splits == ConvertSplits(e.splits, email, uid)
  {
    if !Selected(e, gid, email) {
      UnselectedHasNoMatch(e, gid, email);
      assert ConvertSplits(e.splits, email, uid) == e.splits;
    }
  }

  /** An invariant the rewrite keeps: a well-formed record stays well-formed, and a record
      whose splits summed to its amount still does. */
  lemma ConvertRecordWellFormed(e: Expense, gid: Id, email: string, uid: Id)
    requires WellFormed(e)
    ensures WellFormed(ConvertRecord(e, gid, email, uid))
    ensures SplitTotal(ConvertRecord(e, gid, email, uid).splits) == SplitTotal(e.splits)
  {
  }

  /** Converting a record a second time, for the same group and e-mail, changes nothing. */
  lemma {:induction false} ConvertRecordIdempotent(e: Expense, gid: Id, email: string, uid: Id)
    requires Normal(e)
    ensures ConvertRecord(ConvertRecord(e, gid, email, uid), gid, email, uid) == ConvertRecord(e, gid, email, uid)
  {
    var r := ConvertRecord(e, gid, email, uid);
    if e.group == gid {
      ConvertRecordInGroup(e, gid, email, uid);
      assert ConvertSplits(r.splits, email, uid) == r.splits;
    }
  }

  /** The whole loop over the collection for one group. */
  function ConvertGroup(es: seq<Expense>, gid: Id, email: string, uid: Id): (r: seq<Expense>)
    ensures |r| == |es|
    ensures forall i :: 0 <= i < |es| ==> r[i] == ConvertRecord(es[i], gid, email, uid)
  {
    seq(|es|, i requires 0 <= i < |es| => ConvertRecord(es[i], gid, email, uid))
  }

  /** What the loop over one group promises: records of other groups are unchanged, every
      record keeps all fields but its splits, and no well-formed record of the group keeps
      a matching pending split. */
  lemma {:induction false} ConvertGroupEffect(es: seq<Expense>, gid: Id, email: string, uid: Id)
    requires forall i :: 0 <= i < |es| ==> Normal(es[i])
    ensures forall i :: 0 <= i < |es| && es[i].group != gid ==> ConvertGroup(es, gid, email, uid)[i] == es[i]
    ensures forall i :: 0 <= i < |es| ==>
              ConvertGroup(es, gid, email, uid)[i] == es[i].(splits := ConvertGroup(es, gid, email, uid)[i].splits)
    ensures forall i, k :: 0 <= i < |es| && es[i].group == gid && 0 <= k < |ConvertGroup(es, gid, email, uid)[i].splits| ==>
              !Matches(ConvertGroup(es, gid, email, uid)[i].splits[k], email)
  {
    var r := ConvertGroup(es, gid, email, uid);
    forall i | 0 <= i < |es| && es[i].group == gid
      ensures r[i].splits == ConvertSplits(es[i].splits, email, uid)
    {
      ConvertRecordInGroup(es[i], gid, email, uid);
    }
  }

  /** Running the loop twice for the same group and e-mail changes nothing the second
      time. */
  lemma {:induction false} ConvertGroupIdempotent(es: seq<Expense>, gid: Id, email: string, uid: Id)
    requires forall i :: 0 <= i < |es| ==> Normal(es[i])
    ensures ConvertGroup(ConvertGroup(es, gid, email, uid), gid, email, uid) == ConvertGroup(es, gid, email, uid)
  {
    var r := ConvertGroup(es, gid, email, uid);
    ConvertGroupEffect(es, gid, email, uid);
    forall i | 0 <= i < |r|
      ensures ConvertRecord(r[i], gid, email, uid) == r[i]
    {
      if r[i].group == gid {
        ConvertRecordInGroup(es[i], gid, email, uid);
        assert ConvertSplits(r[i].splits, email, uid) == r[i].splits;
      }
    }
  }
}
