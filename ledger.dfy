/** The pure logic of controllers/expenseController.js: the split-sum rule, split
    normalisation, the notifications each operation produces, the verification
    transition, who may edit remarks, the net amount between two users, and the queries
    (filters over the collection, ordered by date). */
module Ledger {
  import opened Common
  import opened Text
  import opened ExpenseModel
  import opened Sums

  /** The split-sum tolerance. */
  const Tolerance: real := 0.01

  /** At most this many records are returned by getUserExpenses. */
  const UserExpenseLimit: nat := 50

  /** A split as sent in a request body. */
  datatype SplitInput = SplitInput(user: Option<Id>, email: Option<string>, name: Option<string>,
                                   amount: real, isPending: Option<bool>)

  /** `splits.reduce((sum, split) => sum + split.amount, 0)`. */
  function InputTotal(ss: seq<SplitInput>): real
  {
    if ss == [] then 0.0 else InputTotal(ss[..|ss| - 1]) + ss[|ss| - 1].amount
  }

  /** The sum of the amounts of stored splits. */
  function SplitTotal(ss: seq<Split>): real
  {
    if ss == [] then 0.0 else SplitTotal(ss[..|ss| - 1]) + ss[|ss| - 1].amount
  }

  /** The guard `Math.abs(totalSplits - amount) > 0.01` fails exactly when this holds. */
  predicate SumMatches(total: real, amount: real)
  {
    -Tolerance <= total - amount <= Tolerance
  }

  lemma {:induction false} SplitTotalAppend(a: seq<Split>, b: seq<Split>)
    ensures SplitTotal(a + b) == SplitTotal(a) + SplitTotal(b)
  {
    if b != [] {
      assert (a + b)[..|a + b| - 1] == a + b[..|b| - 1];
      SplitTotalAppend(a, b[..|b| - 1]);
    } else {
      assert a + b == a;
    }
  }

  /** A split sent to createExpense names a party: a user id, or a (non-empty) e-mail. */
  predicate HasParty(s: SplitInput)
  {
    s.user.Some? || Present(s.email)
  }

  /** The pending-member name default. */
  const UnknownName: string := "Unknown"

  /** The per-split `map` of createExpense. A split with a user becomes a registered split;
      otherwise one with an e-mail becomes a pending split with the e-mail lower-cased and
      the name defaulting to 'Unknown'; one with neither is refused. The amount is kept. */
  function NormaliseSplit(s: SplitInput): (r: Result<Split>)
    ensures r.Ok? <==> HasParty(s)
    ensures r.Err? ==> r.error == SplitWithoutParty
    ensures r.Ok? ==> r.value.amount == s.amount && (r.value.isPending <==> s.user.None?)
    ensures r.Ok? && s.user.Some? ==> r.value.user == s.user && r.value.email.None? && r.value.name.None?
    ensures r.Ok? && s.user.None? ==>
      && r.value.user.None?
      && r.value.email == Some(Lower(s.email.value))
      && r.value.name == Some(if Present(s.name) then s.name.value else UnknownName)
  {
    if s.user.Some? then Ok(Split(s.user, None, None, s.amount, false))
    else if Present(s.email) then
      Ok(Split(None, Some(Lower(s.email.value)), Some(OrElse(s.name, UnknownName)), s.amount, true))
    else Err(SplitWithoutParty)
  }

  /** `splits.map(...)` with its throw: it succeeds exactly when every split names a party,
      and then keeps the count, the order and every amount, so the total is unchanged. */
  function NormaliseSplits(ss: seq<SplitInput>): (r: Result<seq<Split>>)
    ensures r.Ok? <==> forall i :: 0 <= i < |ss| ==> HasParty(ss[i])
    ensures r.Err? ==> r.error == SplitWithoutParty
    ensures r.Ok? ==> |r.value| == |ss|
    ensures r.Ok? ==> forall i :: 0 <= i < |ss| ==> NormaliseSplit(ss[i]) == Ok(r.value[i])
    ensures r.Ok? ==> SplitTotal(r.value) == InputTotal(ss)
  {
    if ss == [] then Ok([])
    else
      var prefix := ss[..|ss| - 1];
      match NormaliseSplits(prefix)
      case Err(e) => Err(e)
      case Ok(done) =>
        match NormaliseSplit(ss[|ss| - 1])
        case Err(e) => Err(e)
        case Ok(last) =>
          assert (done + [last])[..|done|] == done;
          Ok(done + [last])
  }

  /** How updateExpense stores a split sent in the body: as sent, with the schema's
      `lowercase` setter on the e-mail and `isPending` defaulting to false. */
  function RawSplit(s: SplitInput): (r: Split)
    ensures r.amount == s.amount && r.user == s.user && r.name == s.name
    ensures r.isPending == (s.isPending == Some(true))
    ensures r.email.Some? ==> IsLower(r.email.value)
  {
    StoredSplit(s.user, s.email, s.name, s.amount, s.isPending == Some(true))
  }

  function RawSplits(ss: seq<SplitInput>): (r: seq<Split>)
    ensures |r| == |ss| && SplitTotal(r) == InputTotal(ss)
    ensures forall i :: 0 <= i < |ss| ==> r[i] == RawSplit(ss[i])
  {
    if ss == [] then []
    else
      var done := RawSplits(ss[..|ss| - 1]);
      assert (done + [RawSplit(ss[|ss| - 1])])[..|done|] == done;
      done + [RawSplit(ss[|ss| - 1])]
  }

  // ----- notifications -----

  datatype NoticeKind = EXPENSE_ADDED | PAYMENT_RECEIVED | PAYMENT_VERIFIED | PAYMENT_DISPUTED | GROUP_INVITE

  /** A notification event: recipient, sender, type, related record and amount. Message
      texts are left to the notification sink. */
  datatype Notice = Notice(recipient: Id, sender: Id, kind: NoticeKind, relatedId: Id,
                           amount: Option<real>)

  /** A split of createExpense's body that produces an EXPENSE_ADDED notification. */
  predicate Notified(s: SplitInput, payer: Id)
  {
    s.user.Some? && s.user.value != payer
  }

  /** The notifications of createExpense: one per split whose user is set and is not
      the payer, sent by the payer; pending splits and the payer's own split produce none. */
  function ExpenseAddedNotices(splits: seq<SplitInput>, payer: Id, eid: Id): (r: seq<Notice>)
    ensures |r| <= |splits|
    ensures forall n :: n in r ==>
      n.kind == EXPENSE_ADDED && n.sender == payer && n.recipient != payer && n.relatedId == eid
    ensures forall i :: 0 <= i < |splits| && Notified(splits[i], payer) ==>
      Notice(splits[i].user.value, payer, EXPENSE_ADDED, eid, Some(splits[i].amount)) in r
    ensures forall n :: n in r ==>
      exists i :: 0 <= i < |splits| && splits[i].user == Some(n.recipient) && n.amount == Some(splits[i].amount)
  {
    if splits == [] then []
    else
      var prefix := splits[..|splits| - 1];
      var s := splits[|splits| - 1];
      var rest := ExpenseAddedNotices(prefix, payer, eid);
      assert forall i :: 0 <= i < |prefix| ==> prefix[i] == splits[i];
      if Notified(s, payer) then rest + [Notice(s.user.value, payer, EXPENSE_ADDED, eid, Some(s.amount))]
      else rest
  }

  /** A single split yields its notice exactly when it is notified. */
  lemma ExpenseAddedNoticesOne(s: SplitInput, payer: Id, eid: Id)
    ensures ExpenseAddedNotices([s], payer, eid) ==
      if Notified(s, payer) then [Notice(s.user.value, payer, EXPENSE_ADDED, eid, Some(s.amount))] else []
  {
    assert [s][..0] == [];
  }

  /** The notices of a concatenation are the notices of each part, in order: one notice per
      notified split, in split order. */
  lemma {:induction false} ExpenseAddedNoticesAppend(a: seq<SplitInput>, b: seq<SplitInput>, payer: Id, eid: Id)
    ensures ExpenseAddedNotices(a + b, payer, eid) ==
      ExpenseAddedNotices(a, payer, eid) + ExpenseAddedNotices(b, payer, eid)
    decreases |b|
  {
    if b == [] {
      assert a + b == a;
    } else {
      var b' := b[..|b| - 1];
      assert (a + b)[..|a + b| - 1] == a + b';
      assert (a + b)[|a + b| - 1] == b[|b| - 1];
      ExpenseAddedNoticesAppend(a, b', payer, eid);
    }
  }

  /** The notifications of settleUp: the receiver always; the payer too when someone else
      recorded the payment. */
  function SettleNotices(payer: Id, receiver: Id, recorder: Id, pid: Id, amount: real): (r: seq<Notice>)
    ensures |r| == (if recorder != payer then 2 else 1)
    ensures r[0] == Notice(receiver, recorder, PAYMENT_RECEIVED, pid, Some(amount))
    ensures forall n :: n in r ==> n.kind == PAYMENT_RECEIVED && n.sender == recorder
    ensures (exists n :: n in r && n.recipient == payer) <==> recorder != payer || receiver == payer
  {
    var toReceiver := Notice(receiver, recorder, PAYMENT_RECEIVED, pid, Some(amount));
    if recorder != payer then [toReceiver, Notice(payer, recorder, PAYMENT_RECEIVED, pid, Some(amount))]
    else [toReceiver]
  }

  /** The notification of verifyPayment, to the payer: PAYMENT_VERIFIED only when the
      request's status is exactly 'ACCEPTED'. */
  function VerifyNotice(e: Expense, verifier: Id, status: Option<string>): (r: Notice)
    ensures r.recipient == e.payer && r.sender == verifier && r.relatedId == e.id
    ensures r.kind == PAYMENT_VERIFIED <==> status == Some("ACCEPTED")
    ensures r.kind != PAYMENT_VERIFIED ==> r.kind == PAYMENT_DISPUTED
  {
    Notice(e.payer, verifier, if status == Some("ACCEPTED") then PAYMENT_VERIFIED else PAYMENT_DISPUTED,
           e.id, Some(e.amount))
  }

  // ----- payment verification and remarks -----

  /** The verification verifyPayment writes. It does not read the old verification, so
      any prior state, DISPUTED included, is overwritten. `isVerified` holds exactly when
      the request says 'ACCEPTED', while the stored status is `status || 'ACCEPTED'`: an
      absent status stores ACCEPTED with `isVerified` false. A status outside the enum
      fails validation (None). */
  function VerifyOutcome(verifier: Id, now: Time, status: Option<string>): (r: Option<Verification>)
    ensures r.Some? <==> !Present(status) || ParseStatus(status.value).Some?
    ensures r.Some? ==> r.value.verifiedBy == Some(verifier) && r.value.verifiedAt == Some(now)
    ensures r.Some? ==> (r.value.isVerified <==> status == Some("ACCEPTED"))
    ensures r.Some? && r.value.isVerified ==> r.value.status == ACCEPTED
    ensures !Present(status) ==> r == Some(Verification(false, Some(verifier), Some(now), ACCEPTED))
    ensures Present(status) && r.Some? ==> StatusName(r.value.status) == status.value
  {
    match ParseStatus(OrElse(status, "ACCEPTED"))
    case None => None
    case Some(st) => Some(Verification(status == Some("ACCEPTED"), Some(verifier), Some(now), st))
  }

  /** The `isInvolved` test of updatePaymentRemarks, evaluated left to right: the payer
      always passes; otherwise `payment.receiver.toString()` throws when the receiver is
      absent; otherwise the receiver or the recorder passes. None means permitted. */
  function RemarksPermission(e: Expense, actor: Id): (r: Option<Error>)
    ensures r.None? <==>
      e.payer == actor || (e.receiver.Some? && (e.receiver == Some(actor) || e.details.recordedBy == Some(actor)))
    ensures r == Some(MissingReference) <==> e.payer != actor && e.receiver.None?
    ensures r.Some? ==> r == Some(MissingReference) || r == Some(NotInvolved)
  {
    if e.payer == actor then None
    else if e.receiver.None? then Some(MissingReference)
    else if e.receiver == Some(actor) || e.details.recordedBy == Some(actor) then None
    else Some(NotInvolved)
  }

  // ----- queries -----

  /** `Expense.find(filter)`: the records satisfying `keep`, each as often as stored. No
      order is promised by `find`; the model keeps stored order, and no contract relies
      on it. */
  function Select(es: seq<Expense>, keep: Expense -> bool): (r: seq<Expense>)
    ensures |r| <= |es|
    ensures forall i :: 0 <= i < |r| ==> keep(r[i])
    ensures forall e :: keep(e) ==> multiset(r)[e] == multiset(es)[e]
    ensures forall e :: e in r <==> e in es && keep(e)
    ensures multiset(r) <= multiset(es)
  {
    if es == [] then []
    else
      var rest := Select(es[..|es| - 1], keep);
      var last := es[|es| - 1];
      assert es == es[..|es| - 1] + [last];
      if keep(last) then rest + [last] else rest
  }

  /** The filter of getPaymentsBetweenUsers: PAYMENT records from `u1` to `u2` or from
      `u2` to `u1`, in group `g` when one is given. */
  predicate IsBetween(e: Expense, u1: Id, u2: Id, g: Option<Id>)
  {
    && e.kind == PAYMENT
    && ((e.payer == u1 && e.receiver == Some(u2)) || (e.payer == u2 && e.receiver == Some(u1)))
    && (g.Some? ==> e.group == g.value)
  }

  function PaymentsBetween(es: seq<Expense>, u1: Id, u2: Id, g: Option<Id>): (r: seq<Expense>)
    ensures forall i :: 0 <= i < |r| ==> IsBetween(r[i], u1, u2, g)
    ensures forall e :: IsBetween(e, u1, u2, g) ==> multiset(r)[e] == multiset(es)[e]
    ensures multiset(r) <= multiset(es)
  {
    Select(es, e => IsBetween(e, u1, u2, g))
  }

  /** The query does not depend on which user is named first. */
  lemma {:induction false} PaymentsBetweenSymmetric(es: seq<Expense>, u1: Id, u2: Id, g: Option<Id>)
    ensures PaymentsBetween(es, u1, u2, g) == PaymentsBetween(es, u2, u1, g)
  {
    if es != [] {
      PaymentsBetweenSymmetric(es[..|es| - 1], u1, u2, g);
    }
  }

  /** The `netAmount` accumulator: the sum of the amounts of the records `u1` paid, minus
      the amounts of all the others. */
  function Net(ps: seq<Expense>, u1: Id): real
  {
    if ps == [] then 0.0
    else
      var p := ps[|ps| - 1];
      Net(ps[..|ps| - 1], u1) + (if p.payer == u1 then p.amount else -p.amount)
  }

  /** The `forEach` of getPaymentsBetweenUsers that computes `netAmount`. */
  method NetAmount(ps: seq<Expense>, u1: Id) returns (net: real)
    ensures net == Net(ps, u1)
  {
    net := 0.0;
    var i := 0;
    while i < |ps|
      invariant 0 <= i <= |ps|
      invariant net == Net(ps[..i], u1)
    {
      assert ps[..i + 1][..i] == ps[..i];
      if ps[i].payer == u1 {
        net := net + ps[i].amount;
      } else {
        net := net - ps[i].amount;
      }
      i := i + 1;
    }
    assert ps[..|ps|] == ps;
  }

  /** For payments between two distinct users, naming them the other way round negates
      the net amount. (For `u1 == u2` every record counts positively both ways.) */
  lemma {:induction false} NetSwap(ps: seq<Expense>, u1: Id, u2: Id, g: Option<Id>)
    requires u1 != u2
    requires forall i :: 0 <= i < |ps| ==> IsBetween(ps[i], u1, u2, g)
    ensures Net(ps, u2) == -Net(ps, u1)
  {
    if ps != [] {
      NetSwap(ps[..|ps| - 1], u1, u2, g);
    }
  }

  /** The net amount is additive over a split of the list (so it does not depend on
      how the result is paged). */
  lemma {:induction false} NetAppend(a: seq<Expense>, b: seq<Expense>, u1: Id)
    ensures Net(a + b, u1) == Net(a, u1) + Net(b, u1)
  {
    if b == [] {
      assert a + b == a;
    } else {
      assert (a + b)[..|a + b| - 1] == a + b[..|b| - 1];
      NetAppend(a, b[..|b| - 1], u1);
    }
  }

  /** What one payment contributes to the net amount. */
  function NetShare(u1: Id): Expense -> real
  {
    (p: Expense) => if p.payer == u1 then p.amount else -p.amount
  }

  lemma {:induction false} NetIsSum(ps: seq<Expense>, u1: Id)
    ensures Net(ps, u1) == SumOf(ps, NetShare(u1))
  {
    if ps != [] {
      NetIsSum(ps[..|ps| - 1], u1);
    }
  }

  /** The net amount does not depend on the order of the payments, so sorting them by
      date before summing changes nothing. */
  lemma NetOrderIndependent(ps: seq<Expense>, qs: seq<Expense>, u1: Id)
    requires multiset(ps) == multiset(qs)
    ensures Net(ps, u1) == Net(qs, u1)
  {
    NetIsSum(ps, u1);
    NetIsSum(qs, u1);
    SumOfPermutation(ps, qs, NetShare(u1));
  }

  /** The accumulator as the source writes it. The payments are loaded with
      `populate('payer')`, so `payment.payer` is a user document, and a document's
      `toString()` is its printed form, never the bare id `user1`: every amount is
      subtracted, whoever paid: the result is the net of a user who made none of the
      payments. */
  function NetAsWritten(ps: seq<Expense>): (r: real)
    ensures forall u :: (forall i :: 0 <= i < |ps| ==> ps[i].payer != u) ==> r == Net(ps, u)
  {
    if ps == [] then 0.0 else NetAsWritten(ps[..|ps| - 1]) - ps[|ps| - 1].amount
  }

  /** The discrepancy: for one payment of 10 made by `user1`, the source reports -10 where
      the net amount user1 paid is 10; and as written, swapping the users does not negate
      the result. */
  lemma NetAsWrittenDisagrees(p: Expense, u1: Id, u2: Id)
    requires p.payer == u1 && p.receiver == Some(u2) && p.amount == 10.0
    ensures NetAsWritten([p]) == -10.0 && Net([p], u1) == 10.0
    ensures NetAsWritten([p]) != -NetAsWritten([p])
  {
    assert [p][..0] == [];
  }

  /** `sort('-date')`. */
  predicate SortedByDateDesc(s: seq<Expense>)
  {
    forall i, j :: 0 <= i < j < |s| ==> s[i].date >= s[j].date
  }

  function InsertByDate(x: Expense, s: seq<Expense>): (r: seq<Expense>)
    requires SortedByDateDesc(s)
    ensures SortedByDateDesc(r)
    ensures multiset(r) == multiset(s) + multiset{x}
    ensures |r| == |s| + 1
  {
    if s == [] then [x]
    else if s[0].date < x.date then
      InsertFront(x, s);
      [x] + s
    else
      var rest := InsertByDate(x, s[1..]);
      InsertBehind(x, s, rest);
      [s[0]] + rest
  }

  /** A record newer than the head of a sorted list can go in front of it. */
  lemma InsertFront(x: Expense, s: seq<Expense>)
    requires SortedByDateDesc(s) && s != [] && s[0].date < x.date
    ensures SortedByDateDesc([x] + s)
  {
    var r := [x] + s;
    forall i, j | 0 <= i < j < |r|
      ensures r[i].date >= r[j].date
    {
      assert r[j] == s[j - 1];
      if i > 0 {
        assert r[i] == s[i - 1];
      }
    }
  }

  /** A record no newer than the head of a sorted list goes into its tail: the head stays
      in front. */
  lemma InsertBehind(x: Expense, s: seq<Expense>, rest: seq<Expense>)
    requires SortedByDateDesc(s) && s != [] && x.date <= s[0].date
    requires SortedByDateDesc(rest) && multiset(rest) == multiset(s[1..]) + multiset{x}
    ensures SortedByDateDesc([s[0]] + rest)
    ensures multiset([s[0]] + rest) == multiset(s) + multiset{x}
  {
    assert s == [s[0]] + s[1..];
    var r := [s[0]] + rest;
    forall i, j | 0 <= i < j < |r|
      ensures r[i].date >= r[j].date
    {
      assert r[j] == rest[j - 1];
      assert r[j] in multiset(rest);
      if i > 0 {
        assert r[i] == rest[i - 1];
      } else if r[j] != x {
        assert r[j] in multiset(s[1..]);
        var k :| 0 <= k < |s[1..]| && s[1..][k] == r[j];
        assert s[k + 1] == r[j];
      }
    }
  }

  /** The records ordered most recent first; a permutation of the input. */
  function SortByDateDesc(s: seq<Expense>): (r: seq<Expense>)
    ensures SortedByDateDesc(r)
    ensures multiset(r) == multiset(s) && |r| == |s|
  {
    if s == [] then []
    else
      assert s == [s[0]] + s[1..];
      InsertByDate(s[0], SortByDateDesc(s[1..]))
  }

  /** The filter of getUserExpenses: records the user paid or has a split in. */
  predicate Involves(e: Expense, u: Id)
  {
    e.payer == u || exists i :: 0 <= i < |e.splits| && e.splits[i].user == Some(u)
  }

  /** getUserExpenses: the user's records, most recent first: all of them when the user has
      at most 50, otherwise 50 (the most recent, see `UserExpensesNewest`). */
  function UserExpenses(es: seq<Expense>, u: Id): (r: seq<Expense>)
    ensures |r| <= UserExpenseLimit && SortedByDateDesc(r)
    ensures forall i :: 0 <= i < |r| ==> Involves(r[i], u)
    ensures multiset(r) <= multiset(es)
    ensures |InvolvingUser(es, u)| <= UserExpenseLimit ==>
      forall e :: Involves(e, u) ==> multiset(r)[e] == multiset(es)[e]
    ensures |InvolvingUser(es, u)| > UserExpenseLimit ==> |r| == UserExpenseLimit
  {
    Take(NewestInvolving(es, u), UserExpenseLimit)
  }

  /** The records getUserExpenses returns are the most recent: a record of the user that is
      left out (or kept fewer times than stored) is no newer than any record returned. */
  lemma UserExpensesNewest(es: seq<Expense>, u: Id)
    ensures forall e, i :: Involves(e, u) && multiset(UserExpenses(es, u))[e] < multiset(es)[e]
                           && 0 <= i < |UserExpenses(es, u)| ==>
      e.date <= UserExpenses(es, u)[i].date
  {
    PrefixKeepsNewest(es, NewestInvolving(es, u), UserExpenses(es, u), u);
  }

  /** `find` on the user followed by `sort('-date')`: every record of the user, as often as
      stored, newest first. */
  function NewestInvolving(es: seq<Expense>, u: Id): (r: seq<Expense>)
    ensures SortedByDateDesc(r) && |r| == |InvolvingUser(es, u)|
    ensures forall i :: 0 <= i < |r| ==> Involves(r[i], u)
    ensures multiset(r) <= multiset(es)
    ensures forall e :: Involves(e, u) ==> multiset(r)[e] == multiset(es)[e]
  {
    var mine := InvolvingUser(es, u);
    var all := SortByDateDesc(mine);
    assert forall i :: 0 <= i < |all| ==> Involves(all[i], u) by {
      forall i | 0 <= i < |all| ensures Involves(all[i], u) {
        assert all[i] in multiset(mine);
      }
    }
    all
  }

  /** A record of the user that occurs more often in the sorted list than in a prefix of it
      occurs after the prefix, so it is no newer than anything in the prefix. */
  lemma PrefixKeepsNewest(es: seq<Expense>, all: seq<Expense>, r: seq<Expense>, u: Id)
    requires SortedByDateDesc(all) && |r| <= |all| && r == all[..|r|]
    requires forall e :: Involves(e, u) ==> multiset(all)[e] == multiset(es)[e]
    ensures forall e, i :: Involves(e, u) && multiset(r)[e] < multiset(es)[e] && 0 <= i < |r| ==>
      e.date <= r[i].date
  {
    var n := |r|;
    assert all == r + all[n..];
    assert multiset(all) == multiset(r) + multiset(all[n..]);
    forall e, i | Involves(e, u) && multiset(r)[e] < multiset(es)[e] && 0 <= i < n
      ensures e.date <= r[i].date
    {
      assert e in multiset(all[n..]);
      var j :| 0 <= j < |all[n..]| && all[n..][j] == e;
      assert all[n + j] == e;
    }
  }

  /** `limit(n)`: the first `n` records, or all of them when there are fewer. */
  function Take(s: seq<Expense>, n: nat): (r: seq<Expense>)
    ensures |r| <= n && |r| <= |s| && r == s[..|r|]
    ensures |s| <= n ==> r == s
    ensures |s| > n ==> |r| == n
    ensures SortedByDateDesc(s) ==> SortedByDateDesc(r)
    ensures multiset(r) <= multiset(s)
  {
    if |s| <= n then s
    else
      assert s == s[..n] + s[n..];
      s[..n]
  }

  /** The records the user paid or has a split in, in stored order. */
  function InvolvingUser(es: seq<Expense>, u: Id): (r: seq<Expense>)
    ensures forall i :: 0 <= i < |r| ==> Involves(r[i], u)
    ensures forall e :: Involves(e, u) ==> multiset(r)[e] == multiset(es)[e]
    ensures multiset(r) <= multiset(es)
  {
    Select(es, e => Involves(e, u))
  }
}
