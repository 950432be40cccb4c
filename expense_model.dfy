/** The ledger record of models/Expense.js: one document type for both expenses and
    payments ("settle up"), with its enums, defaults and validators. */
module ExpenseModel {
  import opened Common
  import opened Text

  /** `type`: EXPENSE or PAYMENT. */
  datatype Kind = EXPENSE | PAYMENT

  /** `paymentDetails.method`. */
  datatype Method = CASH | BANK_TRANSFER | UPI | CREDIT_CARD | DEBIT_CARD | PAYPAL | VENMO | OTHER

  /** `verification.status`. */
  datatype Status = PENDING | ACCEPTED | DISPUTED

  function KindName(k: Kind): string
  {
    match k
    case EXPENSE => "EXPENSE"
    case PAYMENT => "PAYMENT"
  }

  function MethodName(m: Method): string
  {
    match m
    case CASH => "CASH"
    case BANK_TRANSFER => "BANK_TRANSFER"
    case UPI => "UPI"
    case CREDIT_CARD => "CREDIT_CARD"
    case DEBIT_CARD => "DEBIT_CARD"
    case PAYPAL => "PAYPAL"
    case VENMO => "VENMO"
    case OTHER => "OTHER"
  }

  function StatusName(s: Status): string
  {
    match s
    case PENDING => "PENDING"
    case ACCEPTED => "ACCEPTED"
    case DISPUTED => "DISPUTED"
  }

  /** The enum validator of `type`: a string is accepted exactly when it names a kind. */
  function ParseKind(s: string): (r: Option<Kind>)
    ensures r.Some? ==> KindName(r.value) == s
    ensures r.None? <==> forall k: Kind :: KindName(k) != s
  {
    if s == "EXPENSE" then Some(EXPENSE)
    else if s == "PAYMENT" then Some(PAYMENT)
    else None
  }

  /** The enum validator of `paymentDetails.method`. */
  function ParseMethod(s: string): (r: Option<Method>)
    ensures r.Some? ==> MethodName(r.value) == s
    ensures r.None? <==> forall m: Method :: MethodName(m) != s
  {
    if s == "CASH" then Some(CASH)
    else if s == "BANK_TRANSFER" then Some(BANK_TRANSFER)
    else if s == "UPI" then Some(UPI)
    else if s == "CREDIT_CARD" then Some(CREDIT_CARD)
    else if s == "DEBIT_CARD" then Some(DEBIT_CARD)
    else if s == "PAYPAL" then Some(PAYPAL)
    else if s == "VENMO" then Some(VENMO)
    else if s == "OTHER" then Some(OTHER)
    else None
  }

  /** The enum validator of `verification.status`. */
  function ParseStatus(s: string): (r: Option<Status>)
    ensures r.Some? ==> StatusName(r.value) == s
    ensures r.None? <==> forall t: Status :: StatusName(t) != s
  {
    if s == "PENDING" then Some(PENDING)
    else if s == "ACCEPTED" then Some(ACCEPTED)
    else if s == "DISPUTED" then Some(DISPUTED)
    else None
  }

  /** One share of a record. The schema makes every field but `amount` optional, so a
      stored split is the general record: normalised splits have exactly one of `user`
      and `email`, but splits replaced by an update are stored as sent. */
  datatype Split = Split(user: Option<Id>, email: Option<string>, name: Option<string>,
                         amount: real, isPending: bool)

  datatype PaymentDetails = PaymentDetails(paymentMethod: Option<Method>, transactionId: Option<string>,
                                           remarks: Option<string>, recordedBy: Option<Id>)

  datatype Verification = Verification(isVerified: bool, verifiedBy: Option<Id>,
                                       verifiedAt: Option<Time>, status: Status)

  datatype Expense = Expense(
    id: Id,
    description: string,
    amount: real,
    date: Time,
    group: Id,
    category: Option<Id>,
    kind: Kind,
    payer: Id,
    receiver: Option<Id>,
    details: PaymentDetails,
    verification: Verification,
    receiptImage: Option<string>,
    splits: seq<Split>)

  const MaxRemarks: nat := 500

  /** The defaults of the nested paths. Mongoose applies them to every record, expenses
      included: unverified, status PENDING, no payment details. */
  const DefaultVerification: Verification := Verification(false, None, None, PENDING)
  const NoPaymentDetails: PaymentDetails := PaymentDetails(None, None, None, None)

  /** The split as the schema stores it: the `lowercase` setter applies to `email`. */
  function StoredSplit(user: Option<Id>, email: Option<string>, name: Option<string>,
                       amount: real, isPending: bool): (r: Split)
    ensures r.email.Some? ==> IsLower(r.email.value)
    ensures r.user == user && r.name == name && r.amount == amount && r.isPending == isPending
    ensures r.email.None? <==> email.None?
  {
    Split(user, if email.Some? then Some(Lower(email.value)) else None, name, amount, isPending)
  }

  /** Trim an optional string (the `trim` setter; null stays null). */
  function TrimOpt(s: Option<string>): (r: Option<string>)
    ensures r.Some? <==> s.Some?
    ensures r.Some? ==> Trimmed(r.value)
  {
    if s.Some? then Some(Trim(s.value)) else None
  }

  /** What the validators check when a record is saved: a non-empty `description`
      (it is stored trimmed, so blank text fails `required`), `amount >= 0`, every split
      amount `>= 0`, and remarks of at most 500 characters. The enum validators are
      the Parse functions above, applied where a string is assigned. */
  predicate Valid(e: Expense)
  {
    && e.description != ""
    && e.amount >= 0.0
    && (e.details.remarks.Some? ==> |e.details.remarks.value| <= MaxRemarks)
    && forall i :: 0 <= i < |e.splits| ==> e.splits[i].amount >= 0.0
  }

  /** What the setters guarantee about a stored record. */
  predicate Normal(e: Expense)
  {
    && Trimmed(e.description)
    && (e.details.remarks.Some? ==> Trimmed(e.details.remarks.value))
    && (e.details.transactionId.Some? ==> Trimmed(e.details.transactionId.value))
    && forall i :: 0 <= i < |e.splits| ==> (e.splits[i].email.Some? ==> IsLower(e.splits[i].email.value))
  }

  /** Every record in the collection satisfies this. */
  predicate WellFormed(e: Expense)
  {
    Valid(e) && Normal(e)
  }

  /** The `isSettled` virtual. */
  function IsSettled(e: Expense): (r: bool)
    ensures e.kind == EXPENSE ==> r
    ensures e.kind == PAYMENT ==> (r <==> e.verification.isVerified)
  {
    if e.kind == PAYMENT then e.verification.isVerified else true
  }
}
