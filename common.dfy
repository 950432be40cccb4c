/** Identifiers, optional values, results and the error conditions the controllers report. */
module Common {

  /** A document id (a Mongo ObjectId). Ids are compared by value, as the controllers do
      through `toString()` and Mongoose's `includes`. */
  type Id = int

  /** An opaque timestamp; `Date.now()` is supplied by the caller. */
  type Time = int

  datatype Option<T> = None | Some(value: T)

  /** The reasons a request is refused. Each names the check in the controller that
      produced it; the HTTP status code is left to the transport. */
  datatype Error =
    | MissingFields            // 400: a required request field is absent or falsy
    | GroupNotFound            // 404
    | ExpenseNotFound          // 404
    | UserNotFound             // 404
    | NotGroupMember           // 403: requester is not in group.members
    | NotPayer                 // 403: only the payer may update or delete
    | NotReceiver              // 403: only the receiver may verify a payment
    | NotInvolved              // 403: not payer, receiver or recorder of a payment
    | NotCreator               // 403: only the creator may update or delete a group
    | NotCreatorOrSelf         // 403: removeMember by someone else
    | SplitSumMismatch         // 400: |sum(splits) - amount| > 0.01
    | SplitWithoutParty        // 500: thrown while normalising a split with neither user nor email
    | ValidationFailed         // 500: the schema validators refuse the document at save
    | SameParty                // 400: payer === receiver
    | PartiesNotMembers        // 400: payer or receiver is not a group member
    | NotAPayment              // 400: verify / remarks on a record whose type is not PAYMENT
    | MissingReference         // 500: a TypeError from dereferencing an absent document or field
    | AlreadyMember            // 400
    | AlreadyInvited           // 400
    | MissingMemberFields      // 400: neither userId nor both email and name
    | NotificationUnavailable  // 500: ReferenceError, `Notification` is not imported
    | ShortPassword            // 400: password shorter than 6 characters
    | UserExists               // 400
    | BalanceUndefined         // a balance would be NaN (see Balances.Covered)

  datatype Result<T> = Ok(value: T) | Err(error: Error)

  /** JavaScript truthiness of an optional string: absent, null and "" are falsy. */
  predicate Present(s: Option<string>)
  {
    s.Some? && s.value != ""
  }

  /** JavaScript truthiness of an optional number: absent, null and 0 are falsy. */
  predicate NonZero(a: Option<real>)
  {
    a.Some? && a.value != 0.0
  }

  /** JavaScript truthiness of an optional date given as a timestamp: absent, null and 0
      are falsy. */
  predicate Dated(d: Option<Time>)
  {
    d.Some? && d.value != 0
  }

  /** `x || fallback` for an optional string. */
  function OrElse(s: Option<string>, fallback: string): (r: string)
    ensures Present(s) ==> r == s.value
    ensures !Present(s) ==> r == fallback
  {
    if Present(s) then s.value else fallback
  }

  /** `x || null` for an optional string: falsy values become null. */
  function Truthy(s: Option<string>): (r: Option<string>)
    ensures r.Some? <==> Present(s)
    ensures r.Some? ==> r == s
  {
    if Present(s) then s else None
  }

  function Abs(x: real): (r: real)
    ensures r >= 0.0 && (r == x || r == -x)
  {
    if x < 0.0 then -x else x
  }
}
