/** The global pending-invite record of models/PendingMember.js: one per invited e-mail. */
module PendingModel {
  import opened Common
  import opened Text

  datatype PendingStatus = Invited | Registered

  /** The stored names of the `status` enum: 'pending' and 'registered'. */
  function StatusName(s: PendingStatus): string
  {
    match s
    case Invited => "pending"
    case Registered => "registered"
  }

  datatype PendingMember = PendingMember(email: string, name: string, invitedBy: Id,
                                         groups: seq<Id>, status: PendingStatus)

  /** The default of `status`. */
  const DefaultStatus: PendingStatus := Invited

  /** What the setters guarantee: `email` lower-cased and trimmed, `name` trimmed.
      `invitedBy` is required; an `Id` is always present. */
  predicate WellFormed(p: PendingMember)
  {
    IsLower(p.email) && Trimmed(p.email) && Trimmed(p.name)
  }

  /** What `save()` validates: the required `email` and `name` are non-empty (`invitedBy`
      is required and an `Id` is always present; `status` comes from the enum). The upsert
      of an invitation runs the setters but not these validators, so a stored record need
      not satisfy them. */
  predicate Valid(p: PendingMember)
  {
    p.email != "" && p.name != ""
  }
}
