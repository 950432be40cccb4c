/** The group document of models/Group.js. */
module GroupModel {
  import opened Common
  import opened Text

  /** An invited, not yet registered participant of one group. The schema stores the
      e-mail lower-cased and requires both e-mail and name. */
  datatype PendingEntry = PendingEntry(email: string, name: string, invitedBy: Option<Id>,
                                       invitedAt: Time)

  datatype Group = Group(
    id: Id,
    name: string,
    currency: string,
    icon: Option<string>,
    image: Option<string>,
    members: seq<Id>,
    pendingMembers: seq<PendingEntry>,
    createdBy: Id)

  /** The default of `currency`. */
  const DefaultCurrency: string := "USD"

  /** What the validators check when a group is saved: `name` is required (it is stored
      trimmed, so blank text fails) and every pending entry has an e-mail and a name.
      `createdBy` is required; an `Id` is always present. */
  predicate Valid(g: Group)
  {
    && g.name != ""
    && forall i :: 0 <= i < |g.pendingMembers| ==>
         g.pendingMembers[i].email != "" && g.pendingMembers[i].name != ""
  }

  /** What the setters guarantee: `name` trimmed, `currency` upper-cased, pending
      e-mails lower-cased. */
  predicate Normal(g: Group)
  {
    && Trimmed(g.name)
    && IsUpper(g.currency)
    && forall i :: 0 <= i < |g.pendingMembers| ==> IsLower(g.pendingMembers[i].email)
  }

  predicate WellFormed(g: Group)
  {
    Valid(g) && Normal(g)
  }

  predicate IsMember(g: Group, u: Id)
  {
    u in g.members
  }

  predicate IsCreator(g: Group, u: Id)
  {
    g.createdBy == u
  }
}
