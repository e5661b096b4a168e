/** The allow/deny decisions of app/Policies/TicketPolicy.php. */
module TicketPolicy {
  import opened Roles
  import opened Entities
  import opened Users

  predicate ViewAny(u: User) {
    true
  }

  predicate View(u: User, t: Ticket) {
    if IsAdmin(u) || IsBuilder(u) then true else u.id == t.userId
  }

  predicate Create(u: User) {
    IsHomeowner(u)
  }

  predicate Update(u: User, t: Ticket) {
    IsBuilder(u) || IsAdmin(u)
  }

  predicate Delete(u: User, t: Ticket) {
    IsAdmin(u)
  }

  predicate Restore(u: User, t: Ticket) {
    IsAdmin(u)
  }

  predicate ForceDelete(u: User, t: Ticket) {
    IsAdmin(u)
  }

  /** Listing is open to every user (the adapter narrows the list for homeowners). */
  lemma ViewAnyAlways(u: User)
    ensures ViewAny(u)
  {
  }

  /** A ticket is visible to whoever may view all tickets, and otherwise only to its submitter. */
  lemma ViewIsRoleOrSubmitter(u: User, t: Ticket)
    ensures View(u, t) <==> CanViewAllTickets(u.role) || SubmittedBy(u, t)
    ensures IsHomeowner(u) ==> (View(u, t) <==> SubmittedBy(u, t))
  {
  }

  /** `create` agrees with the role table: only homeowners file tickets. */
  lemma CreateAgreesWithCapability(u: User)
    ensures Create(u) <==> CanCreateTickets(u.role)
  {
  }

  /** `update` depends on the role alone, equals the assignable capability, and implies `view`. */
  lemma UpdateIsStaffOnly(u: User, t: Ticket, t2: Ticket)
    ensures Update(u, t) <==> CanBeAssignedTickets(u.role)
    ensures Update(u, t) <==> Update(u, t2)
    ensures Update(u, t) ==> View(u, t)
    ensures Update(u, t) ==> !Create(u)
  {
  }

  /** Deleting, restoring and force-deleting are admin-only. */
  lemma AdminOnlyDecisions(u: User, t: Ticket)
    ensures Delete(u, t) <==> CanManageUsers(u.role)
    ensures Restore(u, t) <==> Delete(u, t)
    ensures ForceDelete(u, t) <==> Delete(u, t)
    ensures Delete(u, t) ==> Update(u, t)
  {
  }
}
