/** End-to-end workflows combining the aggregates and the policies. */
module Scenarios {
  import opened Wrappers
  import opened Errors
  import opened Entities
  import opened Statuses
  import opened Users
  import Tickets
  import Properties
  import TicketService
  import TicketPolicy
  import PropertyPolicy
  import Text
  import ZipCodes

  /** A homeowner registers a property in Illinois and files a ticket, which cannot be closed
      straight from `submitted`; a builder takes it and starts work, and closing it straight
      from `in_progress` is refused as well. */
  lemma HomeownerToBuilderWorkflow(usStates: set<string>, h: User, b: User)
    requires "IL" in usStates
    requires IsHomeowner(h) && IsBuilder(b)
    ensures Properties.Create(Entities.Property(1, h.id, "1 Main St", "Springfield", "IL", "62701", None), usStates).Ok?
    ensures var data := TicketService.TicketData(1, h.id, "Kitchen", "Leaking faucet", None, None, None);
            var t := TicketService.CreateTicket(7, data);
            && TicketPolicy.Create(h)
            && t.status == Submitted
            && Tickets.TransitionTo(t, Closed) == Err(InvalidStatusTransition(Submitted, Closed))
            && Tickets.AssignTo(t, b).Ok?
            && Tickets.AssignTo(t, b).value.status == Assigned
            && Tickets.AssignTo(t, b).value.assignedTo == Some(b.id)
            && TicketPolicy.Update(b, t)
            && Tickets.TransitionTo(Tickets.AssignTo(t, b).value, InProgress).Ok?
            && Tickets.TransitionTo(Tickets.TransitionTo(Tickets.AssignTo(t, b).value, InProgress).value, Closed)
               == Err(InvalidStatusTransition(InProgress, Closed))
  {
    assert Text.Upper("IL") == "IL";
    ZipCodes.ZipExamples();
  }

  /** A homeowner who does not own the property is refused by `ensureOwnedBy`; an admin passes. */
  lemma OwnershipScenario(p: Property, other: User, admin: User)
    requires IsHomeowner(other) && other.id != p.userId && IsAdmin(admin)
    ensures Properties.EnsureOwnedBy(p, other) == Fail(NotOwned)
    ensures Properties.EnsureOwnedBy(p, admin) == Pass
    ensures !PropertyPolicy.Update(other, p) && PropertyPolicy.Update(admin, p)
  {
  }
}
