/** The service operations of app/Services/TicketService.php, which keep their own copy of the
    transition rules and report violations as `InvalidArgumentException`. */
module TicketService {
  import opened Wrappers
  import opened Errors
  import opened Entities
  import opened Statuses
  import opened Users
  import Tickets

  /** The input array of `createTicket`, after the image has been stored. */
  datatype TicketData = TicketData(
    propertyId: int,
    userId: int,
    areaOfIssue: string,
    description: string,
    imagePath: Option<string>,
    assignedTo: Option<int>,
    status: Option<string>)

  /** `createTicket`: `submitted` is filled in only when no status is given. `id` is the key the
      store assigns on insertion. */
  function CreateTicket(id: int, data: TicketData): (t: Ticket)
    ensures t.id == id && t.propertyId == data.propertyId && t.userId == data.userId
    ensures t.areaOfIssue == data.areaOfIssue && t.description == data.description
    ensures t.imagePath == data.imagePath && t.assignedTo == data.assignedTo
  {
    Ticket(id, data.propertyId, data.userId, data.assignedTo, data.areaOfIssue, data.description,
           data.imagePath, if data.status.None? then Submitted else data.status.value)
  }

  /** The service's own table: like the model's, but with no row at all for `closed`. */
  const AllowedTransitions: map<string, seq<string>> :=
    map[
      Submitted := [Assigned],
      Assigned := [InProgress],
      InProgress := [Complete],
      Complete := [Closed]
    ]

  /** `updateStatus`: moves the ticket if the service's table allows it, else leaves it alone. */
  function UpdateStatus(t: Ticket, newStatus: string): (r: Result<Ticket, Error>)
    ensures r.Ok? <==> Tickets.CanTransitionTo(t, newStatus)
    ensures r.Ok? ==> r.value == t.(status := newStatus)
    ensures r.Err? ==> r.error == InvalidArgument(TransitionNotAllowed(t.status, newStatus))
  {
    var current := t.status;
    if current !in AllowedTransitions || newStatus !in AllowedTransitions[current] then
      Err(InvalidArgument(TransitionNotAllowed(current, newStatus)))
    else
      Ok(t.(status := newStatus))
  }

  /** `assignTicket`: any staff member is accepted, and the ticket becomes `assigned` whatever
      its current status. */
  function AssignTicket(t: Ticket, builder: User): (r: Result<Ticket, Error>)
    ensures r.Ok? <==> IsStaff(builder)
    ensures r.Err? ==> r.error == InvalidArgument(AssigneeNotStaff)
    ensures r.Ok? ==> r.value == t.(assignedTo := Some(builder.id), status := Assigned)
  {
    if !IsBuilder(builder) && !IsAdmin(builder) then Err(InvalidArgument(AssigneeNotStaff))
    else Ok(t.(assignedTo := Some(builder.id), status := Assigned))
  }

  /** Without a status the new ticket is `submitted`; a supplied status is kept as given. */
  lemma CreateTicketStatus(id: int, data: TicketData)
    ensures data.status.None? ==> CreateTicket(id, data).status == Submitted
    ensures data.status.Some? ==> CreateTicket(id, data).status == data.status.value
  {
  }

  /** The service and the model accept the same moves with the same outcome; only the error
      kind differs. */
  lemma UpdateStatusAgreesWithModel(t: Ticket, newStatus: string)
    ensures UpdateStatus(t, newStatus).Ok? <==> Tickets.TransitionTo(t, newStatus).Ok?
    ensures UpdateStatus(t, newStatus).Ok? ==> UpdateStatus(t, newStatus) == Tickets.TransitionTo(t, newStatus)
    ensures Tickets.TransitionTo(t, newStatus).Err? ==> Tickets.TransitionTo(t, newStatus).error == InvalidStatusTransition(t.status, newStatus)
  {
  }

  /** A closed ticket can never be moved by the service. */
  lemma UpdateStatusFromClosedFails(t: Ticket, newStatus: string)
    requires t.status == Closed
    ensures UpdateStatus(t, newStatus).Err?
  {
    SuccessorCount(Closed);
  }

  /** On a submitted ticket the service assignment and the model assignment agree. */
  lemma AssignTicketAgreesOnSubmitted(t: Ticket, u: User)
    requires t.status == Submitted
    ensures AssignTicket(t, u).Ok? <==> Tickets.AssignTo(t, u).Ok?
    ensures AssignTicket(t, u).Ok? ==> AssignTicket(t, u) == Tickets.AssignTo(t, u)
  {
  }

  /** Unlike `Ticket::assignTo`, the service assigns a ticket in any status: a closed ticket
      goes back to `assigned`, which no run of model transitions can do. */
  lemma AssignTicketReopensClosed(t: Ticket, u: User)
    requires t.status == Closed && IsStaff(u)
    ensures Tickets.AssignTo(t, u) == Err(NotInValidState(Closed))
    ensures AssignTicket(t, u).Ok? && AssignTicket(t, u).value.status == Assigned
    ensures !Tickets.CanTransitionTo(t, Assigned)
  {
    SuccessorCount(Closed);
  }
}
