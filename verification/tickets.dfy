/** Status transitions, assignment and lifecycle of app/Models/Ticket.php. Each mutation
    returns the saved ticket or the exception it throws. */
module Tickets {
  import opened Wrappers
  import opened Roles
  import opened Errors
  import opened Entities
  import opened Statuses
  import opened Users

  function ValidNextStatuses(t: Ticket): seq<string> {
    NextStatuses(t.status)
  }

  predicate CanTransitionTo(t: Ticket, newStatus: string) {
    newStatus in ValidNextStatuses(t)
  }

  /** Moves the ticket to `newStatus` if the table allows it. */
  function TransitionTo(t: Ticket, newStatus: string): (r: Result<Ticket, Error>)
    ensures r.Ok? <==> IsLifecycleStep(t.status, newStatus)
    ensures r.Ok? ==> r.value.status == newStatus && Rank(newStatus) == Rank(t.status) + 1
    ensures r.Ok? ==> r.value.(status := t.status) == t
    ensures r.Err? ==> r.error == InvalidStatusTransition(t.status, newStatus)
  {
    TableIsLifecycle(t.status, newStatus);
    if !CanTransitionTo(t, newStatus) then
      Err(InvalidStatusTransition(t.status, newStatus))
    else
      StepAdvancesRank(t.status, newStatus);
      Ok(t.(status := newStatus))
  }

  /** First assignment: the assignee must be staff (checked first), the ticket must be
      submitted (checked second); the ticket then records the assignee and moves to `assigned`. */
  function AssignTo(t: Ticket, u: User): (r: Result<Ticket, Error>)
    ensures r.Ok? <==> IsStaff(u) && t.status == Submitted
    ensures !IsStaff(u) ==> r == Err(UserNotAuthorized(u.role))
    ensures IsStaff(u) && t.status != Submitted ==> r == Err(NotInValidState(t.status))
    ensures r.Ok? ==> r.value.assignedTo == Some(u.id) && r.value.status == Assigned
    ensures r.Ok? ==> r.value.(assignedTo := t.assignedTo, status := t.status) == t
  {
    if !IsBuilder(u) && !IsAdmin(u) then
      Err(UserNotAuthorized(u.role))
    else if t.status != Submitted then
      Err(NotInValidState(t.status))
    else
      TransitionTo(t.(assignedTo := Some(u.id)), Assigned)
  }

  /** Changes the assignee of an already assigned ticket; the status is left alone. */
  function ReassignTo(t: Ticket, u: User): (r: Result<Ticket, Error>)
    ensures r.Ok? <==> IsAssigned(t) && IsStaff(u)
    ensures !IsAssigned(t) ==> r == Err(NotAssignedYet)
    ensures IsAssigned(t) && !IsStaff(u) ==> r == Err(UserNotAuthorized(u.role))
    ensures r.Ok? ==> r.value.assignedTo == Some(u.id)
    ensures r.Ok? ==> r.value.status == t.status && r.value.(assignedTo := t.assignedTo) == t
  {
    if !IsAssigned(t) then
      Err(NotAssignedYet)
    else if !IsBuilder(u) && !IsAdmin(u) then
      Err(UserNotAuthorized(u.role))
    else
      Ok(t.(assignedTo := Some(u.id)))
  }

  function StartProgress(t: Ticket): (r: Result<Ticket, Error>)
    ensures r.Ok? <==> t.status == Assigned
    ensures r.Ok? ==> r.value == t.(status := InProgress)
    ensures r.Err? ==> r.error == InvalidStatusTransition(t.status, InProgress)
  {
    TransitionTo(t, InProgress)
  }

  function MarkAsComplete(t: Ticket): (r: Result<Ticket, Error>)
    ensures r.Ok? <==> t.status == InProgress
    ensures r.Ok? ==> r.value == t.(status := Complete)
    ensures r.Err? ==> r.error == InvalidStatusTransition(t.status, Complete)
  {
    TransitionTo(t, Complete)
  }

  function Close(t: Ticket): (r: Result<Ticket, Error>)
    ensures r.Ok? <==> t.status == Complete
    ensures r.Ok? ==> r.value == t.(status := Closed)
    ensures r.Err? ==> r.error == InvalidStatusTransition(t.status, Closed)
  {
    TransitionTo(t, Closed)
  }

  predicate IsOpen(t: Ticket) {
    t.status != Closed
  }

  predicate IsAssigned(t: Ticket) {
    t.assignedTo.Some?
  }

  predicate IsInProgress(t: Ticket) {
    t.status == InProgress
  }

  predicate IsComplete(t: Ticket) {
    t.status == Complete
  }

  predicate IsClosed(t: Ticket) {
    t.status == Closed
  }

  /** `canTransitionTo` consults the table row of the current status, and a status the table
      does not know has an empty row. */
  lemma CanTransitionMatchesTable(t: Ticket, s: string)
    ensures CanTransitionTo(t, s) <==> t.status in StatusTransitions && s in StatusTransitions[t.status]
    ensures !IsKnown(t.status) ==> ValidNextStatuses(t) == [] && !CanTransitionTo(t, s)
  {
    SuccessorCount(t.status);
  }

  /** A ticket in the lifecycle is open exactly when it still has a next status; a ticket
      with an unknown status is open but can never move. */
  lemma OpenIffHasNextStatus(t: Ticket)
    ensures IsKnown(t.status) ==> (IsOpen(t) <==> |ValidNextStatuses(t)| == 1)
    ensures !IsKnown(t.status) ==> IsOpen(t) && ValidNextStatuses(t) == []
    ensures IsOpen(t) <==> !IsClosed(t)
  {
    SuccessorCount(t.status);
    OpenMeansKnownAndNotClosed(t.status);
  }

  /** A failed transition never changes the stored ticket; a closed ticket cannot move at all. */
  lemma ClosedTicketIsFinal(t: Ticket, s: string)
    requires IsClosed(t)
    ensures TransitionTo(t, s) == Err(InvalidStatusTransition(Closed, s))
  {
    SuccessorCount(Closed);
  }

  /** `startProgress`, `markAsComplete` and `close` are `transitionTo` with a fixed target. */
  lemma LifecycleWrappersAreTransitions(t: Ticket)
    ensures StartProgress(t) == TransitionTo(t, InProgress)
    ensures MarkAsComplete(t) == TransitionTo(t, Complete)
    ensures Close(t) == TransitionTo(t, Closed)
  {
  }

  /** A second `assignTo` on an assigned ticket fails: with `NotInValidState("assigned")`
      for a staff member, with `UserNotAuthorized` for a homeowner. */
  lemma SecondAssignmentFails(t: Ticket, u: User, v: User)
    requires AssignTo(t, u).Ok?
    ensures IsStaff(v) ==> AssignTo(AssignTo(t, u).value, v) == Err(NotInValidState(Assigned))
    ensures !IsStaff(v) ==> AssignTo(AssignTo(t, u).value, v) == Err(UserNotAuthorized(v.role))
  {
  }

  /** The role is checked before the status: a homeowner is refused as unauthorised
      whatever the ticket's status. */
  lemma RoleCheckedBeforeStatus(t: Ticket, u: User)
    requires IsHomeowner(u)
    ensures AssignTo(t, u) == Err(UserNotAuthorized(Homeowner))
    ensures IsAssigned(t) ==> ReassignTo(t, u) == Err(UserNotAuthorized(Homeowner))
  {
  }

  /** `assigned_to` being set is not tied to the status: a plain `transitionTo('assigned')`
      reaches `assigned` with no assignee, and a successful `assignTo` is always reassignable. */
  lemma AssigneeNotTiedToStatus(t: Ticket, u: User)
    requires t.status == Submitted && t.assignedTo == None
    ensures TransitionTo(t, Assigned).Ok?
    ensures TransitionTo(t, Assigned).value.status == Assigned
    ensures !IsAssigned(TransitionTo(t, Assigned).value)
    ensures AssignTo(t, u).Ok? ==> ReassignTo(AssignTo(t, u).value, u) == AssignTo(t, u)
  {
  }
}
