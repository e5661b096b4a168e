/** The domain exceptions of app/Exceptions, as one error type with payloads. */
module Errors {
  import opened Roles

  /** Which comment permission check failed; selects the reason text of `notAuthorized`. */
  datatype CommentAction = Edit | Delete

  /** Why TicketService raised an `InvalidArgumentException`. */
  datatype ArgumentReason =
    | TransitionNotAllowed(from: string, to: string)
    | AssigneeNotStaff

  datatype Error =
    // InvalidPropertyException
    | NotOwned
    | HasOpenTickets(count: nat)
    | BadZip(zip: string)
    | BadState(state: string)
    // InvalidStatusTransitionException
    | InvalidStatusTransition(from: string, to: string)
    // InvalidTicketAssignmentException
    | UserNotAuthorized(role: Role)
    | NotInValidState(status: string)
    | NotAssignedYet
    // InvalidCommentException
    | EmptyComment
    | NotAuthorized(action: CommentAction)
    | CannotMarkInternal(role: Role)
    // InvalidArgumentException thrown by TicketService
    | InvalidArgument(reason: ArgumentReason)
}
