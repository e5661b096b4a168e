# Home warranty domain rules in Dafny

This project models the domain rule engine of a small warranty-ticket application.
Homeowners register properties and file warranty tickets against them. Builders
(managers) and admins assign and work those tickets. Everyone can comment, and some
comments are internal to staff. The model has four parts:

- **Roles** (`Roles`): the three roles and the capability table of the `UserRole` enum.
- **Aggregates**:
  - `Tickets` and `Statuses`: the ticket status state machine with its transition table,
    plus assignment, reassignment and the lifecycle shortcuts.
  - `Properties` and `ZipCodes`: ZIP/state validation, ownership, deletion eligibility
    from the open-ticket count, the display address, and `updateDetails`.
  - `Comments`: the text rule, the internal flag, and the author/admin permissions.
  - `Users`: the role checks and the ticket-count queries of `User`.
- **Authorization gateway**: `PropertyPolicy` and `TicketPolicy` as pure predicates.
- **Ticket service** (`TicketService`): the service's own status table, its
  status defaulting on creation, and its assignment rule, which is looser than the model's.

Each record is an immutable datatype (`Entities`). Each mutation is a pure function that
returns `Result<Entity, Error>`. `Ok` carries the record as it would be saved. `Err`
carries the exception the PHP code throws. `Error` (module `Errors`) has one variant per
exception factory, with the factory's payload, for example `HasOpenTickets(count)`.
Checks that return nothing or throw become `Outcome<Error>`. Database relations are
filters by foreign key over a whole table given as a `seq`. The configured list of US
state codes is a `set<string>` parameter. `Seqs.Count` models `->count()`. `Text` models
the PHP built-ins `trim`, `empty` on a string, and `strtoupper`.

Where the code departs from what its comments, its tests or the role table suggest, the
model follows the code:

- A property's state is upper-cased only for the lookup and for display. It is stored as
  given (`Properties.Create`, `Properties.StateCaseIrrelevant`).
- `TicketService.CreateTicket` keeps a caller-supplied status. It defaults to `submitted`
  only when no status is given.
- "`assigned_to` is set iff the status is `assigned` or later" is not enforced.
  `transitionTo('assigned')` leaves the assignee unset (`Tickets.AssigneeNotTiedToStatus`).
- "Only staff authors have internal comments" is not kept. `markAsInternal` checks the
  acting user, so an admin can make a homeowner's comment internal
  (`Comments.AdminCanMarkHomeownerCommentInternal`).
- The open-ticket queries select the four names `submitted`, `assigned`, `in_progress`
  and `complete`. `Ticket::isOpen` tests "not `closed`". The two agree on every lifecycle
  status and differ only on unknown status strings (`Properties.OpenCountAgreesWithIsOpen`).
- `PropertyPolicy::create` admits homeowners only, although the role table lets admins
  create properties (`PropertyPolicy.CreateNarrowerThanCapability`).
- `user_id` is fillable, so `updateDetails` can move a property to another owner
  (`Properties.UpdateCanChangeOwner`).
- The comment text check is PHP `empty(trim(...))`. It also rejects a lone `"0"`
  (`Text.BlankIff`, `Comments.BlankExamples`).
- `TicketService::assignTicket` does not check the current status. It can move a
  closed ticket back to `assigned` (`TicketService.AssignTicketReopensClosed`).
- The ZIP check is the pattern as `preg_match` applies it, which also accepts one trailing
  newline (`Properties.CreateAcceptsTrailingNewline`). The comment at
  app/Models/Property.php:62 documents "5 digits or 5+4 format"; that format is
  `ZipCodes.ValidZip` (see "## Findings").

## Model

| member | source | states |
|---|---|---|
| Roles.DisplayNameRoundTrip | app/Enums/UserRole.php:14-21 | every role has a display name, and that name reads back as the same role |
| Roles.DisplayNameInjective | app/Enums/UserRole.php:14-21 | distinct roles have distinct display names |
| Roles.ValueRoundTrip | app/Enums/UserRole.php:5-9 | the backing strings of the enum read back as the same role |
| Roles.CreatePropertiesRoles | app/Enums/UserRole.php:26-32 | only homeowner and admin can create properties |
| Roles.StaffCapabilitiesCoincide | app/Enums/UserRole.php:48-76 | being assignable, writing internal comments and seeing all tickets are one predicate: builder or admin |
| Roles.TicketRolesComplementary | app/Enums/UserRole.php:37-54 | only homeowners create tickets, and creating tickets is exactly not being assignable |
| Roles.ManageUsersOnlyAdmin | app/Enums/UserRole.php:26-84 | only admin manages users; the admin holds every staff capability |
| Users.ExactlyOneRole | app/Models/User.php:92-111 | exactly one of isHomeowner, isBuilder, isAdmin holds for any user |
| Users.StaffIsAssignable | app/Models/User.php:100-111 | "builder or admin" is the assignable capability and the negation of isHomeowner |
| Users.HasAnyRoleMeansSomeRole | app/Models/User.php:116-129 | hasAnyRole iff hasRole holds for some listed role; the empty list gives false |
| Users.RoleDisplayNameIdentifiesRole | app/Models/User.php:210-213 | two users share a role display name iff they share the role |
| Users.OpenAssignedAtMostAssigned | app/Models/User.php:154-167 | the open assigned count never exceeds the assigned count |
| Users.OpenAssignedCountsActiveOnly | app/Models/User.php:162-167 | a newly assigned ticket adds to the open assigned count iff its status is assigned or in_progress; complete and closed add nothing |
| Users.ExistsAgreesWithCount | app/Models/User.php:138-201 | hasProperties and hasAssignedTickets hold iff the matching count is positive |
| Users.HasOpenTicketsIffSomeOpen | app/Models/User.php:188-193 | hasOpenTickets iff some submitted ticket has an open status; false when all of them are closed |
| Statuses.TableIsLifecycle | app/Models/Ticket.php:34-40 | the table allows a move iff it goes from one lifecycle stage to the next |
| Statuses.SuccessorCount | app/Models/Ticket.php:34-40 | each of the four open stages has exactly one successor; closed and unknown statuses have none |
| Statuses.StepAdvancesRank | app/Models/Ticket.php:34-40 | every allowed move increases the stage rank by exactly one |
| Statuses.RunAdvancesRank | app/Models/Ticket.php:34-40 | along any chain of allowed moves, the rank grows by one per move |
| Statuses.RunNeverRevisits | app/Models/Ticket.php:34-40 | a chain of moves never returns to a status, and nothing follows closed |
| Statuses.OpenMeansKnownAndNotClosed | app/Models/Property.php:144-149 | the four open status names are exactly the lifecycle stages other than closed |
| Statuses.ActiveIsOpen | app/Models/User.php:162-167 | the statuses counted as "open assigned" are open statuses |
| Tickets.TransitionTo | app/Models/Ticket.php:83-93 | succeeds iff the target is the next lifecycle stage; on success only the status changes and the rank goes up by one; otherwise InvalidStatusTransition(from, to) |
| Tickets.CanTransitionMatchesTable | app/Models/Ticket.php:98-109 | canTransitionTo iff the target is in the current status's row; an unknown status has an empty row |
| Tickets.AssignTo | app/Models/Ticket.php:121-137 | succeeds iff the user is staff and the ticket is submitted; the role is checked first; on success assigned_to = user id and status = assigned, nothing else changes |
| Tickets.SecondAssignmentFails | app/Models/Ticket.php:129-131 | a second assignTo on an assigned ticket fails with NotInValidState(assigned) for staff |
| Tickets.RoleCheckedBeforeStatus | app/Models/Ticket.php:121-131 | a homeowner gets UserNotAuthorized whatever the ticket's status |
| Tickets.ReassignTo | app/Models/Ticket.php:144-160 | fails with NotAssignedYet unless assigned_to is set, then requires staff; changes only assigned_to |
| Tickets.AssigneeNotTiedToStatus | app/Models/Ticket.php:83-93 | transitionTo('assigned') reaches assigned with no assignee |
| Tickets.StartProgress | app/Models/Ticket.php:171-174 | succeeds iff the ticket is assigned; only the status becomes in_progress |
| Tickets.MarkAsComplete | app/Models/Ticket.php:181-184 | succeeds iff the ticket is in_progress; only the status becomes complete |
| Tickets.Close | app/Models/Ticket.php:191-194 | succeeds iff the ticket is complete; only the status becomes closed |
| Tickets.LifecycleWrappersAreTransitions | app/Models/Ticket.php:171-194 | the three shortcuts are transitionTo with a fixed target |
| Tickets.ClosedTicketIsFinal | app/Models/Ticket.php:83-93 | every transition from closed fails with InvalidStatusTransition(closed, to) |
| Tickets.OpenIffHasNextStatus | app/Models/Ticket.php:203-238 | a ticket with a lifecycle status is open iff it has a next status; isOpen is not isClosed |
| Text.BlankIff | app/Models/Comment.php:49-54 | empty(trim(s)) holds iff s is all whitespace or a single "0" padded with whitespace |
| Text.UpperNormalises | app/Models/Property.php:163-172 | upper-casing leaves no lower-case letter, is idempotent, and keeps already upper-case text |
| ZipCodes.ParseZip | app/Models/Property.php:60-66 | a ZIP code parses into its groups iff it is five digits, optionally followed by '-' and four digits |
| ZipCodes.FormatThenParse | app/Models/Property.php:60-66 | formatting well-formed digit groups gives a valid ZIP code that parses back to the same groups |
| ZipCodes.ParseThenFormat | app/Models/Property.php:60-66 | a valid ZIP code formats back from its parsed groups unchanged |
| ZipCodes.ZipExamples | tests/Unit/PropertyModelTest.php:19-62 | the tests' "78701" and "78701-1234" pass and their "1234" fails; the model's own further examples "invalid" and "7870A" fail |
| ZipCodes.PregMatchAcceptsTrailingNewline | app/Models/Property.php:63 | the check as written accepts "78701\n", which the documented "5 digits or 5+4" format rejects |
| ZipCodes.PregMatchAgreesWithoutNewline | app/Models/Property.php:60-66 | on strings without a newline, the check as written and the documented format agree |
| Properties.ValidateZipCode | app/Models/Property.php:60-66 | a ZIP code passes iff it has the five-digit or ZIP+4 format, possibly followed by one newline; otherwise BadZip with the code |
| Properties.ZipRuleExamples | tests/Unit/PropertyModelTest.php:19-62 | the rule as written accepts the tests' "78701" and "78701-1234" and rejects "1234" and (as at line 339) "invalid" with BadZip carrying the code |
| Properties.ZipRuleIsFormatOffNewline | app/Models/Property.php:60-66 | on ZIP codes without a newline, the rule passes exactly the codes that parse in the documented format |
| Properties.CreateAcceptsTrailingNewline | app/Models/Property.php:63 | a property with ZIP code "78701\n" and a configured state is created and stored as given, though the documented format rejects the code |
| Properties.ValidatePropertyData | app/Models/Property.php:49-78 | passes iff the ZIP code matches the pattern as preg_match applies it and the upper-cased state is configured; ZIP is checked first, so a property bad in both ways gets BadZip |
| Properties.Create | app/Models/Property.php:219-226 | creation succeeds iff the row validates, and stores it as given (state not upper-cased) |
| Properties.EnsureOwnedBy | app/Models/Property.php:87-111 | fails with NotOwned exactly when the user is neither the owner nor an admin |
| Properties.EnsureCanBeDeleted | app/Models/Property.php:130-150 | passes iff no ticket of the property has an open status; otherwise fails with HasOpenTickets carrying the exact positive count |
| Properties.DeletionViewsAgree | app/Models/Property.php:120-188 | canBeDeleted iff not hasOpenTickets iff ensureCanBeDeleted passes; only closed tickets means deletable; open count ≤ ticket count; hasTickets iff count > 0 |
| Properties.OpenCountOfAddedTicket | app/Models/Property.php:142-150 | a further ticket raises the open count by one iff it belongs to the property and has a lifecycle status other than closed |
| Properties.OpenCountAgreesWithIsOpen | app/Models/Property.php:142-150 | with lifecycle statuses only, the open count counts exactly the property's tickets for which isOpen holds |
| Properties.FullAddressExample | tests/Unit/PropertyModelTest.php:292-303 | a property stored with state "tx" has the full address "123 Main St, Austin, TX 78701" |
| Properties.StateCaseIrrelevant | app/Models/Property.php:163-172 | the full address and the validation verdict do not depend on the case of the stored state |
| Properties.ApplyDetail | app/Models/Property.php:197-201 | one loop step overwrites the column named by a fillable key, ignores any other key, and never changes the id |
| Properties.Fill | app/Models/Property.php:195-201 | after the loop each fillable column holds the last value given for it, or its old value; the id is unchanged |
| Properties.UpdateDetails | app/Models/Property.php:195-210 | validation runs after assignment; success iff the assigned row validates; the saved row has the assigned values and the same id; a failure carries the validation error of the assigned row (its ZIP code or state) |
| Properties.NonFillableKeysIgnored | app/Models/Property.php:197-201 | an update with no fillable key returns a valid property unchanged |
| Properties.UpdateCanChangeOwner | app/Models/Property.php:15-22 | because user_id is fillable, updateDetails can transfer a property away from its owner |
| Comments.ValidateCommentData | app/Models/Comment.php:49-54 | passes iff the text is neither all whitespace nor a padded lone "0"; otherwise EmptyComment |
| Comments.ValidateInternalCommentPermission | app/Models/Comment.php:61-66 | fails with CannotMarkInternal(homeowner) iff the comment is internal and the user cannot write internal comments |
| Comments.EnsureCanBeEditedBy | app/Models/Comment.php:117-122 | passes iff the user is the author or an admin; otherwise NotAuthorized(Edit) |
| Comments.EnsureCanBeDeletedBy | app/Models/Comment.php:129-134 | passes iff the user is the author or an admin; otherwise NotAuthorized(Delete) |
| Comments.EditAndDeleteCoincide | app/Models/Comment.php:83-96 | canBeEditedBy and canBeDeletedBy are the same predicate |
| Comments.VisibilityByRole | app/Models/Comment.php:101-110 | a homeowner sees exactly the public comments; staff see every comment; public comments are visible to all |
| Comments.CreateComment | app/Models/Comment.php:145-160 | succeeds iff the text is not blank and an internal flag comes from staff; blank text is reported first; the comment records ticket id, author id, text and flag |
| Comments.CreateDefaultsToPublic | app/Models/Comment.php:145-152 | without the flag argument, a comment with non-blank text is created public by any author |
| Comments.BlankTextAlwaysFails | app/Models/Comment.php:49-54 | blank text fails with EmptyComment whatever the role and the flag |
| Comments.BlankExamples | tests/Unit/CommentModelTest.php:33-55 | the tests' "" and "   " are blank; the model's own further examples "0" and " 0\n" are blank too |
| Comments.NonBlankExamples | app/Models/Comment.php:49-54 | ordinary text and "00" are not blank |
| Comments.UpdateText | app/Models/Comment.php:167-176 | permission is checked first, then the new text; on success only the text changes |
| Comments.MarkAsInternal | app/Models/Comment.php:183-195 | needs edit permission, then a staff acting user; on success only the flag changes, to internal |
| Comments.MarkAsPublic | app/Models/Comment.php:202-210 | needs only edit permission; on success only the flag changes, to public |
| Comments.AdminCanMarkHomeownerCommentInternal | app/Models/Comment.php:183-195 | an admin can make a homeowner's comment internal |
| Comments.MarkRoundTrip | app/Models/Comment.php:183-210 | marking a public comment internal and then public restores it |
| Comments.OperationsKeepValidText | app/Models/Comment.php:247-260 | every stored comment produced by these operations has non-blank text, so the update hook's check never fails for it |
| PropertyPolicy.ViewAnyAlways | app/Policies/PropertyPolicy.php:14-17 | listing properties is allowed for everyone |
| PropertyPolicy.OwnerOrAdminDecisionsAgree | app/Policies/PropertyPolicy.php:22-58 | view, update and delete are all "owner or admin", the aggregate's canBeModifiedBy, and agree with ensureOwnedBy |
| PropertyPolicy.CreateNarrowerThanCapability | app/Policies/PropertyPolicy.php:36-40 | create iff homeowner; the admin is refused although the role table lets admins create properties |
| PropertyPolicy.AdminOnlyDecisions | app/Policies/PropertyPolicy.php:63-74 | restore and forceDelete iff admin; an admin passes everything except create |
| TicketPolicy.ViewAnyAlways | app/Policies/TicketPolicy.php:14-18 | listing tickets is allowed for everyone |
| TicketPolicy.ViewIsRoleOrSubmitter | app/Policies/TicketPolicy.php:23-32 | view iff the user can view all tickets or submitted this one |
| TicketPolicy.CreateAgreesWithCapability | app/Policies/TicketPolicy.php:37-41 | create iff the role can create tickets, which means homeowner |
| TicketPolicy.UpdateIsStaffOnly | app/Policies/TicketPolicy.php:46-50 | update iff staff, independent of the ticket; update implies view |
| TicketPolicy.AdminOnlyDecisions | app/Policies/TicketPolicy.php:55-75 | delete, restore and forceDelete iff admin |
| TicketService.CreateTicket | app/Services/TicketService.php:14-27 | the new ticket carries the supplied ids, texts, image path and assignee |
| TicketService.CreateTicketStatus | app/Services/TicketService.php:22-24 | the status is submitted when none is supplied; a supplied status is kept |
| TicketService.UpdateStatus | app/Services/TicketService.php:32-53 | succeeds iff the model's canTransitionTo holds; on success only the status changes; otherwise InvalidArgument with the pair |
| TicketService.UpdateStatusAgreesWithModel | app/Services/TicketService.php:34-48 | the service table and the model table give the same success and the same ticket |
| TicketService.UpdateStatusFromClosedFails | app/Services/TicketService.php:34-48 | a closed ticket has no row in the service table and never moves |
| TicketService.AssignTicket | app/Services/TicketService.php:58-70 | succeeds iff the user is staff; sets assigned_to and status assigned, whatever the current status |
| TicketService.AssignTicketAgreesOnSubmitted | app/Services/TicketService.php:58-70 | on a submitted ticket, the service assignment and the model assignment agree |
| TicketService.AssignTicketReopensClosed | app/Services/TicketService.php:64-67 | the service moves a closed ticket back to assigned, which the model refuses |
| Scenarios.HomeownerToBuilderWorkflow | tests/Feature/TicketWorkflowTest.php:88-149 | as in the tests, a submitted ticket cannot go straight to closed and a builder's assignTo sets assigned_to and status assigned; the model's own additions: the property in IL is created, work starts, and closing from in_progress fails with InvalidStatusTransition(in_progress, closed) |
| Scenarios.OwnershipScenario | tests/Unit/PropertyModelTest.php:151-172 | a non-owning homeowner is refused with NotOwned; an admin passes |

## Findings

| source | as written | input that shows it | evidently intended | confidence | as-written member | corrected member |
|---|---|---|---|---|---|---|
| app/Models/Property.php:63 | the ZIP pattern ends in `$` without PCRE's `D` modifier, so it also matches just before one final newline | "78701\n" is accepted and stored | only five digits, optionally followed by '-' and four digits, with nothing after | medium, not executed | ZipCodes.PregMatchAcceptsTrailingNewline | ZipCodes.ParseZip |

The evidently intended format is the one the comment at app/Models/Property.php:62 names,
"5 digits or 5+4 format". The property rules (`Properties.ValidateZipCode` and every
function built on it) keep the check as written, `ZipCodes.PregMatchZip`.
`Properties.ZipRuleIsFormatOffNewline` shows the two agree on every ZIP code without a
newline, where the rule parses with the corrected `ZipCodes.ParseZip`.

## Left out

- Controllers, form requests and routes: they are HTTP adapters. They disagree on an
  internal comment flag from a homeowner: one rejects it, the other silently clears it.
  The model takes neither side. `Comments.CreateComment` follows the model method,
  which rejects the flag.
- Views, the admin panel, seeders and factories: they are UI and fixture data.
- Properties.UpdateDetails: on failure the PHP object keeps the assigned values (ZIP code,
  state, owner) in memory after the exception; the model returns only the error. A later
  `save()` of that object would be refused by the `updating` hook's validation.
- Comments.UpdateText: on a blank text the PHP object keeps the new text in memory after
  the exception; the model returns only the error. A later `save()` of that object would
  be refused by the `updating` hook's validation.
- Persistence: `save()`, `fresh()` and Eloquent events are not modelled. An operation
  returns the record it would save. Its inputs say nothing about any other row.
  Concurrent writers are not modelled.
- Property boot hooks: the `creating` hook is `Properties.Create`. The `updating` hook
  repeats the validation that `Properties.UpdateDetails` already does.
- Comment boot hooks: they re-validate the text. `Comments.OperationsKeepValidText`
  shows this cannot fail for comments made by these operations.
- Image storage: `uploadImage` and the image branch of `createTicket` are file I/O.
  `TicketService.TicketData` carries the stored path instead.
- `getFormattedTimestamp`: human-readable time formatting.
- Exception message texts: errors are datatype values with payloads. The reason
  string of `notAuthorized` becomes the action (`Edit` or `Delete`).
- The contents of the configured US-state list: the list is the `usStates` parameter.
- The state lookup uses PHP's loose `in_array`. The model uses exact string membership,
  which gives the same answer for letter codes.
- Ids are compared as integers. PHP's strict `===` between an int and a numeric string
  is not modelled.
- `strtoupper` is modelled as ASCII-only, as in PHP 8.2 and later. Locale-dependent
  upper-casing is not modelled.
- Properties.UpdateDetails: it requires each fillable key's value to have its column's
  type. PHP would assign a mistyped value and coerce it or raise a `TypeError` later.
- `Property::create` with arbitrary attribute arrays: `Properties.Create` takes the
  complete row.
