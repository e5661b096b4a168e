/** Role checks and business queries of app/Models/User.php. Relations are filters of
    whole tables (`seq`s of rows) by foreign key. */
module Users {
  import opened Wrappers
  import opened Roles
  import opened Entities
  import opened Statuses
  import opened Seqs

  predicate IsHomeowner(u: User) {
    u.role == Homeowner
  }

  predicate IsBuilder(u: User) {
    u.role == Builder
  }

  predicate IsAdmin(u: User) {
    u.role == Admin
  }

  /** `isBuilder() || isAdmin()`: the staff test used by assignment and internal comments. */
  predicate IsStaff(u: User) {
    IsBuilder(u) || IsAdmin(u)
  }

  predicate HasRole(u: User, r: Role) {
    u.role == r
  }

  /** Strict `in_array` of the user's role in `roles`. */
  predicate HasAnyRole(u: User, roles: seq<Role>) {
    u.role in roles
  }

  function RoleDisplayName(u: User): string {
    DisplayName(u.role)
  }

  /** Users shown under the same role name have the same role. */
  lemma RoleDisplayNameIdentifiesRole(u: User, v: User)
    ensures RoleDisplayName(u) == RoleDisplayName(v) <==> u.role == v.role
  {
    DisplayNameInjective(u.role, v.role);
  }

  /** Exactly one of the three role checks holds for any user. */
  lemma ExactlyOneRole(u: User)
    ensures IsHomeowner(u) || IsBuilder(u) || IsAdmin(u)
    ensures !(IsHomeowner(u) && IsBuilder(u)) && !(IsHomeowner(u) && IsAdmin(u)) && !(IsBuilder(u) && IsAdmin(u))
  {
  }

  /** The staff test is the capability of being assigned tickets. */
  lemma StaffIsAssignable(u: User)
    ensures IsStaff(u) <==> CanBeAssignedTickets(u.role)
    ensures IsStaff(u) <==> !IsHomeowner(u)
  {
  }

  /** `hasAnyRole` holds iff `hasRole` holds for one of the listed roles; the empty list
      matches nobody, and a singleton list is `hasRole`. */
  lemma HasAnyRoleMeansSomeRole(u: User, roles: seq<Role>)
    ensures HasAnyRole(u, roles) <==> exists i :: 0 <= i < |roles| && HasRole(u, roles[i])
    ensures roles == [] ==> !HasAnyRole(u, roles)
    ensures HasAnyRole(u, [u.role])
  {
  }

  // Relations of the user

  predicate OwnsProperty(u: User, p: Property) {
    p.userId == u.id
  }

  predicate SubmittedBy(u: User, t: Ticket) {
    t.userId == u.id
  }

  predicate AssignedTo(u: User, t: Ticket) {
    t.assignedTo == Some(u.id)
  }

  predicate Wrote(u: User, c: Comment) {
    c.userId == u.id
  }

  // Business queries

  function PropertiesCount(u: User, properties: seq<Property>): nat {
    Count(properties, (p: Property) => OwnsProperty(u, p))
  }

  function SubmittedTicketsCount(u: User, tickets: seq<Ticket>): nat {
    Count(tickets, (t: Ticket) => SubmittedBy(u, t))
  }

  function AssignedTicketsCount(u: User, tickets: seq<Ticket>): nat {
    Count(tickets, (t: Ticket) => AssignedTo(u, t))
  }

  /** Assigned tickets whose status is `assigned` or `in_progress`. */
  function OpenAssignedTicketsCount(u: User, tickets: seq<Ticket>): nat {
    Count(tickets, (t: Ticket) => AssignedTo(u, t) && t.status in ActiveStatuses)
  }

  function CommentsCount(u: User, comments: seq<Comment>): nat {
    Count(comments, (c: Comment) => Wrote(u, c))
  }

  predicate HasProperties(u: User, properties: seq<Property>) {
    exists p :: p in properties && OwnsProperty(u, p)
  }

  /** Whether the user submitted a ticket whose status is one of the four open names. */
  predicate HasOpenTickets(u: User, tickets: seq<Ticket>) {
    exists t :: t in tickets && SubmittedBy(u, t) && t.status in OpenStatuses
  }

  predicate HasAssignedTickets(u: User, tickets: seq<Ticket>) {
    exists t :: t in tickets && AssignedTo(u, t)
  }

  /** The open assigned tickets are among the assigned tickets. */
  lemma OpenAssignedAtMostAssigned(u: User, tickets: seq<Ticket>)
    ensures OpenAssignedTicketsCount(u, tickets) <= AssignedTicketsCount(u, tickets)
  {
    CountMonotone(tickets,
      (t: Ticket) => AssignedTo(u, t) && t.status in ActiveStatuses,
      (t: Ticket) => AssignedTo(u, t));
  }

  /** Recording one more ticket assigned to `u` raises the open count by one when its status is
      `assigned` or `in_progress` and leaves it unchanged otherwise (e.g. `complete`, `closed`). */
  lemma OpenAssignedCountsActiveOnly(u: User, tickets: seq<Ticket>, t: Ticket)
    requires AssignedTo(u, t)
    ensures OpenAssignedTicketsCount(u, tickets + [t])
         == OpenAssignedTicketsCount(u, tickets) + (if t.status in ActiveStatuses then 1 else 0)
    ensures AssignedTicketsCount(u, tickets + [t]) == AssignedTicketsCount(u, tickets) + 1
  {
    CountAppend(tickets, [t], (t: Ticket) => AssignedTo(u, t) && t.status in ActiveStatuses);
    CountAppend(tickets, [t], (t: Ticket) => AssignedTo(u, t));
  }

  /** The existence queries agree with their counting counterparts. */
  lemma ExistsAgreesWithCount(u: User, properties: seq<Property>, tickets: seq<Ticket>)
    ensures HasProperties(u, properties) <==> PropertiesCount(u, properties) > 0
    ensures HasAssignedTickets(u, tickets) <==> AssignedTicketsCount(u, tickets) > 0
  {
    CountPositiveIffExists(properties, (p: Property) => OwnsProperty(u, p));
    CountPositiveIffExists(tickets, (t: Ticket) => AssignedTo(u, t));
  }

  /** `hasOpenTickets` is false for a user none of whose tickets is open; in particular for one
      whose tickets are all closed. It is true as soon as one submitted ticket is open. */
  lemma HasOpenTicketsIffSomeOpen(u: User, tickets: seq<Ticket>)
    ensures HasOpenTickets(u, tickets)
        <==> exists i :: 0 <= i < |tickets| && SubmittedBy(u, tickets[i]) && tickets[i].status in OpenStatuses
    ensures (forall i :: 0 <= i < |tickets| && SubmittedBy(u, tickets[i]) ==> tickets[i].status == Closed)
        ==> !HasOpenTickets(u, tickets)
  {
    if HasOpenTickets(u, tickets) {
      var t :| t in tickets && SubmittedBy(u, t) && t.status in OpenStatuses;
      var i :| 0 <= i < |tickets| && tickets[i] == t;
    }
  }
}
