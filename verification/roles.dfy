/** The role enumeration of app/Enums/UserRole.php and its capability table. */
module Roles {
  import opened Wrappers

  datatype Role = Homeowner | Builder | Admin

  /** The backing string value of each enum case. */
  function Value(r: Role): string {
    match r
    case Homeowner => "homeowner"
    case Builder => "builder"
    case Admin => "admin"
  }

  /** The human-readable name shown in the UI. */
  function DisplayName(r: Role): string {
    match r
    case Homeowner => "Homeowner"
    case Builder => "Builder/Manager"
    case Admin => "Administrator"
  }

  /** Inverse of `DisplayName`: which role, if any, is shown under `name`. */
  function RoleNamed(name: string): (r: Option<Role>)
    ensures r.Some? ==> DisplayName(r.value) == name
  {
    if name == "Homeowner" then Some(Homeowner)
    else if name == "Builder/Manager" then Some(Builder)
    else if name == "Administrator" then Some(Admin)
    else None
  }

  /** Inverse of `Value`, as `UserRole::tryFrom` does. */
  function TryFrom(value: string): (r: Option<Role>)
    ensures r.Some? ==> Value(r.value) == value
  {
    if value == "homeowner" then Some(Homeowner)
    else if value == "builder" then Some(Builder)
    else if value == "admin" then Some(Admin)
    else None
  }

  predicate CanCreateProperties(r: Role) {
    match r
    case Homeowner | Admin => true
    case Builder => false
  }

  predicate CanCreateTickets(r: Role) {
    match r
    case Homeowner => true
    case Builder | Admin => false
  }

  predicate CanBeAssignedTickets(r: Role) {
    match r
    case Builder | Admin => true
    case Homeowner => false
  }

  predicate CanCreateInternalComments(r: Role) {
    match r
    case Builder | Admin => true
    case Homeowner => false
  }

  predicate CanViewAllTickets(r: Role) {
    match r
    case Builder | Admin => true
    case Homeowner => false
  }

  predicate CanManageUsers(r: Role) {
    r == Admin
  }

  /** Every role has a display name that can be read back, so the names are pairwise distinct. */
  lemma DisplayNameRoundTrip(r: Role)
    ensures RoleNamed(DisplayName(r)) == Some(r)
  {
  }

  /** Distinct roles are displayed under distinct names. */
  lemma DisplayNameInjective(r1: Role, r2: Role)
    ensures DisplayName(r1) == DisplayName(r2) ==> r1 == r2
  {
    DisplayNameRoundTrip(r1);
    DisplayNameRoundTrip(r2);
  }

  /** The enum's backing values round-trip through `TryFrom`. */
  lemma ValueRoundTrip(r: Role)
    ensures TryFrom(Value(r)) == Some(r)
  {
  }

  /** Who may create properties: the homeowner and the admin, never the builder. */
  lemma CreatePropertiesRoles(r: Role)
    ensures CanCreateProperties(r) <==> r in {Homeowner, Admin}
  {
  }

  /** The staff capabilities coincide: assignable, internal comments and seeing every ticket
      all mean "builder or admin". */
  lemma StaffCapabilitiesCoincide(r: Role)
    ensures CanBeAssignedTickets(r) <==> r in {Builder, Admin}
    ensures CanCreateInternalComments(r) <==> CanBeAssignedTickets(r)
    ensures CanViewAllTickets(r) <==> CanBeAssignedTickets(r)
  {
  }

  /** Creating tickets and being assigned tickets split the three roles into two complementary
      groups: the homeowner files tickets, staff work on them. */
  lemma TicketRolesComplementary(r: Role)
    ensures CanCreateTickets(r) <==> r == Homeowner
    ensures CanCreateTickets(r) <==> !CanBeAssignedTickets(r)
  {
  }

  /** Managing users is reserved to the admin, who also holds every staff capability. */
  lemma ManageUsersOnlyAdmin(r: Role)
    ensures CanManageUsers(r) <==> r == Admin
    ensures CanManageUsers(r) ==> CanBeAssignedTickets(r) && CanCreateProperties(r) && !CanCreateTickets(r)
  {
  }
}
