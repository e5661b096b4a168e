/** The persisted records of the four Eloquent models, as immutable values. */
module Entities {
  import opened Wrappers
  import opened Roles

  /** A user row: identity and role (credentials live outside the domain core). */
  datatype User = User(id: int, name: string, role: Role)

  /** A ticket row. `status` is kept as the stored string; `assignedTo` is nullable. */
  datatype Ticket = Ticket(
    id: int,
    propertyId: int,
    userId: int,
    assignedTo: Option<int>,
    areaOfIssue: string,
    description: string,
    imagePath: Option<string>,
    status: string)

  /** A property row; `userId` is the owner. */
  datatype Property = Property(
    id: int,
    userId: int,
    address: string,
    city: string,
    state: string,
    zipCode: string,
    notes: Option<string>)

  /** A comment row; `userId` is the author and `text` the `comment` column. */
  datatype Comment = Comment(id: int, ticketId: int, userId: int, text: string, isInternal: bool)
}
