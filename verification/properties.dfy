/** Validation, ownership, deletion eligibility and updates of app/Models/Property.php.
    The property's tickets are the rows of the ticket table whose `propertyId` is its id;
    the US-state list of the configuration is the parameter `usStates`. */
module Properties {
  import opened Wrappers
  import opened Errors
  import opened Entities
  import opened Statuses
  import opened Users
  import opened Seqs
  import opened Text
  import opened ZipCodes
  import Tickets

  // Validation

  /** The pattern as `preg_match` applies it, trailing-newline quirk included. */
  function ValidateZipCode(zip: string): (r: Outcome<Error>)
    ensures r.Pass? <==> ValidZip(zip) || (|zip| > 0 && zip[|zip| - 1] == '\n' && ParseZip(zip[..|zip| - 1]).Some?)
    ensures r.Fail? ==> r.error == BadZip(zip)
  {
    if !PregMatchZip(zip) then Fail(BadZip(zip)) else Pass
  }

  /** The state is upper-cased for the lookup only; the error carries the value as given. */
  function ValidateState(state: string, usStates: set<string>): Outcome<Error> {
    if Upper(state) !in usStates then Fail(BadState(state)) else Pass
  }

  /** ZIP code first, then state: a property bad in both ways is reported as a bad ZIP code. */
  function ValidatePropertyData(p: Property, usStates: set<string>): (r: Outcome<Error>)
    ensures r.Pass? <==> PregMatchZip(p.zipCode) && Upper(p.state) in usStates
    ensures !PregMatchZip(p.zipCode) ==> r == Fail(BadZip(p.zipCode))
    ensures PregMatchZip(p.zipCode) && Upper(p.state) !in usStates ==> r == Fail(BadState(p.state))
  {
    match ValidateZipCode(p.zipCode)
    case Fail(e) => Fail(e)
    case Pass => ValidateState(p.state, usStates)
  }

  /** On ZIP codes without a newline the rule is the documented format "5 digits or 5+4",
      and it parses into its groups. */
  lemma ZipRuleIsFormatOffNewline(zip: string)
    requires forall i :: 0 <= i < |zip| ==> zip[i] != '\n'
    ensures ValidateZipCode(zip).Pass? <==> ParseZip(zip).Some?
  {
    PregMatchAgreesWithoutNewline(zip);
  }

  /** The rule as written lets a ZIP code with one trailing newline through, and the
      property is stored with it. */
  lemma CreateAcceptsTrailingNewline(p: Property, usStates: set<string>)
    requires p.zipCode == "78701\n" && Upper(p.state) in usStates
    ensures Create(p, usStates) == Ok(p)
    ensures !ValidZip(p.zipCode)
  {
    PregMatchAcceptsTrailingNewline();
  }

  /** The ZIP codes of the property tests, as the rule as written judges them. */
  lemma ZipRuleExamples()
    ensures ValidateZipCode("78701").Pass? && ValidateZipCode("78701-1234").Pass?
    ensures ValidateZipCode("1234") == Fail(BadZip("1234"))
    ensures ValidateZipCode("invalid") == Fail(BadZip("invalid"))
  {
    ZipExamples();
  }

  /** Creating a property: the `creating` hook validates the row before it is inserted.
      The state is stored exactly as given, not upper-cased. */
  function Create(candidate: Property, usStates: set<string>): (r: Result<Property, Error>)
    ensures r.Ok? <==> PregMatchZip(candidate.zipCode) && Upper(candidate.state) in usStates
    ensures r.Ok? ==> r.value == candidate
    ensures r.Err? ==> r.error == (if PregMatchZip(candidate.zipCode) then BadState(candidate.state) else BadZip(candidate.zipCode))
  {
    match ValidatePropertyData(candidate, usStates)
    case Fail(e) => Err(e)
    case Pass => Ok(candidate)
  }

  // Ownership and authorization

  predicate IsOwnedBy(p: Property, u: User) {
    p.userId == u.id
  }

  /** Admins may modify any property, owners their own. */
  predicate CanBeModifiedBy(p: Property, u: User) {
    IsAdmin(u) || IsOwnedBy(p, u)
  }

  function EnsureOwnedBy(p: Property, u: User): (r: Outcome<Error>)
    ensures r.Pass? <==> CanBeModifiedBy(p, u)
    ensures r.Fail? ==> r.error == NotOwned
  {
    if !IsOwnedBy(p, u) && !IsAdmin(u) then Fail(NotOwned) else Pass
  }

  // Tickets of the property

  predicate BelongsTo(t: Ticket, p: Property) {
    t.propertyId == p.id
  }

  /** The property's tickets whose status is one of the four open names. */
  function OpenTicketsCount(p: Property, tickets: seq<Ticket>): nat {
    Count(tickets, (t: Ticket) => BelongsTo(t, p) && t.status in OpenStatuses)
  }

  function TicketsCount(p: Property, tickets: seq<Ticket>): nat {
    Count(tickets, (t: Ticket) => BelongsTo(t, p))
  }

  predicate HasTickets(p: Property, tickets: seq<Ticket>) {
    exists t :: t in tickets && BelongsTo(t, p)
  }

  predicate CanBeDeleted(p: Property, tickets: seq<Ticket>) {
    OpenTicketsCount(p, tickets) == 0
  }

  predicate HasOpenTickets(p: Property, tickets: seq<Ticket>) {
    OpenTicketsCount(p, tickets) > 0
  }

  /** Deletion is refused while some ticket of the property is open; the error carries the
      exact number of open tickets. */
  function EnsureCanBeDeleted(p: Property, tickets: seq<Ticket>): (r: Outcome<Error>)
    ensures r.Pass? <==> forall i :: 0 <= i < |tickets| && BelongsTo(tickets[i], p) ==> tickets[i].status !in OpenStatuses
    ensures r.Fail? ==> r.error == Errors.HasOpenTickets(OpenTicketsCount(p, tickets)) && r.error.count > 0
  {
    var openTicketsCount := OpenTicketsCount(p, tickets);
    if openTicketsCount > 0 then Fail(Errors.HasOpenTickets(openTicketsCount)) else Pass
  }

  /** `canBeDeleted`, `hasOpenTickets` and `ensureCanBeDeleted` are three views of one count;
      a property whose tickets are all closed can be deleted. */
  lemma DeletionViewsAgree(p: Property, tickets: seq<Ticket>)
    ensures CanBeDeleted(p, tickets) <==> !HasOpenTickets(p, tickets)
    ensures CanBeDeleted(p, tickets) <==> EnsureCanBeDeleted(p, tickets).Pass?
    ensures (forall i :: 0 <= i < |tickets| && BelongsTo(tickets[i], p) ==> tickets[i].status == Closed)
        ==> CanBeDeleted(p, tickets)
    ensures OpenTicketsCount(p, tickets) <= TicketsCount(p, tickets)
    ensures HasTickets(p, tickets) <==> TicketsCount(p, tickets) > 0
  {
    CountPositiveIffExists(tickets, (t: Ticket) => BelongsTo(t, p));
    CountMonotone(tickets,
      (t: Ticket) => BelongsTo(t, p) && t.status in OpenStatuses,
      (t: Ticket) => BelongsTo(t, p));
  }

  /** Adding a ticket raises the open count by one exactly when it belongs to the property and
      its status is an open one: a closed ticket, or a ticket of another property, counts nothing. */
  lemma OpenCountOfAddedTicket(p: Property, tickets: seq<Ticket>, t: Ticket)
    ensures OpenTicketsCount(p, tickets + [t])
         == OpenTicketsCount(p, tickets) + (if BelongsTo(t, p) && t.status != Closed && IsKnown(t.status) then 1 else 0)
  {
    CountAppend(tickets, [t], (t: Ticket) => BelongsTo(t, p) && t.status in OpenStatuses);
    OpenMeansKnownAndNotClosed(t.status);
  }

  /** When every ticket carries a lifecycle status, the open count is the number of the
      property's tickets for which `Ticket::isOpen` holds. Unknown statuses are the only
      place the `whereIn` query and `isOpen` differ. */
  lemma OpenCountAgreesWithIsOpen(p: Property, tickets: seq<Ticket>)
    requires forall i :: 0 <= i < |tickets| ==> IsKnown(tickets[i].status)
    ensures OpenTicketsCount(p, tickets) == Count(tickets, (t: Ticket) => BelongsTo(t, p) && Tickets.IsOpen(t))
  {
    forall i | 0 <= i < |tickets|
      ensures tickets[i].status in OpenStatuses <==> Tickets.IsOpen(tickets[i])
    {
      OpenMeansKnownAndNotClosed(tickets[i].status);
    }
    CountCongruent(tickets,
      (t: Ticket) => BelongsTo(t, p) && t.status in OpenStatuses,
      (t: Ticket) => BelongsTo(t, p) && Tickets.IsOpen(t));
  }

  // Display

  /** "address, city, STATE zip", with the state upper-cased for display only. */
  function FullAddress(p: Property): string {
    p.address + ", " + p.city + ", " + Upper(p.state) + " " + p.zipCode
  }

  /** The full address does not depend on the case in which the state was stored, and
      normalising the stored state does not change validation. */
  lemma StateCaseIrrelevant(p: Property, usStates: set<string>)
    ensures FullAddress(p.(state := Upper(p.state))) == FullAddress(p)
    ensures ValidatePropertyData(p.(state := Upper(p.state)), usStates).Pass? <==> ValidatePropertyData(p, usStates).Pass?
  {
    UpperNormalises(p.state);
  }

  /** The address of the property tests: the state stored as "tx" is shown as "TX". */
  lemma FullAddressExample()
    ensures FullAddress(Property(1, 1, "123 Main St", "Austin", "tx", "78701", None))
         == "123 Main St, Austin, TX 78701"
  {
  }

  // Mass assignment

  /** `Property::$fillable`. Every column but `id` is listed, the owner included. */
  const Fillable: seq<string> := ["user_id", "address", "city", "state", "zip_code", "notes"]

  /** A value of an `updateDetails` array. */
  datatype Value = Str(s: string) | Int(n: int) | Null

  /** An entry whose value fits its column (or whose key is not fillable and so is never used). */
  predicate WellTypedEntry(e: (string, Value)) {
    var (key, v) := e;
    if key == "user_id" then v.Int?
    else if key == "notes" then !v.Int?
    else key in Fillable ==> v.Str?
  }

  predicate WellTyped(details: seq<(string, Value)>) {
    forall i :: 0 <= i < |details| ==> WellTypedEntry(details[i])
  }

  /** The value of the column `key` of `p`. */
  function Field(p: Property, key: string): Value
    requires key in Fillable
  {
    if key == "user_id" then Int(p.userId)
    else if key == "address" then Str(p.address)
    else if key == "city" then Str(p.city)
    else if key == "state" then Str(p.state)
    else if key == "zip_code" then Str(p.zipCode)
    else if p.notes.Some? then Str(p.notes.value) else Null
  }

  /** One iteration of the `updateDetails` loop: a fillable key overwrites its column,
      any other key is skipped. */
  function ApplyDetail(p: Property, e: (string, Value)): (q: Property)
    requires WellTypedEntry(e)
    ensures q.id == p.id
    ensures forall key :: key in Fillable ==> Field(q, key) == (if key == e.0 then e.1 else Field(p, key))
  {
    var (key, v) := e;
    if key !in Fillable then p
    else if key == "user_id" then p.(userId := v.n)
    else if key == "address" then p.(address := v.s)
    else if key == "city" then p.(city := v.s)
    else if key == "state" then p.(state := v.s)
    else if key == "zip_code" then p.(zipCode := v.s)
    else p.(notes := if v.Str? then Some(v.s) else None)
  }

  /** The value of the last entry for `key`, if any. */
  function LastValue(details: seq<(string, Value)>, key: string): Option<Value> {
    if |details| == 0 then None
    else if LastValue(details[1..], key).Some? then LastValue(details[1..], key)
    else if details[0].0 == key then Some(details[0].1)
    else None
  }

  /** The whole `foreach` of `updateDetails`: each fillable column ends up with the last value
      given for it, or keeps its own; the id is never touched. */
  function Fill(p: Property, details: seq<(string, Value)>): (q: Property)
    requires WellTyped(details)
    ensures q.id == p.id
    ensures forall key :: key in Fillable ==> Field(q, key) == LastValue(details, key).GetOr(Field(p, key))
    decreases |details|
  {
    if |details| == 0 then p else Fill(ApplyDetail(p, details[0]), details[1..])
  }

  /** Two properties with the same id and the same fillable columns are the same row. */
  lemma SameFieldsSameProperty(p: Property, q: Property)
    requires p.id == q.id
    requires forall key :: key in Fillable ==> Field(p, key) == Field(q, key)
    ensures p == q
  {
    assert Field(p, "user_id") == Field(q, "user_id");
    assert Field(p, "address") == Field(q, "address");
    assert Field(p, "city") == Field(q, "city");
    assert Field(p, "state") == Field(q, "state");
    assert Field(p, "zip_code") == Field(q, "zip_code");
    assert Field(p, "notes") == Field(q, "notes");
  }

  /** Assigns the fillable keys, then validates, then saves. A failure reports the error of the
      assigned values; nothing is returned to be saved. */
  function UpdateDetails(p: Property, details: seq<(string, Value)>, usStates: set<string>): (r: Result<Property, Error>)
    requires WellTyped(details)
    ensures r.Ok? <==> ValidatePropertyData(Fill(p, details), usStates).Pass?
    ensures r.Ok? ==> r.value.id == p.id
    ensures r.Ok? ==> forall key :: key in Fillable ==> Field(r.value, key) == LastValue(details, key).GetOr(Field(p, key))
    ensures r.Ok? ==> PregMatchZip(r.value.zipCode) && Upper(r.value.state) in usStates
    ensures r.Err? ==> r.error.BadZip? || r.error.BadState?
    ensures r.Err? ==> ValidatePropertyData(Fill(p, details), usStates) == Fail(r.error)
  {
    var q := Fill(p, details);
    match ValidatePropertyData(q, usStates)
    case Fail(e) => Err(e)
    case Pass => Ok(q)
  }

  /** Keys that are not fillable, such as "id", are ignored: such an update leaves a valid
      property exactly as it was. */
  lemma NonFillableKeysIgnored(p: Property, details: seq<(string, Value)>, usStates: set<string>)
    requires WellTyped(details)
    requires forall i :: 0 <= i < |details| ==> details[i].0 !in Fillable
    requires ValidatePropertyData(p, usStates).Pass?
    ensures UpdateDetails(p, details, usStates) == Ok(p)
  {
    var q := Fill(p, details);
    forall key | key in Fillable
      ensures Field(q, key) == Field(p, key)
    {
      LastValueAbsent(details, key);
    }
    SameFieldsSameProperty(q, p);
  }

  /** A key that no entry carries has no last value. */
  lemma {:induction false} LastValueAbsent(details: seq<(string, Value)>, key: string)
    requires forall i :: 0 <= i < |details| ==> details[i].0 != key
    ensures LastValue(details, key) == None
  {
    if |details| > 0 {
      LastValueAbsent(details[1..], key);
    }
  }

  /** Since "user_id" is fillable, `updateDetails` can hand a property to another owner. */
  lemma UpdateCanChangeOwner(p: Property, owner: User, newOwner: int, usStates: set<string>)
    requires IsOwnedBy(p, owner) && newOwner != owner.id
    requires ValidatePropertyData(p, usStates).Pass?
    ensures UpdateDetails(p, [("user_id", Int(newOwner))], usStates).Ok?
    ensures !IsOwnedBy(UpdateDetails(p, [("user_id", Int(newOwner))], usStates).value, owner)
  {
    var q := Fill(p, [("user_id", Int(newOwner))]);
    assert Field(q, "user_id") == Int(newOwner);
    assert Field(q, "zip_code") == Field(p, "zip_code");
    assert Field(q, "state") == Field(p, "state");
  }
}
