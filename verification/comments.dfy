/** Text validation, the internal flag, and the author/admin permissions of
    app/Models/Comment.php. */
module Comments {
  import opened Wrappers
  import opened Roles
  import opened Errors
  import opened Entities
  import opened Users
  import opened Text

  /** `empty(trim($comment))` rejects the comment: whitespace-only text and a lone "0" alike. */
  function ValidateCommentData(c: Comment): (r: Outcome<Error>)
    ensures r.Pass? <==> !AllTrimmable(c.text) && !IsPaddedZero(c.text)
    ensures r.Fail? ==> r.error == EmptyComment
  {
    BlankIff(c.text);
    if IsBlank(c.text) then Fail(EmptyComment) else Pass
  }

  /** Only staff may hold an internal comment. */
  function ValidateInternalCommentPermission(c: Comment, u: User): (r: Outcome<Error>)
    ensures r.Fail? <==> c.isInternal && !CanCreateInternalComments(u.role)
    ensures r.Fail? ==> r.error == CannotMarkInternal(Homeowner)
  {
    if c.isInternal && !IsBuilder(u) && !IsAdmin(u) then Fail(CannotMarkInternal(u.role)) else Pass
  }

  predicate IsAuthoredBy(c: Comment, u: User) {
    c.userId == u.id
  }

  predicate CanBeEditedBy(c: Comment, u: User) {
    IsAuthoredBy(c, u) || IsAdmin(u)
  }

  predicate CanBeDeletedBy(c: Comment, u: User) {
    IsAuthoredBy(c, u) || IsAdmin(u)
  }

  /** Internal comments are for staff; public ones for everyone who reaches the ticket. */
  predicate CanBeViewedBy(c: Comment, u: User) {
    if c.isInternal then IsBuilder(u) || IsAdmin(u) else true
  }

  function EnsureCanBeEditedBy(c: Comment, u: User): (r: Outcome<Error>)
    ensures r.Pass? <==> IsAuthoredBy(c, u) || u.role == Admin
    ensures r.Fail? ==> r.error == NotAuthorized(Edit)
  {
    if !CanBeEditedBy(c, u) then Fail(NotAuthorized(Edit)) else Pass
  }

  function EnsureCanBeDeletedBy(c: Comment, u: User): (r: Outcome<Error>)
    ensures r.Pass? <==> IsAuthoredBy(c, u) || u.role == Admin
    ensures r.Fail? ==> r.error == NotAuthorized(Delete)
  {
    if !CanBeDeletedBy(c, u) then Fail(NotAuthorized(Delete)) else Pass
  }

  predicate IsInternal(c: Comment) {
    c.isInternal
  }

  predicate IsPublic(c: Comment) {
    !IsInternal(c)
  }

  /** `Comment::createComment`: the text is checked before the internal flag. `id` is the
      key the store assigns on insertion. */
  function CreateComment(id: int, ticket: Ticket, u: User, text: string, isInternal: bool := false): (r: Result<Comment, Error>)
    ensures r.Ok? <==> !IsBlank(text) && (isInternal ==> IsStaff(u))
    ensures IsBlank(text) ==> r == Err(EmptyComment)
    ensures !IsBlank(text) && isInternal && IsHomeowner(u) ==> r == Err(CannotMarkInternal(Homeowner))
    ensures r.Ok? ==> r.value.ticketId == ticket.id && r.value.userId == u.id && r.value.text == text
    ensures r.Ok? ==> r.value.isInternal == isInternal && r.value.id == id
  {
    var comment := Comment(id, ticket.id, u.id, text, isInternal);
    match ValidateCommentData(comment)
    case Fail(e) => Err(e)
    case Pass =>
      match ValidateInternalCommentPermission(comment, u)
      case Fail(e) => Err(e)
      case Pass => Ok(comment)
  }

  /** Permission first, then the new text is validated. */
  function UpdateText(c: Comment, newText: string, u: User): (r: Result<Comment, Error>)
    ensures r.Ok? <==> CanBeEditedBy(c, u) && !IsBlank(newText)
    ensures !CanBeEditedBy(c, u) ==> r == Err(NotAuthorized(Edit))
    ensures CanBeEditedBy(c, u) && IsBlank(newText) ==> r == Err(EmptyComment)
    ensures r.Ok? ==> r.value.text == newText && r.value.(text := c.text) == c
  {
    match EnsureCanBeEditedBy(c, u)
    case Fail(e) => Err(e)
    case Pass =>
      var updated := c.(text := newText);
      match ValidateCommentData(updated)
      case Fail(e) => Err(e)
      case Pass => Ok(updated)
  }

  /** Edit permission first, then the acting user must be staff; only the flag changes. */
  function MarkAsInternal(c: Comment, u: User): (r: Result<Comment, Error>)
    ensures r.Ok? <==> CanBeEditedBy(c, u) && IsStaff(u)
    ensures !CanBeEditedBy(c, u) ==> r == Err(NotAuthorized(Edit))
    ensures CanBeEditedBy(c, u) && !IsStaff(u) ==> r == Err(CannotMarkInternal(u.role))
    ensures r.Ok? ==> IsInternal(r.value) && r.value.(isInternal := c.isInternal) == c
  {
    match EnsureCanBeEditedBy(c, u)
    case Fail(e) => Err(e)
    case Pass =>
      if !IsBuilder(u) && !IsAdmin(u) then Err(CannotMarkInternal(u.role))
      else Ok(c.(isInternal := true))
  }

  /** Edit permission is all it takes to make a comment public; only the flag changes. */
  function MarkAsPublic(c: Comment, u: User): (r: Result<Comment, Error>)
    ensures r.Ok? <==> CanBeEditedBy(c, u)
    ensures r.Err? ==> r.error == NotAuthorized(Edit)
    ensures r.Ok? ==> IsPublic(r.value) && r.value.(isInternal := c.isInternal) == c
  {
    match EnsureCanBeEditedBy(c, u)
    case Fail(e) => Err(e)
    case Pass => Ok(c.(isInternal := false))
  }

  /** The text rule every stored comment obeys. */
  predicate HasValidText(c: Comment) {
    !IsBlank(c.text)
  }

  /** Every operation that stores a comment leaves it with valid text, so the `updating` hook's
      re-validation never fails for comments produced by these operations. */
  lemma OperationsKeepValidText(id: int, t: Ticket, c: Comment, u: User, text: string, isInternal: bool)
    ensures CreateComment(id, t, u, text, isInternal).Ok? ==> HasValidText(CreateComment(id, t, u, text, isInternal).value)
    ensures UpdateText(c, text, u).Ok? ==> HasValidText(UpdateText(c, text, u).value)
    ensures HasValidText(c) && MarkAsInternal(c, u).Ok? ==> HasValidText(MarkAsInternal(c, u).value)
    ensures HasValidText(c) && MarkAsPublic(c, u).Ok? ==> HasValidText(MarkAsPublic(c, u).value)
  {
  }

  /** Without the flag argument a comment is created public, and any author with non-blank
      text succeeds. */
  lemma CreateDefaultsToPublic(id: int, t: Ticket, u: User, text: string)
    requires !IsBlank(text)
    ensures CreateComment(id, t, u, text).Ok?
    ensures IsPublic(CreateComment(id, t, u, text).value)
  {
  }

  /** Blank text fails whatever the author's role and whatever the flag. */
  lemma BlankTextAlwaysFails(id: int, t: Ticket, u: User, text: string, isInternal: bool)
    requires AllTrimmable(text) || IsPaddedZero(text)
    ensures CreateComment(id, t, u, text, isInternal) == Err(EmptyComment)
  {
    BlankIff(text);
  }

  /** Editing and deleting are governed by the same rule. */
  lemma EditAndDeleteCoincide(c: Comment, u: User)
    ensures CanBeEditedBy(c, u) <==> CanBeDeletedBy(c, u)
    ensures EnsureCanBeEditedBy(c, u).Pass? <==> EnsureCanBeDeletedBy(c, u).Pass?
  {
  }

  /** A homeowner sees exactly the public comments; staff see every comment. */
  lemma VisibilityByRole(c: Comment, u: User)
    ensures IsHomeowner(u) ==> (CanBeViewedBy(c, u) <==> IsPublic(c))
    ensures IsStaff(u) ==> CanBeViewedBy(c, u)
    ensures IsPublic(c) ==> CanBeViewedBy(c, u)
  {
  }

  /** The flag check of `markAsInternal` is on the acting user, not the author: an admin can make
      a homeowner's comment internal, so "internal only if written by staff" is not kept. */
  lemma AdminCanMarkHomeownerCommentInternal(c: Comment, author: User, admin: User)
    requires IsAuthoredBy(c, author) && IsHomeowner(author) && IsAdmin(admin)
    ensures MarkAsInternal(c, admin).Ok?
    ensures IsInternal(MarkAsInternal(c, admin).value) && IsAuthoredBy(MarkAsInternal(c, admin).value, author)
  {
  }

  /** Marking internal and then public by the same user restores a public comment. */
  lemma MarkRoundTrip(c: Comment, u: User)
    requires IsPublic(c) && MarkAsInternal(c, u).Ok?
    ensures MarkAsPublic(MarkAsInternal(c, u).value, u) == Ok(c)
  {
  }

  /** Text with two non-whitespace characters is never blank. */
  lemma TwoSolidCharsNotBlank(s: string, i: nat, j: nat)
    requires i < j < |s| && !IsTrimmable(s[i]) && !IsTrimmable(s[j])
    ensures !IsBlank(s)
  {
    BlankIff(s);
  }

  /** The blank texts of the unit tests, and PHP's treatment of "0". */
  lemma BlankExamples()
    ensures IsBlank("") && IsBlank("   ") && IsBlank("0") && IsBlank(" 0\n")
  {
    BlankIff("   ");
    BlankIff(" 0\n");
    assert IsPaddedZero(" 0\n") by {
      assert " 0\n"[1] == '0';
    }
  }

  /** Ordinary comment text is not blank, nor is "00". */
  lemma NonBlankExamples()
    ensures !IsBlank("Test comment") && !IsBlank("00")
  {
    TwoSolidCharsNotBlank("Test comment", 0, 1);
    TwoSolidCharsNotBlank("00", 0, 1);
  }
}
