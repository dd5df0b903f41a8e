/** A ticket with a title, a description and a status, built only through a
    validating constructor that reports the first field check it fails, and a
    convenience factory that aborts on a bad title and substitutes a
    placeholder for a bad description. */
module Tickets {
  import opened Utf8

  datatype Status = ToDo | InProgress(assignedTo: string) | Done

  datatype Ticket = Ticket(title: string, description: string, status: Status)

  /** The two ways construction can fail, each carrying a human-readable message. */
  datatype TicketNewError = TitleError(message: string) | DescriptionError(message: string)

  /** Rust's `Result`. */
  datatype Result<T, E> = Ok(value: T) | Err(error: E)

  /** What a call that may panic ends with: a value, or a panic with its message. */
  datatype Outcome = Returned(ticket: Ticket) | Panicked(message: string)

  const MaxTitleLen: nat := 50
  const MaxDescriptionLen: nat := 500

  const TitleEmptyMessage := "Ticket cannot be empty"
  const TitleTooLongMessage := "Title cannot be longer than 50 bytes"
  const DescriptionEmptyMessage := "Description cannot be empty"
  const DescriptionTooLongMessage := "Description cannot be longer than 500 bytes"

  /** The one text `Display` renders, whatever the error. */
  const DisplayText := "Title cannot be empty"

  /** The description `EasyTicket` substitutes for one the constructor refused. */
  const FallbackDescription := "Description not provided"

  predicate ValidTitle(title: string) {
    !IsEmpty(title) && Len(title) <= MaxTitleLen
  }

  predicate ValidDescription(description: string) {
    !IsEmpty(description) && Len(description) <= MaxDescriptionLen
  }

  /** What holds of every ticket the constructor hands out. */
  predicate ValidTicket(t: Ticket) {
    ValidTitle(t.title) && ValidDescription(t.description)
  }

  /** `Display for TicketNewError`: ignores the variant and its message. */
  function Display(err: TicketNewError): string {
    DisplayText
  }

  /** `Ticket::new`: four checks in order, the first that fails decides the
      error; otherwise the inputs, unchanged, make the ticket. */
  function New(title: string, description: string, status: Status): (r: Result<Ticket, TicketNewError>)
    ensures r.Ok? <==> ValidTitle(title) && ValidDescription(description)
    ensures r.Ok? ==> r.value == Ticket(title, description, status) && ValidTicket(r.value)
    ensures r.Err? ==> (r.error.TitleError? <==> !ValidTitle(title))
  {
    if IsEmpty(title) then
      Err(TitleError(TitleEmptyMessage))
    else if Len(title) > MaxTitleLen then
      Err(TitleError(TitleTooLongMessage))
    else if IsEmpty(description) then
      Err(DescriptionError(DescriptionEmptyMessage))
    else if Len(description) > MaxDescriptionLen then
      Err(DescriptionError(DescriptionTooLongMessage))
    else
      Ok(Ticket(title, description, status))
  }

  /** `Result::unwrap`; its panic on `Err` is ruled out by the precondition,
      so every use of it carries a proof that it cannot panic. */
  function Unwrap<T, E>(r: Result<T, E>): T
    requires r.Ok?
  {
    r.value
  }

  /** `easy_ticket`: a title error panics with the error's rendered text; a
      description error is answered by one retry with the fallback description. */
  function EasyTicket(title: string, description: string, status: Status): (o: Outcome)
    ensures o.Panicked? <==> !ValidTitle(title)
    ensures o.Panicked? ==> o.message == DisplayText
    ensures o.Returned? ==> ValidTicket(o.ticket) && o.ticket.title == title && o.ticket.status == status
    ensures o.Returned? ==>
      o.ticket.description == if ValidDescription(description) then description else FallbackDescription
  {
    match New(title, description, status)
    case Ok(ticket) => Returned(ticket)
    case Err(err) =>
      match err
      case TitleError(_) => Panicked(Display(err))
      case DescriptionError(_) =>
        RetrySucceeds(title, status);
        Returned(Unwrap(New(title, FallbackDescription, status)))
  }

  /** Reference reading of the checks: every check the inputs fail, in the
      order the constructor runs them. */
  function Violations(title: string, description: string): seq<TicketNewError> {
    (if IsEmpty(title) then [TitleError(TitleEmptyMessage)] else [])
    + (if Len(title) > MaxTitleLen then [TitleError(TitleTooLongMessage)] else [])
    + (if IsEmpty(description) then [DescriptionError(DescriptionEmptyMessage)] else [])
    + (if Len(description) > MaxDescriptionLen then [DescriptionError(DescriptionTooLongMessage)] else [])
  }

  /** First failure wins: the constructor reports exactly the first violated
      check and succeeds exactly when there is none; errors never accumulate. */
  lemma NewReportsFirstViolation(title: string, description: string, status: Status)
    ensures Violations(title, description) == [] <==> ValidTitle(title) && ValidDescription(description)
    ensures New(title, description, status) ==
      if Violations(title, description) == [] then Ok(Ticket(title, description, status))
      else Err(Violations(title, description)[0])
  {
  }

  /** Each failing check yields its own fixed message. */
  lemma NewErrorMessages(title: string, description: string, status: Status)
    ensures IsEmpty(title) ==>
      New(title, description, status) == Err(TitleError("Ticket cannot be empty"))
    ensures !IsEmpty(title) && Len(title) > 50 ==>
      New(title, description, status) == Err(TitleError("Title cannot be longer than 50 bytes"))
    ensures ValidTitle(title) && IsEmpty(description) ==>
      New(title, description, status) == Err(DescriptionError("Description cannot be empty"))
    ensures ValidTitle(title) && !IsEmpty(description) && Len(description) > 500 ==>
      New(title, description, status) == Err(DescriptionError("Description cannot be longer than 500 bytes"))
  {
  }

  /** Title checks come first: an invalid title decides the outcome whatever
      the description and status, and a description error implies a valid title. */
  lemma TitleCheckedFirst(title: string, d1: string, d2: string, s1: Status, s2: Status)
    ensures !ValidTitle(title) ==>
      New(title, d1, s1) == New(title, d2, s2) && New(title, d1, s1).Err? && New(title, d1, s1).error.TitleError?
    ensures New(title, d1, s1).Err? && New(title, d1, s1).error.DescriptionError? ==> ValidTitle(title)
  {
  }

  /** The status is never inspected: the outcome of a call does not depend on it
      beyond being copied into the ticket. */
  lemma StatusPassedThrough(title: string, description: string, s1: Status, s2: Status)
    ensures New(title, description, s1).Ok? <==> New(title, description, s2).Ok?
    ensures New(title, description, s1).Err? ==> New(title, description, s1) == New(title, description, s2)
    ensures New(title, description, s1).Ok? ==> New(title, description, s1).value.status == s1
  {
  }

  /** The rendered text of every error is the same fixed text. */
  lemma DisplayIgnoresError(e1: TicketNewError, e2: TicketNewError)
    ensures Display(e1) == Display(e2) == "Title cannot be empty"
  {
  }

  /** The rendered text of an error the constructor produces never is the
      message that error carries, so the message is lost in the panic. */
  lemma DisplayNeverShowsMessage(title: string, description: string, status: Status)
    requires New(title, description, status).Err?
    ensures Display(New(title, description, status).error) != New(title, description, status).error.message
  {
  }

  /** The fallback description passes both description checks; it is 24 bytes. */
  lemma FallbackIsValid()
    ensures Len(FallbackDescription) == 24
    ensures ValidDescription(FallbackDescription)
  {
    assert IsAscii(FallbackDescription) by {
      forall i | 0 <= i < |FallbackDescription| ensures FallbackDescription[i] as int < 0x80 {
      }
    }
    LenAscii(FallbackDescription);
  }

  /** The retry in `EasyTicket` cannot fail once the title has passed, so its
      `unwrap` never panics. */
  lemma RetrySucceeds(title: string, status: Status)
    requires ValidTitle(title)
    ensures New(title, FallbackDescription, status) == Ok(Ticket(title, FallbackDescription, status))
  {
    FallbackIsValid();
  }

  /** On inputs the constructor accepts, `EasyTicket` returns the same ticket. */
  lemma EasyTicketAgreesWithNew(title: string, description: string, status: Status)
    requires New(title, description, status).Ok?
    ensures EasyTicket(title, description, status) == Returned(New(title, description, status).value)
  {
  }

  /** An invalid title panics with "Title cannot be empty", even when the
      title is not empty but too long. */
  lemma EasyTicketPanicsOnBadTitle(title: string, description: string, status: Status)
    requires !ValidTitle(title)
    ensures EasyTicket(title, description, status) == Panicked("Title cannot be empty")
  {
  }

  /** A valid title with an invalid description yields the placeholder ticket. */
  lemma EasyTicketReplacesBadDescription(title: string, description: string, status: Status)
    requires ValidTitle(title) && !ValidDescription(description)
    ensures EasyTicket(title, description, status) == Returned(Ticket(title, "Description not provided", status))
  {
  }
}
