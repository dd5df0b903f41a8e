/** The crate's test scenarios and the boundaries of the two length checks,
    stated as lemmas over concrete inputs. The test helpers that supply sample
    strings are replaced by explicit witnesses or by any value meeting the
    helper's evident promise (a valid title, an over-long description). */
module TicketTests {
  import opened Utf8
  import opened Tickets

  /** A description one byte over the limit. */
  function OverlyLongDescription(): (d: string)
    ensures Len(d) == 501
  {
    LenRepeat('a', 501);
    Repeat('a', 501)
  }

  /** `ticket_cannot_be_empty`: an empty title makes `EasyTicket` panic with a
      message containing "Title cannot be empty", whatever the description. */
  lemma TicketCannotBeEmpty(description: string)
    ensures New("", description, ToDo) == Err(TitleError("Ticket cannot be empty"))
    ensures EasyTicket("", description, ToDo) == Panicked("Title cannot be empty")
  {
  }

  /** `template_description_is_used_if_too_long`: with a valid title and an
      over-long description the placeholder description is used. */
  lemma TemplateDescriptionIsUsedIfTooLong(title: string)
    requires ValidTitle(title)
    ensures New(title, OverlyLongDescription(), ToDo)
      == Err(DescriptionError("Description cannot be longer than 500 bytes"))
    ensures EasyTicket(title, OverlyLongDescription(), ToDo)
      == Returned(Ticket(title, "Description not provided", ToDo))
  {
  }

  /** The concrete scenario with the title "Valid Title". */
  lemma ValidTitleScenario()
    ensures EasyTicket("Valid Title", OverlyLongDescription(), ToDo)
      == Returned(Ticket("Valid Title", "Description not provided", ToDo))
  {
    LenAscii("Valid Title");
    TemplateDescriptionIsUsedIfTooLong("Valid Title");
  }

  /** The title limit is 50 bytes, inclusive: 50 one-byte characters pass
      and 51 do not. */
  lemma TitleLimitIsInclusive(description: string, status: Status)
    requires ValidDescription(description)
    ensures New(Repeat('a', 50), description, status).Ok?
    ensures New(Repeat('a', 51), description, status) == Err(TitleError("Title cannot be longer than 50 bytes"))
  {
    LenRepeat('a', 50);
    LenRepeat('a', 51);
  }

  /** The title limit counts bytes, not characters: 25 two-byte characters
      pass, and 26 of them fail although they are only 26 characters. */
  lemma TitleLimitCountsBytes(description: string, status: Status)
    requires ValidDescription(description)
    ensures New(Repeat('é', 25), description, status).Ok?
    ensures |Repeat('é', 26)| <= 50
    ensures New(Repeat('é', 26), description, status) == Err(TitleError("Title cannot be longer than 50 bytes"))
  {
    assert CharLen('é') == 2;
    LenRepeat('é', 25);
    LenRepeat('é', 26);
  }

  /** The description limit is 500 bytes, inclusive, and counts bytes too. */
  lemma DescriptionLimitCountsBytes(title: string, status: Status)
    requires ValidTitle(title)
    ensures New(title, Repeat('a', 500), status).Ok?
    ensures New(title, Repeat('a', 501), status) == Err(DescriptionError("Description cannot be longer than 500 bytes"))
    ensures New(title, Repeat('€', 166), status).Ok?
    ensures New(title, Repeat('€', 167), status) == Err(DescriptionError("Description cannot be longer than 500 bytes"))
  {
    LenRepeat('a', 500);
    LenRepeat('a', 501);
    LenRepeat('€', 166);
    LenRepeat('€', 167);
  }

  /** A title that is too long, not empty, still panics with the text
      "Title cannot be empty", because that is all `Display` renders. */
  lemma LongTitlePanicsWithEmptyTitleText()
    ensures !IsEmpty(Repeat('a', 51))
    ensures EasyTicket(Repeat('a', 51), "d", Done) == Panicked("Title cannot be empty")
  {
    LenRepeat('a', 51);
  }
}
