# Validated ticket construction

A model of the ticket exercise in `exercises/05_ticket_v2/09_error_trait/src/lib.rs`.
A `Ticket` has a title, a description and a `Status` (`ToDo`, `InProgress`
with an assignee, or `Done`). The model covers two constructors:

- `Ticket::new` runs four checks in a fixed order: empty title, title over 50
  bytes, empty description, description over 500 bytes. It returns
  `TicketNewError::TitleError` or `TicketNewError::DescriptionError` with a
  fixed message for the first check that fails. If all four pass, it returns
  the inputs unchanged as a ticket.
- `easy_ticket` calls `Ticket::new`. On a title error it panics with the
  error's rendered text. On a description error it retries once with the
  description `"Description not provided"`.
- `Display for TicketNewError` renders `"Title cannot be empty"` for every
  error, whatever the variant and the message it carries.

Everything is pure, so the model is made of datatypes, functions and lemmas:

- `utf8.dfy` (module `Utf8`) models Rust's `String` as a Dafny `string`.
  Both are sequences of Unicode scalar values. `Utf8.Len` is `String::len`,
  the byte length of the UTF-8 encoding (1 to 4 bytes per scalar value).
  `Utf8.IsEmpty` is `String::is_empty`, which Rust defines as `len() == 0`.
  The limits of 50 and 500 are checked against this byte length, as in Rust.
- `tickets.dfy` (module `Tickets`) holds the data types and `Tickets.New`
  (`Ticket::new`), `Tickets.Display` and `Tickets.EasyTicket` (`easy_ticket`).
  It also holds the lemmas about them.
- `ticket_tests.dfy` (module `TicketTests`) restates the crate's two tests.
  It also proves the inclusive 50-byte and 500-byte boundaries with one-,
  two- and three-byte characters.

A panic is the outcome `Panicked(message)`. `Result::unwrap` is
`Tickets.Unwrap`, whose precondition excludes `Err`. So `EasyTicket`
verifying means its retry can never panic.

`Display` is modelled as written. It is not corrected to render the carried
message. The crate's test expects the panic text "Title cannot be empty" for
an empty title, but the error the constructor returns for that case carries
"Ticket cannot be empty". The constant rendering is what makes that test
pass. The lemmas `Tickets.DisplayNeverShowsMessage` and
`TicketTests.LongTitlePanicsWithEmptyTitleText` state what this costs: the
carried message never appears, and a title that is too long (so not empty)
still panics with "Title cannot be empty".

All functions are deterministic. So two calls to `New` with the same inputs
always give equal tickets, and no lemma is needed to say so.

## Model

| member | source | states |
|---|---|---|
| `Utf8.Len` | exercises/05_ticket_v2/09_error_trait/src/lib.rs:50 | the byte length of a string is at least its number of characters and at most four times it |
| `Utf8.IsEmptyIffNoChars` | exercises/05_ticket_v2/09_error_trait/src/lib.rs:46 | `is_empty` (zero bytes) holds exactly for the string with no characters |
| `Tickets.New` | exercises/05_ticket_v2/09_error_trait/src/lib.rs:45-67 | succeeds exactly when the title is non-empty and at most 50 bytes and the description is non-empty and at most 500 bytes; on success the ticket is the three inputs unchanged and satisfies the ticket invariant; an error is a title error exactly when the title is invalid |
| `Tickets.NewReportsFirstViolation` | exercises/05_ticket_v2/09_error_trait/src/lib.rs:46-66 | against the list of every check the inputs fail, in order: `New` succeeds exactly when the list is empty and otherwise reports its first element, so errors never accumulate |
| `Tickets.NewErrorMessages` | exercises/05_ticket_v2/09_error_trait/src/lib.rs:46-63 | each failing check gives its own variant and fixed message: "Ticket cannot be empty", "Title cannot be longer than 50 bytes", "Description cannot be empty", "Description cannot be longer than 500 bytes" |
| `Tickets.TitleCheckedFirst` | exercises/05_ticket_v2/09_error_trait/src/lib.rs:46-64 | an invalid title gives the same title error whatever the description and status; a description error implies the title was valid |
| `Tickets.StatusPassedThrough` | exercises/05_ticket_v2/09_error_trait/src/lib.rs:66 | the status never affects success or the error, and is copied into the ticket as given |
| `Tickets.DisplayIgnoresError` | exercises/05_ticket_v2/09_error_trait/src/lib.rs:11-15 | every error renders as the same text, "Title cannot be empty" |
| `Tickets.DisplayNeverShowsMessage` | exercises/05_ticket_v2/09_error_trait/src/lib.rs:11-15 | for every error the constructor returns, the rendered text differs from the message the error carries |
| `Tickets.EasyTicket` | exercises/05_ticket_v2/09_error_trait/src/lib.rs:32-42 | panics exactly when the title is invalid, always with "Title cannot be empty"; otherwise returns a valid ticket with the input title and status, and with the input description if it is valid or the fallback description if not |
| `Tickets.FallbackIsValid` | exercises/05_ticket_v2/09_error_trait/src/lib.rs:38 | the fallback description "Description not provided" is 24 bytes and passes both description checks |
| `Tickets.RetrySucceeds` | exercises/05_ticket_v2/09_error_trait/src/lib.rs:37-39 | once the title is valid, the retry with the fallback description succeeds, so its `unwrap` cannot panic |
| `Tickets.EasyTicketAgreesWithNew` | exercises/05_ticket_v2/09_error_trait/src/lib.rs:33-34 | on inputs the constructor accepts, `easy_ticket` returns the very ticket the constructor builds |
| `Tickets.EasyTicketPanicsOnBadTitle` | exercises/05_ticket_v2/09_error_trait/src/lib.rs:36 | an invalid title, empty or too long, panics with "Title cannot be empty" |
| `Tickets.EasyTicketReplacesBadDescription` | exercises/05_ticket_v2/09_error_trait/src/lib.rs:37-39 | a valid title with an empty or over-long description returns the ticket with description "Description not provided", title and status unchanged |
| `TicketTests.OverlyLongDescription` | exercises/05_ticket_v2/09_error_trait/src/lib.rs:84 | a witness description of exactly 501 bytes, in place of the test helper `overly_long_description` |
| `TicketTests.TicketCannotBeEmpty` | exercises/05_ticket_v2/09_error_trait/src/lib.rs:76-80 | for any description, an empty title makes the constructor return the empty-title error and `easy_ticket` panic with "Title cannot be empty" |
| `TicketTests.TemplateDescriptionIsUsedIfTooLong` | exercises/05_ticket_v2/09_error_trait/src/lib.rs:82-86 | for any valid title and a 501-byte description, the constructor returns the too-long description error and `easy_ticket` returns a ticket whose description is "Description not provided" |
| `TicketTests.ValidTitleScenario` | exercises/05_ticket_v2/09_error_trait/src/lib.rs:83-85 | with the title "Valid Title" and a 501-byte description, `easy_ticket` returns the ticket ("Valid Title", "Description not provided", `ToDo`) |
| `TicketTests.TitleLimitIsInclusive` | exercises/05_ticket_v2/09_error_trait/src/lib.rs:50-54 | a 50-byte title is accepted and a 51-byte title is refused with the too-long title error |
| `TicketTests.TitleLimitCountsBytes` | exercises/05_ticket_v2/09_error_trait/src/lib.rs:50-54 | 25 two-byte characters (50 bytes) are accepted; 26 of them (52 bytes, 26 characters) are refused |
| `TicketTests.DescriptionLimitCountsBytes` | exercises/05_ticket_v2/09_error_trait/src/lib.rs:60-64 | 500 one-byte and 166 three-byte characters (498 bytes) are accepted as a description; 501 one-byte and 167 three-byte characters (501 bytes) are refused with the too-long description error |
| `TicketTests.LongTitlePanicsWithEmptyTitleText` | exercises/05_ticket_v2/09_error_trait/src/lib.rs:36 | a non-empty but 51-byte title still makes `easy_ticket` panic with "Title cannot be empty" |

## Left out

- Rust's formatting machinery (`Formatter`, `write!`, `std::fmt::Result`) is left out. `Display` is a function from an error to the text it renders.
- The UTF-8 bytes themselves are not modelled. Only their count is, because the code only reads `len()`.
- Panicking and unwinding are not modelled as process behaviour. A panic is the outcome `Panicked` carrying its message.
- The panic message of `unwrap` on `Err` is not modelled, because it is proved unreachable.
- `#[derive(Debug)]`, `#[derive(Clone)]` and the `.clone()` calls are left out. They have no observable effect on values.
- The commented-out `std::error::Error` impl is left out, because it is not code.
- The test helper crate `common` (`valid_title`, `valid_description`, `overly_long_description`) is not part of this model. The tests quantify over any valid title or description, or use explicit witnesses.
