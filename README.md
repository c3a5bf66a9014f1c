# Movie-ticket store, modelled in Dafny

The booking demo keeps two lists in memory. `shows` is a fixed catalogue of
screenings. `tickets` is an ordered list of bookings. Three form handlers
change the ticket list:

- **book**: looks up the first show with the given id. On a match it appends a
  ticket numbered "number of tickets + 1", with the show's movie and time
  copied in. Otherwise the answer is "Show not found!".
- **cancel**: drops every ticket with the given id. An id that nobody holds is
  no error.
- **update**: finds the first ticket with the given id, or answers "Ticket not
  found!". A non-empty name replaces the ticket's name. A show id that names a
  show replaces the ticket's show id, movie and time together. A show id that
  names no show leaves those three fields alone.

The model has three modules:

- `Tickets` (`tickets.dfy`) holds the records (`Show`, `Ticket`), the outcome
  (`Ok | NotFound`), the start-up catalogue, and the first-match search
  `FirstIndex`. It also states each handler's effect as a function of the
  old ticket list. `Booked` and `Updated` return a `Response` (the outcome
  plus the new list). `Cancelled` returns only the new list, since
  cancelling always answers Ok (`Store.TicketStore.Cancel`).
- `TicketLaws` (`properties.dfy`) holds the lemmas about those functions: the
  order cancel keeps, idempotence, the fields an update touches, and what the
  id scheme does and does not guarantee.
- `Store` (`store.dfy`) holds the class `TicketStore`. Its `shows` is a
  `const` field and `tickets` is a `var` field. Its methods `Book`, `Cancel`
  and `Update` change `tickets` in place, the way the handlers do: append,
  rebind to the filtered list, overwrite fields of the found ticket. Each
  method is proved to leave exactly the state the matching function
  describes.

Form input is taken as already parsed. Ticket and show ids are integers. The
optional update fields are `Option` values. A name counts as given when it is
non-empty (`Supplied`), as in the truthiness test of app.py:215. `None` for the
show id stands for an empty or missing field (app.py:217). Any string that
parses counts as given, so `Some(0)` is a real request to move to show 0.

**Ticket ids are not unique.** The comment at app.py:176 calls them unique,
but the code numbers a new ticket by the current list length. The model keeps
that scheme as written and does not assume ids are unique. It proves when
uniqueness holds and when it breaks:

- Booking and updating keep the tickets numbered 1, 2, 3, … (`NumberedKept`),
  and such ids are unique (`NumberedUnique`).
  Booking also keeps ids unique while no id exceeds the ticket count
  (`BookedKeepsUnique`). Updating keeps unique ids unique whatever they are
  (`UpdatedKeepsUnique`). Cancelling keeps ids unique, but it can break the
  bound on ids.
- From tickets numbered 1..n (as they stand until the first cancel), if you
  cancel any ticket except the last and then book, the new ticket gets
  the id the last ticket already holds (`DuplicateIdAfterCancel`). Concretely:
  book twice, cancel 1, book again, and two tickets carry id 2
  (`TicketLaws.DuplicateIdScenario`, `Store.DuplicateIdScenario`).
- From tickets numbered 1..n, if you cancel the last ticket and then book,
  the cancelled id is given out again (`IdReusedAfterCancelLast`).

## Model

| member | source | states |
|---|---|---|
| `Tickets.FirstIndex` | app.py:170 | first-match lookup by id: None exactly when no record has the id; otherwise the position of the first record with it |
| `Tickets.Booked` | app.py:170-182 | Ok exactly when some show has the id; on NotFound the tickets are unchanged; on Ok exactly one ticket is appended, the earlier tickets are unchanged, and the new ticket has id old length + 1, the given name and show id, and the movie and time of the first show with that id |
| `Tickets.Cancelled` | app.py:193-195 | no remaining ticket carries the id; the length drops by the number of tickets that carried it (`Holding`) |
| `Tickets.Updated` | app.py:210-223 | NotFound exactly when no ticket has the id, and then nothing changes; the length and the sequence of ids are unchanged; every ticket other than the first with the id is unchanged, so when several tickets share the id the later ones are not touched; the found ticket gets the name step `Renamed` (a name counts as given when `Supplied`, app.py:215-216) and then the show step `Moved` (app.py:217-223) |
| `TicketLaws.FirstIndexAt` | app.py:170 | whenever a position holds the first occurrence of the id, the search returns exactly that position |
| `TicketLaws.CancelledMembers` | app.py:193-195 | a ticket is in the result exactly when it was held and its id is not the cancelled one |
| `TicketLaws.CancelledCons` | app.py:193-195 | the first ticket is kept exactly when its id differs, in front of the cancelled rest |
| `TicketLaws.CancelledConcat` | app.py:193-195 | cancelling a concatenation is the concatenation of the two cancellations |
| `TicketLaws.CancelledKeepsOrder` | app.py:193-195 | each ticket whose id differs stays in place between the kept tickets before it and after it; a ticket with the id is dropped |
| `TicketLaws.CancelledAbsent` | app.py:193-195 | cancelling an id that no ticket holds leaves the list unchanged |
| `TicketLaws.CancelledIdempotent` | app.py:193-195 | cancelling twice equals cancelling once |
| `TicketLaws.CancelledRemovesOne` | app.py:193-195 | with unique ids, cancelling an id that some ticket holds removes exactly one ticket |
| `TicketLaws.CancelledKeepsUnique` | app.py:193-195 | cancelling keeps ids unique |
| `TicketLaws.UpdateRenames` | app.py:210-217 | with no show id, only the name of the first ticket with the id can change: a non-empty name replaces it, while a missing or empty name leaves the whole list unchanged (still Ok) |
| `TicketLaws.UpdateMovesToShow` | app.py:215-223 | a show id that names a show sets show id, movie and time of the first ticket with the id from the first such show, together; the ticket keeps its id; a given non-empty name is applied too |
| `TicketLaws.UpdateIgnoresUnknownShow` | app.py:215-220 | a show id that names no show leaves show id, movie and time unchanged; a given non-empty name is still applied |
| `TicketLaws.UpdatedKeepsUnique` | app.py:210-223 | updating keeps ids unique |
| `TicketLaws.BookedKeepsUnique` | app.py:176-182 | while no id exceeds the ticket count, booking keeps ids unique and keeps that bound |
| `TicketLaws.BookedAppends` | app.py:170-182 | booking for a show in the catalogue succeeds, keeps every earlier ticket in place and appends one ticket numbered old length + 1 |
| `TicketLaws.NumberedKept` | app.py:176-182 | booking and updating keep tickets numbered 1, 2, 3, … in list order |
| `TicketLaws.NumberedUnique` | app.py:176 | tickets numbered 1, 2, 3, … have unique ids |
| `TicketLaws.DuplicateIdAfterCancel` | app.py:176-195 | from tickets numbered 1..n with n ≥ 2, cancelling any id below n and then booking succeeds, gives the new ticket id n, and leaves an earlier ticket that also has id n, so ids are no longer unique |
| `TicketLaws.IdReusedAfterCancelLast` | app.py:176-195 | cancelling the last of tickets numbered 1..n and then booking gives the new ticket the cancelled id n |
| `TicketLaws.WalkThrough` | app.py:164-223 | concrete run on the start-up catalogue: Alice books show 1 and gets ticket 1; Bob books show 2 and gets ticket 2; Alice's ticket moves to show 2 ("Interstellar", "9:00 PM"); cancelling ticket 2 leaves only Alice's ticket |
| `TicketLaws.DuplicateIdScenario` | app.py:176-195 | concrete run: book, book, cancel 1, book ends with two tickets numbered 2 |
| `Store.TicketStore.constructor` | app.py:9-15 | the store starts with the two-show catalogue `CATALOGUE` (app.py:9-12) and no tickets |
| `Store.TicketStore.Book` | app.py:164-182 | the outcome and the new tickets are those of `Booked` on the old tickets; NotFound leaves the tickets unchanged; Ok appends exactly one ticket after the unchanged old ones |
| `Store.TicketStore.Cancel` | app.py:191-195 | always Ok; the new tickets are `Cancelled` of the old; no ticket with the id remains; an id nobody held leaves the tickets unchanged |
| `Store.TicketStore.Update` | app.py:205-223 | the outcome and the new tickets are those of `Updated` on the old tickets; NotFound leaves the tickets unchanged; length and ids are unchanged |
| `Store.WalkThrough` | app.py:164-223 | the walk-through run on a fresh store leaves exactly Alice's ticket, moved to "Interstellar" at "9:00 PM" |
| `Store.DuplicateIdScenario` | app.py:176-195 | the duplicate-id run on a fresh store leaves two tickets, both with id 2 |

`shows` never changes because it is a `const` field of `TicketStore`. Only
booking changes the number of tickets upward (+1 on Ok). Only cancelling
shrinks it, by the number of matching tickets. Updating keeps it fixed.

## Left out

- Web-framework plumbing (routing, reading form fields, starting the server)
  and the HTML page. The page only displays the state. Each handler's result
  is modelled as its outcome plus the store's new state.
- Parsing failures of `int(...)` on malformed ids. Ids are taken as integers.
  For booking and cancelling the failure happens before the store is touched,
  so it surfaces as an unhandled framework error and nothing changes.
- `Updated` and `Store.TicketStore.Update` do not model a malformed new show
  id. The source applies a given name (app.py:216) before it parses the show
  id (app.py:218). A show id that does not parse therefore leaves the ticket
  renamed and the request failed, a partial update the model cannot express.
- The HTTP status codes and plain-text bodies of the 404 answers. Only the
  Ok / NotFound distinction is kept.
- The `GET /` view handler. It reads the state and changes nothing.
- A missing `name` field at booking. The source would store the value `None`
  as the name. Here the name is a string.
- Concurrent requests against the shared list. The source has no locking and
  assumes requests run one at a time. The model runs one method at a time.
