/**
 The application's state as one object: the catalogue of shows, which no
 request changes, and the list of tickets, which the three form handlers
 change in place. Each handler returns its outcome; the refreshed page is
 the object's new state.
 */
module Store {
  import opened Tickets
  import TicketLaws

  class TicketStore {
    const shows: seq<Show>
    var tickets: seq<Ticket>

    /** The state at start-up: the fixed catalogue and no tickets. */
    constructor ()
      ensures shows == CATALOGUE && tickets == []
    {
      shows := CATALOGUE;
      tickets := [];
    }

    /** Book a ticket for the show with the given id: the first show with the
        id is copied into a new ticket appended at the end. */
    method Book(name: string, showId: int) returns (outcome: Outcome)
      modifies this
      ensures Response(outcome, tickets) == Booked(shows, old(tickets), name, showId)
      ensures outcome == NotFound ==> tickets == old(tickets)
      ensures outcome == Ok ==> |tickets| == |old(tickets)| + 1 && tickets[..|old(tickets)|] == old(tickets)
    {
      var k := FirstIndex(ShowIds(shows), showId);
      if k.None? {
        return NotFound;
      }
      var show := shows[k.value];
      var ticket := Ticket(|tickets| + 1, name, showId, show.movie, show.time);
      tickets := tickets + [ticket];
      return Ok;
    }

    /** Cancel every ticket with the given id; an id nobody holds is no error. */
    method Cancel(ticketId: int) returns (outcome: Outcome)
      modifies this
      ensures outcome == Ok
      ensures tickets == Cancelled(old(tickets), ticketId)
      ensures ticketId !in TicketIds(tickets)
      ensures ticketId !in TicketIds(old(tickets)) ==> tickets == old(tickets)
    {
      if ticketId !in TicketIds(tickets) {
        TicketLaws.CancelledAbsent(tickets, ticketId);
      }
      tickets := Cancelled(tickets, ticketId);
      return Ok;
    }

    /** Update the first ticket with the given id: a non-empty name replaces
        its name, and a show id that names a show replaces its show id, movie
        and time; a show id that names no show leaves those three as they were. */
    method Update(ticketId: int, newName: Option<string>, newShowId: Option<int>) returns (outcome: Outcome)
      modifies this
      ensures Response(outcome, tickets) == Updated(shows, old(tickets), ticketId, newName, newShowId)
      ensures outcome == NotFound ==> tickets == old(tickets)
      ensures |tickets| == |old(tickets)| && TicketIds(tickets) == TicketIds(old(tickets))
    {
      var found := FirstIndex(TicketIds(tickets), ticketId);
      if found.None? {
        return NotFound;
      }
      var i := found.value;
      if Supplied(newName) {
        tickets := tickets[i := tickets[i].(name := newName.value)];
      }
      if newShowId.Some? {
        var k := FirstIndex(ShowIds(shows), newShowId.value);
        if k.Some? {
          var show := shows[k.value];
          tickets := tickets[i := tickets[i].(showId := newShowId.value, movie := show.movie, time := show.time)];
        }
      }
      return Ok;
    }
  }

  /** The same sample session, run against a fresh store. */
  method WalkThrough() returns (store: TicketStore)
    ensures store.tickets == [Ticket(1, "Alice", 2, "Interstellar", "9:00 PM")]
  {
    store := new TicketStore();
    var outcome := store.Book("Alice", 1);
    outcome := store.Book("Bob", 2);
    outcome := store.Update(1, None, Some(2));
    outcome := store.Cancel(2);
    TicketLaws.WalkThrough();
  }

  /** Book twice, cancel ticket 1, book again: two tickets now carry id 2. */
  method DuplicateIdScenario() returns (store: TicketStore)
    ensures !UniqueIds(store.tickets)
    ensures |store.tickets| == 2 && store.tickets[0].id == store.tickets[1].id == 2
  {
    store := new TicketStore();
    var outcome := store.Book("Alice", 1);
    outcome := store.Book("Bob", 1);
    outcome := store.Cancel(1);
    outcome := store.Book("Carol", 1);
    TicketLaws.DuplicateIdScenario();
  }
}
