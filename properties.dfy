/**
 What booking, cancelling and updating do to the ticket list, proved about the
 functions of module Tickets: the order cancellation keeps, its idempotence,
 the fields an update touches, and how the "number of tickets + 1" id scheme
 keeps ids unique only until a ticket other than the last is cancelled.
 */
module TicketLaws {
  import opened Tickets

  /** The tickets numbered 1, 2, 3, ... in list order, as booking from an
      empty list numbers them. */
  ghost predicate Numbered(tickets: seq<Ticket>)
  {
    forall i :: 0 <= i < |tickets| ==> tickets[i].id == i + 1
  }

  /** Every ticket's id is at most the number of tickets held. */
  ghost predicate IdsWithinCount(tickets: seq<Ticket>)
  {
    forall i :: 0 <= i < |tickets| ==> tickets[i].id <= |tickets|
  }

  /** The search finds the first position holding the id. */
  lemma FirstIndexAt(ids: seq<int>, id: int, k: nat)
    requires IsFirst(ids, id, k)
    ensures FirstIndex(ids, id) == Some(k)
  {
  }

  // ---------------------------------------------------------------------
  // Cancel

  /** A ticket survives cancelling exactly when it was held and its id is
      not the one cancelled. */
  lemma {:induction false} CancelledMembers(tickets: seq<Ticket>, id: int, t: Ticket)
    ensures t in Cancelled(tickets, id) <==> t in tickets && t.id != id
  {
    if tickets != [] {
      assert t in tickets <==> t == tickets[0] || t in tickets[1..];
      CancelledMembers(tickets[1..], id, t);
    }
  }

  /** Cancelling a list with a given first ticket. */
  lemma CancelledCons(t: Ticket, rest: seq<Ticket>, id: int)
    ensures Cancelled([t] + rest, id) == (if t.id == id then [] else [t]) + Cancelled(rest, id)
  {
    assert ([t] + rest)[0] == t;
    assert ([t] + rest)[1..] == rest;
  }

  /** Cancelling distributes over concatenation. */
  lemma {:induction false} CancelledConcat(a: seq<Ticket>, b: seq<Ticket>, id: int)
    ensures Cancelled(a + b, id) == Cancelled(a, id) + Cancelled(b, id)
  {
    if a == [] {
      assert a + b == b;
    } else {
      var t, rest := a[0], a[1..];
      var head := if t.id == id then [] else [t];
      calc {
        Cancelled(a + b, id);
        { assert a + b == [t] + (rest + b); }
        Cancelled([t] + (rest + b), id);
        { CancelledCons(t, rest + b, id); }
        head + Cancelled(rest + b, id);
        { CancelledConcat(rest, b, id); }
        head + (Cancelled(rest, id) + Cancelled(b, id));
        (head + Cancelled(rest, id)) + Cancelled(b, id);
        { CancelledCons(t, rest, id); assert a == [t] + rest; }
        Cancelled(a, id) + Cancelled(b, id);
      }
    }
  }

  /** Cancelling keeps each remaining ticket between the tickets that came
      before it and those that came after it: the relative order is kept, and
      a ticket is dropped exactly when its id is the one cancelled. */
  lemma CancelledKeepsOrder(before: seq<Ticket>, t: Ticket, after: seq<Ticket>, id: int)
    ensures Cancelled(before + [t] + after, id)
         == Cancelled(before, id) + (if t.id == id then [] else [t]) + Cancelled(after, id)
  {
    CancelledConcat(before + [t], after, id);
    CancelledConcat(before, [t], id);
  }

  /** Cancelling an id that no ticket carries changes nothing. */
  lemma {:induction false} CancelledAbsent(tickets: seq<Ticket>, id: int)
    requires id !in TicketIds(tickets)
    ensures Cancelled(tickets, id) == tickets
  {
    if tickets != [] {
      var rest := tickets[1..];
      assert TicketIds(tickets)[0] == tickets[0].id;
      assert id !in TicketIds(rest) by {
        assert TicketIds(rest) == TicketIds(tickets)[1..];
      }
      CancelledAbsent(rest, id);
      assert tickets == [tickets[0]] + rest;
    }
  }

  /** Cancelling twice is cancelling once. */
  lemma CancelledIdempotent(tickets: seq<Ticket>, id: int)
    ensures Cancelled(Cancelled(tickets, id), id) == Cancelled(tickets, id)
  {
    CancelledAbsent(Cancelled(tickets, id), id);
  }

  /** Among tickets with unique ids, cancelling an id that one of them holds
      removes exactly one ticket. */
  lemma {:induction false} CancelledRemovesOne(tickets: seq<Ticket>, id: int)
    requires UniqueIds(tickets) && id in TicketIds(tickets)
    ensures |Cancelled(tickets, id)| == |tickets| - 1
  {
    var rest := tickets[1..];
    assert TicketIds(rest) == TicketIds(tickets)[1..];
    UniqueSplit(tickets);
    if tickets[0].id == id {
      assert id !in TicketIds(rest) by {
        forall j | 0 <= j < |rest| ensures rest[j].id != id {
          assert rest[j] in rest;
        }
      }
      CancelledAbsent(rest, id);
    } else {
      CancelledRemovesOne(rest, id);
    }
  }

  /** Cancelling keeps ids unique. */
  lemma {:induction false} CancelledKeepsUnique(tickets: seq<Ticket>, id: int)
    requires UniqueIds(tickets)
    ensures UniqueIds(Cancelled(tickets, id))
  {
    if tickets != [] {
      var rest := tickets[1..];
      UniqueSplit(tickets);
      CancelledKeepsUnique(rest, id);
      var c := Cancelled(rest, id);
      if tickets[0].id != id {
        var r := [tickets[0]] + c;
        assert Cancelled(tickets, id) == r;
        forall i, j | 0 <= i < j < |r| ensures r[i].id != r[j].id {
          assert r[j] == c[j - 1];
          if i > 0 {
            assert r[i] == c[i - 1];
          } else {
            CancelledMembers(rest, id, c[j - 1]);
          }
        }
      }
    }
  }

  /** Unique ids: the head's id is held by no later ticket, and the rest
      are unique among themselves. */
  lemma UniqueSplit(tickets: seq<Ticket>)
    requires UniqueIds(tickets) && tickets != []
    ensures UniqueIds(tickets[1..])
    ensures forall t :: t in tickets[1..] ==> t.id != tickets[0].id
  {
  }

  // ---------------------------------------------------------------------
  // Update

  /** Without a show id, only the name of the first ticket with the id can
      change: a non-empty name replaces it, and a missing or empty name leaves
      the ticket, and so the whole list, as it was. */
  lemma UpdateRenames(shows: seq<Show>, tickets: seq<Ticket>, ticketId: int,
                      newName: Option<string>, i: nat)
    requires IsFirst(TicketIds(tickets), ticketId, i)
    ensures Updated(shows, tickets, ticketId, newName, None)
         == Response(Ok, tickets[i := tickets[i].(name := if Supplied(newName) then newName.value else tickets[i].name)])
    ensures !Supplied(newName) ==> Updated(shows, tickets, ticketId, newName, None) == Response(Ok, tickets)
  {
    FirstIndexAt(TicketIds(tickets), ticketId, i);
  }

  /** A show id that names a show moves the first ticket with the id to the
      first such show: show id, movie and time change together, the ticket
      keeps its id, and a given non-empty name is applied as well. */
  lemma UpdateMovesToShow(shows: seq<Show>, tickets: seq<Ticket>, ticketId: int,
                          newName: Option<string>, showId: int, i: nat, k: nat)
    requires IsFirst(TicketIds(tickets), ticketId, i)
    requires IsFirst(ShowIds(shows), showId, k)
    ensures Updated(shows, tickets, ticketId, newName, Some(showId))
         == Response(Ok, tickets[i := Ticket(tickets[i].id,
                                             if Supplied(newName) then newName.value else tickets[i].name,
                                             showId, shows[k].movie, shows[k].time)])
  {
    FirstIndexAt(TicketIds(tickets), ticketId, i);
    FirstIndexAt(ShowIds(shows), showId, k);
  }

  /** A show id that names no show leaves show id, movie and time as they
      were, while a given non-empty name is still applied. */
  lemma UpdateIgnoresUnknownShow(shows: seq<Show>, tickets: seq<Ticket>, ticketId: int,
                                 newName: Option<string>, showId: int, i: nat)
    requires IsFirst(TicketIds(tickets), ticketId, i)
    requires showId !in ShowIds(shows)
    ensures Updated(shows, tickets, ticketId, newName, Some(showId))
         == Response(Ok, tickets[i := tickets[i].(name := if Supplied(newName) then newName.value else tickets[i].name)])
  {
  }

  /** Updating keeps ids unique. */
  lemma UpdatedKeepsUnique(shows: seq<Show>, tickets: seq<Ticket>, ticketId: int,
                           newName: Option<string>, newShowId: Option<int>)
    requires UniqueIds(tickets)
    ensures UniqueIds(Updated(shows, tickets, ticketId, newName, newShowId).tickets)
  {
  }

  // ---------------------------------------------------------------------
  // Ids

  /** Booking gives a fresh id as long as no id exceeds the number of
      tickets held. */
  lemma BookedKeepsUnique(shows: seq<Show>, tickets: seq<Ticket>, name: string, showId: int)
    requires UniqueIds(tickets) && IdsWithinCount(tickets)
    ensures UniqueIds(Booked(shows, tickets, name, showId).tickets)
    ensures IdsWithinCount(Booked(shows, tickets, name, showId).tickets)
  {
  }

  /** Booking and updating keep the tickets numbered 1, 2, 3, ... */
  lemma NumberedKept(shows: seq<Show>, tickets: seq<Ticket>, name: string, showId: int,
                     ticketId: int, newName: Option<string>, newShowId: Option<int>)
    requires Numbered(tickets)
    ensures Numbered(Booked(shows, tickets, name, showId).tickets)
    ensures Numbered(Updated(shows, tickets, ticketId, newName, newShowId).tickets)
  {
  }

  /** Tickets numbered 1, 2, 3, ... have unique ids. */
  lemma NumberedUnique(tickets: seq<Ticket>)
    requires Numbered(tickets)
    ensures UniqueIds(tickets)
  {
  }

  /** The id scheme is not unique: from tickets numbered 1..n (n >= 2),
      cancelling any ticket but the last and booking again yields a new ticket
      whose id n is already held by the last ticket. */
  lemma DuplicateIdAfterCancel(shows: seq<Show>, tickets: seq<Ticket>, cancelId: int,
                               name: string, showId: int)
    requires Numbered(tickets)
    requires 1 <= cancelId < |tickets|
    requires showId in ShowIds(shows)
    ensures var c := Cancelled(tickets, cancelId);
            var r := Booked(shows, c, name, showId);
            && r.outcome == Ok && !UniqueIds(r.tickets)
            && r.tickets[|c|].id == |tickets|
            && exists j :: 0 <= j < |c| && r.tickets[j].id == |tickets|
  {
    var n := |tickets|;
    var c := Cancelled(tickets, cancelId);
    NumberedUnique(tickets);
    assert TicketIds(tickets)[cancelId - 1] == cancelId;
    CancelledRemovesOne(tickets, cancelId);
    assert |c| == n - 1;
    var last := tickets[n - 1];
    assert last in tickets && last.id == n;
    CancelledMembers(tickets, cancelId, last);
    var j :| 0 <= j < |c| && c[j] == last;
    BookedAppends(shows, c, name, showId);
    var r := Booked(shows, c, name, showId);
    assert r.tickets[j] == last && r.tickets[|c|].id == n;
    assert r.tickets[j].id == n;
  }

  /** A booking for a show in the catalogue appends one ticket numbered
      one past the current count. */
  lemma BookedAppends(shows: seq<Show>, tickets: seq<Ticket>, name: string, showId: int)
    requires showId in ShowIds(shows)
    ensures var r := Booked(shows, tickets, name, showId);
            && r.outcome == Ok && |r.tickets| == |tickets| + 1
            && (forall i :: 0 <= i < |tickets| ==> r.tickets[i] == tickets[i])
            && r.tickets[|tickets|].id == |tickets| + 1
  {
    var r := Booked(shows, tickets, name, showId);
    var k := FirstIndex(ShowIds(shows), showId).value;
    assert IsFirst(ShowIds(shows), showId, k);
    forall i | 0 <= i < |tickets| ensures r.tickets[i] == tickets[i] {
      assert r.tickets[i] == r.tickets[..|tickets|][i];
    }
  }

  /** Ids are reused: cancelling the last of tickets numbered 1..n and
      booking again gives the new ticket the cancelled ticket's id n. */
  lemma IdReusedAfterCancelLast(shows: seq<Show>, tickets: seq<Ticket>, name: string, showId: int)
    requires Numbered(tickets) && tickets != []
    requires showId in ShowIds(shows)
    ensures var c := Cancelled(tickets, |tickets|);
            var r := Booked(shows, c, name, showId);
            r.outcome == Ok && |r.tickets| == |tickets| && r.tickets[|tickets| - 1].id == |tickets|
  {
    NumberedUnique(tickets);
    assert TicketIds(tickets)[|tickets| - 1] == |tickets|;
    CancelledRemovesOne(tickets, |tickets|);
  }

  // ---------------------------------------------------------------------
  // Concrete runs

  /** A sample session on the start-up catalogue: Alice books show 1, Bob show 2, Alice's
      ticket moves to show 2, Bob's ticket is cancelled. */
  lemma WalkThrough()
    ensures var b1 := Booked(CATALOGUE, [], "Alice", 1);
            var b2 := Booked(CATALOGUE, b1.tickets, "Bob", 2);
            var u := Updated(CATALOGUE, b2.tickets, 1, None, Some(2));
            var c := Cancelled(u.tickets, 2);
            && b1 == Response(Ok, [Ticket(1, "Alice", 1, "Inception", "7:00 PM")])
            && b2.outcome == Ok && b2.tickets[1] == Ticket(2, "Bob", 2, "Interstellar", "9:00 PM")
            && u == Response(Ok, [Ticket(1, "Alice", 2, "Interstellar", "9:00 PM"), b2.tickets[1]])
            && c == [Ticket(1, "Alice", 2, "Interstellar", "9:00 PM")]
  {
  }

  /** Two bookings, cancelling the first, and booking again: the list ends
      with two tickets numbered 2. */
  lemma DuplicateIdScenario()
    ensures var b1 := Booked(CATALOGUE, [], "Alice", 1);
            var b2 := Booked(CATALOGUE, b1.tickets, "Bob", 1);
            var c := Cancelled(b2.tickets, 1);
            var b3 := Booked(CATALOGUE, c, "Carol", 1);
            && b3 == Response(Ok, [Ticket(2, "Bob", 1, "Inception", "7:00 PM"),
                                   Ticket(2, "Carol", 1, "Inception", "7:00 PM")])
            && !UniqueIds(b3.tickets)
  {
    var alice := Ticket(1, "Alice", 1, "Inception", "7:00 PM");
    var bob := Ticket(2, "Bob", 1, "Inception", "7:00 PM");
    var carol := Ticket(2, "Carol", 1, "Inception", "7:00 PM");
    assert ShowIds(CATALOGUE) == [1, 2];
    assert FirstIndex(ShowIds(CATALOGUE), 1) == Some(0);
    assert Booked(CATALOGUE, [], "Alice", 1) == Response(Ok, [alice]);
    assert Booked(CATALOGUE, [alice], "Bob", 1) == Response(Ok, [alice, bob]);
    assert Cancelled([bob], 1) == [bob] + Cancelled([], 1);
    assert [alice, bob][1..] == [bob];
    assert Cancelled([alice, bob], 1) == [bob];
    assert Booked(CATALOGUE, [bob], "Carol", 1) == Response(Ok, [bob, carol]);
  }
}
