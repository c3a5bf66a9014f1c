/**
 The ticket store of the booking demo, as values: the show and ticket records,
 the first-match lookup the handlers use, and the effect of booking, cancelling
 and updating on the ordered sequence of tickets. The class in module Store
 performs these steps in place; the functions here say what each step yields.
 */
module Tickets {

  datatype Option<+T> = None | Some(value: T)

  /** A scheduled screening; the catalogue of shows is fixed at start-up. */
  datatype Show = Show(id: int, movie: string, time: string)

  /** A booking; `movie` and `time` are copies of the show's fields taken when
      the ticket was booked or last moved to another show. */
  datatype Ticket = Ticket(id: int, name: string, showId: int, movie: string, time: string)

  /** The two answers a handler gives: the refreshed page, or "not found". */
  datatype Outcome = Ok | NotFound

  /** What one request leaves behind: its outcome and the new ticket list. */
  datatype Response = Response(outcome: Outcome, tickets: seq<Ticket>)

  /** The catalogue the application starts with. */
  const CATALOGUE: seq<Show> := [
    Show(1, "Inception", "7:00 PM"),
    Show(2, "Interstellar", "9:00 PM")
  ]

  function ShowIds(shows: seq<Show>): (ids: seq<int>)
    ensures |ids| == |shows|
    ensures forall k :: 0 <= k < |shows| ==> ids[k] == shows[k].id
  {
    if shows == [] then [] else [shows[0].id] + ShowIds(shows[1..])
  }

  function TicketIds(tickets: seq<Ticket>): (ids: seq<int>)
    ensures |ids| == |tickets|
    ensures forall i :: 0 <= i < |tickets| ==> ids[i] == tickets[i].id
  {
    if tickets == [] then [] else [tickets[0].id] + TicketIds(tickets[1..])
  }

  /** Position k holds the first occurrence of id in ids. */
  ghost predicate IsFirst(ids: seq<int>, id: int, k: nat)
  {
    k < |ids| && ids[k] == id && id !in ids[..k]
  }

  /** First-match search over the ids of a list of records, as the handlers
      look up shows and tickets: the position of the first record with the id,
      or None when no record has it. */
  function FirstIndex(ids: seq<int>, id: int): (r: Option<nat>)
    ensures r.None? <==> id !in ids
    ensures r.Some? ==> IsFirst(ids, id, r.value)
  {
    if ids == [] then None
    else if ids[0] == id then Some(0)
    else
      match FirstIndex(ids[1..], id)
      case None => None
      case Some(k) =>
        assert ids[..k + 1] == [ids[0]] + ids[1..][..k];
        Some(k + 1)
  }

  /** No two tickets share an id. */
  ghost predicate UniqueIds(tickets: seq<Ticket>)
  {
    forall i, j :: 0 <= i < j < |tickets| ==> tickets[i].id != tickets[j].id
  }

  /** Booking: the first show with the id is copied into a new ticket appended
      at the end, numbered one past the current number of tickets. */
  function Booked(shows: seq<Show>, tickets: seq<Ticket>, name: string, showId: int): (r: Response)
    ensures (r.outcome == Ok) == (showId in ShowIds(shows))
    ensures r.outcome == NotFound ==> r.tickets == tickets
    ensures r.outcome == Ok ==> |r.tickets| == |tickets| + 1 && r.tickets[..|tickets|] == tickets
    ensures forall k: nat :: IsFirst(ShowIds(shows), showId, k) ==>
              r.tickets[|tickets|] == Ticket(|tickets| + 1, name, showId, shows[k].movie, shows[k].time)
  {
    match FirstIndex(ShowIds(shows), showId)
    case None => Response(NotFound, tickets)
    case Some(k) =>
      Response(Ok, tickets + [Ticket(|tickets| + 1, name, showId, shows[k].movie, shows[k].time)])
  }

  /** The number of tickets that carry the id. */
  function Holding(tickets: seq<Ticket>, id: int): (count: nat)
  {
    if tickets == [] then 0
    else (if tickets[0].id == id then 1 else 0) + Holding(tickets[1..], id)
  }

  /** Cancelling: every ticket carrying the id is dropped, the others are kept
      in order (lemmas CancelledMembers and CancelledKeepsOrder of module
      TicketLaws); no ticket with the id is an error. */
  function Cancelled(tickets: seq<Ticket>, id: int): (r: seq<Ticket>)
    ensures forall i :: 0 <= i < |r| ==> r[i].id != id
    ensures |r| == |tickets| - Holding(tickets, id)
  {
    if tickets == [] then []
    else if tickets[0].id == id then Cancelled(tickets[1..], id)
    else
      var rest := Cancelled(tickets[1..], id);
      assert ([tickets[0]] + rest)[1..] == rest;
      [tickets[0]] + rest
  }

  /** A name counts as given only when it is present and non-empty. */
  predicate Supplied(name: Option<string>)
  {
    name.Some? && name.value != ""
  }

  /** The name step of an update. */
  function Renamed(t: Ticket, newName: Option<string>): (t': Ticket)
  {
    if Supplied(newName) then t.(name := newName.value) else t
  }

  /** The show step of an update: a show id that names a show moves the
      ticket to it; one that names none leaves the ticket as it was. */
  function Moved(shows: seq<Show>, t: Ticket, newShowId: Option<int>): (t': Ticket)
  {
    if newShowId.None? then t
    else
      match FirstIndex(ShowIds(shows), newShowId.value)
      case None => t
      case Some(k) => t.(showId := newShowId.value, movie := shows[k].movie, time := shows[k].time)
  }

  /** Updating: the first ticket with the id gets the name step, then the
      show step; no ticket with the id is "not found". */
  function Updated(shows: seq<Show>, tickets: seq<Ticket>, ticketId: int,
                   newName: Option<string>, newShowId: Option<int>): (r: Response)
    ensures (r.outcome == NotFound) == (ticketId !in TicketIds(tickets))
    ensures r.outcome == NotFound ==> r.tickets == tickets
    ensures |r.tickets| == |tickets|
    ensures TicketIds(r.tickets) == TicketIds(tickets)
    ensures forall i: nat, j :: IsFirst(TicketIds(tickets), ticketId, i) && 0 <= j < |tickets| && j != i ==>
              r.tickets[j] == tickets[j]
  {
    match FirstIndex(TicketIds(tickets), ticketId)
    case None => Response(NotFound, tickets)
    case Some(i) => Response(Ok, tickets[i := Moved(shows, Renamed(tickets[i], newName), newShowId)])
  }
}
