/**
 * The entity of the waiting line: a customer's ticket, the record shown to
 * callers, and a first-match search over a line of tickets.
 */
module Tickets {
  import opened Wrappers

  /** Attendance class: 'N' (normal) or 'P' (priority), main.py:15. */
  datatype Kind = Normal | Priority

  /** A wall-clock reading; the clock itself is outside the model. */
  type Timestamp = int

  /** A customer name: at most 20 characters, as request validation demands (main.py:14, 22). */
  type Name = s: string | |s| <= 20

  /**
   * One customer (main.py:12-17). `id` is at once the displayed position and
   * the lookup key; `served` is the attendance flag.
   */
  datatype Ticket = Ticket(id: int, name: Name, kind: Kind, arrivedAt: Timestamp, served: bool)

  /** What a listing or a lookup shows of a ticket (main.py:27-35). */
  datatype Entry = Entry(position: int, name: Name, arrivedAt: Timestamp)

  function Render(t: Ticket): Entry {
    Entry(t.id, t.name, t.arrivedAt)
  }

  /** The conditions the operations search a line for. */
  datatype Criterion =
    | HasId(id: int)           // `cliente.id == id`
    | OfKind(kind: Kind)       // `tipo_atendimento == ...`
    | Waiting(kind: Kind)      // of that class and not yet served
    | SameAs(ticket: Ticket)   // equal in every field, as `list.remove` compares

  predicate Matches(t: Ticket, c: Criterion) {
    match c
    case HasId(id) => t.id == id
    case OfKind(k) => t.kind == k
    case Waiting(k) => t.kind == k && !t.served
    case SameAs(u) => t == u
  }

  /** The index of the first ticket that meets `c`, scanning from the front. */
  function FirstMatch(s: seq<Ticket>, c: Criterion): (r: Option<nat>)
    ensures r.None? <==> forall i :: 0 <= i < |s| ==> !Matches(s[i], c)
    ensures r.Some? ==> r.value < |s| && Matches(s[r.value], c)
    ensures r.Some? ==> forall j :: 0 <= j < r.value ==> !Matches(s[j], c)
  {
    if |s| == 0 then None
    else if Matches(s[0], c) then Some(0)
    else match FirstMatch(s[1..], c)
      case None => None
      case Some(k) => Some(k + 1)
  }

  /** The intended numbering: the ticket at index i holds id i + 1. */
  predicate Contiguous(s: seq<Ticket>) {
    forall i :: 0 <= i < |s| ==> s[i].id == i + 1
  }
}
