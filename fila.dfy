/**
 * The waiting line itself: the process-wide list `db_clientes` of main.py:39
 * as an object whose one field the handlers update in place. Each method
 * mirrors one handler's loop and is proved to leave exactly the line that the
 * matching function of `Operations` describes.
 */
module Fila {
  import opened Wrappers
  import opened Tickets
  import opened Operations
  import opened PriorityOrder

  /** How a handler ends: success, a 404, or the IndexError of `db_clientes[-1]` on an empty line. */
  datatype Status = Done | NotFound | NoLastTicket

  /** The three customers the service starts with (main.py:39-43). */
  function Seed(t1: Timestamp, t2: Timestamp, t3: Timestamp): seq<Ticket> {
    [Ticket(1, "Maria", Normal, t1, false),
     Ticket(2, "José", Normal, t2, false),
     Ticket(3, "Pedro", Normal, t3, false)]
  }

  class WaitingLine {
    var tickets: seq<Ticket>

    constructor (initial: seq<Ticket>)
      ensures tickets == initial
    {
      tickets := initial;
    }

    /** The line at start-up; `t1`..`t3` stand for the three clock readings. */
    constructor Seeded(t1: Timestamp, t2: Timestamp, t3: Timestamp)
      ensures tickets == Seed(t1, t2, t3) && Contiguous(tickets)
    {
      tickets := Seed(t1, t2, t3);
    }

    /** get_all (main.py:47-54): the unserved tickets in line order; the line is not changed. */
    method GetAll() returns (r: seq<Entry>)
      ensures r == Active(tickets)
    {
      r := [];
      if |tickets| == 0 {
        return;
      }
      var i := 0;
      while i < |tickets|
        invariant 0 <= i <= |tickets|
        invariant r == Active(tickets[..i])
      {
        assert tickets[..i + 1][..i] == tickets[..i];
        if !tickets[i].served {
          r := r + [Render(tickets[i])];
        }
        i := i + 1;
      }
      assert tickets[..i] == tickets;
    }

    /** get_by_id (main.py:58-65): the first ticket holding `id`, served or not; None is the 404. */
    method GetById(id: int) returns (r: Option<Entry>)
      ensures r == Lookup(tickets, id)
    {
      var i := 0;
      while i < |tickets|
        invariant 0 <= i <= |tickets|
        invariant forall j :: 0 <= j < i ==> tickets[j].id != id
      {
        if tickets[i].id == id {
          assert FirstMatch(tickets, HasId(id)) == Some(i);
          return Some(Render(tickets[i]));
        }
        i := i + 1;
      }
      return None;
    }

    /** create (main.py:69-78): append a waiting ticket numbered one past the last one. */
    method Create(name: Name, kind: Kind, now: Timestamp) returns (status: Status)
      modifies this
      ensures status == (if |old(tickets)| == 0 then NoLastTicket else Done)
      ensures status == Done ==> tickets == old(tickets) + [NewTicket(old(tickets), name, kind, now)]
      ensures status == NoLastTicket ==> tickets == old(tickets)
    {
      if |tickets| == 0 {
        return NoLastTicket;
      }
      var t := Ticket(tickets[|tickets| - 1].id + 1, name, kind, now, false);
      tickets := tickets + [t];
      return Done;
    }

    /**
     * create_prioridade (main.py:82-100): a priority ticket goes just before
     * the first normal one, or to the front when there is none; a normal one
     * is appended. The id is one past the last ticket's either way.
     */
    method CreatePriority(name: Name, kind: Kind, now: Timestamp) returns (status: Status)
      modifies this
      ensures status == (if |old(tickets)| == 0 then NoLastTicket else Done)
      ensures status == Done ==> tickets == PriorityEnqueued(old(tickets), NewTicket(old(tickets), name, kind, now))
      ensures status == NoLastTicket ==> tickets == old(tickets)
    {
      if |tickets| == 0 {
        return NoLastTicket;
      }
      var t := Ticket(tickets[|tickets| - 1].id + 1, name, kind, now, false);
      if kind == Priority {
        var i := 0;
        while i < |tickets| && tickets[i].kind != Normal
          invariant 0 <= i <= |tickets|
          invariant forall j :: 0 <= j < i ==> tickets[j].kind != Normal
        {
          i := i + 1;
        }
        if i < |tickets| {
          assert FirstMatch(tickets, OfKind(Normal)) == Some(i);
          tickets := tickets[..i] + [t] + tickets[i..];
        } else {
          assert FirstMatch(tickets, OfKind(Normal)).None?;
          tickets := [t] + tickets;
          assert tickets == InsertAt(old(tickets), 0, t);
        }
      } else {
        tickets := tickets + [t];
      }
      return Done;
    }

    /** update (main.py:104-109): every ticket's id one lower; the one reaching 0 is served. */
    method Update()
      modifies this
      ensures tickets == TickDown(old(tickets))
    {
      var i := 0;
      while i < |tickets|
        invariant 0 <= i <= |tickets| == |old(tickets)|
        invariant forall j :: 0 <= j < i ==> tickets[j] == Tick(old(tickets)[j])
        invariant forall j :: i <= j < |tickets| ==> tickets[j] == old(tickets)[j]
      {
        var t := tickets[i].(id := tickets[i].id - 1);
        if t.id == 0 {
          t := t.(served := true);
        }
        tickets := tickets[i := t];
        i := i + 1;
      }
    }

    /**
     * update_prioridade (main.py:113-120): walk the stably sorted view and
     * serve the first unserved ticket met; no id and no order changes.
     */
    method UpdatePriority()
      modifies this
      ensures tickets == PriorityServed(old(tickets))
    {
      var view := PriorityView(tickets);
      var k := 0;
      while k < |view|
        invariant 0 <= k <= |view| == |tickets|
        invariant tickets == old(tickets)
        invariant forall j :: 0 <= j < k ==> tickets[view[j]].served
      {
        var i := view[k];
        if !tickets[i].served {
          ViewScanAgrees(tickets, k);
          tickets := tickets[i := tickets[i].(served := true)];
          return;
        }
        k := k + 1;
      }
      ViewScanAgrees(tickets, k);
    }

    /**
     * delete (main.py:124-132): remove the first ticket holding `id` and
     * number every later ticket one lower; NotFound leaves the line alone.
     */
    method Delete(id: int) returns (status: Status)
      modifies this
      ensures status == (if Deleted(old(tickets), id).Some? then Done else NotFound)
      ensures status == Done ==> tickets == Deleted(old(tickets), id).value
      ensures status == NotFound ==> tickets == old(tickets)
    {
      var i := 0;
      while i < |tickets| && tickets[i].id != id
        invariant 0 <= i <= |tickets|
        invariant forall j :: 0 <= j < i ==> tickets[j].id != id
      {
        i := i + 1;
      }
      if i == |tickets| {
        return NotFound;
      }
      assert FirstMatch(tickets, HasId(id)) == Some(i);
      // `remove(cliente)` drops the first ticket equal to the one found: index i
      RemoveHitsFoundTicket(tickets, id);
      tickets := tickets[..i] + tickets[i + 1..];
      var j := i;
      while j < |tickets|
        invariant i <= j <= |tickets| == |old(tickets)| - 1
        invariant tickets[..i] == old(tickets)[..i]
        invariant forall m :: i <= m < j ==> tickets[m] == old(tickets)[m + 1].(id := old(tickets)[m + 1].id - 1)
        invariant forall m :: j <= m < |tickets| ==> tickets[m] == old(tickets)[m + 1]
      {
        tickets := tickets[j := tickets[j].(id := tickets[j].id - 1)];
        j := j + 1;
      }
      assert tickets == RemovedAt(old(tickets), i);
      return Done;
    }
  }
}
