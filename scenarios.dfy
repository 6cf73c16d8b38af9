/**
 * Concrete sessions on small lines, stated over the operations' functions and
 * driven through the methods of `Fila.WaitingLine`.
 */
module Scenarios {
  import opened Wrappers
  import opened Tickets
  import opened Operations
  import opened Fila

  function T(id: int, kind: Kind, served: bool): Ticket {
    Ticket(id, "x", kind, 0, served)
  }

  /** A priority ticket goes in front of an all-normal line, behind a waiting priority ticket that has a normal one after it, and in front of an all-priority line. */
  lemma PriorityInsertExamples(p: Ticket)
    requires p.kind == Priority
    ensures PriorityEnqueued([T(1, Normal, false), T(2, Normal, false)], p)
         == [p, T(1, Normal, false), T(2, Normal, false)]
    ensures PriorityEnqueued([T(1, Priority, false), T(2, Normal, false)], p)
         == [T(1, Priority, false), p, T(2, Normal, false)]
    ensures PriorityEnqueued([T(1, Priority, false), T(2, Priority, false)], p)
         == [p, T(1, Priority, false), T(2, Priority, false)]
  {
    var a := [T(1, Normal, false), T(2, Normal, false)];
    assert FirstMatch(a, OfKind(Normal)) == Some(0);
    var b := [T(1, Priority, false), T(2, Normal, false)];
    assert FirstMatch(b, OfKind(Normal)) == Some(1);
    assert b[..1] == [T(1, Priority, false)];
  }

  /** A line numbered 1, 2, 3 ticks down to 0, 1, 2 with only the front served. */
  lemma TickDownExample()
    ensures TickDown([T(1, Normal, false), T(2, Normal, false), T(3, Normal, false)])
         == [T(0, Normal, true), T(1, Normal, false), T(2, Normal, false)]
  {
  }

  /** The priority serve flips only the priority ticket's flag and keeps the ids 1 and 2. */
  lemma PriorityServeExample()
    ensures PriorityServed([T(1, Priority, false), T(2, Normal, false)])
         == [T(1, Priority, true), T(2, Normal, false)]
  {
  }

  /** Deleting id 2 of 1, 2, 3, 4 leaves 1, 2, 3 in the old order; id 9 is not found. */
  lemma DeleteExample()
    ensures Deleted([T(1, Normal, false), T(2, Priority, false), T(3, Normal, true), T(4, Normal, false)], 2)
         == Some([T(1, Normal, false), T(2, Normal, true), T(3, Normal, false)])
    ensures Deleted([T(1, Normal, false), T(2, Priority, false)], 9).None?
  {
    var s := [T(1, Normal, false), T(2, Priority, false), T(3, Normal, true), T(4, Normal, false)];
    assert FirstMatch(s, HasId(2)) == Some(1);
    var r := RemovedAt(s, 1);
    assert r[0] == T(1, Normal, false) && r[1] == T(2, Normal, true) && r[2] == T(3, Normal, false);
    assert |r| == 3;
    assert r == [T(1, Normal, false), T(2, Normal, true), T(3, Normal, false)];
  }

  /** A session on the start-up line, through the methods. */
  method SeedSession() {
    var line := new WaitingLine.Seeded(10, 11, 12);
    var status := line.Create("Ana", Normal, 13);
    assert status == Done && Contiguous(line.tickets) by {
      AppendKeepsContiguous(Seed(10, 11, 12), "Ana", Normal, 13);
    }
    status := line.Delete(2);
    assert status == Done by {
      DeleteKeepsContiguous(Seed(10, 11, 12) + [NewTicket(Seed(10, 11, 12), "Ana", Normal, 13)], 2);
    }
    var found := line.GetById(3);
    assert found == Some(Entry(3, "Ana", 13)) by {
      assert line.tickets[2].id == 3;
    }
    var empty := new WaitingLine([]);
    status := empty.Create("Ana", Priority, 14);
    assert status == NoLastTicket && empty.tickets == [];
  }
}
