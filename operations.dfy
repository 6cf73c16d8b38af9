/**
 * The effect of each waiting-line operation on the sequence of tickets, as
 * functions of the old sequence, and the properties the operations keep.
 * The methods of `Fila.WaitingLine` are proved to compute exactly these.
 */
module Operations {
  import opened Wrappers
  import opened Tickets

  // ---------------------------------------------------------------- listing

  /** The unserved tickets, in line order, as entries (get_all). */
  function Active(s: seq<Ticket>): (r: seq<Entry>)
    ensures |r| <= |s|
  {
    if |s| == 0 then []
    else Active(s[..|s| - 1]) + (if s[|s| - 1].served then [] else [Render(s[|s| - 1])])
  }

  /** Listing a line made of two parts lists the first part, then the second. */
  lemma {:induction false} ActiveConcat(a: seq<Ticket>, b: seq<Ticket>)
    ensures Active(a + b) == Active(a) + Active(b)
    decreases |b|
  {
    if |b| == 0 {
      assert a + b == a;
    } else {
      var c := b[..|b| - 1];
      assert (a + b)[..|a + b| - 1] == a + c;
      ActiveConcat(a, c);
    }
  }

  /** An entry is listed exactly when some unserved ticket renders to it. */
  lemma {:induction false} ActiveMembers(s: seq<Ticket>, e: Entry)
    ensures e in Active(s) <==> exists i :: 0 <= i < |s| && !s[i].served && Render(s[i]) == e
  {
    if |s| > 0 {
      var p := s[..|s| - 1];
      ActiveMembers(p, e);
      assert forall i :: 0 <= i < |p| ==> p[i] == s[i];
      if e in Active(s) && e !in Active(p) {
        assert !s[|s| - 1].served && Render(s[|s| - 1]) == e;
      }
    }
  }

  /** Listing is empty exactly when every ticket has been served. */
  lemma {:induction false} ActiveEmpty(s: seq<Ticket>)
    ensures Active(s) == [] <==> forall i :: 0 <= i < |s| ==> s[i].served
  {
    if |s| > 0 {
      var p := s[..|s| - 1];
      ActiveEmpty(p);
      assert forall i :: 0 <= i < |p| ==> p[i] == s[i];
    }
  }

  // ----------------------------------------------------------------- lookup

  /** The entry of the first ticket whose id is `id`, served or not (get_by_id). */
  function Lookup(s: seq<Ticket>, id: int): (r: Option<Entry>)
    ensures r.None? <==> forall i :: 0 <= i < |s| ==> s[i].id != id
    ensures r.Some? ==> exists i :: 0 <= i < |s| && s[i].id == id && r.value == Render(s[i]) &&
                                    forall j :: 0 <= j < i ==> s[j].id != id
  {
    match FirstMatch(s, HasId(id))
    case None => None
    case Some(i) => Some(Render(s[i]))
  }

  /** On a contiguously numbered line, id p is the p-th ticket. */
  lemma LookupContiguous(s: seq<Ticket>, p: int)
    requires Contiguous(s)
    ensures Lookup(s, p).Some? <==> 1 <= p <= |s|
    ensures 1 <= p <= |s| ==> Lookup(s, p) == Some(Render(s[p - 1]))
  {
    if 1 <= p <= |s| {
      assert s[p - 1].id == p;
    }
  }

  // -------------------------------------------------------------- enqueuing

  /** The id a new ticket receives: one more than the last ticket's (main.py:76, 89). */
  function NextId(s: seq<Ticket>): int
    requires |s| > 0
  {
    s[|s| - 1].id + 1
  }

  function NewTicket(s: seq<Ticket>, name: Name, kind: Kind, now: Timestamp): Ticket
    requires |s| > 0
  {
    Ticket(NextId(s), name, kind, now, false)
  }

  /** Appending a new ticket to a contiguously numbered line keeps it contiguous. */
  lemma AppendKeepsContiguous(s: seq<Ticket>, name: Name, kind: Kind, now: Timestamp)
    requires |s| > 0 && Contiguous(s)
    ensures Contiguous(s + [NewTicket(s, name, kind, now)])
  {
  }

  /**
   * Where a priority ticket goes: just before the first normal ticket, or at
   * the very front when there is none (the for-else of main.py:92-97).
   */
  function InsertionPoint(s: seq<Ticket>): (k: nat)
    ensures k <= |s|
    ensures (exists i :: 0 <= i < |s| && s[i].kind == Normal) <==> k < |s| && s[k].kind == Normal
    ensures k < |s| && s[k].kind == Normal ==> forall j :: 0 <= j < k ==> s[j].kind == Priority
    ensures (forall i :: 0 <= i < |s| ==> s[i].kind == Priority) ==> k == 0
  {
    match FirstMatch(s, OfKind(Normal))
    case Some(i) => i
    case None => 0
  }

  function InsertAt(s: seq<Ticket>, k: nat, t: Ticket): seq<Ticket>
    requires k <= |s|
  {
    s[..k] + [t] + s[k..]
  }

  /** The line after create_prioridade has placed ticket `t`. */
  function PriorityEnqueued(s: seq<Ticket>, t: Ticket): (r: seq<Ticket>)
    ensures |r| == |s| + 1 && t in r
  {
    if t.kind == Priority then InsertAt(s, InsertionPoint(s), t) else s + [t]
  }

  /**
   * create_prioridade splices `t` in at one index k and touches nothing else:
   * before k the line is as it was, after k it is the old line shifted by one,
   * and taking `t` out again gives back the old line.
   */
  lemma PriorityEnqueuedShape(s: seq<Ticket>, t: Ticket)
    ensures var r := PriorityEnqueued(s, t);
            var k := if t.kind == Priority then InsertionPoint(s) else |s|;
            |r| == |s| + 1 && k <= |s| && r[k] == t &&
            (forall j :: 0 <= j < k ==> r[j] == s[j]) &&
            (forall j :: k < j < |r| ==> r[j] == s[j - 1]) &&
            r[..k] + r[k + 1..] == s &&
            multiset(r) == multiset(s) + multiset{t}
  {
    var r := PriorityEnqueued(s, t);
    var k := if t.kind == Priority then InsertionPoint(s) else |s|;
    assert r == s[..k] + [t] + s[k..];
    assert s == s[..k] + s[k..];
  }

  /** A normal ticket through create_prioridade lands exactly where create puts it. */
  lemma PriorityEnqueuedNormal(s: seq<Ticket>, t: Ticket)
    requires t.kind == Normal
    ensures PriorityEnqueued(s, t) == s + [t]
  {
  }

  /**
   * A priority ticket spliced in ahead of another ticket keeps id last + 1, so
   * the line is no longer numbered by position (ids are not renumbered).
   */
  lemma PriorityInsertBreaksNumbering(s: seq<Ticket>, name: Name, now: Timestamp)
    requires |s| > 0 && Contiguous(s)
    ensures var r := PriorityEnqueued(s, NewTicket(s, name, Priority, now));
            r[InsertionPoint(s)].id == |s| + 1 && !Contiguous(r)
  {
  }

  // -------------------------------------------------------------- tick-down

  /** One ticket under update: id down by one, served once the id reaches 0. */
  function Tick(t: Ticket): Ticket {
    var u := t.(id := t.id - 1);
    if u.id == 0 then u.(served := true) else u
  }

  /** The line after update (main.py:105-108). */
  function TickDown(s: seq<Ticket>): (r: seq<Ticket>)
    ensures |r| == |s|
    ensures forall i :: 0 <= i < |s| && s[i].served ==> r[i].served
  {
    seq(|s|, i requires 0 <= i < |s| => Tick(s[i]))
  }

  /**
   * update changes every ticket, served or not: ids drop by exactly one, the
   * one reaching 0 becomes served, no flag is cleared, and nothing else moves.
   */
  lemma TickDownEffect(s: seq<Ticket>)
    ensures |TickDown(s)| == |s|
    ensures forall i :: 0 <= i < |s| ==>
      var t, u := s[i], TickDown(s)[i];
      u.id == t.id - 1 && u.served == (t.served || t.id == 1) &&
      u.name == t.name && u.kind == t.kind && u.arrivedAt == t.arrivedAt
  {
  }

  /** `n` successive calls of update. */
  function Ticks(s: seq<Ticket>, n: nat): seq<Ticket> {
    if n == 0 then s else TickDown(Ticks(s, n - 1))
  }

  /**
   * After n calls of update each id is n lower, and a ticket is served exactly
   * when it was already or its id was among 1..n: the line drains one rank per
   * call, in id order.
   */
  lemma {:induction false} TicksEffect(s: seq<Ticket>, n: nat, i: nat)
    requires i < |s|
    ensures |Ticks(s, n)| == |s|
    ensures Ticks(s, n)[i].id == s[i].id - n
    ensures Ticks(s, n)[i].served == (s[i].served || 1 <= s[i].id <= n)
    ensures Ticks(s, n)[i].name == s[i].name && Ticks(s, n)[i].kind == s[i].kind
  {
    if n > 0 {
      TicksEffect(s, n - 1, i);
      TickDownEffect(Ticks(s, n - 1));
    }
  }

  /** On a contiguously numbered line of waiting tickets, one update serves exactly the front one. */
  lemma TickDownServesFront(s: seq<Ticket>)
    requires Contiguous(s) && forall i :: 0 <= i < |s| ==> !s[i].served
    ensures forall i :: 0 <= i < |s| ==> TickDown(s)[i].id == i && TickDown(s)[i].served == (i == 0)
  {
  }

  /** update is never a no-op on a non-empty line, even when every ticket is served. */
  lemma TickDownMovesServedLine(s: seq<Ticket>)
    requires |s| > 0
    ensures TickDown(s) != s
  {
    assert TickDown(s)[0].id == s[0].id - 1;
  }

  // ---------------------------------------------------------- priority serve

  /** Which ticket update_prioridade serves: the first waiting priority ticket, else the first waiting normal one. */
  function ServeIndex(s: seq<Ticket>): (r: Option<nat>)
    ensures r.None? <==> forall i :: 0 <= i < |s| ==> s[i].served
    ensures r.Some? ==> r.value < |s| && !s[r.value].served
    ensures r.Some? && s[r.value].kind == Priority ==>
      forall j :: 0 <= j < r.value && s[j].kind == Priority ==> s[j].served
    ensures r.Some? && s[r.value].kind == Normal ==>
      (forall j :: 0 <= j < |s| && s[j].kind == Priority ==> s[j].served) &&
      (forall j :: 0 <= j < r.value ==> s[j].served)
  {
    match FirstMatch(s, Waiting(Priority))
    case Some(i) => Some(i)
    case None =>
      var r := FirstMatch(s, Waiting(Normal));
      assert r.None? ==> forall i :: 0 <= i < |s| ==> s[i].served by {
        if r.None? {
          forall i | 0 <= i < |s| ensures s[i].served {
            assert !Matches(s[i], Waiting(Priority)) && !Matches(s[i], Waiting(Normal));
          }
        }
      }
      r
  }

  function Serve(s: seq<Ticket>, i: nat): seq<Ticket>
    requires i < |s|
  {
    s[i := s[i].(served := true)]
  }

  /** The line after update_prioridade (main.py:115-119). */
  function PriorityServed(s: seq<Ticket>): (r: seq<Ticket>)
    ensures |r| == |s|
    ensures forall i :: 0 <= i < |s| ==> r[i].id == s[i].id && (s[i].served ==> r[i].served)
  {
    match ServeIndex(s)
    case None => s
    case Some(i) => Serve(s, i)
  }

  /**
   * update_prioridade raises at most one served flag and nothing else: ids,
   * names, classes and order stay, and it is a no-op exactly when every
   * ticket is already served.
   */
  lemma PriorityServedEffect(s: seq<Ticket>)
    ensures |PriorityServed(s)| == |s|
    ensures forall i :: 0 <= i < |s| ==>
      var t, u := s[i], PriorityServed(s)[i];
      u.id == t.id && u.name == t.name && u.kind == t.kind && u.arrivedAt == t.arrivedAt &&
      u.served == (t.served || ServeIndex(s) == Some(i))
    ensures forall i, j :: (0 <= i < |s| && 0 <= j < |s| &&
      PriorityServed(s)[i] != s[i] && PriorityServed(s)[j] != s[j]) ==> i == j
    ensures PriorityServed(s) == s <==> forall i :: 0 <= i < |s| ==> s[i].served
  {
  }

  // ------------------------------------------------------------------ delete

  /** Every ticket's id one lower, all else unchanged. */
  function Lowered(s: seq<Ticket>): seq<Ticket> {
    seq(|s|, i requires 0 <= i < |s| => s[i].(id := s[i].id - 1))
  }

  /** The line without its i-th ticket, every later ticket renumbered one lower (main.py:127-130). */
  function RemovedAt(s: seq<Ticket>, i: nat): seq<Ticket>
    requires i < |s|
  {
    s[..i] + Lowered(s[i + 1..])
  }

  /** Removing index i keeps the tickets in front and lowers the id of each one behind. */
  lemma RemovedAtEffect(s: seq<Ticket>, i: nat)
    requires i < |s|
    ensures var r := RemovedAt(s, i);
      |r| == |s| - 1 && r[..i] == s[..i] &&
      forall j :: i <= j < |r| ==> r[j] == s[j + 1].(id := s[j + 1].id - 1)
  {
    var r := RemovedAt(s, i);
    assert r[..i] == s[..i];
    assert forall j :: i <= j < |r| ==> r[j] == Lowered(s[i + 1..])[j - i];
  }

  /** The line after delete(id), or None when no ticket has that id (delete). */
  function Deleted(s: seq<Ticket>, id: int): (r: Option<seq<Ticket>>)
    ensures r.Some? ==> |r.value| == |s| - 1
  {
    match FirstMatch(s, HasId(id))
    case None => None
    case Some(i) => Some(RemovedAt(s, i))
  }

  /**
   * delete drops the first ticket with the id and renumbers those after it;
   * when no ticket has the id it reports not-found.
   */
  lemma DeletedEffect(s: seq<Ticket>, id: int)
    ensures Deleted(s, id).None? <==> forall i :: 0 <= i < |s| ==> s[i].id != id
    ensures Deleted(s, id).Some? ==>
      var i, r := FirstMatch(s, HasId(id)).value, Deleted(s, id).value;
      |r| == |s| - 1 && r[..i] == s[..i] &&
      forall j :: i <= j < |r| ==> r[j] == s[j + 1].(id := s[j + 1].id - 1)
  {
    if FirstMatch(s, HasId(id)).Some? {
      RemovedAtEffect(s, FirstMatch(s, HasId(id)).value);
    }
  }

  /**
   * `list.remove(cliente)` removes the first ticket EQUAL to the one found;
   * that is the one found, because every ticket in front of it has another id.
   */
  lemma RemoveHitsFoundTicket(s: seq<Ticket>, id: int)
    requires FirstMatch(s, HasId(id)).Some?
    ensures FirstMatch(s, SameAs(s[FirstMatch(s, HasId(id)).value])) == FirstMatch(s, HasId(id))
  {
  }

  /** Deleting id p from a contiguously numbered line removes its p-th ticket and keeps the numbering contiguous. */
  lemma DeleteKeepsContiguous(s: seq<Ticket>, p: int)
    requires Contiguous(s)
    ensures Deleted(s, p).Some? <==> 1 <= p <= |s|
    ensures 1 <= p <= |s| ==> FirstMatch(s, HasId(p)) == Some(p - 1) && Contiguous(Deleted(s, p).value)
  {
    if 1 <= p <= |s| {
      assert s[p - 1].id == p;
      var r := Deleted(s, p).value;
      DeletedEffect(s, p);
      assert forall j :: 0 <= j < p - 1 ==> r[j] == s[j] by {
        assert r[..p - 1] == s[..p - 1];
      }
    }
  }

  // --------------------------------------------------------------- sessions

  /** The two requests that keep the numbering: create and delete. */
  datatype Request = Enroll(name: Name, kind: Kind, now: Timestamp) | Withdraw(id: int)

  /** One request on the line; a request that fails leaves the line as it was. */
  function Step(s: seq<Ticket>, q: Request): seq<Ticket> {
    match q
    case Enroll(name, kind, now) => if |s| == 0 then s else s + [NewTicket(s, name, kind, now)]
    case Withdraw(id) => match Deleted(s, id) case None => s case Some(r) => r
  }

  function Replay(s: seq<Ticket>, qs: seq<Request>): seq<Ticket>
    decreases |qs|
  {
    if |qs| == 0 then s else Replay(Step(s, qs[0]), qs[1..])
  }

  /** Any mix of create and delete requests keeps a contiguously numbered line contiguous. */
  lemma {:induction false} ReplayKeepsContiguous(s: seq<Ticket>, qs: seq<Request>)
    requires Contiguous(s)
    ensures Contiguous(Replay(s, qs))
    decreases |qs|
  {
    if |qs| > 0 {
      match qs[0] {
        case Enroll(name, kind, now) =>
          if |s| > 0 { AppendKeepsContiguous(s, name, kind, now); }
        case Withdraw(id) =>
          DeleteKeepsContiguous(s, id);
      }
      ReplayKeepsContiguous(Step(s, qs[0]), qs[1..]);
    }
  }
}
