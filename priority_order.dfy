/**
 * update_prioridade walks the line through `sorted(db_clientes, key=lambda c:
 * c.tipo_atendimento != 'P')` (main.py:115): a stable sort on a boolean key,
 * False (priority) before True (normal). The sorted list shares its tickets
 * with the line, so the view is modelled as the sequence of line indices in
 * sorted order.
 */
module PriorityOrder {
  import opened Wrappers
  import opened Tickets
  import opened Operations

  /** The sort key, `tipo_atendimento != 'P'`. */
  predicate SortKey(t: Ticket) {
    t.kind != Priority
  }

  /** The indices of the tickets of class `k`, in increasing order. */
  function KindIndices(s: seq<Ticket>, k: Kind): (r: seq<nat>)
    ensures |r| <= |s|
    ensures forall a :: 0 <= a < |r| ==> r[a] < |s| && s[r[a]].kind == k
    ensures forall a, b :: 0 <= a < b < |r| ==> r[a] < r[b]
    ensures forall i {:trigger i in r} :: 0 <= i < |s| && s[i].kind == k ==> i in r
  {
    if |s| == 0 then []
    else
      var p := s[..|s| - 1];
      var q := KindIndices(p, k);
      assert forall a :: 0 <= a < |q| ==> s[q[a]] == p[q[a]];
      assert forall i :: 0 <= i < |p| ==> s[i] == p[i];
      q + (if s[|s| - 1].kind == k then [|s| - 1] else [])
  }

  lemma {:induction false} KindIndicesCount(s: seq<Ticket>)
    ensures |KindIndices(s, Priority)| + |KindIndices(s, Normal)| == |s|
  {
    if |s| > 0 {
      KindIndicesCount(s[..|s| - 1]);
    }
  }

  /**
   * The tickets in the order the source's sorted copy lists them. Its
   * contract is the stable sort: a rearrangement of all indices, priority
   * tickets before normal ones, and line order kept within each class.
   */
  function PriorityView(s: seq<Ticket>): (v: seq<nat>)
    ensures |v| == |s|
    ensures forall a :: 0 <= a < |v| ==> v[a] < |s|
    ensures forall i :: 0 <= i < |s| ==> i in v
    ensures forall a, b :: 0 <= a < b < |v| ==> !SortKey(s[v[a]]) || SortKey(s[v[b]])
    ensures forall a, b :: 0 <= a < b < |v| && SortKey(s[v[a]]) == SortKey(s[v[b]]) ==> v[a] < v[b]
  {
    KindIndicesCount(s);
    var ps, ns := KindIndices(s, Priority), KindIndices(s, Normal);
    assert forall i :: 0 <= i < |s| ==> i in ps + ns by {
      forall i | 0 <= i < |s| ensures i in ps + ns {
        if s[i].kind == Priority { assert i in ps; } else { assert i in ns; }
      }
    }
    ps + ns
  }

  /**
   * Walking the tickets of one class in line order: if the first m are served
   * and the next one is not, that one is the first waiting ticket of the
   * class; if all are served, the class has no waiting ticket.
   */
  lemma FirstWaitingOfKind(s: seq<Ticket>, k: Kind, m: nat)
    requires m <= |KindIndices(s, k)|
    requires forall a :: 0 <= a < m ==> s[KindIndices(s, k)[a]].served
    ensures m < |KindIndices(s, k)| && !s[KindIndices(s, k)[m]].served ==>
      FirstMatch(s, Waiting(k)) == Some(KindIndices(s, k)[m])
    ensures m == |KindIndices(s, k)| ==> FirstMatch(s, Waiting(k)).None?
  {
    var q := KindIndices(s, k);
    if m < |q| && !s[q[m]].served {
      var i := q[m];
      forall j | 0 <= j < i ensures !Matches(s[j], Waiting(k)) {
        if s[j].kind == k {
          assert j in q;
          var a :| 0 <= a < |q| && q[a] == j;
          assert a < m;
        }
      }
      assert Matches(s[i], Waiting(k));
      var r := FirstMatch(s, Waiting(k));
      assert r.Some?;
      assert !(r.value < i);
      assert !(r.value > i);
    }
    if m == |q| {
      forall j | 0 <= j < |s| ensures !Matches(s[j], Waiting(k)) {
        if s[j].kind == k {
          assert j in q;
          var a :| 0 <= a < |q| && q[a] == j;
        }
      }
    }
  }

  /**
   * Walking the view and serving the first unserved ticket met serves the
   * ticket ServeIndex names; when the walk meets none, ServeIndex names none.
   */
  lemma ViewScanAgrees(s: seq<Ticket>, k: nat)
    requires k <= |s|
    requires forall j :: 0 <= j < k ==> s[PriorityView(s)[j]].served
    ensures k < |s| && !s[PriorityView(s)[k]].served ==> ServeIndex(s) == Some(PriorityView(s)[k])
    ensures k == |s| ==> ServeIndex(s) == None
  {
    var v := PriorityView(s);
    var ps, ns := KindIndices(s, Priority), KindIndices(s, Normal);
    KindIndicesCount(s);
    assert v == ps + ns;
    if k < |ps| {
      assert forall a :: 0 <= a <= k ==> ps[a] == v[a];
      FirstWaitingOfKind(s, Priority, k);
    } else {
      assert forall a :: 0 <= a < |ps| ==> ps[a] == v[a];
      FirstWaitingOfKind(s, Priority, |ps|);
      assert forall b :: 0 <= b < k - |ps| ==> ns[b] == v[|ps| + b];
      FirstWaitingOfKind(s, Normal, k - |ps|);
    }
  }
}
