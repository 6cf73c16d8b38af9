# Waiting line for a walk-in service counter

A model of the queue engine of a small FastAPI service (`main.py`): one
in-memory line of customer tickets (`db_clientes`), each with an integer `id`
that serves both as the displayed position and as the lookup key, a name, a
class (normal `N` or priority `P`), an arrival time and a served flag. The
handlers list the waiting customers, look one up by id, append a customer,
insert a priority customer ahead of the normal ones, tick every id down by one
(serving the ticket that reaches 0), serve the next customer by priority, and
delete a customer while renumbering those behind.

Layout:

- `wrappers.dfy` — `Option`.
- `tickets.dfy` (module `Tickets`) — `Ticket`, `Kind`, `Entry` (the rendered
  record), names limited to 20 characters, and `FirstMatch`, the front-to-back
  search used by lookup, priority insert, priority serve and delete.
- `operations.dfy` (module `Operations`) — each handler's effect as a function
  of the old line (`Active`, `Lookup`, `NewTicket`, `PriorityEnqueued`,
  `TickDown`, `PriorityServed`, `Deleted`) and the lemmas about them.
- `priority_order.dfy` (module `PriorityOrder`) — the stably sorted view that
  `update_prioridade` walks, as a sequence of line indices, and the proof that
  walking it serves the first waiting priority ticket, else the first waiting
  normal one.
- `fila.dfy` (module `Fila`) — class `WaitingLine` with field `tickets`, one
  method per handler, each mirroring the handler's body and proved to leave
  exactly the line the matching function describes.
- `scenarios.dfy` (module `Scenarios`) — small concrete lines and a session on
  the start-up data.

The model follows the code, including where its behaviour is easy to misread:

- `update` lowers every id on every call, so a line whose tickets are all
  served still changes (`TickDownMovesServedLine`); it is not a no-op.
- `get_by_id` does not skip served tickets; the first ticket with the id is
  returned whether served or not.
- `create` numbers the new ticket "last id + 1", which is "length + 1" only
  while the line is contiguously numbered.
- On an empty line `create` and `create_prioridade` fail with an IndexError
  and change nothing; this is the `NoLastTicket` status.
- With no normal ticket in the line, a priority ticket goes to index 0, ahead
  of the priority tickets already waiting (the `for`-`else` of main.py:92-97).

## Model

| member | source | states |
|---|---|---|
| Tickets.FirstMatch | main.py:59-60 | the index found is the first ticket meeting the condition; none is found exactly when no ticket meets it |
| Operations.Active | main.py:51-53 | the listing of a line has at most one entry per ticket; what it holds and in what order is stated by the three lemmas below |
| Operations.ActiveConcat | main.py:51-53 | listing keeps line order: the listing of two consecutive parts is the first part's listing followed by the second's |
| Operations.ActiveMembers | main.py:51-53 | an entry is listed exactly when some unserved ticket renders to it (position = id, name, arrival time) |
| Operations.ActiveEmpty | main.py:49-54 | the listing is empty exactly when every ticket is served, in particular on an empty line |
| Operations.Lookup | main.py:58-65 | finds the entry of the first ticket holding the id, served or not; not found exactly when no ticket holds it |
| Operations.LookupContiguous | main.py:58-65 | on a line numbered 1..n, id p is found exactly for 1 <= p <= n, and it is the p-th ticket |
| Operations.AppendKeepsContiguous | main.py:76-77 | appending with id last + 1 keeps a line numbered 1..n numbered 1..n+1 |
| Operations.InsertionPoint | main.py:91-97 | a priority ticket goes just before the first normal ticket (all tickets in front are priority), or to index 0 when there is no normal ticket |
| Operations.PriorityEnqueued | main.py:91-99 | the line after create_prioridade is one ticket longer and holds the new ticket; where it goes is stated by InsertionPoint and PriorityEnqueuedShape |
| Operations.PriorityEnqueuedShape | main.py:89-99 | create_prioridade splices the new ticket in at one index: the line grows by one, tickets before keep their place, tickets after shift by one, removing the new ticket gives back the old line, and the tickets are the old ones plus the new one |
| Operations.PriorityEnqueuedNormal | main.py:98-99 | a normal ticket through create_prioridade is appended, as by create |
| Operations.PriorityInsertBreaksNumbering | main.py:89-97 | a priority ticket spliced into a line numbered 1..n keeps id n + 1, so the line is no longer numbered by position |
| Operations.TickDown | main.py:105-108 | update keeps the line's length and never clears a served flag |
| Operations.TickDownEffect | main.py:105-108 | update lowers every id by exactly one, serves the ticket whose id reaches 0, never clears a flag, and keeps length, order, names, classes and times |
| Operations.TicksEffect | main.py:104-109 | after n updates every id is n lower and a ticket is served exactly when it was already or its id was in 1..n |
| Operations.TickDownServesFront | main.py:105-108 | on a waiting line numbered 1..n, one update renumbers it 0..n-1 and serves only the front ticket |
| Operations.TickDownMovesServedLine | main.py:105-106 | update changes every non-empty line, even one whose tickets are all served |
| Operations.ServeIndex | main.py:115-119 | the ticket served is unserved; it is the first waiting priority ticket, or, when no priority ticket waits, the first waiting ticket at all; there is none exactly when all are served |
| Operations.PriorityServed | main.py:115-119 | update_prioridade keeps the line's length and every id, and never clears a served flag |
| Operations.PriorityServedEffect | main.py:115-119 | update_prioridade raises at most one served flag, changes no id, name, class, time or order, and is a no-op exactly when every ticket is served |
| Operations.Deleted | main.py:125-130 | a successful delete leaves a line one ticket shorter |
| Operations.DeletedEffect | main.py:124-132 | delete reports not-found exactly when no ticket holds the id; otherwise it removes the first such ticket, keeps those in front, and lowers by one the id of each ticket behind, in the same order |
| Operations.RemoveHitsFoundTicket | main.py:125-127 | `list.remove` of the ticket found removes that very index, since every ticket in front of it has another id |
| Operations.DeleteKeepsContiguous | main.py:124-130 | on a line numbered 1..n, delete of p succeeds exactly for 1 <= p <= n, removes the p-th ticket and leaves the line numbered 1..n-1 |
| Operations.ReplayKeepsContiguous | main.py:69-132 | any sequence of create and delete requests keeps a line numbered 1..n contiguously numbered |
| PriorityOrder.PriorityView | main.py:115 | the sorted view is the stable sort by `kind != P`: every ticket exactly once, priority before normal, line order kept within a class |
| PriorityOrder.ViewScanAgrees | main.py:115-119 | walking the sorted view and serving the first unserved ticket serves the ticket ServeIndex names, and serves none when ServeIndex names none |
| Fila.WaitingLine.constructor | main.py:39 | the line holds the given tickets |
| Fila.WaitingLine.Seeded | main.py:39-43 | the start-up line is Maria, José, Pedro, normal and waiting, numbered 1..3 |
| Fila.WaitingLine.GetAll | main.py:47-54 | returns the listing of the line and leaves the line unchanged |
| Fila.WaitingLine.GetById | main.py:58-65 | returns the lookup of the id and leaves the line unchanged |
| Fila.WaitingLine.Create | main.py:69-78 | on an empty line fails and changes nothing; otherwise appends exactly one waiting ticket with id last + 1 |
| Fila.WaitingLine.CreatePriority | main.py:82-100 | on an empty line fails and changes nothing; otherwise leaves the line with the new ticket spliced in by class, id last + 1 |
| Fila.WaitingLine.Update | main.py:104-109 | leaves the line ticked down |
| Fila.WaitingLine.UpdatePriority | main.py:113-120 | leaves the line with exactly the ticket ServeIndex names served |
| Fila.WaitingLine.Delete | main.py:124-132 | reports not-found and changes nothing when no ticket holds the id; otherwise leaves the line with the first such ticket removed and those behind renumbered |
| Scenarios.PriorityInsertExamples | main.py:91-97 | [N1, N2] becomes [P, N1, N2]; [P1, N1] becomes [P1, P, N1]; [P1, P2] becomes [P, P1, P2] |
| Scenarios.TickDownExample | main.py:105-108 | ids 1, 2, 3 become 0, 1, 2 with only the first served |
| Scenarios.PriorityServeExample | main.py:115-119 | [P(1), N(2)] serves only the priority ticket and keeps ids 1 and 2 |
| Scenarios.DeleteExample | main.py:124-132 | deleting id 2 of 1..4 leaves 1..3 in the old order; deleting an absent id is not-found |

## Left out

- The FastAPI application, routes and the `{"info"/"mensagem", "status"}` response dictionaries: only the outcome (done, not found, failure on an empty line) is modelled, as `Fila.Status` or `Option`.
- Request validation by pydantic: it is stood for by the types — names are `Tickets.Name` (at most 20 characters) and the class is the two-valued `Tickets.Kind`.
- `datetime.now()`: the arrival time is a parameter of the enqueue methods and of the start-up constructor.
- `ClienteResponse` is the value `Tickets.Entry`.
- The tickets are Python objects that the handlers update in place, and `sorted` returns a new list sharing them; here tickets are values that the methods replace inside the `tickets` sequence, and the sorted list is a sequence of indices into the line. No reference to a ticket escapes the list in the source, so nothing observable is lost.
- Integer ids are unbounded, as Python's `int` is; nothing wraps.
- Concurrency: the source has none and assumes one caller at a time.
