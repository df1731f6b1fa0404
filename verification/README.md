# Transaction event reconciler

A Dafny model of the client-side reducer of a transaction-learning
dashboard. The backend runs SQL transactions under a chosen isolation level
and streams one `TransactionLog` event per lifecycle moment (transaction
started, query executed, transaction committed, transaction rolled back).
The frontend folds every event it receives into two pieces of state:

- a flat, append-only log of every event received;
- a registry (a JavaScript `Map` from transaction id to `TransactionState`)
  holding, per transaction, its status (`active`, `committed` or
  `rollbacked`), its isolation level and its own events.

It also decides, per event, whether the cached user table must be
refetched (a `query_executed` event whose query contains `UPDATE`). A clear
action empties the log and the registry together.

Modules, leaves first:

- `Wrappers` (`wrappers.dfy`): `Option`, for the optional fields of an event.
- `Text` (`text.dfy`): case-sensitive substring search (`String.prototype.includes`).
- `Events` (`events.dfy`): the event datatype, the classification of its
  `type` string, and filtering a stream by transaction id.
- `Registry` (`registry.dfy`): transaction states, the `Map` with its key
  insertion order, and `Apply`, the registry half of the reducer.
- `Reconciler` (`reconciler.dfy`): `Step` (one event: log, registry, refresh
  signal), `Clear`, `Run` (the fold over a stream), and the lemmas about the fold.
- `Scenarios` (`scenarios.dfy`): concrete streams worked through the model.

An idealised reconciler would ignore a second `transaction_started` event
for a known id (first writer wins) and would freeze `committed` and
`rollbacked` as final statuses. This code does neither: a second start
replaces the entry, and every commit or rollback sets the status whatever it
was before. The model follows the code; `Reconciler.RestartReplaces`,
`Reconciler.TerminalNotFrozen` and `Scenarios.RollbackThenCommit` state this
behaviour.

The code mutates the stored entry in place (`existing.logs.push`, assignment
to `existing.status`); the model produces a new registry value per event
instead, which is the same observable result for a reducer applied once per
event.

## Model

| member | source | states |
|---|---|---|
| `Text.Includes` | frontend/src/App.tsx:118 | `includes` is true exactly when the needle occurs at some position of the query text |
| `Events.Classify` | frontend/src/App.tsx:94-118 | the `type` string is classified as one of the four recognised kinds or `Other`, and the original string is recoverable from the kind |
| `Events.NameThenClassify` | frontend/src/App.tsx:94-110 | each recognised kind is the classification of exactly its own `type` string |
| `Registry.GetListed` | frontend/src/App.tsx:102 | `Map.get` finds an entry exactly for the ids in the live list, and the entry it finds is one of the listed states |
| `Registry.Set` | frontend/src/App.tsx:95-100 | `Map.set` stores the entry, leaves other keys alone, and a known key keeps its insertion position |
| `Registry.Apply` | frontend/src/App.tsx:91-115 | a start founds `{id, active, isolation level or "", [event]}` replacing any entry; another event for a known id is appended to its logs, a commit or rollback sets the status whatever it was, other kinds keep status and level; another event for an unknown id changes nothing; entries of other ids are untouched; only a start for a new id adds a key, at the end; the registry invariant is kept |
| `Registry.ListAll` | frontend/src/App.tsx:229 | the live list holds the entries in key insertion order, one per key |
| `Reconciler.RefreshRequested` | frontend/src/App.tsx:118-119 | the refresh signal is raised iff the type string is `query_executed`, a query is present, and it contains `UPDATE` |
| `Reconciler.Step` | frontend/src/App.tsx:88-121 | every event is appended to the end of the flat log, earlier entries unchanged; the registry is updated by `Apply`; the refresh signal is that of the event |
| `Reconciler.Clear` | frontend/src/App.tsx:155-158 | clearing empties the flat log and the registry in the same operation |
| `Reconciler.Run` | frontend/src/App.tsx:50-53 | after a stream of events the flat log is the previous log followed by exactly those events, and the registry invariant still holds |
| `Reconciler.Signals` | frontend/src/App.tsx:117-120 | one refresh decision per event received, each that of its event |
| `Reconciler.SignalsAreSteps` | frontend/src/App.tsx:117-120 | the refresh decision for the `n`-th event is the flag raised by the reducer step that receives it after the events before it |
| `Reconciler.RunRegistered` | frontend/src/App.tsx:94-103 | after a stream, an id is registered iff it was before or some event of the stream started it |
| `Reconciler.RunOtherIds` | frontend/src/App.tsx:91-114 | events for other ids never change the entry of an id |
| `Reconciler.RunEntry` | frontend/src/App.tsx:94-104 | after a stream, an entry carries the isolation level of its most recent start, and its logs are exactly its events from that start on |
| `Reconciler.RunStatus` | frontend/src/App.tsx:94-110 | after a stream, the status is `active` iff no commit or rollback follows the most recent start, and otherwise that of the last commit or rollback |
| `Reconciler.RunListed` | frontend/src/App.tsx:229 | from startup or a clear, the live list holds exactly the ids some event started, each once |
| `Reconciler.RunOrder` | frontend/src/App.tsx:95 | from startup or a clear, the live list is ordered by first start; restarting an id does not move it |
| `Reconciler.UnknownIdIgnored` | frontend/src/App.tsx:101-103 | a non-start event for an unregistered id leaves the registry unchanged and only grows the flat log |
| `Reconciler.RestartReplaces` | frontend/src/App.tsx:94-100 | a second start for a known id replaces its entry and keeps its list position |
| `Reconciler.TerminalNotFrozen` | frontend/src/App.tsx:106-110 | a commit or rollback sets the status regardless of the previous status |
| `Reconciler.ReplayTerminal` | frontend/src/App.tsx:104-110 | replaying the same commit or rollback leaves the status as the first copy set it, and both logs grow by one per copy |
| `Scenarios.CommittedUpdate` | frontend/src/App.tsx:88-121 | start, UPDATE query, commit: one committed entry holding the three events, the three events in the flat log, one refresh signal raised by the query |
| `Scenarios.DuplicateCommit` | frontend/src/App.tsx:102-110 | start and two identical commits: status committed, all three events kept |
| `Scenarios.OrphanQuery` | frontend/src/App.tsx:101-103 | a lone query for an unstarted id: one flat log entry, empty live list |
| `Scenarios.RollbackThenCommit` | frontend/src/App.tsx:106-110 | a commit after a rollback leaves the transaction committed |

## Left out

- WebSocket lifecycle (open, close, cleanup) and `JSON.parse` of each message: transport I/O; events are taken as already decoded and well typed (a message lacking `id` or `type` is not modelled).
- HTTP calls `fetchUsers`, `fetchIsolationLevel`, `executeDirtyRead`, `changeIsolationLevel`: network calls whose results never reach the reducer.
- The 100 ms `setTimeout` before refetching users: only the boolean "refresh requested" is modelled, not the timing or the fetch.
- Rendering, date and number formatting, and the floating-point user balance: presentation only.
- The backend (`backend/main.go`): a database, an HTTP framework and goroutine hubs; it only produces the events taken here as input.
- `timestamp`, `lock_info.row_id` (JavaScript numbers) are modelled as integers, and `result` (any JSON value) as its serialised text; the reducer only carries them along.
- React's double invocation of state updaters in development strict mode, under which the in-place `push` could append an event twice, is not modelled; the entry point that would enable it is not part of this model.
- Ids, type strings and queries are Dafny strings (sequences of Unicode scalar values), while JavaScript strings are UTF-16 code units, so the lone surrogates `JSON.parse` can produce are not representable; for well-formed text this changes neither `===` nor `includes('UPDATE')`.
