# multi-scrobbler client orchestration, modelled in Dafny

This project models the two routines of multi-scrobbler that drive its
destination clients (scrobblers), and proves what they promise:

- **The client registry** (`ScrobbleClients`, `clients/ScrobbleClients.js`).
  `buildClients` resolves one configuration per supported destination type
  (only `maloja`). It takes an explicit entry of that type first, then the
  `MALOJA_URL`/`MALOJA_API_KEY` environment fallback, then the file
  `maloja.json`. It drops a type whose `url` or `apiKey` is undefined, and
  replaces the client list in one assignment. `scrobble` fans plays out to
  every client in list order. It refreshes a client's history when forced or
  stale. It records and delivers each play that lies in that client's time
  frame and is not already scrobbled. An exception ends only that client's
  turn.
- **The heartbeat task** (`createHeartbeatClientsTask`,
  `src/backend/tasks/heartbeatClients.ts`). For each client in turn it
  either skips the client, or tests auth when the client is not ready but
  may auth, or drains the dead-letter queue and restarts monitoring when it
  has stopped. It then sums the restarts and collects the per-client errors.

Files:

- `common.dfy`: `Option`, `Result` and `Outcome`. An `Err` or `Fail` stands
  for a thrown exception.
- `js_values.dfy`: the JavaScript semantics that configuration entries go
  through. These are `typeof … === 'object'` (true for `null`), property
  reads (which throw on `null` and `undefined`) and
  `Object.values(…).every(x => x === undefined)`.
- `destination.dfy`: the client. The `ClientState` snapshot holds what the
  orchestration observes: `initialized`, `authed`, `scrobbling`,
  `lastCheckedAt`, the dead-letter queue and the recent history, plus
  `reachable` and `authEligible`. `isReady` needs reachability, and
  `canTryAuth` reads the client's own retry bookkeeping. The questions
  `timeFrameIsValid`, `alreadyScrobbled`, `isReady`, `authGated` and
  `canTryAuth` are predicates on that state. The `Client` class has one
  method per operation the orchestration calls. Each method's contract names
  the fields it may change. A ghost `calls` log records which operations
  were invoked, so that "called iff" and "called before" can be stated.
- `registry.dfy`: `buildClients` and `scrobble`. Each is a specification
  function (`Plan`, `ClientTurn`/`Turns`), lemmas about that function, and the
  imperative method proved against it.
- `heartbeat.dfy`: the per-client step (`HeartbeatStep`, and the method
  `HeartbeatClient` proved against it), the sequential tick (`Tick`) and the
  aggregation. The aggregation comes twice: as written (`RestartedAsWritten`)
  and corrected (`Restarted`). The tick's summary carries both: the written
  sum and its log flag, and the corrected restart count.

A destination's own code is not part of this model. What it decides comes
in as parameters:

- its auth gate, its time window and its duplicate test form a `Profile`,
  fixed when the client is built;
- what the network answers (history fetch, delivery, auth test, dead-letter
  redelivery, or an exception from any of them) is an argument of each
  operation. The registry and the heartbeat take these answers per client
  position as `Network` and `HeartbeatNet`.

Reading the config file and the process environment also become arguments:
`file` and `env`. The clock that `scrobble` reads for its default `checkTime`
(`dayjs()`) is the argument `now` of `Scrobble`.

Where the code and its documented intent differ, the model follows the
code:

- An exception while delivering one play ends that client's whole turn:
  its later plays are not tried.
- A skipped heartbeat client yields `undefined`, not 0. The summary carries
  the sum and the log flag as the code computes them, next to the corrected
  restart count (see Findings).
- An explicit config entry that is `null` passes the object check, because
  `typeof null === 'object'`. The later `find` throws on it when it comes
  before every entry of type `maloja`.

## Model

The specification functions the rows below refer to are `Registry.Plan`
(with `ResolveMaloja` and `Validate`) for `buildClients`,
`Registry.ClientTurn` (with `DeliverFrom`) and `Registry.Turns` for
`scrobble`, `Heartbeat.HeartbeatStep` and `Heartbeat.Steps` for the heartbeat
callback, and `Heartbeat.RestartedAsWritten` and `Heartbeat.Restarted` for its
`reduce`.

| member | source | states |
|---|---|---|
| `JsValues.Prop` | clients/ScrobbleClients.js:40-43 | Destructuring a config throws exactly when the config is `null` or `undefined`. A key present on an object yields its own value, and a missing key or any key of a primitive yields `undefined`. |
| `Registry.FindType` | clients/ScrobbleClients.js:26 | `find` returns an entry of the list whose `type` is the string `maloja`. It returns none only when every entry has a readable `type` that is not `maloja`. It throws only if the list holds a `null`/`undefined` entry. |
| `Registry.FindTypeFirst` | clients/ScrobbleClients.js:26 | `find` returns the first entry whose `type` is `maloja` when every entry before it has a readable `type`. |
| `Registry.FindTypeThrows` | clients/ScrobbleClients.js:26 | `find` throws exactly when a `null` or `undefined` entry comes before every entry of type `maloja`. |
| `Registry.NonObjectEntryRejected` | clients/ScrobbleClients.js:17-19 | If any entry is not `typeof 'object'`, the build fails with the validation message. |
| `Registry.ExplicitEntryWins` | clients/ScrobbleClients.js:26-29 | An explicit `maloja` entry decides the outcome whatever the environment and the file hold. The client is built from that entry exactly when the entry has a `url` and an `apiKey`. |
| `Registry.FileOnlyWhenUnset` | clients/ScrobbleClients.js:31-38 | The file's content cannot change the outcome unless there is no explicit entry and neither environment variable is set. In that case a failed read builds no client. |
| `Registry.Validate` | clients/ScrobbleClients.js:40-52 | Checking a resolved config throws exactly when it is `null` or `undefined`. It keeps the config, to build one client from, exactly when `url` and `apiKey` are both defined, and otherwise skips the type. |
| `Registry.EnvConfigUsed` | clients/ScrobbleClients.js:26-53 | Without an explicit entry but with either environment variable set, a client is built from `{url, apiKey}` of the environment exactly when both are set. |
| `Registry.FileConfigUsed` | clients/ScrobbleClients.js:31-53 | Without an explicit entry and with neither environment variable set, a file that was read is checked like any other config, so it builds a client exactly when it has `url` and `apiKey`. |
| `Registry.PlanIsResolved` | clients/ScrobbleClients.js:15-59 | When every entry is an object, the build yields exactly the one resolved Maloja config, nothing when that type is skipped, or the exception thrown while resolving it. |
| `Registry.ResolveConfig` | clients/ScrobbleClients.js:25-52 | The `maloja` case of the build loop, step by step, yields the specification `ResolveMaloja`: the resolved config, a skip, or the exception. |
| `Registry.PlanTypes` | clients/ScrobbleClients.js:20-58 | The loop over types builds at most one client per type. |
| `Registry.PlannedClientsComplete` | clients/ScrobbleClients.js:45-53 | A successful build has at most one client (one per supported type), and every config it builds from has a defined `url` and `apiKey`. |
| `Registry.NothingConfiguredBuildsNothing` | clients/ScrobbleClients.js:15-59 | Entries none of which is of type `maloja`, plus no environment variables and no readable file, give a successful build with an empty list. |
| `Registry.ScrobbleClients.constructor` | clients/ScrobbleClients.js:10-13 | The registry starts with the given list. |
| `Registry.ScrobbleClients.BuildClients` | clients/ScrobbleClients.js:15-60 | The build fails exactly when the specification `Plan` throws, and then leaves `clients` unchanged. Otherwise `clients` is replaced by fresh, distinct clients built from exactly the configs of `Plan`, in order, each in its initial state. |
| `Destination.Client.constructor` | clients/ScrobbleClients.js:53 | A new client keeps its config. It is not initialized, authed, reachable or scrobbling, and its dead-letter queue and history are empty. |
| `Destination.Client.RefreshScrobbles` | clients/ScrobbleClients.js:73-75 | It changes only the history and its check time, and only when the fetch succeeds. It fails exactly when the fetch throws. |
| `Destination.Client.Scrobble` | clients/ScrobbleClients.js:79 | It logs one delivery call. A rejected play is appended to the dead-letter queue, and nothing else changes. It fails exactly when the delivery throws. |
| `Registry.EligiblePlaysSound` | clients/ScrobbleClients.js:77 | The filtered plays are exactly the input plays that are in the time frame and not already scrobbled. |
| `Registry.DeliverFromSpec` | clients/ScrobbleClients.js:76-81 | The play loop records a prefix of the eligible plays, in input order, and all of them when nothing throws. |
| `Registry.DeliverFromEffects` | clients/ScrobbleClients.js:76-81 | The loop delivers exactly the recorded plays, one call each, in order. It only appends to the dead-letter queue and changes nothing else in the client. |
| `Registry.ThrowingPlayRecorded` | clients/ScrobbleClients.js:78-79 | When the play loop ended in an exception, the last recorded play is one whose delivery threw, because a play is recorded before it is delivered. |
| `Registry.DeliverFromThrows` | clients/ScrobbleClients.js:76-82 | The play loop ends in an exception exactly when some eligible play's delivery throws. |
| `Registry.DeliveryThrowEndsTurn` | clients/ScrobbleClients.js:76-82 | The first eligible play whose delivery throws ends the loop. The plays recorded are exactly the eligible plays up to and including it, and none after it is tried. |
| `Registry.EligibleAgain` | clients/ScrobbleClients.js:76-81 | Queuing dead letters during the loop does not change which plays are eligible. |
| `Registry.ClientTurnRefresh` | clients/ScrobbleClients.js:72-82 | A client's history is refreshed exactly when `forceRefresh` holds or `lastCheckedAt < checkTime`, and then that refresh is the first call. A refresh that throws ends the turn with no play recorded and no other call. |
| `Registry.ClientTurnPlays` | clients/ScrobbleClients.js:76-81 | Every recorded play is in the input, in the time frame, and not in the history in effect after the refresh. Without an exception, the recorded plays are exactly the eligible ones. |
| `Registry.TurnAttemptsBounded` | clients/ScrobbleClients.js:76-80 | One client records at most one attempt per input play. |
| `Registry.ClientTurnThrows` | clients/ScrobbleClients.js:72-86 | A client's turn ends in an exception exactly when its refresh throws or an eligible play's delivery throws. The `catch` absorbs it. |
| `Registry.AttemptsBounded` | clients/ScrobbleClients.js:69-87 | The plays one call returns number at most (clients × plays). |
| `Registry.ServeClient` | clients/ScrobbleClients.js:72-86 | One client's `try` block produces exactly that client's `ClientTurn`: the plays it records, its new state and the calls made on it. An exception is absorbed. |
| `Registry.ScrobbleClients.Scrobble` | clients/ScrobbleClients.js:62-88 | A single play is treated as a one-element list. The result is the concatenation, over clients in list order, of each client's own turn, and duplicates across clients are kept. Each client ends in the state of its own turn, whatever the other clients threw. Nothing propagates. |
| `Destination.Remaining` | src/backend/tasks/heartbeatClients.ts:30 | After redelivery, the queue holds exactly the entries the destination still refuses, and never more entries than before. |
| `Destination.RemainingKeepsOrder` | src/backend/tasks/heartbeatClients.ts:30 | Draining keeps FIFO order: the survivors of front + back are the survivors of front followed by the survivors of back. |
| `Destination.RemainingIdempotent` | src/backend/tasks/heartbeatClients.ts:30 | With each play's acceptance a fixed answer, as the drain is modelled here, a second drain changes nothing. This is a property of that abstraction; the drain's internals are not part of this model. |
| `Destination.Client.TestAuth` | src/backend/tasks/heartbeatClients.ts:22-23 | It changes only `authed` and reachability, to the auth test's answer, and fails exactly when the test throws. |
| `Destination.Client.ProcessDeadLetterQueue` | src/backend/tasks/heartbeatClients.ts:30 | It changes only the dead-letter queue, to `Remaining`, and fails exactly when the drain throws. |
| `Destination.Client.InitScrobbleMonitoring` | src/backend/tasks/heartbeatClients.ts:31-34 | It sets `scrobbling` and changes nothing else. |
| `Heartbeat.StepGates` | src/backend/tasks/heartbeatClients.ts:17-28 | A client that is neither ready nor `canAuth` gets no call and yields `undefined`, and only such a client does. `testAuth` is called iff the client is not ready and `canAuth` holds, and then it is the first call. A `testAuth` that throws settles the client with that error, and nothing else is called. A client still not authed or not ready afterwards yields 0 with no other call. The step settles with an error exactly when `testAuth` throws or, past the checks, the drain throws. |
| `Heartbeat.StepDrainAndRestart` | src/backend/tasks/heartbeatClients.ts:30-36 | The queue is drained iff the client passes the checks, exactly once, and before any restart. Monitoring restarts iff the client passes the checks, the drain did not throw and `scrobbling` was false. The step yields 1 exactly then, and never more than 1. |
| `Heartbeat.StepDrainOutcome` | src/backend/tasks/heartbeatClients.ts:30-36 | Past the checks, a client whose monitoring is running yields 0 without a restart. A drain that throws settles the client with that error and restarts nothing. |
| `Heartbeat.HeartbeatClient` | src/backend/tasks/heartbeatClients.ts:16-37 | The callback's result, the client's new state and the calls made on it are those of `HeartbeatStep`. |
| `Heartbeat.TickTotals` | src/backend/tasks/heartbeatClients.ts:38-43 | Every client settles exactly once, with a result or an error. The restart total (with `undefined` read as 0) equals the number of clients restarted, and so never exceeds the number of clients. |
| `Heartbeat.AsWrittenMatchesUnlessSkipped` | src/backend/tasks/heartbeatClients.ts:40 | The written `reduce` equals the corrected sum iff no result is `undefined`, and is NaN iff some result is. |
| `Heartbeat.SkippedClientHidesRestart` | src/backend/tasks/heartbeatClients.ts:19-42 | Take one skipped client and one stopped ready client. As written, the sum is NaN and the summary does not log the restart message, although one client was restarted. |
| `Heartbeat.Summarize` | src/backend/tasks/heartbeatClients.ts:38-42 | The callback logs the restart message iff the written sum is positive. It never logs without a restart, and it logs whenever a client was restarted and none was skipped. |
| `Heartbeat.Tick` | src/backend/tasks/heartbeatClients.ts:13-50 | The clients are processed one at a time in list order, and each ends in the state of its own step. An error is collected, and the remaining clients still run. The summary reports the client count, the restart count, the sum `reduce` computes as written, the log flag as written, and the errors in order. |

## Left out

- Reading `maloja.json` and `process.env`: these are the parameters `file`
  and `env`. The file's path is not modelled. The clock read by `scrobble`'s
  default `checkTime` is the parameter `now` of `Scrobble`.
- Destination.Client.constructor: the `MalojaScrobbler` constructor is not
  part of this model. The starting state is assumed: not initialized,
  authed, reachable or scrobbling, with an empty queue and history, and a
  first check time `lastCheckedAt` equal to the `now` argument of
  `BuildClients`. `buildClients` itself reads no clock.
- `PromisePool`, `AsyncTask` and the scheduler: the pool of concurrency one
  is a sequential loop. The task's own error callback
  (heartbeatClients.ts:52-54) is not modelled.
- Logging: only the restart message flag and the collected errors are kept
  (in `Summary`). The other log lines have no effect.
- `MalojaScrobbler` internals. Its time window, duplicate test and auth gate
  are the client's `Profile`. Its network answers are oracle parameters. An
  exception inside `new MalojaScrobbler(config)` is not modelled. The client
  name is taken to be its type.
- Destination.Client.Scrobble: it does not add a delivered play to the
  recent history. `alreadyScrobbled` therefore sees the history as refreshed
  at the start of that client's turn, so a play listed twice is delivered
  twice.
- Destination.Client.RefreshScrobbles, Destination.Client.Scrobble,
  Destination.Client.TestAuth and Destination.Client.ProcessDeadLetterQueue:
  an operation that throws is
  taken to leave the client's state unchanged. Partial effects before the
  exception are not modelled.
- Destination.Client.InitScrobbleMonitoring: in the source this call is not
  awaited. The model sets `scrobbling` at once. A monitoring loop that
  fails later is not modelled; the step yields 1 either way, as in the
  source.
- `isReady` is awaited in the source and could do work. Here it is a
  predicate on the client's state. Client initialization (`initialize`) is
  outside both routines: no modelled operation sets `initialized`.
- Registry.ScrobbleClients.constructor: it requires a list without the same
  client twice. An aliased list, which the source accepts, is not modelled.
- `buildClients` called with `clientConfigs = null` (which throws at
  `every`) is not modelled: the argument is a sequence. `forceRefresh` is a
  boolean, not an arbitrary truthy value. Times are whole unix seconds, as
  `.unix()` returns them.
- `src/backend/common/vendor/maloja/interfaces.ts` has no behaviour. Its
  request and response shapes (and the request/response codec that would
  use them) are not part of this model. The `Play` record borrows its
  fields.
- The status card UI and the Plex routes are not part of this model.

## Findings

| source | as written | input that shows it | evidently intended | confidence | as-written member | corrected member |
|---|---|---|---|---|---|---|
| src/backend/tasks/heartbeatClients.ts:19-42 | A client that is neither ready nor allowed to auth falls off the end of the callback, so its result is `undefined`. `results.reduce((acc, curr) => acc += curr, 0)` then gives `0 + undefined = NaN`. `NaN > 0` is false, so the restart message is suppressed for the whole tick. | Two clients: the first not initialized (skipped), the second ready with monitoring stopped. The second is restarted, but the sum is NaN and nothing is logged (`SkippedClientHidesRestart`). | A skipped client contributes 0. The total is the number of clients restarted, and the message is logged iff it is positive (`TickTotals`). | high (not executed) | `Heartbeat.RestartedAsWritten` | `Heartbeat.Restarted` |
