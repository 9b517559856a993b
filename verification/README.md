# homebridge-http-garage-doors: the simulated door, in Dafny

The accessory `HttpGarageDoorsAccessory` shows a garage door to HomeKit. It
cannot sense the door. Writing OPEN to the target state sets the current
state to OPENING, sends one configured HTTP request and, once the request
resolves, reports OPEN. It then arms two timers. After `simulateTimeOpen`
seconds the first one reports CLOSING. After `simulateTimeOpen +
simulateTimeClosing` seconds the second one reports CLOSED. Opening again
cancels the pending pair and arms a fresh one. Before the request is sent,
an object-typed body is replaced by its JSON text. At the same step a
`Content-Type: application/json` entry is merged into the request's
`headers`.

The model has four modules:

- `GarageDoor` (door.dfy) holds the state machine as values.
  - A `Door` holds the accessory's fields `targetDoorState`,
    `currentDoorState`, `closingTimer` and `closedTimer`. It also holds the
    runtime state those fields depend on: the pending timers (handle,
    deadline in ms, callback) in creation order, the next fresh handle, a
    logical clock in ms, and the number of `open()` calls suspended at
    their `await`.
  - `open()` is split at its `await`. `SetTarget` runs the part before the
    network call; `FinishOpen(ok)` runs the part after the request settles.
  - `Fire` runs the next due timer and `Advance` lets time pass, so a stale
    timer can run while a request is outstanding.
  - `Valid` is the invariant of every reachable state. The pending timers
    are always a suffix of the last armed pair: none, the closed timer
    alone, or closing then closed with deadlines in that order. Each pending
    timer is held in its handle field, and OPEN, CLOSING and CLOSED are
    each backed by the timers that continue the cycle.
- `Accessory` (accessory.dfy) is the class `HttpGarageDoorsAccessory`. It has
  the same fields, the two `get` handlers, the `set` handler, the two halves
  of `open()`, `setTimeout`/`clearTimeout` and the two callbacks. Each
  method's result is tied to the matching `GarageDoor` function.
- `Requests` (requests.dfy) holds `fetchRequest`'s in-place normalisation of
  the shared request object, as the method `FetchRequest` and the function
  `Normalize`.
- `Json` (json.dfy) holds JSON values, with a compact serialiser standing in
  for `JSON.stringify`. `Wrappers` (wrappers.dfy) holds `Option`.

Behaviours of the code that the model keeps on purpose:

- A rejected request ends `open()` after OPENING. Earlier timers are
  neither cleared nor re-armed, and the host's `set` callback is never
  called. If no timer of an earlier cycle is pending and no other open is
  still awaiting its request, the door shows OPENING until the next open
  (`StuckOpening`). An open still awaiting its request can resolve and
  report OPEN. If timers of an earlier
  cycle are still pending, they still run and move the door on to CLOSING
  and CLOSED. They can also replace OPENING before the request settles.
- No event sets the target back to CLOSED.
- There is no obstruction flag.
- The request object is rewritten in place, so the rewrite persists into
  later opens. Normalising twice gives the same result as normalising once.
- `Content-Type` is merged into `request.headers`. `fetch` receives only
  `request.options`, whose `headers` are never touched, so the merged entry
  is not part of what is sent (`SentOptionsKeepConfiguredHeaders`).
- A `null` body has `typeof` `'object'`, so it is serialised to `"null"`
  too.

## Model

| member | source | states |
|---|---|---|
| `Json.Stringify` | index.js:101 | Stands in for `JSON.stringify`: non-empty text that starts with `"` for a string, `[` for an array and `{` for an object. Where it differs from `JSON.stringify` is listed under "Left out" below. |
| `Requests.HasObjectBody` | index.js:100 | The `typeof request.options?.body === 'object'` test. It is false when options or body is undefined and when the body is a string. It is true for a `null` body. |
| `Requests.Normalize` | index.js:99-103 | An object-typed body (null, array or object) becomes its JSON text, and Content-Type: application/json is added to the request headers while every other entry is kept. Afterwards no body is object-typed. A string, primitive or absent body leaves the request unchanged. The url and the options' method and headers are never touched. |
| `Requests.NormalizeIdempotent` | index.js:100-103 | Normalising twice equals normalising once. |
| `Requests.SentOptionsKeepConfiguredHeaders` | index.js:100-104 | The fetch call carries the url and options only. Its option headers are the configured ones, so the merged Content-Type is not among them. |
| `Requests.FetchRequest` | index.js:99-105 | Rewrites the shared request in place to its normalised value and returns the fetch call, which is (url, options) of the rewritten request. That call carries the old url, and options exactly when the request had them, with the configured option headers. The headers merged into `request.headers` are not sent. |
| `GarageDoor.Init` | index.js:48-52 | After construction, target and current are CLOSED, no handle is set, no timer is pending, no request is outstanding, and the invariant holds. |
| `GarageDoor.ClearTimeout` | index.js:87-88 | clearTimeout removes exactly the pending timers with that handle. It returns the queue unchanged on undefined, and on a handle that is no longer pending. |
| `GarageDoor.ClearTimeoutKeepsOrder` | index.js:87-88 | Cancelling keeps creation order. Clearing a handle from two runs of timers joined together is the same as clearing it from each run in place. |
| `GarageDoor.SetTarget` | index.js:72-79 | The `set` handler keeps the invariant. Afterwards the target is OPEN exactly when it already was or OPEN was written. The handler never touches timers or handles. Its other effects are stated by `SetTargetOtherIsNoOp` and `SetTargetOpenStartsOpening`. |
| `GarageDoor.BeginOpen` | index.js:83 | Sets current to OPENING and counts one more outstanding request. Target, timers and handles are unchanged. With the target OPEN, the invariant is kept whatever timers are pending. |
| `GarageDoor.FinishOpen` | index.js:84-96 | Keeps the invariant and the target, and ends one outstanding request. A resolved request gives OPEN. A rejected one leaves current and timers as they were. The full result is stated by `FinishOpenRearms` and `FinishOpenRejectedKeepsState`. |
| `GarageDoor.Fire` | index.js:90-96 | The runtime runs one pending timer. It keeps the invariant and removes one timer from the queue. The callback sets current to CLOSING or CLOSED only, leaving target, handles, outstanding requests and handle counter unchanged. Which timer runs is stated by `FireRunsFirstTimer`. |
| `GarageDoor.Advance` | index.js:90-96 | Time passes while no timer is due. Only the clock moves: the result equals the old state apart from `now`. The invariant is kept. |
| `GarageDoor.NextDue` | index.js:90-96 | The runtime runs the pending timer with the earliest deadline; among equal deadlines it runs the one created first. |
| `GarageDoor.SetTargetOtherIsNoOp` | index.js:72-79 | Setting the target to anything but OPEN changes nothing. |
| `GarageDoor.SetTargetOpenStartsOpening` | index.js:73-83 | Setting the target to OPEN gives target OPEN and current OPENING before the request settles. Timers and handles are unchanged, and one more request is outstanding. |
| `GarageDoor.CancelClearsAll` | index.js:87-88 | In every valid state, clearing the two handle fields cancels every pending timer. |
| `GarageDoor.FinishOpenRearms` | index.js:84-96 | After a resolved request: current is OPEN and the target stays OPEN. No earlier timer is still pending. Exactly the fresh pair is pending, at now+simulateTimeOpen·1000 and now+(simulateTimeOpen+simulateTimeClosing)·1000, with fresh handles. This needs only the invariant, so it also holds after a stale timer fired mid-request. |
| `GarageDoor.FinishOpenRejectedKeepsState` | index.js:83-85 | After a rejected request, only the suspended call ends. The result is the old state with one request fewer outstanding: current, target, timers, handles, clock and handle counter are all unchanged. |
| `GarageDoor.FireRunsFirstTimer` | index.js:90-96 | In a valid state the closing timer runs before the closed one. The result is the old state with current set to CLOSING or CLOSED, the first timer removed and the clock at its deadline; nothing else changes. |
| `GarageDoor.UndisturbedCycle` | index.js:90-96 | From OPEN, a cycle left alone goes to CLOSING and then CLOSED, at non-decreasing times. Afterwards nothing is pending and the target is still OPEN. |
| `GarageDoor.ApplyPreservesValid` | index.js:72-96 | Every event keeps the invariant: at most one closing and one closed timer, in deadline order, each backing the reported state. |
| `GarageDoor.ApplyKeepsTargetOpen` | index.js:72-96 | No event takes the target from OPEN back to CLOSED. |
| `GarageDoor.RunPreservesValid` | index.js:72-96 | Every run of events from a valid state ends in a valid state. |
| `GarageDoor.Reachable` | index.js:48-96 | Every state reachable from construction is valid. |
| `GarageDoor.RunKeepsTargetOpen` | index.js:72-96 | Once OPEN, the target stays OPEN along every run. |
| `GarageDoor.StuckOpening` | index.js:82-85 | A door that is OPENING with no timer pending (none left from an earlier cycle) and no request outstanding reports OPENING under every run that does not open it again. |
| `GarageDoor.RejectedFirstOpen` | index.js:72-85 | The first open after construction, with a rejected request, leaves the door OPENING, the target OPEN and no timer pending. |
| `GarageDoor.RejectedReopenStillCloses` | index.js:82-96 | From OPEN, an open whose request is rejected leaves OPENING but does not stop the cycle in progress. Its two timers still run, CLOSING then CLOSED, and then nothing is pending. |
| `GarageDoor.CycleFiveThree` | index.js:82-96 | With 5 s and 3 s, an open from construction whose request resolves shows OPENING and then OPEN at 0, CLOSING at 5000 ms and CLOSED at 8000 ms. |
| `Accessory.HttpGarageDoorsAccessory.constructor` | index.js:48-52 | The fields equal the initial state, and the timing and the shared request are stored. |
| `Accessory.HttpGarageDoorsAccessory.GetCurrentDoorState` | index.js:63-66 | Returns the current state. CLOSED means no timer is pending, CLOSING means only the closed timer is pending, and OPEN means the closing/closed pair is pending. |
| `Accessory.HttpGarageDoorsAccessory.GetTargetDoorState` | index.js:68-71 | Returns the target. CLOSED is reported only while the door has never been opened: current is CLOSED, no timer is pending and no request is outstanding. |
| `Accessory.HttpGarageDoorsAccessory.SetTargetDoorState` | index.js:72-79 | Follows `SetTarget` and keeps the invariant. The host callback is answered at once exactly when the value is not OPEN. For OPEN, the request is normalised and fetch is called. Otherwise the request is untouched and nothing is sent. |
| `Accessory.HttpGarageDoorsAccessory.BeginOpen` | index.js:82-84 | Sets OPENING, counts the suspended call, normalises the request in place and returns the fetch call. |
| `Accessory.HttpGarageDoorsAccessory.FinishOpen` | index.js:84-96 | Follows `FinishOpen` step by step: clear both handles, then arm closing and closed. It keeps the invariant, and the set callback is answered exactly when the request resolved. |
| `Accessory.HttpGarageDoorsAccessory.ClearTimeout` | index.js:87-88 | Only the pending timers may change (the frame is that one field), and they become `GarageDoor.ClearTimeout` of the old queue. |
| `Accessory.HttpGarageDoorsAccessory.SetTimeout` | index.js:90-96 | Appends a timer with a fresh handle, due the given delay after now, and returns that handle. Only the queue and the next-handle counter may change. |
| `Accessory.HttpGarageDoorsAccessory.ClosingCallback` | index.js:90-92 | Sets current to CLOSING. Its frame is that one field, so nothing else changes. |
| `Accessory.HttpGarageDoorsAccessory.ClosedCallback` | index.js:94-96 | Sets current to CLOSED. Its frame is that one field, so nothing else changes. |
| `Accessory.HttpGarageDoorsAccessory.RunNextTimer` | index.js:90-96 | Runs the next due timer's callback through the field updates. The result equals `Fire` and keeps the invariant. |
| `Accessory.HttpGarageDoorsAccessory.AdvanceClock` | index.js:90-96 | Moves the clock when no timer is due earlier, and keeps the invariant. |

## Left out

- Homebridge registration, the `Service`/`Characteristic` objects, `getServices` and the accessory-information metadata (index.js:7-12, 39-46, 55-61): these are host wiring.
- The two `setCharacteristic` calls at setup (index.js:60-61): they run from the constructor (index.js:40) before the fields are assigned (index.js:48-49), so they push `undefined`. The host's handling of that value is not modelled.
- The network call itself (index.js:104): its outcome is the `ok` argument of `FinishOpen`, and any response body is ignored, as in the code.
- Real `setTimeout`/`clearTimeout` and wall-clock time: these are replaced by a queue of deadlines and a logical clock that the environment advances. Node's clamping of delays below 1 ms or above 2^31−1 ms to 1 ms is not modelled.
- `lastOpened = Date.now()` (index.js:75): it is written but never read.
- `simulateTimeOpen` and `simulateTimeClosing` are natural numbers of seconds. Fractional or missing values would be float or NaN arithmetic.
- `JSON.stringify`: `Json.Stringify` is a compact serialiser standing in for it, over integers, strings, arrays and objects. The model claims only the first character of the text. It differs from `JSON.stringify` in these ways:
  - It escapes only `"` and `\`. Control characters and other escapes are not modelled.
  - Fractional numbers are not modelled. Integers of 1e21 or more, which JavaScript prints in exponent form, are printed in full. Integers beyond 2^53, which JavaScript rounds, are printed exactly.
  - Object members are printed in source order. After `JSON.parse`, JavaScript prints integer-like keys first, in ascending order.
  - Duplicate keys are all printed, where JavaScript keeps only one.
  - Non-JSON values such as functions or Buffers are not modelled.
- `request.headers` and `options.headers` are maps from header names to JSON values. The spread of a non-object `request.headers` value is not modelled, and a `null` value counts as absent.
- The rejection itself: nothing catches it. `await this.open()` (index.js:76) rethrows it out of the async `set` listener, whose returned promise the host ignores, so it becomes an unhandled promise rejection. Whether the runtime then carries on or ends the host process, which would restart the door at CLOSED/CLOSED, is outside index.js. The model assumes the process carries on, and `StuckOpening`, `RejectedFirstOpen` and `RejectedReopenStillCloses` describe that case.
- Overlapping opens are modelled only through the outstanding-request count. Which request settles first does not matter, because every settlement does the same thing.
