# Location-tracking WebSocket core, modelled in Dafny

This project models the sequential core of a WebSocket server that takes live
geolocation telemetry from delivery clients and turns it into tracking-session
records. It has three parts:

- **The prototype handler** (`handlers/websocket.go`). `validateMessage` is an
  ordered chain of checks on an inbound message: empty type, empty session id,
  `location_update` without data, latitude outside [-90, 90], longitude outside
  [-180, 180], negative accuracy. The first check that fails decides the
  error. `handleMessage` parses, then validates, then routes by type. This is
  module `Protocol`.
- **`LocationService`** (`internal/service/location_service.go`). It runs the
  session lifecycle (start → active → stopped) and location ingest over two
  stores: a session table keyed by session id and an append-only sequence of
  location rows. The stores stand for the repository interfaces of
  `internal/repository/repository.go` (module `Repository`). Each service
  operation is first defined as a function from the stores before the call to
  the stores after it plus the error it returns (`RecordOutcome`,
  `StartOutcome`, `StopOutcome`). The methods of class `LocationService` are
  proved to behave exactly like those functions, and the lemmas state the
  lifecycle rules about them (module `Service`).
- **The production handler** (`internal/handler/websocket.go`).
  `MessageToLocation` maps a message to a location row. The body of the read
  loop in `HandleConnection` is `Dispatch`, and the loop over a sequence of
  frames is `Run`. The method `WebSocketHandler.HandleConnection` consumes the
  frames against the service object and is proved to follow `Run`. The lemmas
  show three things. The calls the loop makes depend only on the frames, are
  made in arrival order, and a service error does not change them. Only a read
  error or the start-time panic ends the loop. The store invariant
  `Consistent` holds throughout (module `Handler`).

Shared values are in module `Common`: `Option`, `Result`, Go's `int64`, and
instants in nanoseconds. The records of `internal/domain/location.go` are in
module `Domain`.

Modelling choices:

- Coordinates and accuracy are `real`. The code only compares them against
  constant bounds.
- `time.Now()` becomes a parameter `now`. In the read loop, each decoded frame
  carries the instant `time.Now()` reports while it is handled.
- `json.Unmarshal` is not modelled. Its outcome is abstract: `Payload`
  (`Malformed | Parsed`) in the prototype, and `Frame`
  (`ReadError | Malformed | Parsed`) in the production loop.
- The environment decides which database operations fail, through each store's
  `failing` set of operations. The session store adds two outcomes of its own:
  creating a session whose id already exists fails as a unique-key violation,
  and looking up a missing id fails with "no rows". An update that matches no
  row succeeds and changes nothing, as an SQL `UPDATE` does. The location
  store gives each new row the next serial id.
- Both handlers dereference the client's `state.startTime` unconditionally
  when they handle a `start` (`handlers/websocket.go:157`,
  `internal/handler/websocket.go:113`). A `start` without a start time is
  therefore an explicit `Panicked` outcome. In the production loop it comes
  after `StartTracking` has already created the session.

## Behaviour of the code worth noting

- `validateMessage` rejects only an empty type as `ErrInvalidMessageType`
  (handlers/websocket.go:130-132). A non-empty, unrecognised type passes
  validation and reaches the default branch of `handleMessage`
  (handlers/websocket.go:120-121).
- `handleMessage` panics instead of returning nil for a validated `start`
  without a start time, because `handleStartTracking` dereferences
  `msg.State.StartTime` (handlers/websocket.go:157).
- `StopTracking` has no guard against a session that is already stopped
  (internal/service/location_service.go:59-70). A second stop succeeds again
  and overwrites the end time.
- The production read loop never calls a validator
  (internal/handler/websocket.go:110-144). Only the service's own bounds
  check applies, and a `start` with an empty session id creates a session
  under the empty id.
- Service errors in the production read loop are logged and not sent to the
  client (internal/handler/websocket.go:146-149).
- `RecordLocation` checks that the session is active at the moment the row is
  recorded (internal/service/location_service.go:34-39). It does not compare
  the session's lifetime with the client-reported `recordedAt`. The store
  invariant `Consistent` states what holds: every row references an existing
  session and carries its serial id, and a session has an end time exactly
  when it is inactive.
- Which store operations fail is fixed for the whole of one connection in
  this model (`RunKeepsFaults`). A database that fails on one frame and works
  on the next is not expressed; every per-step lemma holds for any stores.

## Model

| member | source | states |
|---|---|---|
| `Common.UnixMilli` | internal/handler/websocket.go:168 | `time.UnixMilli` gives an instant on a whole millisecond |
| `Common.UnixMilliRoundTrip` | internal/handler/websocket.go:168 | converting a millisecond timestamp to an instant and back gives the timestamp (no loss) |
| `Protocol.ValidateMessage` | handlers/websocket.go:128-154 | accepted exactly when no rule is broken; an error names a broken rule, and every rule checked before it holds (first failure wins, in textual order) |
| `Protocol.ValidateMessageChecks` | handlers/websocket.go:128-154 | empty type gives InvalidMessageType whatever else the message holds; otherwise empty session id gives MissingSessionID; nil data is refused only for `location_update`; present data of any type is bounds-checked: latitude, then longitude, then accuracy |
| `Protocol.ValidateMessageBoundsClosed` | handlers/websocket.go:141-150 | the ranges are closed: latitude ±90, longitude ±180 and accuracy 0 are accepted |
| `Protocol.TextsDistinct` | handlers/websocket.go:21-28 | the six ValidationError values carry six different texts |
| `Protocol.HandleMessage` | handlers/websocket.go:102-125 | a malformed payload returns the parse error before validation; a validation error is returned with no handler run; a validated message is handled, except that a `start` without a start time panics (line 157) |
| `Protocol.HandleMessageRoutesValid` | handlers/websocket.go:113-124 | a validated message that does not panic is routed by its type and returns nil; a non-empty unrecognised type takes the default branch |
| `Repository.RowsOf` | internal/repository/repository.go:13 | the rows of one session: no more rows than stored, each stored and of that session |
| `Repository.RowsOfComplete` | internal/repository/repository.go:13 | every stored row of the session is among its rows |
| `Repository.RowsOfAppend` | internal/repository/repository.go:12-13 | an inserted row of the session is appended to its route; one of another session leaves the route unchanged |
| `Repository.SessionRepository.constructor` | internal/repository/repository.go:20-24 | a new session store is empty and keeps every session under its own id |
| `Repository.SessionRepository.Create` | internal/repository/repository.go:21 | inserts the session under its id; refuses a failing store or a duplicate id, changing nothing |
| `Repository.SessionRepository.GetByID` | internal/repository/repository.go:22 | returns the stored session of that id, "no rows" when absent, or the store's failure |
| `Repository.SessionRepository.Update` | internal/repository/repository.go:23 | overwrites the row with the session's id; an unmatched update changes nothing |
| `Repository.LocationRepository.constructor` | internal/repository/repository.go:11-17 | a new location store is empty |
| `Repository.LocationRepository.Create` | internal/repository/repository.go:12 | appends exactly the row, with the next serial id, or fails and changes nothing |
| `Repository.LocationRepository.GetBySessionID` | internal/repository/repository.go:13 | returns exactly `RowsOf` the stored rows for the session, or the store's failure |
| `Service.ValidateLocation` | internal/service/location_service.go:76-88 | nil exactly when all three bounds hold; otherwise INVALID_LATITUDE, INVALID_LONGITUDE or INVALID_ACCURACY for the first bound broken, in that order |
| `Service.EmptyConsistent` | internal/service/location_service.go:12-22 | two empty stores satisfy the store invariant |
| `Service.RecordOutcome` | internal/service/location_service.go:24-46 | RecordLocation never writes the session table or changes which operations fail, and a failing call leaves both stores as they were; its success condition and its rows are stated by `RecordSucceedsIff`, `RecordFrame` and `RecordErrorPaths` |
| `Service.StartOutcome` | internal/service/location_service.go:48-57 | StartTracking leaves the location rows and the failing operations alone, and a failing call changes nothing; the session written is stated by `StartWritesSession` |
| `Service.StopOutcome` | internal/service/location_service.go:59-70 | StopTracking leaves the location rows, the set of session ids and the failing operations alone, and a failing call changes nothing; the update is stated by `StopUpdatesSession` |
| `Service.RecordPreservesConsistent` | internal/service/location_service.go:24-46 | RecordLocation keeps the store invariant: a row is stored only for an existing session |
| `Service.StartPreservesConsistent` | internal/service/location_service.go:48-57 | StartTracking keeps the store invariant: new sessions are active with no end time |
| `Service.StopPreservesConsistent` | internal/service/location_service.go:59-70 | StopTracking keeps the store invariant: a stopped session is inactive with an end time |
| `Service.RecordRejectsInvalidSample` | internal/service/location_service.go:25-27 | an out-of-bounds sample returns the validator's DomainError, leaves both stores unchanged, and the error does not depend on what the stores hold |
| `Service.RecordFrame` | internal/service/location_service.go:24-46 | every failing RecordLocation leaves both stores unchanged; a successful one appends exactly the sample with its id and leaves the session store unchanged |
| `Service.RecordSucceedsIff` | internal/service/location_service.go:24-46 | RecordLocation succeeds if and only if the sample is in bounds, its session exists and is active, and neither the lookup nor the insert fails |
| `Service.RecordErrorPaths` | internal/service/location_service.go:29-43 | an unknown session gives a lookup error, an inactive one SESSION_INACTIVE, a failing insert a record error; none stores a row |
| `Service.StartWritesSession` | internal/service/location_service.go:48-57 | writes SessionID, DeliveryID, StartTime = now, IsActive, no EndTime; a duplicate id or a failing store returns the create error and changes nothing |
| `Service.StopUpdatesSession` | internal/service/location_service.go:59-70 | every failing StopTracking changes nothing; it succeeds exactly when the lookup does not fail, the session exists and the update does not fail; a missing session returns the lookup error; a successful one sets EndTime = now and IsActive = false, keeps the other fields, and leaves every other session unchanged |
| `Service.StopTwiceOverwritesEndTime` | internal/service/location_service.go:59-70 | a second stop succeeds again and overwrites the end time |
| `Service.RecordBeforeStartRefused` | internal/service/location_service.go:29-32 | a sample sent before any start is refused as not found and stores nothing |
| `Service.StartRecordStopRecord` | internal/service/location_service.go:24-70 | after start, a valid sample is stored as exactly one more row of its session; after stop, the same sample is refused with SESSION_INACTIVE and nothing changes |
| `Service.LocationService.constructor` | internal/service/location_service.go:17-22 | NewLocationService holds the two given stores, and a well-formed session store gives a service ready for its methods |
| `Service.LocationService.RecordLocation` | internal/service/location_service.go:24-46 | the new stores and the error are exactly `RecordOutcome` of the old stores |
| `Service.LocationService.StartTracking` | internal/service/location_service.go:48-57 | the new stores and the error are exactly `StartOutcome` of the old stores |
| `Service.LocationService.StopTracking` | internal/service/location_service.go:59-70 | the new stores and the error are exactly `StopOutcome` of the old stores |
| `Service.LocationService.GetSessionRoute` | internal/service/location_service.go:72-74 | returns the session's stored rows, or the store's failure |
| `Handler.MessageToLocation` | internal/handler/websocket.go:154-171 | nil exactly when data is nil; otherwise SessionID from the top-level id, DeliveryID from the state, coordinates and accuracy copied, Speed and Heading always set, RecordedAt exactly the instant the millisecond timestamp names (on a whole millisecond, and in that millisecond) |
| `Handler.MessageToLocationRoundTrip` | internal/handler/websocket.go:160-168 | the sample can be read back unchanged from the row it produced, and the recorded instant is a whole millisecond |
| `Handler.Dispatch` | internal/handler/websocket.go:110-144 | a message that makes no call leaves the stores unchanged, only a `start` can panic, and the failing operations never change; the call made is stated by `DispatchMakesTargetCall` |
| `Handler.DispatchMakesTargetCall` | internal/handler/websocket.go:110-144 | one message makes exactly the service call its type asks for, or none (other types, including "", and `location_update` without data), and panics exactly on a `start` without a start time |
| `Handler.StartIgnoresTopLevelSessionId` | internal/handler/websocket.go:111-113 | `start` calls StartTracking with the state's session and delivery ids; the top-level session id has no effect |
| `Handler.StopAndUpdateIgnoreStateSessionId` | internal/handler/websocket.go:114-133 | `stop` and `location_update` act on the top-level session id; the state's session id has no effect |
| `Handler.DispatchDoesNotValidate` | internal/handler/websocket.go:110-144 | no validator runs: a `start` with an empty id opens a session, and an out-of-range sample reaches RecordLocation, which refuses it |
| `Handler.RunKeepsFaults` | internal/handler/websocket.go:93-150 | the read loop never changes which store operations fail: the environment's failure setting is fixed for the whole connection |
| `Handler.TargetsAppend` | internal/handler/websocket.go:93-150 | the call targets of a concatenated trace are the concatenated targets |
| `Handler.Run` | internal/handler/websocket.go:93-150 | the loop over the frames received so far; its properties are stated by `RunFollowsFrames` (calls and ending read off the frames alone), `RunAppend`, `RunStaysOpen`, `ReadErrorEndsLoop`, `RunKeepsFaults` and `RunPreservesConsistent` |
| `Handler.RunFollowsFrames` | internal/handler/websocket.go:93-150 | for any store contents and any fixed set of failing store operations, the calls made are exactly those the frames ask for, in arrival order (malformed frames skipped, service errors only logged), and the loop ends as the frames dictate |
| `Handler.RunAppend` | internal/handler/websocket.go:93-150 | frames are handled strictly in order: running a + b is running a and then, if still open, b from the state a left |
| `Handler.RunStaysOpen` | internal/handler/websocket.go:93-150 | without a read error and without a panicking start, every frame is handled and the loop stays open |
| `Handler.ReadErrorEndsLoop` | internal/handler/websocket.go:94-99 | a read error ends the loop: the result is that of the earlier frames, closed, and nothing after it is read |
| `Handler.DispatchPreservesConsistent` | internal/handler/websocket.go:110-144 | one message keeps the store invariant |
| `Handler.RunPreservesConsistent` | internal/handler/websocket.go:93-150 | the read loop keeps the store invariant over any frames |
| `Handler.WebSocketHandler.constructor` | internal/handler/websocket.go:43-52 | NewWebSocketHandler holds the given service |
| `Handler.WebSocketHandler.HandleMessage` | internal/handler/websocket.go:110-144 | one pass of the switch changes the stores, makes the call and panics exactly as `Dispatch` says |
| `Handler.WebSocketHandler.HandleConnection` | internal/handler/websocket.go:93-150 | the final stores, the calls made in order and how the loop ended are exactly `Run` of the frames |

## Left out

- WebSocket upgrade, origin check, pong handler, read deadlines, the 30-second ticker, the ping goroutine and the `done` channel in both handlers. These are concurrency and timers over a foreign library. The keepalive properties (one probe per interval, none after cancellation) are therefore not modelled.
- JSON decoding with `encoding/json`, a foreign call. Its outcome is abstract. Decoding only yields finite numbers, so no NaN or infinity reaches the comparisons. Rounding decimal JSON numbers to `float64` is not modelled.
- `sendError`/`WriteJSON`, every `log.Printf`, and the session duration computed in the stop handlers. These are observability and output only.
- The PostgreSQL repositories (`internal/repository/postgres/*.go`): SQL text, PostGIS and row scanning. The abstract stores replace them.
- `LocationRepository.GetBySessionID` orders by `recorded_at`. The abstract store returns a session's rows in insertion order.
- `GetByDeliveryID`, `GetLatestBySessionID` and `GetWithinRadius` of the location repository interface. The core never calls them.
- The `CreatedAt` column of a location row. It is assigned by the database's clock.
- `context.Context` parameters. Cancellation is not modelled.
- What happens after a panic: the HTTP server recovers it and the connection's deferred cleanup runs. The model stops at the `Panicked` outcome.
- The declared types of `Speed`/`Heading` differ: `float64` in the message, `*int64` in the domain row. Both are modelled as optional reals copied through unchanged.
- The error texts built with `fmt.Errorf` by the service. They are modelled as error constructors that keep the wrapped store error, not as strings.
- Database connection setup, configuration loading, HTTP routing and the entry points (`internal/database`, `internal/config`, `cmd/server/main.go`, `main.go`).
- A database whose failures change from one frame to the next. Each store's `failing` set is fixed for a connection (`RunKeepsFaults`), so the frame-by-frame lemmas hold for any failure setting but the loop lemmas assume one setting throughout.
