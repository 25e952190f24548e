/** The production WebSocket handler of internal/handler/websocket.go: the
    inbound message schema, the mapping of a message to a location row, and
    the read loop of HandleConnection, which takes frames in arrival order
    and drives the LocationService. The loop is given first as the function
    Run over a sequence of frames; HandleConnection is proved to follow it. */
module Handler {
  import opened Common
  import opened Domain
  import opened Repository
  import opened Service

  /** The `data` object of an inbound message. */
  datatype LocationData = LocationData(
    latitude: real,
    longitude: real,
    accuracy: real,
    timestamp: int64,
    speed: real,
    heading: real)

  /** The client's `state` object. */
  datatype TrackingState = TrackingState(
    isTracking: bool,
    sessionId: string,
    deliveryId: string,
    startTime: Option<int64>,
    lastUpdateTime: Option<int64>)

  /** One decoded inbound message (WebSocketMessage). */
  datatype Message = Message(
    msgType: string,
    sessionId: string,
    data: Option<LocationData>,
    state: TrackingState)

  /** What one conn.ReadMessage followed by json.Unmarshal yields: a read
      error, a payload that does not decode, or a message together with the
      instant time.Now() reports while it is handled. */
  datatype Frame = ReadError | Malformed | Parsed(msg: Message, now: Time)

  /** MessageToLocation: no row without data; otherwise the row for the
      top-level session id and the state's delivery id, with the sample's
      values copied and its millisecond timestamp as the recorded instant. */
  function MessageToLocation(message: Message): (r: Option<LocationUpdate>)
    ensures r.None? <==> message.data.None?
    ensures r.Some? ==>
      && r.value.id == 0
      && r.value.sessionId == message.sessionId
      && r.value.deliveryId == message.state.deliveryId
      && r.value.latitude == message.data.value.latitude
      && r.value.longitude == message.data.value.longitude
      && r.value.accuracy == message.data.value.accuracy
      && r.value.speed == Some(message.data.value.speed)
      && r.value.heading == Some(message.data.value.heading)
      && MillisOf(r.value.recordedAt) == message.data.value.timestamp as int
      && r.value.recordedAt.unixNanos % NANOS_PER_MILLI == 0
  {
    match message.data
    case None => None
    case Some(d) =>
      UnixMilliRoundTrip(d.timestamp);
      Some(LocationUpdate(
        0, message.sessionId, message.state.deliveryId,
        d.latitude, d.longitude, d.accuracy,
        Some(d.speed), Some(d.heading),
        UnixMilli(d.timestamp)))
  }

  /** The sample a location row was made from. */
  function SampleOf(location: LocationUpdate): LocationData
    requires location.speed.Some? && location.heading.Some?
    requires -0x8000_0000_0000_0000 <= MillisOf(location.recordedAt) < 0x8000_0000_0000_0000
  {
    LocationData(
      location.latitude, location.longitude, location.accuracy,
      MillisOf(location.recordedAt) as int64,
      location.speed.value, location.heading.value)
  }

  /** MessageToLocation keeps every field of the sample: the sample can be
      read back from the row. */
  lemma MessageToLocationRoundTrip(message: Message)
    requires message.data.Some?
    ensures var location := MessageToLocation(message).value;
      && location.speed.Some? && location.heading.Some?
      && -0x8000_0000_0000_0000 <= MillisOf(location.recordedAt) < 0x8000_0000_0000_0000
      && location.recordedAt.unixNanos % NANOS_PER_MILLI == 0
      && SampleOf(location) == message.data.value
  {
    var d := message.data.value;
    UnixMilliRoundTrip(d.timestamp);
  }

  /** A service call the loop makes, with its arguments. */
  datatype CallTarget =
    | StartTarget(sessionId: string, deliveryId: string)
    | RecordTarget(location: LocationUpdate)
    | StopTarget(sessionId: string)

  /** A service call and the error it returned, which the loop only logs. */
  datatype ServiceCall = ServiceCall(target: CallTarget, err: Option<ServiceError>)

  /** The effect of one decoded message: the stores after it, the call it
      made if any, and whether formatting *msg.State.StartTime panicked. */
  datatype Step = Step(stores: Stores, call: Option<ServiceCall>, panicked: bool)

  /** One pass through the switch of the read loop. The start case logs the
      start time after calling StartTracking, so the session is created
      before a nil start time panics. */
  function Dispatch(st: Stores, msg: Message, now: Time): (r: Step)
    ensures r.call.None? ==> r.stores == st
    ensures r.panicked ==> msg.msgType == START_TYPE
    ensures r.stores.sessionFaults == st.sessionFaults && r.stores.locationFaults == st.locationFaults
  {
    if msg.msgType == START_TYPE then
      var o := StartOutcome(st, msg.state.sessionId, msg.state.deliveryId, now);
      Step(o.stores, Some(ServiceCall(StartTarget(msg.state.sessionId, msg.state.deliveryId), o.err)),
           msg.state.startTime.None?)
    else if msg.msgType == LOCATION_UPDATE_TYPE then
      match MessageToLocation(msg)
      case None => Step(st, None, false)
      case Some(location) =>
        var o := RecordOutcome(st, location);
        Step(o.stores, Some(ServiceCall(RecordTarget(location), o.err)), false)
    else if msg.msgType == STOP_TYPE then
      var o := StopOutcome(st, msg.sessionId, now);
      Step(o.stores, Some(ServiceCall(StopTarget(msg.sessionId), o.err)), false)
    else
      Step(st, None, false)
  }

  /** The call a message asks for, read off the message alone. */
  function TargetOf(msg: Message): Option<CallTarget>
  {
    if msg.msgType == START_TYPE then Some(StartTarget(msg.state.sessionId, msg.state.deliveryId))
    else if msg.msgType == LOCATION_UPDATE_TYPE && msg.data.Some? then Some(RecordTarget(MessageToLocation(msg).value))
    else if msg.msgType == STOP_TYPE then Some(StopTarget(msg.sessionId))
    else None
  }

  /** A start without a start time ends the connection's handler. */
  predicate Halts(msg: Message)
  {
    msg.msgType == START_TYPE && msg.state.startTime.None?
  }

  /** Dispatch makes exactly the call the message asks for, with the
      service's own outcome for it, and panics exactly on Halts. */
  lemma DispatchMakesTargetCall(st: Stores, msg: Message, now: Time)
    ensures var step := Dispatch(st, msg, now);
      && (step.call.None? <==> TargetOf(msg).None?)
      && (step.call.Some? ==> step.call.value.target == TargetOf(msg).value)
      && step.panicked == Halts(msg)
      && (step.call.None? ==> step.stores == st)
  {
  }

  /** "start" keys the session by the state's session id and delivery id;
      the top-level session id plays no part. */
  lemma StartIgnoresTopLevelSessionId(st: Stores, msg: Message, now: Time, other: string)
    requires msg.msgType == START_TYPE
    ensures Dispatch(st, msg, now) == Dispatch(st, msg.(sessionId := other), now)
    ensures Dispatch(st, msg, now).stores == StartOutcome(st, msg.state.sessionId, msg.state.deliveryId, now).stores
  {
  }

  /** "stop" and "location_update" use the top-level session id; the
      state's session id plays no part. */
  lemma StopAndUpdateIgnoreStateSessionId(st: Stores, msg: Message, now: Time, other: string)
    requires msg.msgType == STOP_TYPE || msg.msgType == LOCATION_UPDATE_TYPE
    ensures Dispatch(st, msg, now) == Dispatch(st, msg.(state := msg.state.(sessionId := other)), now)
    ensures msg.msgType == STOP_TYPE ==>
      Dispatch(st, msg, now).stores == StopOutcome(st, msg.sessionId, now).stores
    ensures msg.msgType == LOCATION_UPDATE_TYPE && msg.data.Some? ==>
      Dispatch(st, msg, now).stores == RecordOutcome(st, MessageToLocation(msg).value).stores
  {
  }

  /** No validator runs: an empty session id still opens a session, and an
      out-of-range sample still reaches RecordLocation, whose own check
      refuses it. */
  lemma DispatchDoesNotValidate(st: Stores, msg: Message, now: Time)
    ensures msg.msgType == START_TYPE && msg.state.sessionId == "" &&
            "" !in st.sessions && CreateSession !in st.sessionFaults ==>
      "" in Dispatch(st, msg, now).stores.sessions
    ensures msg.msgType == LOCATION_UPDATE_TYPE && msg.data.Some? &&
            !LatitudeInRange(msg.data.value.latitude) ==>
      Dispatch(st, msg, now).call ==
        Some(ServiceCall(RecordTarget(MessageToLocation(msg).value), Some(RuleViolation(ERR_INVALID_LATITUDE))))
  {
  }

  /** Where the read loop stands: still reading, ended by a read error, or
      ended by a panic in the start case. */
  datatype ConnectionState = Open | Closed | Panicked

  /** The loop's state after some frames, and the calls made, in order. */
  datatype RunResult = RunResult(end: ConnectionState, calls: seq<ServiceCall>, stores: Stores)

  function Prepend(calls: seq<ServiceCall>, r: RunResult): RunResult
  {
    r.(calls := calls + r.calls)
  }

  function CallsOf(step: Step): seq<ServiceCall>
  {
    if step.call.Some? then [step.call.value] else []
  }

  /** The read loop over frames received so far, in order. A frame that does
      not decode is skipped; a service error is only logged; only a read
      error or the panic ends the loop, and what comes after is never read. */
  function Run(st: Stores, frames: seq<Frame>): RunResult
    decreases |frames|
  {
    if frames == [] then RunResult(Open, [], st)
    else
      match frames[0]
      case ReadError => RunResult(Closed, [], st)
      case Malformed => Run(st, frames[1..])
      case Parsed(msg, now) =>
        var step := Dispatch(st, msg, now);
        if step.panicked then RunResult(Panicked, CallsOf(step), step.stores)
        else Prepend(CallsOf(step), Run(step.stores, frames[1..]))
  }

  /** The calls some frames ask for, read off the frames alone: one per
      decoded frame that asks for one, up to the frame that ends the loop. */
  function Planned(frames: seq<Frame>): seq<CallTarget>
    decreases |frames|
  {
    if frames == [] then []
    else
      match frames[0]
      case ReadError => []
      case Malformed => Planned(frames[1..])
      case Parsed(msg, _) =>
        var here := if TargetOf(msg).Some? then [TargetOf(msg).value] else [];
        if Halts(msg) then here else here + Planned(frames[1..])
  }

  /** How some frames leave the loop, read off the frames alone. */
  function Ending(frames: seq<Frame>): ConnectionState
    decreases |frames|
  {
    if frames == [] then Open
    else
      match frames[0]
      case ReadError => Closed
      case Malformed => Ending(frames[1..])
      case Parsed(msg, _) => if Halts(msg) then Panicked else Ending(frames[1..])
  }

  function Targets(calls: seq<ServiceCall>): (r: seq<CallTarget>)
    ensures |r| == |calls|
  {
    if calls == [] then [] else [calls[0].target] + Targets(calls[1..])
  }

  lemma {:induction false} TargetsAppend(a: seq<ServiceCall>, b: seq<ServiceCall>)
    ensures Targets(a + b) == Targets(a) + Targets(b)
  {
    if a == [] {
      assert a + b == b;
    } else {
      assert (a + b)[1..] == a[1..] + b;
      TargetsAppend(a[1..], b);
    }
  }

  /** Whatever the stores hold and whatever the service returns, the loop
      makes exactly the calls the frames ask for, in arrival order, and
      ends as the frames say. */
  lemma {:induction false} RunFollowsFrames(st: Stores, frames: seq<Frame>)
    ensures Targets(Run(st, frames).calls) == Planned(frames)
    ensures Run(st, frames).end == Ending(frames)
    decreases |frames|
  {
    if frames != [] {
      match frames[0]
      case ReadError =>
      case Malformed =>
        RunFollowsFrames(st, frames[1..]);
      case Parsed(msg, now) =>
        var step := Dispatch(st, msg, now);
        DispatchMakesTargetCall(st, msg, now);
        if !step.panicked {
          RunFollowsFrames(step.stores, frames[1..]);
          TargetsAppend(CallsOf(step), Run(step.stores, frames[1..]).calls);
        }
    }
  }

  /** Frames are taken strictly in order: running a + b is running a, then,
      if the loop is still open, running b from where a left off. */
  lemma {:induction false} RunAppend(st: Stores, a: seq<Frame>, b: seq<Frame>)
    ensures Run(st, a + b) ==
      if Run(st, a).end == Open then Prepend(Run(st, a).calls, Run(Run(st, a).stores, b))
      else Run(st, a)
    decreases |a|
  {
    if a == [] {
      assert a + b == b;
    } else {
      assert (a + b)[0] == a[0];
      assert (a + b)[1..] == a[1..] + b;
      match a[0]
      case ReadError =>
      case Malformed =>
        RunAppend(st, a[1..], b);
      case Parsed(msg, now) =>
        var step := Dispatch(st, msg, now);
        if !step.panicked {
          RunAppend(step.stores, a[1..], b);
          var ra := Run(step.stores, a[1..]);
          if ra.end == Open {
            assert CallsOf(step) + (ra.calls + Run(ra.stores, b).calls) ==
                   (CallsOf(step) + ra.calls) + Run(ra.stores, b).calls;
          }
        }
    }
  }

  /** Only a read error or the start-time panic ends the loop: with neither
      among the frames, all of them are handled and the loop is still open. */
  lemma {:induction false} RunStaysOpen(st: Stores, frames: seq<Frame>)
    requires forall i :: 0 <= i < |frames| ==> !frames[i].ReadError? && !(frames[i].Parsed? && Halts(frames[i].msg))
    ensures Run(st, frames).end == Open
    decreases |frames|
  {
    if frames != [] {
      match frames[0]
      case Malformed =>
        RunStaysOpen(st, frames[1..]);
      case Parsed(msg, now) =>
        RunStaysOpen(Dispatch(st, msg, now).stores, frames[1..]);
    }
  }

  /** A read error ends the loop: nothing after it is read, and the result
      is that of the frames before it, closed. */
  lemma ReadErrorEndsLoop(st: Stores, before: seq<Frame>, after: seq<Frame>)
    requires Run(st, before).end == Open
    ensures Run(st, before + [ReadError] + after) == Run(st, before).(end := Closed)
  {
    RunAppend(st, before, [ReadError] + after);
    assert before + [ReadError] + after == before + ([ReadError] + after);
    var r := Run(st, before);
    assert r.calls + [] == r.calls;
  }

  /** Which store operations fail is the environment's, fixed for the whole
      connection: the loop never changes it. */
  lemma {:induction false} RunKeepsFaults(st: Stores, frames: seq<Frame>)
    ensures Run(st, frames).stores.sessionFaults == st.sessionFaults
    ensures Run(st, frames).stores.locationFaults == st.locationFaults
    decreases |frames|
  {
    if frames != [] {
      match frames[0]
      case ReadError =>
      case Malformed =>
        RunKeepsFaults(st, frames[1..]);
      case Parsed(msg, now) =>
        RunKeepsFaults(Dispatch(st, msg, now).stores, frames[1..]);
    }
  }

  /** Every state the loop reaches from a consistent one is consistent. */
  lemma {:induction false} RunPreservesConsistent(st: Stores, frames: seq<Frame>)
    requires Consistent(st)
    ensures Consistent(Run(st, frames).stores)
    decreases |frames|
  {
    if frames != [] {
      match frames[0]
      case ReadError =>
      case Malformed =>
        RunPreservesConsistent(st, frames[1..]);
      case Parsed(msg, now) =>
        DispatchPreservesConsistent(st, msg, now);
        RunPreservesConsistent(Dispatch(st, msg, now).stores, frames[1..]);
    }
  }

  lemma DispatchPreservesConsistent(st: Stores, msg: Message, now: Time)
    requires Consistent(st)
    ensures Consistent(Dispatch(st, msg, now).stores)
  {
    if msg.msgType == START_TYPE {
      StartPreservesConsistent(st, msg.state.sessionId, msg.state.deliveryId, now);
    } else if msg.msgType == LOCATION_UPDATE_TYPE {
      if msg.data.Some? {
        RecordPreservesConsistent(st, MessageToLocation(msg).value);
      }
    } else if msg.msgType == STOP_TYPE {
      StopPreservesConsistent(st, msg.sessionId, now);
    }
  }

  /** The handler, holding the service it drives. */
  class WebSocketHandler {
    const locationService: LocationService

    /** NewWebSocketHandler. */
    constructor (locationService: LocationService)
      ensures this.locationService == locationService
    {
      this.locationService := locationService;
    }

    /** The switch of the read loop for one decoded message. */
    method HandleMessage(msg: Message, now: Time) returns (call: Option<ServiceCall>, panicked: bool)
      requires locationService.Valid()
      modifies locationService.sessionRepo`sessions, locationService.locationRepo`rows
      ensures locationService.Valid()
      ensures Step(locationService.State(), call, panicked) == Dispatch(old(locationService.State()), msg, now)
    {
      var service := locationService;
      var err: Option<ServiceError>;
      call, panicked := None, false;
      if msg.msgType == START_TYPE {
        err := service.StartTracking(msg.state.sessionId, msg.state.deliveryId, now);
        call := Some(ServiceCall(StartTarget(msg.state.sessionId, msg.state.deliveryId), err));
        panicked := msg.state.startTime.None?;
      } else if msg.msgType == LOCATION_UPDATE_TYPE {
        var location := MessageToLocation(msg);
        if location.Some? {
          err := service.RecordLocation(location.value);
          call := Some(ServiceCall(RecordTarget(location.value), err));
        }
      } else if msg.msgType == STOP_TYPE {
        err := service.StopTracking(msg.sessionId, now);
        call := Some(ServiceCall(StopTarget(msg.sessionId), err));
      }
    }

    /** The read loop of HandleConnection over the frames received so far. */
    method HandleConnection(frames: seq<Frame>) returns (end: ConnectionState, calls: seq<ServiceCall>)
      requires locationService.Valid()
      modifies locationService.sessionRepo`sessions, locationService.locationRepo`rows
      ensures locationService.Valid()
      ensures RunResult(end, calls, locationService.State()) == Run(old(locationService.State()), frames)
    {
      calls := [];
      var i := 0;
      while i < |frames|
        invariant 0 <= i <= |frames|
        invariant locationService.Valid()
        invariant Run(old(locationService.State()), frames) == Prepend(calls, Run(locationService.State(), frames[i..]))
      {
        ghost var rest := frames[i..];
        assert rest[0] == frames[i] && rest[1..] == frames[i + 1..];
        if frames[i].ReadError? {
          assert calls + [] == calls;
          return Closed, calls;
        } else if frames[i].Parsed? {
          var msg, now := frames[i].msg, frames[i].now;
          var call, panicked := HandleMessage(msg, now);
          var made := if call.Some? then [call.value] else [];
          assert made == CallsOf(Step(locationService.State(), call, panicked));
          if panicked {
            return Panicked, calls + made;
          }
          assert (calls + made) + Run(locationService.State(), frames[i + 1..]).calls ==
                 calls + (made + Run(locationService.State(), frames[i + 1..]).calls);
          calls := calls + made;
        }
        i := i + 1;
      }
      assert frames[i..] == [];
      assert calls + [] == calls;
      end := Open;
    }
  }
}
