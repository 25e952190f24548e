/** The prototype message handler of handlers/websocket.go: the message
    schema of models/location.go, the ordered validator and the dispatcher
    that parses, validates and routes one inbound payload. */
module Protocol {
  import opened Common
  import opened Domain

  /** The `data` object of an inbound message (models.LocationData). */
  datatype LocationData = LocationData(
    latitude: real,
    longitude: real,
    accuracy: real,
    timestamp: int64,
    speed: int64,
    heading: int64)

  /** The client's informational `state` object (models.TrackingState). */
  datatype TrackingState = TrackingState(
    isTracking: bool,
    sessionId: string,
    startTime: Option<int64>,
    lastUpdateTime: Option<int64>)

  /** One decoded inbound message (models.WebSocketMessage). */
  datatype Message = Message(
    msgType: string,
    sessionId: string,
    data: Option<LocationData>,
    state: TrackingState)

  /** The six ValidationError values, in the order the validator checks them. */
  datatype ValidationError =
    | InvalidMessageType
    | MissingSessionID
    | MissingLocationData
    | InvalidLatitude
    | InvalidLongitude
    | InvalidAccuracy
  {
    /** The text sent back to the client. */
    function Text(): string
    {
      match this
      case InvalidMessageType => "invalid or missing type"
      case MissingSessionID => "missing session ID"
      case MissingLocationData => "location_update requires location data"
      case InvalidLatitude => "latitude must be between -90 and 90"
      case InvalidLongitude => "longitude must be between -180 and 180"
      case InvalidAccuracy => "accuracy cannot be negative"
    }

    /** Position of this check in the validator's chain. */
    function Rank(): nat
    {
      match this
      case InvalidMessageType => 0
      case MissingSessionID => 1
      case MissingLocationData => 2
      case InvalidLatitude => 3
      case InvalidLongitude => 4
      case InvalidAccuracy => 5
    }
  }

  /** The rule each error stands for, stated on its own: `Violates(m, e)`
      holds when message m breaks the rule that error e reports. */
  predicate Violates(m: Message, e: ValidationError)
  {
    match e
    case InvalidMessageType => m.msgType == ""
    case MissingSessionID => m.sessionId == ""
    case MissingLocationData => m.msgType == LOCATION_UPDATE_TYPE && m.data.None?
    case InvalidLatitude => m.data.Some? && !LatitudeInRange(m.data.value.latitude)
    case InvalidLongitude => m.data.Some? && !LongitudeInRange(m.data.value.longitude)
    case InvalidAccuracy => m.data.Some? && !AccuracyInRange(m.data.value.accuracy)
  }

  /** validateMessage: the checks run in textual order and the first one
      that fails decides the error; a message breaking no rule is accepted. */
  function ValidateMessage(m: Message): (r: Option<ValidationError>)
    ensures r.None? ==> forall e :: !Violates(m, e)
    ensures r.Some? ==> Violates(m, r.value)
    ensures r.Some? ==> forall e: ValidationError :: e.Rank() < r.value.Rank() ==> !Violates(m, e)
  {
    if m.msgType == "" then Some(InvalidMessageType)
    else if m.sessionId == "" then Some(MissingSessionID)
    else if m.msgType == LOCATION_UPDATE_TYPE && m.data == None then Some(MissingLocationData)
    else if m.data.Some? then
      var d := m.data.value;
      if d.latitude < -90.0 || d.latitude > 90.0 then Some(InvalidLatitude)
      else if d.longitude < -180.0 || d.longitude > 180.0 then Some(InvalidLongitude)
      else if d.accuracy < 0.0 then Some(InvalidAccuracy)
      else None
    else None
  }

  /** The individual outcomes of the validator, one per check. */
  lemma ValidateMessageChecks(m: Message)
    ensures m.msgType == "" ==> ValidateMessage(m) == Some(InvalidMessageType)
    ensures m.msgType != "" && m.sessionId == "" ==> ValidateMessage(m) == Some(MissingSessionID)
    ensures m.msgType != "" && m.sessionId != "" && m.data.None? ==>
      ValidateMessage(m) == (if m.msgType == LOCATION_UPDATE_TYPE then Some(MissingLocationData) else None)
    ensures m.msgType != "" && m.sessionId != "" && m.data.Some? ==>
      ValidateMessage(m) ==
        if !LatitudeInRange(m.data.value.latitude) then Some(InvalidLatitude)
        else if !LongitudeInRange(m.data.value.longitude) then Some(InvalidLongitude)
        else if !AccuracyInRange(m.data.value.accuracy) then Some(InvalidAccuracy)
        else None
  {
  }

  /** The bounds are closed: exactly ±90, ±180 and an accuracy of 0 pass. */
  lemma ValidateMessageBoundsClosed(m: Message)
    requires m.msgType != "" && m.sessionId != "" && m.data.Some?
    requires m.data.value.latitude == 90.0 || m.data.value.latitude == -90.0
    requires m.data.value.longitude == 180.0 || m.data.value.longitude == -180.0
    requires m.data.value.accuracy == 0.0
    ensures ValidateMessage(m) == None
  {
  }

  /** No two validation errors send the same text to the client. */
  lemma TextsDistinct(e1: ValidationError, e2: ValidationError)
    requires e1 != e2
    ensures e1.Text() != e2.Text()
  {
  }

  /** The outcome of json.Unmarshal, which is not modelled: the payload
      either does not decode into a Message, or it does. */
  datatype Payload = Malformed(reason: string) | Parsed(msg: Message)

  /** The handler the switch in handleMessage selects. */
  datatype Route = StartRoute | StopRoute | LocationRoute | UnknownRoute

  /** The error handleMessage returns: the decoder's, or the validator's. */
  datatype HandleError = ParseError(reason: string) | Invalid(error: ValidationError)

  /** What one call of handleMessage does: return an error before any
      handler runs, run one route and return nil, or panic inside
      handleStartTracking, which dereferences the start time unguarded. */
  datatype HandleOutcome = Failed(error: HandleError) | Handled(route: Route) | Panicked

  function RouteOf(msgType: string): Route
  {
    if msgType == START_TYPE then StartRoute
    else if msgType == STOP_TYPE then StopRoute
    else if msgType == LOCATION_UPDATE_TYPE then LocationRoute
    else UnknownRoute
  }

  /** handleStartTracking formats *msg.State.StartTime; the other two
      handlers only read fields that are present (data after validation,
      the state times behind a nil check). */
  predicate RoutePanics(m: Message)
  {
    RouteOf(m.msgType) == StartRoute && m.state.startTime.None?
  }

  /** handleMessage: parse, then validate, then route by type. */
  function HandleMessage(p: Payload): (r: HandleOutcome)
    ensures p.Malformed? ==> r == Failed(ParseError(p.reason))
    ensures p.Parsed? && ValidateMessage(p.msg).Some? ==>
      r == Failed(Invalid(ValidateMessage(p.msg).value))
    ensures r.Handled? <==> p.Parsed? && ValidateMessage(p.msg).None? && !RoutePanics(p.msg)
    ensures r == Panicked <==> p.Parsed? && ValidateMessage(p.msg).None? && RoutePanics(p.msg)
  {
    match p
    case Malformed(reason) => Failed(ParseError(reason))
    case Parsed(m) =>
      match ValidateMessage(m)
      case Some(e) => Failed(Invalid(e))
      case None =>
        if RoutePanics(m) then Panicked else Handled(RouteOf(m.msgType))
  }

  /** Every validated message is handled by the route its type names, an
      unrecognised non-empty type by the default branch, and nil is
      returned, unless it is a start without a start time. */
  lemma HandleMessageRoutesValid(m: Message)
    requires ValidateMessage(m).None? && !RoutePanics(m)
    ensures HandleMessage(Parsed(m)) == Handled(RouteOf(m.msgType))
    ensures m.msgType !in {START_TYPE, STOP_TYPE, LOCATION_UPDATE_TYPE} ==>
      HandleMessage(Parsed(m)) == Handled(UnknownRoute)
  {
  }
}
