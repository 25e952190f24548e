/** LocationService of internal/service/location_service.go: the tracking
    session lifecycle (start -> active -> stopped) and location ingest over
    the two abstract stores. Each operation is first given as a function
    from the stores before the call to the stores after it and the error
    returned; the class methods are proved to behave exactly so. */
module Service {
  import opened Common
  import opened Domain
  import opened Repository

  const ERR_INVALID_LATITUDE := DomainError("INVALID_LATITUDE", "Latitude must be between -90 and 90")
  const ERR_INVALID_LONGITUDE := DomainError("INVALID_LONGITUDE", "Longitude must be between -180 and 180")
  const ERR_INVALID_ACCURACY := DomainError("INVALID_ACCURACY", "accuracy cannot be negative")
  const ERR_SESSION_INACTIVE := DomainError("SESSION_INACTIVE", "cannot record location for inactive session")

  /** The errors the service returns.
      - RuleViolation: a *domain.DomainError;
      - SessionLookupFailed: any lookup error, wrapped as "session not found";
      - RecordFailed: a location insert error, wrapped as "failed to record location";
      - StoreFailed: a session store error returned unwrapped. */
  datatype ServiceError =
    | RuleViolation(rule: DomainError)
    | SessionLookupFailed(cause: StoreError)
    | RecordFailed(cause: StoreError)
    | StoreFailed(cause: StoreError)

  /** validateLocation: the first bound a sample breaks, checked in the
      order latitude, longitude, accuracy. */
  function ValidateLocation(location: LocationUpdate): (r: Option<DomainError>)
    ensures r.None? <==>
      LatitudeInRange(location.latitude) && LongitudeInRange(location.longitude) &&
      AccuracyInRange(location.accuracy)
    ensures r == Some(ERR_INVALID_LATITUDE) <==> !LatitudeInRange(location.latitude)
    ensures r == Some(ERR_INVALID_LONGITUDE) <==>
      LatitudeInRange(location.latitude) && !LongitudeInRange(location.longitude)
    ensures r == Some(ERR_INVALID_ACCURACY) <==>
      LatitudeInRange(location.latitude) && LongitudeInRange(location.longitude) &&
      !AccuracyInRange(location.accuracy)
  {
    if location.latitude < -90.0 || location.latitude > 90.0 then Some(ERR_INVALID_LATITUDE)
    else if location.longitude < -180.0 || location.longitude > 180.0 then Some(ERR_INVALID_LONGITUDE)
    else if location.accuracy < 0.0 then Some(ERR_INVALID_ACCURACY)
    else None
  }

  /** The contents of both stores, and which of their operations fail. */
  datatype Stores = Stores(
    sessions: map<string, TrackingSession>,
    sessionFaults: set<StoreOp>,
    locations: seq<LocationUpdate>,
    locationFaults: set<StoreOp>)

  /** What one service call leaves behind: the stores and the error (None is nil). */
  datatype Outcome = Outcome(stores: Stores, err: Option<ServiceError>)

  /** RecordLocation: validate, look the session up, refuse an inactive
      session, then append. */
  function RecordOutcome(st: Stores, location: LocationUpdate): (r: Outcome)
    ensures r.stores.sessions == st.sessions
    ensures r.stores.sessionFaults == st.sessionFaults && r.stores.locationFaults == st.locationFaults
    ensures r.err.Some? ==> r.stores == st
  {
    match ValidateLocation(location)
    case Some(e) => Outcome(st, Some(RuleViolation(e)))
    case None =>
      if GetSession in st.sessionFaults then Outcome(st, Some(SessionLookupFailed(Rejected)))
      else if location.sessionId !in st.sessions then Outcome(st, Some(SessionLookupFailed(NoRows)))
      else if !st.sessions[location.sessionId].isActive then Outcome(st, Some(RuleViolation(ERR_SESSION_INACTIVE)))
      else if CreateLocation in st.locationFaults then Outcome(st, Some(RecordFailed(Rejected)))
      else Outcome(st.(locations := st.locations + [location.(id := |st.locations| + 1)]), None)
  }

  /** The session StartTracking writes. */
  function NewSession(sessionId: string, deliveryId: string, now: Time): TrackingSession
  {
    TrackingSession(sessionId, deliveryId, now, None, true)
  }

  /** StartTracking: create an active session; the create error is returned. */
  function StartOutcome(st: Stores, sessionId: string, deliveryId: string, now: Time): (r: Outcome)
    ensures r.stores.locations == st.locations
    ensures r.stores.sessionFaults == st.sessionFaults && r.stores.locationFaults == st.locationFaults
    ensures r.err.Some? ==> r.stores == st
  {
    if CreateSession in st.sessionFaults then Outcome(st, Some(StoreFailed(Rejected)))
    else if sessionId in st.sessions then Outcome(st, Some(StoreFailed(UniqueViolation)))
    else Outcome(st.(sessions := st.sessions[sessionId := NewSession(sessionId, deliveryId, now)]), None)
  }

  /** StopTracking: load the session, mark it inactive with an end time,
      write it back. Nothing guards against stopping it twice. */
  function StopOutcome(st: Stores, sessionId: string, now: Time): (r: Outcome)
    ensures r.stores.locations == st.locations && r.stores.sessions.Keys == st.sessions.Keys
    ensures r.stores.sessionFaults == st.sessionFaults && r.stores.locationFaults == st.locationFaults
    ensures r.err.Some? ==> r.stores == st
  {
    if GetSession in st.sessionFaults then Outcome(st, Some(StoreFailed(Rejected)))
    else if sessionId !in st.sessions then Outcome(st, Some(StoreFailed(NoRows)))
    else if UpdateSession in st.sessionFaults then Outcome(st, Some(StoreFailed(Rejected)))
    else
      var stopped := st.sessions[sessionId].(endTime := Some(now), isActive := false);
      Outcome(st.(sessions := st.sessions[sessionId := stopped]), None)
  }

  /** The invariant every state reachable through the service keeps:
      sessions are filed under their ids, a session has an end time exactly
      when it is inactive, and every location row carries its serial id
      and belongs to a session that exists. */
  predicate Consistent(st: Stores)
  {
    && KeyedBySessionId(st.sessions)
    && (forall id :: id in st.sessions ==> (st.sessions[id].endTime.Some? <==> !st.sessions[id].isActive))
    && (forall i :: 0 <= i < |st.locations| ==>
          st.locations[i].id == i + 1 && st.locations[i].sessionId in st.sessions)
  }

  /** The starting point: two empty stores. */
  lemma EmptyConsistent(sessionFaults: set<StoreOp>, locationFaults: set<StoreOp>)
    ensures Consistent(Stores(map[], sessionFaults, [], locationFaults))
  {
  }

  lemma RecordPreservesConsistent(st: Stores, location: LocationUpdate)
    requires Consistent(st)
    ensures Consistent(RecordOutcome(st, location).stores)
  {
  }

  lemma StartPreservesConsistent(st: Stores, sessionId: string, deliveryId: string, now: Time)
    requires Consistent(st)
    ensures Consistent(StartOutcome(st, sessionId, deliveryId, now).stores)
  {
  }

  lemma StopPreservesConsistent(st: Stores, sessionId: string, now: Time)
    requires Consistent(st)
    ensures Consistent(StopOutcome(st, sessionId, now).stores)
  {
  }

  /** A sample outside the bounds is refused with the code of the first
      bound it breaks, before either store is consulted: the outcome is the
      same whatever the stores hold, and they are left as they were. */
  lemma RecordRejectsInvalidSample(st: Stores, other: Stores, location: LocationUpdate)
    requires ValidateLocation(location).Some?
    ensures RecordOutcome(st, location) == Outcome(st, Some(RuleViolation(ValidateLocation(location).value)))
    ensures RecordOutcome(st, location).err == RecordOutcome(other, location).err
    ensures !LatitudeInRange(location.latitude) ==>
      RecordOutcome(st, location).err == Some(RuleViolation(ERR_INVALID_LATITUDE))
  {
  }

  /** Every failing RecordLocation leaves both stores unchanged; a
      successful one appends exactly the sample, with its new id, and
      touches no session. */
  lemma RecordFrame(st: Stores, location: LocationUpdate)
    ensures RecordOutcome(st, location).err.Some? ==> RecordOutcome(st, location).stores == st
    ensures RecordOutcome(st, location).err.None? ==>
      RecordOutcome(st, location).stores ==
        st.(locations := st.locations + [location.(id := |st.locations| + 1)])
  {
  }

  /** RecordLocation succeeds exactly when the sample is in bounds, its
      session exists and is active, and no store operation on the way fails. */
  lemma RecordSucceedsIff(st: Stores, location: LocationUpdate)
    ensures RecordOutcome(st, location).err.None? <==>
      && ValidateLocation(location).None?
      && GetSession !in st.sessionFaults
      && location.sessionId in st.sessions
      && st.sessions[location.sessionId].isActive
      && CreateLocation !in st.locationFaults
  {
  }

  /** A valid sample for an unknown session is refused as not found; for an
      existing but inactive session with SESSION_INACTIVE; a failing insert
      is reported as a failed record. */
  lemma RecordErrorPaths(st: Stores, location: LocationUpdate)
    requires ValidateLocation(location).None? && GetSession !in st.sessionFaults
    ensures location.sessionId !in st.sessions ==>
      RecordOutcome(st, location) == Outcome(st, Some(SessionLookupFailed(NoRows)))
    ensures location.sessionId in st.sessions && !st.sessions[location.sessionId].isActive ==>
      RecordOutcome(st, location) == Outcome(st, Some(RuleViolation(ERR_SESSION_INACTIVE)))
    ensures location.sessionId in st.sessions && st.sessions[location.sessionId].isActive &&
            CreateLocation in st.locationFaults ==>
      RecordOutcome(st, location) == Outcome(st, Some(RecordFailed(Rejected)))
  {
  }

  /** StartTracking writes exactly the new active session without an end
      time, or returns the create error and changes nothing. */
  lemma StartWritesSession(st: Stores, sessionId: string, deliveryId: string, now: Time)
    ensures var o := StartOutcome(st, sessionId, deliveryId, now);
      && (o.err.None? <==> CreateSession !in st.sessionFaults && sessionId !in st.sessions)
      && (o.err.None? ==>
            && o.stores.sessions == st.sessions[sessionId := NewSession(sessionId, deliveryId, now)]
            && o.stores.sessions[sessionId].sessionId == sessionId
            && o.stores.sessions[sessionId].deliveryId == deliveryId
            && o.stores.sessions[sessionId].startTime == now
            && o.stores.sessions[sessionId].isActive
            && o.stores.sessions[sessionId].endTime.None?)
      && (sessionId in st.sessions && CreateSession !in st.sessionFaults ==>
            o.err == Some(StoreFailed(UniqueViolation)))
      && (o.err.Some? ==> o.stores == st)
      && o.stores.locations == st.locations
  {
  }

  /** StopTracking fails exactly when the lookup fails, the session is
      missing or the update fails, and then changes nothing; a missing
      session returns the lookup error. On success it sets the end time and
      clears the active flag, keeping every other field and every other
      session. */
  lemma StopUpdatesSession(st: Stores, sessionId: string, now: Time)
    ensures var o := StopOutcome(st, sessionId, now);
      && (o.err.Some? ==> o.stores == st)
      && (o.err.None? <==>
            GetSession !in st.sessionFaults && sessionId in st.sessions && UpdateSession !in st.sessionFaults)
      && (GetSession !in st.sessionFaults && sessionId !in st.sessions ==>
            o == Outcome(st, Some(StoreFailed(NoRows))))
      && (o.err.None? ==>
            && o.stores.sessions.Keys == st.sessions.Keys
            && o.stores.sessions[sessionId].endTime == Some(now)
            && !o.stores.sessions[sessionId].isActive
            && o.stores.sessions[sessionId].sessionId == st.sessions[sessionId].sessionId
            && o.stores.sessions[sessionId].deliveryId == st.sessions[sessionId].deliveryId
            && o.stores.sessions[sessionId].startTime == st.sessions[sessionId].startTime
            && (forall k :: k in st.sessions && k != sessionId ==> o.stores.sessions[k] == st.sessions[k]))
      && o.stores.locations == st.locations
  {
  }

  /** Stopping a stopped session succeeds again and overwrites its end time. */
  lemma StopTwiceOverwritesEndTime(st: Stores, sessionId: string, first: Time, second: Time)
    requires sessionId in st.sessions
    requires GetSession !in st.sessionFaults && UpdateSession !in st.sessionFaults
    ensures var again := StopOutcome(StopOutcome(st, sessionId, first).stores, sessionId, second);
      && again.err.None?
      && again.stores.sessions[sessionId].endTime == Some(second)
      && !again.stores.sessions[sessionId].isActive
  {
    var once := StopOutcome(st, sessionId, first);
    assert sessionId in once.stores.sessions;
  }

  /** A sample sent before any start for its session is refused as not
      found and stores no row. */
  lemma RecordBeforeStartRefused(sessionFaults: set<StoreOp>, locationFaults: set<StoreOp>, location: LocationUpdate)
    requires ValidateLocation(location).None? && GetSession !in sessionFaults
    ensures var st := Stores(map[], sessionFaults, [], locationFaults);
      RecordOutcome(st, location) == Outcome(st, Some(SessionLookupFailed(NoRows)))
  {
  }

  /** After a start, a valid sample for that session is stored as exactly
      one row; after the stop that follows, samples are refused with
      SESSION_INACTIVE and no further row is stored. */
  lemma StartRecordStopRecord(st: Stores, location: LocationUpdate, started: Time, stopped: Time)
    requires ValidateLocation(location).None?
    requires location.sessionId !in st.sessions && st.sessionFaults == {} && st.locationFaults == {}
    ensures var s1 := StartOutcome(st, location.sessionId, location.deliveryId, started).stores;
      var r1 := RecordOutcome(s1, location);
      var s2 := StopOutcome(r1.stores, location.sessionId, stopped).stores;
      var r2 := RecordOutcome(s2, location);
      && r1.err.None?
      && RowsOf(r1.stores.locations, location.sessionId) ==
           RowsOf(st.locations, location.sessionId) + [location.(id := |st.locations| + 1)]
      && r2 == Outcome(s2, Some(RuleViolation(ERR_SESSION_INACTIVE)))
  {
    var s1 := StartOutcome(st, location.sessionId, location.deliveryId, started).stores;
    RowsOfAppend(s1.locations, location.(id := |st.locations| + 1), location.sessionId);
  }

  /** The service, holding its two stores. */
  class LocationService {
    const locationRepo: LocationRepository
    const sessionRepo: SessionRepository

    /** NewLocationService. */
    constructor (locationRepo: LocationRepository, sessionRepo: SessionRepository)
      requires sessionRepo.Valid()
      ensures this.locationRepo == locationRepo && this.sessionRepo == sessionRepo
      ensures Valid()
    {
      this.locationRepo := locationRepo;
      this.sessionRepo := sessionRepo;
    }

    predicate Valid()
      reads this, sessionRepo
    {
      sessionRepo.Valid()
    }

    /** The stores as a value. */
    function State(): Stores
      reads this, sessionRepo, locationRepo
    {
      Stores(sessionRepo.sessions, sessionRepo.failing, locationRepo.rows, locationRepo.failing)
    }

    method RecordLocation(location: LocationUpdate) returns (err: Option<ServiceError>)
      requires Valid()
      modifies locationRepo`rows
      ensures Valid()
      ensures Outcome(State(), err) == RecordOutcome(old(State()), location)
    {
      var invalid := ValidateLocation(location);
      if invalid.Some? {
        return Some(RuleViolation(invalid.value));
      }
      var found := sessionRepo.GetByID(location.sessionId);
      if found.Err? {
        return Some(SessionLookupFailed(found.error));
      }
      if !found.value.isActive {
        return Some(RuleViolation(ERR_SESSION_INACTIVE));
      }
      var created := locationRepo.Create(location);
      if created.Some? {
        return Some(RecordFailed(created.value));
      }
      err := None;
    }

    method StartTracking(sessionId: string, deliveryId: string, now: Time) returns (err: Option<ServiceError>)
      requires Valid()
      modifies sessionRepo`sessions
      ensures Valid()
      ensures Outcome(State(), err) == StartOutcome(old(State()), sessionId, deliveryId, now)
    {
      var session := NewSession(sessionId, deliveryId, now);
      var created := sessionRepo.Create(session);
      err := if created.Some? then Some(StoreFailed(created.value)) else None;
    }

    method StopTracking(sessionId: string, now: Time) returns (err: Option<ServiceError>)
      requires Valid()
      modifies sessionRepo`sessions
      ensures Valid()
      ensures Outcome(State(), err) == StopOutcome(old(State()), sessionId, now)
    {
      var found := sessionRepo.GetByID(sessionId);
      if found.Err? {
        return Some(StoreFailed(found.error));
      }
      var session := found.value.(endTime := Some(now), isActive := false);
      var updated := sessionRepo.Update(session);
      err := if updated.Some? then Some(StoreFailed(updated.value)) else None;
    }

    /** GetSessionRoute: every stored row of the session, oldest first. */
    method GetSessionRoute(sessionId: string) returns (r: Result<seq<LocationUpdate>, StoreError>)
      ensures QuerySessionRoute in locationRepo.failing ==> r == Err(Rejected)
      ensures QuerySessionRoute !in locationRepo.failing ==> r == Ok(RowsOf(locationRepo.rows, sessionId))
    {
      r := locationRepo.GetBySessionID(sessionId);
    }
  }
}
