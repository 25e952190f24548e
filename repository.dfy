/** The persistence boundary of internal/repository/repository.go as
    abstract in-memory stores: a session table keyed by session id and an
    append-only sequence of location rows. Which database operations fail
    is decided by the environment, through each store's `failing` set. */
module Repository {
  import opened Common
  import opened Domain

  /** Errors a store reports: no row for the key (sql.ErrNoRows), a second
      row with the same unique session id, or any other database failure. */
  datatype StoreError = NoRows | UniqueViolation | Rejected

  /** The repository operations the core uses; a member of a store's
      `failing` set is one the database currently rejects. */
  datatype StoreOp = CreateSession | GetSession | UpdateSession | CreateLocation | QuerySessionRoute

  /** Every session is filed under its own session id. */
  predicate KeyedBySessionId(sessions: map<string, TrackingSession>)
  {
    forall id :: id in sessions ==> sessions[id].sessionId == id
  }

  /** The rows recorded for one session, in the order they were stored. */
  function RowsOf(rows: seq<LocationUpdate>, sessionId: string): (r: seq<LocationUpdate>)
    ensures |r| <= |rows|
    ensures forall i :: 0 <= i < |r| ==> r[i].sessionId == sessionId && r[i] in rows
  {
    if rows == [] then []
    else
      var last := rows[|rows| - 1];
      RowsOf(rows[..|rows| - 1], sessionId) + (if last.sessionId == sessionId then [last] else [])
  }

  /** RowsOf misses no row of the session. */
  lemma {:induction false} RowsOfComplete(rows: seq<LocationUpdate>, sessionId: string, i: nat)
    requires i < |rows| && rows[i].sessionId == sessionId
    ensures rows[i] in RowsOf(rows, sessionId)
  {
    if i < |rows| - 1 {
      RowsOfComplete(rows[..|rows| - 1], sessionId, i);
    }
  }

  /** A row appended for the session ends its route; one for another
      session leaves the route as it was. */
  lemma RowsOfAppend(rows: seq<LocationUpdate>, row: LocationUpdate, sessionId: string)
    ensures RowsOf(rows + [row], sessionId) ==
      RowsOf(rows, sessionId) + (if row.sessionId == sessionId then [row] else [])
  {
    assert (rows + [row])[..|rows|] == rows;
  }

  /** The tracking_sessions table behind SessionRepository. */
  class SessionRepository {
    var sessions: map<string, TrackingSession>
    var failing: set<StoreOp>

    predicate Valid()
      reads this
    {
      KeyedBySessionId(sessions)
    }

    constructor (failing: set<StoreOp>)
      ensures Valid()
      ensures sessions == map[] && this.failing == failing
    {
      sessions := map[];
      this.failing := failing;
    }

    /** INSERT of a new session; the session id is the unique key. */
    method Create(session: TrackingSession) returns (err: Option<StoreError>)
      requires Valid()
      modifies this`sessions
      ensures Valid()
      ensures err == if CreateSession in failing then Some(Rejected)
                     else if session.sessionId in old(sessions) then Some(UniqueViolation)
                     else None
      ensures sessions == if err.None? then old(sessions)[session.sessionId := session] else old(sessions)
    {
      if CreateSession in failing {
        err := Some(Rejected);
      } else if session.sessionId in sessions {
        err := Some(UniqueViolation);
      } else {
        sessions := sessions[session.sessionId := session];
        err := None;
      }
    }

    /** SELECT of one session by its id. */
    method GetByID(sessionId: string) returns (r: Result<TrackingSession, StoreError>)
      requires Valid()
      ensures GetSession in failing ==> r == Err(Rejected)
      ensures GetSession !in failing ==> (r.Ok? <==> sessionId in sessions)
      ensures GetSession !in failing && r.Err? ==> r.error == NoRows
      ensures r.Ok? ==> sessionId in sessions && r.value == sessions[sessionId]
      ensures r.Ok? ==> r.value.sessionId == sessionId
    {
      if GetSession in failing {
        r := Err(Rejected);
      } else if sessionId in sessions {
        r := Ok(sessions[sessionId]);
      } else {
        r := Err(NoRows);
      }
    }

    /** UPDATE of the row with the session's id; like SQL, an update that
        matches no row succeeds and changes nothing. */
    method Update(session: TrackingSession) returns (err: Option<StoreError>)
      requires Valid()
      modifies this`sessions
      ensures Valid()
      ensures err == if UpdateSession in failing then Some(Rejected) else None
      ensures sessions == if err.None? && session.sessionId in old(sessions)
                          then old(sessions)[session.sessionId := session]
                          else old(sessions)
    {
      if UpdateSession in failing {
        err := Some(Rejected);
      } else {
        if session.sessionId in sessions {
          sessions := sessions[session.sessionId := session];
        }
        err := None;
      }
    }
  }

  /** The location_updates table behind LocationRepository. */
  class LocationRepository {
    var rows: seq<LocationUpdate>
    var failing: set<StoreOp>

    constructor (failing: set<StoreOp>)
      ensures rows == [] && this.failing == failing
    {
      rows := [];
      this.failing := failing;
    }

    /** INSERT of one row; the store assigns the next serial id. */
    method Create(location: LocationUpdate) returns (err: Option<StoreError>)
      modifies this`rows
      ensures err == if CreateLocation in failing then Some(Rejected) else None
      ensures rows == if err.None? then old(rows) + [location.(id := |old(rows)| + 1)] else old(rows)
    {
      if CreateLocation in failing {
        err := Some(Rejected);
      } else {
        rows := rows + [location.(id := |rows| + 1)];
        err := None;
      }
    }

    /** SELECT of every row of one session. */
    method GetBySessionID(sessionId: string) returns (r: Result<seq<LocationUpdate>, StoreError>)
      ensures r == if QuerySessionRoute in failing then Err(Rejected) else Ok(RowsOf(rows, sessionId))
    {
      if QuerySessionRoute in failing {
        return Err(Rejected);
      }
      var found: seq<LocationUpdate> := [];
      var i := 0;
      while i < |rows|
        invariant 0 <= i <= |rows|
        invariant found == RowsOf(rows[..i], sessionId)
      {
        assert rows[..i + 1][..i] == rows[..i];
        if rows[i].sessionId == sessionId {
          found := found + [rows[i]];
        }
        i := i + 1;
      }
      assert rows[..i] == rows;
      r := Ok(found);
    }
  }
}
