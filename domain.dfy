/** The server-owned records of internal/domain/location.go and the
    coordinate domain shared by both validators. */
module Domain {
  import opened Common

  /** One persisted telemetry sample. `id` is 0 until the location store
      assigns it; speed and heading are optional numbers copied through. */
  datatype LocationUpdate = LocationUpdate(
    id: int,
    sessionId: string,
    deliveryId: string,
    latitude: real,
    longitude: real,
    accuracy: real,
    speed: Option<real>,
    heading: Option<real>,
    recordedAt: Time)

  /** A tracking session, keyed by its session id. */
  datatype TrackingSession = TrackingSession(
    sessionId: string,
    deliveryId: string,
    startTime: Time,
    endTime: Option<Time>,
    isActive: bool)

  /** A rule violation, identified by its code. */
  datatype DomainError = DomainError(code: string, message: string)

  /** The closed ranges a coordinate and an accuracy must lie in. */
  predicate LatitudeInRange(latitude: real) { -90.0 <= latitude <= 90.0 }
  predicate LongitudeInRange(longitude: real) { -180.0 <= longitude <= 180.0 }
  predicate AccuracyInRange(accuracy: real) { 0.0 <= accuracy }
}
