/** The record shapes of the system (types.ts). */
module Types {

  datatype Option<T> = None | Some(value: T)

  /** One registration record. `timestamp` is optional in the source type. */
  datatype Attendee = Attendee(
    id: string,
    name: string,
    email: string,
    formFilled: bool,
    qrScanned: bool,
    locationVerified: bool,
    certificateSent: bool,
    timestamp: Option<string>)

  /** The event record. Coordinates and radius are floating-point numbers in
      the source; no computation here reads them. */
  datatype EventConfig = EventConfig(
    eventName: string,
    targetLat: real,
    targetLng: real,
    radiusMeters: real,
    certificateTemplate: Option<string>)

  /** Id, name, email, form flag and timestamp: the fields no status
      transition touches. */
  predicate SameIdentity(a: Attendee, b: Attendee) {
    a.id == b.id && a.name == b.name && a.email == b.email
    && a.formFilled == b.formFilled && a.timestamp == b.timestamp
  }

  /** The outcome of a request to the text-generation service. */
  datatype AiReply = AiText(text: string) | AiFailed
}
