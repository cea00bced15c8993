/** The ride directory's data: rides with their participants and chat
    messages, held in one store value. */
module Rides {
  import opened Wrappers

  /** A point on the map, in degrees. */
  datatype Coord = Coord(lat: real, lng: real)

  /** The acting user. The prototype has a single hard-wired one. */
  datatype User = User(id: string, name: string)

  /** The only attendance state a participant can have. */
  datatype Attendance = Going

  /** The only status a ride is ever given. */
  datatype RideStatus = Scheduled

  datatype Participant = Participant(userId: string, name: string, status: Attendance)

  /** A chat message; `createdAt` is an instant in milliseconds. */
  datatype Message = Message(id: string, author: string, body: string, createdAt: int)

  /** A ride listing. `startTime` is an instant in milliseconds; `pace` and
      `bikeType` are the option labels chosen in the form (for instance
      "Medio", "Strada"); `notes` may be missing in stored data. */
  datatype Ride = Ride(
    id: string,
    organizerId: string,
    title: string,
    startTime: int,
    meetingPoint: Coord,
    pace: string,
    bikeType: string,
    distanceKm: real,
    elevationM: real,
    maxParticipants: real,
    notes: Option<string>,
    status: RideStatus,
    participants: seq<Participant>,
    messages: seq<Message>)

  /** The whole client-side store. */
  datatype Store = Store(rides: seq<Ride>)

  /** The prototype's mock user. */
  const CurrentUser := User("u_demo", "Ciclista Demo")

  /** The participant entry a user gets when joining or creating a ride. */
  function GoingEntry(u: User): Participant {
    Participant(u.id, u.name, Going)
  }

  /** Some participant has user id `uid` (the source's `some`/`find`). */
  predicate HasUser(ps: seq<Participant>, uid: string) {
    exists i :: 0 <= i < |ps| && ps[i].userId == uid
  }

  /** No two participants share a user id. */
  predicate UniqueUsers(ps: seq<Participant>) {
    forall i, j :: 0 <= i < j < |ps| ==> ps[i].userId != ps[j].userId
  }

  /** Some ride of the store has id `id`. */
  predicate HasRide(s: Store, id: string) {
    exists i :: 0 <= i < |s.rides| && s.rides[i].id == id
  }

  /** The store invariant: every ride's participant list is free of
      duplicate user ids. */
  predicate WellFormed(s: Store) {
    forall i :: 0 <= i < |s.rides| ==> UniqueUsers(s.rides[i].participants)
  }

  /** Start time, as a key for sorting. */
  function StartTime(r: Ride): int {
    r.startTime
  }
}
