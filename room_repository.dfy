/**
 * RoomRepository: the availability queries are a NOT IN over the rooms
 * referenced by any clashing reservation, whatever that reservation's status.
 */
module RoomRepository {
  import opened Wrappers
  import opened Calendar
  import opened Seqs
  import opened Domain
  import opened ReservationRepository

  /** The subquery's condition: a stored reservation keeps its room out of [checkIn, checkOut]. */
  predicate Blocks(res: Reservation, checkIn: Day, checkOut: Day) {
    Between(checkIn, res.checkIn, res.checkOut) ||
    Between(checkOut, res.checkIn, res.checkOut) ||
    Between(res.checkIn, checkIn, checkOut)
  }

  /** The subquery: ids of rooms with a blocking reservation. */
  function BookedRoomIds(rs: seq<Reservation>, checkIn: Day, checkOut: Day): (ids: set<int>)
    ensures forall res :: res in rs && Blocks(res, checkIn, checkOut) ==> res.roomId in ids
    ensures forall id :: id in ids ==> exists res :: res in rs && Blocks(res, checkIn, checkOut) && res.roomId == id
  {
    set res | res in rs && Blocks(res, checkIn, checkOut) :: res.roomId
  }

  /** findAvailableRooms. */
  function FindAvailableRooms(rooms: seq<Room>, rs: seq<Reservation>, checkIn: Day, checkOut: Day): (r: seq<Room>)
    ensures forall x :: x in r <==>
              x in rooms && forall res :: res in rs && res.roomId == x.id ==> !Blocks(res, checkIn, checkOut)
    ensures |r| <= |rooms|
  {
    Filter(rooms, (x: Room) => x.id !in BookedRoomIds(rs, checkIn, checkOut))
  }

  /** For ordered ranges, blocking is closed-interval intersection too. */
  lemma BlocksIsIntersection(res: Reservation, checkIn: Day, checkOut: Day)
    requires checkIn <= checkOut && res.checkIn <= res.checkOut
    ensures Blocks(res, checkIn, checkOut) <==> checkIn <= res.checkOut && res.checkIn <= checkOut
  {
  }

  /**
   * With ordered dates, a room is offered as available exactly when the
   * overlap query the booking service runs finds nothing for it.
   */
  lemma AvailableIffNoOverlap(rooms: seq<Room>, rs: seq<Reservation>, room: Room, checkIn: Day, checkOut: Day)
    requires room in rooms
    requires checkIn <= checkOut
    requires forall res :: res in rs ==> res.checkIn <= res.checkOut
    ensures room in FindAvailableRooms(rooms, rs, checkIn, checkOut) <==>
            FindOverlappingReservations(rs, room.id, checkIn, checkOut) == []
  {
    var p := (x: Reservation) => x.roomId == room.id && Overlaps(x, checkIn, checkOut);
    FilterEmpty(rs, p);
    forall res | res in rs
      ensures Blocks(res, checkIn, checkOut) <==> Overlaps(res, checkIn, checkOut)
    {
      BlocksIsIntersection(res, checkIn, checkOut);
      OverlapIsIntersection(res, checkIn, checkOut);
    }
  }

  /** A room nobody has ever booked is always available. */
  lemma UnbookedRoomAvailable(rooms: seq<Room>, rs: seq<Reservation>, room: Room, checkIn: Day, checkOut: Day)
    requires room in rooms
    requires forall res :: res in rs ==> res.roomId != room.id
    ensures room in FindAvailableRooms(rooms, rs, checkIn, checkOut)
  {
  }

  /** A CANCELLED reservation still takes its room out of the availability list. */
  lemma CancelledReservationBlocks(rooms: seq<Room>, rs: seq<Reservation>, res: Reservation, checkIn: Day, checkOut: Day)
    requires res in rs && res.status == CANCELLED
    requires checkIn <= res.checkIn <= checkOut
    ensures forall x :: x in FindAvailableRooms(rooms, rs, checkIn, checkOut) ==> x.id != res.roomId
  {
  }

  /** findAvailableRoomsByType. */
  function FindAvailableRoomsByType(rooms: seq<Room>, rs: seq<Reservation>, roomType: string, checkIn: Day, checkOut: Day): (r: seq<Room>)
    ensures forall x :: x in r ==> x in rooms && x.roomType == roomType
  {
    Filter(rooms, (x: Room) => x.roomType == roomType && x.id !in BookedRoomIds(rs, checkIn, checkOut))
  }

  /** The typed query is the untyped one restricted to the type, order included. */
  lemma {:induction false} AvailableByTypeIsFilteredAvailable(rooms: seq<Room>, rs: seq<Reservation>, roomType: string, checkIn: Day, checkOut: Day)
    ensures FindAvailableRoomsByType(rooms, rs, roomType, checkIn, checkOut) ==
            Filter(FindAvailableRooms(rooms, rs, checkIn, checkOut), (x: Room) => x.roomType == roomType)
  {
    if rooms != [] {
      AvailableByTypeIsFilteredAvailable(rooms[1..], rs, roomType, checkIn, checkOut);
    }
  }

  /** findByRoomNumber. */
  function FindByRoomNumber(rooms: seq<Room>, roomNumber: string): (r: Option<Room>)
    ensures r.Some? ==> r.value in rooms && r.value.roomNumber == roomNumber
    ensures r.None? <==> forall x :: x in rooms ==> x.roomNumber != roomNumber
  {
    FindFirst(rooms, (x: Room) => x.roomNumber == roomNumber)
  }

  /** findByType. */
  function FindByType(rooms: seq<Room>, roomType: string): (r: seq<Room>)
    ensures forall x :: x in r <==> x in rooms && x.roomType == roomType
  {
    Filter(rooms, (x: Room) => x.roomType == roomType)
  }

  /** findByStatus. */
  function FindByStatus(rooms: seq<Room>, status: string): (r: seq<Room>)
    ensures forall x :: x in r <==> x in rooms && x.status == status
  {
    Filter(rooms, (x: Room) => x.status == status)
  }

  /** findByCapacityGreaterThanEqual: the bound itself qualifies. */
  function FindByCapacityGreaterThanEqual(rooms: seq<Room>, capacity: int): (r: seq<Room>)
    ensures forall x :: x in r <==> x in rooms && x.capacity >= capacity
  {
    Filter(rooms, (x: Room) => x.capacity >= capacity)
  }

  /** findByPricePerNightLessThanEqual: the bound itself qualifies. */
  function FindByPricePerNightLessThanEqual(rooms: seq<Room>, maxPrice: int): (r: seq<Room>)
    ensures forall x :: x in r <==> x in rooms && x.pricePerNight <= maxPrice
  {
    Filter(rooms, (x: Room) => x.pricePerNight <= maxPrice)
  }

  /** Raising the capacity threshold can only shrink the result. */
  lemma CapacityThresholdMonotone(rooms: seq<Room>, low: int, high: int)
    requires low <= high
    ensures forall x :: x in FindByCapacityGreaterThanEqual(rooms, high) ==> x in FindByCapacityGreaterThanEqual(rooms, low)
  {
  }
}
