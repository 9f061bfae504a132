/**
 * RoomService: the room catalogue (read, create, full replacement,
 * delete) and the availability search with its date-order guard.
 */
module Rooms {
  import opened Wrappers
  import opened Calendar
  import opened Text
  import opened Seqs
  import opened Domain
  import opened Errors
  import opened ReservationRepository
  import opened RoomRepository
  import opened Database
  import opened Reservations

  /** getRoomById. */
  function GetRoomById(rooms: seq<Room>, id: int): (r: Result<Room, Exception>)
    ensures r.Success? <==> HasKey(rooms, RoomId, id)
    ensures r.Failure? ==> r.error == RuntimeError(Some(WithId(RoomNotFoundText, id)))
    ensures r.Success? ==> r.value in rooms && r.value.id == id
  {
    var found := FindByKey(rooms, RoomId, id);
    if found.None? then Failure(RuntimeError(Some(WithId(RoomNotFoundText, id))))
    else Success(found.value)
  }

  /** findAvailableRooms: refused when check-in is after check-out; equal dates pass. */
  function FindAvailableRoomsChecked(rooms: seq<Room>, rs: seq<Reservation>, checkIn: Day, checkOut: Day): (r: Result<seq<Room>, Exception>)
    ensures r.Failure? <==> checkIn > checkOut
    ensures r.Failure? ==> r.error == IllegalArgument(Some(DateOrderText))
    ensures r.Success? ==> r.value == FindAvailableRooms(rooms, rs, checkIn, checkOut)
  {
    if checkIn > checkOut then Failure(IllegalArgument(Some(DateOrderText)))
    else Success(FindAvailableRooms(rooms, rs, checkIn, checkOut))
  }

  /**
   * A room the search offers can be booked for those dates: the booking
   * service's overlap check finds nothing for it (when every stored stay
   * has ordered dates).
   */
  lemma OfferedRoomCanBeBooked(users: seq<User>, rooms: seq<Room>, rs: seq<Reservation>, room: Room,
                               dto: ReservationDto, caller: Principal, uuid: string)
    requires forall res :: res in rs ==> res.checkIn <= res.checkOut
    requires dto.checkIn.Some? && dto.checkOut.Some? && IsUuidText(uuid)
    requires FindAvailableRoomsChecked(rooms, rs, dto.checkIn.value, dto.checkOut.value).Success?
    requires room in FindAvailableRoomsChecked(rooms, rs, dto.checkIn.value, dto.checkOut.value).value
    requires dto.roomId == room.id
    requires FindUserByUsername(users, caller.username).Some?
    ensures CreateReservationResult(users, rooms, rs, dto, caller, uuid).Success?
  {
    AvailableIffNoOverlap(rooms, rs, room, dto.checkIn.value, dto.checkOut.value);
    assert HasKey(rooms, RoomId, dto.roomId);
  }

  /** getRoomsByMinCapacity: rooms holding at least that many guests. */
  function GetRoomsByMinCapacity(rooms: seq<Room>, capacity: int): (r: seq<Room>)
    ensures forall x :: x in r <==> x in rooms && x.capacity >= capacity
  {
    FindByCapacityGreaterThanEqual(rooms, capacity)
  }

  /**
   * Some stored room other than the one with this id already has the
   * number: saving it again would break the unique column.
   */
  function NumberTakenByOther(rooms: seq<Room>, roomNumber: string, id: int): (b: bool)
    ensures b <==> exists x :: x in rooms && x.roomNumber == roomNumber && x.id != id
  {
    FindFirst(rooms, (x: Room) => x.roomNumber == roomNumber && x.id != id).Some?
  }

  /**
   * The room createRoom stores under a fresh id, or the database's refusal
   * when a stored room already has its number (Room.roomNumber is unique).
   */
  function CreateRoomResult(rooms: seq<Room>, room: Room): (r: Result<Room, Exception>)
    ensures r.Failure? <==> exists x :: x in rooms && x.roomNumber == room.roomNumber
    ensures r.Failure? ==> r.error == DataIntegrityViolation(None)
    ensures r.Success? ==> r.value == room.(id := NextKey(rooms, RoomId)) && !HasKey(rooms, RoomId, r.value.id)
  {
    if FindByRoomNumber(rooms, room.roomNumber).Some? then Failure(DataIntegrityViolation(None))
    else Success(room.(id := NextKey(rooms, RoomId)))
  }

  /**
   * The result of updateRoom: the whole supplied room under the path's id,
   * unless the id is missing or another room already has the number.
   */
  function UpdateRoomResult(rooms: seq<Room>, id: int, room: Room): (r: Result<Room, Exception>)
    ensures r.Failure? <==> !HasKey(rooms, RoomId, id) || exists x :: x in rooms && x.roomNumber == room.roomNumber && x.id != id
    ensures !HasKey(rooms, RoomId, id) ==> r == Failure(RuntimeError(Some(WithId(RoomNotFoundText, id))))
    ensures HasKey(rooms, RoomId, id) && (exists x :: x in rooms && x.roomNumber == room.roomNumber && x.id != id) ==>
              r == Failure(DataIntegrityViolation(None))
    ensures r.Success? ==> r.value == room.(id := id)
  {
    if !ExistsById(rooms, id) then Failure(RuntimeError(Some(WithId(RoomNotFoundText, id))))
    else if NumberTakenByOther(rooms, room.roomNumber, id) then Failure(DataIntegrityViolation(None))
    else Success(room.(id := id))
  }

  /** While room numbers are unique, findByRoomNumber finds exactly the room holding the number. */
  lemma FindByRoomNumberIsTheRoom(rooms: seq<Room>, x: Room)
    requires UniqueKeys(rooms, RoomId) && RoomNumbersUnique(rooms) && x in rooms
    ensures FindByRoomNumber(rooms, x.roomNumber) == Some(x)
  {
    var y := FindByRoomNumber(rooms, x.roomNumber).value;
    var i :| 0 <= i < |rooms| && rooms[i] == y;
    var j :| 0 <= j < |rooms| && rooms[j] == x;
    assert i == j;
  }

  /** A created room keeps the numbers unique and is the one its number finds. */
  lemma CreatedRoomFoundByNumber(rooms: seq<Room>, room: Room)
    requires UniqueKeys(rooms, RoomId) && RoomNumbersUnique(rooms)
    requires CreateRoomResult(rooms, room).Success?
    ensures var after := rooms + [CreateRoomResult(rooms, room).value];
            RoomNumbersUnique(after) && FindByRoomNumber(after, room.roomNumber) == Some(CreateRoomResult(rooms, room).value)
  {
    var saved := CreateRoomResult(rooms, room).value;
    AppendFreshKeepsKeys(rooms, RoomId, saved);
    FindByRoomNumberIsTheRoom(rooms + [saved], saved);
  }

  /** existsById. */
  function ExistsById(rooms: seq<Room>, id: int): (b: bool)
    ensures b <==> HasKey(rooms, RoomId, id)
  {
    FindByKey(rooms, RoomId, id).Some?
  }

  /**
   * updateRoom replaces, it does not merge: afterwards the room reads back
   * as exactly the supplied one, by id and by number, and every other id
   * reads as before.
   */
  lemma UpdateRoomReadsBack(rooms: seq<Room>, id: int, room: Room, other: int)
    requires UniqueKeys(rooms, RoomId) && RoomNumbersUnique(rooms)
    requires UpdateRoomResult(rooms, id, room).Success?
    ensures var after := ReplaceByKey(rooms, RoomId, UpdateRoomResult(rooms, id, room).value);
            GetRoomById(after, id) == Success(room.(id := id)) &&
            FindByRoomNumber(after, room.roomNumber) == Some(room.(id := id)) &&
            (other != id ==> GetRoomById(after, other) == GetRoomById(rooms, other))
  {
    var x := room.(id := id);
    ReplaceFind(rooms, RoomId, x, id);
    ReplaceFind(rooms, RoomId, x, other);
    var after := ReplaceByKey(rooms, RoomId, x);
    ReplaceKeepsKeys(rooms, RoomId, x);
    ReplaceKeepsRoomNumbersUnique(rooms, x);
    FindByKeyUnique(after, RoomId, x);
    FindByRoomNumberIsTheRoom(after, x);
  }

  /** After deleteRoom the id is gone and every other id reads as before. */
  lemma DeleteRoomReadsBack(rooms: seq<Room>, id: int, other: int)
    requires UniqueKeys(rooms, RoomId)
    ensures GetRoomById(RemoveByKey(rooms, RoomId, id), id).Failure?
    ensures other != id ==> GetRoomById(RemoveByKey(rooms, RoomId, id), other) == GetRoomById(rooms, other)
  {
    RemoveFind(rooms, RoomId, id, other);
  }

  class RoomService {
    const db: HotelDatabase

    constructor (db: HotelDatabase)
      ensures this.db == db
    {
      this.db := db;
    }

    /** createRoom: stores the supplied room under a fresh id and returns it. */
    method CreateRoom(room: Room) returns (r: Result<Room, Exception>)
      requires db.Valid()
      modifies db`rooms
      ensures db.Valid()
      ensures r == CreateRoomResult(old(db.rooms), room)
      ensures db.rooms == if r.Success? then old(db.rooms) + [r.value] else old(db.rooms)
    {
      r := CreateRoomResult(db.rooms, room);
      if r.Failure? {
        return;
      }
      AppendFreshKeepsKeys(db.rooms, RoomId, r.value);
      db.rooms := db.rooms + [r.value];
    }

    /** updateRoom. */
    method UpdateRoom(id: int, room: Room) returns (r: Result<Room, Exception>)
      requires db.Valid()
      modifies db`rooms
      ensures db.Valid()
      ensures r == UpdateRoomResult(old(db.rooms), id, room)
      ensures db.rooms == if r.Success? then ReplaceByKey(old(db.rooms), RoomId, r.value) else old(db.rooms)
    {
      if !ExistsById(db.rooms, id) {
        return Failure(RuntimeError(Some(WithId(RoomNotFoundText, id))));
      }
      if NumberTakenByOther(db.rooms, room.roomNumber, id) {
        return Failure(DataIntegrityViolation(None));
      }
      var updated := room.(id := id);
      ReplaceKeepsKeys(db.rooms, RoomId, updated);
      ReplaceKeepsRoomNumbersUnique(db.rooms, updated);
      db.rooms := ReplaceByKey(db.rooms, RoomId, updated);
      r := Success(updated);
    }

    /** deleteRoom. */
    method DeleteRoom(id: int) returns (err: Option<Exception>)
      requires db.Valid()
      modifies db`rooms
      ensures db.Valid()
      ensures err.None? <==> HasKey(old(db.rooms), RoomId, id)
      ensures err.Some? ==> err.value == RuntimeError(Some(WithId(RoomNotFoundText, id))) && db.rooms == old(db.rooms)
      ensures err.None? ==> db.rooms == RemoveByKey(old(db.rooms), RoomId, id)
    {
      if !ExistsById(db.rooms, id) {
        return Some(RuntimeError(Some(WithId(RoomNotFoundText, id))));
      }
      RemoveKeepsKeys(db.rooms, RoomId, id);
      db.rooms := RemoveByKey(db.rooms, RoomId, id);
      err := None;
    }
  }
}
