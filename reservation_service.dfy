/**
 * ReservationService: booking a room for the caller, reading, editing and
 * cancelling a booking as its owner or as staff, and the unchecked status
 * overwrite. Each service call runs as one atomic step on the database.
 */
module Reservations {
  import opened Wrappers
  import opened Calendar
  import opened Text
  import opened Seqs
  import opened Domain
  import opened Errors
  import opened ReservationRepository
  import opened Database

  /** The ReservationDto fields the service reads; a null field is None. */
  datatype ReservationDto = ReservationDto(
    roomId: int,
    checkIn: Option<Day>,
    checkOut: Option<Day>,
    guests: int,
    totalPrice: Option<int>,
    status: Option<ReservationStatus>,
    specialRequests: Option<string>)

  /** generateReservationNumber: "RES-" and the UUID's first eight digits in upper case. */
  function GenerateReservationNumber(uuid: string): (n: string)
    requires IsUuidText(uuid)
    ensures |n| == 12 && n[..4] == "RES-"
    ensures forall i :: 4 <= i < 12 ==> IsUpperHex(n[i])
  {
    UuidCode("RES-", uuid)
  }

  /** The check of read, update and cancel: staff (ADMIN, MANAGER, RECEPTIONIST) or the booking's owner. */
  predicate MayHandle(user: User, r: Reservation) {
    IsStaff(user.role) || r.userId == user.id
  }

  /** getReservationById: the booking, if it exists and the caller may see it. */
  function GetReservationById(users: seq<User>, rs: seq<Reservation>, id: int, caller: Principal): (r: Result<Reservation, Exception>)
    ensures !HasKey(rs, ReservationId, id) ==> r == Failure(RuntimeError(Some(WithId(ReservationNotFoundText, id))))
    ensures HasKey(rs, ReservationId, id) && FindUserByUsername(users, caller.username).None? ==>
              r == Failure(RuntimeError(Some(UserNotFoundText)))
    ensures r.Failure? && r.error.AccessDenied? <==>
              HasKey(rs, ReservationId, id) && FindUserByUsername(users, caller.username).Some? &&
              !MayHandle(FindUserByUsername(users, caller.username).value, FindByKey(rs, ReservationId, id).value)
    ensures r.Failure? && r.error.AccessDenied? ==> r.error == AccessDenied(Some(ReservationReadDeniedText))
    ensures r.Success? ==> r.value in rs && r.value.id == id
  {
    var found := FindByKey(rs, ReservationId, id);
    if found.None? then Failure(RuntimeError(Some(WithId(ReservationNotFoundText, id))))
    else
      var user := FindUserByUsername(users, caller.username);
      if user.None? then Failure(RuntimeError(Some(UserNotFoundText)))
      else if !MayHandle(user.value, found.value) then
        Failure(AccessDenied(Some(ReservationReadDeniedText)))
      else Success(found.value)
  }

  /** A client sees exactly the bookings that are theirs. */
  lemma ClientReadsOnlyOwnReservations(users: seq<User>, rs: seq<Reservation>, id: int, caller: Principal)
    requires FindUserByUsername(users, caller.username).Some?
    requires FindUserByUsername(users, caller.username).value.role == CLIENT
    requires HasKey(rs, ReservationId, id)
    ensures GetReservationById(users, rs, id, caller).Success? <==>
            FindByKey(rs, ReservationId, id).value.userId == FindUserByUsername(users, caller.username).value.id
  {
  }

  /** The outcome of createReservation on the tables before the call. */
  function CreateReservationResult(users: seq<User>, rooms: seq<Room>, rs: seq<Reservation>,
                                   dto: ReservationDto, caller: Principal, uuid: string): (r: Result<Reservation, Exception>)
    requires dto.checkIn.Some? && dto.checkOut.Some? && IsUuidText(uuid)
    ensures FindUserByUsername(users, caller.username).None? ==> r == Failure(RuntimeError(Some(UserNotFoundText)))
    ensures FindUserByUsername(users, caller.username).Some? && !HasKey(rooms, RoomId, dto.roomId) ==>
              r == Failure(RuntimeError(Some(WithId(RoomNotFoundText, dto.roomId))))
    ensures FindUserByUsername(users, caller.username).Some? && HasKey(rooms, RoomId, dto.roomId) &&
            FindOverlappingReservations(rs, dto.roomId, dto.checkIn.value, dto.checkOut.value) != [] ==>
              r == Failure(RuntimeError(Some(RoomUnavailableText)))
    ensures r.Success? <==>
              FindUserByUsername(users, caller.username).Some? && HasKey(rooms, RoomId, dto.roomId) &&
              FindOverlappingReservations(rs, dto.roomId, dto.checkIn.value, dto.checkOut.value) == []
    ensures r.Success? ==>
              r.value.id == NextKey(rs, ReservationId) && !HasKey(rs, ReservationId, r.value.id) &&
              r.value.reservationNumber == GenerateReservationNumber(uuid) &&
              r.value.userId == FindUserByUsername(users, caller.username).value.id &&
              r.value.roomId == dto.roomId &&
              r.value.status == ReservationStatus.PENDING &&
              r.value.checkIn == dto.checkIn.value && r.value.checkOut == dto.checkOut.value &&
              r.value.guests == dto.guests && r.value.totalPrice == dto.totalPrice &&
              r.value.specialRequests == dto.specialRequests
  {
    var user := FindUserByUsername(users, caller.username);
    if user.None? then Failure(RuntimeError(Some(UserNotFoundText)))
    else if FindByKey(rooms, RoomId, dto.roomId).None? then Failure(RuntimeError(Some(WithId(RoomNotFoundText, dto.roomId))))
    else if FindOverlappingReservations(rs, dto.roomId, dto.checkIn.value, dto.checkOut.value) != [] then
      Failure(RuntimeError(Some(RoomUnavailableText)))
    else
      Success(Reservation(NextKey(rs, ReservationId), GenerateReservationNumber(uuid), user.value.id, dto.roomId,
                          dto.checkIn.value, dto.checkOut.value, dto.guests, dto.totalPrice,
                          ReservationStatus.PENDING, dto.specialRequests))
  }

  /**
   * Once a booking is stored, any later request for the same room whose
   * (ordered) dates meet the booked ones is refused as unavailable.
   */
  lemma DoubleBookingRefused(users: seq<User>, rooms: seq<Room>, rs: seq<Reservation>,
                             dto: ReservationDto, caller: Principal, uuid: string,
                             dto2: ReservationDto, caller2: Principal, uuid2: string)
    requires dto.checkIn.Some? && dto.checkOut.Some? && IsUuidText(uuid)
    requires dto2.checkIn.Some? && dto2.checkOut.Some? && IsUuidText(uuid2)
    requires CreateReservationResult(users, rooms, rs, dto, caller, uuid).Success?
    requires dto.checkIn.value <= dto.checkOut.value && dto2.checkIn.value <= dto2.checkOut.value
    requires dto2.roomId == dto.roomId
    requires dto2.checkIn.value <= dto.checkOut.value && dto.checkIn.value <= dto2.checkOut.value
    requires FindUserByUsername(users, caller2.username).Some?
    ensures CreateReservationResult(users, rooms, rs + [CreateReservationResult(users, rooms, rs, dto, caller, uuid).value],
                                    dto2, caller2, uuid2) == Failure(RuntimeError(Some(RoomUnavailableText)))
  {
    var booked := CreateReservationResult(users, rooms, rs, dto, caller, uuid).value;
    OverlapIsIntersection(booked, dto2.checkIn.value, dto2.checkOut.value);
    assert booked in FindOverlappingReservations(rs + [booked], dto2.roomId, dto2.checkIn.value, dto2.checkOut.value);
  }

  /** The setters updateReservation applies to the stored booking. */
  function ApplyReservationPatch(r: Reservation, dto: ReservationDto, staff: bool): (u: Reservation)
    ensures u.id == r.id && u.reservationNumber == r.reservationNumber
    ensures u.userId == r.userId && u.roomId == r.roomId && u.totalPrice == r.totalPrice
    ensures u.checkIn == (if dto.checkIn.Some? then dto.checkIn.value else r.checkIn)
    ensures u.checkOut == (if dto.checkOut.Some? then dto.checkOut.value else r.checkOut)
    ensures u.guests == (if dto.guests > 0 then dto.guests else r.guests)
    ensures u.specialRequests == (if dto.specialRequests.Some? then dto.specialRequests else r.specialRequests)
    ensures u.status == (if staff && dto.status.Some? then dto.status.value else r.status)
  {
    var u := r;
    var u := if dto.checkIn.Some? then u.(checkIn := dto.checkIn.value) else u;
    var u := if dto.checkOut.Some? then u.(checkOut := dto.checkOut.value) else u;
    var u := if dto.guests > 0 then u.(guests := dto.guests) else u;
    var u := if dto.specialRequests.Some? then u.(specialRequests := dto.specialRequests) else u;
    if staff && dto.status.Some? then u.(status := dto.status.value) else u
  }

  /** Sending the same edit twice is sending it once. */
  lemma PatchIdempotent(r: Reservation, dto: ReservationDto, staff: bool)
    ensures ApplyReservationPatch(ApplyReservationPatch(r, dto, staff), dto, staff) == ApplyReservationPatch(r, dto, staff)
  {
  }

  /** An edit that supplies nothing (all null, no positive guest count) changes nothing. */
  lemma EmptyPatchKeepsReservation(r: Reservation, dto: ReservationDto, staff: bool)
    requires dto.checkIn.None? && dto.checkOut.None? && dto.guests <= 0
    requires dto.specialRequests.None? && dto.status.None?
    ensures ApplyReservationPatch(r, dto, staff) == r
  {
  }

  /** A client's edit never changes the status, whatever the request says. */
  lemma ClientCannotChangeStatus(r: Reservation, dto: ReservationDto)
    ensures ApplyReservationPatch(r, dto, false).status == r.status
  {
  }

  /** The booking updateReservation saves, or why it saves nothing. */
  function UpdateReservationResult(users: seq<User>, rs: seq<Reservation>, id: int, dto: ReservationDto, caller: Principal): (r: Result<Reservation, Exception>)
    ensures !HasKey(rs, ReservationId, id) ==> r == Failure(RuntimeError(Some(WithId(ReservationNotFoundText, id))))
    ensures HasKey(rs, ReservationId, id) && FindUserByUsername(users, caller.username).None? ==>
              r == Failure(RuntimeError(Some(UserNotFoundText)))
    ensures r.Success? <==> GetReservationById(users, rs, id, caller).Success?
    ensures r.Failure? && r.error.AccessDenied? <==>
              GetReservationById(users, rs, id, caller).Failure? && GetReservationById(users, rs, id, caller).error.AccessDenied?
    ensures r.Failure? && r.error.AccessDenied? ==> r.error == AccessDenied(Some(ReservationUpdateDeniedText))
    ensures r.Success? ==>
              r.value == ApplyReservationPatch(FindByKey(rs, ReservationId, id).value, dto,
                                               IsStaff(FindUserByUsername(users, caller.username).value.role))
  {
    var found := FindByKey(rs, ReservationId, id);
    if found.None? then Failure(RuntimeError(Some(WithId(ReservationNotFoundText, id))))
    else
      var user := FindUserByUsername(users, caller.username);
      if user.None? then Failure(RuntimeError(Some(UserNotFoundText)))
      else if !MayHandle(user.value, found.value) then
        Failure(AccessDenied(Some(ReservationUpdateDeniedText)))
      else Success(ApplyReservationPatch(found.value, dto, IsStaff(user.value.role)))
  }

  /** The booking cancelReservation saves: the stored one, CANCELLED. */
  function CancelReservationResult(users: seq<User>, rs: seq<Reservation>, id: int, caller: Principal): (r: Result<Reservation, Exception>)
    ensures !HasKey(rs, ReservationId, id) ==> r == Failure(RuntimeError(Some(WithId(ReservationNotFoundText, id))))
    ensures HasKey(rs, ReservationId, id) && FindUserByUsername(users, caller.username).None? ==>
              r == Failure(RuntimeError(Some(UserNotFoundText)))
    ensures r.Failure? && r.error.AccessDenied? <==>
              HasKey(rs, ReservationId, id) && FindUserByUsername(users, caller.username).Some? &&
              !MayHandle(FindUserByUsername(users, caller.username).value, FindByKey(rs, ReservationId, id).value)
    ensures r.Failure? && r.error.AccessDenied? ==>
              r.error == AccessDenied(Some(ReservationCancelDeniedText))
    ensures r.Success? <==> GetReservationById(users, rs, id, caller).Success?
    ensures r.Success? ==> r.value == FindByKey(rs, ReservationId, id).value.(status := CANCELLED)
  {
    var found := FindByKey(rs, ReservationId, id);
    if found.None? then Failure(RuntimeError(Some(WithId(ReservationNotFoundText, id))))
    else
      var user := FindUserByUsername(users, caller.username);
      if user.None? then Failure(RuntimeError(Some(UserNotFoundText)))
      else if !MayHandle(user.value, found.value) then
        Failure(AccessDenied(Some(ReservationCancelDeniedText)))
      else Success(found.value.(status := CANCELLED))
  }

  /** Cancelling twice is cancelling once: the second call succeeds and saves the same table. */
  lemma CancelIdempotent(users: seq<User>, rs: seq<Reservation>, id: int, caller: Principal)
    requires UniqueKeys(rs, ReservationId)
    requires CancelReservationResult(users, rs, id, caller).Success?
    ensures var once := ReplaceByKey(rs, ReservationId, CancelReservationResult(users, rs, id, caller).value);
            CancelReservationResult(users, once, id, caller).Success? &&
            ReplaceByKey(once, ReservationId, CancelReservationResult(users, once, id, caller).value) == once
  {
    var cancelled := CancelReservationResult(users, rs, id, caller).value;
    var once := ReplaceByKey(rs, ReservationId, cancelled);
    ReplaceFind(rs, ReservationId, cancelled, id);
    ReplaceKeepsKeys(rs, ReservationId, cancelled);
    assert FindByKey(once, ReservationId, id) == Some(cancelled);
    ReplaceTwice(rs, ReservationId, cancelled, cancelled);
  }

  /** updateReservationStatus: any status over any status, with no check on the caller. */
  function UpdateReservationStatusResult(rs: seq<Reservation>, id: int, status: ReservationStatus): (r: Result<Reservation, Exception>)
    ensures r.Success? <==> HasKey(rs, ReservationId, id)
    ensures r.Failure? ==> r.error == RuntimeError(Some(WithId(ReservationNotFoundText, id)))
    ensures r.Success? ==> r.value == FindByKey(rs, ReservationId, id).value.(status := status)
  {
    var found := FindByKey(rs, ReservationId, id);
    if found.None? then Failure(RuntimeError(Some(WithId(ReservationNotFoundText, id))))
    else Success(found.value.(status := status))
  }

  /** Of two status overwrites only the later one shows. */
  lemma StatusOverwriteLastWins(rs: seq<Reservation>, id: int, s1: ReservationStatus, s2: ReservationStatus)
    requires UniqueKeys(rs, ReservationId) && HasKey(rs, ReservationId, id)
    ensures var first := ReplaceByKey(rs, ReservationId, UpdateReservationStatusResult(rs, id, s1).value);
            UpdateReservationStatusResult(first, id, s2).Success? &&
            ReplaceByKey(first, ReservationId, UpdateReservationStatusResult(first, id, s2).value) ==
            ReplaceByKey(rs, ReservationId, UpdateReservationStatusResult(rs, id, s2).value)
  {
    var x := UpdateReservationStatusResult(rs, id, s1).value;
    ReplaceFind(rs, ReservationId, x, id);
    ReplaceKeepsKeys(rs, ReservationId, x);
    ReplaceTwice(rs, ReservationId, x, UpdateReservationStatusResult(rs, id, s2).value);
  }

  /** getUserReservations: the caller's bookings, and only theirs. */
  function GetUserReservations(users: seq<User>, rs: seq<Reservation>, caller: Principal): (r: Result<seq<Reservation>, Exception>)
    ensures r.Failure? <==> FindUserByUsername(users, caller.username).None?
    ensures r.Failure? ==> r.error == RuntimeError(Some(UserNotFoundText))
    ensures r.Success? ==> forall x :: x in r.value <==> x in rs && x.userId == FindUserByUsername(users, caller.username).value.id
  {
    var user := FindUserByUsername(users, caller.username);
    if user.None? then Failure(RuntimeError(Some(UserNotFoundText)))
    else Success(FindByUser(rs, user.value.id))
  }

  /** The service object, over the shared database. */
  class ReservationService {
    const db: HotelDatabase

    constructor (db: HotelDatabase)
      ensures this.db == db
    {
      this.db := db;
    }

    /** createReservation: stores a PENDING booking for the caller, or nothing. */
    method CreateReservation(dto: ReservationDto, caller: Principal, uuid: string) returns (r: Result<Reservation, Exception>)
      requires db.Valid()
      requires dto.checkIn.Some? && dto.checkOut.Some? && IsUuidText(uuid)
      modifies db`reservations
      ensures db.Valid()
      ensures r == CreateReservationResult(db.users, db.rooms, old(db.reservations), dto, caller, uuid)
      ensures db.reservations == if r.Success? then old(db.reservations) + [r.value] else old(db.reservations)
    {
      var user := FindUserByUsername(db.users, caller.username);
      if user.None? {
        return Failure(RuntimeError(Some(UserNotFoundText)));
      }
      var room := FindByKey(db.rooms, RoomId, dto.roomId);
      if room.None? {
        return Failure(RuntimeError(Some(WithId(RoomNotFoundText, dto.roomId))));
      }
      var overlapping := FindOverlappingReservations(db.reservations, room.value.id, dto.checkIn.value, dto.checkOut.value);
      if overlapping != [] {
        return Failure(RuntimeError(Some(RoomUnavailableText)));
      }
      var reservation := Reservation(NextKey(db.reservations, ReservationId), GenerateReservationNumber(uuid),
                                     user.value.id, room.value.id, dto.checkIn.value, dto.checkOut.value,
                                     dto.guests, dto.totalPrice, ReservationStatus.PENDING, dto.specialRequests);
      AppendFreshKeepsKeys(db.reservations, ReservationId, reservation);
      AppendKeepsEveryKey(db.reservations, ReservationId, reservation);
      db.reservations := db.reservations + [reservation];
      r := Success(reservation);
    }

    /** updateReservation: saves the edited booking over the stored one, or nothing. */
    method UpdateReservation(id: int, dto: ReservationDto, caller: Principal) returns (r: Result<Reservation, Exception>)
      requires db.Valid()
      modifies db`reservations
      ensures db.Valid()
      ensures r == UpdateReservationResult(db.users, old(db.reservations), id, dto, caller)
      ensures db.reservations == if r.Success? then ReplaceByKey(old(db.reservations), ReservationId, r.value) else old(db.reservations)
    {
      var found := FindByKey(db.reservations, ReservationId, id);
      if found.None? {
        return Failure(RuntimeError(Some(WithId(ReservationNotFoundText, id))));
      }
      var user := FindUserByUsername(db.users, caller.username);
      if user.None? {
        return Failure(RuntimeError(Some(UserNotFoundText)));
      }
      var isAdmin := IsStaff(user.value.role);
      if !isAdmin && found.value.userId != user.value.id {
        return Failure(AccessDenied(Some(ReservationUpdateDeniedText)));
      }
      var reservation := PatchReservation(found.value, dto, isAdmin);
      Save(reservation);
      r := Success(reservation);
    }

    /** The setter calls of updateReservation, one field at a time. */
    static method PatchReservation(stored: Reservation, dto: ReservationDto, isAdmin: bool) returns (reservation: Reservation)
      ensures reservation == ApplyReservationPatch(stored, dto, isAdmin)
    {
      reservation := stored;
      if dto.checkIn.Some? {
        reservation := reservation.(checkIn := dto.checkIn.value);
      }
      if dto.checkOut.Some? {
        reservation := reservation.(checkOut := dto.checkOut.value);
      }
      if dto.guests > 0 {
        reservation := reservation.(guests := dto.guests);
      }
      if dto.specialRequests.Some? {
        reservation := reservation.(specialRequests := dto.specialRequests);
      }
      if isAdmin && dto.status.Some? {
        reservation := reservation.(status := dto.status.value);
      }
    }

    /** cancelReservation: the booking stays, with status CANCELLED. */
    method CancelReservation(id: int, caller: Principal) returns (err: Option<Exception>)
      requires db.Valid()
      modifies db`reservations
      ensures db.Valid()
      ensures var outcome := CancelReservationResult(db.users, old(db.reservations), id, caller);
              (err.None? <==> outcome.Success?) &&
              (err.Some? ==> err.value == outcome.error) &&
              db.reservations == if outcome.Success? then ReplaceByKey(old(db.reservations), ReservationId, outcome.value)
                                 else old(db.reservations)
    {
      var found := FindByKey(db.reservations, ReservationId, id);
      if found.None? {
        return Some(RuntimeError(Some(WithId(ReservationNotFoundText, id))));
      }
      var user := FindUserByUsername(db.users, caller.username);
      if user.None? {
        return Some(RuntimeError(Some(UserNotFoundText)));
      }
      if !IsStaff(user.value.role) && found.value.userId != user.value.id {
        return Some(AccessDenied(Some(ReservationCancelDeniedText)));
      }
      Save(found.value.(status := CANCELLED));
      err := None;
    }

    /** updateReservationStatus. */
    method UpdateReservationStatus(id: int, status: ReservationStatus) returns (r: Result<Reservation, Exception>)
      requires db.Valid()
      modifies db`reservations
      ensures db.Valid()
      ensures r == UpdateReservationStatusResult(old(db.reservations), id, status)
      ensures db.reservations == if r.Success? then ReplaceByKey(old(db.reservations), ReservationId, r.value) else old(db.reservations)
    {
      var found := FindByKey(db.reservations, ReservationId, id);
      if found.None? {
        return Failure(RuntimeError(Some(WithId(ReservationNotFoundText, id))));
      }
      var reservation := found.value.(status := status);
      Save(reservation);
      r := Success(reservation);
    }

    /** reservationRepository.save of a booking already stored under its id. */
    method Save(reservation: Reservation)
      requires db.Valid()
      modifies db`reservations
      ensures db.Valid()
      ensures db.reservations == ReplaceByKey(old(db.reservations), ReservationId, reservation)
    {
      ReplaceKeepsKeys(db.reservations, ReservationId, reservation);
      ReplaceKeepsEveryKey(db.reservations, ReservationId, reservation);
      db.reservations := ReplaceByKey(db.reservations, ReservationId, reservation);
    }
  }
}
