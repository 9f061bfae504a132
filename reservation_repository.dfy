/**
 * ReservationRepository: its derived and JPQL queries as conditions over
 * the reservation table. JPQL `BETWEEN` includes both bounds, and no query
 * looks at the reservation's status unless it says so.
 */
module ReservationRepository {
  import opened Wrappers
  import opened Calendar
  import opened Seqs
  import opened Domain

  /** `x BETWEEN lo AND hi`. */
  predicate Between(x: int, lo: int, hi: int) {
    lo <= x <= hi
  }

  /** The condition of findOverlappingReservations, for one stored reservation. */
  predicate Overlaps(r: Reservation, checkIn: Day, checkOut: Day) {
    Between(r.checkIn, checkIn, checkOut) ||
    Between(r.checkOut, checkIn, checkOut) ||
    Between(checkIn, r.checkIn, r.checkOut)
  }

  function FindOverlappingReservations(rs: seq<Reservation>, roomId: int, checkIn: Day, checkOut: Day): (r: seq<Reservation>)
    ensures forall x :: x in r <==> x in rs && x.roomId == roomId && Overlaps(x, checkIn, checkOut)
  {
    Filter(rs, (x: Reservation) => x.roomId == roomId && Overlaps(x, checkIn, checkOut))
  }

  /**
   * For ordered ranges the three BETWEEN tests say exactly that the closed
   * intervals [checkIn, checkOut] and [r.checkIn, r.checkOut] intersect.
   */
  lemma OverlapIsIntersection(r: Reservation, checkIn: Day, checkOut: Day)
    requires checkIn <= checkOut && r.checkIn <= r.checkOut
    ensures Overlaps(r, checkIn, checkOut) <==> checkIn <= r.checkOut && r.checkIn <= checkOut
  {
  }

  /** Back-to-back stays clash: arriving on another guest's departure day is reported. */
  lemma BackToBackOverlaps(r: Reservation, checkOut: Day)
    requires r.checkIn <= r.checkOut
    ensures Overlaps(r, r.checkOut, checkOut)
  {
  }

  /** A stored stay clashes with a request whatever its status, CANCELLED included. */
  lemma OverlapIgnoresStatus(r: Reservation, s: ReservationStatus, checkIn: Day, checkOut: Day)
    ensures Overlaps(r.(status := s), checkIn, checkOut) == Overlaps(r, checkIn, checkOut)
  {
  }

  /** findByCheckInDateBetween: check-in within both bounds; check-out and status are not looked at. */
  function FindByCheckInDateBetween(rs: seq<Reservation>, startDate: Day, endDate: Day): (r: seq<Reservation>)
    ensures forall x :: x in r <==> x in rs && startDate <= x.checkIn <= endDate
    ensures |r| <= |rs|
  {
    Filter(rs, (x: Reservation) => Between(x.checkIn, startDate, endDate))
  }

  /** A stay appended to the table joins the check-in window's result exactly when it checks in within the window. */
  lemma CheckInDateBetweenAppend(rs: seq<Reservation>, r: Reservation, startDate: Day, endDate: Day)
    ensures FindByCheckInDateBetween(rs + [r], startDate, endDate) ==
            FindByCheckInDateBetween(rs, startDate, endDate) + (if Between(r.checkIn, startDate, endDate) then [r] else [])
  {
    var p := (x: Reservation) => Between(x.checkIn, startDate, endDate);
    FilterAppend(rs, [r], p);
    assert [r][1..] == [];
  }

  /** findByCheckInOrCheckOutDate. */
  function FindByCheckInOrCheckOutDate(rs: seq<Reservation>, date: Day): (r: seq<Reservation>)
    ensures forall x :: x in r <==> x in rs && (x.checkIn == date || x.checkOut == date)
  {
    Filter(rs, (x: Reservation) => x.checkIn == date || x.checkOut == date)
  }

  /** The month of a stay is the calendar month of its check-in date. */
  predicate CheckInMonthIs(r: Reservation, year: int, month: int) {
    YearMonthOf(r.checkIn) == YearMonth(year, month)
  }

  /** countConfirmedReservationsForMonth. */
  function CountConfirmedReservationsForMonth(rs: seq<Reservation>, year: int, month: int): (n: nat)
    ensures n <= |rs|
  {
    CountWhere(rs, (x: Reservation) => x.status == CONFIRMED && CheckInMonthIs(x, year, month))
  }

  /** The count is the number of CONFIRMED reservations checking in that month, and only those. */
  lemma CountConfirmedIsFilterSize(rs: seq<Reservation>, year: int, month: int)
    ensures CountConfirmedReservationsForMonth(rs, year, month) ==
            |Filter(rs, (x: Reservation) => x.status == CONFIRMED && CheckInMonthIs(x, year, month))|
    ensures CountConfirmedReservationsForMonth(rs, year, month) == 0 <==>
            forall x :: x in rs ==> x.status != CONFIRMED || !CheckInMonthIs(x, year, month)
  {
    var p := (x: Reservation) => x.status == CONFIRMED && CheckInMonthIs(x, year, month);
    CountIsFilterSize(rs, p);
    FilterEmpty(rs, p);
  }

  /** findByReservationNumber. */
  function FindByReservationNumber(rs: seq<Reservation>, number: string): (r: Option<Reservation>)
    ensures r.Some? ==> r.value in rs && r.value.reservationNumber == number
    ensures r.None? <==> forall x :: x in rs ==> x.reservationNumber != number
  {
    FindFirst(rs, (x: Reservation) => x.reservationNumber == number)
  }

  /** findByUser. */
  function FindByUser(rs: seq<Reservation>, userId: int): (r: seq<Reservation>)
    ensures forall x :: x in r <==> x in rs && x.userId == userId
  {
    Filter(rs, (x: Reservation) => x.userId == userId)
  }

  /** findByRoom. */
  function FindByRoom(rs: seq<Reservation>, roomId: int): (r: seq<Reservation>)
    ensures forall x :: x in r <==> x in rs && x.roomId == roomId
  {
    Filter(rs, (x: Reservation) => x.roomId == roomId)
  }

  /** findByStatus. */
  function FindByStatus(rs: seq<Reservation>, status: ReservationStatus): (r: seq<Reservation>)
    ensures forall x :: x in r <==> x in rs && x.status == status
  {
    Filter(rs, (x: Reservation) => x.status == status)
  }
}
