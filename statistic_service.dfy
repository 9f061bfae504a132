/**
 * StatisticService: the occupancy computation over booked room-nights, the
 * twelve monthly revenues of a year, the monthly snapshot writer and the
 * dashboard figures.
 */
module Statistics {
  import opened Wrappers
  import opened Calendar
  import opened Seqs
  import opened Domain
  import opened Errors
  import opened ReservationRepository
  import opened RoomRepository
  import opened PaymentRepository
  import opened Database

  /** The map calculateOccupancyRate returns, one field per key. */
  datatype OccupancyData = OccupancyData(
    startDate: Day,
    endDate: Day,
    totalRooms: nat,
    totalAvailableNights: int,
    totalBookedNights: int,
    occupancyRate: real)

  /** The message of the NumberFormatException `new BigDecimal(double)` raises for NaN and infinities. */
  const InfiniteOrNaNText: string := "Infinite or NaN"

  /**
   * The nights a stay contributes: its dates clamped into the period, then
   * counted; never more than the stay's own nights or the period's.
   */
  function Nights(r: Reservation, startDate: Day, endDate: Day): (n: int)
    ensures n <= r.checkOut - r.checkIn
    ensures n <= endDate - startDate
  {
    var checkIn := if r.checkIn < startDate then startDate else r.checkIn;
    var checkOut := if r.checkOut > endDate then endDate else r.checkOut;
    DaysBetween(checkIn, checkOut)
  }

  /** The nights of a list of stays, accumulated in list order. */
  function BookedNights(rs: seq<Reservation>, startDate: Day, endDate: Day): int {
    if rs == [] then 0
    else BookedNights(rs[..|rs| - 1], startDate, endDate) + Nights(rs[|rs| - 1], startDate, endDate)
  }

  /** totalBookedNights: the nights of the stays that check in within the period. */
  function TotalBookedNights(rs: seq<Reservation>, startDate: Day, endDate: Day): int {
    BookedNights(FindByCheckInDateBetween(rs, startDate, endDate), startDate, endDate)
  }

  /** A list of stays books at most as many nights as if every stay filled the whole period. */
  lemma {:induction false} BookedNightsAtMostFullPeriod(rs: seq<Reservation>, startDate: Day, endDate: Day)
    ensures BookedNights(rs, startDate, endDate) <= |rs| * (endDate - startDate)
  {
    if rs != [] {
      var k := |rs| - 1;
      BookedNightsAtMostFullPeriod(rs[..k], startDate, endDate);
      assert k * (endDate - startDate) + (endDate - startDate) == |rs| * (endDate - startDate);
    }
  }

  /** Over a non-empty period, totalBookedNights is at most every stored stay filling the period. */
  lemma TotalBookedNightsAtMostFullPeriod(rs: seq<Reservation>, startDate: Day, endDate: Day)
    requires startDate <= endDate
    ensures TotalBookedNights(rs, startDate, endDate) <= |rs| * (endDate - startDate)
  {
    var inPeriod := FindByCheckInDateBetween(rs, startDate, endDate);
    BookedNightsAtMostFullPeriod(inPeriod, startDate, endDate);
    MulMonotone(|inPeriod|, |rs|, endDate - startDate);
  }

  lemma MulMonotone(a: nat, b: nat, c: nat)
    requires a <= b
    ensures a * c <= b * c
  {
  }

  /**
   * For a stay the period's query returns, with check-in before check-out,
   * the check-in clamp never applies and the nights lie between zero and
   * both the stay's length and the nights left in the period.
   */
  lemma NightsWithinStay(r: Reservation, startDate: Day, endDate: Day)
    requires startDate <= r.checkIn <= endDate && r.checkIn < r.checkOut
    ensures !(r.checkIn < startDate)
    ensures 0 <= Nights(r, startDate, endDate)
    ensures Nights(r, startDate, endDate) <= r.checkOut - r.checkIn
    ensures Nights(r, startDate, endDate) <= endDate - r.checkIn
  {
  }

  /** With every stored stay ordered, the booked nights are never negative. */
  lemma {:induction false} BookedNightsNonNegative(rs: seq<Reservation>, startDate: Day, endDate: Day)
    requires forall r :: r in rs ==> startDate <= r.checkIn <= endDate && r.checkIn < r.checkOut
    ensures BookedNights(rs, startDate, endDate) >= 0
  {
    if rs != [] {
      var last := rs[|rs| - 1];
      assert last in rs;
      assert forall r :: r in rs[..|rs| - 1] ==> r in rs;
      BookedNightsNonNegative(rs[..|rs| - 1], startDate, endDate);
      NightsWithinStay(last, startDate, endDate);
    }
  }

  /**
   * A stay checking in within the period adds its nights whatever its
   * status: no status filter is applied.
   */
  lemma StayInPeriodCounts(rs: seq<Reservation>, r: Reservation, startDate: Day, endDate: Day)
    requires startDate <= r.checkIn <= endDate
    ensures TotalBookedNights(rs + [r], startDate, endDate) == TotalBookedNights(rs, startDate, endDate) + Nights(r, startDate, endDate)
  {
    CheckInDateBetweenAppend(rs, r, startDate, endDate);
    var q := FindByCheckInDateBetween(rs, startDate, endDate);
    assert (q + [r])[..|q + [r]| - 1] == q;
  }

  /** So a CANCELLED stay of at least one night before the period's last day raises the booked nights. */
  lemma CancelledStayRaisesBookedNights(rs: seq<Reservation>, r: Reservation, startDate: Day, endDate: Day)
    requires r.status == CANCELLED
    requires startDate <= r.checkIn < endDate && r.checkIn < r.checkOut
    ensures TotalBookedNights(rs + [r], startDate, endDate) > TotalBookedNights(rs, startDate, endDate)
  {
    StayInPeriodCounts(rs, r, startDate, endDate);
  }

  lemma {:induction false} PositiveProduct(a: int, b: int)
    requires a > 0 && b > 0
    ensures a * b > 0
  {
    if a > 1 {
      PositiveProduct(a - 1, b);
      assert a * b == (a - 1) * b + b;
    }
  }

  lemma ProductIsZero(a: int, b: int)
    ensures a * b == 0 <==> a == 0 || b == 0
  {
    if a != 0 && b != 0 {
      var pa := if a > 0 then a else -a;
      var pb := if b > 0 then b else -b;
      PositiveProduct(pa, pb);
      assert pa * pb == a * b || pa * pb == -(a * b);
    }
  }

  lemma QuotientTimesDivisor(x: real, y: real, q: real)
    requires y != 0.0 && q == x / y
    ensures q * y == x
  {
  }

  /** occupancyRate: the booked nights as a percentage of the available nights (before rounding). */
  function OccupancyRate(booked: int, available: int): (rate: real)
    requires available != 0
    ensures rate * (available as real) == 100.0 * (booked as real)
  {
    var q := 100.0 * (booked as real) / (available as real);
    QuotientTimesDivisor(100.0 * (booked as real), available as real, q);
    q
  }

  /** What calculateOccupancyRate yields for a room count and a reservation table. */
  function OccupancyResult(totalRooms: nat, rs: seq<Reservation>, startDate: Day, endDate: Day): (r: Result<OccupancyData, Exception>)
    ensures r.Failure? <==> totalRooms == 0 || endDate == startDate - 1
    ensures r.Failure? ==> r.error == NumberFormat(Some(InfiniteOrNaNText))
    ensures r.Success? ==>
              r.value.startDate == startDate && r.value.endDate == endDate && r.value.totalRooms == totalRooms &&
              r.value.totalBookedNights == TotalBookedNights(rs, startDate, endDate) &&
              r.value.totalAvailableNights == totalRooms * (endDate - startDate + 1) && r.value.totalAvailableNights != 0 &&
              r.value.occupancyRate == OccupancyRate(r.value.totalBookedNights, r.value.totalAvailableNights)
  {
    var available := totalRooms * (DaysBetween(startDate, endDate) + 1);
    var booked := TotalBookedNights(rs, startDate, endDate);
    ProductIsZero(totalRooms, DaysBetween(startDate, endDate) + 1);
    if available == 0 then Failure(NumberFormat(Some(InfiniteOrNaNText)))
    else Success(OccupancyData(startDate, endDate, totalRooms, available, booked, OccupancyRate(booked, available)))
  }

  /** Over a calendar month the computation fails exactly when there are no rooms. */
  lemma MonthlyOccupancyFailsOnlyWithoutRooms(totalRooms: nat, rs: seq<Reservation>, ym: YearMonth)
    ensures OccupancyResult(totalRooms, rs, AtDay(ym, 1), AtEndOfMonth(ym)).Failure? <==> totalRooms == 0
  {
  }

  /** getMonthlyReservationsCount. */
  function MonthlyReservationsCount(rs: seq<Reservation>, ym: YearMonth): (n: nat)
    ensures n <= |rs|
  {
    CountConfirmedReservationsForMonth(rs, ym.year, ym.month)
  }

  /** Java's `(int)` narrowing of a long: the low 32 bits, read as two's complement. */
  function ToInt32(n: int): (r: int)
    ensures -0x8000_0000 <= r < 0x8000_0000
    ensures (r - n) % 0x1_0000_0000 == 0
  {
    var low := n % 0x1_0000_0000;
    if low >= 0x8000_0000 then low - 0x1_0000_0000 else low
  }

  /** A value that fits in an int survives the narrowing unchanged. */
  lemma ToInt32InRange(n: int)
    requires -0x8000_0000 <= n < 0x8000_0000
    ensures ToInt32(n) == n
  {
  }

  /** The BOOKINGS_COUNT snapshot: the count alone, dated the first of the month. */
  function BookingsStat(ym: YearMonth, count: int): (s: Statistic)
    ensures s.statType == BOOKINGS_COUNT && s.date == AtDay(ym, 1)
    ensures s.valueInteger == Some(ToInt32(count))
    ensures s.value.None? && s.valueString.None? && s.percentageValue.None?
  {
    Statistic(BOOKINGS_COUNT, AtDay(ym, 1), None, None, Some(ToInt32(count)), None)
  }

  /** The rows saveMonthlyStatistics appends, in save order. */
  function MonthlyStatisticRows(ym: YearMonth, revenue: Option<int>, rate: real, count: int): (rows: seq<Statistic>)
    ensures |rows| == if revenue.Some? then 3 else 2
  {
    (if revenue.Some? then [Statistic.CreateRevenueStat(ym, revenue.value)] else [])
    + [Statistic.CreateOccupancyStat(ym, rate), BookingsStat(ym, count)]
  }

  /**
   * Every snapshot row is dated the first of the month; there is a
   * revenue row exactly when the month has a sum, and the occupancy and
   * bookings rows always close the list.
   */
  lemma MonthlyStatisticRowsShape(ym: YearMonth, revenue: Option<int>, rate: real, count: int)
    ensures var rows := MonthlyStatisticRows(ym, revenue, rate, count);
            (forall s :: s in rows ==> s.date == AtDay(ym, 1)) &&
            ((exists s :: s in rows && s.statType == REVENUE) <==> revenue.Some?) &&
            (revenue.Some? ==> rows[0].value == revenue) &&
            rows[|rows| - 2].statType == OCCUPANCY_RATE && rows[|rows| - 2].percentageValue == Some(rate) &&
            rows[|rows| - 1].statType == BOOKINGS_COUNT && rows[|rows| - 1].valueInteger == Some(ToInt32(count))
  {
  }

  /** The bookings row counts CONFIRMED stays checking in that month, and only those. */
  lemma MonthlyReservationsCountIsConfirmedCount(rs: seq<Reservation>, ym: YearMonth)
    ensures MonthlyReservationsCount(rs, ym) ==
            |Filter(rs, (x: Reservation) => x.status == CONFIRMED && CheckInMonthIs(x, ym.year, ym.month))|
  {
    CountConfirmedIsFilterSize(rs, ym.year, ym.month);
  }

  /** The dashboard's figures. */
  datatype DashboardStatistics = DashboardStatistics(
    currentMonthRevenue: int,
    currentMonthOccupancy: real,
    totalRooms: nat,
    availableRoomsToday: nat,
    checkInsToday: nat,
    checkOutsToday: nat)

  /** Stays that arrive on `day`. */
  function CountArrivals(rs: seq<Reservation>, day: Day): (n: nat)
    ensures n <= |rs|
  {
    CountWhere(rs, (x: Reservation) => x.checkIn == day)
  }

  /** Stays that leave on `day`. */
  function CountDepartures(rs: seq<Reservation>, day: Day): (n: nat)
    ensures n <= |rs|
  {
    CountWhere(rs, (x: Reservation) => x.checkOut == day)
  }

  /** checkInsToday and checkOutsToday: the numbers of stays arriving and leaving that day. */
  lemma ArrivalsAndDeparturesAreFilterSizes(rs: seq<Reservation>, day: Day)
    ensures CountArrivals(rs, day) == |Filter(rs, (x: Reservation) => x.checkIn == day)|
    ensures CountDepartures(rs, day) == |Filter(rs, (x: Reservation) => x.checkOut == day)|
  {
    CountIsFilterSize(rs, (x: Reservation) => x.checkIn == day);
    CountIsFilterSize(rs, (x: Reservation) => x.checkOut == day);
  }

  /** A new stay adds one arrival exactly when it checks in that day, one departure when it checks out. */
  lemma ArrivalsAndDeparturesAppend(rs: seq<Reservation>, r: Reservation, day: Day)
    ensures CountArrivals(rs + [r], day) == CountArrivals(rs, day) + (if r.checkIn == day then 1 else 0)
    ensures CountDepartures(rs + [r], day) == CountDepartures(rs, day) + (if r.checkOut == day then 1 else 0)
  {
    CountAppend(rs, r, (x: Reservation) => x.checkIn == day);
    CountAppend(rs, r, (x: Reservation) => x.checkOut == day);
  }

  /** Counting arrivals within the day's check-in-or-check-out list counts every arrival of the table. */
  lemma {:induction false} ArrivalsOfTodaysList(rs: seq<Reservation>, day: Day)
    ensures CountArrivals(FindByCheckInOrCheckOutDate(rs, day), day) == CountArrivals(rs, day)
    ensures CountDepartures(FindByCheckInOrCheckOutDate(rs, day), day) == CountDepartures(rs, day)
  {
    if rs != [] {
      ArrivalsOfTodaysList(rs[1..], day);
      var t := FindByCheckInOrCheckOutDate(rs[1..], day);
      if rs[0].checkIn == day || rs[0].checkOut == day {
        assert FindByCheckInOrCheckOutDate(rs, day) == [rs[0]] + t;
        assert ([rs[0]] + t)[1..] == t;
      } else {
        assert FindByCheckInOrCheckOutDate(rs, day) == t;
      }
    }
  }

  /** Every stay in the day's list arrives or leaves that day, so the two counts cover the list. */
  lemma {:induction false} ArrivalsAndDeparturesCoverList(rs: seq<Reservation>, day: Day)
    ensures CountArrivals(FindByCheckInOrCheckOutDate(rs, day), day) + CountDepartures(FindByCheckInOrCheckOutDate(rs, day), day)
            >= |FindByCheckInOrCheckOutDate(rs, day)|
  {
    if rs != [] {
      ArrivalsAndDeparturesCoverList(rs[1..], day);
      var t := FindByCheckInOrCheckOutDate(rs[1..], day);
      if rs[0].checkIn == day || rs[0].checkOut == day {
        assert FindByCheckInOrCheckOutDate(rs, day) == [rs[0]] + t;
        assert ([rs[0]] + t)[1..] == t;
      } else {
        assert FindByCheckInOrCheckOutDate(rs, day) == t;
      }
    }
  }

  /** getDashboardStatistics for the day `today`. */
  function GetDashboardStatistics(rooms: seq<Room>, rs: seq<Reservation>, ps: seq<Payment>, today: Day): (r: Result<DashboardStatistics, Exception>)
    ensures r.Failure? <==> |rooms| == 0
    ensures r.Success? ==>
              var ym := YearMonthOf(today);
              var revenue := SumCompletedPaymentsForMonth(ps, ym.month, ym.year);
              (revenue.None? ==> r.value.currentMonthRevenue == 0) &&
              (revenue.Some? ==> r.value.currentMonthRevenue == revenue.value) &&
              OccupancyResult(|rooms|, rs, AtDay(ym, 1), AtEndOfMonth(ym)).Success? &&
              r.value.currentMonthOccupancy == OccupancyResult(|rooms|, rs, AtDay(ym, 1), AtEndOfMonth(ym)).value.occupancyRate &&
              r.value.totalRooms == |rooms| &&
              r.value.availableRoomsToday == |FindAvailableRooms(rooms, rs, today, today + 1)| &&
              r.value.checkInsToday == CountArrivals(rs, today) &&
              r.value.checkOutsToday == CountDepartures(rs, today)
  {
    var ym := YearMonthOf(today);
    var revenue := SumCompletedPaymentsForMonth(ps, ym.month, ym.year);
    var occupancy := OccupancyResult(|rooms|, rs, AtDay(ym, 1), AtEndOfMonth(ym));
    MonthlyOccupancyFailsOnlyWithoutRooms(|rooms|, rs, ym);
    if occupancy.Failure? then Failure(occupancy.error)
    else
      var todays := FindByCheckInOrCheckOutDate(rs, today);
      ArrivalsOfTodaysList(rs, today);
      Success(DashboardStatistics(
        if revenue.Some? then revenue.value else 0,
        occupancy.value.occupancyRate,
        |rooms|,
        |FindAvailableRooms(rooms, rs, today, today + 1)|,
        CountArrivals(todays, today),
        CountDepartures(todays, today)))
  }

  /** findByTypeAndDateBetween, behind getStatisticsByTypeAndPeriod. */
  function GetStatisticsByTypeAndPeriod(stats: seq<Statistic>, statType: StatisticType, startDate: Day, endDate: Day): (r: seq<Statistic>)
    ensures forall s :: s in r <==> s in stats && s.statType == statType && startDate <= s.date <= endDate
  {
    Filter(stats, (s: Statistic) => s.statType == statType && Between(s.date, startDate, endDate))
  }

  /**
   * What saveMonthlyStatistics commits for a month: its snapshot rows, or
   * the occupancy failure that rolls the transaction back.
   */
  function MonthlySnapshot(rooms: seq<Room>, rs: seq<Reservation>, ps: seq<Payment>, ym: YearMonth): (r: Result<seq<Statistic>, Exception>)
    ensures r.Failure? <==> OccupancyResult(|rooms|, rs, AtDay(ym, 1), AtEndOfMonth(ym)).Failure?
    ensures r.Failure? ==> r.error == NumberFormat(Some(InfiniteOrNaNText))
    ensures r.Success? ==>
              r.value == MonthlyStatisticRows(ym, SumCompletedPaymentsForMonth(ps, ym.month, ym.year),
                                              OccupancyResult(|rooms|, rs, AtDay(ym, 1), AtEndOfMonth(ym)).value.occupancyRate,
                                              MonthlyReservationsCount(rs, ym))
  {
    var occupancy := OccupancyResult(|rooms|, rs, AtDay(ym, 1), AtEndOfMonth(ym));
    if occupancy.Failure? then Failure(occupancy.error)
    else Success(MonthlyStatisticRows(ym, SumCompletedPaymentsForMonth(ps, ym.month, ym.year),
                                      occupancy.value.occupancyRate, MonthlyReservationsCount(rs, ym)))
  }

  /** The for-loop of calculateOccupancyRate: each stay's dates clamped into the period, the nights summed. */
  method SumBookedNights(reservations: seq<Reservation>, startDate: Day, endDate: Day) returns (totalBookedNights: int)
    ensures totalBookedNights == BookedNights(reservations, startDate, endDate)
  {
    totalBookedNights := 0;
    var i := 0;
    while i < |reservations|
      invariant 0 <= i <= |reservations|
      invariant totalBookedNights == BookedNights(reservations[..i], startDate, endDate)
    {
      var checkIn := reservations[i].checkIn;
      var checkOut := reservations[i].checkOut;
      if checkIn < startDate {
        checkIn := startDate;
      }
      if checkOut > endDate {
        checkOut := endDate;
      }
      var nights := DaysBetween(checkIn, checkOut);
      totalBookedNights := totalBookedNights + nights;
      assert reservations[..i + 1][..i] == reservations[..i];
      i := i + 1;
    }
    assert reservations[..i] == reservations;
  }

  class StatisticService {
    const db: HotelDatabase

    constructor (db: HotelDatabase)
      ensures this.db == db
    {
      this.db := db;
    }

    /** calculateOccupancyRate: the for-loop over the period's stays with its two clamps. */
    method CalculateOccupancyRate(startDate: Day, endDate: Day) returns (r: Result<OccupancyData, Exception>)
      ensures r == OccupancyResult(|db.rooms|, db.reservations, startDate, endDate)
    {
      var totalRooms := |db.rooms|;
      var totalDays := DaysBetween(startDate, endDate) + 1;
      var totalAvailableNights := totalRooms * totalDays;
      var reservations := FindByCheckInDateBetween(db.reservations, startDate, endDate);
      var totalBookedNights := SumBookedNights(reservations, startDate, endDate);
      assert totalBookedNights == TotalBookedNights(db.reservations, startDate, endDate);
      if totalAvailableNights == 0 {
        return Failure(NumberFormat(Some(InfiniteOrNaNText)));
      }
      var rate := OccupancyRate(totalBookedNights, totalAvailableNights);
      r := Success(OccupancyData(startDate, endDate, totalRooms, totalAvailableNights, totalBookedNights, rate));
    }

    /** getMonthlyRevenuesForYear: months 1 to 12, a missing sum read as zero. */
    method GetMonthlyRevenuesForYear(year: int) returns (revenues: map<int, int>)
      ensures forall month :: month in revenues <==> 1 <= month <= 12
      ensures forall month :: month in revenues ==>
                revenues[month] == SumCompletedPaymentsForMonth(db.payments, month, year).GetOr(0)
    {
      revenues := map[];
      var month := 1;
      while month <= 12
        invariant 1 <= month <= 13
        invariant forall m :: m in revenues <==> 1 <= m < month
        invariant forall m :: m in revenues ==> revenues[m] == SumCompletedPaymentsForMonth(db.payments, m, year).GetOr(0)
      {
        var revenue := SumCompletedPaymentsForMonth(db.payments, month, year);
        revenues := revenues[month := if revenue.Some? then revenue.value else 0];
        month := month + 1;
      }
    }

    /**
     * saveMonthlyStatistics: the revenue row (when the month has a sum),
     * then the occupancy and bookings rows, saved in one transaction: they
     * are committed together, or not at all when the occupancy computation
     * fails.
     */
    method SaveMonthlyStatistics(ym: YearMonth) returns (err: Option<Exception>)
      modifies db`statistics
      ensures var snapshot := MonthlySnapshot(old(db.rooms), old(db.reservations), old(db.payments), ym);
              (err.Some? <==> snapshot.Failure?) &&
              (err.Some? ==> err.value == snapshot.error && db.statistics == old(db.statistics)) &&
              (err.None? ==> db.statistics == old(db.statistics) + snapshot.value)
    {
      var snapshot := CollectMonthlyStatistics(ym);
      if snapshot.Failure? {
        return Some(snapshot.error);
      }
      db.statistics := db.statistics + snapshot.value;
      err := None;
    }

    /**
     * The body of saveMonthlyStatistics up to its saves: the revenue row when
     * there is revenue, then the occupancy row, then the bookings row, or the
     * exception the occupancy computation throws.
     */
    method CollectMonthlyStatistics(ym: YearMonth) returns (r: Result<seq<Statistic>, Exception>)
      ensures r == MonthlySnapshot(db.rooms, db.reservations, db.payments, ym)
    {
      var pending: seq<Statistic> := [];
      var monthlyRevenue := SumCompletedPaymentsForMonth(db.payments, ym.month, ym.year);
      if monthlyRevenue.Some? {
        pending := pending + [Statistic.CreateRevenueStat(ym, monthlyRevenue.value)];
      }
      var startDate, endDate := AtDay(ym, 1), AtEndOfMonth(ym);
      var occupancy := CalculateOccupancyRate(startDate, endDate);
      if occupancy.Failure? {
        return Failure(occupancy.error);
      }
      pending := pending + [Statistic.CreateOccupancyStat(ym, occupancy.value.occupancyRate)];
      var reservationsCount := MonthlyReservationsCount(db.reservations, ym);
      pending := pending + [BookingsStat(ym, reservationsCount)];
      assert pending == MonthlyStatisticRows(ym, monthlyRevenue, occupancy.value.occupancyRate, reservationsCount);
      r := Success(pending);
    }
  }
}
