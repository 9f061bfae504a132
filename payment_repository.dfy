/**
 * PaymentRepository: SQL SUM over the matching payments, which is NULL
 * (None) when no row matches, and COUNT, which is a number.
 */
module PaymentRepository {
  import opened Wrappers
  import opened Calendar
  import opened Seqs
  import opened Domain
  import opened ReservationRepository

  /** The sum of the amounts, added up from the last row back. */
  function Total(ps: seq<Payment>): int {
    if ps == [] then 0 else Total(ps[..|ps| - 1]) + ps[|ps| - 1].amount
  }

  lemma TotalAppend(ps: seq<Payment>, p: Payment)
    ensures Total(ps + [p]) == Total(ps) + p.amount
  {
    assert (ps + [p])[..|ps|] == ps;
  }

  /** SQL SUM(p.amount): NULL over no rows. */
  function Sum(ps: seq<Payment>): (s: Option<int>)
    ensures s.None? <==> ps == []
  {
    if ps == [] then None else Some(Total(ps))
  }

  predicate CompletedBetween(p: Payment, startDate: Instant, endDate: Instant) {
    p.status == COMPLETED && Between(p.paymentDate, startDate, endDate)
  }

  predicate CompletedInMonth(p: Payment, month: int, year: int) {
    p.status == COMPLETED && YearMonthOfInstant(p.paymentDate) == YearMonth(year, month)
  }

  /** The rows sumCompletedPaymentsBetweenDates adds up. */
  function CompletedBetweenRows(ps: seq<Payment>, startDate: Instant, endDate: Instant): (r: seq<Payment>)
    ensures forall x :: x in r <==> x in ps && CompletedBetween(x, startDate, endDate)
  {
    Filter(ps, (x: Payment) => CompletedBetween(x, startDate, endDate))
  }

  /** The rows sumCompletedPaymentsForMonth adds up. */
  function CompletedInMonthRows(ps: seq<Payment>, month: int, year: int): (r: seq<Payment>)
    ensures forall x :: x in r <==> x in ps && CompletedInMonth(x, month, year)
  {
    Filter(ps, (x: Payment) => CompletedInMonth(x, month, year))
  }

  lemma {:induction false} CompletedBetweenRowsAppend(ps: seq<Payment>, q: Payment, startDate: Instant, endDate: Instant)
    ensures CompletedBetweenRows(ps + [q], startDate, endDate) ==
            CompletedBetweenRows(ps, startDate, endDate) + (if CompletedBetween(q, startDate, endDate) then [q] else [])
  {
    if ps == [] {
      assert ps + [q] == [q];
    } else {
      assert (ps + [q])[1..] == ps[1..] + [q];
      CompletedBetweenRowsAppend(ps[1..], q, startDate, endDate);
    }
  }

  lemma {:induction false} CompletedInMonthRowsAppend(ps: seq<Payment>, q: Payment, month: int, year: int)
    ensures CompletedInMonthRows(ps + [q], month, year) ==
            CompletedInMonthRows(ps, month, year) + (if CompletedInMonth(q, month, year) then [q] else [])
  {
    if ps == [] {
      assert ps + [q] == [q];
    } else {
      assert (ps + [q])[1..] == ps[1..] + [q];
      CompletedInMonthRowsAppend(ps[1..], q, month, year);
    }
  }

  /** sumCompletedPaymentsBetweenDates: NULL exactly when no COMPLETED payment is dated inside the bounds. */
  function SumCompletedPaymentsBetweenDates(ps: seq<Payment>, startDate: Instant, endDate: Instant): (s: Option<int>)
    ensures s.None? <==> forall p :: p in ps ==> !CompletedBetween(p, startDate, endDate)
  {
    var rows := CompletedBetweenRows(ps, startDate, endDate);
    assert rows != [] ==> rows[0] in rows;
    Sum(rows)
  }

  /** sumCompletedPaymentsForMonth (month before year): NULL exactly when no COMPLETED payment falls in that month. */
  function SumCompletedPaymentsForMonth(ps: seq<Payment>, month: int, year: int): (s: Option<int>)
    ensures s.None? <==> forall p :: p in ps ==> !CompletedInMonth(p, month, year)
  {
    var rows := CompletedInMonthRows(ps, month, year);
    assert rows != [] ==> rows[0] in rows;
    Sum(rows)
  }

  /** Storing a payment that is not COMPLETED, or falls outside the range, leaves the sum as it was. */
  lemma SumBetweenIgnoresNonMatching(ps: seq<Payment>, q: Payment, startDate: Instant, endDate: Instant)
    requires !CompletedBetween(q, startDate, endDate)
    ensures SumCompletedPaymentsBetweenDates(ps + [q], startDate, endDate) == SumCompletedPaymentsBetweenDates(ps, startDate, endDate)
  {
    CompletedBetweenRowsAppend(ps, q, startDate, endDate);
    assert CompletedBetweenRows(ps + [q], startDate, endDate) == CompletedBetweenRows(ps, startDate, endDate);
  }

  /** Storing a COMPLETED payment inside the range adds its amount (to zero if the sum was NULL). */
  lemma SumBetweenAddsMatching(ps: seq<Payment>, q: Payment, startDate: Instant, endDate: Instant)
    requires CompletedBetween(q, startDate, endDate)
    ensures SumCompletedPaymentsBetweenDates(ps + [q], startDate, endDate) ==
            Some(SumCompletedPaymentsBetweenDates(ps, startDate, endDate).GetOr(0) + q.amount)
  {
    CompletedBetweenRowsAppend(ps, q, startDate, endDate);
    TotalAppend(CompletedBetweenRows(ps, startDate, endDate), q);
  }

  lemma SumForMonthIgnoresNonMatching(ps: seq<Payment>, q: Payment, month: int, year: int)
    requires !CompletedInMonth(q, month, year)
    ensures SumCompletedPaymentsForMonth(ps + [q], month, year) == SumCompletedPaymentsForMonth(ps, month, year)
  {
    CompletedInMonthRowsAppend(ps, q, month, year);
    assert CompletedInMonthRows(ps + [q], month, year) == CompletedInMonthRows(ps, month, year);
  }

  lemma SumForMonthAddsMatching(ps: seq<Payment>, q: Payment, month: int, year: int)
    requires CompletedInMonth(q, month, year)
    ensures SumCompletedPaymentsForMonth(ps + [q], month, year) ==
            Some(SumCompletedPaymentsForMonth(ps, month, year).GetOr(0) + q.amount)
  {
    CompletedInMonthRowsAppend(ps, q, month, year);
    TotalAppend(CompletedInMonthRows(ps, month, year), q);
  }

  /** countFailedPaymentsBetweenDates. */
  function CountFailedPaymentsBetweenDates(ps: seq<Payment>, startDate: Instant, endDate: Instant): (n: nat)
    ensures n <= |ps|
  {
    CountWhere(ps, (x: Payment) => x.status == FAILED && Between(x.paymentDate, startDate, endDate))
  }

  /**
   * The count is the number of FAILED payments dated in [startDate, endDate],
   * and it is zero exactly when there is none.
   */
  lemma CountFailedIsFilterSize(ps: seq<Payment>, startDate: Instant, endDate: Instant)
    ensures CountFailedPaymentsBetweenDates(ps, startDate, endDate) ==
            |Filter(ps, (x: Payment) => x.status == FAILED && startDate <= x.paymentDate <= endDate)|
    ensures CountFailedPaymentsBetweenDates(ps, startDate, endDate) == 0 <==>
            forall x :: x in ps ==> x.status != FAILED || !(startDate <= x.paymentDate <= endDate)
  {
    var p := (x: Payment) => x.status == FAILED && Between(x.paymentDate, startDate, endDate);
    CountIsFilterSize(ps, p);
    FilterCongruent(ps, p, (x: Payment) => x.status == FAILED && startDate <= x.paymentDate <= endDate);
    FilterEmpty(ps, p);
  }

  /** A new payment raises the count by one exactly when it is FAILED and dated inside the bounds. */
  lemma CountFailedAppend(ps: seq<Payment>, q: Payment, startDate: Instant, endDate: Instant)
    ensures CountFailedPaymentsBetweenDates(ps + [q], startDate, endDate) ==
            CountFailedPaymentsBetweenDates(ps, startDate, endDate) +
            (if q.status == FAILED && startDate <= q.paymentDate <= endDate then 1 else 0)
  {
    CountAppend(ps, q, (x: Payment) => x.status == FAILED && Between(x.paymentDate, startDate, endDate));
  }

  /** findByTransactionId. */
  function FindByTransactionId(ps: seq<Payment>, transactionId: string): (r: Option<Payment>)
    ensures r.Some? ==> r.value in ps && r.value.transactionId == transactionId
    ensures r.None? <==> forall x :: x in ps ==> x.transactionId != transactionId
  {
    FindFirst(ps, (x: Payment) => x.transactionId == transactionId)
  }

  /** findByReservation. */
  function FindByReservation(ps: seq<Payment>, reservationId: int): (r: seq<Payment>)
    ensures forall x :: x in r <==> x in ps && x.reservationId == reservationId
  {
    Filter(ps, (x: Payment) => x.reservationId == reservationId)
  }

  /** findByStatus. */
  function FindByStatus(ps: seq<Payment>, status: PaymentStatus): (r: seq<Payment>)
    ensures forall x :: x in r <==> x in ps && x.status == status
  {
    Filter(ps, (x: Payment) => x.status == status)
  }
}
