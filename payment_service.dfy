/**
 * PaymentService: recording a payment against a booking, changing a
 * payment's status, the access rules for reading payments, and the
 * revenue figures. A COMPLETED payment confirms its booking, whatever the
 * booking's status was.
 */
module Payments {
  import opened Wrappers
  import opened Calendar
  import opened Text
  import opened Seqs
  import opened Domain
  import opened Errors
  import opened PaymentRepository
  import opened Database

  /** The PaymentDto fields createPayment reads; a null field is None. */
  datatype PaymentDto = PaymentDto(
    reservationId: int,
    amount: int,
    paymentMethod: string,
    status: Option<PaymentStatus>,
    paymentDetails: Option<string>)

  /** generateTransactionId: "TRX-" and the UUID's first eight digits in upper case. */
  function GenerateTransactionId(uuid: string): (t: string)
    requires IsUuidText(uuid)
    ensures |t| == 12 && t[..4] == "TRX-"
    ensures forall i :: 4 <= i < 12 ==> IsUpperHex(t[i])
  {
    UuidCode("TRX-", uuid)
  }

  /** The cascade: the stored booking `reservationId`, saved again as CONFIRMED. */
  function Confirmed(rs: seq<Reservation>, reservationId: int): (r: seq<Reservation>)
    requires HasKey(rs, ReservationId, reservationId)
  {
    ReplaceByKey(rs, ReservationId, FindByKey(rs, ReservationId, reservationId).value.(status := CONFIRMED))
  }

  /**
   * After the cascade the booking reads back as CONFIRMED, from any status
   * (CANCELLED included), with its other fields as they were, and every
   * other booking reads as before.
   */
  lemma ConfirmedReadsBack(rs: seq<Reservation>, reservationId: int, other: int)
    requires UniqueKeys(rs, ReservationId) && HasKey(rs, ReservationId, reservationId)
    ensures FindByKey(Confirmed(rs, reservationId), ReservationId, reservationId) ==
            Some(FindByKey(rs, ReservationId, reservationId).value.(status := CONFIRMED))
    ensures other != reservationId ==>
            FindByKey(Confirmed(rs, reservationId), ReservationId, other) == FindByKey(rs, ReservationId, other)
  {
    var x := FindByKey(rs, ReservationId, reservationId).value.(status := CONFIRMED);
    ReplaceFind(rs, ReservationId, x, reservationId);
    ReplaceFind(rs, ReservationId, x, other);
  }

  /** The reservation a payment belongs to, which the foreign key guarantees. */
  function ReservationOf(rs: seq<Reservation>, p: Payment): (r: Reservation)
    requires HasKey(rs, ReservationId, p.reservationId)
    ensures r in rs && r.id == p.reservationId
  {
    FindByKey(rs, ReservationId, p.reservationId).value
  }

  /** getPaymentById: ADMIN, MANAGER or the owner of the payment's booking (not a RECEPTIONIST). */
  function GetPaymentById(users: seq<User>, rs: seq<Reservation>, ps: seq<Payment>, id: int, caller: Principal): (r: Result<Payment, Exception>)
    requires PaymentsLinked(ps, rs)
    ensures !HasKey(ps, PaymentId, id) ==> r == Failure(RuntimeError(Some(WithId(PaymentNotFoundText, id))))
    ensures HasKey(ps, PaymentId, id) && FindUserByUsername(users, caller.username).None? ==>
              r == Failure(RuntimeError(Some(UserNotFoundText)))
    ensures r.Success? <==>
              HasKey(ps, PaymentId, id) && FindUserByUsername(users, caller.username).Some? &&
              (IsAdminOrManager(FindUserByUsername(users, caller.username).value.role) ||
               ReservationOf(rs, FindByKey(ps, PaymentId, id).value).userId == FindUserByUsername(users, caller.username).value.id)
    ensures r.Failure? && r.error.AccessDenied? <==>
              HasKey(ps, PaymentId, id) && FindUserByUsername(users, caller.username).Some? &&
              !(IsAdminOrManager(FindUserByUsername(users, caller.username).value.role) ||
                ReservationOf(rs, FindByKey(ps, PaymentId, id).value).userId == FindUserByUsername(users, caller.username).value.id)
    ensures r.Failure? && r.error.AccessDenied? ==> r.error == AccessDenied(Some(PaymentReadDeniedText))
    ensures r.Success? ==> r.value in ps && r.value.id == id
  {
    var found := FindByKey(ps, PaymentId, id);
    if found.None? then Failure(RuntimeError(Some(WithId(PaymentNotFoundText, id))))
    else
      var user := FindUserByUsername(users, caller.username);
      if user.None? then Failure(RuntimeError(Some(UserNotFoundText)))
      else if !IsAdminOrManager(user.value.role) && ReservationOf(rs, found.value).userId != user.value.id then
        Failure(AccessDenied(Some(PaymentReadDeniedText)))
      else Success(found.value)
  }

  /** getPaymentsByReservationId: staff (RECEPTIONIST included) or the booking's owner. */
  function GetPaymentsByReservationId(users: seq<User>, rs: seq<Reservation>, ps: seq<Payment>, reservationId: int, caller: Principal): (r: Result<seq<Payment>, Exception>)
    ensures !HasKey(rs, ReservationId, reservationId) ==> r == Failure(RuntimeError(Some(WithId(ReservationNotFoundText, reservationId))))
    ensures HasKey(rs, ReservationId, reservationId) && FindUserByUsername(users, caller.username).None? ==>
              r == Failure(RuntimeError(Some(UserNotFoundText)))
    ensures r.Success? <==>
              HasKey(rs, ReservationId, reservationId) && FindUserByUsername(users, caller.username).Some? &&
              (IsStaff(FindUserByUsername(users, caller.username).value.role) ||
               FindByKey(rs, ReservationId, reservationId).value.userId == FindUserByUsername(users, caller.username).value.id)
    ensures r.Failure? && r.error.AccessDenied? <==>
              HasKey(rs, ReservationId, reservationId) && FindUserByUsername(users, caller.username).Some? &&
              !(IsStaff(FindUserByUsername(users, caller.username).value.role) ||
                FindByKey(rs, ReservationId, reservationId).value.userId == FindUserByUsername(users, caller.username).value.id)
    ensures r.Failure? && r.error.AccessDenied? ==> r.error == AccessDenied(Some(PaymentListDeniedText))
    ensures r.Success? ==> forall p :: p in r.value <==> p in ps && p.reservationId == reservationId
  {
    var found := FindByKey(rs, ReservationId, reservationId);
    if found.None? then Failure(RuntimeError(Some(WithId(ReservationNotFoundText, reservationId))))
    else
      var user := FindUserByUsername(users, caller.username);
      if user.None? then Failure(RuntimeError(Some(UserNotFoundText)))
      else if !IsStaff(user.value.role) && found.value.userId != user.value.id then
        Failure(AccessDenied(Some(PaymentListDeniedText)))
      else Success(FindByReservation(ps, reservationId))
  }

  /**
   * The two read rules disagree for a receptionist who does not own the
   * booking: the list of the booking's payments is shown, each payment
   * alone is refused.
   */
  lemma ReceptionistListsButCannotRead(users: seq<User>, rs: seq<Reservation>, ps: seq<Payment>, p: Payment, caller: Principal)
    requires PaymentsLinked(ps, rs) && UniqueKeys(ps, PaymentId)
    requires p in ps
    requires FindUserByUsername(users, caller.username).Some?
    requires FindUserByUsername(users, caller.username).value.role == RECEPTIONIST
    requires ReservationOf(rs, p).userId != FindUserByUsername(users, caller.username).value.id
    ensures GetPaymentsByReservationId(users, rs, ps, p.reservationId, caller).Success?
    ensures p in GetPaymentsByReservationId(users, rs, ps, p.reservationId, caller).value
    ensures GetPaymentById(users, rs, ps, p.id, caller).Failure?
    ensures GetPaymentById(users, rs, ps, p.id, caller).error.AccessDenied?
  {
    FindByKeyUnique(ps, PaymentId, p);
  }

  /** createPayment's access rule: the reservation and the caller's user exist, and the user is staff or the owner. */
  predicate MayPayFor(users: seq<User>, rs: seq<Reservation>, reservationId: int, caller: Principal) {
    var found := FindByKey(rs, ReservationId, reservationId);
    var user := FindUserByUsername(users, caller.username);
    found.Some? && user.Some? && (IsStaff(user.value.role) || found.value.userId == user.value.id)
  }

  /** The payment createPayment stores, or why it stores nothing. */
  function CreatePaymentResult(users: seq<User>, rs: seq<Reservation>, ps: seq<Payment>,
                               dto: PaymentDto, caller: Principal, uuid: string, now: Instant): (r: Result<Payment, Exception>)
    requires IsUuidText(uuid)
    ensures !HasKey(rs, ReservationId, dto.reservationId) ==>
              r == Failure(RuntimeError(Some(WithId(ReservationNotFoundText, dto.reservationId))))
    ensures HasKey(rs, ReservationId, dto.reservationId) && FindUserByUsername(users, caller.username).None? ==>
              r == Failure(RuntimeError(Some(UserNotFoundText)))
    ensures r.Failure? && r.error.AccessDenied? <==>
              HasKey(rs, ReservationId, dto.reservationId) && FindUserByUsername(users, caller.username).Some? &&
              !MayPayFor(users, rs, dto.reservationId, caller)
    ensures r.Failure? && r.error.AccessDenied? ==> r.error == AccessDenied(Some(PaymentCreateDeniedText))
    ensures r.Failure? && r.error.DataIntegrityViolation? <==>
              MayPayFor(users, rs, dto.reservationId, caller) && TransactionIdTaken(ps, GenerateTransactionId(uuid))
    ensures r.Failure? && r.error.DataIntegrityViolation? ==> r.error == DataIntegrityViolation(None)
    ensures r.Success? <==>
              MayPayFor(users, rs, dto.reservationId, caller) && !TransactionIdTaken(ps, GenerateTransactionId(uuid))
    ensures r.Success? ==>
              r.value.id == NextKey(ps, PaymentId) && !HasKey(ps, PaymentId, r.value.id) &&
              r.value.transactionId == GenerateTransactionId(uuid) &&
              r.value.reservationId == dto.reservationId && r.value.paymentDate == now &&
              r.value.status == (if dto.status.Some? then dto.status.value else PaymentStatus.PENDING) &&
              r.value.amount == dto.amount && r.value.paymentMethod == dto.paymentMethod &&
              r.value.paymentDetails == dto.paymentDetails
  {
    var found := FindByKey(rs, ReservationId, dto.reservationId);
    if found.None? then Failure(RuntimeError(Some(WithId(ReservationNotFoundText, dto.reservationId))))
    else
      var user := FindUserByUsername(users, caller.username);
      if user.None? then Failure(RuntimeError(Some(UserNotFoundText)))
      else if !MayPayFor(users, rs, dto.reservationId, caller) then
        Failure(AccessDenied(Some(PaymentCreateDeniedText)))
      else InsertPayment(ps, NewPayment(ps, dto, uuid, now))
  }

  /**
   * The payment createPayment builds: a fresh id, a generated transaction
   * id, the time of the request, and PENDING when the request has no status.
   */
  function NewPayment(ps: seq<Payment>, dto: PaymentDto, uuid: string, now: Instant): (p: Payment)
    requires IsUuidText(uuid)
    ensures p.id == NextKey(ps, PaymentId) && !HasKey(ps, PaymentId, p.id)
    ensures p.transactionId == GenerateTransactionId(uuid)
    ensures p.reservationId == dto.reservationId && p.paymentDate == now
    ensures p.status == (if dto.status.Some? then dto.status.value else PaymentStatus.PENDING)
    ensures p.amount == dto.amount && p.paymentMethod == dto.paymentMethod && p.paymentDetails == dto.paymentDetails
  {
    var status := if dto.status.Some? then dto.status.value else PaymentStatus.PENDING;
    Payment(NextKey(ps, PaymentId), GenerateTransactionId(uuid), dto.reservationId, dto.amount,
            dto.paymentMethod, status, now, dto.paymentDetails)
  }

  /** A stored payment already has the transaction id. */
  ghost predicate TransactionIdTaken(ps: seq<Payment>, transactionId: string) {
    exists y :: y in ps && y.transactionId == transactionId
  }

  /** The insert of a new payment: the unique column refuses a transaction id that is already stored. */
  function InsertPayment(ps: seq<Payment>, payment: Payment): (r: Result<Payment, Exception>)
    ensures r.Failure? <==> TransactionIdTaken(ps, payment.transactionId)
    ensures r.Failure? ==> r.error == DataIntegrityViolation(None)
    ensures r.Success? ==> r.value == payment
  {
    if FindByTransactionId(ps, payment.transactionId).Some? then Failure(DataIntegrityViolation(None))
    else Success(payment)
  }

  /** The payment updatePaymentStatus saves: only ADMIN and MANAGER may change it. */
  function UpdatePaymentStatusResult(users: seq<User>, ps: seq<Payment>, id: int, status: PaymentStatus, caller: Principal): (r: Result<Payment, Exception>)
    ensures !HasKey(ps, PaymentId, id) ==> r == Failure(RuntimeError(Some(WithId(PaymentNotFoundText, id))))
    ensures HasKey(ps, PaymentId, id) && FindUserByUsername(users, caller.username).None? ==>
              r == Failure(RuntimeError(Some(UserNotFoundText)))
    ensures r.Success? <==>
              HasKey(ps, PaymentId, id) && FindUserByUsername(users, caller.username).Some? &&
              IsAdminOrManager(FindUserByUsername(users, caller.username).value.role)
    ensures r.Failure? && r.error.AccessDenied? <==>
              HasKey(ps, PaymentId, id) && FindUserByUsername(users, caller.username).Some? &&
              !IsAdminOrManager(FindUserByUsername(users, caller.username).value.role)
    ensures r.Failure? && r.error.AccessDenied? ==> r.error == AccessDenied(Some(PaymentStatusDeniedText))
    ensures r.Success? ==> r.value == FindByKey(ps, PaymentId, id).value.(status := status)
  {
    var found := FindByKey(ps, PaymentId, id);
    if found.None? then Failure(RuntimeError(Some(WithId(PaymentNotFoundText, id))))
    else
      var user := FindUserByUsername(users, caller.username);
      if user.None? then Failure(RuntimeError(Some(UserNotFoundText)))
      else if !IsAdminOrManager(user.value.role) then
        Failure(AccessDenied(Some(PaymentStatusDeniedText)))
      else Success(found.value.(status := status))
  }

  /** A receptionist, and a client even on their own booking, is refused a status change. */
  lemma StaffBelowManagerRefused(users: seq<User>, ps: seq<Payment>, id: int, status: PaymentStatus, caller: Principal)
    requires HasKey(ps, PaymentId, id) && FindUserByUsername(users, caller.username).Some?
    requires FindUserByUsername(users, caller.username).value.role in {RECEPTIONIST, CLIENT}
    ensures UpdatePaymentStatusResult(users, ps, id, status, caller).Failure?
    ensures UpdatePaymentStatusResult(users, ps, id, status, caller).error.AccessDenied?
  {
  }

  /** getMonthlyRevenue(year, month): the repository sum, NULL included. */
  function GetMonthlyRevenue(ps: seq<Payment>, year: int, month: int): (s: Option<int>)
    ensures s.None? <==> forall p :: p in ps ==> !CompletedInMonth(p, month, year)
  {
    SumCompletedPaymentsForMonth(ps, month, year)
  }

  /** getTotalRevenue(start, end): the repository sum, NULL included. */
  function GetTotalRevenue(ps: seq<Payment>, start: Instant, end: Instant): (s: Option<int>)
    ensures s.None? <==> forall p :: p in ps ==> !CompletedBetween(p, start, end)
  {
    SumCompletedPaymentsBetweenDates(ps, start, end)
  }

  class PaymentService {
    const db: HotelDatabase

    constructor (db: HotelDatabase)
      ensures this.db == db
    {
      this.db := db;
    }

    /** createPayment: stores the payment and, when it is COMPLETED, confirms the booking. */
    method CreatePayment(dto: PaymentDto, caller: Principal, uuid: string, now: Instant) returns (r: Result<Payment, Exception>)
      requires db.Valid() && IsUuidText(uuid)
      modifies db`payments, db`reservations
      ensures db.Valid()
      ensures r == CreatePaymentResult(db.users, old(db.reservations), old(db.payments), dto, caller, uuid, now)
      ensures db.payments == if r.Success? then old(db.payments) + [r.value] else old(db.payments)
      ensures r.Success? ==> HasKey(old(db.reservations), ReservationId, r.value.reservationId)
      ensures db.reservations == if r.Success? && r.value.status == COMPLETED then Confirmed(old(db.reservations), r.value.reservationId)
                                 else old(db.reservations)
    {
      r := CreatePaymentResult(db.users, db.reservations, db.payments, dto, caller, uuid, now);
      if r.Failure? {
        return;
      }
      var payment := r.value;
      AppendPayment(payment);
      if payment.status == COMPLETED {
        ConfirmReservation(payment.reservationId);
      }
    }

    /** updatePaymentStatus: only ADMIN and MANAGER; COMPLETED confirms the booking. */
    method UpdatePaymentStatus(id: int, status: PaymentStatus, caller: Principal) returns (r: Result<Payment, Exception>)
      requires db.Valid()
      modifies db`payments, db`reservations
      ensures db.Valid()
      ensures r == UpdatePaymentStatusResult(db.users, old(db.payments), id, status, caller)
      ensures db.payments == if r.Success? then ReplaceByKey(old(db.payments), PaymentId, r.value) else old(db.payments)
      ensures r.Success? ==> HasKey(old(db.reservations), ReservationId, r.value.reservationId)
      ensures db.reservations == if r.Success? && status == COMPLETED then Confirmed(old(db.reservations), r.value.reservationId)
                                 else old(db.reservations)
    {
      r := UpdatePaymentStatusResult(db.users, db.payments, id, status, caller);
      if r.Failure? {
        return;
      }
      var payment := r.value;
      assert FindByKey(db.payments, PaymentId, id).value in db.payments;
      if status == COMPLETED {
        ConfirmReservation(payment.reservationId);
      }
      SavePayment(payment);
    }

    /** paymentRepository.save of a new payment whose booking is stored. */
    method AppendPayment(payment: Payment)
      requires db.Valid()
      requires !HasKey(db.payments, PaymentId, payment.id) && HasKey(db.reservations, ReservationId, payment.reservationId)
      requires forall y :: y in db.payments ==> y.transactionId != payment.transactionId
      modifies db`payments
      ensures db.Valid()
      ensures db.payments == old(db.payments) + [payment]
    {
      AppendFreshKeepsKeys(db.payments, PaymentId, payment);
      AppendLinked(db.payments, db.reservations, payment);
      db.payments := db.payments + [payment];
    }

    /** paymentRepository.save of a stored payment whose booking is stored. */
    method SavePayment(payment: Payment)
      requires db.Valid()
      requires HasKey(db.payments, PaymentId, payment.id) && HasKey(db.reservations, ReservationId, payment.reservationId)
      requires forall y :: y in db.payments && y.transactionId == payment.transactionId ==> y.id == payment.id
      modifies db`payments
      ensures db.Valid()
      ensures db.payments == ReplaceByKey(old(db.payments), PaymentId, payment)
    {
      ReplaceLinked(db.payments, db.reservations, payment);
      ReplaceKeepsTransactionIdsUnique(db.payments, payment);
      ReplaceKeepsKeys(db.payments, PaymentId, payment);
      db.payments := ReplaceByKey(db.payments, PaymentId, payment);
    }

    /** reservation.setStatus(CONFIRMED) and save. */
    method ConfirmReservation(reservationId: int)
      requires UniqueKeys(db.reservations, ReservationId) && HasKey(db.reservations, ReservationId, reservationId)
      requires PaymentsLinked(db.payments, db.reservations)
      modifies db`reservations
      ensures UniqueKeys(db.reservations, ReservationId)
      ensures PaymentsLinked(db.payments, db.reservations)
      ensures db.reservations == Confirmed(old(db.reservations), reservationId)
    {
      var reservation := FindByKey(db.reservations, ReservationId, reservationId).value.(status := CONFIRMED);
      ReplaceKeepsKeys(db.reservations, ReservationId, reservation);
      ReplaceKeepsEveryKey(db.reservations, ReservationId, reservation);
      db.reservations := ReplaceByKey(db.reservations, ReservationId, reservation);
    }
  }
}
