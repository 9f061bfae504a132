# Hotel backend core, modelled in Dafny

This project models the business core of a Spring Boot hotel backend. That core is:

- the JPQL queries of its repositories (reservations, rooms, payments, messages, blog posts, testimonials);
- the services that read and change those tables (reservations, rooms, payments, statistics, messages, blog posts, testimonials);
- the global exception handler that turns exceptions into HTTP statuses.

**The database** is one object, `Database.HotelDatabase`.
- It holds one `seq` field per table.
- Its invariant `Valid()` says:
  - ids are unique in every table;
  - room numbers and payment transaction ids are unique, as their `unique` columns demand;
  - every payment points at a stored reservation;
  - every read message has a `readAt`;
  - every published post has a `publishedAt`.

**Each service** is a class over that database.
- Its methods change only the table fields they name.
- Each method is proved to return exactly what a pure function of the old tables returns. That function lists the service's exceptions in the order the Java code throws them, then the stored result's fields.
- On success the table is appended, has one row replaced by id, or has one row removed by id. On any exception it is left unchanged, because every service method is `@Transactional`.

**Repositories** are pure functions over table sequences. Each states exactly which rows it returns: both directions of membership, and the order where the query has an `ORDER BY`.

**Representations**
- Dates are epoch day numbers; timestamps are epoch seconds.
- Money is an integer number of cents, since every amount column has scale 2.
- SQL `SUM` and `AVG` over no rows give `None`, the Java `null`.
- The clock and the random UUID are parameters of the operations that read them.
- The caller is a `Principal`: a username and its granted authorities. The caller's user, and so their role, is looked up in the users table, and a missing user is an error path of every operation.

**Exceptions** are a datatype with one variant per Java exception class the handler tells apart. The services' French messages are kept word for word, because the handler searches the message text for "not found".

**Where the repository's documented behaviour and its code differ, the model follows the code:**
- The overlap test uses closed intervals (`BETWEEN` includes both ends) and applies no status filter. So a booking that starts on an existing stay's check-out day is refused, and cancelled reservations still block a room.
- The monthly and period revenue methods of the payment service return `null`, not zero, when no payment matches. Only the statistics service replaces `null` by zero.
- With no rooms, the occupancy computation does not return a zero rate. It divides by zero, and `new BigDecimal` of the NaN or infinite quotient throws `NumberFormatException`, which becomes HTTP 400.

## Model

| member | source | states |
|---|---|---|
| ReservationRepository.FindOverlappingReservations | src/main/java/com/gallagher/hotel/repository/ReservationRepository.java:33-39 | a reservation is returned iff it is stored, is for the room, and its check-in or check-out lies in [checkIn, checkOut] or checkIn lies in its stay, all bounds inclusive, whatever its status |
| ReservationRepository.OverlapIsIntersection | src/main/java/com/gallagher/hotel/repository/ReservationRepository.java:34-36 | for ordered ranges the three-way BETWEEN test equals closed-interval intersection `in <= existing.checkOut && existing.checkIn <= out` |
| ReservationRepository.BackToBackOverlaps | src/main/java/com/gallagher/hotel/repository/ReservationRepository.java:35 | a stay whose check-in is an existing stay's check-out overlaps it |
| ReservationRepository.OverlapIgnoresStatus | src/main/java/com/gallagher/hotel/repository/ReservationRepository.java:33-36 | the overlap test gives the same answer whatever the stored reservation's status (CANCELLED included) |
| ReservationRepository.FindByCheckInDateBetween | src/main/java/com/gallagher/hotel/repository/ReservationRepository.java:30-31 | exactly the reservations whose check-in lies in [start, end], both bounds included, check-out and status ignored |
| ReservationRepository.CheckInDateBetweenAppend | src/main/java/com/gallagher/hotel/repository/ReservationRepository.java:30-31 | a stored reservation adds itself to the result iff its check-in is in range, keeping table order |
| ReservationRepository.FindByCheckInOrCheckOutDate | src/main/java/com/gallagher/hotel/repository/ReservationRepository.java:27-28 | exactly the reservations that check in or check out on the date |
| ReservationRepository.CountConfirmedIsFilterSize | src/main/java/com/gallagher/hotel/repository/ReservationRepository.java:41-42 | the count is the number of CONFIRMED reservations whose check-in falls in the year and month, and is 0 iff there is none |
| ReservationRepository.CountConfirmedReservationsForMonth | src/main/java/com/gallagher/hotel/repository/ReservationRepository.java:41-42 | never more than the stored reservations; its value is stated by CountConfirmedIsFilterSize |
| ReservationRepository.FindByReservationNumber | src/main/java/com/gallagher/hotel/repository/ReservationRepository.java:19 | returns a stored reservation with that number, and nothing iff no reservation has it |
| ReservationRepository.FindByUser | src/main/java/com/gallagher/hotel/repository/ReservationRepository.java:21 | exactly the reservations of the user |
| ReservationRepository.FindByRoom | src/main/java/com/gallagher/hotel/repository/ReservationRepository.java:23 | exactly the reservations of the room |
| ReservationRepository.FindByStatus | src/main/java/com/gallagher/hotel/repository/ReservationRepository.java:25 | exactly the reservations with the status |
| RoomRepository.BookedRoomIds | src/main/java/com/gallagher/hotel/repository/RoomRepository.java:30-33 | the subquery: a room id is in it iff some reservation of that room blocks the range |
| RoomRepository.FindAvailableRooms | src/main/java/com/gallagher/hotel/repository/RoomRepository.java:29-34 | a room is returned iff it is stored and none of its reservations blocks the range (inclusive bounds, no status filter); never more rooms than stored |
| RoomRepository.BlocksIsIntersection | src/main/java/com/gallagher/hotel/repository/RoomRepository.java:31-33 | for ordered ranges the NOT IN subquery's test is closed-interval intersection |
| RoomRepository.AvailableIffNoOverlap | src/main/java/com/gallagher/hotel/repository/RoomRepository.java:29-34 | for well-ordered dates a room is available iff findOverlappingReservations for it is empty |
| RoomRepository.UnbookedRoomAvailable | src/main/java/com/gallagher/hotel/repository/RoomRepository.java:29-30 | a stored room without reservations is always available |
| RoomRepository.CancelledReservationBlocks | src/main/java/com/gallagher/hotel/repository/RoomRepository.java:30-33 | a CANCELLED reservation checking in inside the range still makes its room unavailable |
| RoomRepository.AvailableByTypeIsFilteredAvailable | src/main/java/com/gallagher/hotel/repository/RoomRepository.java:36-43 | findAvailableRoomsByType equals findAvailableRooms filtered to the type |
| RoomRepository.FindAvailableRoomsByType | src/main/java/com/gallagher/hotel/repository/RoomRepository.java:36-43 | only stored rooms of the type; the row above makes it exactly the available rooms of that type |
| RoomRepository.FindByRoomNumber | src/main/java/com/gallagher/hotel/repository/RoomRepository.java:19 | returns a stored room with that number, and nothing iff none has it |
| RoomRepository.FindByType | src/main/java/com/gallagher/hotel/repository/RoomRepository.java:21 | exactly the rooms of the type |
| RoomRepository.FindByStatus | src/main/java/com/gallagher/hotel/repository/RoomRepository.java:23 | exactly the rooms with the status |
| RoomRepository.FindByCapacityGreaterThanEqual | src/main/java/com/gallagher/hotel/repository/RoomRepository.java:25 | exactly the rooms with capacity >= the threshold (inclusive) |
| RoomRepository.FindByPricePerNightLessThanEqual | src/main/java/com/gallagher/hotel/repository/RoomRepository.java:27 | exactly the rooms priced <= the threshold (inclusive) |
| RoomRepository.CapacityThresholdMonotone | src/main/java/com/gallagher/hotel/repository/RoomRepository.java:25 | raising the capacity threshold only removes rooms |
| Reservations.GenerateReservationNumber | src/main/java/com/gallagher/hotel/services/ReservationService.java:189-191 | `RES-` followed by 8 upper-case hexadecimal characters, 12 characters in all |
| Text.UuidCode | src/main/java/com/gallagher/hotel/services/ReservationService.java:189-191 | prefix followed by the first 8 characters of the UUID, upper-cased, each an upper-case hex digit |
| Text.UuidCodeInjective | src/main/java/com/gallagher/hotel/services/ReservationService.java:189-191 | two codes are equal iff the UUIDs share their first 8 characters (uniqueness is not guaranteed) |
| Database.FindUserByUsername | src/main/java/com/gallagher/hotel/services/ReservationService.java:43-44 | returns a stored user with that username, and nothing iff there is none |
| Reservations.GetReservationById | src/main/java/com/gallagher/hotel/services/ReservationService.java:39-56 | missing id, then missing user, in that order; AccessDenied iff the caller is neither ADMIN/MANAGER/RECEPTIONIST nor the owner, with the message "Vous n'êtes pas autorisé à accéder à cette réservation"; otherwise the stored reservation |
| Reservations.ClientReadsOnlyOwnReservations | src/main/java/com/gallagher/hotel/services/ReservationService.java:47-53 | a CLIENT reads a reservation iff it is theirs |
| Reservations.CreateReservationResult | src/main/java/com/gallagher/hotel/services/ReservationService.java:58-88 | user, room, then overlap failures in source order; success iff user and room exist and no overlapping reservation exists; the new reservation is PENDING, owned by the caller, for the room, with a fresh id, the generated number and the request's other fields |
| Reservations.DoubleBookingRefused | src/main/java/com/gallagher/hotel/services/ReservationService.java:69-76 | after a successful create, any second create for the same room over an intersecting range is refused with the unavailability message |
| Reservations.ApplyReservationPatch | src/main/java/com/gallagher/hotel/services/ReservationService.java:107-126 | check-in, check-out and special requests replaced only when given, guests only when > 0, status only for staff; id, number, owner, room and price never change |
| Reservations.PatchIdempotent | src/main/java/com/gallagher/hotel/services/ReservationService.java:107-126 | applying the same update twice is the same as once |
| Reservations.EmptyPatchKeepsReservation | src/main/java/com/gallagher/hotel/services/ReservationService.java:107-126 | an update carrying nothing changes nothing |
| Reservations.ClientCannotChangeStatus | src/main/java/com/gallagher/hotel/services/ReservationService.java:124-126 | a non-staff update never changes the status |
| Reservations.UpdateReservationResult | src/main/java/com/gallagher/hotel/services/ReservationService.java:90-131 | same failures and same access rule as reading, the refusal carrying "Vous n'êtes pas autorisé à modifier cette réservation"; on success the stored reservation patched with the caller's staff flag (no date or overlap re-check) |
| Reservations.CancelReservationResult | src/main/java/com/gallagher/hotel/services/ReservationService.java:133-153 | the reservation-not-found message iff the id is missing, then the user-not-found RuntimeException; AccessDenied with the cancel message iff the user is neither staff nor the owner; allowed iff reading is allowed; the result is the stored reservation with status CANCELLED, from any status |
| Reservations.CancelIdempotent | src/main/java/com/gallagher/hotel/services/ReservationService.java:150-152 | cancelling twice leaves the table as cancelling once |
| Reservations.UpdateReservationStatusResult | src/main/java/com/gallagher/hotel/services/ReservationService.java:179-187 | succeeds iff the id exists, with no authorization check; the result is the stored reservation with the given status |
| Reservations.StatusOverwriteLastWins | src/main/java/com/gallagher/hotel/services/ReservationService.java:184-185 | two status writes leave the table as the last one alone |
| Reservations.GetUserReservations | src/main/java/com/gallagher/hotel/services/ReservationService.java:155-163 | fails iff the caller's user is missing; otherwise exactly the reservations owned by the caller |
| Reservations.ReservationService.CreateReservation | src/main/java/com/gallagher/hotel/services/ReservationService.java:58-88 | returns the create outcome and appends the new reservation iff it succeeds; keeps the table's invariants |
| Reservations.ReservationService.UpdateReservation | src/main/java/com/gallagher/hotel/services/ReservationService.java:90-131 | returns the update outcome and replaces the stored row by the patched one iff it succeeds |
| Reservations.ReservationService.PatchReservation | src/main/java/com/gallagher/hotel/services/ReservationService.java:107-126 | the setter sequence yields exactly the patched reservation |
| Reservations.ReservationService.CancelReservation | src/main/java/com/gallagher/hotel/services/ReservationService.java:133-153 | reports the cancel outcome's exception, and stores the CANCELLED row iff it succeeds |
| Reservations.ReservationService.UpdateReservationStatus | src/main/java/com/gallagher/hotel/services/ReservationService.java:179-187 | returns the outcome and stores the new status iff the id exists |
| Reservations.ReservationService.Save | src/main/java/com/gallagher/hotel/services/ReservationService.java:128-129 | replaces the row with the same id and keeps the table's invariants |
| Rooms.GetRoomById | src/main/java/com/gallagher/hotel/services/RoomService.java:30-34 | fails with the room-not-found message iff the id is missing, else the stored room |
| Rooms.FindAvailableRoomsChecked | src/main/java/com/gallagher/hotel/services/RoomService.java:62-71 | IllegalArgument iff check-in is after check-out (equal dates accepted), else the available rooms |
| Rooms.OfferedRoomCanBeBooked | src/main/java/com/gallagher/hotel/services/RoomService.java:62-71 | a room offered for a range can be booked for that range by an existing user |
| Rooms.GetRoomsByMinCapacity | src/main/java/com/gallagher/hotel/services/RoomService.java:80-85 | exactly the rooms with capacity >= the minimum |
| Rooms.ExistsById | src/main/java/com/gallagher/hotel/services/RoomService.java:45 | true iff a room has the id |
| Rooms.UpdateRoomResult | src/main/java/com/gallagher/hotel/services/RoomService.java:43-52 | the room-not-found message iff the id is missing; otherwise the unique column's refusal iff another stored room has the number; otherwise the supplied room with its id forced (a full replacement, not a partial update) |
| Rooms.NumberTakenByOther | src/main/java/com/gallagher/hotel/models/Room.java:25-26 | true iff a stored room with another id already has the number |
| Rooms.CreateRoomResult | src/main/java/com/gallagher/hotel/services/RoomService.java:36-41 | the unique column's refusal iff a stored room already has the number; otherwise the supplied room under a fresh id |
| Rooms.FindByRoomNumberIsTheRoom | src/main/java/com/gallagher/hotel/models/Room.java:25-26 | while numbers are unique, findByRoomNumber of a stored room's number returns that very room |
| Rooms.CreatedRoomFoundByNumber | src/main/java/com/gallagher/hotel/services/RoomService.java:36-41 | a created room keeps the numbers unique and is what its number finds |
| Rooms.UpdateRoomReadsBack | src/main/java/com/gallagher/hotel/services/RoomService.java:43-52 | after a successful update the room reads back as the supplied room, by id and by number, and every other id reads as before |
| Rooms.DeleteRoomReadsBack | src/main/java/com/gallagher/hotel/services/RoomService.java:54-60 | after a delete the id is not found and every other id reads as before |
| Rooms.RoomService.CreateRoom | src/main/java/com/gallagher/hotel/services/RoomService.java:36-41 | returns CreateRoomResult over the old table; appends the room iff it succeeds, otherwise changes nothing; keeps ids and numbers unique |
| Rooms.RoomService.UpdateRoom | src/main/java/com/gallagher/hotel/services/RoomService.java:43-52 | returns UpdateRoomResult over the old table and replaces the row iff it succeeds; keeps ids and numbers unique |
| Rooms.RoomService.DeleteRoom | src/main/java/com/gallagher/hotel/services/RoomService.java:54-60 | fails iff the id is missing and then changes nothing; otherwise removes exactly that room |
| PaymentRepository.TotalAppend | src/main/java/com/gallagher/hotel/repository/PaymentRepository.java:25-29 | SUM over rows grows by the appended row's amount |
| PaymentRepository.Sum | src/main/java/com/gallagher/hotel/repository/PaymentRepository.java:25-29 | SQL SUM: null exactly over no rows |
| PaymentRepository.CompletedBetweenRows | src/main/java/com/gallagher/hotel/repository/PaymentRepository.java:25 | exactly the COMPLETED payments dated in [start, end] |
| PaymentRepository.CompletedInMonthRows | src/main/java/com/gallagher/hotel/repository/PaymentRepository.java:28 | exactly the COMPLETED payments dated in the month of the year |
| PaymentRepository.CompletedBetweenRowsAppend | src/main/java/com/gallagher/hotel/repository/PaymentRepository.java:25 | an appended payment adds itself iff it is COMPLETED and in range |
| PaymentRepository.CompletedInMonthRowsAppend | src/main/java/com/gallagher/hotel/repository/PaymentRepository.java:28 | an appended payment adds itself iff it is COMPLETED and in the month |
| PaymentRepository.SumCompletedPaymentsBetweenDates | src/main/java/com/gallagher/hotel/repository/PaymentRepository.java:25-26 | null iff no COMPLETED payment is dated in [start, end] |
| PaymentRepository.SumCompletedPaymentsForMonth | src/main/java/com/gallagher/hotel/repository/PaymentRepository.java:28-29 | null iff no COMPLETED payment falls in the month |
| PaymentRepository.SumBetweenIgnoresNonMatching | src/main/java/com/gallagher/hotel/repository/PaymentRepository.java:25-26 | adding a payment that is not COMPLETED or is out of range leaves the period sum unchanged |
| PaymentRepository.SumBetweenAddsMatching | src/main/java/com/gallagher/hotel/repository/PaymentRepository.java:25-26 | adding a matching payment adds its amount (from null, the sum becomes its amount) |
| PaymentRepository.SumForMonthIgnoresNonMatching | src/main/java/com/gallagher/hotel/repository/PaymentRepository.java:28-29 | adding a payment that is not COMPLETED or is outside the month leaves the monthly sum unchanged |
| PaymentRepository.SumForMonthAddsMatching | src/main/java/com/gallagher/hotel/repository/PaymentRepository.java:28-29 | adding a matching payment adds its amount to the monthly sum |
| PaymentRepository.CountFailedIsFilterSize | src/main/java/com/gallagher/hotel/repository/PaymentRepository.java:31-32 | the count is the number of FAILED payments dated in [start, end], both bounds included, and is 0 iff there is none |
| PaymentRepository.CountFailedAppend | src/main/java/com/gallagher/hotel/repository/PaymentRepository.java:31-32 | a new payment raises the count by one iff it is FAILED and dated in the bounds |
| PaymentRepository.CountFailedPaymentsBetweenDates | src/main/java/com/gallagher/hotel/repository/PaymentRepository.java:31-32 | never more than the stored payments; its value is stated by the two rows above |
| PaymentRepository.FindByTransactionId | src/main/java/com/gallagher/hotel/repository/PaymentRepository.java:19 | returns a payment with that transaction id, and nothing iff none has it |
| PaymentRepository.FindByReservation | src/main/java/com/gallagher/hotel/repository/PaymentRepository.java:21 | exactly the payments of the reservation |
| PaymentRepository.FindByStatus | src/main/java/com/gallagher/hotel/repository/PaymentRepository.java:23 | exactly the payments with the status |
| Payments.GenerateTransactionId | src/main/java/com/gallagher/hotel/services/PaymentService.java:160-162 | `TRX-` followed by 8 upper-case hexadecimal characters |
| Payments.ConfirmedReadsBack | src/main/java/com/gallagher/hotel/services/PaymentService.java:93-96 | confirming sets that reservation to CONFIRMED, whatever its status, and leaves every other reservation as it was |
| Payments.ReservationOf | src/main/java/com/gallagher/hotel/services/PaymentService.java:53 | the stored reservation a payment belongs to |
| Payments.GetPaymentById | src/main/java/com/gallagher/hotel/services/PaymentService.java:42-58 | missing payment, then missing user; success iff the caller is ADMIN or MANAGER or owns the payment's reservation, and AccessDenied (403) with "Vous n'êtes pas autorisé à accéder à ce paiement" iff both exist and the caller is neither |
| Payments.GetPaymentsByReservationId | src/main/java/com/gallagher/hotel/services/PaymentService.java:130-150 | missing reservation, then missing user (RuntimeException, 400); success iff the caller is staff (RECEPTIONIST included) or the owner, and AccessDenied (403) with "Vous n'êtes pas autorisé à accéder aux paiements de cette réservation" iff both exist and the caller is neither; then exactly that reservation's payments |
| Payments.ReceptionistListsButCannotRead | src/main/java/com/gallagher/hotel/services/PaymentService.java:50-55 | a RECEPTIONIST who does not own the reservation sees a payment in the reservation's list but is denied reading it by id |
| Payments.CreatePaymentResult | src/main/java/com/gallagher/hotel/services/PaymentService.java:60-99 | missing reservation, then missing user, then AccessDenied iff neither staff nor owner (with "Vous n'êtes pas autorisé à créer un paiement pour cette réservation"), then the unique column's refusal iff a stored payment has the generated transaction id; otherwise a fresh id, that transaction id, the reservation, date now, and PENDING unless a status is given |
| Payments.InsertPayment | src/main/java/com/gallagher/hotel/models/Payment.java:24-25 | the insert of a new payment is refused iff a stored payment already has its transaction id, and otherwise stores it unchanged |
| Payments.UpdatePaymentStatusResult | src/main/java/com/gallagher/hotel/services/PaymentService.java:101-128 | missing payment, then missing user; success iff ADMIN or MANAGER, AccessDenied with "Vous n'êtes pas autorisé à modifier le statut d'un paiement" iff the user exists and is neither (RECEPTIONIST refused); the payment with the new status |
| Payments.StaffBelowManagerRefused | src/main/java/com/gallagher/hotel/services/PaymentService.java:110-115 | a RECEPTIONIST or CLIENT is denied a status change |
| Payments.GetMonthlyRevenue | src/main/java/com/gallagher/hotel/services/PaymentService.java:152-154 | the repository's monthly sum unchanged, null included |
| Payments.GetTotalRevenue | src/main/java/com/gallagher/hotel/services/PaymentService.java:156-158 | the repository's period sum unchanged, null included |
| Database.AppendLinked | src/main/java/com/gallagher/hotel/services/PaymentService.java:79-81 | appending a payment linked to a stored reservation keeps every payment linked |
| Database.ReplaceLinked | src/main/java/com/gallagher/hotel/services/PaymentService.java:117-126 | replacing a payment by one linked to a stored reservation keeps every payment linked |
| Database.ReplaceKeepsRoomNumbersUnique | src/main/java/com/gallagher/hotel/models/Room.java:25-26 | saving a room whose number no other room holds keeps room numbers unique |
| Database.ReplaceKeepsTransactionIdsUnique | src/main/java/com/gallagher/hotel/models/Payment.java:24-25 | saving a payment whose transaction id no other payment holds keeps transaction ids unique |
| Payments.PaymentService.CreatePayment | src/main/java/com/gallagher/hotel/services/PaymentService.java:60-99 | returns the create outcome; appends the payment iff it succeeds; the reservation becomes CONFIRMED iff the new payment is COMPLETED, else the reservations are unchanged |
| Payments.PaymentService.UpdatePaymentStatus | src/main/java/com/gallagher/hotel/services/PaymentService.java:101-128 | returns the outcome; on success replaces the payment, and the linked reservation becomes CONFIRMED iff the new status is COMPLETED (even from CANCELLED); on refusal nothing changes |
| Payments.PaymentService.AppendPayment | src/main/java/com/gallagher/hotel/services/PaymentService.java:89-90 | appends a payment with a fresh id and an unused transaction id, and keeps the invariants |
| Payments.PaymentService.SavePayment | src/main/java/com/gallagher/hotel/services/PaymentService.java:126 | replaces the payment with the same id, whose transaction id no other payment holds, and keeps the invariants |
| Payments.PaymentService.ConfirmReservation | src/main/java/com/gallagher/hotel/services/PaymentService.java:121-123 | the reservation table becomes the one with that reservation CONFIRMED |
| Statistics.NightsWithinStay | src/main/java/com/gallagher/hotel/services/StatisticService.java:70-86 | for a queried stay with check-in before check-out, the clamped nights are >= 0 and at most both the stay's length and the nights to the period end; the check-in clamp never fires |
| Statistics.Nights | src/main/java/com/gallagher/hotel/services/StatisticService.java:70-86 | the clamped nights of one stay are never more than the stay's own nights or the period's |
| Statistics.BookedNightsAtMostFullPeriod | src/main/java/com/gallagher/hotel/services/StatisticService.java:66-87 | the nights summed over a list are at most the list's length times the period's nights |
| Statistics.TotalBookedNightsAtMostFullPeriod | src/main/java/com/gallagher/hotel/services/StatisticService.java:66-87 | over a non-empty period, totalBookedNights is at most every stored stay filling the whole period |
| Statistics.BookedNightsNonNegative | src/main/java/com/gallagher/hotel/services/StatisticService.java:69-87 | the booked nights of queried, ordered stays are never negative |
| Statistics.StayInPeriodCounts | src/main/java/com/gallagher/hotel/services/StatisticService.java:66-87 | a stay checking in inside the period adds its clamped nights to totalBookedNights |
| Statistics.CancelledStayRaisesBookedNights | src/main/java/com/gallagher/hotel/services/StatisticService.java:66-87 | a CANCELLED stay checking in inside the period raises totalBookedNights (no status filter) |
| Statistics.SumBookedNights | src/main/java/com/gallagher/hotel/services/StatisticService.java:69-87 | the loop accumulates exactly the booked nights of the queried reservations |
| Statistics.OccupancyRate | src/main/java/com/gallagher/hotel/services/StatisticService.java:90-92 | rate × available nights = 100 × booked nights, the rate before rounding |
| Statistics.OccupancyResult | src/main/java/com/gallagher/hotel/services/StatisticService.java:55-104 | fails (NaN or infinite quotient) iff there are no rooms or the period is empty; otherwise the period, the room count, totalAvailableNights = totalRooms × (days of the period, both ends included), totalBookedNights and the exact rate |
| Statistics.MonthlyOccupancyFailsOnlyWithoutRooms | src/main/java/com/gallagher/hotel/services/StatisticService.java:124-126 | over a calendar month the occupancy computation fails iff there are no rooms |
| Calendar.AtEndOfMonth | src/main/java/com/gallagher/hotel/services/StatisticService.java:124-125 | atEndOfMonth is atDay(1) plus the month's length minus one, so at least 27 days later |
| Calendar.AtDay | src/main/java/com/gallagher/hotel/services/StatisticService.java:124 | day d of a month is d - 1 days after its first day |
| Calendar.YearMonthOf | src/main/java/com/gallagher/hotel/repository/PaymentRepository.java:28-29 | YEAR() and MONTH() of a day: the month is always in 1..12 |
| Statistics.StatisticService.CalculateOccupancyRate | src/main/java/com/gallagher/hotel/services/StatisticService.java:55-104 | returns exactly the occupancy result over the current rooms and reservations |
| Statistics.StatisticService.GetMonthlyRevenuesForYear | src/main/java/com/gallagher/hotel/services/StatisticService.java:44-53 | the keys are exactly 1..12, and each value is that month's completed sum, 0 when it is null |
| Statistics.MonthlyReservationsCountIsConfirmedCount | src/main/java/com/gallagher/hotel/services/StatisticService.java:106-108 | the monthly count is the number of CONFIRMED reservations checking in that month |
| Statistics.MonthlyReservationsCount | src/main/java/com/gallagher/hotel/services/StatisticService.java:106-108 | never more than the stored reservations; its value is stated by the row above |
| Statistics.ToInt32 | src/main/java/com/gallagher/hotel/services/StatisticService.java:138 | the `(int)` cast: a 32-bit value congruent to the count modulo 2^32 |
| Statistics.ToInt32InRange | src/main/java/com/gallagher/hotel/services/StatisticService.java:138 | the cast keeps every count that fits in 32 bits |
| Statistics.BookingsStat | src/main/java/com/gallagher/hotel/services/StatisticService.java:135-138 | type BOOKINGS_COUNT, dated the first of the month, with only valueInteger set |
| Statistics.MonthlyStatisticRows | src/main/java/com/gallagher/hotel/services/StatisticService.java:117-139 | three rows when there is revenue, two otherwise |
| Statistics.MonthlyStatisticRowsShape | src/main/java/com/gallagher/hotel/services/StatisticService.java:117-139 | every row is dated the first of the month; a REVENUE row exists iff the sum is non-null and carries it; then OCCUPANCY_RATE with the rate and BOOKINGS_COUNT with the count |
| Statistics.MonthlySnapshot | src/main/java/com/gallagher/hotel/services/StatisticService.java:110-140 | fails iff the month's occupancy computation fails; otherwise the rows built from the month's revenue, rate and confirmed count |
| Statistics.StatisticService.CollectMonthlyStatistics | src/main/java/com/gallagher/hotel/services/StatisticService.java:113-138 | builds exactly the month's snapshot, or the exception the occupancy computation throws |
| Statistics.StatisticService.SaveMonthlyStatistics | src/main/java/com/gallagher/hotel/services/StatisticService.java:110-140 | appends the snapshot rows in one transaction, or reports the exception and appends nothing |
| Statistics.ArrivalsAndDeparturesAreFilterSizes | src/main/java/com/gallagher/hotel/services/StatisticService.java:166-171 | checkInsToday is the number of reservations checking in on the day, checkOutsToday the number checking out |
| Statistics.ArrivalsAndDeparturesAppend | src/main/java/com/gallagher/hotel/services/StatisticService.java:166-171 | a new reservation adds one arrival iff it checks in on the day, one departure iff it checks out on it |
| Statistics.CountArrivals | src/main/java/com/gallagher/hotel/services/StatisticService.java:168-169 | never more than the reservations counted; its value is stated by ArrivalsAndDeparturesAreFilterSizes |
| Statistics.CountDepartures | src/main/java/com/gallagher/hotel/services/StatisticService.java:170-171 | never more than the reservations counted; its value is stated by ArrivalsAndDeparturesAreFilterSizes |
| Statistics.ArrivalsOfTodaysList | src/main/java/com/gallagher/hotel/services/StatisticService.java:167-171 | counting check-ins (check-outs) on today's list gives the check-ins (check-outs) of the whole table |
| Statistics.ArrivalsAndDeparturesCoverList | src/main/java/com/gallagher/hotel/services/StatisticService.java:167-171 | every reservation on today's list is a check-in or a check-out of today |
| Statistics.GetDashboardStatistics | src/main/java/com/gallagher/hotel/services/StatisticService.java:142-174 | fails iff there are no rooms; otherwise the month's revenue (0 when null), the month's occupancy, the room count, the rooms free from today to tomorrow, and today's check-ins and check-outs |
| Statistics.GetStatisticsByTypeAndPeriod | src/main/java/com/gallagher/hotel/services/StatisticService.java:37-42 | exactly the stored statistics of the type dated in [start, end] |
| Domain.Statistic.CreateRevenueStat | src/main/java/com/gallagher/hotel/models/Statistic.java:40-46 | type REVENUE, dated the first of the month, value = the amount; valueString, valueInteger and percentageValue null |
| Domain.Statistic.CreateOccupancyStat | src/main/java/com/gallagher/hotel/models/Statistic.java:48-54 | type OCCUPANCY_RATE, dated the first of the month, percentageValue = the rate; value, valueString and valueInteger null |
| MessageRepository.FindBySender | src/main/java/com/gallagher/hotel/repository/MessageRepository.java:17 | exactly the messages sent by the user |
| MessageRepository.FindByRecipient | src/main/java/com/gallagher/hotel/repository/MessageRepository.java:19 | exactly the messages received by the user |
| MessageRepository.FindAllUserMessages | src/main/java/com/gallagher/hotel/repository/MessageRepository.java:21-22 | exactly the messages the user sent or received, newest first |
| MessageRepository.FindConversation | src/main/java/com/gallagher/hotel/repository/MessageRepository.java:24-25 | exactly the messages between the two users in either direction, newest first |
| MessageRepository.ConversationSymmetric | src/main/java/com/gallagher/hotel/repository/MessageRepository.java:24-25 | the conversation of a with b is the conversation of b with a |
| MessageRepository.FindByRecipientAndReadFalse | src/main/java/com/gallagher/hotel/repository/MessageRepository.java:27 | exactly the unread messages received by the user |
| MessageRepository.CountUnreadIsListSize | src/main/java/com/gallagher/hotel/repository/MessageRepository.java:27-30 | countUnreadMessages equals the size of findByRecipientAndReadFalse |
| MessageRepository.FindByRecipientOrderByCreatedAtDesc | src/main/java/com/gallagher/hotel/repository/MessageRepository.java:32 | the user's received messages, newest first |
| MessageRepository.FindBySenderOrderByCreatedAtDesc | src/main/java/com/gallagher/hotel/repository/MessageRepository.java:34 | the user's sent messages, newest first |
| Seqs.InsertDescSorted | src/main/java/com/gallagher/hotel/repository/MessageRepository.java:21-25 | the ORDER BY ... DESC sort: inserting into a descending list keeps it a descending permutation |
| Messages.CurrentUser | src/main/java/com/gallagher/hotel/services/MessageService.java:154-157 | the caller's user, or NoSuchElement with the user-not-found message |
| Messages.GetMessageById | src/main/java/com/gallagher/hotel/services/MessageService.java:30-40 | missing message, then missing user; success iff the caller is sender or recipient, else AccessDenied |
| Messages.GetReceivedMessages | src/main/java/com/gallagher/hotel/services/MessageService.java:42-49 | exactly the caller's received messages |
| Messages.GetSentMessages | src/main/java/com/gallagher/hotel/services/MessageService.java:51-58 | exactly the caller's sent messages |
| Messages.GetAllUserMessages | src/main/java/com/gallagher/hotel/services/MessageService.java:74-81 | exactly the caller's messages, newest first |
| Messages.MailboxIsSentAndReceived | src/main/java/com/gallagher/hotel/services/MessageService.java:74-81 | a message is in the caller's mailbox iff it is in their sent or received list |
| Messages.CountUnreadMessagesOf | src/main/java/com/gallagher/hotel/services/MessageService.java:94-97 | the size of the caller's unread list |
| Messages.GetConversation | src/main/java/com/gallagher/hotel/services/MessageService.java:83-92 | missing caller, then missing other user (NoSuchElement); otherwise the two users' messages, newest first |
| Messages.ConversationSeenFromBothSides | src/main/java/com/gallagher/hotel/services/MessageService.java:83-92 | two existing users see the same conversation from either side |
| Messages.CreateMessageResult | src/main/java/com/gallagher/hotel/services/MessageService.java:99-114 | missing sender, then missing recipient; the message is from the caller to the recipient, unread, with no readAt, stamped now |
| Messages.MarkRead | src/main/java/com/gallagher/hotel/services/MessageService.java:126-130 | read is set as requested; readAt is set to now only when marking read with no readAt, and never changes once set; nothing else changes |
| Messages.MarkReadIdempotent | src/main/java/com/gallagher/hotel/services/MessageService.java:126-130 | repeating the same request changes nothing |
| Messages.FirstReadTime | src/main/java/com/gallagher/hotel/services/MessageService.java:128-130 | defined iff some request in the sequence marks the message read |
| Messages.ReadAtIsFirstReadTime | src/main/java/com/gallagher/hotel/services/MessageService.java:126-130 | after any sequence of status updates, readAt is the original one or the time of the first mark-read; read is the last request's value |
| Messages.UpdateMessageStatusResult | src/main/java/com/gallagher/hotel/services/MessageService.java:116-134 | missing message, then missing user; success iff the caller is the recipient, else AccessDenied; the message as MarkRead leaves it |
| Messages.SenderCannotChangeStatus | src/main/java/com/gallagher/hotel/services/MessageService.java:121-124 | the sender may read the message but may not change its status |
| Messages.MarkedReadLeavesUnreadList | src/main/java/com/gallagher/hotel/services/MessageService.java:126-132 | a message marked read leaves the recipient's unread list |
| Messages.DeleteMessageCheck | src/main/java/com/gallagher/hotel/services/MessageService.java:136-144 | missing message, then missing user; allowed iff sender or recipient, else AccessDenied |
| Messages.DeleteAllowedIffReadAllowed | src/main/java/com/gallagher/hotel/services/MessageService.java:35-37 | deleting is allowed exactly when reading is |
| Messages.DeleteMessageReadsBack | src/main/java/com/gallagher/hotel/services/MessageService.java:146 | after a delete the message is not found and every other message reads as before |
| Messages.MessageService.CreateMessage | src/main/java/com/gallagher/hotel/services/MessageService.java:99-114 | returns the create outcome and appends the message iff it succeeds |
| Messages.MessageService.UpdateMessageStatus | src/main/java/com/gallagher/hotel/services/MessageService.java:116-134 | returns the outcome and stores the updated message iff it succeeds |
| Messages.MessageService.SaveMessage | src/main/java/com/gallagher/hotel/services/MessageService.java:132 | replaces the message with the same id, keeping every read message stamped |
| Messages.MessageService.DeleteMessage | src/main/java/com/gallagher/hotel/services/MessageService.java:136-147 | returns the check's exception, and removes exactly that message iff allowed |
| BlogPostRepository.FindByAuthor | src/main/java/com/gallagher/hotel/repository/BlogPostRepository.java:18 | exactly the posts of the author |
| BlogPostRepository.FindByPublishedTrue | src/main/java/com/gallagher/hotel/repository/BlogPostRepository.java:20 | exactly the published posts |
| BlogPostRepository.FindByPublishedTrueOrderByPublishedAtDesc | src/main/java/com/gallagher/hotel/repository/BlogPostRepository.java:22 | exactly the published posts, by publishedAt descending |
| BlogPostRepository.SearchBlogPosts | src/main/java/com/gallagher/hotel/repository/BlogPostRepository.java:24-25 | exactly the posts where (published and title contains the keyword) or content contains it |
| BlogPostRepository.SearchFindsDraftByContent | src/main/java/com/gallagher/hotel/repository/BlogPostRepository.java:24 | an unpublished post whose content contains the keyword is returned |
| BlogPostRepository.SearchByTitleOnlyPublished | src/main/java/com/gallagher/hotel/repository/BlogPostRepository.java:24 | a post found without a content match is published and matches by title |
| BlogPostRepository.FindByTag | src/main/java/com/gallagher/hotel/repository/BlogPostRepository.java:27-28 | exactly the published posts carrying the tag |
| BlogPostRepository.FindByTagAppend | src/main/java/com/gallagher/hotel/repository/BlogPostRepository.java:27-28 | a new post adds itself at the end once per tag entry equal to the tag if it is published, and not at all if it is a draft: the JOIN has no DISTINCT |
| BlogPostRepository.FindByTagRepeatsDuplicateTag | src/main/java/com/gallagher/hotel/repository/BlogPostRepository.java:27 | an example of the above: a published post tagged [tag, tag] comes back twice |
| BlogPostRepository.CountPublishedIsFilterSize | src/main/java/com/gallagher/hotel/repository/BlogPostRepository.java:30-31 | the count is the number of published posts whose publishedAt lies in [start, end], both bounds included, and is 0 iff there is none |
| BlogPostRepository.CountPublishedAppend | src/main/java/com/gallagher/hotel/repository/BlogPostRepository.java:30-31 | a new post raises the count by one iff it is published with publishedAt in the range |
| BlogPostRepository.CountPublishedIgnoresDrafts | src/main/java/com/gallagher/hotel/repository/BlogPostRepository.java:30-31 | adding a draft never changes the count, whatever its publishedAt |
| BlogPostRepository.CountPublishedPostsBetweenDates | src/main/java/com/gallagher/hotel/repository/BlogPostRepository.java:30-31 | never more than the stored posts; its value is stated by CountPublishedIsFilterSize |
| BlogPosts.GetPostByIdAdmin | src/main/java/com/gallagher/hotel/services/BlogPostService.java:55-58 | any existing post; NoSuchElement iff the id is missing |
| BlogPosts.GetPostById | src/main/java/com/gallagher/hotel/services/BlogPostService.java:44-53 | missing id first; AccessDenied for any unpublished post whoever asks; a published post as the admin read returns it |
| BlogPosts.PublicReadIsPublishedList | src/main/java/com/gallagher/hotel/services/BlogPostService.java:44-53 | a post can be read publicly iff it appears in the published list |
| BlogPosts.GetUserPosts | src/main/java/com/gallagher/hotel/services/BlogPostService.java:149-157 | exactly the caller's posts |
| BlogPosts.CreatePostResult | src/main/java/com/gallagher/hotel/services/BlogPostService.java:70-89 | author = caller, the request's fields, a fresh id; publishedAt is set, to now, iff the request is published |
| BlogPosts.ApplyPostPatch | src/main/java/com/gallagher/hotel/services/BlogPostService.java:103-128 | title, content, image and tags replaced only when given; published as requested; publishedAt becomes now only on a false-to-true transition; a published post stays stamped |
| BlogPosts.PatchIdempotent | src/main/java/com/gallagher/hotel/services/BlogPostService.java:103-128 | repeating an update changes nothing, whatever the clock |
| BlogPosts.UnpublishKeepsPublishedAt | src/main/java/com/gallagher/hotel/services/BlogPostService.java:120-128 | unpublishing keeps publishedAt |
| BlogPosts.RepublishStampsAgain | src/main/java/com/gallagher/hotel/services/BlogPostService.java:120-128 | unpublishing then publishing again resets publishedAt to the new time |
| BlogPosts.PatchWithoutPublishedKeepsPublication | src/main/java/com/gallagher/hotel/services/BlogPostService.java:120-128 | an update without published leaves published and publishedAt alone |
| BlogPosts.EmptyRequestClearsTags | src/main/java/com/gallagher/hotel/services/BlogPostService.java:116-118 | a request that leaves tags at their empty-list default clears the post's tags and changes nothing else |
| BlogPosts.UpdatePostResult | src/main/java/com/gallagher/hotel/services/BlogPostService.java:91-132 | missing post, then missing user; success iff the caller is the author or holds ROLE_ADMIN, else AccessDenied; the patched post |
| BlogPosts.NonAuthorManagerRefused | src/main/java/com/gallagher/hotel/services/BlogPostService.java:97-101 | a MANAGER who is not the author is refused |
| BlogPosts.DeletePostCheck | src/main/java/com/gallagher/hotel/services/BlogPostService.java:134-144 | missing post, then missing user; allowed iff author or ROLE_ADMIN, else AccessDenied |
| BlogPosts.DeleteAllowedIffUpdateAllowed | src/main/java/com/gallagher/hotel/services/BlogPostService.java:97-101 | deleting is allowed exactly when updating is |
| BlogPosts.DeletePostReadsBack | src/main/java/com/gallagher/hotel/services/BlogPostService.java:146 | after a delete the post is not found and every other post reads as before |
| BlogPosts.BlogPostService.CreatePost | src/main/java/com/gallagher/hotel/services/BlogPostService.java:70-89 | returns the create outcome and appends the post iff it succeeds |
| BlogPosts.BlogPostService.UpdatePost | src/main/java/com/gallagher/hotel/services/BlogPostService.java:91-132 | returns the outcome and stores the patched post iff it succeeds |
| BlogPosts.BlogPostService.PatchPost | src/main/java/com/gallagher/hotel/services/BlogPostService.java:103-128 | the setter sequence yields exactly the patched post |
| BlogPosts.BlogPostService.SavePost | src/main/java/com/gallagher/hotel/services/BlogPostService.java:130 | replaces the post with the same id, keeping every published post stamped |
| BlogPosts.BlogPostService.DeletePost | src/main/java/com/gallagher/hotel/services/BlogPostService.java:134-147 | returns the check's exception, and removes exactly that post iff allowed |
| TestimonialRepository.FindByUser | src/main/java/com/gallagher/hotel/repository/TestimonialRepository.java:16 | exactly the user's testimonials |
| TestimonialRepository.FindByApprovedTrue | src/main/java/com/gallagher/hotel/repository/TestimonialRepository.java:18 | exactly the approved testimonials |
| TestimonialRepository.FindByApprovedFalse | src/main/java/com/gallagher/hotel/repository/TestimonialRepository.java:22 | exactly the pending testimonials |
| TestimonialRepository.ApprovedPendingPartition | src/main/java/com/gallagher/hotel/repository/TestimonialRepository.java:18-22 | the approved and pending lists together are the whole table, as multisets |
| TestimonialRepository.FindAverageRating | src/main/java/com/gallagher/hotel/repository/TestimonialRepository.java:24-25 | null iff no testimonial is approved |
| TestimonialRepository.AverageWithinRatingScale | src/main/java/com/gallagher/hotel/repository/TestimonialRepository.java:24-25 | with ratings in 1..5 the average lies in [1, 5] |
| TestimonialRepository.FindTopRatedTestimonials | src/main/java/com/gallagher/hotel/repository/TestimonialRepository.java:27-28 | exactly the approved testimonials, by rating descending |
| Testimonials.CurrentUser | src/main/java/com/gallagher/hotel/services/TestimonialService.java:58-59 | the caller's user, or a RuntimeException with the user-not-found message |
| Testimonials.GetTestimonialById | src/main/java/com/gallagher/hotel/services/TestimonialService.java:50-54 | fails iff the id is missing, else the stored testimonial |
| Testimonials.CreateTestimonialResult | src/main/java/com/gallagher/hotel/services/TestimonialService.java:56-69 | fails iff the caller's user is missing; otherwise owned by the caller, not approved, created and updated now |
| Testimonials.CreatedTestimonialIsPending | src/main/java/com/gallagher/hotel/services/TestimonialService.java:61-67 | a new testimonial is in the pending list and not in the approved one |
| Testimonials.Approve | src/main/java/com/gallagher/hotel/services/TestimonialService.java:77-78 | approved, updatedAt = now, nothing else changed |
| Testimonials.ApproveIdempotent | src/main/java/com/gallagher/hotel/services/TestimonialService.java:77-78 | approving twice is approving once, up to the time stamp |
| Testimonials.ApproveTestimonialResult | src/main/java/com/gallagher/hotel/services/TestimonialService.java:71-82 | fails iff the id is missing; otherwise the approved testimonial |
| Testimonials.ApprovedTestimonialIsListed | src/main/java/com/gallagher/hotel/services/TestimonialService.java:71-82 | after approval the testimonial is in the approved list and out of the pending one |
| Testimonials.ApplyTestimonialEdit | src/main/java/com/gallagher/hotel/services/TestimonialService.java:100-114 | content replaced only when given, rating only when > 0; approved kept only for ADMIN or MANAGER, otherwise false; updatedAt = now |
| Testimonials.UpdateTestimonialResult | src/main/java/com/gallagher/hotel/services/TestimonialService.java:84-118 | missing testimonial, then missing user; success iff ADMIN, MANAGER or owner, else AccessDenied; the edited testimonial |
| Testimonials.OwnerEditUnapproves | src/main/java/com/gallagher/hotel/services/TestimonialService.java:109-112 | an owner who is not ADMIN or MANAGER un-approves their testimonial by editing it |
| Testimonials.StaffEditKeepsApproval | src/main/java/com/gallagher/hotel/services/TestimonialService.java:109-112 | an ADMIN or MANAGER edit leaves approval as it was |
| Testimonials.NonPositiveRatingKept | src/main/java/com/gallagher/hotel/services/TestimonialService.java:105-107 | a rating <= 0 in the request keeps the stored rating |
| Testimonials.DeleteTestimonialCheck | src/main/java/com/gallagher/hotel/services/TestimonialService.java:120-134 | missing testimonial, then missing user; allowed iff ADMIN, MANAGER or owner, else AccessDenied |
| Testimonials.DeleteAllowedIffUpdateAllowed | src/main/java/com/gallagher/hotel/services/TestimonialService.java:129-134 | deleting is allowed exactly when updating is |
| Testimonials.DeleteTestimonialReadsBack | src/main/java/com/gallagher/hotel/services/TestimonialService.java:136 | after a delete the testimonial is not found and every other reads as before |
| Testimonials.GetUserTestimonials | src/main/java/com/gallagher/hotel/services/TestimonialService.java:139-147 | exactly the caller's testimonials |
| Testimonials.GetAverageRating | src/main/java/com/gallagher/hotel/services/TestimonialService.java:149-151 | the repository average unchanged: null iff nothing is approved |
| Testimonials.PendingDoesNotMoveAverage | src/main/java/com/gallagher/hotel/services/TestimonialService.java:149-151 | adding a pending testimonial leaves the average unchanged |
| Testimonials.TestimonialService.CreateTestimonial | src/main/java/com/gallagher/hotel/services/TestimonialService.java:56-69 | returns the create outcome and appends the testimonial iff it succeeds |
| Testimonials.TestimonialService.ApproveTestimonial | src/main/java/com/gallagher/hotel/services/TestimonialService.java:71-82 | returns the outcome and stores the approved testimonial iff the id exists |
| Testimonials.TestimonialService.UpdateTestimonial | src/main/java/com/gallagher/hotel/services/TestimonialService.java:84-118 | returns the outcome and stores the edited testimonial iff it succeeds |
| Testimonials.TestimonialService.EditTestimonial | src/main/java/com/gallagher/hotel/services/TestimonialService.java:100-114 | the setter sequence yields exactly the edited testimonial |
| Testimonials.TestimonialService.SaveTestimonial | src/main/java/com/gallagher/hotel/services/TestimonialService.java:116 | replaces the testimonial with the same id |
| Testimonials.TestimonialService.DeleteTestimonial | src/main/java/com/gallagher/hotel/services/TestimonialService.java:120-137 | returns the check's exception, and removes exactly that testimonial iff allowed |
| ExceptionHandler.Handle | src/main/java/com/gallagher/hotel/advice/GlobalExceptionHandler.java:22-90 | 404 iff NoSuchElement or a RuntimeException (DataIntegrityViolation included) whose message contains "not found"; 403 iff AccessDenied; 401 iff BadCredentials; 500 iff any other Exception; 400 for IllegalArgument (NumberFormat included), ConstraintViolation, validation errors and every other RuntimeException; validation errors carry the field map |
| ExceptionHandler.BadCredentialsIgnoresMessage | src/main/java/com/gallagher/hotel/advice/GlobalExceptionHandler.java:43-48 | the 401 response is the same whatever the exception's message |
| ExceptionHandler.ServiceRuntimeErrorIsBadRequest | src/main/java/com/gallagher/hotel/advice/GlobalExceptionHandler.java:80-90 | every RuntimeException message the services throw yields 400, since none contains "not found" |
| ExceptionHandler.EnglishNotFoundIsNotFound | src/main/java/com/gallagher/hotel/advice/GlobalExceptionHandler.java:82 | a RuntimeException whose message contains "not found" yields 404 |
| Errors.ServiceMessageHasNoF | src/main/java/com/gallagher/hotel/advice/GlobalExceptionHandler.java:82 | none of the services' French RuntimeException messages contains the letter f, so none contains "not found" |
| ExceptionHandler.FieldErrorMap | src/main/java/com/gallagher/hotel/advice/GlobalExceptionHandler.java:53-58 | the keys are exactly the fields with an error |
| ExceptionHandler.LastErrorWins | src/main/java/com/gallagher/hotel/advice/GlobalExceptionHandler.java:54-58 | a field's entry is the message of its last error |
| ExceptionHandler.BuildFieldErrors | src/main/java/com/gallagher/hotel/advice/GlobalExceptionHandler.java:53-58 | the forEach loop builds exactly the field map |

## Left out

- **Controllers, Swagger configuration, the authentication service and JWT handling.** These are HTTP routing, password hashing and token issuance, all foreign calls.
  - The controllers' `@PreAuthorize` role gates are not preconditions of the modelled operations.
  - Neither is the service-level gate on approving testimonials and listing pending ones.
  - Each operation is modelled as callable by any caller, with the role checks the service code itself performs.
- **Mappers and DTO classes.** They are field-by-field copies, folded into the request datatypes.
- **The unseen User entity and UserRepository.** A user is an id, a username and a role; users are compared by id, and `findById` / `findByUsername` are lookups in the users table.
- **Jakarta validation annotations on request bodies.** The binding layer enforces them before a service runs. They are not modelled as error paths. One of them is a precondition: the `@NotNull` check-in and check-out dates of a reservation request, which `Reservations.CreateReservationResult`, `Reservations.DoubleBookingRefused`, `Reservations.ReservationService.CreateReservation` and `Rooms.OfferedRoomCanBeBooked` require.
- TestimonialRepository.FindAverageRating: the average is the exact rational mean of the ratings. The query returns a `Double`, so the source rounds it to the nearest double; that rounding is floating point and is not modelled.
- Statistics.StatisticService.SaveMonthlyStatistics: always appends the month's rows. The `value` column has precision 10 and scale 2 and `percentageValue` precision 5 and scale 2, so a revenue of 10^8 or more, or a rate of 1000 % or more, would be refused by the database. That refusal and the two-decimal rounding of the stored values are not modelled.
- **The text of the database's constraint messages.** A unique-column refusal is `DataIntegrityViolation` with no message, because the text comes from the database driver; the handler answers it with 400.
- Statistics.OccupancyResult: the rate is the exact rational `100 × booked / available`. The model does not round it through `double` and `BigDecimal` `HALF_UP` to two decimals, because that is floating point.
- **Long arithmetic.** Room and night counts and sums are unbounded integers, so `long` overflow is not modelled. The one narrowing the code performs, the `(int)` cast of the bookings count, is modelled by `Statistics.ToInt32`.
- Reservations.GenerateReservationNumber: uniqueness is not claimed, and likewise for Payments.GenerateTransactionId. Both are a function of the UUID passed in, and the code does not guarantee uniqueness either. A transaction id that collides with a stored one is refused by its unique column, which `Payments.CreatePaymentResult` models; a colliding reservation number is stored, as that column is not unique. `Text.UuidCodeInjective` shows that two UUIDs sharing their first 8 characters give the same code.
- **Generated ids.** A created row gets `NextKey`, one more than the largest stored id. JPA's merge of a row whose request already carries an id (the mappers copy the id) is not modelled.
- **Deleting a room that still has reservations.** The foreign-key failure the database would raise is not modelled; the room is removed.
- **Concurrency and the check-then-insert race of `createReservation`.** Each service call is one atomic step.
- **Calendar arithmetic.** `YEAR()` / `MONTH()` use the proleptic Gregorian civil-from-days formula, and `atDay` / `atEndOfMonth` its inverse formula. That these two formulas are mutual inverses is not proved.
- **`JpaRepository` methods.** Only `findById`, `existsById`, `save`, `delete` and `count` are modelled, as lookups, replace/append, remove and `|rooms|`.
- **Pagination.** The paginated service methods and repository queries are modelled unpaged: `getPaginated*`, `searchPosts`, `getPostsByTag`, `findByPublishedTrue(Pageable)` and `findTopRatedTestimonials`.
- **The plain delegations.** These are `getAllRooms`, `getRoomsByType`, `getReservationsByStatus`, `getReservationsByDate`, `getAllPublishedPosts`, `getAllApprovedTestimonials` and `getPendingTestimonials`. Their repository queries are modelled, and the services return them unchanged.
- **Ordering.** The order of ties in `ORDER BY ... DESC` is not specified, and the model's sort is one stable choice. Posts without `publishedAt` sort as time 0.
- **SQL `LIKE`.** It is modelled as substring containment: wildcards inside the keyword, case-insensitive collation and escaping are not modelled.
- **JPA lifecycle timestamps of posts (`createdAt` / `updatedAt`) and reservations.** The core never reads them. The message `createdAt` set by `@PrePersist` is modelled as the `now` parameter.
- **A null tag list on post creation.** The request's tags are taken as a given list.
