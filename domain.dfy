/**
 * The hotel's entities as values: one datatype per JPA entity of the core,
 * with foreign keys as ids. Money is a number of cents (every amount column
 * has scale 2), dates are epoch days and timestamps epoch seconds.
 */
module Domain {
  import opened Wrappers
  import opened Calendar

  datatype Role = ADMIN | MANAGER | RECEPTIONIST | CLIENT

  datatype User = User(id: int, username: string, role: Role)

  /** The authenticated caller (Spring's UserDetails): a username and its granted authorities. */
  datatype Principal = Principal(username: string, authorities: seq<string>)

  /** The `isAdmin` test of the reservation and payment-creation services. */
  predicate IsStaff(role: Role) {
    role == ADMIN || role == MANAGER || role == RECEPTIONIST
  }

  /** The `isAdmin` test of the payment-status, payment-read and testimonial services. */
  predicate IsAdminOrManager(role: Role) {
    role == ADMIN || role == MANAGER
  }

  datatype ReservationStatus = PENDING | CONFIRMED | CHECKED_IN | CHECKED_OUT | CANCELLED | NO_SHOW

  datatype Reservation = Reservation(
    id: int,
    reservationNumber: string,
    userId: int,
    roomId: int,
    checkIn: Day,
    checkOut: Day,
    guests: int,
    totalPrice: Option<int>,
    status: ReservationStatus,
    specialRequests: Option<string>)

  /** Room type and room status are enums whose declarations are not part of this model: kept as their names. */
  datatype Room = Room(
    id: int,
    roomNumber: string,
    roomType: string,
    capacity: int,
    pricePerNight: int,
    description: Option<string>,
    status: string,
    hasAirConditioning: bool,
    hasTV: bool,
    hasMinibar: bool,
    hasSafe: bool,
    hasWifi: bool,
    imageUrls: set<string>)

  datatype PaymentStatus = PENDING | PROCESSING | COMPLETED | FAILED | REFUNDED

  datatype Payment = Payment(
    id: int,
    transactionId: string,
    reservationId: int,
    amount: int,
    paymentMethod: string,
    status: PaymentStatus,
    paymentDate: Instant,
    paymentDetails: Option<string>)

  datatype Message = Message(
    id: int,
    senderId: int,
    recipientId: int,
    subject: string,
    content: string,
    read: bool,
    readAt: Option<Instant>,
    createdAt: Instant)

  datatype BlogPost = BlogPost(
    id: int,
    title: string,
    content: string,
    authorId: int,
    featuredImage: Option<string>,
    tags: seq<string>,
    published: bool,
    publishedAt: Option<Instant>)

  datatype Testimonial = Testimonial(
    id: int,
    userId: int,
    content: Option<string>,
    rating: int,
    approved: bool,
    createdAt: Instant,
    updatedAt: Instant)

  datatype StatisticType =
    REVENUE | OCCUPANCY_RATE | AVERAGE_STAY_DURATION | BOOKINGS_COUNT | CANCELLATION_RATE | CUSTOMER_SATISFACTION

  /** A statistic snapshot row; its generated id is never read by the core and is not modelled. */
  datatype Statistic = Statistic(
    statType: StatisticType,
    date: Day,
    value: Option<int>,
    valueString: Option<string>,
    valueInteger: Option<int>,
    percentageValue: Option<real>)
  {
    /** The monthly revenue snapshot: the amount alone, dated the first of the month. */
    static function CreateRevenueStat(ym: YearMonth, amount: int): (s: Statistic)
      ensures s.statType == REVENUE && s.date == AtDay(ym, 1)
      ensures s.value == Some(amount)
      ensures s.valueString.None? && s.valueInteger.None? && s.percentageValue.None?
    {
      Statistic(REVENUE, AtDay(ym, 1), Some(amount), None, None, None)
    }

    /** The monthly occupancy snapshot: the rate alone, dated the first of the month. */
    static function CreateOccupancyStat(ym: YearMonth, rate: real): (s: Statistic)
      ensures s.statType == OCCUPANCY_RATE && s.date == AtDay(ym, 1)
      ensures s.percentageValue == Some(rate)
      ensures s.value.None? && s.valueString.None? && s.valueInteger.None?
    {
      Statistic(OCCUPANCY_RATE, AtDay(ym, 1), None, None, None, Some(rate))
    }
  }

  // Primary keys, passed to the generic table operations.
  function UserId(u: User): int { u.id }
  function RoomId(r: Room): int { r.id }
  function ReservationId(r: Reservation): int { r.id }
  function PaymentId(p: Payment): int { p.id }
  function MessageId(m: Message): int { m.id }
  function PostId(p: BlogPost): int { p.id }
  function TestimonialId(t: Testimonial): int { t.id }
}
