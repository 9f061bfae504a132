/**
 * The persistent store behind the repositories: one table per entity,
 * each a sequence of rows in insertion order, and the integrity rules the
 * schema and the services keep between calls.
 */
module Database {
  import opened Wrappers
  import opened Seqs
  import opened Domain

  /** UserRepository.findByUsername. */
  function FindUserByUsername(users: seq<User>, username: string): (r: Option<User>)
    ensures r.Some? ==> r.value in users && r.value.username == username
    ensures r.None? <==> forall u :: u in users ==> u.username != username
  {
    FindFirst(users, (u: User) => u.username == username)
  }

  /** The payment table's foreign key: every payment's reservation is stored. */
  ghost predicate PaymentsLinked(ps: seq<Payment>, rs: seq<Reservation>) {
    forall p :: p in ps ==> HasKey(rs, ReservationId, p.reservationId)
  }

  /** A payment for a stored reservation keeps the foreign key when appended. */
  lemma AppendLinked(ps: seq<Payment>, rs: seq<Reservation>, p: Payment)
    requires PaymentsLinked(ps, rs) && HasKey(rs, ReservationId, p.reservationId)
    ensures PaymentsLinked(ps + [p], rs)
  {
  }

  /** Saving a payment again, for a stored reservation, keeps the foreign key. */
  lemma ReplaceLinked(ps: seq<Payment>, rs: seq<Reservation>, p: Payment)
    requires PaymentsLinked(ps, rs) && HasKey(rs, ReservationId, p.reservationId)
    ensures PaymentsLinked(ReplaceByKey(ps, PaymentId, p), rs)
  {
    ReplaceMembers(ps, PaymentId, p);
  }

  /** Room.roomNumber is a unique column: rooms that share a number are the same row. */
  ghost predicate RoomNumbersUnique(rooms: seq<Room>) {
    forall a, b :: a in rooms && b in rooms && a.roomNumber == b.roomNumber ==> a.id == b.id
  }

  /** Payment.transactionId is a unique column too. */
  ghost predicate TransactionIdsUnique(ps: seq<Payment>) {
    forall a, b :: a in ps && b in ps && a.transactionId == b.transactionId ==> a.id == b.id
  }

  /** Saving a room whose number no other room holds keeps the column unique. */
  lemma ReplaceKeepsRoomNumbersUnique(rooms: seq<Room>, x: Room)
    requires RoomNumbersUnique(rooms)
    requires forall y :: y in rooms && y.roomNumber == x.roomNumber ==> y.id == x.id
    ensures RoomNumbersUnique(ReplaceByKey(rooms, RoomId, x))
  {
    ReplaceMembers(rooms, RoomId, x);
  }

  /** Saving a payment whose transaction id no other payment holds keeps the column unique. */
  lemma ReplaceKeepsTransactionIdsUnique(ps: seq<Payment>, x: Payment)
    requires TransactionIdsUnique(ps)
    requires forall y :: y in ps && y.transactionId == x.transactionId ==> y.id == x.id
    ensures TransactionIdsUnique(ReplaceByKey(ps, PaymentId, x))
  {
    ReplaceMembers(ps, PaymentId, x);
  }

  /** A message marked read carries the time it was first read. */
  ghost predicate ReadMessagesStamped(ms: seq<Message>) {
    forall m :: m in ms && m.read ==> m.readAt.Some?
  }

  /** A published post carries its publication time. */
  ghost predicate PublishedPostsStamped(posts: seq<BlogPost>) {
    forall p :: p in posts && p.published ==> p.publishedAt.Some?
  }

  class HotelDatabase {
    var users: seq<User>
    var rooms: seq<Room>
    var reservations: seq<Reservation>
    var payments: seq<Payment>
    var messages: seq<Message>
    var posts: seq<BlogPost>
    var testimonials: seq<Testimonial>
    var statistics: seq<Statistic>

    ghost predicate Valid()
      reads this
    {
      UniqueKeys(users, UserId) && UniqueKeys(rooms, RoomId) &&
      UniqueKeys(reservations, ReservationId) && UniqueKeys(payments, PaymentId) &&
      UniqueKeys(messages, MessageId) && UniqueKeys(posts, PostId) &&
      UniqueKeys(testimonials, TestimonialId) &&
      RoomNumbersUnique(rooms) && TransactionIdsUnique(payments) &&
      PaymentsLinked(payments, reservations) &&
      ReadMessagesStamped(messages) && PublishedPostsStamped(posts)
    }

    /** An empty database. */
    constructor ()
      ensures users == [] && rooms == [] && reservations == [] && payments == []
      ensures messages == [] && posts == [] && testimonials == [] && statistics == []
      ensures Valid()
    {
      users, rooms, reservations, payments := [], [], [], [];
      messages, posts, testimonials, statistics := [], [], [], [];
    }
  }
}
