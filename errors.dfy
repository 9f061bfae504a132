/**
 * The exceptions the services throw, one variant per Java exception class
 * the global handler tells apart, each with its (possibly null) message.
 * The services' messages are kept word for word, because the handler
 * inspects message text.
 */
module Errors {
  import opened Wrappers
  import opened Text

  /** A binding error of a request body: the field and its default message. */
  datatype FieldError = FieldError(field: string, defaultMessage: Option<string>)

  datatype Exception =
    | RuntimeError(message: Option<string>)            // java.lang.RuntimeException itself
    | DataIntegrityViolation(message: Option<string>)  // Spring's DataIntegrityViolationException, a RuntimeException
    | NoSuchElement(message: Option<string>)           // java.util.NoSuchElementException
    | AccessDenied(message: Option<string>)            // Spring Security AccessDeniedException
    | BadCredentials(message: Option<string>)          // Spring Security BadCredentialsException
    | IllegalArgument(message: Option<string>)         // java.lang.IllegalArgumentException
    | NumberFormat(message: Option<string>)            // NumberFormatException, a subclass of the above
    | ConstraintViolation(message: Option<string>)     // jakarta.validation ConstraintViolationException
    | MethodArgumentNotValid(message: Option<string>, errors: seq<FieldError>)
    | Checked(message: Option<string>)                 // any other java.lang.Exception

  /** `"..." + id` for the services' not-found messages. */
  function WithId(prefix: string, id: int): string {
    prefix + IdText(id)
  }

  const UserNotFoundText: string := "Utilisateur non trouvé"
  const ReservationNotFoundText: string := "Réservation non trouvée avec l'ID: "
  const RoomNotFoundText: string := "Chambre non trouvée avec l'ID: "
  const RoomUnavailableText: string := RoomUnavailableHead + RoomUnavailableTail
  const RoomUnavailableHead: string := "La chambre n'est pas "
  const RoomUnavailableTail: string := "disponible pour ces dates"
  const PaymentNotFoundText: string := "Paiement non trouvé avec l'ID: "
  const TestimonialNotFoundText: string := "Témoignage non trouvé avec l'ID: "
  const MessageNotFoundText: string := "Message non trouvé avec l'ID: "
  const RecipientNotFoundText: string := "Destinataire non trouvé avec l'ID: "
  const OtherUserNotFoundText: string := "Utilisateur non trouvé avec l'ID: "
  const PostNotFoundText: string := "Article non trouvé avec l'ID: "
  const DateOrderText: string := "La date de départ doit être après la date d'arrivée"

  // The AccessDeniedException messages of the reservation and payment services.
  const ReservationReadDeniedText: string := "Vous n'êtes pas autorisé à accéder à cette réservation"
  const ReservationUpdateDeniedText: string := "Vous n'êtes pas autorisé à modifier cette réservation"
  const ReservationCancelDeniedText: string := "Vous n'êtes pas autorisé à annuler cette réservation"
  const PaymentReadDeniedText: string := "Vous n'êtes pas autorisé à accéder à ce paiement"
  const PaymentListDeniedText: string := "Vous n'êtes pas autorisé à accéder aux paiements de cette réservation"
  const PaymentCreateDeniedText: string := "Vous n'êtes pas autorisé à créer un paiement pour cette réservation"
  const PaymentStatusDeniedText: string := "Vous n'êtes pas autorisé à modifier le statut d'un paiement"

  /**
   * The messages the reservation, room, payment and testimonial services
   * give to the plain RuntimeExceptions they throw.
   */
  ghost predicate IsServiceRuntimeMessage(m: string) {
    m == UserNotFoundText || m == RoomUnavailableText ||
    exists id :: m == WithId(ReservationNotFoundText, id) || m == WithId(RoomNotFoundText, id) ||
                 m == WithId(PaymentNotFoundText, id) || m == WithId(TestimonialNotFoundText, id)
  }

  /** A prefix without an 'f' keeps none once an id is appended. */
  lemma WithIdHasNoF(prefix: string, id: int)
    requires 'f' !in prefix
    ensures 'f' !in WithId(prefix, id)
  {
    var digits := IdText(id);
    assert 'f' !in digits;
    assert WithId(prefix, id) == prefix + digits;
  }

  lemma UserNotFoundHasNoF()
    ensures 'f' !in UserNotFoundText
  {
  }

  lemma RoomUnavailableHeadHasNoF()
    ensures 'f' !in RoomUnavailableHead
  {
  }

  lemma RoomUnavailableTailHasNoF()
    ensures 'f' !in RoomUnavailableTail
  {
  }

  lemma RoomUnavailableHasNoF()
    ensures 'f' !in RoomUnavailableText
  {
    RoomUnavailableHeadHasNoF();
    RoomUnavailableTailHasNoF();
  }

  lemma ReservationNotFoundHasNoF()
    ensures 'f' !in ReservationNotFoundText
  {
  }

  lemma RoomNotFoundHasNoF()
    ensures 'f' !in RoomNotFoundText
  {
  }

  lemma PaymentNotFoundHasNoF()
    ensures 'f' !in PaymentNotFoundText
  {
  }

  lemma TestimonialNotFoundHasNoF()
    ensures 'f' !in TestimonialNotFoundText
  {
  }

  lemma FixedMessagesHaveNoF()
    ensures 'f' !in UserNotFoundText
    ensures 'f' !in RoomUnavailableText
  {
    UserNotFoundHasNoF();
    RoomUnavailableHasNoF();
  }

  lemma PrefixesHaveNoF()
    ensures 'f' !in ReservationNotFoundText && 'f' !in RoomNotFoundText
    ensures 'f' !in PaymentNotFoundText && 'f' !in TestimonialNotFoundText
  {
    ReservationNotFoundHasNoF();
    RoomNotFoundHasNoF();
    PaymentNotFoundHasNoF();
    TestimonialNotFoundHasNoF();
  }

  /** None of those messages contains the letter 'f'. */
  lemma ServiceMessageHasNoF(m: string)
    requires IsServiceRuntimeMessage(m)
    ensures 'f' !in m
  {
    FixedMessagesHaveNoF();
    if m != UserNotFoundText && m != RoomUnavailableText {
      var id :| m == WithId(ReservationNotFoundText, id) || m == WithId(RoomNotFoundText, id) ||
                m == WithId(PaymentNotFoundText, id) || m == WithId(TestimonialNotFoundText, id);
      PrefixesHaveNoF();
      WithIdHasNoF(ReservationNotFoundText, id);
      WithIdHasNoF(RoomNotFoundText, id);
      WithIdHasNoF(PaymentNotFoundText, id);
      WithIdHasNoF(TestimonialNotFoundText, id);
    }
  }
}
