/**
 * The @RestControllerAdvice: Spring sends each exception to the handler of
 * its closest declared class, which picks the HTTP status and the body.
 */
module ExceptionHandler {
  import opened Wrappers
  import opened Text
  import opened Errors

  const BAD_REQUEST: int := 400
  const UNAUTHORIZED: int := 401
  const FORBIDDEN: int := 403
  const NOT_FOUND: int := 404
  const INTERNAL_SERVER_ERROR: int := 500

  /** A failed ApiResponse: its message and, for validation errors, the field map. */
  datatype Response = Response(status: int, message: Option<string>, fieldErrors: Option<map<string, Option<string>>>)

  /** What string concatenation makes of a possibly-null message. */
  function Shown(m: Option<string>): string {
    m.GetOr("null")
  }

  predicate SaysNotFound(m: Option<string>) {
    m.Some? && Contains(m.value, "not found")
  }

  /**
   * The validation-error map, as successive `put`s leave it: the keys are
   * the fields with an error, and a later error on a field replaces an
   * earlier one.
   */
  function FieldErrorMap(errors: seq<FieldError>): (m: map<string, Option<string>>)
    ensures m.Keys == set e | e in errors :: e.field
  {
    if errors == [] then map[]
    else
      var last := errors[|errors| - 1];
      var init := errors[..|errors| - 1];
      assert errors == init + [last];
      FieldErrorMap(init)[last.field := last.defaultMessage]
  }

  /** The entry of a field is the message of that field's last error. */
  lemma {:induction false} LastErrorWins(errors: seq<FieldError>, i: int)
    requires 0 <= i < |errors|
    requires forall j :: i < j < |errors| ==> errors[j].field != errors[i].field
    ensures FieldErrorMap(errors)[errors[i].field] == errors[i].defaultMessage
  {
    var n := |errors| - 1;
    if i < n {
      var init := errors[..n];
      assert init[i] == errors[i];
      LastErrorWins(init, i);
    }
  }

  /** handleValidationExceptions' forEach loop filling a HashMap. */
  method BuildFieldErrors(errors: seq<FieldError>) returns (m: map<string, Option<string>>)
    ensures m == FieldErrorMap(errors)
  {
    m := map[];
    var i := 0;
    while i < |errors|
      invariant 0 <= i <= |errors|
      invariant m == FieldErrorMap(errors[..i])
    {
      assert errors[..i + 1][..i] == errors[..i];
      m := m[errors[i].field := errors[i].defaultMessage];
      i := i + 1;
    }
    assert errors[..i] == errors;
  }

  /**
   * The exceptions handleRuntimeException receives: RuntimeException
   * itself and the subclasses that have no handler of their own.
   */
  predicate ReachesRuntimeHandler(ex: Exception) {
    ex.RuntimeError? || ex.DataIntegrityViolation?
  }

  /** The response the advice produces for an exception escaping a controller. */
  function Handle(ex: Exception): (r: Response)
    ensures r.status == NOT_FOUND <==> ex.NoSuchElement? || (ReachesRuntimeHandler(ex) && SaysNotFound(ex.message))
    ensures r.status == FORBIDDEN <==> ex.AccessDenied?
    ensures r.status == UNAUTHORIZED <==> ex.BadCredentials?
    ensures r.status == INTERNAL_SERVER_ERROR <==> ex.Checked?
    ensures r.status == BAD_REQUEST <==>
              ex.IllegalArgument? || ex.NumberFormat? || ex.ConstraintViolation? ||
              ex.MethodArgumentNotValid? || (ReachesRuntimeHandler(ex) && !SaysNotFound(ex.message))
    ensures ex.BadCredentials? ==> r.message == Some("Identifiants invalides")
    ensures ex.MethodArgumentNotValid? <==> r.fieldErrors.Some?
    ensures ex.MethodArgumentNotValid? ==> r.fieldErrors.value.Keys == set e | e in ex.errors :: e.field
  {
    match ex
    case Checked(m) =>
      Response(INTERNAL_SERVER_ERROR, Some("Une erreur interne est survenue: " + Shown(m)), None)
    case NoSuchElement(m) =>
      Response(NOT_FOUND, Some("La ressource demandée n'a pas été trouvée: " + Shown(m)), None)
    case AccessDenied(m) =>
      Response(FORBIDDEN, Some("Accès refusé: " + Shown(m)), None)
    case BadCredentials(_) =>
      Response(UNAUTHORIZED, Some("Identifiants invalides"), None)
    case MethodArgumentNotValid(_, errors) =>
      Response(BAD_REQUEST, Some("Erreur de validation"), Some(FieldErrorMap(errors)))
    case ConstraintViolation(m) =>
      Response(BAD_REQUEST, Some("Erreur de validation: " + Shown(m)), None)
    case IllegalArgument(m) =>
      Response(BAD_REQUEST, Some("Argument invalide: " + Shown(m)), None)
    case NumberFormat(m) =>
      Response(BAD_REQUEST, Some("Argument invalide: " + Shown(m)), None)
    case RuntimeError(m) => HandleRuntime(m)
    case DataIntegrityViolation(m) => HandleRuntime(m)
  }

  /** handleRuntimeException: 404 when the message says "not found", 400 with the message otherwise. */
  function HandleRuntime(m: Option<string>): (r: Response)
    ensures r.status == (if SaysNotFound(m) then NOT_FOUND else BAD_REQUEST)
    ensures r.fieldErrors.None?
  {
    if SaysNotFound(m) then Response(NOT_FOUND, Some("Ressource non trouvée: " + Shown(m)), None)
    else Response(BAD_REQUEST, m, None)
  }

  /** The 401 body does not depend on the exception's own message. */
  lemma BadCredentialsIgnoresMessage(m1: Option<string>, m2: Option<string>)
    ensures Handle(BadCredentials(m1)) == Handle(BadCredentials(m2))
  {
  }

  /**
   * The reservation, room, payment and testimonial services report a missing
   * row with a French RuntimeException message, which never says "not found":
   * the handler answers 400 with the message as is, not 404.
   */
  lemma ServiceRuntimeErrorIsBadRequest(m: string)
    requires IsServiceRuntimeMessage(m)
    ensures Handle(RuntimeError(Some(m))) == Response(BAD_REQUEST, Some(m), None)
  {
    ServiceMessageHasNoF(m);
    assert "not found"[4] == 'f';
    MissingCharNotContained(m, "not found", 4);
  }

  /** A RuntimeException whose message does say "not found" gets 404. */
  lemma EnglishNotFoundIsNotFound(prefix: string, suffix: string)
    ensures Handle(RuntimeError(Some(prefix + "not found" + suffix))).status == NOT_FOUND
  {
    var m := prefix + "not found" + suffix;
    assert m[|prefix|..|prefix| + 9] == "not found";
    assert OccursAt(m, "not found", |prefix|);
  }
}
