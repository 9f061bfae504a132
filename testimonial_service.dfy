/**
 * TestimonialService: guests' testimonials, which wait for approval. A new
 * testimonial is pending; an ADMIN or MANAGER approves it; its owner may
 * edit or delete it, and an owner's edit sends it back to pending, while
 * an ADMIN's or MANAGER's edit keeps its approval.
 */
module Testimonials {
  import opened Wrappers
  import opened Calendar
  import opened Seqs
  import opened Domain
  import opened Errors
  import opened TestimonialRepository
  import opened Database

  const UpdateDeniedText: string := "Vous n'êtes pas autorisé à modifier ce témoignage"
  const DeleteDeniedText: string := "Vous n'êtes pas autorisé à supprimer ce témoignage"

  /**
   * The TestimonialDto fields the service reads: a null content is None; the
   * rating is a primitive int, and on an update a rating of 0 or below
   * keeps the stored one.
   */
  datatype TestimonialDto = TestimonialDto(content: Option<string>, rating: int, approved: bool)

  /** getUserFromUserDetails of this service: a missing user is a plain RuntimeException. */
  function CurrentUser(users: seq<User>, caller: Principal): (r: Result<User, Exception>)
    ensures r.Success? <==> FindUserByUsername(users, caller.username).Some?
    ensures r.Success? ==> r.value in users && r.value.username == caller.username
    ensures r.Failure? ==> r.error == RuntimeError(Some(UserNotFoundText))
  {
    var user := FindUserByUsername(users, caller.username);
    if user.None? then Failure(RuntimeError(Some(UserNotFoundText))) else Success(user.value)
  }

  /** getTestimonialById. */
  function GetTestimonialById(ts: seq<Testimonial>, id: int): (r: Result<Testimonial, Exception>)
    ensures r.Success? <==> HasKey(ts, TestimonialId, id)
    ensures r.Failure? ==> r.error == RuntimeError(Some(WithId(TestimonialNotFoundText, id)))
    ensures r.Success? ==> r.value in ts && r.value.id == id
  {
    var found := FindByKey(ts, TestimonialId, id);
    if found.None? then Failure(RuntimeError(Some(WithId(TestimonialNotFoundText, id)))) else Success(found.value)
  }

  /** The testimonial createTestimonial stores: the caller's, pending, whatever the body says about approval. */
  function CreateTestimonialResult(users: seq<User>, ts: seq<Testimonial>, dto: TestimonialDto,
                                   caller: Principal, now: Instant): (r: Result<Testimonial, Exception>)
    ensures r.Failure? <==> CurrentUser(users, caller).Failure?
    ensures r.Failure? ==> r.error == RuntimeError(Some(UserNotFoundText))
    ensures r.Success? ==>
              r.value.id == NextKey(ts, TestimonialId) && !HasKey(ts, TestimonialId, r.value.id) &&
              r.value.userId == CurrentUser(users, caller).value.id &&
              r.value.content == dto.content && r.value.rating == dto.rating &&
              !r.value.approved && r.value.createdAt == now && r.value.updatedAt == now
  {
    var user := CurrentUser(users, caller);
    if user.Failure? then Failure(user.error)
    else Success(Testimonial(NextKey(ts, TestimonialId), user.value.id, dto.content, dto.rating, false, now, now))
  }

  /** A new testimonial is on the pending list and not on the approved one. */
  lemma CreatedTestimonialIsPending(users: seq<User>, ts: seq<Testimonial>, dto: TestimonialDto, caller: Principal, now: Instant)
    requires CreateTestimonialResult(users, ts, dto, caller, now).Success?
    ensures var t := CreateTestimonialResult(users, ts, dto, caller, now).value;
            t in FindByApprovedFalse(ts + [t]) && t !in FindByApprovedTrue(ts + [t])
  {
  }

  /** setApproved(true) and the update time. */
  function Approve(t: Testimonial, now: Instant): (r: Testimonial)
    ensures r.approved && r.updatedAt == now
    ensures r.(approved := t.approved, updatedAt := t.updatedAt) == t
  {
    t.(approved := true, updatedAt := now)
  }

  /** Approving twice is approving once, at the later time. */
  lemma ApproveIdempotent(t: Testimonial, t1: Instant, t2: Instant)
    ensures Approve(Approve(t, t1), t2) == Approve(t, t2)
  {
  }

  /** The testimonial approveTestimonial saves, or why it saves nothing. */
  function ApproveTestimonialResult(ts: seq<Testimonial>, id: int, now: Instant): (r: Result<Testimonial, Exception>)
    ensures r.Success? <==> HasKey(ts, TestimonialId, id)
    ensures r.Failure? ==> r.error == RuntimeError(Some(WithId(TestimonialNotFoundText, id)))
    ensures r.Success? ==> r.value == Approve(FindByKey(ts, TestimonialId, id).value, now)
  {
    var found := GetTestimonialById(ts, id);
    if found.Failure? then found else Success(Approve(found.value, now))
  }

  /** Once approved, a testimonial is on the approved list and off the pending one. */
  lemma ApprovedTestimonialIsListed(ts: seq<Testimonial>, id: int, now: Instant)
    requires UniqueKeys(ts, TestimonialId) && HasKey(ts, TestimonialId, id)
    ensures var after := ReplaceByKey(ts, TestimonialId, ApproveTestimonialResult(ts, id, now).value);
            ApproveTestimonialResult(ts, id, now).value in FindByApprovedTrue(after) &&
            forall x :: x in FindByApprovedFalse(after) ==> x.id != id
  {
    var t := ApproveTestimonialResult(ts, id, now).value;
    ReplaceMembers(ts, TestimonialId, t);
    ReplaceFind(ts, TestimonialId, t, id);
  }

  /**
   * updateTestimonial's changes: the content when one is sent, the rating
   * when it is positive, pending again unless the editor is an ADMIN or
   * MANAGER, and the update time.
   */
  function ApplyTestimonialEdit(t: Testimonial, dto: TestimonialDto, byStaff: bool, now: Instant): (r: Testimonial)
    ensures r.id == t.id && r.userId == t.userId && r.createdAt == t.createdAt && r.updatedAt == now
    ensures r.content == (if dto.content.Some? then dto.content else t.content)
    ensures r.rating == (if dto.rating > 0 then dto.rating else t.rating)
    ensures r.approved <==> byStaff && t.approved
  {
    var content := if dto.content.Some? then dto.content else t.content;
    var rating := if dto.rating > 0 then dto.rating else t.rating;
    var approved := if byStaff then t.approved else false;
    t.(content := content, rating := rating, approved := approved, updatedAt := now)
  }

  /** The testimonial updateTestimonial saves, or why it saves nothing. */
  function UpdateTestimonialResult(users: seq<User>, ts: seq<Testimonial>, id: int, dto: TestimonialDto,
                                   caller: Principal, now: Instant): (r: Result<Testimonial, Exception>)
    ensures !HasKey(ts, TestimonialId, id) ==> r == Failure(RuntimeError(Some(WithId(TestimonialNotFoundText, id))))
    ensures HasKey(ts, TestimonialId, id) && CurrentUser(users, caller).Failure? ==> r == Failure(RuntimeError(Some(UserNotFoundText)))
    ensures r.Success? <==>
              HasKey(ts, TestimonialId, id) && CurrentUser(users, caller).Success? &&
              (IsAdminOrManager(CurrentUser(users, caller).value.role) ||
               FindByKey(ts, TestimonialId, id).value.userId == CurrentUser(users, caller).value.id)
    ensures r.Failure? && HasKey(ts, TestimonialId, id) && CurrentUser(users, caller).Success? ==>
              r.error == AccessDenied(Some(UpdateDeniedText))
    ensures r.Success? ==>
              r.value == ApplyTestimonialEdit(FindByKey(ts, TestimonialId, id).value, dto,
                                              IsAdminOrManager(CurrentUser(users, caller).value.role), now)
  {
    var found := GetTestimonialById(ts, id);
    if found.Failure? then found
    else
      var user := CurrentUser(users, caller);
      if user.Failure? then Failure(user.error)
      else
        var isAdmin := IsAdminOrManager(user.value.role);
        if !isAdmin && found.value.userId != user.value.id then Failure(AccessDenied(Some(UpdateDeniedText)))
        else Success(ApplyTestimonialEdit(found.value, dto, isAdmin, now))
  }

  /** An owner who is a CLIENT or RECEPTIONIST sends an approved testimonial back to pending by editing it. */
  lemma OwnerEditUnapproves(users: seq<User>, ts: seq<Testimonial>, t: Testimonial, dto: TestimonialDto,
                            caller: Principal, now: Instant)
    requires UniqueKeys(ts, TestimonialId) && t in ts && t.approved
    requires CurrentUser(users, caller).Success?
    requires CurrentUser(users, caller).value.id == t.userId
    requires CurrentUser(users, caller).value.role in {CLIENT, RECEPTIONIST}
    ensures UpdateTestimonialResult(users, ts, t.id, dto, caller, now).Success?
    ensures !UpdateTestimonialResult(users, ts, t.id, dto, caller, now).value.approved
  {
    FindByKeyUnique(ts, TestimonialId, t);
  }

  /** An ADMIN's or MANAGER's edit keeps the approval as it was, whoever owns the testimonial. */
  lemma StaffEditKeepsApproval(users: seq<User>, ts: seq<Testimonial>, t: Testimonial, dto: TestimonialDto,
                               caller: Principal, now: Instant)
    requires UniqueKeys(ts, TestimonialId) && t in ts
    requires CurrentUser(users, caller).Success? && IsAdminOrManager(CurrentUser(users, caller).value.role)
    ensures UpdateTestimonialResult(users, ts, t.id, dto, caller, now).Success?
    ensures UpdateTestimonialResult(users, ts, t.id, dto, caller, now).value.approved == t.approved
  {
    FindByKeyUnique(ts, TestimonialId, t);
  }

  /** A rating of 0 or below keeps the stored rating. */
  lemma NonPositiveRatingKept(t: Testimonial, dto: TestimonialDto, byStaff: bool, now: Instant)
    requires dto.rating <= 0
    ensures ApplyTestimonialEdit(t, dto, byStaff, now).rating == t.rating
  {
  }

  /** Why deleteTestimonial deletes nothing, if it does not. */
  function DeleteTestimonialCheck(users: seq<User>, ts: seq<Testimonial>, id: int, caller: Principal): (err: Option<Exception>)
    ensures !HasKey(ts, TestimonialId, id) ==> err == Some(RuntimeError(Some(WithId(TestimonialNotFoundText, id))))
    ensures HasKey(ts, TestimonialId, id) && CurrentUser(users, caller).Failure? ==> err == Some(RuntimeError(Some(UserNotFoundText)))
    ensures err.None? <==>
              HasKey(ts, TestimonialId, id) && CurrentUser(users, caller).Success? &&
              (IsAdminOrManager(CurrentUser(users, caller).value.role) ||
               FindByKey(ts, TestimonialId, id).value.userId == CurrentUser(users, caller).value.id)
    ensures err.Some? && HasKey(ts, TestimonialId, id) && CurrentUser(users, caller).Success? ==>
              err.value == AccessDenied(Some(DeleteDeniedText))
  {
    var found := GetTestimonialById(ts, id);
    if found.Failure? then Some(found.error)
    else
      var user := CurrentUser(users, caller);
      if user.Failure? then Some(user.error)
      else if !IsAdminOrManager(user.value.role) && found.value.userId != user.value.id then Some(AccessDenied(Some(DeleteDeniedText)))
      else None
  }

  /** Whoever may edit a testimonial may delete it, and the other way round. */
  lemma DeleteAllowedIffUpdateAllowed(users: seq<User>, ts: seq<Testimonial>, id: int, dto: TestimonialDto,
                                      caller: Principal, now: Instant)
    ensures DeleteTestimonialCheck(users, ts, id, caller).None? <==> UpdateTestimonialResult(users, ts, id, dto, caller, now).Success?
  {
  }

  /** After deleteTestimonial the testimonial is gone and every other one reads as before. */
  lemma DeleteTestimonialReadsBack(ts: seq<Testimonial>, id: int, other: int)
    requires UniqueKeys(ts, TestimonialId)
    ensures GetTestimonialById(RemoveByKey(ts, TestimonialId, id), id) == Failure(RuntimeError(Some(WithId(TestimonialNotFoundText, id))))
    ensures other != id ==> GetTestimonialById(RemoveByKey(ts, TestimonialId, id), other) == GetTestimonialById(ts, other)
  {
    RemoveFind(ts, TestimonialId, id, other);
  }

  /** getUserTestimonials: exactly the caller's testimonials, approved or not. */
  function GetUserTestimonials(users: seq<User>, ts: seq<Testimonial>, caller: Principal): (r: Result<seq<Testimonial>, Exception>)
    ensures r.Failure? <==> CurrentUser(users, caller).Failure?
    ensures r.Failure? ==> r.error == RuntimeError(Some(UserNotFoundText))
    ensures r.Success? ==> forall x :: x in r.value <==> x in ts && x.userId == CurrentUser(users, caller).value.id
  {
    var user := CurrentUser(users, caller);
    if user.Failure? then Failure(user.error) else Success(FindByUser(ts, user.value.id))
  }

  /** getAverageRating: the repository's average, null included, over approved testimonials only. */
  function GetAverageRating(ts: seq<Testimonial>): (avg: Option<real>)
    ensures avg.None? <==> forall x :: x in ts ==> !x.approved
  {
    FindAverageRating(ts)
  }

  /** Pending testimonials do not move the average: adding one leaves it as it was. */
  lemma PendingDoesNotMoveAverage(ts: seq<Testimonial>, t: Testimonial)
    requires !t.approved
    ensures GetAverageRating(ts + [t]) == GetAverageRating(ts)
  {
    FilterAppend(ts, [t], (x: Testimonial) => x.approved);
    assert FindByApprovedTrue([t]) == [] by {
      assert [t][1..] == [];
    }
    assert FindByApprovedTrue(ts + [t]) == FindByApprovedTrue(ts);
  }

  class TestimonialService {
    const db: HotelDatabase

    constructor (db: HotelDatabase)
      ensures this.db == db
    {
      this.db := db;
    }

    /** createTestimonial: stores a pending testimonial of the caller. */
    method CreateTestimonial(dto: TestimonialDto, caller: Principal, now: Instant) returns (r: Result<Testimonial, Exception>)
      requires db.Valid()
      modifies db`testimonials
      ensures db.Valid()
      ensures r == CreateTestimonialResult(db.users, old(db.testimonials), dto, caller, now)
      ensures db.testimonials == if r.Success? then old(db.testimonials) + [r.value] else old(db.testimonials)
    {
      r := CreateTestimonialResult(db.users, db.testimonials, dto, caller, now);
      if r.Failure? {
        return;
      }
      AppendFreshKeepsKeys(db.testimonials, TestimonialId, r.value);
      db.testimonials := db.testimonials + [r.value];
    }

    /** approveTestimonial. */
    method ApproveTestimonial(id: int, now: Instant) returns (r: Result<Testimonial, Exception>)
      requires db.Valid()
      modifies db`testimonials
      ensures db.Valid()
      ensures r == ApproveTestimonialResult(old(db.testimonials), id, now)
      ensures db.testimonials == if r.Success? then ReplaceByKey(old(db.testimonials), TestimonialId, r.value) else old(db.testimonials)
    {
      var found := GetTestimonialById(db.testimonials, id);
      if found.Failure? {
        return found;
      }
      var testimonial := found.value.(approved := true);
      testimonial := testimonial.(updatedAt := now);
      SaveTestimonial(testimonial);
      r := Success(testimonial);
    }

    /** updateTestimonial: the owner, an ADMIN or a MANAGER edits the testimonial. */
    method UpdateTestimonial(id: int, dto: TestimonialDto, caller: Principal, now: Instant) returns (r: Result<Testimonial, Exception>)
      requires db.Valid()
      modifies db`testimonials
      ensures db.Valid()
      ensures r == UpdateTestimonialResult(db.users, old(db.testimonials), id, dto, caller, now)
      ensures db.testimonials == if r.Success? then ReplaceByKey(old(db.testimonials), TestimonialId, r.value) else old(db.testimonials)
    {
      var found := GetTestimonialById(db.testimonials, id);
      if found.Failure? {
        return found;
      }
      var user := CurrentUser(db.users, caller);
      if user.Failure? {
        return Failure(user.error);
      }
      var isAdmin := user.value.role == ADMIN || user.value.role == MANAGER;
      if !isAdmin && found.value.userId != user.value.id {
        return Failure(AccessDenied(Some(UpdateDeniedText)));
      }
      var testimonial := EditTestimonial(found.value, dto, isAdmin, now);
      SaveTestimonial(testimonial);
      r := Success(testimonial);
    }

    /** The setter calls of updateTestimonial, one field at a time. */
    static method EditTestimonial(stored: Testimonial, dto: TestimonialDto, isAdmin: bool, now: Instant) returns (testimonial: Testimonial)
      ensures testimonial == ApplyTestimonialEdit(stored, dto, isAdmin, now)
    {
      testimonial := stored;
      if dto.content.Some? {
        testimonial := testimonial.(content := dto.content);
      }
      if dto.rating > 0 {
        testimonial := testimonial.(rating := dto.rating);
      }
      if !isAdmin {
        testimonial := testimonial.(approved := false);
      }
      testimonial := testimonial.(updatedAt := now);
    }

    /** testimonialRepository.save of a stored testimonial. */
    method SaveTestimonial(testimonial: Testimonial)
      requires db.Valid() && HasKey(db.testimonials, TestimonialId, testimonial.id)
      modifies db`testimonials
      ensures db.Valid()
      ensures db.testimonials == ReplaceByKey(old(db.testimonials), TestimonialId, testimonial)
    {
      ReplaceKeepsKeys(db.testimonials, TestimonialId, testimonial);
      db.testimonials := ReplaceByKey(db.testimonials, TestimonialId, testimonial);
    }

    /** deleteTestimonial: the owner, an ADMIN or a MANAGER removes the testimonial. */
    method DeleteTestimonial(id: int, caller: Principal) returns (err: Option<Exception>)
      requires db.Valid()
      modifies db`testimonials
      ensures db.Valid()
      ensures err == DeleteTestimonialCheck(db.users, old(db.testimonials), id, caller)
      ensures db.testimonials == if err.None? then RemoveByKey(old(db.testimonials), TestimonialId, id) else old(db.testimonials)
    {
      err := DeleteTestimonialCheck(db.users, db.testimonials, id, caller);
      if err.Some? {
        return;
      }
      RemoveKeepsKeys(db.testimonials, TestimonialId, id);
      db.testimonials := RemoveByKey(db.testimonials, TestimonialId, id);
    }
  }
}
