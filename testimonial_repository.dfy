/**
 * TestimonialRepository: the approved/pending split, the average rating
 * over approved testimonials (NULL when there are none) and the top-rated list.
 */
module TestimonialRepository {
  import opened Wrappers
  import opened Seqs
  import opened Domain

  function Rating(t: Testimonial): int { t.rating }

  /** findByUser. */
  function FindByUser(ts: seq<Testimonial>, userId: int): (r: seq<Testimonial>)
    ensures forall x :: x in r <==> x in ts && x.userId == userId
  {
    Filter(ts, (x: Testimonial) => x.userId == userId)
  }

  /** findByApprovedTrue. */
  function FindByApprovedTrue(ts: seq<Testimonial>): (r: seq<Testimonial>)
    ensures forall x :: x in r <==> x in ts && x.approved
  {
    Filter(ts, (x: Testimonial) => x.approved)
  }

  /** findByApprovedFalse. */
  function FindByApprovedFalse(ts: seq<Testimonial>): (r: seq<Testimonial>)
    ensures forall x :: x in r <==> x in ts && !x.approved
  {
    Filter(ts, (x: Testimonial) => !x.approved)
  }

  /** Approved and pending lists split the table: every testimonial is in exactly one, as often as stored. */
  lemma {:induction false} ApprovedPendingPartition(ts: seq<Testimonial>)
    ensures multiset(FindByApprovedTrue(ts)) + multiset(FindByApprovedFalse(ts)) == multiset(ts)
  {
    if ts != [] {
      ApprovedPendingPartition(ts[1..]);
      assert ts == [ts[0]] + ts[1..];
    }
  }

  function RatingTotal(ts: seq<Testimonial>): int {
    if ts == [] then 0 else ts[0].rating + RatingTotal(ts[1..])
  }

  lemma {:induction false} RatingTotalBounds(ts: seq<Testimonial>)
    requires forall x :: x in ts ==> 1 <= x.rating <= 5
    ensures |ts| <= RatingTotal(ts) <= 5 * |ts|
  {
    if ts != [] {
      assert ts[0] in ts;
      RatingTotalBounds(ts[1..]);
    }
  }

  /** findAverageRating: AVG(rating) over approved testimonials; NULL when none is approved. */
  function FindAverageRating(ts: seq<Testimonial>): (avg: Option<real>)
    ensures avg.None? <==> forall x :: x in ts ==> !x.approved
  {
    var approved := FindByApprovedTrue(ts);
    assert approved != [] ==> approved[0] in approved;
    if approved == [] then None
    else Some(RatingTotal(approved) as real / |approved| as real)
  }

  lemma ProductOfPositives(a: real, b: real)
    requires a > 0.0 && b > 0.0
    ensures a * b > 0.0
  {
  }

  lemma QuotientWithinScale(total: real, n: real)
    requires n > 0.0 && n <= total <= 5.0 * n
    ensures 1.0 <= total / n <= 5.0
  {
    var q := total / n;
    assert q * n == total;
    if q > 5.0 {
      ProductOfPositives(q - 5.0, n);
      assert false;
    }
  }

  /** With ratings kept within 1..5, the average stays within 1..5. */
  lemma AverageWithinRatingScale(ts: seq<Testimonial>)
    requires forall x :: x in ts ==> 1 <= x.rating <= 5
    ensures FindAverageRating(ts).Some? ==> 1.0 <= FindAverageRating(ts).value <= 5.0
  {
    var approved := FindByApprovedTrue(ts);
    if approved != [] {
      RatingTotalBounds(approved);
      QuotientWithinScale(RatingTotal(approved) as real, |approved| as real);
    }
  }

  /** findTopRatedTestimonials, unpaged: approved only, best rating first. */
  function FindTopRatedTestimonials(ts: seq<Testimonial>): (r: seq<Testimonial>)
    ensures forall x :: x in r <==> x in ts && x.approved
    ensures SortedDesc(r, Rating)
  {
    var rows := FindByApprovedTrue(ts);
    assert forall x :: x in SortDesc(rows, Rating) <==> x in multiset(rows);
    SortDesc(rows, Rating)
  }
}
