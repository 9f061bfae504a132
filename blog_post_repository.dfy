/**
 * BlogPostRepository: publication filters, the keyword search as the
 * JPQL parser reads it (AND binds tighter than OR), and the tag query as a
 * JOIN over the tag list. LIKE '%kw%' is substring containment.
 */
module BlogPostRepository {
  import opened Wrappers
  import opened Text
  import opened Seqs
  import opened Domain
  import opened ReservationRepository

  /** findByAuthor. */
  function FindByAuthor(posts: seq<BlogPost>, authorId: int): (r: seq<BlogPost>)
    ensures forall x :: x in r <==> x in posts && x.authorId == authorId
  {
    Filter(posts, (x: BlogPost) => x.authorId == authorId)
  }

  /** findByPublishedTrue, unpaged. */
  function FindByPublishedTrue(posts: seq<BlogPost>): (r: seq<BlogPost>)
    ensures forall x :: x in r <==> x in posts && x.published
  {
    Filter(posts, (x: BlogPost) => x.published)
  }

  /** The ordering key of a post; a published post always has a publication time. */
  function PublishedAtKey(p: BlogPost): int {
    p.publishedAt.GetOr(0)
  }

  /** findByPublishedTrueOrderByPublishedAtDesc. */
  function FindByPublishedTrueOrderByPublishedAtDesc(posts: seq<BlogPost>): (r: seq<BlogPost>)
    ensures forall x :: x in r <==> x in posts && x.published
    ensures SortedDesc(r, PublishedAtKey)
  {
    var rows := FindByPublishedTrue(posts);
    assert forall x :: x in SortDesc(rows, PublishedAtKey) <==> x in multiset(rows);
    SortDesc(rows, PublishedAtKey)
  }

  /** The search condition `published = true AND title LIKE kw OR content LIKE kw`. */
  predicate SearchMatches(p: BlogPost, keyword: string) {
    (p.published && Contains(p.title, keyword)) || Contains(p.content, keyword)
  }

  /** searchBlogPosts, unpaged. */
  function SearchBlogPosts(posts: seq<BlogPost>, keyword: string): (r: seq<BlogPost>)
    ensures forall x :: x in r <==> x in posts && SearchMatches(x, keyword)
  {
    Filter(posts, (x: BlogPost) => SearchMatches(x, keyword))
  }

  /** A draft whose content holds the keyword is found by the public search. */
  lemma SearchFindsDraftByContent(posts: seq<BlogPost>, p: BlogPost, keyword: string)
    requires p in posts && !p.published && Contains(p.content, keyword)
    ensures p in SearchBlogPosts(posts, keyword)
  {
  }

  /** A title match alone finds only published posts. */
  lemma SearchByTitleOnlyPublished(posts: seq<BlogPost>, p: BlogPost, keyword: string)
    requires p in SearchBlogPosts(posts, keyword) && !Contains(p.content, keyword)
    ensures p.published && Contains(p.title, keyword)
  {
  }

  /** How many times `tag` is in a tag list. */
  function Occurrences(tags: seq<string>, tag: string): (n: nat)
    ensures n > 0 <==> tag in tags
    ensures n <= |tags|
  {
    if tags == [] then 0 else (if tags[0] == tag then 1 else 0) + Occurrences(tags[1..], tag)
  }

  function Repeat(p: BlogPost, n: nat): (r: seq<BlogPost>)
    ensures |r| == n
    ensures forall x :: x in r <==> n > 0 && x == p
  {
    if n == 0 then [] else [p] + Repeat(p, n - 1)
  }

  /** findByTag, unpaged: the join yields a published post once per matching entry of its tag list. */
  function FindByTag(posts: seq<BlogPost>, tag: string): (r: seq<BlogPost>)
    ensures forall x :: x in r <==> x in posts && x.published && tag in x.tags
  {
    if posts == [] then []
    else
      var p := posts[0];
      Repeat(p, if p.published then Occurrences(p.tags, tag) else 0) + FindByTag(posts[1..], tag)
  }

  /**
   * A new post adds itself to the end of the result once per entry of its
   * tag list equal to the tag, if it is published, and not at all otherwise.
   */
  lemma {:induction false} FindByTagAppend(posts: seq<BlogPost>, p: BlogPost, tag: string)
    ensures FindByTag(posts + [p], tag) ==
            FindByTag(posts, tag) + Repeat(p, if p.published then Occurrences(p.tags, tag) else 0)
  {
    var mine := Repeat(p, if p.published then Occurrences(p.tags, tag) else 0);
    if posts == [] {
      assert posts + [p] == [p];
      assert [p][1..] == [];
    } else {
      var q, rest := posts[0], posts[1..];
      var head := Repeat(q, if q.published then Occurrences(q.tags, tag) else 0);
      assert (posts + [p])[0] == q;
      assert (posts + [p])[1..] == rest + [p];
      calc {
        FindByTag(posts + [p], tag);
        head + FindByTag(rest + [p], tag);
        { FindByTagAppend(rest, p, tag); }
        head + (FindByTag(rest, tag) + mine);
        (head + FindByTag(rest, tag)) + mine;
        FindByTag(posts, tag) + mine;
      }
    }
  }

  /** There is no DISTINCT: a published post carrying the tag twice comes back twice. */
  lemma FindByTagRepeatsDuplicateTag(p: BlogPost, tag: string)
    requires p.published && p.tags == [tag, tag]
    ensures FindByTag([p], tag) == [p, p]
  {
    assert Occurrences(p.tags, tag) == 2 by {
      assert p.tags[1..] == [tag];
    }
    assert [p][1..] == [];
    assert Repeat(p, 2) == [p] + Repeat(p, 1) == [p] + ([p] + Repeat(p, 0));
  }

  /** countPublishedPostsBetweenDates: a NULL publication time is never BETWEEN anything. */
  function CountPublishedPostsBetweenDates(posts: seq<BlogPost>, startDate: int, endDate: int): (n: nat)
    ensures n <= |posts|
  {
    CountWhere(posts, (x: BlogPost) => x.published && x.publishedAt.Some? && Between(x.publishedAt.value, startDate, endDate))
  }

  /**
   * The count is the number of published posts whose publication time lies
   * in [startDate, endDate], and it is zero exactly when there is none.
   */
  lemma CountPublishedIsFilterSize(posts: seq<BlogPost>, startDate: int, endDate: int)
    ensures CountPublishedPostsBetweenDates(posts, startDate, endDate) ==
            |Filter(posts, (x: BlogPost) => x.published && x.publishedAt.Some? && startDate <= x.publishedAt.value <= endDate)|
    ensures CountPublishedPostsBetweenDates(posts, startDate, endDate) == 0 <==>
            forall x :: x in posts ==> !x.published || x.publishedAt.None? || !(startDate <= x.publishedAt.value <= endDate)
  {
    var p := (x: BlogPost) => x.published && x.publishedAt.Some? && Between(x.publishedAt.value, startDate, endDate);
    CountIsFilterSize(posts, p);
    FilterCongruent(posts, p, (x: BlogPost) => x.published && x.publishedAt.Some? && startDate <= x.publishedAt.value <= endDate);
    FilterEmpty(posts, p);
  }

  /** A new post raises the count by one exactly when it is published inside the range. */
  lemma CountPublishedAppend(posts: seq<BlogPost>, p: BlogPost, startDate: int, endDate: int)
    ensures CountPublishedPostsBetweenDates(posts + [p], startDate, endDate) ==
            CountPublishedPostsBetweenDates(posts, startDate, endDate) +
            (if p.published && p.publishedAt.Some? && startDate <= p.publishedAt.value <= endDate then 1 else 0)
  {
    CountAppend(posts, p, (x: BlogPost) => x.published && x.publishedAt.Some? && Between(x.publishedAt.value, startDate, endDate));
  }

  /** A draft is never counted, whatever its publication time: adding one leaves the count as it was. */
  lemma CountPublishedIgnoresDrafts(posts: seq<BlogPost>, p: BlogPost, startDate: int, endDate: int)
    requires !p.published
    ensures CountPublishedPostsBetweenDates(posts + [p], startDate, endDate) ==
            CountPublishedPostsBetweenDates(posts, startDate, endDate)
  {
    CountPublishedAppend(posts, p, startDate, endDate);
  }
}
