/**
 * BlogPostService: the public and the administrative read of a post, and
 * creating, patching and deleting posts. Only a post's author or a caller
 * holding ROLE_ADMIN may change or delete it; a post's publication time is
 * stamped when it goes from draft to published, and kept when it is taken
 * back to draft.
 */
module BlogPosts {
  import opened Wrappers
  import opened Calendar
  import opened Seqs
  import opened Domain
  import opened Errors
  import opened BlogPostRepository
  import opened Database

  const ReadDeniedText: string := "Vous n'avez pas accès à cet article"
  const UpdateDeniedText: string := "Vous n'êtes pas autorisé à modifier cet article"
  const DeleteDeniedText: string := "Vous n'êtes pas autorisé à supprimer cet article"
  const AdminAuthority: string := "ROLE_ADMIN"

  /** The CreateBlogPostRequest fields; tags default to the empty list and published to false. */
  datatype CreatePostRequest = CreatePostRequest(
    title: string,
    content: string,
    featuredImage: Option<string>,
    tags: seq<string>,
    published: bool)

  /**
   * The UpdateBlogPostRequest fields; a null field is None. A request body
   * that leaves out `tags` carries the field's default, the empty list, and
   * not null.
   */
  datatype UpdatePostRequest = UpdatePostRequest(
    title: Option<string>,
    content: Option<string>,
    featuredImage: Option<string>,
    tags: Option<seq<string>>,
    published: Option<bool>)

  /** The request a body with no field at all binds to. */
  const EmptyUpdateRequest: UpdatePostRequest := UpdatePostRequest(None, None, None, Some([]), None)

  /** getPostByIdAdmin, which is findPostById: any stored post; a missing one is a NoSuchElementException. */
  function GetPostByIdAdmin(posts: seq<BlogPost>, id: int): (r: Result<BlogPost, Exception>)
    ensures r.Success? <==> HasKey(posts, PostId, id)
    ensures r.Failure? ==> r.error == NoSuchElement(Some(WithId(PostNotFoundText, id)))
    ensures r.Success? ==> r.value in posts && r.value.id == id
  {
    var found := FindByKey(posts, PostId, id);
    if found.None? then Failure(NoSuchElement(Some(WithId(PostNotFoundText, id)))) else Success(found.value)
  }

  /** getPostById: a draft is refused whoever asks. */
  function GetPostById(posts: seq<BlogPost>, id: int): (r: Result<BlogPost, Exception>)
    ensures !HasKey(posts, PostId, id) ==> r == Failure(NoSuchElement(Some(WithId(PostNotFoundText, id))))
    ensures r.Success? <==> HasKey(posts, PostId, id) && FindByKey(posts, PostId, id).value.published
    ensures HasKey(posts, PostId, id) && r.Failure? ==> r.error == AccessDenied(Some(ReadDeniedText))
    ensures r.Success? ==> r == GetPostByIdAdmin(posts, id)
  {
    var found := GetPostByIdAdmin(posts, id);
    if found.Failure? then found
    else if !found.value.published then Failure(AccessDenied(Some(ReadDeniedText)))
    else found
  }

  /** The public read shows exactly the posts of the published list. */
  lemma PublicReadIsPublishedList(posts: seq<BlogPost>, p: BlogPost)
    requires UniqueKeys(posts, PostId) && p in posts
    ensures GetPostById(posts, p.id) == Success(p) <==> p in FindByPublishedTrueOrderByPublishedAtDesc(posts)
  {
    FindByKeyUnique(posts, PostId, p);
  }

  /** getUserPosts: the caller's own posts. */
  function GetUserPosts(users: seq<User>, posts: seq<BlogPost>, caller: Principal): (r: Result<seq<BlogPost>, Exception>)
    ensures r.Failure? <==> FindUserByUsername(users, caller.username).None?
    ensures r.Failure? ==> r.error == NoSuchElement(Some(UserNotFoundText))
    ensures r.Success? ==> forall x :: x in r.value <==> x in posts && x.authorId == FindUserByUsername(users, caller.username).value.id
  {
    var user := FindUserByUsername(users, caller.username);
    if user.None? then Failure(NoSuchElement(Some(UserNotFoundText))) else Success(FindByAuthor(posts, user.value.id))
  }

  /** The post createPost stores, or why it stores nothing. */
  function CreatePostResult(users: seq<User>, posts: seq<BlogPost>, request: CreatePostRequest,
                            caller: Principal, now: Instant): (r: Result<BlogPost, Exception>)
    ensures r.Failure? <==> FindUserByUsername(users, caller.username).None?
    ensures r.Failure? ==> r.error == NoSuchElement(Some(UserNotFoundText))
    ensures r.Success? ==>
              r.value.id == NextKey(posts, PostId) && !HasKey(posts, PostId, r.value.id) &&
              r.value.authorId == FindUserByUsername(users, caller.username).value.id &&
              r.value.title == request.title && r.value.content == request.content &&
              r.value.featuredImage == request.featuredImage && r.value.tags == request.tags &&
              r.value.published == request.published
    ensures r.Success? ==> (r.value.publishedAt.Some? <==> request.published)
    ensures r.Success? && r.value.publishedAt.Some? ==> r.value.publishedAt.value == now
  {
    var author := FindUserByUsername(users, caller.username);
    if author.None? then Failure(NoSuchElement(Some(UserNotFoundText)))
    else
      Success(BlogPost(NextKey(posts, PostId), request.title, request.content, author.value.id,
                       request.featuredImage, request.tags, request.published,
                       if request.published then Some(now) else None))
  }

  /** The author-or-ROLE_ADMIN test of updatePost and deletePost. */
  predicate MayEdit(p: BlogPost, user: User, caller: Principal) {
    p.authorId == user.id || AdminAuthority in caller.authorities
  }

  /**
   * updatePost's changes to a post: every field the request carries
   * replaces the stored one, and publishedAt is stamped when a draft is
   * published, never otherwise.
   */
  function ApplyPostPatch(p: BlogPost, request: UpdatePostRequest, now: Instant): (r: BlogPost)
    ensures r.id == p.id && r.authorId == p.authorId
    ensures r.title == (if request.title.Some? then request.title.value else p.title)
    ensures r.content == (if request.content.Some? then request.content.value else p.content)
    ensures r.featuredImage == (if request.featuredImage.Some? then request.featuredImage else p.featuredImage)
    ensures r.tags == (if request.tags.Some? then request.tags.value else p.tags)
    ensures r.published == (if request.published.Some? then request.published.value else p.published)
    ensures r.publishedAt == (if !p.published && r.published then Some(now) else p.publishedAt)
    ensures (p.published ==> p.publishedAt.Some?) ==> (r.published ==> r.publishedAt.Some?)
  {
    var title := if request.title.Some? then request.title.value else p.title;
    var content := if request.content.Some? then request.content.value else p.content;
    var image := if request.featuredImage.Some? then request.featuredImage else p.featuredImage;
    var tags := if request.tags.Some? then request.tags.value else p.tags;
    var published := if request.published.Some? then request.published.value else p.published;
    var publishedAt := if request.published.Some? && !p.published && request.published.value then Some(now) else p.publishedAt;
    p.(title := title, content := content, featuredImage := image, tags := tags,
       published := published, publishedAt := publishedAt)
  }

  /** Sending the same patch twice leaves what the first one left, whenever the second is sent. */
  lemma PatchIdempotent(p: BlogPost, request: UpdatePostRequest, t1: Instant, t2: Instant)
    ensures ApplyPostPatch(ApplyPostPatch(p, request, t1), request, t2) == ApplyPostPatch(p, request, t1)
  {
  }

  /** Taking a post back to draft keeps its publication time. */
  lemma UnpublishKeepsPublishedAt(p: BlogPost, now: Instant)
    requires p.published
    ensures var r := ApplyPostPatch(p, EmptyUpdateRequest.(tags := None, published := Some(false)), now);
            !r.published && r.publishedAt == p.publishedAt && r.(published := true) == p
  {
  }

  /** Publishing again after taking a post back to draft stamps the new time. */
  lemma RepublishStampsAgain(p: BlogPost, t1: Instant, t2: Instant)
    requires p.published
    ensures var unpublish := EmptyUpdateRequest.(tags := None, published := Some(false));
            var publish := EmptyUpdateRequest.(tags := None, published := Some(true));
            ApplyPostPatch(ApplyPostPatch(p, unpublish, t1), publish, t2).publishedAt == Some(t2)
  {
  }

  /** A patch that does not mention `published` leaves the publication state alone. */
  lemma PatchWithoutPublishedKeepsPublication(p: BlogPost, request: UpdatePostRequest, now: Instant)
    requires request.published.None?
    ensures ApplyPostPatch(p, request, now).published == p.published
    ensures ApplyPostPatch(p, request, now).publishedAt == p.publishedAt
  {
  }

  /** A body with no field clears the post's tags and changes nothing else. */
  lemma EmptyRequestClearsTags(p: BlogPost, now: Instant)
    ensures ApplyPostPatch(p, EmptyUpdateRequest, now) == p.(tags := [])
  {
  }

  /** The post updatePost saves, or why it saves nothing. */
  function UpdatePostResult(users: seq<User>, posts: seq<BlogPost>, id: int, request: UpdatePostRequest,
                            caller: Principal, now: Instant): (r: Result<BlogPost, Exception>)
    ensures !HasKey(posts, PostId, id) ==> r == Failure(NoSuchElement(Some(WithId(PostNotFoundText, id))))
    ensures HasKey(posts, PostId, id) && FindUserByUsername(users, caller.username).None? ==>
              r == Failure(NoSuchElement(Some(UserNotFoundText)))
    ensures r.Success? <==>
              HasKey(posts, PostId, id) && FindUserByUsername(users, caller.username).Some? &&
              MayEdit(FindByKey(posts, PostId, id).value, FindUserByUsername(users, caller.username).value, caller)
    ensures r.Failure? && HasKey(posts, PostId, id) && FindUserByUsername(users, caller.username).Some? ==>
              r.error == AccessDenied(Some(UpdateDeniedText))
    ensures r.Success? ==> r.value == ApplyPostPatch(FindByKey(posts, PostId, id).value, request, now)
  {
    var found := GetPostByIdAdmin(posts, id);
    if found.Failure? then found
    else
      var user := FindUserByUsername(users, caller.username);
      if user.None? then Failure(NoSuchElement(Some(UserNotFoundText)))
      else if !MayEdit(found.value, user.value, caller) then Failure(AccessDenied(Some(UpdateDeniedText)))
      else Success(ApplyPostPatch(found.value, request, now))
  }

  /** A MANAGER who did not write the post is refused: only ROLE_ADMIN overrides authorship. */
  lemma NonAuthorManagerRefused(users: seq<User>, posts: seq<BlogPost>, p: BlogPost, request: UpdatePostRequest,
                                caller: Principal, now: Instant)
    requires UniqueKeys(posts, PostId) && p in posts
    requires FindUserByUsername(users, caller.username).Some?
    requires FindUserByUsername(users, caller.username).value.role == MANAGER
    requires caller.authorities == ["ROLE_MANAGER"]
    requires p.authorId != FindUserByUsername(users, caller.username).value.id
    ensures UpdatePostResult(users, posts, p.id, request, caller, now) == Failure(AccessDenied(Some(UpdateDeniedText)))
  {
    FindByKeyUnique(posts, PostId, p);
  }

  /** Why deletePost deletes nothing, if it does not. */
  function DeletePostCheck(users: seq<User>, posts: seq<BlogPost>, id: int, caller: Principal): (err: Option<Exception>)
    ensures !HasKey(posts, PostId, id) ==> err == Some(NoSuchElement(Some(WithId(PostNotFoundText, id))))
    ensures HasKey(posts, PostId, id) && FindUserByUsername(users, caller.username).None? ==>
              err == Some(NoSuchElement(Some(UserNotFoundText)))
    ensures err.None? <==>
              HasKey(posts, PostId, id) && FindUserByUsername(users, caller.username).Some? &&
              MayEdit(FindByKey(posts, PostId, id).value, FindUserByUsername(users, caller.username).value, caller)
    ensures err.Some? && HasKey(posts, PostId, id) && FindUserByUsername(users, caller.username).Some? ==>
              err.value == AccessDenied(Some(DeleteDeniedText))
  {
    var found := GetPostByIdAdmin(posts, id);
    if found.Failure? then Some(found.error)
    else
      var user := FindUserByUsername(users, caller.username);
      if user.None? then Some(NoSuchElement(Some(UserNotFoundText)))
      else if !MayEdit(found.value, user.value, caller) then Some(AccessDenied(Some(DeleteDeniedText)))
      else None
  }

  /** Whoever may change a post may delete it, and the other way round. */
  lemma DeleteAllowedIffUpdateAllowed(users: seq<User>, posts: seq<BlogPost>, id: int, request: UpdatePostRequest,
                                      caller: Principal, now: Instant)
    ensures DeletePostCheck(users, posts, id, caller).None? <==> UpdatePostResult(users, posts, id, request, caller, now).Success?
  {
  }

  /** After deletePost the post is gone and every other post reads as before. */
  lemma DeletePostReadsBack(posts: seq<BlogPost>, id: int, other: int)
    requires UniqueKeys(posts, PostId)
    ensures GetPostByIdAdmin(RemoveByKey(posts, PostId, id), id) == Failure(NoSuchElement(Some(WithId(PostNotFoundText, id))))
    ensures other != id ==> GetPostByIdAdmin(RemoveByKey(posts, PostId, id), other) == GetPostByIdAdmin(posts, other)
  {
    RemoveFind(posts, PostId, id, other);
  }

  class BlogPostService {
    const db: HotelDatabase

    constructor (db: HotelDatabase)
      ensures this.db == db
    {
      this.db := db;
    }

    /** createPost: stores the post under the caller's name. */
    method CreatePost(request: CreatePostRequest, caller: Principal, now: Instant) returns (r: Result<BlogPost, Exception>)
      requires db.Valid()
      modifies db`posts
      ensures db.Valid()
      ensures r == CreatePostResult(db.users, old(db.posts), request, caller, now)
      ensures db.posts == if r.Success? then old(db.posts) + [r.value] else old(db.posts)
    {
      r := CreatePostResult(db.users, db.posts, request, caller, now);
      if r.Failure? {
        return;
      }
      AppendFreshKeepsKeys(db.posts, PostId, r.value);
      db.posts := db.posts + [r.value];
    }

    /** updatePost: the author or an administrator patches the post field by field. */
    method UpdatePost(id: int, request: UpdatePostRequest, caller: Principal, now: Instant) returns (r: Result<BlogPost, Exception>)
      requires db.Valid()
      modifies db`posts
      ensures db.Valid()
      ensures r == UpdatePostResult(db.users, old(db.posts), id, request, caller, now)
      ensures db.posts == if r.Success? then ReplaceByKey(old(db.posts), PostId, r.value) else old(db.posts)
    {
      var found := GetPostByIdAdmin(db.posts, id);
      if found.Failure? {
        return found;
      }
      var user := FindUserByUsername(db.users, caller.username);
      if user.None? {
        return Failure(NoSuchElement(Some(UserNotFoundText)));
      }
      if !MayEdit(found.value, user.value, caller) {
        return Failure(AccessDenied(Some(UpdateDeniedText)));
      }
      var post := PatchPost(found.value, request, now);
      SavePost(post);
      r := Success(post);
    }

    /** The setter calls of updatePost, one field at a time. */
    static method PatchPost(stored: BlogPost, request: UpdatePostRequest, now: Instant) returns (post: BlogPost)
      ensures post == ApplyPostPatch(stored, request, now)
    {
      post := stored;
      if request.title.Some? {
        post := post.(title := request.title.value);
      }
      if request.content.Some? {
        post := post.(content := request.content.value);
      }
      if request.featuredImage.Some? {
        post := post.(featuredImage := request.featuredImage);
      }
      if request.tags.Some? {
        post := post.(tags := request.tags.value);
      }
      if request.published.Some? {
        var wasPublished := post.published;
        post := post.(published := request.published.value);
        if !wasPublished && request.published.value {
          post := post.(publishedAt := Some(now));
        }
      }
    }

    /** blogPostRepository.save of a stored post. */
    method SavePost(post: BlogPost)
      requires db.Valid() && HasKey(db.posts, PostId, post.id)
      requires post.published ==> post.publishedAt.Some?
      modifies db`posts
      ensures db.Valid()
      ensures db.posts == ReplaceByKey(old(db.posts), PostId, post)
    {
      ReplaceKeepsKeys(db.posts, PostId, post);
      ReplaceMembers(db.posts, PostId, post);
      db.posts := ReplaceByKey(db.posts, PostId, post);
    }

    /** deletePost: the author or an administrator removes the post. */
    method DeletePost(id: int, caller: Principal) returns (err: Option<Exception>)
      requires db.Valid()
      modifies db`posts
      ensures db.Valid()
      ensures err == DeletePostCheck(db.users, old(db.posts), id, caller)
      ensures db.posts == if err.None? then RemoveByKey(old(db.posts), PostId, id) else old(db.posts)
    {
      err := DeletePostCheck(db.users, db.posts, id, caller);
      if err.Some? {
        return;
      }
      RemoveKeepsKeys(db.posts, PostId, id);
      db.posts := RemoveByKey(db.posts, PostId, id);
    }
  }
}
