/**
 * The posts service as a state machine over the world it touches: the
 * cache keyspace and the two collections. One function per operation gives
 * the new world and the result; the reads are cache-aside (look in the cache,
 * on a miss load from the store and write the cache), the writes change the
 * store and then delete the cache keys that may now be stale.
 *
 * The clock, fresh ids and Redis failures are parameters: `now` (and, for
 * the two `new Date()` defaults of a created record, `created` and
 * `updated`), `newId` and `newOid` stand for `new Date()`, `randomUUID()`
 * and the generated `_id`, and `Faults` for what each Redis command of the
 * call would report.
 */
module ServiceSpec {
  import opened Wrappers
  import opened Json
  import opened Schemas
  import opened Store
  import opened Cache
  import opened CacheKeys
  import PostDtos
  import CommentDtos
  import CreatePostDtos
  import AddCommentDtos

  datatype World = World(cache: CacheState, posts: seq<PostDocument>, comments: seq<CommentDocument>)

  /** The failure, if any, that each Redis command of one call reports. */
  datatype Faults = Faults(onGet: Option<RedisError>, onSet: Option<RedisError>, onDelete: Option<RedisError>)

  const NoFaults := Faults(None, None, None)

  datatype ServiceError =
    | NotFound                          // the 404 the service throws
    | CacheFailure(cause: CacheError)   // a rejected cache call, rethrown
    | StoreFailure(reason: StoreError)  // a rejected insert
    | ParentMissing                     // reading `.id` of a comment's unresolved parent

  /** JavaScript truthiness of a parsed value: what `if (cached)` tests. */
  predicate Truthy(j: Json) {
    match j
    case Null => false
    case Bool(b) => b
    case Number(n) => n != 0
    case String(s) => s != ""
    case _ => true
  }

  predicate StoreValid(w: World) {
    PostsValid(w.posts) && CommentsValid(w.comments)
  }

  // ------------------------------------------------------------- reading

  /**
   * The read path shared by the four reads: a truthy cached value is the
   * answer; otherwise the store's answer `loaded` is written under `key` with
   * the default lifetime and returned. A store miss is returned as it is.
   */
  function CacheAside(w: World, key: string, f: Faults, loaded: Result<Json, ServiceError>): (World, Result<Json, ServiceError>) {
    match CacheGet(w.cache, key, f.onGet)
    case Err(e) => (w, Err(CacheFailure(e)))
    case Ok(cached) =>
      if Truthy(cached) then (w, Ok(cached))
      else match loaded
        case Err(e) => (w, Err(e))
        case Ok(v) =>
          match CacheSet(w.cache, key, v, None, f.onSet)
          case Err(e) => (w, Err(CacheFailure(e)))
          case Ok(c) => (w.(cache := c), Ok(v))
  }

  /** What the store answers for one post: its DTO, or NotFound. */
  function LoadPost(posts: seq<PostDocument>, id: string): Result<Json, ServiceError> {
    match FindPost(posts, id)
    case Some(p) => Ok(PostDtos.ToJson(PostDtos.FromSchema(p)))
    case None => Err(NotFound)
  }

  function LoadAllPosts(posts: seq<PostDocument>): Result<Json, ServiceError> {
    Ok(PostDtos.ListToJson(PostDtos.FromSchemaAll(posts)))
  }

  function LoadComment(comments: seq<CommentDocument>, id: string): Result<Json, ServiceError> {
    match FindComment(comments, id)
    case Some(c) => Ok(CommentDtos.ToJson(CommentDtos.FromSchema(c)))
    case None => Err(NotFound)
  }

  /** The post is resolved by public id, then its comments are found by its `_id`. */
  function LoadPostComments(posts: seq<PostDocument>, comments: seq<CommentDocument>, postId: string): Result<Json, ServiceError> {
    match FindPost(posts, postId)
    case Some(p) => Ok(CommentDtos.ListToJson(CommentDtos.FromSchemaAll(CommentsOfPost(comments, p.oid))))
    case None => Err(NotFound)
  }

  function GetPost(w: World, id: string, f: Faults): (World, Result<Json, ServiceError>) {
    CacheAside(w, PostKey(id), f, LoadPost(w.posts, id))
  }

  function GetAllPosts(w: World, f: Faults): (World, Result<Json, ServiceError>) {
    CacheAside(w, AllPostsKey, f, LoadAllPosts(w.posts))
  }

  function GetComment(w: World, id: string, f: Faults): (World, Result<Json, ServiceError>) {
    CacheAside(w, CommentKey(id), f, LoadComment(w.comments, id))
  }

  function GetPostComments(w: World, postId: string, f: Faults): (World, Result<Json, ServiceError>) {
    CacheAside(w, PostCommentsKey(postId), f, LoadPostComments(w.posts, w.comments, postId))
  }

  // ------------------------------------------------------------- writing

  /** After a store change: one `delete` of `keys`, then the result, or the cache's failure. */
  function Invalidate<T>(w: World, keys: seq<string>, f: Faults, value: T): (World, Result<T, ServiceError>) {
    match CacheDelete(w.cache, keys, f.onDelete)
    case Err(e) => (w, Err(CacheFailure(e)))
    case Ok(c) => (w.(cache := c), Ok(value))
  }

  /** `create(data)`, then the DTO of the stored record. The cache is not involved. */
  function CreatePost(w: World, data: CreatePostDtos.CreatePostDto, newId: string, newOid: ObjectId, created: Time, updated: Time): (World, Result<PostDtos.PostDto, ServiceError>) {
    var doc := NewPost(data.content, data.userId, newId, newOid, created, updated);
    match InsertPost(w.posts, doc)
    case Err(e) => (w, Err(StoreFailure(e)))
    case Ok(posts) => (w.(posts := posts), Ok(PostDtos.FromSchema(doc)))
  }

  function UpdatePost(w: World, id: string, content: string, now: Time, f: Faults): (World, Result<PostDtos.PostDto, ServiceError>) {
    match FindOneAndUpdatePost(w.posts, id, content, now)
    case None => (w, Err(NotFound))
    case Some((posts, p)) => Invalidate(w.(posts := posts), [PostKey(id), AllPostsKey], f, PostDtos.FromSchema(p))
  }

  function DeletePost(w: World, id: string, f: Faults): (World, Result<PostDtos.PostDto, ServiceError>) {
    match FindOneAndDeletePost(w.posts, id)
    case None => (w, Err(NotFound))
    case Some((posts, p)) => Invalidate(w.(posts := posts), [PostKey(id), AllPostsKey], f, PostDtos.FromSchema(p))
  }

  /** `exists({ id: postId })`, then `create` linked to the post's `_id`. No cache key is deleted. */
  function AddComment(w: World, postId: string, data: AddCommentDtos.AddCommentDto, newId: string, newOid: ObjectId, created: Time, updated: Time): (World, Result<CommentDtos.CommentDto, ServiceError>) {
    match FindPost(w.posts, postId)
    case None => (w, Err(NotFound))
    case Some(p) =>
      var doc := NewComment(data.content, data.userId, p.oid, newId, newOid, created, updated);
      match InsertComment(w.comments, doc)
      case Err(e) => (w, Err(StoreFailure(e)))
      case Ok(comments) => (w.(comments := comments), Ok(CommentDtos.FromSchema(doc)))
  }

  /**
   * After the comment changed, its parent is resolved (`populate`) for the
   * public id in the parent's list key; a parent that no longer exists
   * fails the call with the change already made.
   */
  function InvalidateComment(w: World, id: string, c: CommentDocument, f: Faults): (World, Result<CommentDtos.CommentDto, ServiceError>) {
    match FindPostByOid(w.posts, c.post)
    case None => (w, Err(ParentMissing))
    case Some(p) => Invalidate(w, [CommentKey(id), PostCommentsKey(p.id)], f, CommentDtos.FromSchema(c))
  }

  function UpdateComment(w: World, id: string, content: string, now: Time, f: Faults): (World, Result<CommentDtos.CommentDto, ServiceError>) {
    match FindOneAndUpdateComment(w.comments, id, content, now)
    case None => (w, Err(NotFound))
    case Some((comments, c)) => InvalidateComment(w.(comments := comments), id, c, f)
  }

  function DeleteComment(w: World, id: string, f: Faults): (World, Result<CommentDtos.CommentDto, ServiceError>) {
    match FindOneAndDeleteComment(w.comments, id)
    case None => (w, Err(NotFound))
    case Some((comments, c)) => InvalidateComment(w.(comments := comments), id, c, f)
  }
}
