/**
 * The posts service as the object the application holds: a cache client
 * and the two collections, changed in place by each call. Every method is
 * proved to do what the matching step function of `ServiceSpec` says, and
 * to keep the collections' unique indexes and the coherence of the cache
 * under the conditions the properties module establishes.
 */
module PostsServices {
  import opened Wrappers
  import opened Json
  import opened Schemas
  import opened Store
  import opened Cache
  import opened CacheKeys
  import opened ServiceSpec
  import ServiceProperties
  import PostDtos
  import CommentDtos
  import CreatePostDtos
  import AddCommentDtos

  class PostsService {
    const cache: CacheService
    var posts: seq<PostDocument>
    var comments: seq<CommentDocument>

    /** The world the service sees: the cache keyspace and both collections. */
    function State(): World
      reads this, cache
    {
      World(cache.State(), posts, comments)
    }

    /** The ids and `_id`s of each collection are unique. */
    predicate Valid()
      reads this
    {
      PostsValid(posts) && CommentsValid(comments)
    }

    /** Built on the collections as they stand, whose unique indexes hold. */
    constructor(cache: CacheService, posts0: seq<PostDocument>, comments0: seq<CommentDocument>)
      requires PostsValid(posts0) && CommentsValid(comments0)
      ensures this.cache == cache && posts == posts0 && comments == comments0
      ensures Valid()
      ensures cache.entries == map[] ==> ServiceProperties.Coherent(State())
    {
      this.cache := cache;
      posts := posts0;
      comments := comments0;
      new;
      if cache.entries == map[] {
        ServiceProperties.EmptyCacheCoherent(State());
      }
    }

    /** Look in the cache; on a miss, store the store's answer under `key` and return it. */
    method ReadThrough(key: string, f: Faults, loaded: Result<Json, ServiceError>) returns (r: Result<Json, ServiceError>)
      modifies cache
      ensures (State(), r) == CacheAside(old(State()), key, f, loaded)
    {
      var cached := cache.Get(key, f.onGet);
      if cached.Err? {
        return Err(CacheFailure(cached.error));
      }
      if Truthy(cached.value) {
        return Ok(cached.value);
      }
      if loaded.Err? {
        return Err(loaded.error);
      }
      var written := cache.Set(key, loaded.value, None, f.onSet);
      if written.Err? {
        return Err(CacheFailure(written.error));
      }
      return loaded;
    }

    method GetPost(id: string, f: Faults) returns (r: Result<Json, ServiceError>)
      modifies cache
      ensures (State(), r) == ServiceSpec.GetPost(old(State()), id, f)
      ensures old(ServiceProperties.Coherent(State())) && IsPlainId(id) ==> ServiceProperties.Coherent(State())
    {
      ghost var w := State();
      r := ReadThrough(PostKey(id), f, LoadPost(posts, id));
      if ServiceProperties.Coherent(w) && IsPlainId(id) {
        ServiceProperties.GetPostKeepsCoherent(w, id, f);
      }
    }

    method GetAllPosts(f: Faults) returns (r: Result<Json, ServiceError>)
      modifies cache
      ensures (State(), r) == ServiceSpec.GetAllPosts(old(State()), f)
      ensures old(ServiceProperties.Coherent(State())) ==> ServiceProperties.Coherent(State())
    {
      ghost var w := State();
      r := ReadThrough(AllPostsKey, f, LoadAllPosts(posts));
      if ServiceProperties.Coherent(w) {
        ServiceProperties.GetAllPostsKeepsCoherent(w, f);
      }
    }

    method GetComment(id: string, f: Faults) returns (r: Result<Json, ServiceError>)
      modifies cache
      ensures (State(), r) == ServiceSpec.GetComment(old(State()), id, f)
      ensures old(ServiceProperties.Coherent(State())) ==> ServiceProperties.Coherent(State())
    {
      ghost var w := State();
      r := ReadThrough(CommentKey(id), f, LoadComment(comments, id));
      if ServiceProperties.Coherent(w) {
        ServiceProperties.GetCommentKeepsCoherent(w, id, f);
      }
    }

    method GetPostComments(postId: string, f: Faults) returns (r: Result<Json, ServiceError>)
      modifies cache
      ensures (State(), r) == ServiceSpec.GetPostComments(old(State()), postId, f)
      ensures old(ServiceProperties.Coherent(State())) ==> ServiceProperties.Coherent(State())
    {
      ghost var w := State();
      r := ReadThrough(PostCommentsKey(postId), f, LoadPostComments(posts, comments, postId));
      if ServiceProperties.Coherent(w) {
        ServiceProperties.GetPostCommentsKeepsCoherent(w, postId, f);
      }
    }

    /** One `delete` of `keys` after a store change; its failure is the call's. */
    method Invalidate(keys: seq<string>, f: Faults) returns (r: Result<(), ServiceError>)
      modifies cache
      ensures (State(), r) == ServiceSpec.Invalidate(old(State()), keys, f, ())
    {
      var deleted := cache.Delete(keys, f.onDelete);
      if deleted.Err? {
        return Err(CacheFailure(deleted.error));
      }
      return Ok(());
    }

    method CreatePost(data: CreatePostDtos.CreatePostDto, newId: string, newOid: ObjectId, created: Time, updated: Time) returns (r: Result<PostDtos.PostDto, ServiceError>)
      requires Valid()
      modifies this
      ensures Valid()
      ensures (State(), r) == ServiceSpec.CreatePost(old(State()), data, newId, newOid, created, updated)
      ensures old(ServiceProperties.Coherent(State())) ==> ServiceProperties.Coherent(State())
    {
      ghost var w := State();
      ServiceProperties.CreatePostStoresData(w, data, newId, newOid, created, updated);
      var doc := NewPost(data.content, data.userId, newId, newOid, created, updated);
      var inserted := InsertPost(posts, doc);
      if inserted.Err? {
        return Err(StoreFailure(inserted.error));
      }
      posts := inserted.value;
      r := Ok(PostDtos.FromSchema(doc));
      if ServiceProperties.Coherent(w) {
        ServiceProperties.CreatePostKeepsCoherent(w, data, newId, newOid, created, updated);
      }
    }

    method UpdatePost(id: string, content: string, now: Time, f: Faults) returns (r: Result<PostDtos.PostDto, ServiceError>)
      requires Valid()
      modifies this, cache
      ensures Valid()
      ensures (State(), r) == ServiceSpec.UpdatePost(old(State()), id, content, now, f)
      ensures old(ServiceProperties.Coherent(State())) && f.onDelete.None? ==> ServiceProperties.Coherent(State())
    {
      ghost var w := State();
      ServiceProperties.UpdatePostInvalidates(w, id, content, now, f);
      var found := FindOneAndUpdatePost(posts, id, content, now);
      if found.None? {
        return Err(NotFound);
      }
      posts := found.value.0;
      var deleted := Invalidate([PostKey(id), AllPostsKey], f);
      r := if deleted.Ok? then Ok(PostDtos.FromSchema(found.value.1)) else Err(deleted.error);
      if ServiceProperties.Coherent(w) && f.onDelete.None? {
        ServiceProperties.UpdatePostKeepsCoherent(w, id, content, now, f);
      }
    }

    method DeletePost(id: string, f: Faults) returns (r: Result<PostDtos.PostDto, ServiceError>)
      requires Valid()
      modifies this, cache
      ensures Valid()
      ensures (State(), r) == ServiceSpec.DeletePost(old(State()), id, f)
      ensures old(ServiceProperties.Coherent(State())) && f.onDelete.None? ==> ServiceProperties.Coherent(State())
    {
      ghost var w := State();
      ServiceProperties.DeletePostInvalidates(w, id, f);
      var found := FindOneAndDeletePost(posts, id);
      if found.None? {
        return Err(NotFound);
      }
      posts := found.value.0;
      var deleted := Invalidate([PostKey(id), AllPostsKey], f);
      r := if deleted.Ok? then Ok(PostDtos.FromSchema(found.value.1)) else Err(deleted.error);
      if ServiceProperties.Coherent(w) && f.onDelete.None? {
        ServiceProperties.DeletePostKeepsCoherent(w, id, f);
      }
    }

    method AddComment(postId: string, data: AddCommentDtos.AddCommentDto, newId: string, newOid: ObjectId, created: Time, updated: Time) returns (r: Result<CommentDtos.CommentDto, ServiceError>)
      requires Valid()
      modifies this
      ensures Valid()
      ensures (State(), r) == ServiceSpec.AddComment(old(State()), postId, data, newId, newOid, created, updated)
      ensures old(ServiceProperties.Coherent(State())) ==> ServiceProperties.Coherent(State())
    {
      ghost var w := State();
      ServiceProperties.AddCommentLinksParent(w, postId, data, newId, newOid, created, updated);
      var post := FindPost(posts, postId);
      if post.None? {
        return Err(NotFound);
      }
      var doc := NewComment(data.content, data.userId, post.value.oid, newId, newOid, created, updated);
      var inserted := InsertComment(comments, doc);
      if inserted.Err? {
        return Err(StoreFailure(inserted.error));
      }
      comments := inserted.value;
      r := Ok(CommentDtos.FromSchema(doc));
      if ServiceProperties.Coherent(w) {
        ServiceProperties.AddCommentKeepsCoherent(w, postId, data, newId, newOid, created, updated);
      }
    }

    /** Resolve the changed comment's parent, then delete its two keys. */
    method InvalidateComment(id: string, c: CommentDocument, f: Faults) returns (r: Result<CommentDtos.CommentDto, ServiceError>)
      modifies cache
      ensures (State(), r) == ServiceSpec.InvalidateComment(old(State()), id, c, f)
    {
      var parent := FindPostByOid(posts, c.post);
      if parent.None? {
        return Err(ParentMissing);
      }
      var deleted := Invalidate([CommentKey(id), PostCommentsKey(parent.value.id)], f);
      r := if deleted.Ok? then Ok(CommentDtos.FromSchema(c)) else Err(deleted.error);
    }

    method UpdateComment(id: string, content: string, now: Time, f: Faults) returns (r: Result<CommentDtos.CommentDto, ServiceError>)
      requires Valid()
      modifies this, cache
      ensures Valid()
      ensures (State(), r) == ServiceSpec.UpdateComment(old(State()), id, content, now, f)
      ensures old(ServiceProperties.Coherent(State()) && ServiceProperties.ParentResolvable(State(), id)) && f.onDelete.None?
        ==> ServiceProperties.Coherent(State())
    {
      ghost var w := State();
      ServiceProperties.UpdateCommentInvalidates(w, id, content, now, f);
      var found := FindOneAndUpdateComment(comments, id, content, now);
      if found.None? {
        return Err(NotFound);
      }
      comments := found.value.0;
      r := InvalidateComment(id, found.value.1, f);
      if ServiceProperties.Coherent(w) && ServiceProperties.ParentResolvable(w, id) && f.onDelete.None? {
        ServiceProperties.UpdateCommentKeepsCoherent(w, id, content, now, f);
      }
    }

    method DeleteComment(id: string, f: Faults) returns (r: Result<CommentDtos.CommentDto, ServiceError>)
      requires Valid()
      modifies this, cache
      ensures Valid()
      ensures (State(), r) == ServiceSpec.DeleteComment(old(State()), id, f)
      ensures old(ServiceProperties.Coherent(State()) && ServiceProperties.ParentResolvable(State(), id)) && f.onDelete.None?
        ==> ServiceProperties.Coherent(State())
    {
      ghost var w := State();
      ServiceProperties.DeleteCommentInvalidates(w, id, f);
      var found := FindOneAndDeleteComment(comments, id);
      if found.None? {
        return Err(NotFound);
      }
      comments := found.value.0;
      r := InvalidateComment(id, found.value.1, f);
      if ServiceProperties.Coherent(w) && ServiceProperties.ParentResolvable(w, id) && f.onDelete.None? {
        ServiceProperties.DeleteCommentKeepsCoherent(w, id, f);
      }
    }
  }
}
