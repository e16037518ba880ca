/**
 * What the service guarantees, stated over the step functions: each read
 * answers from the cache when it can and from the store otherwise, each
 * write deletes exactly the keys it names, and, starting from an empty
 * cache, a cached post or comment stays the DTO of the record the store
 * currently holds (`Coherent`: it holds of an empty cache and every step
 * preserves it), so that a read through the cache answers what a read of
 * the store would.
 * The lists are only guaranteed to be well-formed DTO lists, not current:
 * creating a post or adding a comment does not invalidate them.
 */
module ServiceProperties {
  import opened Wrappers
  import opened Json
  import opened Schemas
  import opened Store
  import opened Cache
  import opened CacheKeys
  import opened ServiceSpec
  import PostDtos
  import CommentDtos
  import CreatePostDtos
  import AddCommentDtos
  import Uuid

  // ------------------------------------------------------------ coherence

  /** The text cached for a post: its DTO, JSON-stringified. */
  function PostText(p: PostDocument): string {
    Serialize(PostDtos.ToJson(PostDtos.FromSchema(p)))
  }

  function CommentText(c: CommentDocument): string {
    Serialize(CommentDtos.ToJson(CommentDtos.FromSchema(c)))
  }

  predicate IsPostList(raw: string) {
    Parse(raw).Some? && PostDtos.ListFromJson(Parse(raw).value).Some?
  }

  predicate IsCommentList(raw: string) {
    Parse(raw).Some? && CommentDtos.ListFromJson(Parse(raw).value).Some?
  }

  /** A cached post is the DTO of the post the store holds under that id. */
  predicate PostFresh(w: World, a: string) {
    PostKey(a) in w.cache.entries ==>
      FindPost(w.posts, a).Some? && w.cache.entries[PostKey(a)].raw == PostText(FindPost(w.posts, a).value)
  }

  predicate CommentFresh(w: World, a: string) {
    CommentKey(a) in w.cache.entries ==>
      FindComment(w.comments, a).Some? && w.cache.entries[CommentKey(a)].raw == CommentText(FindComment(w.comments, a).value)
  }

  predicate CommentListShaped(w: World, a: string) {
    PostCommentsKey(a) in w.cache.entries ==> IsCommentList(w.cache.entries[PostCommentsKey(a)].raw)
  }

  predicate PostListShaped(w: World) {
    AllPostsKey in w.cache.entries ==> IsPostList(w.cache.entries[AllPostsKey].raw)
  }

  predicate KeyCoherent(w: World, a: string) {
    PostFresh(w, a) && CommentFresh(w, a) && CommentListShaped(w, a)
  }

  /** The invariant the service keeps for every plain (for instance UUID) id. */
  ghost predicate Coherent(w: World) {
    && StoreValid(w)
    && PostListShaped(w)
    && forall a :: IsPlainId(a) ==> KeyCoherent(w, a)
  }

  /** The starting point: with nothing cached, well-formed collections are coherent. */
  lemma EmptyCacheCoherent(w: World)
    requires StoreValid(w) && w.cache.entries == map[]
    ensures Coherent(w)
  {
  }

  // ------------------------------------------------ shapes of the two paths

  /**
   * A read changes at most one cache entry, the one under its key, and only
   * by writing there the store's answer, which it then returns.
   */
  lemma CacheAsideShape(w: World, key: string, f: Faults, loaded: Result<Json, ServiceError>)
    ensures var (w', r) := CacheAside(w, key, f, loaded);
      && w'.posts == w.posts && w'.comments == w.comments && w'.cache.defaultTtl == w.cache.defaultTtl
      && (w'.cache.entries == w.cache.entries
          || (loaded.Ok? && r == loaded
              && w'.cache.entries == w.cache.entries[key := Entry(Serialize(loaded.value), w.cache.defaultTtl)]))
  {
  }

  /** A write's cache step either deletes exactly its keys, or fails and changes nothing. */
  lemma InvalidateShape<T>(w: World, keys: seq<string>, f: Faults, value: T)
    requires keys != []
    ensures var (w', r) := Invalidate(w, keys, f, value);
      && w'.posts == w.posts && w'.comments == w.comments && w'.cache.defaultTtl == w.cache.defaultTtl
      && (r.Ok? <==> f.onDelete.None?)
      && (r.Ok? ==> r.value == value && (forall k :: k in w'.cache.entries <==> k in w.cache.entries && k !in keys)
                    && (forall k :: k in w'.cache.entries ==> w'.cache.entries[k] == w.cache.entries[k]))
      && (r.Err? ==> w' == w && r == Err(CacheFailure(Redis(f.onDelete.value))))
  {
  }

  /** Removing cache entries never makes the cache incoherent. */
  lemma RemovalKeepsCoherent(w: World, w': World)
    requires Coherent(w)
    requires w'.posts == w.posts && w'.comments == w.comments
    requires forall k :: k in w'.cache.entries ==> k in w.cache.entries && w'.cache.entries[k] == w.cache.entries[k]
    ensures Coherent(w')
  {
    forall a | IsPlainId(a) ensures KeyCoherent(w', a) {
      assert KeyCoherent(w, a);
    }
  }

  /** Redis dropping an expired key. */
  lemma ExpiryKeepsCoherent(w: World, key: string)
    requires Coherent(w)
    ensures Coherent(w.(cache := w.cache.(entries := w.cache.entries - {key})))
  {
    RemovalKeepsCoherent(w, w.(cache := w.cache.(entries := w.cache.entries - {key})));
  }

  // ------------------------------------------------- reads keep coherence

  /** A read of one post caches the current DTO, for a plain id. */
  lemma GetPostKeepsCoherent(w: World, id: string, f: Faults)
    requires Coherent(w) && IsPlainId(id)
    ensures Coherent(GetPost(w, id, f).0)
  {
    var w' := GetPost(w, id, f).0;
    CacheAsideShape(w, PostKey(id), f, LoadPost(w.posts, id));
    if w'.cache.entries != w.cache.entries {
      var p := FindPost(w.posts, id).value;
      assert w'.cache.entries[PostKey(id)].raw == PostText(p);
      forall a | IsPlainId(a) ensures KeyCoherent(w', a) {
        KeysDisjoint(a, id);
        assert KeyCoherent(w, a);
      }
      AllPostsKeyDistinct(id);
    }
  }

  /** The posts list a read caches reads back as a list of post DTOs. */
  lemma GetAllPostsKeepsCoherent(w: World, f: Faults)
    requires Coherent(w)
    ensures Coherent(GetAllPosts(w, f).0)
  {
    var w' := GetAllPosts(w, f).0;
    CacheAsideShape(w, AllPostsKey, f, LoadAllPosts(w.posts));
    if w'.cache.entries != w.cache.entries {
      var v := PostDtos.ListToJson(PostDtos.FromSchemaAll(w.posts));
      ParseSerialize(v);
      PostDtos.ListJsonRoundTrip(PostDtos.FromSchemaAll(w.posts));
      assert IsPostList(w'.cache.entries[AllPostsKey].raw);
      forall a | IsPlainId(a) ensures KeyCoherent(w', a) {
        AllPostsKeyDistinct(a);
        assert KeyCoherent(w, a);
      }
    }
  }

  lemma GetCommentKeepsCoherent(w: World, id: string, f: Faults)
    requires Coherent(w)
    ensures Coherent(GetComment(w, id, f).0)
  {
    var w' := GetComment(w, id, f).0;
    CacheAsideShape(w, CommentKey(id), f, LoadComment(w.comments, id));
    if w'.cache.entries != w.cache.entries {
      var c := FindComment(w.comments, id).value;
      assert w'.cache.entries[CommentKey(id)].raw == CommentText(c);
      forall a | IsPlainId(a) ensures KeyCoherent(w', a) {
        KeysInjective(a, id);
        CommentKeyDistinct(id, a);
        assert KeyCoherent(w, a);
      }
      AllPostsKeyDistinct(id);
    }
  }

  lemma GetPostCommentsKeepsCoherent(w: World, postId: string, f: Faults)
    requires Coherent(w)
    ensures Coherent(GetPostComments(w, postId, f).0)
  {
    var w' := GetPostComments(w, postId, f).0;
    var key := PostCommentsKey(postId);
    CacheAsideShape(w, key, f, LoadPostComments(w.posts, w.comments, postId));
    if w'.cache.entries != w.cache.entries {
      var p := FindPost(w.posts, postId).value;
      var dtos := CommentDtos.FromSchemaAll(CommentsOfPost(w.comments, p.oid));
      ParseSerialize(CommentDtos.ListToJson(dtos));
      CommentDtos.ListJsonRoundTrip(dtos);
      assert IsCommentList(w'.cache.entries[key].raw);
      forall a | IsPlainId(a) ensures KeyCoherent(w', a) {
        KeysInjective(a, postId);
        PostKeyNotCommentsKey(a, postId);
        CommentKeyDistinct(a, postId);
        assert KeyCoherent(w, a);
      }
      AllPostsKeyDistinct(postId);
    }
  }

  // ------------------------------------------------ writes keep coherence

  /** Creating a post needs no invalidation: no post under a fresh id can be cached. */
  lemma CreatePostKeepsCoherent(w: World, data: CreatePostDtos.CreatePostDto, newId: string, newOid: ObjectId, created: Time, updated: Time)
    requires Coherent(w)
    ensures Coherent(CreatePost(w, data, newId, newOid, created, updated).0)
  {
    var doc := NewPost(data.content, data.userId, newId, newOid, created, updated);
    if InsertPost(w.posts, doc).Ok? {
      var w' := CreatePost(w, data, newId, newOid, created, updated).0;
      InsertPostSpec(w.posts, doc);
      forall a | IsPlainId(a) ensures KeyCoherent(w', a) {
        assert KeyCoherent(w, a);
        if a != newId {
          InsertPostOthers(w.posts, doc, a);
        }
      }
    }
  }

  /** An update whose invalidation succeeds keeps the cache coherent. */
  lemma UpdatePostKeepsCoherent(w: World, id: string, content: string, now: Time, f: Faults)
    requires Coherent(w) && f.onDelete.None?
    ensures Coherent(UpdatePost(w, id, content, now, f).0)
  {
    if FindOneAndUpdatePost(w.posts, id, content, now).Some? {
      var (posts', p) := FindOneAndUpdatePost(w.posts, id, content, now).value;
      var w1 := w.(posts := posts');
      InvalidateShape(w1, [PostKey(id), AllPostsKey], f, PostDtos.FromSchema(p));
      UpdatePostSpec(w.posts, id, content, now);
      var w' := UpdatePost(w, id, content, now, f).0;
      forall a | IsPlainId(a) ensures KeyCoherent(w', a) {
        assert KeyCoherent(w, a);
        if a != id {
          UpdatePostOthers(w.posts, id, content, now, a);
        }
      }
    }
  }

  lemma DeletePostKeepsCoherent(w: World, id: string, f: Faults)
    requires Coherent(w) && f.onDelete.None?
    ensures Coherent(DeletePost(w, id, f).0)
  {
    if FindOneAndDeletePost(w.posts, id).Some? {
      var (posts', p) := FindOneAndDeletePost(w.posts, id).value;
      var w1 := w.(posts := posts');
      InvalidateShape(w1, [PostKey(id), AllPostsKey], f, PostDtos.FromSchema(p));
      DeletePostSpec(w.posts, id);
      var w' := DeletePost(w, id, f).0;
      forall a | IsPlainId(a) ensures KeyCoherent(w', a) {
        assert KeyCoherent(w, a);
        if a != id {
          DeletePostOthers(w.posts, id, a);
        }
      }
    }
  }

  lemma AddCommentKeepsCoherent(w: World, postId: string, data: AddCommentDtos.AddCommentDto, newId: string, newOid: ObjectId, created: Time, updated: Time)
    requires Coherent(w)
    ensures Coherent(AddComment(w, postId, data, newId, newOid, created, updated).0)
  {
    if FindPost(w.posts, postId).Some? {
      var p := FindPost(w.posts, postId).value;
      var doc := NewComment(data.content, data.userId, p.oid, newId, newOid, created, updated);
      if InsertComment(w.comments, doc).Ok? {
        var w' := AddComment(w, postId, data, newId, newOid, created, updated).0;
        InsertCommentSpec(w.comments, doc);
        forall a | IsPlainId(a) ensures KeyCoherent(w', a) {
          assert KeyCoherent(w, a);
          if a != newId {
            InsertCommentOthers(w.comments, doc, a);
          }
        }
      }
    }
  }

  /** The comment, if there is one, still has its parent post in the store. */
  predicate ParentResolvable(w: World, id: string) {
    FindComment(w.comments, id).Some? ==> FindPostByOid(w.posts, FindComment(w.comments, id).value.post).Some?
  }

  lemma UpdateCommentKeepsCoherent(w: World, id: string, content: string, now: Time, f: Faults)
    requires Coherent(w) && f.onDelete.None? && ParentResolvable(w, id)
    ensures Coherent(UpdateComment(w, id, content, now, f).0)
  {
    if FindOneAndUpdateComment(w.comments, id, content, now).Some? {
      var (comments', c) := FindOneAndUpdateComment(w.comments, id, content, now).value;
      UpdateCommentSpec(w.comments, id, content, now);
      var w1 := w.(comments := comments');
      var parent := FindPostByOid(w.posts, c.post).value;
      InvalidateShape(w1, [CommentKey(id), PostCommentsKey(parent.id)], f, CommentDtos.FromSchema(c));
      var w' := UpdateComment(w, id, content, now, f).0;
      forall a | IsPlainId(a) ensures KeyCoherent(w', a) {
        assert KeyCoherent(w, a);
        if a != id {
          UpdateCommentOthers(w.comments, id, content, now, a);
        }
      }
    }
  }

  lemma DeleteCommentKeepsCoherent(w: World, id: string, f: Faults)
    requires Coherent(w) && f.onDelete.None? && ParentResolvable(w, id)
    ensures Coherent(DeleteComment(w, id, f).0)
  {
    if FindOneAndDeleteComment(w.comments, id).Some? {
      var (comments', c) := FindOneAndDeleteComment(w.comments, id).value;
      DeleteCommentSpec(w.comments, id);
      var w1 := w.(comments := comments');
      var parent := FindPostByOid(w.posts, c.post).value;
      InvalidateShape(w1, [CommentKey(id), PostCommentsKey(parent.id)], f, CommentDtos.FromSchema(c));
      var w' := DeleteComment(w, id, f).0;
      forall a | IsPlainId(a) ensures KeyCoherent(w', a) {
        assert KeyCoherent(w, a);
        if a != id {
          DeleteCommentOthers(w.comments, id, a);
        }
      }
    }
  }

  // ------------------------------------- reading through a coherent cache

  /** A read of one post answers what the store holds, whether it hits or misses. */
  lemma GetPostServesStore(w: World, id: string)
    requires Coherent(w) && IsPlainId(id) && w.cache.defaultTtl > 0
    ensures GetPost(w, id, NoFaults).1 == LoadPost(w.posts, id)
  {
    assert KeyCoherent(w, id);
    if PostKey(id) in w.cache.entries {
      var p := FindPost(w.posts, id).value;
      ParseSerialize(PostDtos.ToJson(PostDtos.FromSchema(p)));
      SerializeNonEmpty(PostDtos.ToJson(PostDtos.FromSchema(p)));
    }
  }

  lemma GetCommentServesStore(w: World, id: string)
    requires Coherent(w) && IsPlainId(id) && w.cache.defaultTtl > 0
    ensures GetComment(w, id, NoFaults).1 == LoadComment(w.comments, id)
  {
    assert KeyCoherent(w, id);
    if CommentKey(id) in w.cache.entries {
      var c := FindComment(w.comments, id).value;
      ParseSerialize(CommentDtos.ToJson(CommentDtos.FromSchema(c)));
      SerializeNonEmpty(CommentDtos.ToJson(CommentDtos.FromSchema(c)));
    }
  }

  /** The posts list read through a coherent cache is always a list of post DTOs, perhaps an old one. */
  lemma GetAllPostsIsPostList(w: World)
    requires Coherent(w) && w.cache.defaultTtl > 0
    ensures GetAllPosts(w, NoFaults).1.Ok?
    ensures PostDtos.ListFromJson(GetAllPosts(w, NoFaults).1.value).Some?
  {
    PostDtos.ListJsonRoundTrip(PostDtos.FromSchemaAll(w.posts));
  }

  /** A post's comment list read through a coherent cache is a list of comment DTOs, or NotFound. */
  lemma GetPostCommentsIsCommentList(w: World, postId: string)
    requires Coherent(w) && IsPlainId(postId) && w.cache.defaultTtl > 0
    ensures var r := GetPostComments(w, postId, NoFaults).1;
      (r.Ok? && CommentDtos.ListFromJson(r.value).Some?) || r == Err(NotFound)
  {
    assert KeyCoherent(w, postId);
    if FindPost(w.posts, postId).Some? {
      CommentDtos.ListJsonRoundTrip(CommentDtos.FromSchemaAll(CommentsOfPost(w.comments, FindPost(w.posts, postId).value.oid)));
    }
  }

  // ------------------------------------------------------ single reads

  /** A hit answers the cached value, writes nothing and does not depend on the store. */
  lemma HitIgnoresStore(w: World, key: string, f: Faults, loaded: Result<Json, ServiceError>, v: Json)
    requires CacheGet(w.cache, key, f.onGet) == Ok(v) && Truthy(v)
    ensures CacheAside(w, key, f, loaded) == (w, Ok(v))
  {
  }

  /** So a read of one post that hits never consults the collections. */
  lemma GetPostHitIgnoresStore(w: World, id: string, f: Faults, posts: seq<PostDocument>, comments: seq<CommentDocument>)
    requires CacheGet(w.cache, PostKey(id), f.onGet).Ok? && Truthy(CacheGet(w.cache, PostKey(id), f.onGet).value)
    ensures var w2 := w.(posts := posts, comments := comments);
      GetPost(w2, id, f) == (w2, Ok(CacheGet(w.cache, PostKey(id), f.onGet).value))
  {
  }

  /** A miss writes the store's DTO under the post's key, with the configured lifetime, and returns it. */
  lemma GetPostMissWritesDto(w: World, id: string)
    requires PostKey(id) !in w.cache.entries && w.cache.defaultTtl > 0
    requires FindPost(w.posts, id).Some?
    ensures var (w', r) := GetPost(w, id, NoFaults);
      var dto := PostDtos.FromSchema(FindPost(w.posts, id).value);
      && r == Ok(PostDtos.ToJson(dto))
      && w' == w.(cache := w.cache.(entries := w.cache.entries[PostKey(id) := Entry(Serialize(PostDtos.ToJson(dto)), w.cache.defaultTtl)]))
  {
  }

  /** A miss for a post the store does not hold is NotFound, with nothing changed. */
  lemma GetPostMissingIsNotFound(w: World, id: string, f: Faults)
    requires PostKey(id) !in w.cache.entries && f.onGet.None?
    requires FindPost(w.posts, id).None?
    ensures GetPost(w, id, f) == (w, Err(NotFound))
  {
  }

  /** The posts list on a miss is every post's DTO in store order. */
  lemma GetAllPostsMissListsStore(w: World)
    requires AllPostsKey !in w.cache.entries && w.cache.defaultTtl > 0
    ensures var r := GetAllPosts(w, NoFaults).1;
      && r.Ok? && PostDtos.ListFromJson(r.value) == Some(PostDtos.FromSchemaAll(w.posts))
      && AllPostsKey in GetAllPosts(w, NoFaults).0.cache.entries
  {
    PostDtos.ListJsonRoundTrip(PostDtos.FromSchemaAll(w.posts));
  }

  /** The comment list on a miss is the DTOs of the comments whose parent `_id` is the post's, in store order. */
  lemma GetPostCommentsMissFiltersByParent(w: World, postId: string)
    requires PostCommentsKey(postId) !in w.cache.entries && w.cache.defaultTtl > 0
    requires FindPost(w.posts, postId).Some?
    ensures var r := GetPostComments(w, postId, NoFaults).1;
      var p := FindPost(w.posts, postId).value;
      && r.Ok?
      && CommentDtos.ListFromJson(r.value) == Some(CommentDtos.FromSchemaAll(CommentsOfPost(w.comments, p.oid)))
      && (forall c :: c in CommentsOfPost(w.comments, p.oid) <==> c in w.comments && c.post == p.oid)
  {
    var p := FindPost(w.posts, postId).value;
    CommentDtos.ListJsonRoundTrip(CommentDtos.FromSchemaAll(CommentsOfPost(w.comments, p.oid)));
    CommentsOfPostMembers(w.comments, p.oid);
  }

  /** Reading the same key twice: the second read hits and returns what the first did. */
  lemma {:induction false} CacheAsideTwice(w: World, key: string, loaded: Result<Json, ServiceError>)
    requires loaded.Ok? ==> Truthy(loaded.value)
    requires CacheAside(w, key, NoFaults, loaded).1.Ok?
    ensures var (w1, r) := CacheAside(w, key, NoFaults, loaded);
      CacheAside(w1, key, NoFaults, loaded) == (w1, r)
  {
    var (w1, r) := CacheAside(w, key, NoFaults, loaded);
    var cached := CacheGet(w.cache, key, None).value;
    if !Truthy(cached) {
      SetThenGet(w.cache, key, loaded.value, None);
    }
  }

  /** DTOs and lists are objects and arrays, which are truthy. */
  lemma LoadedIsTruthy(w: World, id: string)
    ensures LoadPost(w.posts, id).Ok? ==> Truthy(LoadPost(w.posts, id).value)
    ensures LoadComment(w.comments, id).Ok? ==> Truthy(LoadComment(w.comments, id).value)
    ensures Truthy(LoadAllPosts(w.posts).value)
    ensures LoadPostComments(w.posts, w.comments, id).Ok? ==> Truthy(LoadPostComments(w.posts, w.comments, id).value)
  {
  }

  lemma GetPostTwice(w: World, id: string)
    requires GetPost(w, id, NoFaults).1.Ok?
    ensures var (w1, r) := GetPost(w, id, NoFaults);
      GetPost(w1, id, NoFaults) == (w1, r)
  {
    LoadedIsTruthy(w, id);
    CacheAsideTwice(w, PostKey(id), LoadPost(w.posts, id));
  }

  lemma GetAllPostsTwice(w: World)
    requires GetAllPosts(w, NoFaults).1.Ok?
    ensures var (w1, r) := GetAllPosts(w, NoFaults);
      GetAllPosts(w1, NoFaults) == (w1, r)
  {
    LoadedIsTruthy(w, "");
    CacheAsideTwice(w, AllPostsKey, LoadAllPosts(w.posts));
  }

  lemma GetCommentTwice(w: World, id: string)
    requires GetComment(w, id, NoFaults).1.Ok?
    ensures var (w1, r) := GetComment(w, id, NoFaults);
      GetComment(w1, id, NoFaults) == (w1, r)
  {
    LoadedIsTruthy(w, id);
    CacheAsideTwice(w, CommentKey(id), LoadComment(w.comments, id));
  }

  lemma GetPostCommentsTwice(w: World, postId: string)
    requires GetPostComments(w, postId, NoFaults).1.Ok?
    ensures var (w1, r) := GetPostComments(w, postId, NoFaults);
      GetPostComments(w1, postId, NoFaults) == (w1, r)
  {
    LoadedIsTruthy(w, postId);
    CacheAsideTwice(w, PostCommentsKey(postId), LoadPostComments(w.posts, w.comments, postId));
  }

  /** A Redis failure on the lookup fails the read and changes nothing. */
  lemma ReadFaultPassesThrough(w: World, key: string, f: Faults, loaded: Result<Json, ServiceError>)
    requires f.onGet.Some?
    ensures CacheAside(w, key, f, loaded) == (w, Err(CacheFailure(Redis(f.onGet.value))))
  {
  }

  // --------------------------------------------------------------- writes

  /**
   * `createPost` stores the given content and user with a fresh id and
   * times, returns exactly the stored record's DTO and leaves the cache
   * alone; it fails only when the unique index already holds the id or `_id`.
   */
  lemma CreatePostStoresData(w: World, data: CreatePostDtos.CreatePostDto, newId: string, newOid: ObjectId, created: Time, updated: Time)
    requires StoreValid(w)
    ensures var (w', r) := CreatePost(w, data, newId, newOid, created, updated);
      && w'.cache == w.cache && w'.comments == w.comments
      && (r.Err? <==> exists p :: p in w.posts && (p.id == newId || p.oid == newOid))
      && (r.Err? ==> w' == w && r == Err(StoreFailure(DuplicateKey)))
      && (r.Ok? ==>
            && r.value == PostDtos.PostDto(newId, data.content, data.userId, created, updated)
            && w'.posts == w.posts + [PostDocument(newOid, 0, newId, data.content, data.userId, created, updated)]
            && FindPost(w'.posts, newId).Some?
            && r.value == PostDtos.FromSchema(FindPost(w'.posts, newId).value)
            && StoreValid(w'))
  {
    var doc := NewPost(data.content, data.userId, newId, newOid, created, updated);
    InsertPostSpec(w.posts, doc);
    if InsertPost(w.posts, doc).Ok? {
      InsertPostFinds(w.posts, doc);
    }
  }

  /** A created post is what the next read of it answers. */
  lemma CreateThenGetPost(w: World, data: CreatePostDtos.CreatePostDto, newId: string, newOid: ObjectId, created: Time, updated: Time)
    requires Coherent(w) && IsPlainId(newId) && w.cache.defaultTtl > 0
    requires CreatePost(w, data, newId, newOid, created, updated).1.Ok?
    ensures var (w', r) := CreatePost(w, data, newId, newOid, created, updated);
      GetPost(w', newId, NoFaults).1 == Ok(PostDtos.ToJson(r.value))
  {
    var w' := CreatePost(w, data, newId, newOid, created, updated).0;
    CreatePostStoresData(w, data, newId, newOid, created, updated);
    CreatePostKeepsCoherent(w, data, newId, newOid, created, updated);
    GetPostServesStore(w', newId);
  }

  /**
   * `updatePost` matches by id, sets the content and the update time, and
   * then deletes exactly `posts/{id}` and `posts`; NotFound changes nothing.
   */
  lemma UpdatePostInvalidates(w: World, id: string, content: string, now: Time, f: Faults)
    requires StoreValid(w)
    ensures var (w', r) := UpdatePost(w, id, content, now, f);
      && w'.comments == w.comments
      && (FindPost(w.posts, id).None? ==> w' == w && r == Err(NotFound))
      && (FindPost(w.posts, id).Some? ==>
            var updated := FindPost(w.posts, id).value.(content := content, updatedTime := now);
            && FindPost(w'.posts, id) == Some(updated)
            && StoreValid(w')
            && (r.Ok? <==> f.onDelete.None?)
            && (r.Ok? ==>
                  && r.value == PostDtos.FromSchema(updated)
                  && (forall k :: k in w'.cache.entries <==> k in w.cache.entries && k != PostKey(id) && k != AllPostsKey)
                  && (forall k :: k in w'.cache.entries ==> w'.cache.entries[k] == w.cache.entries[k]))
            && (r.Err? ==> w'.cache == w.cache && r == Err(CacheFailure(Redis(f.onDelete.value)))))
  {
    UpdatePostSpec(w.posts, id, content, now);
    if FindPost(w.posts, id).Some? {
      var (posts', p) := FindOneAndUpdatePost(w.posts, id, content, now).value;
      InvalidateShape(w.(posts := posts'), [PostKey(id), AllPostsKey], f, PostDtos.FromSchema(p));
    }
  }

  /** After an update, the next read of the post misses and answers the updated DTO. */
  lemma UpdateThenGetPost(w: World, id: string, content: string, now: Time)
    requires Coherent(w) && IsPlainId(id) && w.cache.defaultTtl > 0
    requires UpdatePost(w, id, content, now, NoFaults).1.Ok?
    ensures var (w', r) := UpdatePost(w, id, content, now, NoFaults);
      && PostKey(id) !in w'.cache.entries
      && r.value.content == content && r.value.updatedTime == now
      && GetPost(w', id, NoFaults).1 == Ok(PostDtos.ToJson(r.value))
  {
    var w' := UpdatePost(w, id, content, now, NoFaults).0;
    UpdatePostInvalidates(w, id, content, now, NoFaults);
    UpdatePostKeepsCoherent(w, id, content, now, NoFaults);
    GetPostServesStore(w', id);
  }

  /**
   * `deletePost` removes the record by id, returns its DTO and deletes
   * exactly `posts/{id}` and `posts`. The post's comments stay in the store.
   */
  lemma DeletePostInvalidates(w: World, id: string, f: Faults)
    requires StoreValid(w)
    ensures var (w', r) := DeletePost(w, id, f);
      && w'.comments == w.comments
      && (FindPost(w.posts, id).None? ==> w' == w && r == Err(NotFound))
      && (FindPost(w.posts, id).Some? ==>
            && FindPost(w'.posts, id).None?
            && StoreValid(w')
            && (forall q :: q in w'.posts <==> q in w.posts && q != FindPost(w.posts, id).value)
            && (r.Ok? <==> f.onDelete.None?)
            && (r.Ok? ==>
                  && r.value == PostDtos.FromSchema(FindPost(w.posts, id).value)
                  && (forall k :: k in w'.cache.entries <==> k in w.cache.entries && k != PostKey(id) && k != AllPostsKey)
                  && (forall k :: k in w'.cache.entries ==> w'.cache.entries[k] == w.cache.entries[k]))
            && (r.Err? ==> w'.cache == w.cache && r == Err(CacheFailure(Redis(f.onDelete.value)))))
  {
    DeletePostSpec(w.posts, id);
    if FindPost(w.posts, id).Some? {
      var (posts', p) := FindOneAndDeletePost(w.posts, id).value;
      InvalidateShape(w.(posts := posts'), [PostKey(id), AllPostsKey], f, PostDtos.FromSchema(p));
    }
  }

  /** After a delete, the next read of the post is NotFound. */
  lemma DeleteThenGetPost(w: World, id: string)
    requires Coherent(w) && IsPlainId(id) && w.cache.defaultTtl > 0
    requires DeletePost(w, id, NoFaults).1.Ok?
    ensures GetPost(DeletePost(w, id, NoFaults).0, id, NoFaults).1 == Err(NotFound)
  {
    var w' := DeletePost(w, id, NoFaults).0;
    DeletePostInvalidates(w, id, NoFaults);
    DeletePostKeepsCoherent(w, id, NoFaults);
    GetPostServesStore(w', id);
  }

  /**
   * `addComment` checks the post by public id and links the new comment to
   * the post's `_id`; it deletes no cache key. A missing post is NotFound
   * with nothing changed.
   */
  lemma AddCommentLinksParent(w: World, postId: string, data: AddCommentDtos.AddCommentDto, newId: string, newOid: ObjectId, created: Time, updated: Time)
    requires StoreValid(w)
    ensures var (w', r) := AddComment(w, postId, data, newId, newOid, created, updated);
      && w'.cache == w.cache && w'.posts == w.posts
      && (FindPost(w.posts, postId).None? ==> w' == w && r == Err(NotFound))
      && (r.Ok? ==>
            && FindPost(w.posts, postId).Some?
            && r.value == CommentDtos.CommentDto(newId, data.content, data.userId, created, updated)
            && FindComment(w'.comments, newId).Some?
            && FindComment(w'.comments, newId).value.post == FindPost(w.posts, postId).value.oid
            && StoreValid(w'))
      && (FindPost(w.posts, postId).Some? && r.Err? ==> w' == w && r == Err(StoreFailure(DuplicateKey)))
  {
    if FindPost(w.posts, postId).Some? {
      var p := FindPost(w.posts, postId).value;
      var doc := NewComment(data.content, data.userId, p.oid, newId, newOid, created, updated);
      InsertCommentSpec(w.comments, doc);
      if InsertComment(w.comments, doc).Ok? {
        InsertCommentFinds(w.comments, doc);
      }
    }
  }

  /**
   * `updateComment` and `deleteComment` delete exactly `comments/{id}` and
   * the comment list of the parent, named by the parent's public id.
   */
  lemma UpdateCommentInvalidates(w: World, id: string, content: string, now: Time, f: Faults)
    requires StoreValid(w)
    ensures var (w', r) := UpdateComment(w, id, content, now, f);
      && w'.posts == w.posts
      && (FindComment(w.comments, id).None? ==> w' == w && r == Err(NotFound))
      && (FindComment(w.comments, id).Some? ==>
            var updated := FindComment(w.comments, id).value.(content := content, updatedTime := now);
            && FindComment(w'.comments, id) == Some(updated)
            && StoreValid(w')
            && (FindPostByOid(w.posts, updated.post).None? ==> r == Err(ParentMissing) && w'.cache == w.cache)
            && (r.Ok? ==>
                  var parent := FindPostByOid(w.posts, updated.post).value;
                  && r.value == CommentDtos.FromSchema(updated)
                  && (forall k :: k in w'.cache.entries <==>
                        k in w.cache.entries && k != CommentKey(id) && k != PostCommentsKey(parent.id))
                  && (forall k :: k in w'.cache.entries ==> w'.cache.entries[k] == w.cache.entries[k])))
  {
    UpdateCommentSpec(w.comments, id, content, now);
    if FindComment(w.comments, id).Some? {
      var (comments', c) := FindOneAndUpdateComment(w.comments, id, content, now).value;
      if FindPostByOid(w.posts, c.post).Some? {
        var parent := FindPostByOid(w.posts, c.post).value;
        InvalidateShape(w.(comments := comments'), [CommentKey(id), PostCommentsKey(parent.id)], f, CommentDtos.FromSchema(c));
      }
    }
  }

  lemma DeleteCommentInvalidates(w: World, id: string, f: Faults)
    requires StoreValid(w)
    ensures var (w', r) := DeleteComment(w, id, f);
      && w'.posts == w.posts
      && (FindComment(w.comments, id).None? ==> w' == w && r == Err(NotFound))
      && (FindComment(w.comments, id).Some? ==>
            var c := FindComment(w.comments, id).value;
            && FindComment(w'.comments, id).None?
            && StoreValid(w')
            && (FindPostByOid(w.posts, c.post).None? ==> r == Err(ParentMissing) && w'.cache == w.cache)
            && (r.Ok? ==>
                  var parent := FindPostByOid(w.posts, c.post).value;
                  && r.value == CommentDtos.FromSchema(c)
                  && (forall k :: k in w'.cache.entries <==>
                        k in w.cache.entries && k != CommentKey(id) && k != PostCommentsKey(parent.id))
                  && (forall k :: k in w'.cache.entries ==> w'.cache.entries[k] == w.cache.entries[k])))
  {
    DeleteCommentSpec(w.comments, id);
    if FindComment(w.comments, id).Some? {
      var (comments', c) := FindOneAndDeleteComment(w.comments, id).value;
      if FindPostByOid(w.posts, c.post).Some? {
        var parent := FindPostByOid(w.posts, c.post).value;
        InvalidateShape(w.(comments := comments'), [CommentKey(id), PostCommentsKey(parent.id)], f, CommentDtos.FromSchema(c));
      }
    }
  }

  lemma UpdateThenGetComment(w: World, id: string, content: string, now: Time)
    requires Coherent(w) && IsPlainId(id) && w.cache.defaultTtl > 0 && ParentResolvable(w, id)
    requires UpdateComment(w, id, content, now, NoFaults).1.Ok?
    ensures var (w', r) := UpdateComment(w, id, content, now, NoFaults);
      && CommentKey(id) !in w'.cache.entries
      && GetComment(w', id, NoFaults).1 == Ok(CommentDtos.ToJson(r.value))
  {
    var w' := UpdateComment(w, id, content, now, NoFaults).0;
    UpdateCommentInvalidates(w, id, content, now, NoFaults);
    UpdateCommentKeepsCoherent(w, id, content, now, NoFaults);
    GetCommentServesStore(w', id);
  }

  lemma DeleteThenGetComment(w: World, id: string)
    requires Coherent(w) && IsPlainId(id) && w.cache.defaultTtl > 0 && ParentResolvable(w, id)
    requires DeleteComment(w, id, NoFaults).1.Ok?
    ensures GetComment(DeleteComment(w, id, NoFaults).0, id, NoFaults).1 == Err(NotFound)
  {
    var w' := DeleteComment(w, id, NoFaults).0;
    DeleteCommentInvalidates(w, id, NoFaults);
    DeleteCommentKeepsCoherent(w, id, NoFaults);
    GetCommentServesStore(w', id);
  }

  // ------------------------------------------------------- stale answers

  /**
   * Creating a post does not delete `posts`: a list cached while current
   * goes on answering the list without the new post.
   */
  lemma CreatePostLeavesListStale(w: World, data: CreatePostDtos.CreatePostDto, newId: string, newOid: ObjectId, created: Time, updated: Time)
    requires StoreValid(w)
    requires AllPostsKey in w.cache.entries && w.cache.entries[AllPostsKey].raw == Serialize(LoadAllPosts(w.posts).value)
    requires CreatePost(w, data, newId, newOid, created, updated).1.Ok?
    ensures var w' := CreatePost(w, data, newId, newOid, created, updated).0;
      && GetAllPosts(w', NoFaults) == (w', LoadAllPosts(w.posts))
      && LoadAllPosts(w'.posts) != LoadAllPosts(w.posts)
  {
    CreatePostStoresData(w, data, newId, newOid, created, updated);
    ParseSerialize(LoadAllPosts(w.posts).value);
    SerializeNonEmpty(LoadAllPosts(w.posts).value);
  }

  /**
   * Adding a comment does not delete the post's comment list: a list cached
   * while current goes on answering without the new comment.
   */
  lemma AddCommentLeavesListStale(w: World, postId: string, data: AddCommentDtos.AddCommentDto, newId: string, newOid: ObjectId, created: Time, updated: Time)
    requires StoreValid(w)
    requires LoadPostComments(w.posts, w.comments, postId).Ok?
    requires PostCommentsKey(postId) in w.cache.entries
    requires w.cache.entries[PostCommentsKey(postId)].raw == Serialize(LoadPostComments(w.posts, w.comments, postId).value)
    requires AddComment(w, postId, data, newId, newOid, created, updated).1.Ok?
    ensures var w' := AddComment(w, postId, data, newId, newOid, created, updated).0;
      && GetPostComments(w', postId, NoFaults) == (w', LoadPostComments(w.posts, w.comments, postId))
      && LoadPostComments(w'.posts, w'.comments, postId) != LoadPostComments(w.posts, w.comments, postId)
  {
    var p := FindPost(w.posts, postId).value;
    var doc := NewComment(data.content, data.userId, p.oid, newId, newOid, created, updated);
    InsertCommentSpec(w.comments, doc);
    CommentsOfPostAppend(w.comments, doc);
    ParseSerialize(LoadPostComments(w.posts, w.comments, postId).value);
    SerializeNonEmpty(LoadPostComments(w.posts, w.comments, postId).value);
  }

  /**
   * Deleting a post deletes neither its comments nor its comment list: the
   * list goes on answering for a post the store no longer has.
   */
  lemma DeletePostLeavesComments(w: World, postId: string)
    requires StoreValid(w) && FindPost(w.posts, postId).Some?
    requires LoadPostComments(w.posts, w.comments, postId).Ok?
    requires PostCommentsKey(postId) in w.cache.entries
    requires w.cache.entries[PostCommentsKey(postId)].raw == Serialize(LoadPostComments(w.posts, w.comments, postId).value)
    ensures var w' := DeletePost(w, postId, NoFaults).0;
      && w'.comments == w.comments
      && GetPostComments(w', postId, NoFaults) == (w', LoadPostComments(w.posts, w.comments, postId))
      && LoadPostComments(w'.posts, w'.comments, postId) == Err(NotFound)
  {
    DeletePostInvalidates(w, postId, NoFaults);
    AllPostsKeyDistinct(postId);
    assert |PostCommentsKey(postId)| != |PostKey(postId)|;
    var w' := DeletePost(w, postId, NoFaults).0;
    assert PostCommentsKey(postId) in w'.cache.entries;
    ParseSerialize(LoadPostComments(w.posts, w.comments, postId).value);
    SerializeNonEmpty(LoadPostComments(w.posts, w.comments, postId).value);
  }

  /**
   * A comment outlives its deleted post, and then updating it changes the
   * store but fails before deleting `comments/{id}`: the next read answers
   * the old comment.
   */
  lemma OrphanedCommentGoesStale(w: World, postId: string, id: string, content: string, now: Time)
    requires StoreValid(w) && FindPost(w.posts, postId).Some? && FindComment(w.comments, id).Some?
    requires FindComment(w.comments, id).value.post == FindPost(w.posts, postId).value.oid
    requires content != FindComment(w.comments, id).value.content
    requires CommentKey(id) in w.cache.entries && w.cache.entries[CommentKey(id)].raw == CommentText(FindComment(w.comments, id).value)
    ensures var w1 := DeletePost(w, postId, NoFaults).0;
      var (w2, r) := UpdateComment(w1, id, content, now, NoFaults);
      && r == Err(ParentMissing)
      && FindComment(w2.comments, id) == Some(FindComment(w.comments, id).value.(content := content, updatedTime := now))
      && GetComment(w2, id, NoFaults).1 == Ok(CommentDtos.ToJson(CommentDtos.FromSchema(FindComment(w.comments, id).value)))
      && LoadComment(w2.comments, id) != GetComment(w2, id, NoFaults).1
  {
    var c := FindComment(w.comments, id).value;
    var p := FindPost(w.posts, postId).value;
    DeletePostInvalidates(w, postId, NoFaults);
    var w1 := DeletePost(w, postId, NoFaults).0;
    CommentKeyDistinct(id, postId);
    assert CommentKey(id) in w1.cache.entries;
    FindPostSpec(w.posts, postId);
    UpdateCommentInvalidates(w1, id, content, now, NoFaults);
    var w2 := UpdateComment(w1, id, content, now, NoFaults).0;
    var updated := c.(content := content, updatedTime := now);
    ParseSerialize(CommentDtos.ToJson(CommentDtos.FromSchema(c)));
    SerializeNonEmpty(CommentDtos.ToJson(CommentDtos.FromSchema(c)));
    CommentDtos.JsonRoundTrip(CommentDtos.FromSchema(c));
    CommentDtos.JsonRoundTrip(CommentDtos.FromSchema(updated));
  }

  /**
   * When the `delete` after an update fails, the store has changed but the
   * cached post has not: the call reports the failure and the next read
   * answers the old post.
   */
  lemma DeleteFaultLeavesPostStale(w: World, id: string, content: string, now: Time, e: RedisError)
    requires StoreValid(w) && FindPost(w.posts, id).Some?
    requires content != FindPost(w.posts, id).value.content
    requires PostKey(id) in w.cache.entries && w.cache.entries[PostKey(id)].raw == PostText(FindPost(w.posts, id).value)
    ensures var (w', r) := UpdatePost(w, id, content, now, Faults(None, None, Some(e)));
      && r == Err(CacheFailure(Redis(e)))
      && FindPost(w'.posts, id) == Some(FindPost(w.posts, id).value.(content := content, updatedTime := now))
      && GetPost(w', id, NoFaults).1 == Ok(PostDtos.ToJson(PostDtos.FromSchema(FindPost(w.posts, id).value)))
      && LoadPost(w'.posts, id) != GetPost(w', id, NoFaults).1
  {
    var p := FindPost(w.posts, id).value;
    UpdatePostInvalidates(w, id, content, now, Faults(None, None, Some(e)));
    ParseSerialize(PostDtos.ToJson(PostDtos.FromSchema(p)));
    SerializeNonEmpty(PostDtos.ToJson(PostDtos.FromSchema(p)));
    PostDtos.JsonRoundTrip(PostDtos.FromSchema(p));
    PostDtos.JsonRoundTrip(PostDtos.FromSchema(p.(content := content, updatedTime := now)));
  }
}
