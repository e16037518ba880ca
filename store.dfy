/**
 * The two document collections as the service uses them: records in
 * insertion order (the order `find` returns), a unique index on the public
 * `id` and on `_id`, and the single-record operations `create`, `findOne`,
 * `exists`, `findOneAndUpdate` (returning the updated record) and
 * `findOneAndDelete`.
 */
module Store {
  import opened Wrappers
  import opened Schemas

  /** The unique index refused an insert (Mongo's duplicate-key error). */
  datatype StoreError = DuplicateKey

  // ------------------------------------------------------------------ posts

  /** Ids and `_id`s are unique across the collection. */
  predicate PostsValid(posts: seq<PostDocument>) {
    forall i, j :: 0 <= i < |posts| && 0 <= j < |posts| && i != j ==>
      posts[i].id != posts[j].id && posts[i].oid != posts[j].oid
  }

  /** The position of the first post with this public id. */
  function PostIndex(posts: seq<PostDocument>, id: string): (r: Option<nat>)
    ensures r.Some? ==> r.value < |posts| && posts[r.value].id == id
    ensures r.Some? ==> forall j :: 0 <= j < r.value ==> posts[j].id != id
    ensures r.None? ==> forall j :: 0 <= j < |posts| ==> posts[j].id != id
  {
    if posts == [] then None
    else if posts[0].id == id then Some(0)
    else match PostIndex(posts[1..], id)
      case Some(i) => Some(i + 1)
      case None => None
  }

  /** `findOne({ id })`. */
  function FindPost(posts: seq<PostDocument>, id: string): Option<PostDocument> {
    match PostIndex(posts, id)
    case Some(i) => Some(posts[i])
    case None => None
  }

  /** The first post with this `_id` (what `populate` and `exists` resolve). */
  function FindPostByOid(posts: seq<PostDocument>, oid: ObjectId): (r: Option<PostDocument>)
    ensures r.Some? ==> r.value in posts && r.value.oid == oid
    ensures r.None? ==> forall j :: 0 <= j < |posts| ==> posts[j].oid != oid
  {
    if posts == [] then None
    else if posts[0].oid == oid then Some(posts[0])
    else FindPostByOid(posts[1..], oid)
  }

  /**
   * The record `create` builds from the given fields and the schema's
   * defaults. Each time field has its own `new Date()` default, so the two
   * are separate clock readings.
   */
  function NewPost(content: string, userId: string, id: string, oid: ObjectId, created: Time, updated: Time): PostDocument {
    PostDocument(oid, 0, id, content, userId, created, updated)
  }

  /** `create(doc)`: appended, unless the unique index already holds its id or `_id`. */
  function InsertPost(posts: seq<PostDocument>, doc: PostDocument): Result<seq<PostDocument>, StoreError> {
    if FindPost(posts, doc.id).Some? || FindPostByOid(posts, doc.oid).Some? then Err(DuplicateKey)
    else Ok(posts + [doc])
  }

  /** `findOneAndUpdate({ id }, { content, updated_time: now }, { new: true })`. */
  function FindOneAndUpdatePost(posts: seq<PostDocument>, id: string, content: string, now: Time): Option<(seq<PostDocument>, PostDocument)> {
    match PostIndex(posts, id)
    case Some(i) =>
      var updated := posts[i].(content := content, updatedTime := now);
      Some((posts[i := updated], updated))
    case None => None
  }

  /** `findOneAndDelete({ id })`: the collection without the record, and the record. */
  function FindOneAndDeletePost(posts: seq<PostDocument>, id: string): Option<(seq<PostDocument>, PostDocument)> {
    match PostIndex(posts, id)
    case Some(i) => Some((posts[..i] + posts[i + 1..], posts[i]))
    case None => None
  }

  // --------------------------------------------------------------- comments

  predicate CommentsValid(comments: seq<CommentDocument>) {
    forall i, j :: 0 <= i < |comments| && 0 <= j < |comments| && i != j ==>
      comments[i].id != comments[j].id && comments[i].oid != comments[j].oid
  }

  function CommentIndex(comments: seq<CommentDocument>, id: string): (r: Option<nat>)
    ensures r.Some? ==> r.value < |comments| && comments[r.value].id == id
    ensures r.Some? ==> forall j :: 0 <= j < r.value ==> comments[j].id != id
    ensures r.None? ==> forall j :: 0 <= j < |comments| ==> comments[j].id != id
  {
    if comments == [] then None
    else if comments[0].id == id then Some(0)
    else match CommentIndex(comments[1..], id)
      case Some(i) => Some(i + 1)
      case None => None
  }

  function FindComment(comments: seq<CommentDocument>, id: string): Option<CommentDocument> {
    match CommentIndex(comments, id)
    case Some(i) => Some(comments[i])
    case None => None
  }

  function FindCommentByOid(comments: seq<CommentDocument>, oid: ObjectId): (r: Option<CommentDocument>)
    ensures r.Some? ==> r.value in comments && r.value.oid == oid
    ensures r.None? ==> forall j :: 0 <= j < |comments| ==> comments[j].oid != oid
  {
    if comments == [] then None
    else if comments[0].oid == oid then Some(comments[0])
    else FindCommentByOid(comments[1..], oid)
  }

  /** `find({ post })`: the comments of one post, in collection order. */
  function CommentsOfPost(comments: seq<CommentDocument>, post: ObjectId): seq<CommentDocument> {
    if comments == [] then []
    else if comments[0].post == post then [comments[0]] + CommentsOfPost(comments[1..], post)
    else CommentsOfPost(comments[1..], post)
  }

  /** The comment `create` builds; like `NewPost`, with one clock reading per time field. */
  function NewComment(content: string, userId: string, post: ObjectId, id: string, oid: ObjectId, created: Time, updated: Time): CommentDocument {
    CommentDocument(oid, 0, id, content, post, userId, created, updated)
  }

  function InsertComment(comments: seq<CommentDocument>, doc: CommentDocument): Result<seq<CommentDocument>, StoreError> {
    if FindComment(comments, doc.id).Some? || FindCommentByOid(comments, doc.oid).Some? then Err(DuplicateKey)
    else Ok(comments + [doc])
  }

  function FindOneAndUpdateComment(comments: seq<CommentDocument>, id: string, content: string, now: Time): Option<(seq<CommentDocument>, CommentDocument)> {
    match CommentIndex(comments, id)
    case Some(i) =>
      var updated := comments[i].(content := content, updatedTime := now);
      Some((comments[i := updated], updated))
    case None => None
  }

  function FindOneAndDeleteComment(comments: seq<CommentDocument>, id: string): Option<(seq<CommentDocument>, CommentDocument)> {
    match CommentIndex(comments, id)
    case Some(i) => Some((comments[..i] + comments[i + 1..], comments[i]))
    case None => None
  }

  // ---------------------------------------------------------------- properties

  /** `findOne` finds exactly the records carrying the id. */
  lemma FindPostSpec(posts: seq<PostDocument>, id: string)
    ensures FindPost(posts, id).Some? <==> exists p :: p in posts && p.id == id
    ensures FindPost(posts, id).Some? ==> FindPost(posts, id).value in posts && FindPost(posts, id).value.id == id
  {
    if p :| p in posts && p.id == id {
      var i :| 0 <= i < |posts| && posts[i] == p;
    }
  }

  /** Under the unique index, the record found for an id is the only one with it. */
  lemma FindPostUnique(posts: seq<PostDocument>, id: string, i: nat)
    requires PostsValid(posts) && i < |posts| && posts[i].id == id
    ensures FindPost(posts, id) == Some(posts[i])
  {
  }

  /** Insertion keeps ids and `_id`s unique, adds the record at the end and fails only on a clash. */
  lemma InsertPostSpec(posts: seq<PostDocument>, doc: PostDocument)
    requires PostsValid(posts)
    ensures InsertPost(posts, doc).Err? <==> exists p :: p in posts && (p.id == doc.id || p.oid == doc.oid)
    ensures InsertPost(posts, doc).Ok? ==> InsertPost(posts, doc).value == posts + [doc] && PostsValid(posts + [doc])
  {
    FindPostSpec(posts, doc.id);
    if p :| p in posts && p.oid == doc.oid {
      var i :| 0 <= i < |posts| && posts[i] == p;
    }
  }

  /** An update touches only the matched record: new content and time, everything else kept. */
  lemma UpdatePostSpec(posts: seq<PostDocument>, id: string, content: string, now: Time)
    requires PostsValid(posts)
    ensures FindOneAndUpdatePost(posts, id, content, now).None? <==> FindPost(posts, id).None?
    ensures FindOneAndUpdatePost(posts, id, content, now).Some? ==>
      var (posts', p) := FindOneAndUpdatePost(posts, id, content, now).value;
      && p == FindPost(posts, id).value.(content := content, updatedTime := now)
      && |posts'| == |posts|
      && PostsValid(posts')
      && FindPost(posts', id) == Some(p)
      && (forall k :: 0 <= k < |posts| && posts[k].id != id ==> posts'[k] == posts[k])
  {
    var r := PostIndex(posts, id);
    if r.Some? {
      var i := r.value;
      var posts' := FindOneAndUpdatePost(posts, id, content, now).value.0;
      FindPostUnique(posts', id, i);
    }
  }

  /** A delete removes exactly the matched record, keeping the order of the rest. */
  lemma DeletePostSpec(posts: seq<PostDocument>, id: string)
    requires PostsValid(posts)
    ensures FindOneAndDeletePost(posts, id).None? <==> FindPost(posts, id).None?
    ensures FindOneAndDeletePost(posts, id).Some? ==>
      var (posts', p) := FindOneAndDeletePost(posts, id).value;
      && Some(p) == FindPost(posts, id)
      && PostsValid(posts')
      && FindPost(posts', id).None?
      && (forall q :: q in posts' <==> q in posts && q != p)
  {
    var r := PostIndex(posts, id);
    if r.Some? {
      var i := r.value;
      RemoveAt(posts, i);
      var posts' := posts[..i] + posts[i + 1..];
      assert PostsValid(posts');
      FindPostSpec(posts', id);
    }
  }

  /** Removing the element at `i`: the others keep their order and close up the gap. */
  lemma RemoveAt<T>(s: seq<T>, i: nat)
    requires i < |s|
    requires forall k :: 0 <= k < |s| && k != i ==> s[k] != s[i]
    ensures |s[..i] + s[i + 1..]| == |s| - 1
    ensures forall k :: 0 <= k < |s| - 1 ==> (s[..i] + s[i + 1..])[k] == (if k < i then s[k] else s[k + 1])
    ensures forall q :: q in s[..i] + s[i + 1..] <==> q in s && q != s[i]
  {
    var t := s[..i] + s[i + 1..];
    assert forall k :: 0 <= k < |t| ==> t[k] == (if k < i then s[k] else s[k + 1]);
    forall q ensures q in t <==> q in s && q != s[i] {
      if q in s && q != s[i] {
        var k :| 0 <= k < |s| && s[k] == q;
        assert t[if k < i then k else k - 1] == q;
      }
    }
  }

  lemma FindCommentSpec(comments: seq<CommentDocument>, id: string)
    ensures FindComment(comments, id).Some? <==> exists c :: c in comments && c.id == id
    ensures FindComment(comments, id).Some? ==> FindComment(comments, id).value in comments && FindComment(comments, id).value.id == id
  {
    if c :| c in comments && c.id == id {
      var i :| 0 <= i < |comments| && comments[i] == c;
    }
  }

  lemma FindCommentUnique(comments: seq<CommentDocument>, id: string, i: nat)
    requires CommentsValid(comments) && i < |comments| && comments[i].id == id
    ensures FindComment(comments, id) == Some(comments[i])
  {
  }

  lemma InsertCommentSpec(comments: seq<CommentDocument>, doc: CommentDocument)
    requires CommentsValid(comments)
    ensures InsertComment(comments, doc).Err? <==> exists c :: c in comments && (c.id == doc.id || c.oid == doc.oid)
    ensures InsertComment(comments, doc).Ok? ==> InsertComment(comments, doc).value == comments + [doc] && CommentsValid(comments + [doc])
  {
    FindCommentSpec(comments, doc.id);
    if c :| c in comments && c.oid == doc.oid {
      var i :| 0 <= i < |comments| && comments[i] == c;
    }
  }

  lemma UpdateCommentSpec(comments: seq<CommentDocument>, id: string, content: string, now: Time)
    requires CommentsValid(comments)
    ensures FindOneAndUpdateComment(comments, id, content, now).None? <==> FindComment(comments, id).None?
    ensures FindOneAndUpdateComment(comments, id, content, now).Some? ==>
      var (comments', c) := FindOneAndUpdateComment(comments, id, content, now).value;
      && c == FindComment(comments, id).value.(content := content, updatedTime := now)
      && |comments'| == |comments|
      && CommentsValid(comments')
      && FindComment(comments', id) == Some(c)
      && (forall k :: 0 <= k < |comments| && comments[k].id != id ==> comments'[k] == comments[k])
  {
    var r := CommentIndex(comments, id);
    if r.Some? {
      var i := r.value;
      var comments' := FindOneAndUpdateComment(comments, id, content, now).value.0;
      FindCommentUnique(comments', id, i);
    }
  }

  lemma DeleteCommentSpec(comments: seq<CommentDocument>, id: string)
    requires CommentsValid(comments)
    ensures FindOneAndDeleteComment(comments, id).None? <==> FindComment(comments, id).None?
    ensures FindOneAndDeleteComment(comments, id).Some? ==>
      var (comments', c) := FindOneAndDeleteComment(comments, id).value;
      && Some(c) == FindComment(comments, id)
      && CommentsValid(comments')
      && FindComment(comments', id).None?
      && (forall d :: d in comments' <==> d in comments && d != c)
  {
    var r := CommentIndex(comments, id);
    if r.Some? {
      var i := r.value;
      RemoveAt(comments, i);
      var comments' := comments[..i] + comments[i + 1..];
      assert CommentsValid(comments');
      FindCommentSpec(comments', id);
    }
  }

  /** The records found for other ids are the same after an update... */
  lemma UpdatePostOthers(posts: seq<PostDocument>, id: string, content: string, now: Time, a: string)
    requires FindOneAndUpdatePost(posts, id, content, now).Some? && a != id
    ensures FindPost(FindOneAndUpdatePost(posts, id, content, now).value.0, a) == FindPost(posts, a)
  {
    var posts' := FindOneAndUpdatePost(posts, id, content, now).value.0;
    assert forall k :: 0 <= k < |posts| ==> posts'[k].id == posts[k].id;
    var r, r' := PostIndex(posts, a), PostIndex(posts', a);
    if r.Some? { assert r'.Some?; }
  }

  /** ... after a delete ... */
  lemma DeletePostOthers(posts: seq<PostDocument>, id: string, a: string)
    requires PostsValid(posts) && FindOneAndDeletePost(posts, id).Some? && a != id
    ensures FindPost(FindOneAndDeletePost(posts, id).value.0, a) == FindPost(posts, a)
  {
    DeletePostSpec(posts, id);
    var (posts', p) := FindOneAndDeletePost(posts, id).value;
    FindPostSpec(posts, a);
    FindPostSpec(posts', a);
    if q :| q in posts' && q.id == a {
      var k :| 0 <= k < |posts'| && posts'[k] == q;
      var k0 :| 0 <= k0 < |posts| && posts[k0] == q;
      FindPostUnique(posts', a, k);
      FindPostUnique(posts, a, k0);
    }
  }

  /** ... and after an insert of a record with another id. */
  lemma InsertPostOthers(posts: seq<PostDocument>, doc: PostDocument, a: string)
    requires PostsValid(posts) && InsertPost(posts, doc).Ok? && a != doc.id
    ensures FindPost(InsertPost(posts, doc).value, a) == FindPost(posts, a)
  {
    InsertPostSpec(posts, doc);
    var posts' := posts + [doc];
    FindPostSpec(posts, a);
    FindPostSpec(posts', a);
    if q :| q in posts' && q.id == a {
      var k :| 0 <= k < |posts'| && posts'[k] == q;
      assert k < |posts|;
      FindPostUnique(posts', a, k);
      FindPostUnique(posts, a, k);
    }
  }

  /** The inserted record is what its id now finds. */
  lemma InsertPostFinds(posts: seq<PostDocument>, doc: PostDocument)
    requires PostsValid(posts) && InsertPost(posts, doc).Ok?
    ensures FindPost(InsertPost(posts, doc).value, doc.id) == Some(doc)
  {
    InsertPostSpec(posts, doc);
    FindPostUnique(posts + [doc], doc.id, |posts|);
  }

  lemma UpdateCommentOthers(comments: seq<CommentDocument>, id: string, content: string, now: Time, a: string)
    requires FindOneAndUpdateComment(comments, id, content, now).Some? && a != id
    ensures FindComment(FindOneAndUpdateComment(comments, id, content, now).value.0, a) == FindComment(comments, a)
  {
    var comments' := FindOneAndUpdateComment(comments, id, content, now).value.0;
    assert forall k :: 0 <= k < |comments| ==> comments'[k].id == comments[k].id;
    var r, r' := CommentIndex(comments, a), CommentIndex(comments', a);
    if r.Some? { assert r'.Some?; }
  }

  lemma DeleteCommentOthers(comments: seq<CommentDocument>, id: string, a: string)
    requires CommentsValid(comments) && FindOneAndDeleteComment(comments, id).Some? && a != id
    ensures FindComment(FindOneAndDeleteComment(comments, id).value.0, a) == FindComment(comments, a)
  {
    DeleteCommentSpec(comments, id);
    var (comments', c) := FindOneAndDeleteComment(comments, id).value;
    FindCommentSpec(comments, a);
    FindCommentSpec(comments', a);
    if d :| d in comments' && d.id == a {
      var k :| 0 <= k < |comments'| && comments'[k] == d;
      var k0 :| 0 <= k0 < |comments| && comments[k0] == d;
      FindCommentUnique(comments', a, k);
      FindCommentUnique(comments, a, k0);
    }
  }

  lemma InsertCommentOthers(comments: seq<CommentDocument>, doc: CommentDocument, a: string)
    requires CommentsValid(comments) && InsertComment(comments, doc).Ok? && a != doc.id
    ensures FindComment(InsertComment(comments, doc).value, a) == FindComment(comments, a)
  {
    InsertCommentSpec(comments, doc);
    var comments' := comments + [doc];
    FindCommentSpec(comments, a);
    FindCommentSpec(comments', a);
    if d :| d in comments' && d.id == a {
      var k :| 0 <= k < |comments'| && comments'[k] == d;
      assert k < |comments|;
      FindCommentUnique(comments', a, k);
      FindCommentUnique(comments, a, k);
    }
  }

  lemma InsertCommentFinds(comments: seq<CommentDocument>, doc: CommentDocument)
    requires CommentsValid(comments) && InsertComment(comments, doc).Ok?
    ensures FindComment(InsertComment(comments, doc).value, doc.id) == Some(doc)
  {
    InsertCommentSpec(comments, doc);
    FindCommentUnique(comments + [doc], doc.id, |comments|);
  }

  /** Filtering by parent keeps the collection's order: it distributes over concatenation. */
  lemma {:induction false} CommentsOfPostConcat(a: seq<CommentDocument>, b: seq<CommentDocument>, post: ObjectId)
    ensures CommentsOfPost(a + b, post) == CommentsOfPost(a, post) + CommentsOfPost(b, post)
    decreases |a|
  {
    if a == [] {
      assert a + b == b;
    } else {
      var head := if a[0].post == post then [a[0]] else [];
      CommentsOfPostCons(a, post);
      CommentsOfPostCons(a + b, post);
      assert (a + b)[0] == a[0] && (a + b)[1..] == a[1..] + b;
      CommentsOfPostConcat(a[1..], b, post);
      assert head + (CommentsOfPost(a[1..], post) + CommentsOfPost(b, post))
          == (head + CommentsOfPost(a[1..], post)) + CommentsOfPost(b, post);
    }
  }

  lemma CommentsOfPostCons(s: seq<CommentDocument>, post: ObjectId)
    requires s != []
    ensures CommentsOfPost(s, post) == (if s[0].post == post then [s[0]] else []) + CommentsOfPost(s[1..], post)
  {
    if s[0].post != post {
      assert [] + CommentsOfPost(s[1..], post) == CommentsOfPost(s[1..], post);
    }
  }

  /** `find({ post })` returns exactly the comments that name the post. */
  lemma {:induction false} CommentsOfPostMembers(comments: seq<CommentDocument>, post: ObjectId)
    ensures forall c :: c in CommentsOfPost(comments, post) <==> c in comments && c.post == post
    decreases |comments|
  {
    if comments != [] {
      CommentsOfPostMembers(comments[1..], post);
      CommentsOfPostCons(comments, post);
      assert comments == [comments[0]] + comments[1..];
    }
  }

  /** A comment added at the end of the collection comes last among its post's comments. */
  lemma CommentsOfPostAppend(comments: seq<CommentDocument>, c: CommentDocument)
    ensures CommentsOfPost(comments + [c], c.post) == CommentsOfPost(comments, c.post) + [c]
  {
    CommentsOfPostConcat(comments, [c], c.post);
    assert CommentsOfPost([c], c.post) == [c];
  }
}
