/**
 * The cache keys the service reads and invalidates, and the fact that the
 * four shapes never collide when the ids in them contain no '/', as UUIDs
 * do.
 */
module CacheKeys {

  /** The list of every post. */
  const AllPostsKey: string := "posts"

  /** One post. */
  function PostKey(id: string): string {
    "posts/" + id
  }

  /** One comment. */
  function CommentKey(id: string): string {
    "comments/" + id
  }

  /** The comments of one post. */
  function PostCommentsKey(postId: string): string {
    "posts/" + postId + "/comments"
  }

  /** An id that cannot run into the next segment of a key. */
  predicate IsPlainId(id: string) {
    '/' !in id
  }

  // ---------------------------------------------------------------- properties

  /** Each shape determines its id. */
  lemma KeysInjective(a: string, b: string)
    ensures PostKey(a) == PostKey(b) ==> a == b
    ensures CommentKey(a) == CommentKey(b) ==> a == b
    ensures PostCommentsKey(a) == PostCommentsKey(b) ==> a == b
  {
    if PostKey(a) == PostKey(b) {
      assert a == PostKey(a)[6..] && b == PostKey(b)[6..];
    }
    if CommentKey(a) == CommentKey(b) {
      assert a == CommentKey(a)[9..] && b == CommentKey(b)[9..];
    }
    if PostCommentsKey(a) == PostCommentsKey(b) {
      var ka, kb := PostCommentsKey(a), PostCommentsKey(b);
      assert |a| == |b|;
      assert a == ka[6..6 + |a|] && b == kb[6..6 + |b|];
    }
  }

  /** The list key is none of the per-id keys. */
  lemma AllPostsKeyDistinct(a: string)
    ensures AllPostsKey != PostKey(a)
    ensures AllPostsKey != CommentKey(a)
    ensures AllPostsKey != PostCommentsKey(a)
  {
    assert |PostKey(a)| >= 6 && |PostCommentsKey(a)| >= 6;
    assert CommentKey(a)[0] == 'c';
  }

  /** Comment keys and post keys start differently. */
  lemma CommentKeyDistinct(a: string, b: string)
    ensures CommentKey(a) != PostKey(b)
    ensures CommentKey(a) != PostCommentsKey(b)
  {
    assert CommentKey(a)[0] == 'c' && PostKey(b)[0] == 'p' && PostCommentsKey(b)[0] == 'p';
  }

  /** A post's key is never another post's comment-list key, for plain ids. */
  lemma PostKeyNotCommentsKey(a: string, b: string)
    requires IsPlainId(a)
    ensures PostKey(a) != PostCommentsKey(b)
  {
    var k := PostCommentsKey(b);
    if |a| == |b| + 9 {
      assert a[|b|] == k[6 + |b|] || PostKey(a) != k;
    }
  }

  /** For plain ids, two keys are equal only when they have the same shape and the same id. */
  lemma KeysDisjoint(a: string, b: string)
    requires IsPlainId(a) && IsPlainId(b)
    ensures PostKey(a) == PostKey(b) <==> a == b
    ensures CommentKey(a) == CommentKey(b) <==> a == b
    ensures PostCommentsKey(a) == PostCommentsKey(b) <==> a == b
    ensures PostKey(a) != PostCommentsKey(b) && PostKey(b) != PostCommentsKey(a)
    ensures CommentKey(a) != PostKey(b) && CommentKey(a) != PostCommentsKey(b)
    ensures AllPostsKey != PostKey(a) && AllPostsKey != CommentKey(a) && AllPostsKey != PostCommentsKey(a)
  {
    KeysInjective(a, b);
    PostKeyNotCommentsKey(a, b);
    PostKeyNotCommentsKey(b, a);
    CommentKeyDistinct(a, b);
    AllPostsKeyDistinct(a);
  }

  /** Without the plain-id condition the shapes do collide: a post id may end in `/comments`. */
  lemma KeysCollideWithSlash(b: string)
    ensures PostKey(b + "/comments") == PostCommentsKey(b)
  {
  }
}
