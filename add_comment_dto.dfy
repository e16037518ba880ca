/**
 * `AddCommentParamsDto` and `AddCommentDto`: the route parameter and the
 * body of an add-comment request. The parent `post_id` must be a UUID; the
 * content must be 1 to 10,000 characters long and `user_id` non-empty and a
 * UUID.
 */
module AddCommentDtos {
  import opened Wrappers
  import opened Json
  import opened Validation
  import Uuid

  const ContentMin: nat := 1
  const ContentMax: nat := 10_000

  datatype AddCommentDto = AddCommentDto(content: string, userId: string)

  /** The route parameter is always a string; only its form is checked. */
  function ValidateParams(postId: string): set<Violation> {
    Check(map["post_id" := String(postId)], "post_id", [IsUuid])
  }

  function ValidateBody(body: Body): set<Violation> {
    Check(body, "content", [MinLength(ContentMin), MaxLength(ContentMax)])
      + Check(body, "user_id", [IsNotEmpty, IsUuid])
  }

  /** The accepted parent id and comment, or every violation in the parameter and the body. */
  function Accept(postId: string, body: Body): (r: Result<(string, AddCommentDto), set<Violation>>)
    ensures r.Err? <==> ValidateParams(postId) + ValidateBody(body) != {}
    ensures r.Err? ==> r.error == ValidateParams(postId) + ValidateBody(body)
    ensures r.Ok? ==> r.value.0 == postId
    ensures r.Ok? ==> Field(body, "content") == Some(String(r.value.1.content))
    ensures r.Ok? ==> Field(body, "user_id") == Some(String(r.value.1.userId))
  {
    var vs := ValidateParams(postId) + ValidateBody(body);
    if vs != {} then Err(vs)
    else
      assert Violation("content", MinLength(ContentMin)) !in vs;
      assert Violation("user_id", IsUuid) !in vs;
      Ok((postId, AddCommentDto(body["content"].s, body["user_id"].s)))
  }

  predicate WellFormed(postId: string, body: Body) {
    && Uuid.IsUuid(postId)
    && "content" in body && body["content"].String?
    && ContentMin <= Length(body["content"].s) <= ContentMax
    && "user_id" in body && body["user_id"].String? && Uuid.IsUuid(body["user_id"].s)
  }

  // ---------------------------------------------------------------- properties

  /** The parameter check accepts exactly the UUIDs. */
  lemma ParamsIffUuid(postId: string)
    ensures ValidateParams(postId) == {} <==> Uuid.IsUuid(postId)
  {
    if !Uuid.IsUuid(postId) {
      assert Violation("post_id", IsUuid) in ValidateParams(postId);
    }
  }

  /** A request is accepted exactly when it meets the rules. */
  lemma AcceptedIffWellFormed(postId: string, body: Body)
    ensures ValidateParams(postId) + ValidateBody(body) == {} <==> WellFormed(postId, body)
  {
    var ps := ValidateParams(postId);
    var vs := ValidateBody(body);
    ParamsIffUuid(postId);
    if WellFormed(postId, body) {
      UuidImpliesNotEmpty(Field(body, "user_id"));
    } else if Uuid.IsUuid(postId) {
      if !("content" in body && body["content"].String? && ContentMin <= Length(body["content"].s)) {
        assert Violation("content", MinLength(ContentMin)) in vs;
      } else if !(Length(body["content"].s) <= ContentMax) {
        assert Violation("content", MaxLength(ContentMax)) in vs;
      } else {
        assert Violation("user_id", IsUuid) in vs;
      }
    }
  }

  /** 10,001 characters are one too many for a comment. */
  lemma TooLongCommentRejected(body: Body)
    requires "content" in body && body["content"] == String(seq(10_001, _ => 'a'))
    ensures Violation("content", MaxLength(ContentMax)) in ValidateBody(body)
  {
    LengthPlain(body["content"].s);
  }

  /** Empty content is below the minimum. */
  lemma EmptyCommentRejected(body: Body)
    requires "content" in body && body["content"] == String("")
    ensures Violation("content", MinLength(ContentMin)) in ValidateBody(body)
  {
  }
}
