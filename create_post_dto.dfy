/**
 * `CreatePostDto`: the body of a create-post request. Its content must be
 * 1 to 50,000 characters long and its `user_id` non-empty and a UUID.
 */
module CreatePostDtos {
  import opened Wrappers
  import opened Json
  import opened Validation
  import Uuid

  const ContentMin: nat := 1
  const ContentMax: nat := 50_000

  datatype CreatePostDto = CreatePostDto(content: string, userId: string)

  /** Every violation of the declared rules, over both properties. */
  function Validate(body: Body): set<Violation> {
    Check(body, "content", [MinLength(ContentMin), MaxLength(ContentMax)])
      + Check(body, "user_id", [IsNotEmpty, IsUuid])
  }

  /** The accepted request, or the violations that make it a 400. */
  function Accept(body: Body): (r: Result<CreatePostDto, set<Violation>>)
    ensures r.Err? <==> Validate(body) != {}
    ensures r.Err? ==> r.error == Validate(body)
    ensures r.Ok? ==> Field(body, "content") == Some(String(r.value.content))
    ensures r.Ok? ==> Field(body, "user_id") == Some(String(r.value.userId))
  {
    var vs := Validate(body);
    if vs != {} then Err(vs)
    else
      assert Violation("content", MinLength(ContentMin)) !in vs;
      assert Violation("user_id", IsUuid) !in vs;
      Ok(CreatePostDto(body["content"].s, body["user_id"].s))
  }

  /** The rules in plain terms: a string content of allowed length and a UUID user id. */
  predicate WellFormed(body: Body) {
    && "content" in body && body["content"].String?
    && ContentMin <= Length(body["content"].s) <= ContentMax
    && "user_id" in body && body["user_id"].String? && Uuid.IsUuid(body["user_id"].s)
  }

  // ---------------------------------------------------------------- properties

  /** A body is accepted exactly when it meets the rules. */
  lemma AcceptedIffWellFormed(body: Body)
    ensures Validate(body) == {} <==> WellFormed(body)
  {
    var vs := Validate(body);
    if WellFormed(body) {
      UuidImpliesNotEmpty(Field(body, "user_id"));
    } else {
      if !("content" in body && body["content"].String? && ContentMin <= Length(body["content"].s)) {
        assert Violation("content", MinLength(ContentMin)) in vs;
      } else if !(Length(body["content"].s) <= ContentMax) {
        assert Violation("content", MaxLength(ContentMax)) in vs;
      } else {
        assert Violation("user_id", IsUuid) in vs;
      }
    }
  }

  /** A body without content fails the minimum length. */
  lemma MissingContentRejected(body: Body)
    requires "content" !in body
    ensures Violation("content", MinLength(ContentMin)) in Validate(body)
  {
  }

  /** A body without a user id fails both user-id rules. */
  lemma MissingUserIdRejected(body: Body)
    requires "user_id" !in body
    ensures Violation("user_id", IsNotEmpty) in Validate(body)
    ensures Violation("user_id", IsUuid) in Validate(body)
  {
  }

  /** 50,001 characters of `a` exceed the maximum. */
  lemma TooLongContentRejected(body: Body)
    requires "content" in body && body["content"] == String(seq(50_001, _ => 'a'))
    ensures Violation("content", MaxLength(ContentMax)) in Validate(body)
  {
    LengthPlain(body["content"].s);
  }

  /** A user id that is not a UUID, such as `oops`, is rejected. */
  lemma NonUuidUserIdRejected(body: Body)
    requires "user_id" in body && body["user_id"] == String("oops")
    ensures Violation("user_id", IsUuid) in Validate(body)
  {
  }

  /** Short content and a UUID user id are accepted as they are. */
  lemma ValidBodyAccepted(content: string, userId: string)
    requires 1 <= |content| <= ContentMax
    requires forall i :: 0 <= i < |content| ==> !IsPresentationSelector(content[i])
    requires Uuid.IsUuid(userId)
    ensures Accept(map["content" := String(content), "user_id" := String(userId)]) == Ok(CreatePostDto(content, userId))
  {
    var body := map["content" := String(content), "user_id" := String(userId)];
    LengthPlain(content);
    AcceptedIffWellFormed(body);
  }
}
