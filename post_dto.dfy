/**
 * `PostDto`: the shape in which a post is returned and cached.
 * `FromSchema` copies the five public fields of a stored post and drops the
 * store's `_id` and `__v`; `ToJson` is the object `JSON.stringify`
 * sees, with the members in the order `FromSchema` writes them.
 */
module PostDtos {
  import opened Wrappers
  import opened Json
  import opened Schemas

  datatype PostDto = PostDto(
    id: string,
    content: string,
    userId: string,
    createdTime: Time,
    updatedTime: Time)

  function FromSchema(post: PostDocument): PostDto {
    PostDto(post.id, post.content, post.userId, post.createdTime, post.updatedTime)
  }

  /** A stored record carrying exactly the DTO's fields, with the given store extras. */
  function AsDocument(dto: PostDto, oid: ObjectId, version: nat): PostDocument {
    PostDocument(oid, version, dto.id, dto.content, dto.userId, dto.createdTime, dto.updatedTime)
  }

  function ToJson(dto: PostDto): Json {
    Object([
      Member("id", String(dto.id)),
      Member("content", String(dto.content)),
      Member("user_id", String(dto.userId)),
      Member("created_time", Number(dto.createdTime)),
      Member("updated_time", Number(dto.updatedTime))])
  }

  /** Reads a cached object back as a post DTO, if it has exactly that shape. */
  function FromJson(j: Json): Option<PostDto> {
    match j
    case Object(ms) =>
      if && |ms| == 5
         && ms[0].key == "id" && ms[0].value.String?
         && ms[1].key == "content" && ms[1].value.String?
         && ms[2].key == "user_id" && ms[2].value.String?
         && ms[3].key == "created_time" && ms[3].value.Number? && ms[3].value.n >= 0
         && ms[4].key == "updated_time" && ms[4].value.Number? && ms[4].value.n >= 0
      then Some(PostDto(ms[0].value.s, ms[1].value.s, ms[2].value.s, ms[3].value.n, ms[4].value.n))
      else None
    case _ => None
  }

  /** `posts.map(PostDto.fromSchema)`. */
  function FromSchemaAll(posts: seq<PostDocument>): (dtos: seq<PostDto>)
    ensures |dtos| == |posts|
    ensures forall i :: 0 <= i < |posts| ==> dtos[i] == FromSchema(posts[i])
  {
    if posts == [] then [] else [FromSchema(posts[0])] + FromSchemaAll(posts[1..])
  }

  /** A list of DTOs as the JSON array it is cached as. */
  function ListToJson(dtos: seq<PostDto>): (j: Json)
    ensures j.Array? && |j.items| == |dtos|
    ensures forall i :: 0 <= i < |dtos| ==> j.items[i] == ToJson(dtos[i])
  {
    if dtos == [] then Array([]) else Array([ToJson(dtos[0])] + ListToJson(dtos[1..]).items)
  }

  /** Reads cached array elements back as post DTOs, if every element is one. */
  function ItemsFromJson(items: seq<Json>): Option<seq<PostDto>> {
    if items == [] then Some([])
    else
      match (FromJson(items[0]), ItemsFromJson(items[1..]))
      case (Some(d), Some(ds)) => Some([d] + ds)
      case _ => None
  }

  /** Reads a cached array back as a list of post DTOs. */
  function ListFromJson(j: Json): Option<seq<PostDto>> {
    if j.Array? then ItemsFromJson(j.items) else None
  }

  // ---------------------------------------------------------------- properties

  /** The DTO carries the record's public fields unchanged. */
  lemma FromSchemaCopies(post: PostDocument)
    ensures var dto := FromSchema(post);
      && dto.id == post.id && dto.content == post.content && dto.userId == post.userId
      && dto.createdTime == post.createdTime && dto.updatedTime == post.updatedTime
  {
  }

  /** The store's `_id` and `__v` do not reach the DTO. */
  lemma FromSchemaDropsStoreFields(post: PostDocument, oid: ObjectId, version: nat)
    ensures FromSchema(post.(oid := oid, version := version)) == FromSchema(post)
  {
  }

  /** Projecting a DTO again gives the same DTO. */
  lemma FromSchemaIdempotent(dto: PostDto, oid: ObjectId, version: nat)
    ensures FromSchema(AsDocument(dto, oid, version)) == dto
  {
  }

  /** The cached object has exactly the five DTO members, in order. */
  lemma ToJsonKeys(dto: PostDto)
    ensures ToJson(dto).Object?
    ensures seq(|ToJson(dto).members|, i requires 0 <= i < |ToJson(dto).members| => ToJson(dto).members[i].key)
      == ["id", "content", "user_id", "created_time", "updated_time"]
  {
  }

  lemma JsonRoundTrip(dto: PostDto)
    ensures FromJson(ToJson(dto)) == Some(dto)
  {
  }

  lemma {:induction false} ListJsonRoundTrip(dtos: seq<PostDto>)
    ensures ListFromJson(ListToJson(dtos)) == Some(dtos)
    decreases |dtos|
  {
    if dtos != [] {
      var j := ListToJson(dtos);
      ListJsonRoundTrip(dtos[1..]);
      assert j.items[1..] == ListToJson(dtos[1..]).items;
      JsonRoundTrip(dtos[0]);
      assert [dtos[0]] + dtos[1..] == dtos;
    }
  }
}
