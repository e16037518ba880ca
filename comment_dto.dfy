/**
 * `CommentDto`: the shape in which a comment is returned and cached. It has
 * the same five public fields as a post DTO; `FromSchema` drops the store's
 * `_id` and `__v` and also the reference to the parent post.
 */
module CommentDtos {
  import opened Wrappers
  import opened Json
  import opened Schemas

  datatype CommentDto = CommentDto(
    id: string,
    content: string,
    userId: string,
    createdTime: Time,
    updatedTime: Time)

  function FromSchema(comment: CommentDocument): CommentDto {
    CommentDto(comment.id, comment.content, comment.userId, comment.createdTime, comment.updatedTime)
  }

  /** A stored comment carrying exactly the DTO's fields, under the given parent and store extras. */
  function AsDocument(dto: CommentDto, oid: ObjectId, version: nat, post: ObjectId): CommentDocument {
    CommentDocument(oid, version, dto.id, dto.content, post, dto.userId, dto.createdTime, dto.updatedTime)
  }

  function ToJson(dto: CommentDto): Json {
    Object([
      Member("id", String(dto.id)),
      Member("content", String(dto.content)),
      Member("user_id", String(dto.userId)),
      Member("created_time", Number(dto.createdTime)),
      Member("updated_time", Number(dto.updatedTime))])
  }

  /** Reads a cached object back as a comment DTO, if it has exactly that shape. */
  function FromJson(j: Json): Option<CommentDto> {
    match j
    case Object(ms) =>
      if && |ms| == 5
         && ms[0].key == "id" && ms[0].value.String?
         && ms[1].key == "content" && ms[1].value.String?
         && ms[2].key == "user_id" && ms[2].value.String?
         && ms[3].key == "created_time" && ms[3].value.Number? && ms[3].value.n >= 0
         && ms[4].key == "updated_time" && ms[4].value.Number? && ms[4].value.n >= 0
      then Some(CommentDto(ms[0].value.s, ms[1].value.s, ms[2].value.s, ms[3].value.n, ms[4].value.n))
      else None
    case _ => None
  }

  /** `comments.map(CommentDto.fromSchema)`. */
  function FromSchemaAll(comments: seq<CommentDocument>): (dtos: seq<CommentDto>)
    ensures |dtos| == |comments|
    ensures forall i :: 0 <= i < |comments| ==> dtos[i] == FromSchema(comments[i])
  {
    if comments == [] then [] else [FromSchema(comments[0])] + FromSchemaAll(comments[1..])
  }

  /** A list of DTOs as the JSON array it is cached as. */
  function ListToJson(dtos: seq<CommentDto>): (j: Json)
    ensures j.Array? && |j.items| == |dtos|
    ensures forall i :: 0 <= i < |dtos| ==> j.items[i] == ToJson(dtos[i])
  {
    if dtos == [] then Array([]) else Array([ToJson(dtos[0])] + ListToJson(dtos[1..]).items)
  }

  /** Reads cached array elements back as comment DTOs, if every element is one. */
  function ItemsFromJson(items: seq<Json>): Option<seq<CommentDto>> {
    if items == [] then Some([])
    else
      match (FromJson(items[0]), ItemsFromJson(items[1..]))
      case (Some(d), Some(ds)) => Some([d] + ds)
      case _ => None
  }

  /** Reads a cached array back as a list of comment DTOs. */
  function ListFromJson(j: Json): Option<seq<CommentDto>> {
    if j.Array? then ItemsFromJson(j.items) else None
  }

  // ---------------------------------------------------------------- properties

  /** The DTO carries the record's public fields unchanged. */
  lemma FromSchemaCopies(comment: CommentDocument)
    ensures var dto := FromSchema(comment);
      && dto.id == comment.id && dto.content == comment.content && dto.userId == comment.userId
      && dto.createdTime == comment.createdTime && dto.updatedTime == comment.updatedTime
  {
  }

  /** Neither the store's `_id` and `__v` nor the parent reference reach the DTO. */
  lemma FromSchemaDropsStoreFields(comment: CommentDocument, oid: ObjectId, version: nat, post: ObjectId)
    ensures FromSchema(comment.(oid := oid, version := version, post := post)) == FromSchema(comment)
  {
  }

  /** Projecting a DTO again gives the same DTO, under any parent. */
  lemma FromSchemaIdempotent(dto: CommentDto, oid: ObjectId, version: nat, post: ObjectId)
    ensures FromSchema(AsDocument(dto, oid, version, post)) == dto
  {
  }

  lemma JsonRoundTrip(dto: CommentDto)
    ensures FromJson(ToJson(dto)) == Some(dto)
  {
  }

  lemma {:induction false} ListJsonRoundTrip(dtos: seq<CommentDto>)
    ensures ListFromJson(ListToJson(dtos)) == Some(dtos)
    decreases |dtos|
  {
    if dtos != [] {
      var j := ListToJson(dtos);
      ListJsonRoundTrip(dtos[1..]);
      assert j.items[1..] == ListToJson(dtos[1..]).items;
      JsonRoundTrip(dtos[0]);
      assert [dtos[0]] + dtos[1..] == dtos;
    }
  }
}
