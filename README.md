# Posts service with a cache-aside layer, in Dafny

This project models the core of a posts-and-comments API built on a document
store, with Redis in front of it as a cache-aside layer. It then proves
properties of that model.

The model has these parts:

- **The posts service** (`PostsServices.PostsService`). It is a class that holds
  a cache client and the two collections and changes them in place.
  - Reads first look under a canonical key (`posts/{id}`, `posts`,
    `comments/{id}`, `posts/{post_id}/comments`).
  - On a hit they return the cached value and do not touch the store.
  - On a miss they read the store, write the DTO into the cache and return it.
    An absent entity is NotFound.
  - Writes change the store first. Then they delete, in one call, the keys
    the tests name: `posts/{id}` and `posts` for a post, `comments/{id}` and
    `posts/{post.id}/comments` for a comment.
  - Those are not all the keys that can go stale. `createPost` and
    `addComment` touch no cache key, and `deletePost` keeps
    `posts/{id}/comments`. Lemmas below show the stale reads that follow.
  - Each method is proved equal to a step function over a `World` value
    (`ServiceSpec`). The lemmas about those step functions are in
    `ServiceProperties`.
  - The cache agrees with the store (`ServiceProperties.Coherent`) from an
    empty starting cache: a service built on an empty keyspace, over any
    collections whose unique indexes hold, starts coherent (`ServiceProperties.EmptyCacheCoherent`), and each step keeps a
    coherent world coherent, under the conditions named under "Left out".
    A service built on a keyspace that is already stale gets no such promise.
- **The cache adapter** (`Cache.CacheService`). It is a class over the Redis
  keyspace, mapping each key to (JSON text, lifetime).
  - `get` parses the text, and returns `null` for an absent or empty value.
  - `set` writes `JSON.stringify(val)` with the caller's lifetime, or else
    `REDIS_TTL_MS`.
  - `delete(...keys)` is one `DEL`.
  - Redis errors pass through unchanged.
  - JSON text is modelled for the values the service caches (`Json`). The model
    proves `parse(stringify(v)) == v`.
- **The store** (`Store`). Each collection is a sequence in insertion order. The
  public `id` and the internal `_id` are unique. The module gives `create`,
  `findOne` (which also serves for `exists`), `find({post})`,
  `findOneAndUpdate` and `findOneAndDelete`.
- **The DTO projections** (`PostDtos`, `CommentDtos`) and their JSON form.
- **The request validators** (`Validation`, `CreatePostDtos`, `AddCommentDtos`).
- **The configuration** (`Config`): the Joi table of types, defaults and
  required keys (the constant `Config.Schema`, src/config/config.service.ts:19-31),
  the getters, and `buildMongoUri`.

Model choices for things outside the program:

- The clock (`now`), fresh ids (`newId` for `randomUUID()`, `newOid` for the
  generated `_id`) and Redis failures (a `Faults` value, one optional error per
  command) are parameters.
- A Redis command that fails changes nothing.
- Timestamps are natural numbers of milliseconds.

Two behaviours of the code shape what the model proves:

- **`addComment` deletes no cache key.** The `addComment` test
  (src/posts/posts.service.spec.ts:231-257) neither mocks nor checks
  `delete`. The tests of the other writes do check it (lines 192, 216-219,
  379-382 and 413-416). The model deletes no key, so a cached comment list
  goes stale; `ServiceProperties.AddCommentLeavesListStale` shows it.
- **A rejected cache call fails the request.** The adapter rejects with the
  Redis error (src/cache/cache.service.ts:16-18, 43-45, 55-57), and nothing
  in the adapter catches it. The model returns it as the call's failure.
  - `ServiceProperties.ReadFaultPassesThrough` covers the read side: the
    store is not consulted.
  - `ServiceProperties.DeleteFaultLeavesPostStale` covers the write side: the
    store change stays, and the old cached value goes on being served.

The source of the nine service operations other than `createPost` is not part
of this model. The model follows what src/posts/posts.service.spec.ts asserts
about them. Three further points are readings of that file:

- **What counts as a hit.** A hit is a truthy cached value (JavaScript `if
  (cached)`).
- **A missing parent.** `updateComment` and `deleteComment` find the parent
  post through the comment's `post` reference. When that post is gone, the
  call fails (`ParentMissing`) after the store change and deletes no key.
- **The record an update returns.** `updatePost` and `updateComment` return
  the record after the change. This follows the tests' `findOneAndUpdate`
  mocks, which return the updated record
  (src/posts/posts.service.spec.ts:176-181, 363-368). Mongoose itself returns
  the record as it was before the update unless `{ new: true }` is passed, and
  the tests do not show which option the service passes.

## Model

| member | source | states |
|---|---|---|
| Json.Serialize | src/cache/cache.service.ts:39 | definition of `JSON.stringify` on the cached values, without white space; `Json.ParseSerialize` and `Json.SerializeNonEmpty` state what it guarantees |
| Json.Parse | src/cache/cache.service.ts:26 | definition of `JSON.parse` on text without white space: the whole text must be one value, otherwise no value, and numbers follow JSON's integer grammar; `Json.ParseSerialize` shows it inverts `Serialize`, `Json.LeadingZeroRejected` that `012` and `-00` fail |
| Json.ParseSerialize | src/cache/cache.service.ts:24-27 | `JSON.parse(JSON.stringify(v))` gives back `v` for every cached value |
| Json.ValueRoundTrip | src/cache/cache.service.ts:39 | reading back what `stringify` wrote, followed by text that starts with a delimiter (`,` `]` `}`) or is empty, gives the value and leaves that text |
| Json.SerializeNonEmpty | src/cache/cache.service.ts:24 | `stringify` never writes the empty string, so a set value is never read as a miss |
| Json.StringRoundTrip | src/cache/cache.service.ts:39 | the escapes written for a string read back as the same string |
| Json.LeadingZeroRejected | src/cache/cache.service.ts:26 | digits starting with `0`, with or without a '-', are no JSON number: both the number reader and the whole-text parse fail, as `JSON.parse` throws |
| Json.NumberRoundTrip | src/cache/cache.service.ts:39 | an integer's decimal text reads back as the integer, sign included |
| Cache.CacheGet | src/cache/cache.service.ts:13-32 | definition of the adapter's `get`; specified by `Cache.GetAbsentIsNull`, `Cache.SetThenGet` and `Cache.ErrorsPassThrough` |
| Cache.EffectiveTtl | src/cache/cache.service.ts:37 | definition of the lifetime `set` uses: the caller's, or else `REDIS_TTL_MS`; specified by `Cache.SetWritesOneKey` and `Cache.DefaultTtlFromConfig` |
| Cache.CacheSet | src/cache/cache.service.ts:34-50 | definition of the adapter's `set`; specified by `Cache.SetWritesOneKey`, `Cache.SetThenGet` and `Cache.ErrorsPassThrough` |
| Cache.CacheDelete | src/cache/cache.service.ts:52-62 | definition of the adapter's `delete`; specified by `Cache.DeleteRemovesExactly` and `Cache.ErrorsPassThrough` |
| Cache.SetThenGet | src/cache/cache.service.ts:13-50 | after a successful `set(k, v)`, `get(k)` returns `v` |
| Cache.GetAbsentIsNull | src/cache/cache.service.ts:24-31 | an absent key reads as `null` |
| Cache.SetWritesOneKey | src/cache/cache.service.ts:37-42 | `set` succeeds exactly when the lifetime is positive; it writes only its key, with exactly the given lifetime or else the default |
| Cache.DeleteRemovesExactly | src/cache/cache.service.ts:52-54 | `delete` succeeds exactly when keys are given; afterwards a key is present iff it was present and not listed, and every other entry is unchanged |
| Cache.ErrorsPassThrough | src/cache/cache.service.ts:13-62 | a Redis error of get, set or delete is the adapter's error, unchanged |
| Cache.DefaultTtlFromConfig | src/cache/cache.service.ts:37 | a `set` with no lifetime stores the value with `REDIS_TTL_MS` |
| Cache.CacheService.Get | src/cache/cache.service.ts:13-32 | the method returns `CacheGet` of the current keyspace and changes nothing |
| Cache.CacheService.Set | src/cache/cache.service.ts:34-50 | on success the keyspace becomes `CacheSet`'s; on failure it is unchanged and the error is returned |
| Cache.CacheService.Delete | src/cache/cache.service.ts:52-62 | on success the keyspace becomes `CacheDelete`'s; on failure it is unchanged and the error is returned |
| Cache.CacheService.Expire | src/cache/cache.service.ts:42 | Redis dropping a key when its lifetime ends removes just that key |
| Cache.CacheService.constructor | src/cache/cache.service.ts:8-11 | the adapter starts on the given keyspace, with the configured `REDIS_TTL_MS` as its default lifetime |
| CacheKeys.PostKey | src/posts/posts.service.spec.ts:89 | definition of the key `posts/{id}`; specified by `CacheKeys.KeysInjective` and `CacheKeys.KeysDisjoint` |
| CacheKeys.CommentKey | src/posts/posts.service.spec.ts:268 | definition of the key `comments/{id}`; specified by the same lemmas |
| CacheKeys.PostCommentsKey | src/posts/posts.service.spec.ts:318 | definition of the key `posts/{id}/comments`; specified by the same lemmas and `CacheKeys.KeysCollideWithSlash` |
| CacheKeys.KeysInjective | src/posts/posts.service.spec.ts:379-382 | each key shape determines its id |
| CacheKeys.KeysDisjoint | src/posts/posts.service.spec.ts:413-416 | for ids without '/', the four key shapes never collide, and two keys of one shape are equal iff their ids are |
| CacheKeys.KeysCollideWithSlash | src/posts/posts.service.spec.ts:318 | without that condition the shapes do collide: the post key of `b + "/comments"` is `b`'s comment-list key |
| CacheKeys.AllPostsKeyDistinct | src/posts/posts.service.spec.ts:192 | `posts` is none of the per-id keys |
| CacheKeys.CommentKeyDistinct | src/posts/posts.service.spec.ts:268 | comment keys are never post keys or comment-list keys |
| Uuid.IsUuid | src/posts/dto/add-comment.dto.ts:9 | definition of `@IsUUID()`: 36 characters, hyphens at positions 8, 13, 18 and 23, hexadecimal digits elsewhere; specified by `Uuid.NoSlash` and `AddCommentDtos.ParamsIffUuid` |
| Uuid.NoSlash | src/posts/dto/add-comment.dto.ts:9 | a UUID contains no '/', so the key shapes of UUID ids are disjoint |
| PostDtos.FromSchema | src/posts/dto/post.dto.ts:20-28 | definition of `PostDto.fromSchema`; specified by `PostDtos.FromSchemaCopies`, `PostDtos.FromSchemaDropsStoreFields` and `PostDtos.FromSchemaIdempotent` |
| PostDtos.ListToJson | src/posts/posts.service.spec.ts:140-162 | the JSON array the post list is cached as: one element per DTO, in order, each that DTO's object; `PostDtos.ListJsonRoundTrip` reads it back |
| PostDtos.ToJson | src/posts/dto/post.dto.ts:4-18 | definition of the JSON object a post DTO is cached as; specified by `PostDtos.ToJsonKeys` and `PostDtos.JsonRoundTrip` |
| PostDtos.FromSchemaCopies | src/posts/dto/post.dto.ts:20-28 | the DTO carries `id`, `content`, `user_id`, `created_time` and `updated_time` of the record unchanged |
| PostDtos.FromSchemaDropsStoreFields | src/posts/dto/post.dto.ts:21-27 | `_id` and `__v` do not reach the DTO: records differing only there give the same DTO |
| PostDtos.FromSchemaIdempotent | src/posts/dto/post.dto.ts:20-28 | projecting a record that holds exactly a DTO's fields gives that DTO back |
| PostDtos.FromSchemaAll | src/posts/posts.service.spec.ts:142-148 | projecting a list keeps its length and projects each element in place |
| PostDtos.ToJsonKeys | src/posts/dto/post.dto.ts:21-27 | the cached object has exactly the five DTO members, in order |
| PostDtos.JsonRoundTrip | src/posts/posts.service.spec.ts:116-123 | a cached post DTO reads back as the same DTO |
| PostDtos.ListJsonRoundTrip | src/posts/posts.service.spec.ts:154-160 | a cached DTO list reads back as the same list |
| CommentDtos.FromSchema | src/posts/dto/comment.dto.ts:20-28 | definition of `CommentDto.fromSchema`; specified by `CommentDtos.FromSchemaCopies`, `CommentDtos.FromSchemaDropsStoreFields` and `CommentDtos.FromSchemaIdempotent` |
| CommentDtos.ListToJson | src/posts/posts.service.spec.ts:304-332 | the JSON array a post's comment list is cached as: one element per DTO, in order, each that DTO's object; `CommentDtos.ListJsonRoundTrip` reads it back |
| CommentDtos.ToJson | src/posts/dto/comment.dto.ts:4-18 | definition of the JSON object a comment DTO is cached as; specified by `CommentDtos.JsonRoundTrip` |
| CommentDtos.FromSchemaCopies | src/posts/dto/comment.dto.ts:20-28 | the DTO carries the record's five public fields unchanged |
| CommentDtos.FromSchemaDropsStoreFields | src/posts/dto/comment.dto.ts:21-27 | the parent reference `post`, `_id` and `__v` do not reach the DTO |
| CommentDtos.FromSchemaIdempotent | src/posts/dto/comment.dto.ts:20-28 | projecting a record that holds exactly a DTO's fields gives that DTO back |
| CommentDtos.FromSchemaAll | src/posts/posts.service.spec.ts:306-314 | projecting a comment list keeps its length and order |
| CommentDtos.JsonRoundTrip | src/posts/posts.service.spec.ts:283-287 | a cached comment DTO reads back as the same DTO |
| CommentDtos.ListJsonRoundTrip | src/posts/posts.service.spec.ts:323-332 | a cached comment list reads back as the same list |
| Validation.Satisfies | src/posts/dto/create-post.dto.ts:13-19 | definition of the four decorators `@MinLength`, `@MaxLength`, `@IsNotEmpty` and `@IsUUID` on one value; used by `CreatePostDtos.AcceptedIffWellFormed` |
| Validation.Check | src/posts/dto/create-post.dto.ts:13-20 | definition of one property's violations; its properties are `Validation.CheckConcat`, `Validation.CheckPassesIff` and `Validation.ChecksDisjoint` |
| Validation.CheckConcat | src/posts/dto/create-post.dto.ts:13-14 | stacked decorators on one property report the union of each decorator's violations |
| Validation.CheckPassesIff | src/posts/dto/create-post.dto.ts:18-19 | a property has no violation iff its value meets every constraint declared on it |
| Validation.ChecksDisjoint | src/posts/dto/create-post.dto.ts:13-20 | violations name their property, so two properties' reports never share a violation |
| Validation.Length | src/posts/dto/create-post.dto.ts:13-14 | the length the bounds measure never exceeds the number of characters |
| Validation.LengthPlain | src/posts/dto/create-post.dto.ts:13-14 | text without presentation selectors is measured by its number of characters |
| Validation.UuidImpliesNotEmpty | src/posts/dto/create-post.dto.ts:18-19 | a value that is a UUID is also non-empty |
| CreatePostDtos.Validate | src/posts/dto/create-post.dto.ts:7-21 | definition of the violations of a create-post body; specified by `CreatePostDtos.AcceptedIffWellFormed` |
| CreatePostDtos.Accept | src/posts/dto/create-post.dto.ts:7-21 | a body is rejected iff it has a violation, with exactly its violations; an accepted request carries the body's content and user id |
| CreatePostDtos.AcceptedIffWellFormed | src/posts/dto/create-post.dto.ts:4-20 | no violation iff the content is a string of 1 to 50,000 characters and `user_id` is a UUID |
| CreatePostDtos.MissingContentRejected | src/posts/dto/create-post.dto.ts:13-15 | a missing content violates the minimum length |
| CreatePostDtos.MissingUserIdRejected | src/posts/dto/create-post.dto.ts:18-19 | a missing `user_id` violates both `IsNotEmpty` and `IsUUID` |
| CreatePostDtos.TooLongContentRejected | src/posts/dto/create-post.dto.ts:14 | content of 50,001 characters violates the maximum length |
| CreatePostDtos.NonUuidUserIdRejected | src/posts/dto/create-post.dto.ts:19 | `user_id` `"oops"` violates `IsUUID` |
| CreatePostDtos.ValidBodyAccepted | src/posts/dto/create-post.dto.ts:7-21 | content of 1 to 50,000 plain characters with a UUID user id is accepted as given |
| AddCommentDtos.ValidateParams | src/posts/dto/add-comment.dto.ts:7-11 | definition of the violations of the route parameter; specified by `AddCommentDtos.ParamsIffUuid` |
| AddCommentDtos.ValidateBody | src/posts/dto/add-comment.dto.ts:13-27 | definition of the violations of an add-comment body; specified by `AddCommentDtos.AcceptedIffWellFormed` |
| AddCommentDtos.Accept | src/posts/dto/add-comment.dto.ts:7-27 | a request is rejected iff the route parameter or the body has a violation, with exactly those; an accepted one carries the post id and the body's fields |
| AddCommentDtos.ParamsIffUuid | src/posts/dto/add-comment.dto.ts:7-11 | the `post_id` parameter passes iff it is a UUID |
| AddCommentDtos.AcceptedIffWellFormed | src/posts/dto/add-comment.dto.ts:4-26 | no violation iff `post_id` is a UUID, the content has 1 to 10,000 characters and `user_id` is a UUID |
| AddCommentDtos.TooLongCommentRejected | src/posts/dto/add-comment.dto.ts:20 | a comment of 10,001 characters violates the maximum length |
| AddCommentDtos.EmptyCommentRejected | src/posts/dto/add-comment.dto.ts:19 | an empty comment violates the minimum length |
| Config.RuleError | src/config/config.service.ts:19-31 | definition of one Joi rule's error: a required key missing, a value of the wrong type, an empty string, or a number outside the safe-integer range; used by `Config.ErrorsOfRules` |
| Config.Errors | src/config/config.service.ts:19-31 | definition of the errors of all rules, reported together; specified by `Config.ErrorsOfRules` |
| Config.WithDefaults | src/config/config.service.ts:19-31 | definition of the environment after Joi fills in defaults; specified by `Config.GivenKept`, `Config.NothingInvented` and `Config.DefaultAt` |
| Config.Load | src/config/config.service.ts:19-31 | definition of start-up validation: the errors, or the typed environment; specified by `Config.LoadFailsIff` and `Config.RequiredKeysReported` |
| Config.NumberAt | src/config/config.service.ts:40-83 | definition of the number getters; specified by `Config.NumberGettersReturnGivenValues` |
| Config.StringAt | src/config/config.service.ts:44-58 | definition of the required string getters; specified by `Config.StringGettersReturnGivenValues` |
| Config.OptionalStringAt | src/config/config.service.ts:69-79 | definition of the `REDIS_HOST` and `REDIS_PASSWORD` getters; specified by `Config.OptionalGettersReturnGivenValues` |
| Config.BuildMongoUri | src/config/config.service.ts:60-67 | the URI starts `mongodb://`, then the user verbatim, then ':', with the length of all five parts and the separators |
| Config.MongoUriRoundTrip | src/config/config.service.ts:60-67 | when user, password and host contain none of the separators, the URI splits back into exactly those parts and the port |
| Config.MongoUriAmbiguous | src/config/config.service.ts:66 | the parts are not escaped: two different configurations give the same URI |
| Config.ErrorsOfRules | src/config/config.service.ts:19-31 | validation reports the error of every failing rule, not only the first |
| Config.GivenKept | src/config/config.service.ts:19-31 | a value that is given is kept as it is |
| Config.NothingInvented | src/config/config.service.ts:27-29 | a key with no default that is not given stays absent |
| Config.UnsafeNumberReported | src/config/config.service.ts:20-31 | a numeric key holding a number beyond `Number.MAX_SAFE_INTEGER` in size fails start-up with that key reported |
| Config.LoadFailsIff | src/config/config.service.ts:19-31 | start-up fails iff some rule of the table fails |
| Config.RequiredKeysReported | src/config/config.service.ts:22-25 | a missing `MONGO_HOST`, `MONGO_USER` or `MONGO_PASSWORD` fails start-up with that key reported |
| Config.PortDefault | src/config/config.service.ts:20 | an absent `PORT` reads as 3000 |
| Config.MongoPortDefault | src/config/config.service.ts:23 | an absent `MONGO_PORT` reads as 27017 |
| Config.RedisPortDefault | src/config/config.service.ts:28 | an absent `REDIS_PORT` reads as 6379 |
| Config.RedisTtlDefault | src/config/config.service.ts:30 | an absent `REDIS_TTL_MS` reads as 300,000 (five minutes) |
| Config.DefaultAt | src/config/config.service.ts:19-31 | an absent key with a default holds that default after validation |
| Config.NumberGettersReturnGivenValues | src/config/config.service.ts:40-83 | each number getter returns the given value of its key |
| Config.StringGettersReturnGivenValues | src/config/config.service.ts:44-58 | the required string keys are present after a successful start-up, and their getters return them |
| Config.OptionalGettersReturnGivenValues | src/config/config.service.ts:69-79 | `REDIS_HOST` and `REDIS_PASSWORD` are set iff given, and then equal the given value |
| Config.RedisHostAndPasswordOptional | src/config/config.service.ts:27-29 | leaving out `REDIS_HOST` and `REDIS_PASSWORD` does not fail start-up, and both read as unset |
| Store.NewPost | src/posts/schemas/post.schema.ts:8-28 | definition of the record `create` builds: the fresh id and `_id`, version 0, and a creation and an update time that are separate clock readings, one per `new Date()` default; specified by `ServiceProperties.CreatePostStoresData` |
| Store.InsertPost | src/posts/posts.service.ts:15 | definition of `postModel.create` under the unique indexes; specified by `Store.InsertPostSpec` |
| Store.FindPost | src/posts/posts.service.spec.ts:111 | definition of `postModel.findOne({id})`; specified by `Store.FindPostSpec` and `Store.FindPostUnique` |
| Store.FindOneAndUpdatePost | src/posts/posts.service.spec.ts:174-181 | definition of `postModel.findOneAndUpdate`; specified by `Store.UpdatePostSpec` |
| Store.FindOneAndDeletePost | src/posts/posts.service.spec.ts:208-215 | definition of `postModel.findOneAndDelete`; specified by `Store.DeletePostSpec` |
| Store.NewComment | src/posts/schemas/comment.schema.ts:9-32 | definition of the comment record `create` builds, linked to its post's `_id`, with one clock reading per time field; specified by `ServiceProperties.AddCommentLinksParent` |
| Store.InsertComment | src/posts/posts.service.spec.ts:240-247 | definition of `commentModel.create`; specified by `Store.InsertCommentSpec` |
| Store.FindComment | src/posts/posts.service.spec.ts:276-278 | definition of `commentModel.findOne({id})`; specified by `Store.FindCommentSpec` and `Store.FindCommentUnique` |
| Store.FindOneAndUpdateComment | src/posts/posts.service.spec.ts:361-368 | definition of `commentModel.findOneAndUpdate`; specified by `Store.UpdateCommentSpec` |
| Store.FindOneAndDeleteComment | src/posts/posts.service.spec.ts:399-411 | definition of `commentModel.findOneAndDelete`; specified by `Store.DeleteCommentSpec` |
| Store.CommentsOfPost | src/posts/posts.service.spec.ts:317 | definition of `commentModel.find({post})`; specified by `Store.CommentsOfPostMembers` and `Store.CommentsOfPostConcat` |
| Store.FindPostSpec | src/posts/posts.service.spec.ts:111 | `findOne({id})` finds a record iff one carries the id, and then one that does |
| Store.FindPostUnique | src/posts/schemas/post.schema.ts:9-15 | under the unique index, the record found for an id is the only one with it |
| Store.InsertPostSpec | src/posts/posts.service.ts:15 | `create` fails iff the id or `_id` is taken; otherwise it appends the record and keeps both unique |
| Store.InsertPostFinds | src/posts/schemas/post.schema.ts:9-15 | a created post is what its id then finds |
| Store.UpdatePostSpec | src/posts/posts.service.spec.ts:174-181 | `findOneAndUpdate({id})` finds iff `findOne` does; it sets the content and `updated_time`, returns the updated record and changes no other record |
| Store.DeletePostSpec | src/posts/posts.service.spec.ts:208-215 | `findOneAndDelete({id})` removes exactly the matched record and returns it, keeping uniqueness |
| Store.RemoveAt | src/posts/posts.service.spec.ts:208-215 | removing one unique element keeps the others, in order |
| Store.UpdatePostOthers | src/posts/posts.service.spec.ts:174-181 | other ids find the same records after an update |
| Store.DeletePostOthers | src/posts/posts.service.spec.ts:208-215 | other ids find the same records after a delete |
| Store.InsertPostOthers | src/posts/posts.service.ts:15 | other ids find the same records after a create |
| Store.FindCommentSpec | src/posts/posts.service.spec.ts:276-278 | `findOne({id})` on comments finds iff a comment carries the id |
| Store.FindCommentUnique | src/posts/schemas/comment.schema.ts:10-16 | under the unique index, the comment found for an id is the only one with it |
| Store.InsertCommentSpec | src/posts/posts.service.spec.ts:240-247 | a comment `create` fails iff the id or `_id` is taken; otherwise it appends |
| Store.InsertCommentFinds | src/posts/schemas/comment.schema.ts:10-16 | a created comment is what its id then finds |
| Store.InsertCommentOthers | src/posts/posts.service.spec.ts:240-247 | other ids find the same comments after a create |
| Store.UpdateCommentSpec | src/posts/posts.service.spec.ts:361-368 | a comment update changes only the matched comment's content and `updated_time` |
| Store.UpdateCommentOthers | src/posts/posts.service.spec.ts:361-368 | other ids find the same comments after an update |
| Store.DeleteCommentSpec | src/posts/posts.service.spec.ts:399-411 | a comment delete removes exactly the matched comment and returns it |
| Store.DeleteCommentOthers | src/posts/posts.service.spec.ts:399-411 | other ids find the same comments after a delete |
| Store.FindPostByOid | src/posts/posts.service.spec.ts:408-411 | the post resolved by `_id` is a stored post with that `_id`; none is found only if no post has it |
| Store.CommentsOfPostMembers | src/posts/posts.service.spec.ts:317 | `find({post})` returns exactly the comments naming the post |
| Store.CommentsOfPostConcat | src/posts/posts.service.spec.ts:317 | filtering by parent keeps store order: it distributes over concatenation |
| Store.CommentsOfPostAppend | src/posts/posts.service.spec.ts:240-247 | a comment added to the collection comes last among its post's comments |
| ServiceSpec.Truthy | src/posts/posts.service.spec.ts:116-126 | definition of what counts as a hit (JavaScript `if (cached)`); specified by `ServiceProperties.LoadedIsTruthy` |
| ServiceSpec.CacheAside | src/posts/posts.service.spec.ts:105-126 | definition of the cache-aside read step; specified by `ServiceProperties.CacheAsideShape`, `ServiceProperties.HitIgnoresStore`, `ServiceProperties.CacheAsideTwice` and `ServiceProperties.ReadFaultPassesThrough` |
| ServiceSpec.LoadPost | src/posts/posts.service.spec.ts:105-137 | definition of a post read from the store: its DTO, or NotFound; specified by `ServiceProperties.GetPostMissWritesDto` and `ServiceProperties.GetPostMissingIsNotFound` |
| ServiceSpec.LoadAllPosts | src/posts/posts.service.spec.ts:140-152 | definition of the list read from the store; specified by `ServiceProperties.GetAllPostsMissListsStore` |
| ServiceSpec.LoadComment | src/posts/posts.service.spec.ts:270-300 | definition of a comment read from the store; specified by `ServiceProperties.GetCommentServesStore` |
| ServiceSpec.LoadPostComments | src/posts/posts.service.spec.ts:303-351 | definition of a post's comments read from the store; specified by `ServiceProperties.GetPostCommentsMissFiltersByParent` |
| ServiceSpec.GetPost | src/posts/posts.service.spec.ts:87-138 | definition of `getPost`; specified by `ServiceProperties.GetPostKeepsCoherent`, `ServiceProperties.GetPostServesStore` and `ServiceProperties.GetPostTwice` |
| ServiceSpec.GetAllPosts | src/posts/posts.service.spec.ts:140-165 | definition of `getAllPosts`; specified by `ServiceProperties.GetAllPostsKeepsCoherent`, `ServiceProperties.GetAllPostsMissListsStore` and `ServiceProperties.GetAllPostsTwice` |
| ServiceSpec.GetComment | src/posts/posts.service.spec.ts:259-301 | definition of `getComment`; specified by `ServiceProperties.GetCommentKeepsCoherent`, `ServiceProperties.GetCommentServesStore` and `ServiceProperties.GetCommentTwice` |
| ServiceSpec.GetPostComments | src/posts/posts.service.spec.ts:303-351 | definition of `getPostComments`; specified by `ServiceProperties.GetPostCommentsKeepsCoherent`, `ServiceProperties.GetPostCommentsMissFiltersByParent` and `ServiceProperties.GetPostCommentsTwice` |
| ServiceSpec.Invalidate | src/posts/posts.service.spec.ts:192 | definition of a write's cache step; specified by `ServiceProperties.InvalidateShape` |
| ServiceSpec.CreatePost | src/posts/posts.service.ts:14-17 | definition of `createPost`; specified by `ServiceProperties.CreatePostStoresData` and `ServiceProperties.CreatePostKeepsCoherent` |
| ServiceSpec.UpdatePost | src/posts/posts.service.spec.ts:167-202 | definition of `updatePost`; specified by `ServiceProperties.UpdatePostInvalidates` and `ServiceProperties.UpdatePostKeepsCoherent` |
| ServiceSpec.DeletePost | src/posts/posts.service.spec.ts:204-229 | definition of `deletePost`; specified by `ServiceProperties.DeletePostInvalidates` and `ServiceProperties.DeletePostKeepsCoherent` |
| ServiceSpec.AddComment | src/posts/posts.service.spec.ts:231-257 | definition of `addComment`; specified by `ServiceProperties.AddCommentLinksParent` and `ServiceProperties.AddCommentKeepsCoherent` |
| ServiceSpec.InvalidateComment | src/posts/posts.service.spec.ts:379-416 | definition of a comment write's cache step; specified through `ServiceProperties.UpdateCommentInvalidates` and `ServiceProperties.DeleteCommentInvalidates` |
| ServiceSpec.UpdateComment | src/posts/posts.service.spec.ts:353-392 | definition of `updateComment`; specified by `ServiceProperties.UpdateCommentInvalidates` and `ServiceProperties.UpdateCommentKeepsCoherent` |
| ServiceSpec.DeleteComment | src/posts/posts.service.spec.ts:394-426 | definition of `deleteComment`; specified by `ServiceProperties.DeleteCommentInvalidates` and `ServiceProperties.DeleteCommentKeepsCoherent` |
| ServiceProperties.CacheAsideShape | src/posts/posts.service.spec.ts:105-113 | a read changes at most the entry under its key, and only by writing there the store's answer, which it returns |
| ServiceProperties.InvalidateShape | src/posts/posts.service.spec.ts:192 | a write's cache step deletes exactly its keys, or fails with the Redis error and changes nothing |
| ServiceProperties.HitIgnoresStore | src/posts/posts.service.spec.ts:116-126 | on a hit the answer is the cached value whatever the store holds, and the cache is not written |
| ServiceProperties.GetPostHitIgnoresStore | src/posts/posts.service.spec.ts:116-126 | a `getPost` hit gives the same answer and world over any store contents |
| ServiceProperties.GetPostMissWritesDto | src/posts/posts.service.spec.ts:91-114 | a `getPost` miss on a stored post writes `posts/{id}` ↦ its DTO and returns that DTO |
| ServiceProperties.GetPostMissingIsNotFound | src/posts/posts.service.spec.ts:128-137 | a miss for a post the store lacks is NotFound and writes nothing |
| ServiceProperties.GetAllPostsMissListsStore | src/posts/posts.service.spec.ts:140-152 | a miss on `posts` caches and returns the DTOs of all posts, in store order |
| ServiceProperties.GetPostCommentsMissFiltersByParent | src/posts/posts.service.spec.ts:304-321 | a miss returns the DTOs of exactly the comments whose parent `_id` is the post's |
| ServiceProperties.GetAllPostsIsPostList | src/posts/posts.service.spec.ts:140-164 | what `getAllPosts` returns reads back as a list of post DTOs |
| ServiceProperties.GetPostCommentsIsCommentList | src/posts/posts.service.spec.ts:303-340 | what `getPostComments` returns reads back as a list of comment DTOs |
| ServiceProperties.CacheAsideTwice | src/posts/posts.service.spec.ts:116-126 | a second read right after a successful first one is a hit with the same answer |
| ServiceProperties.LoadedIsTruthy | src/posts/posts.service.spec.ts:116-126 | a cached DTO is truthy, so it is served as a hit |
| ServiceProperties.GetPostTwice | src/posts/posts.service.spec.ts:91-126 | reading a post twice gives the same answer, and the second read leaves the world unchanged |
| ServiceProperties.GetAllPostsTwice | src/posts/posts.service.spec.ts:140-164 | the same for the list of posts |
| ServiceProperties.GetCommentTwice | src/posts/posts.service.spec.ts:270-292 | the same for one comment |
| ServiceProperties.GetPostCommentsTwice | src/posts/posts.service.spec.ts:304-340 | the same for a post's comments |
| ServiceProperties.ReadFaultPassesThrough | src/cache/cache.service.ts:16-18 | a failing cache `get` fails the read with that error, before the store is read |
| ServiceProperties.EmptyCacheCoherent | src/posts/posts.service.ts:10-12 | with nothing cached, collections with unique ids are coherent: the invariant's starting point |
| ServiceProperties.RemovalKeepsCoherent | src/posts/posts.service.spec.ts:192 | deleting cache entries never makes the cache disagree with the store |
| ServiceProperties.ExpiryKeepsCoherent | src/cache/cache.service.ts:42 | a key expiring keeps coherence |
| ServiceProperties.GetPostKeepsCoherent | src/posts/posts.service.spec.ts:91-114 | reading a post with a plain id keeps every cached post and comment equal to the DTO of the stored record |
| ServiceProperties.GetAllPostsKeepsCoherent | src/posts/posts.service.spec.ts:140-152 | reading the list keeps coherence |
| ServiceProperties.GetCommentKeepsCoherent | src/posts/posts.service.spec.ts:270-281 | reading a comment keeps coherence |
| ServiceProperties.GetPostCommentsKeepsCoherent | src/posts/posts.service.spec.ts:304-321 | reading a post's comments keeps coherence |
| ServiceProperties.CreatePostKeepsCoherent | src/posts/posts.service.ts:14-17 | creating a post keeps coherence |
| ServiceProperties.UpdatePostKeepsCoherent | src/posts/posts.service.spec.ts:167-193 | updating a post keeps coherence when its `delete` succeeds |
| ServiceProperties.DeletePostKeepsCoherent | src/posts/posts.service.spec.ts:204-220 | deleting a post keeps coherence when its `delete` succeeds |
| ServiceProperties.AddCommentKeepsCoherent | src/posts/posts.service.spec.ts:236-248 | adding a comment keeps coherence |
| ServiceProperties.UpdateCommentKeepsCoherent | src/posts/posts.service.spec.ts:353-383 | updating a comment whose parent resolves keeps coherence when its `delete` succeeds |
| ServiceProperties.DeleteCommentKeepsCoherent | src/posts/posts.service.spec.ts:394-417 | deleting a comment whose parent resolves keeps coherence when its `delete` succeeds |
| ServiceProperties.GetPostServesStore | src/posts/posts.service.spec.ts:91-126 | in a coherent world, with no Redis fault and a positive default lifetime, a read of a post with a plain id through the cache answers what a read of the store answers |
| ServiceProperties.GetCommentServesStore | src/posts/posts.service.spec.ts:270-300 | the same for a comment |
| ServiceProperties.CreatePostStoresData | src/posts/posts.service.ts:14-17 | `createPost` stores the given content and user with the fresh id and the two clock readings as its times, and returns exactly the stored record's DTO; the cache is untouched; it fails iff the id or `_id` is taken, and then nothing changes |
| ServiceProperties.CreateThenGetPost | src/posts/posts.service.ts:14-17 | the next read of a created post answers its DTO |
| ServiceProperties.UpdatePostInvalidates | src/posts/posts.service.spec.ts:167-201 | `updatePost` stores the new content and time, returns the updated DTO and deletes exactly `posts/{id}` and `posts`; NotFound changes nothing; a failing `delete` leaves the cache as it was and fails the call |
| ServiceProperties.UpdateThenGetPost | src/posts/posts.service.spec.ts:167-202 | after an update the next read misses and answers the updated DTO, with the new content and time |
| ServiceProperties.DeletePostInvalidates | src/posts/posts.service.spec.ts:204-228 | `deletePost` removes exactly the record, returns its DTO and deletes exactly `posts/{id}` and `posts`; comments are kept; NotFound changes nothing |
| ServiceProperties.DeleteThenGetPost | src/posts/posts.service.spec.ts:204-229 | after a delete the next read of the post is NotFound |
| ServiceProperties.AddCommentLinksParent | src/posts/posts.service.spec.ts:231-256 | `addComment` stores the comment linked to the post's `_id`, returns its DTO and deletes no key; a missing post is NotFound and nothing changes |
| ServiceProperties.UpdateCommentInvalidates | src/posts/posts.service.spec.ts:353-391 | `updateComment` stores the change and deletes exactly `comments/{id}` and the parent's `posts/{post.id}/comments`; NotFound changes nothing |
| ServiceProperties.DeleteCommentInvalidates | src/posts/posts.service.spec.ts:394-425 | `deleteComment` removes the comment and deletes exactly `comments/{id}` and the parent's comment-list key; NotFound changes nothing |
| ServiceProperties.UpdateThenGetComment | src/posts/posts.service.spec.ts:353-392 | after a comment update the next read misses and answers the updated DTO |
| ServiceProperties.DeleteThenGetComment | src/posts/posts.service.spec.ts:394-426 | after a comment delete the next read is NotFound |
| ServiceProperties.CreatePostLeavesListStale | src/posts/posts.service.ts:10-17 | `createPost` does not delete `posts`: a list cached while current goes on answering without the new post |
| ServiceProperties.AddCommentLeavesListStale | src/posts/posts.service.spec.ts:236-248 | `addComment` does not delete the comment list: a list cached while current goes on answering without the new comment |
| ServiceProperties.DeletePostLeavesComments | src/posts/posts.service.spec.ts:207-220 | `deletePost` keeps the post's comments and its cached comment list, which goes on answering for a post the store no longer has |
| ServiceProperties.OrphanedCommentGoesStale | src/posts/posts.service.spec.ts:353-392 | after its post is deleted, updating a comment changes the store but fails before deleting `comments/{id}`, so the next read answers the old comment |
| ServiceProperties.DeleteFaultLeavesPostStale | src/cache/cache.service.ts:55-57 | when the `delete` after an update fails, the store has the new content and the next read answers the old post |
| PostsServices.PostsService.ReadThrough | src/posts/posts.service.spec.ts:105-126 | the method does what the cache-aside step function does to the cache and returns its answer |
| PostsServices.PostsService.GetPost | src/posts/posts.service.spec.ts:87-138 | the method's new state and result are `getPost`'s; it keeps coherence for a plain id |
| PostsServices.PostsService.GetAllPosts | src/posts/posts.service.spec.ts:140-165 | the method's new state and result are `getAllPosts`'s; it keeps coherence |
| PostsServices.PostsService.GetComment | src/posts/posts.service.spec.ts:259-301 | the method's new state and result are `getComment`'s; it keeps coherence |
| PostsServices.PostsService.GetPostComments | src/posts/posts.service.spec.ts:303-351 | the method's new state and result are `getPostComments`'s; it keeps coherence |
| PostsServices.PostsService.Invalidate | src/posts/posts.service.spec.ts:192 | one `delete` of the keys; its failure is the call's |
| PostsServices.PostsService.CreatePost | src/posts/posts.service.ts:14-17 | the method's new state and result are `createPost`'s; it keeps unique ids and coherence |
| PostsServices.PostsService.UpdatePost | src/posts/posts.service.spec.ts:167-202 | the method's new state and result are `updatePost`'s; it keeps unique ids and, when the `delete` succeeds, coherence |
| PostsServices.PostsService.DeletePost | src/posts/posts.service.spec.ts:204-229 | the same for `deletePost` |
| PostsServices.PostsService.AddComment | src/posts/posts.service.spec.ts:231-257 | the method's new state and result are `addComment`'s; it keeps unique ids and coherence |
| PostsServices.PostsService.InvalidateComment | src/posts/posts.service.spec.ts:379-416 | resolves the parent by `_id` and deletes `comments/{id}` and the parent's list key; an unresolved parent fails the call |
| PostsServices.PostsService.UpdateComment | src/posts/posts.service.spec.ts:353-392 | the method's new state and result are `updateComment`'s; it keeps unique ids, and coherence when the parent resolves and the `delete` succeeds |
| PostsServices.PostsService.DeleteComment | src/posts/posts.service.spec.ts:394-426 | the same for `deleteComment` |
| PostsServices.PostsService.constructor | src/posts/posts.service.ts:10-12 | the service starts on the collections it is given, whose ids are unique, and is coherent when its cache is empty |

## Left out

These are the things the source does that the model does not capture:

- **HTTP and framework wiring.** Controllers, modules, bootstrapping and Swagger
  only delegate. The same goes for the health checks, which ping Mongo and
  Redis over the network.
- **The Redis and Mongo clients.** They are replaced by the maps and sequences
  they hold, with one optional error per Redis command as a parameter.
- **Lifetimes running out.** Only the drop itself is modelled
  (`Cache.CacheService.Expire`); the wall clock is not.
- **Other store failures.** Mongo failures other than the duplicate key of a
  unique index are not modelled.
- **Concurrency.** Every call is atomic and calls happen one after another, so
  racing reads and invalidations are not modelled.
- **Full JSON.**
  - JSON is modelled for null, booleans, integers, strings, arrays and objects,
    written without white space.
  - Floating-point numbers are not modelled.
  - `Date` values are whole milliseconds, not the ISO strings they become in
    the cache.
  - `JSON.parse` accepting white space is not modelled.
  - JavaScript numbers are doubles, and the model's are unbounded integers.
    `JSON.stringify` writes numbers of 1e21 and above in exponent form, and
    integers above 2^53 lose precision; neither is modelled. The only numbers
    the service caches are millisecond timestamps, far below both.
  - `Json.Parse` rejects a surrogate-pair escape such as `"\uD83D\uDE00"`,
    which `JSON.parse` accepts. `JSON.stringify` never writes one for a
    string it can be given here, so the round trip is unaffected.
- **Lone surrogates.** Strings containing lone surrogates are outside the
  model, because Dafny's `char` cannot hold one. `JSON.stringify`'s `\uXXXX`
  escape for them is therefore not modelled.
- Json.Parse: keeps every member of an object whose text repeats a member
  name, where `JSON.parse` keeps only the last value. It also reads `-0` as
  `0`, and keeps members in text order where a JavaScript object puts
  integer-like keys first. The service only parses text `Json.Serialize`
  wrote from its DTOs, which has distinct, non-numeric member names and no
  `-0`.
- **The hit/miss log lines** of the cache adapter.
- **How the validator library treats odd values.**
  - Joi's string-to-number conversion of environment values is not modelled:
    values arrive already typed.
  - Joi's `number()` also accepts non-integers such as `REDIS_TTL_MS=1.5`;
    a `Num` value of `Config.EnvValue` holds an integer only.
  - The validators' handling of non-string values beyond "not a string" is not
    modelled.
  - The behaviour of extra body properties, and the route-parameter to DTO
    conversion, are not modelled.
- **The update DTOs.** Their length bounds come from a `./shared` file, which is
  not part of this model.
- **The single-id DTOs.** The DTOs for get-post, get-comment, delete-post,
  delete-comment and get-post-comments are each one `@IsUUID` check, the same
  as `AddCommentDtos.ParamsIffUuid`.
- **The service source of nine operations.** The service source for the nine
  operations other than `createPost` is not part of this model. The model
  follows what the service tests assert about them:
  - The value `getPost` writes to the cache in the tests is the DTO, and the
    model writes the DTO.
  - How a read's store lookup fails beyond NotFound is not modelled.
- ServiceProperties.GetPostKeepsCoherent: holds only for ids without '/'. For
  other ids `posts/{id}` can be another post's comment-list key
  (`CacheKeys.KeysCollideWithSlash`). Ids that pass the DTOs' `@IsUUID` checks
  contain no '/' (`Uuid.NoSlash`). Those checks run only under a
  `ValidationPipe`: src/posts/posts.controller.spec.ts:31 installs one, but
  src/main.ts:6-21 does not. Without the pipe, an id containing '/' can reach
  the service, and the stale read the lemma rules out becomes possible.
- ServiceProperties.UpdatePostKeepsCoherent: assumes the `delete` succeeds. When
  it fails, the cache can go stale, as
  `ServiceProperties.DeleteFaultLeavesPostStale` shows.
- ServiceProperties.UpdateCommentKeepsCoherent: assumes the comment's parent
  still exists. When it does not, the cache can go stale, as
  `ServiceProperties.OrphanedCommentGoesStale` shows.
- **The cached lists.** They are proved to be well-formed DTO lists, not
  current ones. Creating a post or adding a comment leaves them stale
  (`ServiceProperties.CreatePostLeavesListStale`,
  `ServiceProperties.AddCommentLeavesListStale`).
