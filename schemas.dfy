/**
 * The records the document store holds for the two collections. Each record
 * carries the schema's fields plus the store's own `_id` (here `oid`) and
 * version key `__v` (here `version`). A comment points to its parent post by
 * the post's `oid`, not by the post's public `id`.
 */
module Schemas {

  /** A `Date`, as milliseconds since the epoch. */
  type Time = nat

  /** The store's internal identity of a record (Mongo's `_id`). */
  type ObjectId = nat

  datatype PostDocument = PostDocument(
    oid: ObjectId,
    version: nat,
    id: string,
    content: string,
    userId: string,
    createdTime: Time,
    updatedTime: Time)

  datatype CommentDocument = CommentDocument(
    oid: ObjectId,
    version: nat,
    id: string,
    content: string,
    post: ObjectId,
    userId: string,
    createdTime: Time,
    updatedTime: Time)
}
