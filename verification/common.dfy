/** Vocabulary shared by every controller: document identifiers, path parameters that should
    hold an ObjectId, and the reply a handler sends (the ApiResponse / ApiError envelopes
    collapsed into one datatype). */
module Common {

  /** A document identifier (a MongoDB ObjectId). Ids are handed out in creation order, so
      the natural order of a collection is the order of its ids. */
  type Id = nat

  datatype Option<+T> = None | Some(value: T)

  /** A request parameter that should name a document.
      `Cast(id, canonical)` is a string that `isValidObjectId` accepts and that casts to `id`;
      `canonical` says whether the string is exactly `id.toString()` (24 lower-case hexadecimal
      digits) rather than another accepted spelling of the same id (upper-case digits). */
  datatype IdParam = Malformed | Cast(id: Id, canonical: bool)

  predicate IsValidObjectId(p: IdParam)
  {
    p.Cast?
  }

  /** `id.toString() === p`: string equality with the parameter as the client spelled it. */
  predicate SameString(id: Id, p: IdParam)
  {
    p.Cast? && p.canonical && p.id == id
  }

  /** What a handler answers: a success status with its payload, or an error status. */
  datatype Reply<+T> = Ok(status: nat, body: T) | Err(status: nat)

  const Success: nat := 200
  const Created: nat := 201
  const BadRequest: nat := 400
  const Unauthorized: nat := 401
  const Forbidden: nat := 403
  const NotFound: nat := 404
  const Conflict: nat := 409
  const ServerError: nat := 500
}
