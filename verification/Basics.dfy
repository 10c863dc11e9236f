/** Types shared by every part of the model. */
module Basics {

  datatype Option<+T> = None | Some(value: T)

  datatype Result<+T, +E> = Ok(value: T) | Err(error: E)

  /** The error answers of the server that the model distinguishes. */
  datatype AppError =
    | Unauthorized
    | SessionExpired
    | Forbidden
    | NotFound
    | Conflict
    | KeyConflict(keys: seq<string>)
    | AwaitingApproval
    | DeviceBanned
    | BadRequest
    | ZeroTrustRequired
    | Internal

  /** Row ids and generated secrets are drawn from one counter, so both are never reused. */
  type Id = nat
  type Secret = nat

  /** A stored hash. The constructor is injective, as a collision-free hash is. */
  datatype Digest = Digest(secret: Secret)

  /** What a successful authentication hands to the handlers: the owner, the device the
      credential is attributed to (if any), and the credential's own row. */
  datatype Claims = Claims(owner: string, device: Option<Id>, keyId: Id)

  /** A nullable timestamp that is still ahead of `now`. */
  predicate Ahead(t: Option<int>, now: int) {
    t.Some? && t.value > now
  }

  /** An optional expiry that has not passed (no expiry never passes). */
  predicate Unexpired(expiresAt: Option<int>, now: int) {
    expiresAt.None? || expiresAt.value > now
  }
}
