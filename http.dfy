/**
 * What the handlers see of an HTTP exchange: the scalar fields of a JSON body,
 * JavaScript truthiness, the verdict of a guard and the reply (status + body).
 */
module Http {
  import opened Wrappers

  /** One scalar field of a parsed JSON body: missing (`undefined`), `null`, or a string. */
  datatype JsonField = Undefined | Null | Str(text: string)

  /** `!!x` for a value of type `string | undefined` (the empty string is falsy). */
  predicate Truthy(s: Option<string>)
  {
    s.Some? && s.value != []
  }

  /** `!!x` for a body field. */
  predicate FieldTruthy(f: JsonField)
  {
    f.Str? && f.text != []
  }

  /** `x ?? null`, or what Prisma stores for a field given as `x` on create: null unless a string. */
  function Nullable(f: JsonField): (r: Option<string>)
    ensures r.Some? <==> f.Str?
    ensures f.Str? ==> r.value == f.text
  {
    match f
    case Str(s) => Some(s)
    case _ => None
  }

  /**
   * Prisma's reading of a field in an update's `data`: `undefined` leaves the
   * column as it was, `null` clears it, a string overwrites it.
   */
  function Patch(current: Option<string>, f: JsonField): (r: Option<string>)
    ensures f.Undefined? ==> r == current
    ensures !f.Undefined? ==> r == Nullable(f)
  {
    if f.Undefined? then current else Nullable(f)
  }

  /** Applying the same field twice is the same as applying it once. */
  lemma PatchIdempotent(current: Option<string>, f: JsonField)
    ensures Patch(Patch(current, f), f) == Patch(current, f)
  {
  }

  /** The outcome of a guard chain: go on, or answer with an error status. */
  datatype Gate = Pass | Reject(status: int, error: string)

  /** What a handler sends: a success status with a JSON value, or an error status with a message. */
  datatype Reply<T> = Ok(status: int, value: T) | Err(status: int, error: string)

  /** A `{ message, <row> }` body of a successful delete. */
  datatype Deleted<T> = Deleted(message: string, row: T)

  /** The error reply of a rejected gate. */
  function Refuse<T>(g: Gate): (r: Reply<T>)
    requires g.Reject?
    ensures r.Err? && r.status == g.status && r.error == g.error
  {
    Err(g.status, g.error)
  }
}
