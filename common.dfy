/** Types shared by the whole model: time, public identifiers, the opaque
    bag of simple properties every entity carries, and the error results
    the service raises as exceptions. */
module Common {

  /** A point in time (DateTime, in ticks). The clock is never read by the
      model: every instant is a parameter. */
  type Instant = int

  /** A public identifier (Guid). */
  type Guid = nat

  /** The all-zero Guid, the value of a Guid property nobody has set. */
  const EmptyGuid: Guid := 0

  /** The simple (scalar) properties of an entity or a request, by
      property name. Which properties exist is decided by the entity and
      DTO classes, which are not part of this model. */
  type Fields = map<string, string>

  /** A reference that may be null. */
  datatype Option<+T> = None | Some(value: T)

  /** What the service throws, as a value: KeyNotFoundException with the
      key that was looked up. */
  datatype Error =
    | NotFoundById(id: int)
    | NotFoundByPid(pid: Guid)

  /** The result of a service operation that returns a response. */
  datatype Result<+T> = Success(value: T) | Failure(error: Error)

  /** The result of a service operation that returns nothing. */
  datatype Outcome = Pass | Fail(error: Error)
}
