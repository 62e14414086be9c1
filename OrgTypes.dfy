/** Value types shared by the organization model: identifiers, timestamps,
    nullable values and the failure conditions the entity reports where the
    Java code throws IllegalArgumentException. */
module OrgTypes {

  /** java.util.UUID: two 64-bit halves. Compared by value throughout the model. */
  datatype Uuid = Uuid(mostSigBits: bv64, leastSigBits: bv64)

  /** java.util.Date, kept opaque: milliseconds since the epoch. */
  datatype Date = Date(epochMillis: int)

  /** A Java reference that may be null. */
  datatype Option<T> = None | Some(value: T)

  /** One constructor per IllegalArgumentException that Organization throws. */
  datatype Error =
    | NameLength
    | NameTaken
    | MotdTooLong
    | DescriptionTooLong
    | LogoTooLong
    | LogoTooManyLines
    | LogoLineTooWide
    | RankIdOutOfBounds
    | RankNameTooLong
    | OwnSubOrganization
    | ParentAsSubOrganization
    | DuplicateSubOrganization
    | TooManySubOrganizations
    | NotASubOrganization
    | OwnParent
    | SameParent
    | PlayerAlreadyMember
    | PlayerNotMember
    | TownAlreadyJoined
    | TownDoesNotExist

  /** A `void` mutator: it returns normally or throws. */
  datatype Outcome = Pass | Fail(error: Error)

  /** A constructor call: it yields an object or throws. */
  datatype Result<T> = Ok(value: T) | Err(error: Error)
}
