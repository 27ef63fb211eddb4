/** Values shared by every repository of the model: identifiers, the
    optional and failing results that stand for C#'s null returns and
    exceptions. */
module Types {

  /** A 128-bit globally unique identifier; `EmptyGuid` is `Guid.Empty`. */
  newtype Guid = x: int | 0 <= x < 0x1_0000_0000_0000_0000_0000_0000_0000_0000

  const EmptyGuid: Guid := 0

  /** A reference that may be null. */
  datatype Option<+T> = None | Some(value: T)

  /** The exceptions the modelled repositories throw. */
  datatype Error =
    | ArgumentNull        // System.ArgumentNullException
    | EmptyGuidRejected   // "Can not add/update permissions with empty guid"
    | GroupNotFound       // the group store has no group with the granted group's Guid
    | MultipleMatches     // SingleOrDefault saw more than one match
    | NullReference       // System.NullReferenceException thrown by AddDefaults

  /** The value of a call that either returns or throws. */
  datatype Result<+T> = Ok(value: T) | Err(error: Error)

  /** The outcome of a call that returns nothing or throws. */
  datatype Outcome = Pass | Fail(error: Error)
}
