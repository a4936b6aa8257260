/** The failures the booking service reports. The service throws plain
    `{ name, message }` records; the controllers only ever look at `name`,
    so that is all this model keeps. */
module Errors {

  datatype AppError = AppError(name: string)

  /** Raised by the eligibility gate when the user has no enrollment. */
  const Unauthorized := AppError("UnauthorizedError")

  /** Raised for a remote or reserved ticket, and by the room guard. Note the
      lower-case initial: the controllers compare against exactly this name. */
  const Forbidden := AppError("forbiddenError")

  /** Raised for a missing room or a user without a booking. */
  const NotFound := AppError("NotFoundError")

  /** What an update by primary key throws when no row has that key (the
      record-not-found request error of the ORM). No controller recognises it. */
  const RecordToUpdateNotFound := AppError("PrismaClientKnownRequestError")

  /** A value, or the error an `await` would have thrown. */
  datatype Result<+T> = Ok(value: T) | Err(error: AppError)

  /** The outcome of a check that returns nothing on success. */
  datatype Outcome = Pass | Fail(error: AppError)
}
