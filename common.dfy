/** Values shared by the coordinator and the worker: optional values (Java's
    nullable references), the exceptions the code throws or catches, and the
    two ways an operation reports them. */
module Common {

  /** A Java reference that may be null. */
  datatype Option<+T> = None | Some(value: T)

  /** The exceptions that are raised, caught or propagated by the core. */
  datatype Exception =
    | IllegalArgument(message: string)     // java.lang.IllegalArgumentException
    | IllegalState(message: string)        // java.lang.IllegalStateException
    | NoSuchElement                        // Optional.orElseThrow() on an empty Optional
    | NullPointer                          // dereferencing a null reference
    | IndexOutOfBounds                     // String.substring past the end
    | DateTimeParse                        // LocalDateTime.parse on malformed text
    | DataAccess                           // a failing repository write
    | DuplicateKey                         // an insert whose primary key is already stored
    | Jwt(reason: string)                  // io.jsonwebtoken.JwtException and subclasses
    | ResponseStatus(status: int, reason: string)  // ResponseStatusException
    | HttpClientError(httpStatus: int)     // a 4xx or 5xx answer to a RestTemplate call
    | ResourceAccess                       // a RestTemplate call that got no answer

  /** The outcome of a worker-side call that returns a value or throws. */
  datatype Result<+T> = Ok(value: T) | Err(ex: Exception)

  /** The outcome of a call that returns nothing or throws. */
  datatype Outcome = Pass | Fail(ex: Exception)

  /** What a coordinator endpoint hands back: a 200 body, a ResponseEntity with
      another HTTP status and a text body, or an exception that leaves it. */
  datatype Reply<+T> = Success(body: T) | Rejected(status: int, message: string) | Thrown(ex: Exception)

  const BAD_REQUEST: int := 400
  const UNAUTHORIZED: int := 401
}
