/** Shared datatypes: optional values (Java's Optional and nullable references), results of
    operations that can throw, and the exceptions the services raise. */
module Common {

  datatype Option<+T> = None | Some(value: T)

  /** The Java exceptions that cross the service boundary. */
  datatype Error =
    | IllegalArgument(message: string)   // IllegalArgumentException with its message
    | Runtime(message: string)           // RuntimeException with its message
    | NoSuchElement                      // Optional.get() on an empty Optional
    | NullPointer                        // a method called on a null reference
    | ClassCast                          // a claim of the wrong JSON shape
    | StoreFailure                       // the database rejected or failed an operation

  /** An operation's value, or the exception it threw. */
  datatype Result<+T> = Success(value: T) | Failure(error: Error)
}
