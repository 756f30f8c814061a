/** Optional values and outcomes: Java's null becomes `None`, a thrown
    exception becomes `Failure`/`Fail`. */
module Wrappers {

  datatype Option<+T> = None | Some(value: T)

  /** The result of a Java method that returns a value or throws. */
  datatype Result<+R, +E> = Success(value: R) | Failure(error: E)

  /** The result of a Java `void` method that returns normally or throws. */
  datatype Outcome<+E> = Pass | Fail(error: E)
}

/** The exceptions the storage and processing layers throw, as values. */
module Errors {

  datatype Error =
    | IOException(message: string)          // java.io.IOException (FileNotFoundException included)
    | NullPointerException                  // Objects.requireNonNull on a missing filename
    | StorageException(message: string)     // exception/StorageException.java
    | StorageFileNotFoundException(message: string)
    | PebblelyException(message: string)    // any failure of the vendor API
}
