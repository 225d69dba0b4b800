/** The two result types every module of this project answers with. */
module Results {

  /** A value that may be missing, which is what the source writes as null or undefined. */
  datatype Option<+T> = None | Some(value: T)

  /** An answer, or the error that stands in its place, thrown or returned. */
  datatype Result<+T, +E> = Success(value: T) | Failure(error: E)
}
