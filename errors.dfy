/**
 * The errors the pipeline reports. `RappError` is the crate's own error type
 * (cargo-rapp/src/error.rs) with the `Other` variant that config.rs and
 * viewer.rs construct although error.rs does not declare it; `Failure` is what
 * an `anyhow::Error` can carry here.
 */
module Errors {
  import opened Paths

  datatype RappError =
    | NoRappCrateFound(dir: Path)
    | MultipleRappCratesFound(names: seq<string>)
    | Other(message: string)

  /** The kind of an `std::io::Error` from a file operation or a process spawn. */
  datatype IoError = NotFound | AlreadyExists | NotADirectory | IsADirectory | SpawnFailed

  datatype Failure =
    | Rapp(rapp: RappError)
    | Io(io: IoError)
    | MetadataFailed  // `cargo metadata` could not be run or its output read
    | SerializeFailed // `ron::to_string` refused the record (a path that is not UTF-8)

  /** `anyhow::Result<T>`, usable with `:-`. */
  datatype Result<T> = Ok(value: T) | Err(error: Failure) {
    predicate IsFailure() { Err? }

    function PropagateFailure<U>(): Result<U>
      requires Err?
    {
      Err(error)
    }

    function Extract(): T
      requires Ok?
    {
      value
    }
  }
}
