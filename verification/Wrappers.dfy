// Shared result types and the error kinds the agent distinguishes.
module Wrappers {

  datatype Option<+T> = None | Some(value: T)

  datatype Result<+T, +E> = Success(value: T) | Failure(error: E)

  // Message wording is not modelled; one constructor per kind of failure.
  datatype Error =
    | NotExist          // ENOENT, the one kind the writer and renewer branch on
    | NotRegular        // symlink (O_NOFOLLOW) or not a regular file
    | Io                // any other failing system call
    | BadMode
    | BadOwner
    | UnknownAccount
    | UnknownFormat
    | UnknownBundleOrder
    | MissingFilesBlock
    | UnknownSource
    | FetchFailed
    | ReloadFailed
    | NoPemBlock
    | WrongBlockType
    | BadCertificate
    | BadResponse
    | InvalidConfig

  datatype Unit = Unit
}
