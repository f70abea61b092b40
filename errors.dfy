/**
 * The failure datatypes shared by every part of the model.
 *
 * The source raises a single exception class, BBoxError, with a message; the
 * model gives each message its own constructor so that contracts can say which
 * failure happens. Exceptions the source does not catch (an OS error from
 * listdir or copy2, a ValueError from unpacking a mount line) abort the command
 * just the same and are modelled here too.
 */
module Errors {

  datatype Option<+T> = None | Some(value: T) {
    function GetOr(default: T): T {
      match this
      case Some(v) => v
      case None => default
    }
  }

  datatype Result<+T, +E> = Ok(value: T) | Err(error: E)

  datatype BBoxError =
    | SpecNotFound(specfile: string)            // the spec path does not exist
    | SpecNotRegularFile(specfile: string)      // the spec path exists but is no plain file
    | SpecMalformed(specfile: string, lineno: nat) // a directive line (1-based) is malformed
    | QemuNotFound(binary: string)              // the emulator is not on the host search path
    | IndexUpdateFailed                         // `opkg update` exited non-zero
    | BatchFailed                               // an install/remove batch exited non-zero
    | TargetNotEmpty(targetDir: string)         // create found content and no force flag
    | MountFailed                               // the mount helper exited non-zero
    | TargetNotFound(targetName: string)        // delete found no directory
    | UnmountFailed                             // the unmount helper exited non-zero
    | ResidualContent(subdir: string)           // a reserved subdirectory still has entries
    | ResidualMount(mountpoint: string)         // a live mount lies inside the target
    | OsError(path: string)                     // an uncaught OSError raised on this path
    | MalformedMountEntry(line: string)         // an uncaught ValueError: the line has not six fields

  type Outcome = Result<(), BBoxError>
}
