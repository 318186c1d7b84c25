/** Error kinds raised by the NTv2 writer, and the wrappers that carry them. */
module Failures {

  /** The configuration steps whose absence or presence an error names. */
  datatype Gate =
    | Overview              // reference systems of the file
    | Limits                // bounding box of a subfile
    | Increments            // coordinate increments of a subfile
    | LimitsAndIncrements   // set_gridshifts names both at once
    | Dates                 // creation/update dates of a subfile
    | Shifts                // grid-shift records of a subfile
    | Subfiles              // at least one registered subfile

  datatype Error =
    | UnknownUnit                              // "Unknown unit for coordinates!"
    | AlreadySet(gate: Gate)                   // a setter repeated without overwrite
    | NotSet(gate: Gate)                       // a step required earlier is missing
    | DuplicateName(name: string)              // subfile name already registered
    | UnknownParent(name: string)              // parent not registered; the message names the child
    | UndefinedName                            // NameError of the code as written
    | CapacityExceeded                         // "All grid shifts have already been added!"
    | InsufficientData(required: int)          // set_gridshifts array shorter than gs_count
    | MissingShifts(current: int, expected: int) // write before all shifts were added
    | EmptyGrid                                // gs_count == 0 at header time
    | DivisionByZero                           // zero coordinate increment
    | UnknownRecordFormat                      // record type other than "s", "i", "f"
    | BadValue                                 // value of the wrong Python type for its record
    | IntOutOfRange                            // struct.pack "i" outside 32 bits
    | FileExists                               // "File already exists!"
    | UnknownFormat                            // format letter other than a/A/b/B

  /** Outcome of an operation that returns nothing but may raise. */
  datatype Outcome = Pass | Fail(error: Error)

  datatype Result<+T> = Success(value: T) | Failure(error: Error)

  datatype Option<+T> = None | Some(value: T)
}
