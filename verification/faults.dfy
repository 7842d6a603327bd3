/** The ways the program stops without handing the terminal over to ssh. */
module Faults {

  datatype Fault =
    | DescribeFailed(err: string)             // log.Fatal after DescribeInstances fails
    | InputClosed                             // os.Exit(1): stdin ended before a line was read
    | StdinFailed(err: string)                // log.Fatalln: the scanner reported a read error
    | Unrecognised(text: string)              // log.Fatalln: the line is not an integer
    | InvalidInstance(index: int)             // log.Fatalln: the index is not below the count
    | ExecFailed(err: string)                 // log.Fatalln: syscall.Exec returned
    | ShortInstanceID(id: string)             // runtime panic: InstanceID[2:] out of range
    | IndexOutOfRange(index: int, length: nat) // runtime panic: instances[n] out of range
    | EmptyZone                               // runtime panic: result[:len(result)-1] on ""

  /** Faults raised by the Go runtime rather than by an explicit exit. */
  predicate IsPanic(f: Fault) {
    f.ShortInstanceID? || f.IndexOutOfRange? || f.EmptyZone?
  }

  /** log.Fatal and os.Exit(1) end the process with status 1; an unrecovered
      Go panic ends it with status 2.  No fault ends it successfully. */
  function ExitStatus(f: Fault): (status: int)
    ensures status != 0
    ensures status == 2 <==> IsPanic(f)
  {
    if IsPanic(f) then 2 else 1
  }
}
