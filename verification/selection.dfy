/** GetInstanceFromUser: turning the operator's line of input into an
    instance index. */
module Selection {
  import opened Wrappers
  import opened Faults

  /** What the stdin scanner yields.  NoLine: Scan returned false, because
      stdin ended or failed before any data.  Line(text, readError): Scan
      returned a line; `readError` is what Err() reports afterwards, which
      is not nil when a read failed after part of the line had arrived. */
  datatype StdinRead = NoLine | Line(text: string, readError: Option<string>)

  /** Accept(n): the index to jump to.  Reject(f): log.Fatalln with `f`.
      Abort: stdin closed before any line, os.Exit(1). */
  datatype SelectOutcome = Accept(index: int) | Reject(fault: Fault) | Abort

  /** `input` is the first scan of stdin; `parse` stands for fmt.Sscan into
      an int; `max` is the number of instances listed.  Only the upper bound
      is checked: a negative index is accepted. */
  function GetInstanceFromUser(input: StdinRead, max: nat, parse: string -> Option<int>): (s: SelectOutcome)
    ensures s.Abort? <==> input.NoLine?
    ensures input.Line? && input.readError.Some? ==> s == Reject(StdinFailed(input.readError.value))
    ensures s.Accept? <==> input.Line? && input.readError.None?
                           && parse(input.text).Some? && parse(input.text).value < max
    ensures s.Accept? ==> parse(input.text) == Some(s.index) && s.index < max
    ensures input.Line? && input.readError.None? && parse(input.text).None?
            ==> s == Reject(Unrecognised(input.text))
    ensures input.Line? && input.readError.None? && parse(input.text).Some? && parse(input.text).value >= max
            ==> s == Reject(InvalidInstance(parse(input.text).value))
    ensures input.Line? && input.readError.None? && parse(input.text).Some? && parse(input.text).value < 0
            ==> s.Accept?
    ensures s.Reject? ==> ExitStatus(s.fault) == 1
  {
    match input
    case NoLine => Abort
    case Line(text, readError) =>
      if readError.Some? then Reject(StdinFailed(readError.value))
      else
        match parse(text)
        case None => Reject(Unrecognised(text))
        case Some(n) => if n >= max then Reject(InvalidInstance(n)) else Accept(n)
  }
}
