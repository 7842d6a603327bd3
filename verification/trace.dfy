/** The observable effects of a run, in order: switches of the HTTP
    transport, DescribeInstances calls, tables drawn, cursor movement, the
    exec into ssh, and the fault the process dies of. */
module Trace {
  import opened Faults
  import opened Display

  datatype Event =
    | ConfigureHTTP(tunnel: bool)          // ConfigureHTTP(true|false)
    | Describe(ok: bool)                   // DescribeInstances, and whether it succeeded
    | Render(table: Table)                 // ShowInstances drew this table
    | CursorUp(lines: int)                 // CursorUp(n)
    | ClearToEndOfScreen
    | Exec(path: string, argv: seq<string>) // syscall.Exec(path, argv, env)
    | Fail(fault: Fault)                   // the process exits with ExitStatus(fault)

  /** Events after which the process is gone: a successful exec replaces it
      and a fault ends it. */
  predicate Final(e: Event) {
    e.Exec? || e.Fail?
  }

  /** A run that ends in exactly one final event, save that an exec which
      returns is followed by the fault that reports it. */
  predicate Finished(tr: seq<Event>) {
    && |tr| > 0
    && Final(tr[|tr| - 1])
    && forall i :: 0 <= i < |tr| - 1 && Final(tr[i]) ==>
         i == |tr| - 2 && tr[i].Exec? && tr[i + 1].Fail? && tr[i + 1].fault.ExecFailed?
  }

  /** Events that cannot end the process, put in front of a finished run,
      leave it finished; each event of the run keeps its place after them. */
  lemma FinishedAfter(pre: seq<Event>, rest: seq<Event>)
    requires forall i :: 0 <= i < |pre| ==> !Final(pre[i])
    requires Finished(rest)
    ensures Finished(pre + rest)
    ensures forall i :: |pre| <= i < |pre| + |rest| ==> (pre + rest)[i] == rest[i - |pre|]
  {
    var tr := pre + rest;
    forall i | 0 <= i < |tr| - 1 && Final(tr[i])
      ensures i == |tr| - 2 && tr[i].Exec? && tr[i + 1].Fail? && tr[i + 1].fault.ExecFailed?
    {
      assert tr[i] == rest[i - |pre|];
      assert tr[i + 1] == rest[i + 1 - |pre|];
    }
  }
}
