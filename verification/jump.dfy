/** JumpTo: list the instances once, pick one, and exec ssh into it.  The
    HTTP transport is already the bastion tunnel when JumpTo starts. */
module Jump {
  import opened Wrappers
  import opened Faults
  import opened Display
  import opened Selection
  import opened Trace
  import opened Ssh
  import Decimal

  /** What JumpTo learns from outside: the pass-through arguments, the -n
      flag when it is set, the DescribeInstances answer already turned into
      instances (or its error), the first scan of stdin, fmt.Sscan, the display
      accessors, and the error syscall.Exec returns when it fails. */
  datatype Context = Context(
    cliArgs: seq<string>,
    index: Option<int>,
    described: Result<seq<Instance>, string>,
    stdin: StdinRead,
    parse: string -> Option<int>,
    view: View,
    execError: Option<string>)

  /** The index JumpTo goes on with: the -n flag when set, else the
      operator's answer. */
  function Choose(ctx: Context, count: nat): SelectOutcome {
    match ctx.index
    case Some(n) => Accept(n)
    case None => GetInstanceFromUser(ctx.stdin, count, ctx.parse)
  }

  /** Lines to move up after the choice: the table's assumed lines plus one
      for the final newline.  The extra line is counted whether or not an
      answer was typed. */
  function LinesAfterChoice(count: nat): nat {
    count + TableDecorations + 1
  }

  /** Everything after the table is drawn: choose, erase, and hand over. */
  function Connect(bastion: string, ctx: Context, instances: seq<Instance>): (tr: seq<Event>)
    ensures Finished(tr)
    ensures forall i :: 0 <= i < |tr| ==> !tr[i].ConfigureHTTP? && !tr[i].Describe? && !tr[i].Render?
    ensures Choose(ctx, |instances|).Accept? ==>
              |tr| >= 3 && tr[0] == CursorUp(LinesAfterChoice(|instances|)) && tr[1] == ClearToEndOfScreen
    ensures Choose(ctx, |instances|).Abort? ==> tr == [Fail(InputClosed)]
    ensures Choose(ctx, |instances|).Reject? ==> tr == [Fail(Choose(ctx, |instances|).fault)]
    ensures Choose(ctx, |instances|).Accept? && 0 <= Choose(ctx, |instances|).index < |instances| ==>
              tr[2] == Exec(SshPath, Argv(ctx.cliArgs, bastion, instances[Choose(ctx, |instances|).index].privateIP))
    ensures Choose(ctx, |instances|).Accept? && !(0 <= Choose(ctx, |instances|).index < |instances|) ==>
              tr[2..] == [Fail(IndexOutOfRange(Choose(ctx, |instances|).index, |instances|))]
  {
    match Choose(ctx, |instances|)
    case Abort => [Fail(InputClosed)]
    case Reject(f) => [Fail(f)]
    case Accept(n) =>
      [CursorUp(LinesAfterChoice(|instances|)), ClearToEndOfScreen] +
      if 0 <= n < |instances| then InvokeSSH(ctx.cliArgs, bastion, instances[n], ctx.execError)
      else [Fail(IndexOutOfRange(n, |instances|))]
  }

  /** JumpTo.  DescribeInstances runs over the transport already in place;
      only after it succeeds is the transport switched to direct dialling
      (so a forged answer cannot steer the switch), and a failed describe
      ends the run before anything is drawn. */
  function JumpTo(bastion: string, ctx: Context): (tr: seq<Event>)
    ensures 2 <= |tr| && tr[0] == Describe(ctx.described.Success?)
    ensures ctx.described.Success? ==> |tr| >= 3 && tr[1] == ConfigureHTTP(false)
    ensures ctx.described.Success? && ShowInstances(ctx.described.value, ctx.view).Success? ==>
              tr[2] == Render(ShowInstances(ctx.described.value, ctx.view).value)
    ensures ctx.described.Failure? ==> tr == [Describe(false), Fail(DescribeFailed(ctx.described.error))]
    ensures forall i :: 0 <= i < |tr| && tr[i].ConfigureHTTP? ==>
              i == 1 && tr[0] == Describe(true) && !tr[i].tunnel
    ensures forall i :: 0 < i < |tr| ==> !tr[i].Describe?
    ensures forall i :: 0 <= i < |tr| && tr[i].Render? ==>
              i == 2 && ctx.described.Success? && ShowInstances(ctx.described.value, ctx.view) == Success(tr[i].table)
    ensures Finished(tr)
  {
    match ctx.described
    case Failure(e) => [Describe(false), Fail(DescribeFailed(e))]
    case Success(instances) =>
      var rest := Present(bastion, ctx, instances);
      FinishedAfter([Describe(true), ConfigureHTTP(false)], rest);
      [Describe(true), ConfigureHTTP(false)] + rest
  }

  /** Everything after a successful describe and the switch to direct: draw
      the table (or panic at a short ID), then choose and hand over. */
  function Present(bastion: string, ctx: Context, instances: seq<Instance>): (tr: seq<Event>)
    ensures Finished(tr)
    ensures forall i :: 0 <= i < |tr| ==> !tr[i].ConfigureHTTP? && !tr[i].Describe?
    ensures forall i :: 0 <= i < |tr| && tr[i].Render? ==>
              i == 0 && ShowInstances(instances, ctx.view) == Success(tr[i].table)
    ensures ShowInstances(instances, ctx.view).Success? ==>
              |tr| >= 2 && tr[0] == Render(ShowInstances(instances, ctx.view).value)
    ensures ShowInstances(instances, ctx.view).Failure? ==>
              tr == [Fail(ShowInstances(instances, ctx.view).error)]
  {
    match ShowInstances(instances, ctx.view)
    case Failure(f) => [Fail(f)]
    case Success(t) =>
      var rest := Connect(bastion, ctx, instances);
      FinishedAfter([Render(t)], rest);
      [Render(t)] + rest
  }

  /** Every exec goes to /usr/bin/ssh with the argv for the chosen instance,
      after the table (and the answer line) has been erased. */
  lemma ExecTargetsChosenInstance(bastion: string, ctx: Context, tr: seq<Event>, i: nat)
    requires tr == JumpTo(bastion, ctx)
    requires i < |tr| && tr[i].Exec?
    ensures ctx.described.Success? && Choose(ctx, |ctx.described.value|).Accept?
    ensures var instances := ctx.described.value;
      var n := Choose(ctx, |instances|).index;
      && 0 <= n < |instances|
      && tr[i] == Exec(SshPath, Argv(ctx.cliArgs, bastion, instances[n].privateIP))
      && i == 5 && tr[2].Render? && tr[4] == ClearToEndOfScreen
      && tr[3] == CursorUp(RenderedLines(tr[2].table) + 1)
  {
    var instances := ctx.described.value;
    var t := ShowInstances(instances, ctx.view).value;
    var rest := Connect(bastion, ctx, instances);
    assert tr == [Describe(true), ConfigureHTTP(false)] + ([Render(t)] + rest);
    assert rest[i - 3].Exec?;
  }

  /** Typing the number shown in the first cell of row `k` jumps to
      instance `k`, given that fmt.Sscan reads that number back. */
  lemma TypedRowNumberSelectsRow(bastion: string, ctx: Context, k: nat)
    requires ctx.index.None? && ctx.described.Success? && k < |ctx.described.value|
    requires ShowInstances(ctx.described.value, ctx.view).Success?
    requires ctx.stdin == Line(ShowInstances(ctx.described.value, ctx.view).value.rows[k][0], None)
    requires ctx.parse(Decimal.Show(k)) == Some(k)
    ensures var tr := JumpTo(bastion, ctx);
      |tr| >= 6 && tr[5] == Exec(SshPath, Argv(ctx.cliArgs, bastion, ctx.described.value[k].privateIP))
  {
    var instances := ctx.described.value;
    var t := ShowInstances(instances, ctx.view).value;
    RowDepicts(t.rows[k], k, instances[k], ctx.view);
    assert t.rows[k][0] == Decimal.Show(k);
  }

  /** An index at or above the count ends the run with "not a valid
      instance", without exec. */
  lemma TooLargeIndexRejected(bastion: string, ctx: Context, n: int)
    requires ctx.index.None? && ctx.described.Success?
    requires ShowInstances(ctx.described.value, ctx.view).Success?
    requires ctx.stdin.Line? && ctx.stdin.readError.None?
    requires ctx.parse(ctx.stdin.text) == Some(n) && n >= |ctx.described.value|
    ensures var tr := JumpTo(bastion, ctx);
      tr[|tr| - 1] == Fail(InvalidInstance(n)) && forall i :: 0 <= i < |tr| ==> !tr[i].Exec?
  {
  }

  /** A line that is not an integer ends the run as unrecognised input,
      with status 1 and no exec. */
  lemma UnparseableFatal(bastion: string, ctx: Context)
    requires ctx.index.None? && ctx.described.Success?
    requires ShowInstances(ctx.described.value, ctx.view).Success?
    requires ctx.stdin.Line? && ctx.stdin.readError.None? && ctx.parse(ctx.stdin.text).None?
    ensures var tr := JumpTo(bastion, ctx);
      && tr[|tr| - 1] == Fail(Unrecognised(ctx.stdin.text))
      && ExitStatus(tr[|tr| - 1].fault) == 1
      && forall i :: 0 <= i < |tr| ==> !tr[i].Exec?
  {
  }

  /** A negative index passes the check, and indexing the instance list with
      it panics after the screen was cleared, without exec; an index given
      with -n is not checked at all. */
  lemma NegativeIndexPanics(bastion: string, ctx: Context, n: int)
    requires ctx.described.Success?
    requires ShowInstances(ctx.described.value, ctx.view).Success?
    requires n < 0
    requires ctx.index == Some(n)
             || (ctx.index.None? && ctx.stdin.Line? && ctx.stdin.readError.None? && ctx.parse(ctx.stdin.text) == Some(n))
    ensures var tr := JumpTo(bastion, ctx);
      && tr[|tr| - 1] == Fail(IndexOutOfRange(n, |ctx.described.value|))
      && ExitStatus(tr[|tr| - 1].fault) == 2
      && tr[|tr| - 2] == ClearToEndOfScreen
      && tr[|tr| - 3] == CursorUp(LinesAfterChoice(|ctx.described.value|))
      && forall i :: 0 <= i < |tr| ==> !tr[i].Exec?
  {
  }

  /** Closing stdin instead of answering ends the run with status 1. */
  lemma ClosedInputAborts(bastion: string, ctx: Context)
    requires ctx.index.None? && ctx.stdin.NoLine? && ctx.described.Success?
    requires ShowInstances(ctx.described.value, ctx.view).Success?
    ensures var tr := JumpTo(bastion, ctx);
      tr[|tr| - 1] == Fail(InputClosed) && ExitStatus(InputClosed) == 1
  {
  }

  /** With -n given, stdin is never read: the run is the same whatever it holds. */
  lemma ExplicitIndexIgnoresInput(bastion: string, ctx: Context, other: StdinRead)
    requires ctx.index.Some?
    ensures JumpTo(bastion, ctx) == JumpTo(bastion, ctx.(stdin := other))
  {
  }

  /** An index given with -n that is in range jumps to that instance. */
  lemma ExplicitIndexSelectsRow(bastion: string, ctx: Context, k: nat)
    requires ctx.index == Some(k) && ctx.described.Success? && k < |ctx.described.value|
    requires ShowInstances(ctx.described.value, ctx.view).Success?
    ensures var tr := JumpTo(bastion, ctx);
      |tr| >= 6 && tr[5] == Exec(SshPath, Argv(ctx.cliArgs, bastion, ctx.described.value[k].privateIP))
  {
  }

  /** A read error reported by the scanner after a line is fatal, with
      status 1 and no exec, whatever the line says. */
  lemma StdinErrorFatal(bastion: string, ctx: Context)
    requires ctx.index.None? && ctx.stdin.Line? && ctx.stdin.readError.Some? && ctx.described.Success?
    requires ShowInstances(ctx.described.value, ctx.view).Success?
    ensures var tr := JumpTo(bastion, ctx);
      && tr[|tr| - 1] == Fail(StdinFailed(ctx.stdin.readError.value))
      && ExitStatus(tr[|tr| - 1].fault) == 1
      && forall i :: 0 <= i < |tr| ==> !tr[i].Exec?
  {
  }

  /** When JumpTo dies, it dies of a Go runtime panic (status 2) exactly
      when some instance ID is shorter than two characters or the chosen
      index lies outside [0, count); every other fault exits with status 1. */
  lemma JumpExitStatus(bastion: string, ctx: Context, tr: seq<Event>)
    requires tr == JumpTo(bastion, ctx)
    requires tr[|tr| - 1].Fail?
    ensures ExitStatus(tr[|tr| - 1].fault) == 2 <==>
      && ctx.described.Success?
      && var instances := ctx.described.value;
         || (exists j :: 0 <= j < |instances| && |instances[j].instanceID| < 2)
         || (&& ShowInstances(instances, ctx.view).Success?
             && Choose(ctx, |instances|).Accept?
             && !(0 <= Choose(ctx, |instances|).index < |instances|))
  {
    if ctx.described.Success? {
      var instances := ctx.described.value;
      match ShowInstances(instances, ctx.view)
      case Failure(f) =>
      case Success(t) =>
        var rest := Connect(bastion, ctx, instances);
        assert tr == [Describe(true), ConfigureHTTP(false)] + ([Render(t)] + rest);
        assert tr[|tr| - 1] == rest[|rest| - 1];
    }
  }
}
