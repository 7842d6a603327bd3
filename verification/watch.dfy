/** Watch: redraw the instance table in place, once per cycle, until stdin
    is closed.  Each cycle tunnels the DescribeInstances call and switches
    back to direct dialling afterwards. */
module WatchMode {
  import opened Wrappers
  import opened Faults
  import opened Display
  import opened Trace

  /** The goUp closure: a no-op before anything is drawn (above == 0),
      afterwards CursorUp over the previous table's lines, which are never
      fewer than TableDecorations. */
  function GoUp(above: nat): seq<Event> {
    if above == 0 then [] else [CursorUp(above)]
  }

  /** The cycles from here on.  `cycles` holds the DescribeInstances answer
      of each cycle that starts; stdin closes after the last one's table is
      drawn, and a failed answer or a panic ends the process there. */
  function WatchFrom(cycles: seq<Result<seq<Instance>, string>>, view: View, above: nat): seq<Event>
    decreases |cycles|
  {
    if |cycles| == 0 then []
    else
      match cycles[0]
      case Failure(e) => [ConfigureHTTP(true), Describe(false), Fail(DescribeFailed(e))]
      case Success(instances) =>
        var redraw := [ConfigureHTTP(true), Describe(true), ConfigureHTTP(false)] + GoUp(above);
        match ShowInstances(instances, view)
        case Failure(f) => redraw + [Fail(f)]
        case Success(t) =>
          redraw + [Render(t)] + WatchFrom(cycles[1..], view, |instances| + TableDecorations)
  }

  // ---------------------------------------------------------------------
  // A monitor for the order of events in watch mode

  /** Where a cycle is: Idle between cycles, Tunnelled once the transport is
      the tunnel, Described / Refused after a good / failed describe, Direct
      once the transport is switched back, Halted after a fault. */
  datatype Phase = Idle | Tunnelled | Described | Refused | Direct | Halted

  /** The phase; how many lines of an earlier table lie above the cursor;
      and the describe answers of the cycles not yet finished, the first of
      which belongs to the current cycle. */
  datatype Monitor = Monitor(phase: Phase, above: nat, pending: seq<Result<seq<Instance>, string>>)

  function Start(cycles: seq<Result<seq<Instance>, string>>): Monitor {
    Monitor(Idle, 0, cycles)
  }

  /** The events watch mode may take next; None for any other.  A cycle
      needs an answer to start; the describe reports that answer's success;
      a failed answer is followed by its fatal error; after the switch back
      to direct the cursor moves up over exactly the lines above it (only
      when there are some), and then the table for the answer is drawn (or
      the panic for its short ID is raised).  Drawing finishes the cycle:
      the lines above become len(instances) + N_TABLE_DECORATIONS. */
  function Step(view: View, m: Monitor, e: Event): Option<Monitor> {
    if |m.pending| == 0 then None
    else
      var answer := m.pending[0];
      match m.phase
      case Idle =>
        if e == ConfigureHTTP(true) then Some(m.(phase := Tunnelled)) else None
      case Tunnelled =>
        if e == Describe(answer.Success?)
        then Some(m.(phase := if answer.Success? then Described else Refused))
        else None
      case Refused =>
        if answer.Failure? && e == Fail(DescribeFailed(answer.error)) then Some(m.(phase := Halted)) else None
      case Described =>
        if e == ConfigureHTTP(false) then Some(m.(phase := Direct)) else None
      case Direct =>
        if answer.Failure? then None
        else if e.CursorUp? && m.above > 0 && e.lines == m.above then Some(m.(above := 0))
        else if m.above > 0 then None
        else
          (match ShowInstances(answer.value, view)
           case Success(t) =>
             if e == Render(t)
             then Some(Monitor(Idle, |answer.value| + TableDecorations, m.pending[1..]))
             else None
           case Failure(f) =>
             if e == Fail(f) then Some(m.(phase := Halted)) else None)
      case Halted => None
  }

  function Run(view: View, m: Monitor, tr: seq<Event>): Option<Monitor>
    decreases |tr|
  {
    if |tr| == 0 then Some(m)
    else
      match Step(view, m, tr[0])
      case None => None
      case Some(m') => Run(view, m', tr[1..])
  }

  /** Every answer used up, or stopped by a fault. */
  predicate Settled(m: Monitor) {
    (m.phase == Idle && |m.pending| == 0) || m.phase == Halted
  }

  /** A trace the monitor accepts for these answers, ending settled. */
  predicate Monitored(cycles: seq<Result<seq<Instance>, string>>, view: View, tr: seq<Event>) {
    Run(view, Start(cycles), tr).Some? && Settled(Run(view, Start(cycles), tr).value)
  }

  lemma {:induction false} RunAppend(view: View, m: Monitor, a: seq<Event>, b: seq<Event>)
    ensures Run(view, m, a + b) == match Run(view, m, a) case None => None case Some(m') => Run(view, m', b)
    decreases |a|
  {
    if |a| > 0 {
      assert (a + b)[0] == a[0];
      assert (a + b)[1..] == a[1..] + b;
      match Step(view, m, a[0])
      case None =>
      case Some(m') => RunAppend(view, m', a[1..], b);
    } else {
      assert a + b == b;
    }
  }

  lemma RunSingle(view: View, m: Monitor, e: Event)
    ensures Run(view, m, [e]) == Step(view, m, e)
  {
    assert [e][1..] == [];
  }

  /** The opening of a cycle with a good answer: tunnel, describe, direct,
      and the move up, leaving the monitor ready to draw. */
  lemma OpeningRuns(view: View, above: nat, cycles: seq<Result<seq<Instance>, string>>)
    requires |cycles| > 0 && cycles[0].Success?
    ensures Run(view, Monitor(Idle, above, cycles),
                [ConfigureHTTP(true), Describe(true), ConfigureHTTP(false)] + GoUp(above))
            == Some(Monitor(Direct, 0, cycles))
  {
    var m := Monitor(Idle, above, cycles);
    var a := [ConfigureHTTP(true), Describe(true), ConfigureHTTP(false)];
    RunAppend(view, m, [ConfigureHTTP(true)], [Describe(true), ConfigureHTTP(false)]);
    RunAppend(view, m.(phase := Tunnelled), [Describe(true)], [ConfigureHTTP(false)]);
    RunSingle(view, m, ConfigureHTTP(true));
    RunSingle(view, m.(phase := Tunnelled), Describe(true));
    RunSingle(view, m.(phase := Described), ConfigureHTTP(false));
    assert Run(view, m, a) == Some(m.(phase := Direct));
    RunAppend(view, m, a, GoUp(above));
    if above > 0 {
      RunSingle(view, m.(phase := Direct), CursorUp(above));
    }
  }

  lemma {:induction false} WatchFromMonitored(cycles: seq<Result<seq<Instance>, string>>, view: View, above: nat)
    ensures Run(view, Monitor(Idle, above, cycles), WatchFrom(cycles, view, above)).Some?
    ensures Settled(Run(view, Monitor(Idle, above, cycles), WatchFrom(cycles, view, above)).value)
    decreases |cycles|
  {
    var m := Monitor(Idle, above, cycles);
    if |cycles| > 0 {
      var a := [ConfigureHTTP(true), Describe(true), ConfigureHTTP(false)];
      match cycles[0]
      case Failure(e) =>
        RunAppend(view, m, [ConfigureHTTP(true)], [Describe(false), Fail(DescribeFailed(e))]);
        RunAppend(view, m.(phase := Tunnelled), [Describe(false)], [Fail(DescribeFailed(e))]);
        RunSingle(view, m, ConfigureHTTP(true));
        RunSingle(view, m.(phase := Tunnelled), Describe(false));
        RunSingle(view, m.(phase := Refused), Fail(DescribeFailed(e)));
      case Success(instances) =>
        OpeningRuns(view, above, cycles);
        var d := Monitor(Direct, 0, cycles);
        match ShowInstances(instances, view)
        case Failure(f) =>
          RunAppend(view, m, a + GoUp(above), [Fail(f)]);
          RunSingle(view, d, Fail(f));
        case Success(t) =>
          var rest := WatchFrom(cycles[1..], view, |instances| + TableDecorations);
          assert WatchFrom(cycles, view, above) == (a + GoUp(above) + [Render(t)]) + rest;
          RunAppend(view, m, a + GoUp(above), [Render(t)]);
          RunSingle(view, d, Render(t));
          RunAppend(view, m, a + GoUp(above) + [Render(t)], rest);
          WatchFromMonitored(cycles[1..], view, |instances| + TableDecorations);
    }
  }

  // ---------------------------------------------------------------------
  // What the monitor guarantees

  lemma HaltedAcceptsNothing(view: View, m: Monitor, tr: seq<Event>)
    requires m.phase == Halted && Run(view, m, tr).Some?
    ensures |tr| == 0
  {
  }

  /** Every describe directly follows the switch to the tunnel. */
  lemma {:induction false} DescribeAfterTunnel(view: View, m: Monitor, tr: seq<Event>)
    requires Run(view, m, tr).Some?
    ensures forall i :: 0 <= i < |tr| && tr[i].Describe? ==>
              if i == 0 then m.phase == Tunnelled else tr[i - 1] == ConfigureHTTP(true)
    decreases |tr|
  {
    if |tr| > 0 {
      var m' := Step(view, m, tr[0]).value;
      DescribeAfterTunnel(view, m', tr[1..]);
      forall i | 0 <= i < |tr| && tr[i].Describe?
        ensures if i == 0 then m.phase == Tunnelled else tr[i - 1] == ConfigureHTTP(true)
      {
        if i > 0 {
          assert tr[1..][i - 1] == tr[i];
          if i > 1 {
            assert tr[1..][i - 2] == tr[i - 1];
          }
        }
      }
    }
  }

  /** Every good describe is directly followed by the switch to direct. */
  lemma {:induction false} DescribedThenDirect(view: View, m: Monitor, tr: seq<Event>)
    requires Run(view, m, tr).Some? && Settled(Run(view, m, tr).value)
    ensures m.phase == Described ==> |tr| > 0 && tr[0] == ConfigureHTTP(false)
    ensures forall i :: 0 <= i < |tr| && tr[i] == Describe(true) ==>
              i + 1 < |tr| && tr[i + 1] == ConfigureHTTP(false)
    decreases |tr|
  {
    if |tr| > 0 {
      var m' := Step(view, m, tr[0]).value;
      DescribedThenDirect(view, m', tr[1..]);
      forall i | 0 <= i < |tr| && tr[i] == Describe(true)
        ensures i + 1 < |tr| && tr[i + 1] == ConfigureHTTP(false)
      {
        assert tr[1..][i] == tr[i + 1] || i + 1 == |tr|;
        if i > 0 {
          assert tr[1..][i - 1] == tr[i];
        }
      }
    }
  }

  /** A failed describe is directly followed by the fault, and nothing else
      comes: no table is drawn after it. */
  lemma {:induction false} RefusedThenHalt(view: View, m: Monitor, tr: seq<Event>)
    requires Run(view, m, tr).Some? && Settled(Run(view, m, tr).value)
    ensures m.phase == Refused ==> |tr| == 1 && tr[0].Fail?
    ensures forall i :: 0 <= i < |tr| && tr[i] == Describe(false) ==>
              i + 2 == |tr| && tr[i + 1].Fail?
    decreases |tr|
  {
    if |tr| > 0 {
      var m' := Step(view, m, tr[0]).value;
      RefusedThenHalt(view, m', tr[1..]);
      if m.phase == Refused {
        HaltedAcceptsNothing(view, m', tr[1..]);
      }
      forall i | 0 <= i < |tr| && tr[i] == Describe(false)
        ensures i + 2 == |tr| && tr[i + 1].Fail?
      {
        if i > 0 {
          assert tr[1..][i - 1] == tr[i];
        } else {
          assert tr[1..][0] == tr[1];
        }
      }
    }
  }

  /** Watch.  Its trace is accepted by the monitor for `cycles`: cycle k
      runs ConfigureHTTP(true), Describe(cycles[k].Success?),
      ConfigureHTTP(false), a move up over len(instances of cycle k-1) +
      N_TABLE_DECORATIONS lines (none in the first cycle), and the table for
      cycles[k]; the trace stops at the first failed answer or panic, and
      otherwise uses up every answer.  Each describe sits between the two
      switches, and a failed describe is fatal before any render. */
  function Watch(cycles: seq<Result<seq<Instance>, string>>, view: View): (tr: seq<Event>)
    requires |cycles| > 0
    ensures Monitored(cycles, view, tr)
    ensures forall i :: 0 <= i < |tr| && tr[i].Describe? ==> 0 < i && tr[i - 1] == ConfigureHTTP(true)
    ensures forall i :: 0 <= i < |tr| && tr[i] == Describe(true) ==>
              i + 1 < |tr| && tr[i + 1] == ConfigureHTTP(false)
    ensures forall i :: 0 <= i < |tr| && tr[i] == Describe(false) ==>
              i + 2 == |tr| && tr[i + 1].Fail?
  {
    var tr := WatchFrom(cycles, view, 0);
    WatchFromMonitored(cycles, view, 0);
    DescribeAfterTunnel(view, Start(cycles), tr);
    DescribedThenDirect(view, Start(cycles), tr);
    RefusedThenHalt(view, Start(cycles), tr);
    tr
  }

  /** The first cycle draws without moving the cursor; the second moves up
      over exactly the first table. */
  lemma FirstTwoCycles(cycles: seq<Result<seq<Instance>, string>>, view: View)
    requires |cycles| >= 2 && cycles[0].Success? && cycles[1].Success?
    requires ShowInstances(cycles[0].value, view).Success?
    requires ShowInstances(cycles[1].value, view).Success?
    ensures var tr := Watch(cycles, view);
      && |tr| >= 9
      && tr[..4] == [ConfigureHTTP(true), Describe(true), ConfigureHTTP(false),
                     Render(ShowInstances(cycles[0].value, view).value)]
      && tr[4..9] == [ConfigureHTTP(true), Describe(true), ConfigureHTTP(false),
                      CursorUp(|cycles[0].value| + TableDecorations),
                      Render(ShowInstances(cycles[1].value, view).value)]
  {
    var t0 := ShowInstances(cycles[0].value, view).value;
    var t1 := ShowInstances(cycles[1].value, view).value;
    var above := |cycles[0].value| + TableDecorations;
    var rest := WatchFrom(cycles[2..], view, |cycles[1].value| + TableDecorations);
    assert cycles[1..][1..] == cycles[2..];
    assert WatchFrom(cycles[1..], view, above)
        == [ConfigureHTTP(true), Describe(true), ConfigureHTTP(false), CursorUp(above), Render(t1)] + rest;
  }
}
