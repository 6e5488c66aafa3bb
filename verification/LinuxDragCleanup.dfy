/**
 That no helper process is left behind: when a drag is over in any way, timers are on that end
 the helper, unless it has exited or is just about to.
 */
module LinuxDragCleanup {
  import opened LinuxDrag
  import opened LinuxDragSafety

  predicate Killed(log: seq<Entry>) { Signalled(Kill, true) in log }

  /** The helper is killed sooner or later. */
  predicate Doomed(a: Adapter) { a.timers.terminate || a.timers.forceKill || Killed(a.log) }

  /** The drag needs no helper any more: it is over, cancelled, disposed of, or cannot be read. */
  predicate Forsaken(f: Flags) { f.terminal || f.cancelled || !f.registered || f.readError }

  /** As long as the helper has not exited, something is going to end it once it is not needed. */
  predicate Tended(a: Adapter) {
    !a.flags.helperExited ==>
      && (Forsaken(a.flags) ==> Doomed(a))
      && (a.flags.dragReleased && a.flags.contentComplete ==> Doomed(a) || a.timers.completedClose)
      && (a.flags.dragReleased && a.flags.internalTarget ==> a.flags.terminal)
  }

  lemma KilledLater(before: seq<Entry>, after: seq<Entry>)
    requires before <= after
    ensures Killed(before) ==> Killed(after)
  {
    if Killed(before) {
      var i :| 0 <= i < |before| && before[i] == Signalled(Kill, true);
      assert after[i] == before[i];
    }
  }

  lemma ScheduledIsDoomed(a: Adapter)
    ensures a.flags.helperExited || Doomed(ScheduleTermination(a))
  {
  }

  lemma FailTends(a: Adapter, byTimer: bool)
    requires Tended(a) && Sound(a)
    ensures Tended(Fail(a, byTimer))
  {
    hide Lawful, Seeing, Agrees, Killed;
  }

  lemma LineTends(a: Adapter, line: Line)
    requires Tended(a) && Sound(a) && line != ClosedLine
    ensures Tended(Read(a, line))
  {
    hide Lawful, Seeing, Agrees, Killed, Fail;
    StepExtends(a, Stdout(line));
    KilledLater(a.log, Read(a, line).log);
    if line.ReadyLine? { FailTends(a, false); }
  }

  lemma InternalTends(a: Adapter)
    ensures Tended(FinishInternal(a))
  {
    hide Killed;
  }

  lemma SettlingTends(a: Adapter)
    requires Tended(a) && Sound(a)
    ensures Tended(Finalize(a))
  {
    hide Lawful, Seeing, Agrees, Killed, FinishInternal;
    StepExtends(a, FinalizeTimer);
    KilledLater(a.log, Finalize(a).log);
    var fired := a.(timers := a.timers.(finalize := false));
    InternalTends(Log(fired, [Event(Released)]).(flags := a.flags.(dragReleased := true)));
  }

  lemma ActivationTends(a: Adapter, throws: bool)
    requires Tended(a) && Sound(a)
    ensures Tended(Step(a, Activate(throws)))
  {
    hide Lawful, Seeing, Agrees, Killed;
    StepExtends(a, Activate(throws));
    KilledLater(a.log, Step(a, Activate(throws)).log);
  }

  lemma TargetTends(a: Adapter, internal: bool)
    requires Tended(a) && Sound(a)
    ensures Tended(Step(a, SetInternalTarget(internal)))
  {
    hide Lawful, Seeing, Agrees, Killed, FinishInternal;
    StepExtends(a, SetInternalTarget(internal));
    KilledLater(a.log, Step(a, SetInternalTarget(internal)).log);
    InternalTends(Log(a, [TargetSet(internal)]).(flags := a.flags.(internalTarget := internal)));
  }

  lemma TimerTends(a: Adapter, input: Input)
    requires Tended(a) && Sound(a)
    requires input.CompletedCloseTimer? || input.TerminateTimer? || input.ForceKillTimer?
    ensures Tended(Step(a, input))
  {
    hide Lawful, Seeing, Agrees, Killed;
    StepExtends(a, input);
    KilledLater(a.log, Step(a, input).log);
    assert Killed(a.log + [Signalled(Kill, true)]) by { KilledNow(a.log); }
  }

  lemma KilledNow(log: seq<Entry>)
    ensures Killed(log + [Signalled(Kill, true)])
  {
    assert (log + [Signalled(Kill, true)])[|log|] == Signalled(Kill, true);
  }

  lemma EndTends(a: Adapter, input: Input)
    requires Tended(a) && Sound(a)
    requires input.Cancel? || input.Dispose? || input.StartupTimeout? || input.ChildError? || input.ChildClose?
    ensures Tended(Step(a, input))
  {
    hide Lawful, Seeing, Agrees, Killed, Fail, Verdict;
    match input
    case StartupTimeout =>
      FiredKeeps(a);
      FailTends(a.(timers := a.timers.(startup := false)), true);
    case ChildError => FailTends(a, false);
    case ChildClose(clean) => ExitTends(a, clean);
    case _ =>
  }

  lemma ExitTends(a: Adapter, clean: bool)
    ensures Close(a, clean).flags.helperExited
  {
    hide Fail, FinishAfterClose;
    SameRegistration(Left(a));
    FailedHasExited(Left(a));
  }

  lemma FailedHasExited(a: Adapter)
    ensures Fail(a, false).flags.helperExited == a.flags.helperExited
  {
  }

  lemma StepTends(a: Adapter, input: Input)
    requires Tended(a) && Sound(a) && input != Stdout(ClosedLine)
    ensures Tended(Step(a, input))
  {
    hide Step, Tended, Sound;
    match input
    case Activate(throws) => ActivationTends(a, throws);
    case SetInternalTarget(internal) => TargetTends(a, internal);
    case Stdout(line) => ReadTends(a, line);
    case FinalizeTimer => SettleTends(a);
    case CompletedCloseTimer => TimerTends(a, input);
    case TerminateTimer => TimerTends(a, input);
    case ForceKillTimer => TimerTends(a, input);
    case _ => EndTends(a, input);
  }

  lemma ReadTends(a: Adapter, line: Line)
    requires Tended(a) && Sound(a) && line != ClosedLine
    ensures Tended(Step(a, Stdout(line)))
  {
    hide Read, Tended, Sound;
    LineTends(a, line);
  }

  lemma SettleTends(a: Adapter)
    requires Tended(a) && Sound(a)
    ensures Tended(Step(a, FinalizeTimer))
  {
    hide Finalize, Tended, Sound;
    SettlingTends(a);
  }

  /** Nobody disposed of a drag that is still registered. */
  predicate Disposed(inputs: seq<Input>, a: Adapter) { Dispose in inputs ==> !a.flags.registered }

  lemma {:induction false} RunTends(a: Adapter, inputs: seq<Input>)
    requires Tended(a) && Sound(a) && Stdout(ClosedLine) !in inputs
    ensures Tended(Run(a, inputs)) && Sound(Run(a, inputs)) && Disposed(inputs, Run(a, inputs))
    ensures !a.flags.registered ==> !Run(a, inputs).flags.registered
    decreases |inputs|
  {
    hide Step, Tended, Sound;
    if inputs != [] {
      StepTends(a, inputs[0]);
      StepKeeps(a, inputs[0]);
      StaysUnregistered(a, inputs[0]);
      RunTends(Step(a, inputs[0]), inputs[1..]);
    }
  }

  lemma StaysUnregistered(a: Adapter, input: Input)
    ensures !a.flags.registered || input.Dispose? ==> !Step(a, input).flags.registered
  {
    hide Fail, Finalize, Read, StartDrag, FinishInternal, Verdict;
    ScheduledIsRegistered();
    match input
    case Activate(throws) =>
      StartStaysUnregistered(Log(a, [ActivateCalled]).(flags := a.flags.(activated := true)), throws);
    case Stdout(line) => LineStaysUnregistered(a, line);
    case StartupTimeout => FailStaysUnregistered(a.(timers := a.timers.(startup := false)), true);
    case FinalizeTimer => SettlingStaysUnregistered(a);
    case ChildError => FailStaysUnregistered(a, false);
    case ChildClose(clean) => VerdictStaysUnregistered(Left(a), clean);
    case _ =>
  }

  lemma ScheduledIsRegistered()
    ensures forall a :: ScheduleTermination(a).flags == a.flags
    ensures forall a :: FinishInternal(a).flags.registered == a.flags.registered
  {
  }

  lemma StartStaysUnregistered(a: Adapter, throws: bool)
    ensures StartDrag(a, throws).flags.registered == a.flags.registered
  {
  }

  lemma FailStaysUnregistered(a: Adapter, byTimer: bool)
    ensures !a.flags.registered ==> !Fail(a, byTimer).flags.registered
  {
  }

  lemma SameRegistration(a: Adapter)
    ensures ScheduleTermination(a).flags == a.flags && ScheduleCompletedClose(a).flags == a.flags
    ensures FinishAfterClose(a).flags.registered == a.flags.registered
    ensures FinishAfterClose(a).flags.helperExited == a.flags.helperExited
    ensures FinishInternal(a).flags.registered == a.flags.registered
  {
    hide ScheduleTermination, ScheduleCompletedClose, FinishAfterClose, FinishInternal;
    SameFlags(a);
    ClosingRegistration(a);
    InternalRegistration(a);
  }

  lemma SameFlags(a: Adapter)
    ensures ScheduleTermination(a).flags == a.flags && ScheduleCompletedClose(a).flags == a.flags
  {
    hide Delivered;
  }

  lemma ClosingRegistration(a: Adapter)
    ensures FinishAfterClose(a).flags.registered == a.flags.registered
    ensures FinishAfterClose(a).flags.helperExited == a.flags.helperExited
  {
    hide Outcome, ClearTermination;
  }

  lemma InternalRegistration(a: Adapter)
    ensures FinishInternal(a).flags.registered == a.flags.registered
  {
    hide ClearTermination;
  }

  lemma ReadyStaysUnregistered(a: Adapter, files: bool)
    ensures !a.flags.registered ==> !ReadReady(a, files).flags.registered
  {
    hide Fail;
    FailStaysUnregistered(a, false);
  }

  lemma LineStaysUnregistered(a: Adapter, line: Line)
    ensures !a.flags.registered ==> !Read(a, line).flags.registered
  {
    hide ReadReady, ScheduleTermination, ScheduleCompletedClose, FinishAfterClose;
    match line
    case ConsumingLine =>
    case CompleteLine =>
      SameRegistration(Log(a, [Event(ContentComplete)]).(flags := a.flags.(contentComplete := true)));
    case ReadErrorLine =>
      SameRegistration(Log(a, [Event(ContentError), Command("shutdown")]).(flags := a.flags.(readError := true)));
    case ClosingLine =>
      SameRegistration(a);
      SameRegistration(Log(a, [CancelNoted]).(flags := a.flags.(cancelled := true)));
    case ClosedLine => SameRegistration(a);
    case ReadyLine(files) => ReadyStaysUnregistered(a, files);
  }

  lemma SettlingStaysUnregistered(a: Adapter)
    ensures Finalize(a).flags.registered == a.flags.registered
  {
    hide FinishInternal, ScheduleCompletedClose, InternallyDropped;
    var fired := a.(timers := a.timers.(finalize := false));
    var released := Log(fired, [Event(Released)]).(flags := a.flags.(dragReleased := true));
    SameRegistration(released);
    SameRegistration(Log(released, [Command("release")]));
  }

  lemma VerdictStaysUnregistered(a: Adapter, clean: bool)
    ensures !a.flags.registered ==> !Verdict(a, clean).flags.registered
  {
    hide Fail, FinishAfterClose;
    FailStaysUnregistered(a, false);
    SameRegistration(a);
  }

  /** The timers that end a helper, in the order in which they set each other. */
  const LAST: seq<Input> := [CompletedCloseTimer, TerminateTimer, ForceKillTimer]

  lemma TimersKill(a: Adapter)
    requires Tended(a) && Sound(a) && !a.flags.helperExited
    requires Forsaken(a.flags) || (a.flags.dragReleased && a.flags.contentComplete)
    ensures Killed(Step(Step(Step(a, CompletedCloseTimer), TerminateTimer), ForceKillTimer).log)
  {
    hide Step, Sound, Killed;
    var b := Step(a, CompletedCloseTimer);
    var c := Step(b, TerminateTimer);
    StepKeeps(a, CompletedCloseTimer);
    StepKeeps(b, TerminateTimer);
    StepExtends(a, CompletedCloseTimer);
    StepExtends(b, TerminateTimer);
    StepExtends(c, ForceKillTimer);
    KilledLater(a.log, b.log);
    KilledLater(b.log, c.log);
    KilledLater(c.log, Step(c, ForceKillTimer).log);
    FirstDooms(a);
    if !Killed(a.log) {
      ThenArms(b);
      ThenKills(c);
    }
  }

  lemma FirstDooms(a: Adapter)
    requires Tended(a) && !a.flags.helperExited
    requires Forsaken(a.flags) || (a.flags.dragReleased && a.flags.contentComplete)
    ensures var b := Step(a, CompletedCloseTimer);
            !b.flags.helperExited && (Killed(a.log) || b.timers.terminate || b.timers.forceKill)
  {
    hide Killed;
  }

  lemma ThenArms(a: Adapter)
    requires !a.flags.helperExited && (a.timers.terminate || a.timers.forceKill)
    ensures Step(a, TerminateTimer).timers.forceKill && !Step(a, TerminateTimer).flags.helperExited
  {
  }

  lemma ThenKills(a: Adapter)
    requires !a.flags.helperExited && a.timers.forceKill
    ensures Killed(Step(a, ForceKillTimer).log)
  {
    KilledNow(a.log);
  }

  /** A drag that was released and has all its content. */
  predicate IsDelivered(log: seq<Entry>) { Event(Released) in log && Event(ContentComplete) in log }

  /** Once a drag is over, cancelled, disposed of, cannot be read or is delivered, the timers that
      are on kill the helper in the end, unless it exits or reports that it has closed. */
  lemma NoHelperIsLeftBehind(inputs: seq<Input>)
    requires Stdout(ClosedLine) !in inputs
    requires var log := LogOf(inputs);
             || SeesTerminal(log) || CancelNoted in log || Dispose in inputs
             || Event(ContentError) in log || IsDelivered(log)
    requires Exited !in LogOf(inputs)
    ensures Signalled(Kill, true) in LogOf(inputs + [CompletedCloseTimer, TerminateTimer, ForceKillTimer])
  {
    hide Run, Step, Tended, Lawful, Seeing;
    LaunchSound();
    LaunchTended();
    RunTends(Launch(), inputs);
    var a := Run(Launch(), inputs);
    SeenIsLogged(a.log);
    TimersKill(a);
    RunOn(Launch(), inputs, LAST);
    assert Run(a, LAST) == Step(Step(Step(a, LAST[0]), LAST[1]), LAST[2]) by { Thrice(a); }
  }

  lemma LaunchTended()
    ensures Tended(Launch())
  {
  }

  lemma {:induction false} RunOn(a: Adapter, first: seq<Input>, second: seq<Input>)
    ensures Run(a, first + second) == Run(Run(a, first), second)
    decreases |first|
  {
    hide Step;
    if first == [] {
      assert first + second == second;
    } else {
      assert (first + second)[1..] == first[1..] + second;
      RunOn(Step(a, first[0]), first[1..], second);
    }
  }

  lemma Thrice(a: Adapter)
    ensures Run(a, LAST) == Step(Step(Step(a, LAST[0]), LAST[1]), LAST[2])
  {
    hide Step;
    var b := Step(a, LAST[0]);
    assert LAST[1..] == [LAST[1], LAST[2]] && [LAST[1], LAST[2]][1..] == [LAST[2]] && [LAST[2]][1..] == [];
    assert Run(a, LAST) == Run(b, LAST[1..]);
    assert Run(b, [LAST[1], LAST[2]]) == Run(Step(b, LAST[1]), [LAST[2]]);
  }

  // ---------------------------------------------------------------- a helper that is trusted

  /** A drag that is delivered, whose helper reports that it has closed. */
  const CLOSED: seq<Input> :=
    [Stdout(ReadyLine(true)), Activate(false), FinalizeTimer, Stdout(CompleteLine), Stdout(ClosedLine)]

  predicate IsTimer(input: Input) {
    input.StartupTimeout? || input.FinalizeTimer? || input.CompletedCloseTimer? || input.TerminateTimer?
    || input.ForceKillTimer?
  }

  /** No timer is on. */
  predicate Quiet(a: Adapter) { a.timers == Timers(false, false, false, false, false) }

  lemma {:induction false} QuietStays(a: Adapter, timers: seq<Input>)
    requires Quiet(a) && forall input :: input in timers ==> IsTimer(input)
    ensures Run(a, timers) == a
    decreases |timers|
  {
    if timers != [] {
      assert IsTimer(timers[0]);
      assert Step(a, timers[0]) == a;
      QuietStays(a, timers[1..]);
    }
  }

  lemma ClosedRun()
    ensures Quiet(Run(Launch(), CLOSED)) && !Killed(LogOf(CLOSED)) && Exited !in LogOf(CLOSED)
  {
    hide Run, Step;
    var a := Step(Launch(), CLOSED[0]);
    var b := Step(a, CLOSED[1]);
    var c := Step(b, CLOSED[2]);
    var d := Step(c, CLOSED[3]);
    var e := Step(d, CLOSED[4]);
    Unfolded(Launch(), CLOSED, 0);
    Unfolded(a, CLOSED, 1);
    Unfolded(b, CLOSED, 2);
    Unfolded(c, CLOSED, 3);
    Unfolded(d, CLOSED, 4);
    assert CLOSED[0..] == CLOSED && CLOSED[5..] == [];
    assert Run(e, []) == e by { RunNothing(e); }
    Settling();
    ClosedEnd();
  }

  lemma RunNothing(a: Adapter)
    ensures Run(a, []) == a
  {
  }

  /** How such a drag goes, up to its release and from there. */
  lemma Settling()
    ensures Step(Step(Step(Launch(), CLOSED[0]), CLOSED[1]), CLOSED[2]) == ON_RELEASE
  {
    var a := Step(Launch(), CLOSED[0]);
    assert a.log == [Event(Ready)];
    var b := Step(a, CLOSED[1]);
    assert b.log == [Event(Ready), ActivateCalled, Event(Started), DragBegun, Event(Motion)];
  }

  const ON_RELEASE :=
    Adapter(Flags(true, true, true, true, true, true, false, false, false, false, false, false, false),
            Timers(false, false, false, false, false),
            [Event(Ready), ActivateCalled, Event(Started), DragBegun, Event(Motion), Event(Released),
             Command("release")])

  lemma ClosedEnd()
    ensures var e := Step(Step(ON_RELEASE, CLOSED[3]), CLOSED[4]); Quiet(e) && !Killed(e.log) && Exited !in e.log
  {
    var d := Step(ON_RELEASE, CLOSED[3]);
    assert d.log == ON_RELEASE.log + [Event(ContentComplete)];
    assert Step(d, CLOSED[4]).log == d.log + [Event(Completed)];
  }

  lemma Unfolded(a: Adapter, inputs: seq<Input>, n: nat)
    requires n < |inputs|
    ensures Run(a, inputs[n..]) == Run(Step(a, inputs[n]), inputs[n + 1..])
  {
    hide Step;
    assert inputs[n..][1..] == inputs[n + 1..];
  }

  /** A helper that reports that it has closed is left to exit by itself, however long it takes:
      that is why `NoHelperIsLeftBehind` excludes that line. */
  lemma ClosedHelperIsTrusted(timers: seq<Input>)
    requires forall input :: input in timers ==> IsTimer(input)
    ensures Signalled(Kill, true) !in LogOf(CLOSED + timers) && Exited !in LogOf(CLOSED + timers)
  {
    hide Run;
    ClosedRun();
    QuietStays(Run(Launch(), CLOSED), timers);
    RunOn(Launch(), CLOSED, timers);
  }
}
