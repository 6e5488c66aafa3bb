/**
 That a drag completes: whatever else comes, a drag that gets ready, is activated, has its
 content read and settles is reported as completed when the helper ends.
 */
module LinuxDragCompletion {
  import opened LinuxDrag
  import opened LinuxDragSafety

  // ---------------------------------------------------------------- undisturbed runs

  /** Nothing that goes wrong: no cancellation, read error, timeout, failing start or child error,
      no helper without files, no disposal. */
  predicate Harmless(input: Input) {
    match input
    case Activate(throws) => !throws
    case Stdout(line) => line != ReadErrorLine && line != ReadyLine(false)
    case SetInternalTarget(_) => true
    case FinalizeTimer => true
    case CompletedCloseTimer => true
    case TerminateTimer => true
    case ForceKillTimer => true
    case _ => false
  }

  predicate IsClosing(input: Input) { input == Stdout(ClosingLine) || input == Stdout(ClosedLine) }

  /** The helper begins to close only after all content was read. */
  predicate ClosesLate(inputs: seq<Input>) {
    forall i :: 0 <= i < |inputs| && IsClosing(inputs[i]) ==> Stdout(CompleteLine) in inputs[..i]
  }

  predicate Undisturbed(inputs: seq<Input>) {
    (forall input :: input in inputs ==> Harmless(input)) && ClosesLate(inputs)
  }

  /** One input comes, some time later another. */
  predicate Follows(inputs: seq<Input>, first: Input, second: Input) {
    exists j :: 0 <= j < |inputs| && FollowsAt(inputs, first, second, j)
  }

  predicate FollowsAt(inputs: seq<Input>, first: Input, second: Input, j: nat) {
    j < |inputs| && inputs[j] == second && first in inputs[..j]
  }

  /** The helper gets ready, then the drag is activated, and then it settles. */
  predicate Settles(inputs: seq<Input>) {
    exists j :: 0 <= j < |inputs| && SettlesAt(inputs, j)
  }

  predicate SettlesAt(inputs: seq<Input>, j: nat) {
    j < |inputs| && inputs[j] == FinalizeTimer && Follows(inputs[..j], Stdout(ReadyLine(true)), Activate(false))
  }

  // ---------------------------------------------------------------- what holds on the way

  /** Nothing has gone wrong, and a drag that is over has completed. */
  predicate Well(a: Adapter) {
    && a.flags.registered && !a.flags.cancelled && !a.flags.readError && !a.flags.helperExited
    && (a.flags.settled <==> a.flags.ready)
    && (a.flags.terminal ==> IsCompleted(a.log))
    && (a.flags.dragStarted ==> a.timers.finalize || a.flags.dragReleased || a.flags.terminal)
  }

  predicate IsCompleted(log: seq<Entry>) { Event(Completed) in log }

  lemma CompletedLater(log: seq<Entry>, more: seq<Entry>)
    ensures IsCompleted(log) || Event(Completed) in more ==> IsCompleted(log + more)
  {
  }

  /** How far it has got; none of this is lost. */
  predicate Further(a: Adapter, b: Adapter) {
    && (a.flags.ready ==> b.flags.ready)
    && (a.flags.dragStarted ==> b.flags.dragStarted)
    && (a.flags.dragReleased ==> b.flags.dragReleased)
    && (a.flags.contentComplete ==> b.flags.contentComplete)
    && (a.flags.terminal ==> b.flags.terminal)
  }

  lemma StaysWell(a: Adapter, input: Input)
    requires Well(a) && Harmless(input) && (IsClosing(input) ==> a.flags.contentComplete)
    ensures Well(Step(a, input)) && Further(a, Step(a, input))
    ensures input == Stdout(ReadyLine(true)) ==> Step(a, input).flags.ready
    ensures input == Stdout(CompleteLine) ==> Step(a, input).flags.contentComplete
    ensures input == Activate(false) && a.flags.ready ==>
              Step(a, input).flags.dragStarted || Step(a, input).flags.terminal
    ensures input == FinalizeTimer && a.flags.dragStarted ==>
              Step(a, input).flags.dragReleased || Step(a, input).flags.terminal
  {
    hide Well, Further, Read, Finalize, StartDrag, FinishInternal;
    match input
    case Stdout(line) => LineStaysWell(a, line);
    case FinalizeTimer => SettlingStaysWell(a);
    case Activate(throws) => ActivationStaysWell(a);
    case SetInternalTarget(internal) => TargetStaysWell(a, internal);
    case _ => TimerStaysWell(a, input);
  }

  lemma TimerStaysWell(a: Adapter, input: Input)
    requires Well(a) && (input.CompletedCloseTimer? || input.TerminateTimer? || input.ForceKillTimer?)
    ensures Well(Step(a, input)) && Further(a, Step(a, input))
  {
    hide IsCompleted;
    CompletedLater(a.log, [Command("shutdown")]);
    CompletedLater(a.log, [Signalled(Terminate, true)]);
    CompletedLater(a.log, [Signalled(Kill, true)]);
  }

  lemma LineStaysWell(a: Adapter, line: Line)
    requires Well(a) && Harmless(Stdout(line)) && (IsClosing(Stdout(line)) ==> a.flags.contentComplete)
    ensures Well(Read(a, line)) && Further(a, Read(a, line))
    ensures line == ReadyLine(true) ==> Read(a, line).flags.ready
    ensures line == CompleteLine ==> Read(a, line).flags.contentComplete
  {
    hide Read, Well, Further;
    match line
    case ConsumingLine => ConsumingStaysWell(a);
    case CompleteLine => CompleteStaysWell(a);
    case ClosingLine => ClosingStaysWell(a);
    case ClosedLine => ClosedStaysWell(a);
    case ReadyLine(files) => ReadyStaysWell(a);
  }

  lemma ConsumingStaysWell(a: Adapter)
    requires Well(a)
    ensures var r := Read(a, ConsumingLine); Well(r) && Further(a, r)
  {
    Logs(a, a, Event(Consuming));
  }

  lemma CompleteStaysWell(a: Adapter)
    requires Well(a)
    ensures var r := Read(a, CompleteLine); Well(r) && Further(a, r) && r.flags.contentComplete
  {
    hide ScheduleCompletedClose, Well;
    var read := a.(flags := a.flags.(contentComplete := true));
    Logs(a, read, Event(ContentComplete));
    TimersStay(Log(read, [Event(ContentComplete)]));
  }

  lemma ClosingStaysWell(a: Adapter)
    requires Well(a) && a.flags.contentComplete
    ensures var r := Read(a, ClosingLine); Well(r) && Further(a, r)
  {
    hide ScheduleTermination, Well;
    TimersStay(a);
  }

  lemma Logs(a: Adapter, b: Adapter, e: Entry)
    requires Well(a) && (a.flags.contentComplete ==> b.flags.contentComplete)
    requires b == a.(flags := a.flags.(contentComplete := b.flags.contentComplete))
    ensures Well(Log(b, [e])) && Further(a, Log(b, [e]))
  {
    hide IsCompleted;
    CompletedLater(a.log, [e]);
  }

  lemma TimersStay(a: Adapter)
    requires Well(a)
    ensures var r := ScheduleCompletedClose(a); Well(r) && r.flags == a.flags
    ensures var r := ScheduleTermination(a); Well(r) && r.flags == a.flags
  {
    hide IsCompleted;
  }

  lemma ClosedStaysWell(a: Adapter)
    requires Well(a) && a.flags.contentComplete
    ensures var r := Read(a, ClosedLine); Well(r) && Further(a, r)
  {
    hide IsCompleted;
    CompletedLater(a.log, [Event(Completed)]);
  }

  lemma ReadyStaysWell(a: Adapter)
    requires Well(a)
    ensures var r := Read(a, ReadyLine(true)); Well(r) && Further(a, r) && r.flags.ready
  {
    hide IsCompleted;
    CompletedLater(a.log, [Event(Ready)]);
  }

  lemma InternalStaysWell(a: Adapter)
    requires Well(a)
    ensures var r := FinishInternal(a); Well(r) && Further(a, r) && r.flags.terminal
  {
    hide IsCompleted;
    CompletedLater(a.log, [Event(Completed), Command("cancel")]);
  }

  lemma SettlingStaysWell(a: Adapter)
    requires Well(a)
    ensures var r := Finalize(a);
            Well(r) && Further(a, r) && (a.flags.dragStarted ==> r.flags.dragReleased || r.flags.terminal)
  {
    hide FinishInternal;
    var fired := a.(timers := a.timers.(finalize := false));
    var released := Log(fired, [Event(Released)]).(flags := a.flags.(dragReleased := true));
    if a.timers.finalize && !a.flags.terminal { InternalStaysWell(released); }
  }

  lemma ActivationStaysWell(a: Adapter)
    requires Well(a)
    ensures var r := Step(a, Activate(false));
            Well(r) && Further(a, r) && (a.flags.ready ==> r.flags.dragStarted || r.flags.terminal)
  {
  }

  lemma TargetStaysWell(a: Adapter, internal: bool)
    requires Well(a)
    ensures var r := Step(a, SetInternalTarget(internal)); Well(r) && Further(a, r)
  {
    hide FinishInternal;
    InternalStaysWell(Log(a, [TargetSet(internal)]).(flags := a.flags.(internalTarget := internal)));
  }

  // ---------------------------------------------------------------- runs

  /** The adapter shows what has come. */
  predicate Shows(inputs: seq<Input>, a: Adapter) {
    && Well(a)
    && (Stdout(ReadyLine(true)) in inputs ==> a.flags.ready)
    && (Stdout(CompleteLine) in inputs ==> a.flags.contentComplete)
    && (Follows(inputs, Stdout(ReadyLine(true)), Activate(false)) ==> a.flags.dragStarted || a.flags.terminal)
    && (Settles(inputs) ==> a.flags.dragReleased || a.flags.terminal)
  }

  lemma UndisturbedBefore(before: seq<Input>, last: Input)
    requires Undisturbed(before + [last])
    ensures Undisturbed(before) && Harmless(last) && (IsClosing(last) ==> Stdout(CompleteLine) in before)
  {
    var inputs := before + [last];
    assert last in inputs && inputs[..|before|] == before;
    forall i | 0 <= i < |before| && IsClosing(before[i]) ensures Stdout(CompleteLine) in before[..i] {
      assert inputs[i] == before[i] && inputs[..i] == before[..i];
    }
  }

  lemma FollowsLater(before: seq<Input>, last: Input, first: Input, second: Input)
    ensures Follows(before + [last], first, second)
            <==> Follows(before, first, second) || (last == second && first in before)
  {
    hide FollowsAt;
    var inputs := before + [last];
    forall j: nat { FollowsThere(before, last, first, second, j); }
    if last == second && first in before { assert FollowsAt(inputs, first, second, |before|); }
  }

  lemma FollowsThere(before: seq<Input>, last: Input, first: Input, second: Input, j: nat)
    ensures FollowsAt(before + [last], first, second, j)
            <==> if j == |before| then last == second && first in before else FollowsAt(before, first, second, j)
  {
    var inputs := before + [last];
    if j <= |before| { assert inputs[..j] == before[..j]; }
  }

  lemma SettlesLater(before: seq<Input>, last: Input)
    ensures Settles(before + [last])
            <==> Settles(before) || (last == FinalizeTimer && Follows(before, Stdout(ReadyLine(true)), Activate(false)))
  {
    hide SettlesAt, Follows;
    var inputs := before + [last];
    forall j: nat { SettlesThere(before, last, j); }
    if last == FinalizeTimer && Follows(before, Stdout(ReadyLine(true)), Activate(false)) {
      assert SettlesAt(inputs, |before|);
    }
  }

  lemma SettlesThere(before: seq<Input>, last: Input, j: nat)
    ensures SettlesAt(before + [last], j)
            <==> if j == |before|
                 then last == FinalizeTimer && Follows(before, Stdout(ReadyLine(true)), Activate(false))
                 else SettlesAt(before, j)
  {
    hide Follows;
    var inputs := before + [last];
    if j <= |before| { assert inputs[..j] == before[..j]; }
    if j == |before| { assert before[..j] == before; }
  }

  lemma RunSnoc(a: Adapter, before: seq<Input>, last: Input)
    ensures Run(a, before + [last]) == Step(Run(a, before), last)
    decreases |before|
  {
    hide Step;
    if before == [] {
      assert [last][1..] == [];
    } else {
      assert (before + [last])[1..] == before[1..] + [last];
      RunSnoc(Step(a, before[0]), before[1..], last);
    }
  }

  lemma {:induction false} RunShows(inputs: seq<Input>)
    requires Undisturbed(inputs)
    ensures Shows(inputs, Run(Launch(), inputs))
    decreases |inputs|
  {
    hide Step, Run, Follows, Settles, Undisturbed, Well, Further, IsClosing, Harmless;
    if inputs == [] {
      NothingShown();
    } else {
      var before, last := inputs[..|inputs| - 1], inputs[|inputs| - 1];
      assert inputs == before + [last];
      UndisturbedBefore(before, last);
      RunShows(before);
      RunSnoc(Launch(), before, last);
      StepShows(before, last, Run(Launch(), before));
    }
  }

  lemma NothingShown()
    ensures Shows([], Run(Launch(), []))
  {
  }

  lemma StepShows(before: seq<Input>, last: Input, a: Adapter)
    requires Shows(before, a) && Harmless(last) && (IsClosing(last) ==> Stdout(CompleteLine) in before)
    ensures Shows(before + [last], Step(a, last))
  {
    hide Step, Follows, Settles, Well, IsClosing, Harmless;
    StaysWell(a, last);
    FollowsLater(before, last, Stdout(ReadyLine(true)), Activate(false));
    SettlesLater(before, last);
  }

  /** A drag that gets ready, is activated after that, has all its content read and settles after
      the activation is reported as completed at the latest when the helper ends cleanly, by
      whatever other inputs these come, if nothing goes wrong. */
  lemma UndisturbedDragCompletes(inputs: seq<Input>)
    requires Undisturbed(inputs) && Settles(inputs) && Stdout(CompleteLine) in inputs
    ensures Event(Completed) in LogOf(inputs + [ChildClose(true)])
  {
    hide Run, Settles, Undisturbed, Follows;
    RunShows(inputs);
    RunSnoc(Launch(), inputs, ChildClose(true));
    var a := Run(Launch(), inputs);
    LaunchSound();
    RunKeeps(Launch(), inputs);
    CleanCloseCompletes(a);
  }

  lemma CleanCloseCompletes(a: Adapter)
    requires Well(a) && Sound(a) && a.flags.contentComplete && (a.flags.dragReleased || a.flags.terminal)
    ensures Event(Completed) in Step(a, ChildClose(true)).log
  {
    hide Lawful, Seeing, Agrees;
    var left := Left(a);
    assert left.flags.settled || left.flags.terminal;
    if !left.flags.terminal {
      assert FinishAfterClose(left).log == left.log + [Event(Completed)];
      assert Event(Completed) in left.log + [Event(Completed)];
    }
    assert a.log <= Step(a, ChildClose(true)).log by { StepExtends(a, ChildClose(true)); }
    if a.flags.terminal { StillThere(a.log, Step(a, ChildClose(true)).log, Event(Completed)); }
  }

  lemma StillThere(a: seq<Entry>, b: seq<Entry>, e: Entry)
    requires a <= b && e in a
    ensures e in b
  {
    var i :| 0 <= i < |a| && a[i] == e;
    assert b[i] == e;
  }
}
