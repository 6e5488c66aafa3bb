/**
 The rules the Linux adapter keeps in every run, as a monitor that reads the log, and what
 they say about positions in the log.
 */
module LinuxDragSafety {
  import opened LinuxDrag

  /** What has been seen so far. `armed` is an activation after the helper was ready. */
  datatype Seen = Seen(
    ready: bool,
    armed: bool,
    begun: bool,
    released: bool,
    cancelled: bool,
    internal: bool,
    content: bool,
    contentError: bool,
    terminal: bool,
    completed: bool,
    exited: bool,
    terminated: bool)

  predicate IsTerminal(e: Entry) { e == Event(Completed) || e == Event(Cancelled) || e == Event(Error) }

  function Note(s: Seen, e: Entry): Seen {
    Seen(s.ready || e == Event(Ready),
         if e == ActivateCalled then s.ready else s.armed,
         s.begun || e == DragBegun,
         s.released || e == Event(Released),
         s.cancelled || e == CancelNoted,
         if e.TargetSet? then e.internal else s.internal,
         s.content || e == Event(ContentComplete),
         s.contentError || e == Event(ContentError),
         s.terminal || IsTerminal(e),
         s.completed || e == Event(Completed),
         s.exited || e == Exited,
         s.terminated || (e.Signalled? && e.signal == Terminate))
  }

  function Seeing(log: seq<Entry>): Seen {
    if log == [] then Seen(false, false, false, false, false, false, false, false, false, false, false, false)
    else Note(Seeing(log[..|log| - 1]), log[|log| - 1])
  }

  /** The rules. */
  predicate Allowed(s: Seen, e: Entry) {
    match e
    case Event(Completed) =>
      !s.terminal && s.released && !s.cancelled && (s.internal || (s.content && !s.contentError))
    case Event(Cancelled) => !s.completed
    case Event(Error) => !s.completed
    case DragBegun => s.armed && !s.begun
    case Signalled(signal, byTimer) => (byTimer ==> !s.exited) && (signal.Kill? ==> s.terminated)
    case Exited => !s.exited
    case _ => true
  }

  predicate Lawful(log: seq<Entry>) {
    log == [] || (Lawful(log[..|log| - 1]) && Allowed(Seeing(log[..|log| - 1]), log[|log| - 1]))
  }

  lemma One(log: seq<Entry>, e: Entry)
    ensures Seeing(log + [e]) == Note(Seeing(log), e)
    ensures Lawful(log + [e]) <==> Lawful(log) && Allowed(Seeing(log), e)
  {
    assert (log + [e])[..|log|] == log;
  }

  lemma Two(log: seq<Entry>, d: Entry, e: Entry)
    ensures Seeing(log + [d, e]) == Note(Note(Seeing(log), d), e)
    ensures Lawful(log + [d, e]) <==> Lawful(log) && Allowed(Seeing(log), d) && Allowed(Note(Seeing(log), d), e)
  {
    One(log, d);
    One(log + [d], e);
    assert log + [d, e] == log + [d] + [e];
  }

  // ---------------------------------------------------------------- the invariant

  /** The flags say what has been seen. */
  predicate Agrees(f: Flags, s: Seen) {
    && f.ready == s.ready && f.dragStarted == s.begun && f.dragReleased == s.released
    && f.cancelled == s.cancelled && f.internalTarget == s.internal
    && f.contentComplete == s.content && f.readError == s.contentError
    && f.terminal == s.terminal && f.helperExited == s.exited
    && (f.ready && f.activated ==> s.armed)
  }

  /** How far the adapter can be. */
  predicate Ordered(f: Flags, t: Timers, s: Seen) {
    && (f.ready ==> f.settled) && (f.dragStarted ==> f.ready) && (f.dragReleased ==> f.dragStarted)
    && (s.completed ==> f.dragReleased && f.terminal)
    && (t.finalize ==> f.dragStarted)
    && (t.forceKill ==> s.terminated)
    && (f.terminal && !f.settled ==> f.cancelled)
  }

  /** Nothing is left to do for a helper that has exited. */
  predicate Stopped(f: Flags, t: Timers) { !f.registered && t == Timers(false, false, false, false, false) }

  predicate Consistent(a: Adapter) {
    Lawful(a.log) && Agrees(a.flags, Seeing(a.log)) && Ordered(a.flags, a.timers, Seeing(a.log))
  }

  predicate Sound(a: Adapter) {
    Consistent(a) && (a.flags.helperExited ==> a.flags.settled && a.flags.terminal && Stopped(a.flags, a.timers))
  }

  lemma LaunchSound()
    ensures Sound(Launch())
  {
  }

  // ---------------------------------------------------------------- the pieces keep it

  lemma ScheduleKeeps(a: Adapter)
    requires Sound(a)
    ensures Sound(ScheduleTermination(a)) && Sound(ScheduleCompletedClose(a))
  {
    hide Lawful, Seeing;
  }

  lemma FailKeeps(a: Adapter, byTimer: bool)
    requires Sound(a) && !a.flags.helperExited
    ensures Sound(Fail(a, byTimer))
  {
    hide Lawful, Seeing;
    One(a.log, Signalled(Terminate, byTimer));
    One(a.log + [Signalled(Terminate, byTimer)], Event(Error));
  }

  lemma FinishConsistent(a: Adapter)
    requires Consistent(a) && a.flags.settled && (a.flags.dragReleased || a.flags.cancelled || a.flags.readError)
    ensures Consistent(FinishAfterClose(a))
  {
    hide Lawful, Seeing;
    if !a.flags.terminal {
      if a.flags.cancelled {
        One(a.log, Event(Cancelled));
      } else if a.flags.readError {
        One(a.log, Event(Error));
      } else if !a.flags.contentComplete {
        One(a.log, Event(Cancelled));
      } else {
        One(a.log, Event(Completed));
      }
    }
  }

  lemma FinishKeeps(a: Adapter)
    requires Sound(a) && a.flags.settled && (a.flags.dragReleased || a.flags.cancelled || a.flags.readError)
    ensures Sound(FinishAfterClose(a))
  {
    hide Consistent;
    FinishConsistent(a);
  }

  lemma InternalKeeps(a: Adapter)
    requires Sound(a) && InternallyDropped(a.flags) && !a.flags.cancelled
    ensures Sound(FinishInternal(a))
  {
    hide Lawful, Seeing, ScheduleTermination;
    Two(a.log, Event(Completed), Command("cancel"));
    ScheduleKeeps(Adapter(a.flags.(terminal := true), ClearTermination(a.timers),
        a.log + [Event(Completed), Command("cancel")]));
  }

  lemma StartDragKeeps(a: Adapter, throws: bool)
    requires Sound(a) && a.flags.registered
    ensures Sound(StartDrag(a, throws))
  {
    hide Lawful, Seeing;
    var f, log := a.flags, a.log + [Event(Started), DragBegun];
    Two(a.log, Event(Started), DragBegun);
    if f.ready && f.activated && !f.dragStarted && !f.cancelled && !f.terminal {
      BegunKeeps(a, log);
      if throws { ThrownKeeps(a, log); } else { One(log, Event(Motion)); }
    }
  }

  /** What has been seen when the drag has begun. */
  lemma BegunKeeps(a: Adapter, log: seq<Entry>)
    requires Sound(a) && a.flags.ready && a.flags.activated && !a.flags.dragStarted && !a.flags.terminal
    requires log == a.log + [Event(Started), DragBegun]
    ensures Lawful(log) && Seeing(log) == Seeing(a.log).(begun := true)
  {
    hide Lawful, Seeing;
    Two(a.log, Event(Started), DragBegun);
  }

  lemma ThrownKeeps(a: Adapter, log: seq<Entry>)
    requires Sound(a) && a.flags.ready && !a.flags.terminal
    requires Lawful(log) && Seeing(log) == Seeing(a.log).(begun := true)
    ensures Sound(ScheduleTermination(Adapter(a.flags.(dragStarted := true, terminal := true), a.timers,
                                              log + [Event(Error), Command("cancel")])))
  {
    hide Lawful, Seeing, ScheduleTermination;
    Two(log, Event(Error), Command("cancel"));
    var told := Adapter(a.flags.(dragStarted := true, terminal := true), a.timers,
                        log + [Event(Error), Command("cancel")]);
    var s := Seeing(log);
    assert Seeing(told.log) == s.(terminal := true);
    assert Sound(told);
    ScheduleKeeps(told);
  }

  lemma FiredKeeps(a: Adapter)
    requires Sound(a)
    ensures Sound(a.(timers := a.timers.(finalize := false)))
    ensures Sound(a.(timers := a.timers.(completedClose := false)))
    ensures Sound(a.(timers := a.timers.(terminate := false)))
    ensures Sound(a.(timers := a.timers.(forceKill := false)))
    ensures Sound(a.(timers := a.timers.(startup := false)))
  {
    hide Lawful, Seeing, Agrees;
  }

  lemma DroppedCancelled(a: Adapter)
    requires Sound(a) && !a.flags.terminal && a.flags.cancelled
    ensures Sound(Log(a, [Event(Cancelled), Command("cancel")]).(flags := a.flags.(terminal := true)))
  {
    hide Lawful, Seeing;
    Two(a.log, Event(Cancelled), Command("cancel"));
  }

  lemma ReleasedKeeps(a: Adapter)
    requires Sound(a) && a.flags.dragStarted
    ensures Sound(Log(a, [Event(Released)]).(flags := a.flags.(dragReleased := true)))
  {
    hide Lawful, Seeing;
    One(a.log, Event(Released));
  }

  lemma FinalizeAfterStart(a: Adapter)
    requires Sound(a) && a.timers.finalize
    ensures a.flags.dragStarted
  {
    hide Lawful, Seeing, Agrees;
  }

  lemma FinalizeKeeps(a: Adapter)
    requires Sound(a)
    ensures Sound(Finalize(a))
  {
    hide Sound, FinishInternal, ScheduleCompletedClose;
    var fired := a.(timers := a.timers.(finalize := false));
    FiredKeeps(a);
    if a.timers.finalize && !a.flags.terminal {
      FinalizeAfterStart(a);
      if a.flags.cancelled {
        DroppedCancelled(fired);
      } else {
        var released := Log(fired, [Event(Released)]).(flags := a.flags.(dragReleased := true));
        ReleasedKeeps(fired);
        LoggedKeeps(released, Command("release"));
        if InternallyDropped(released.flags) { InternalKeeps(released); }
        ScheduleKeeps(Log(released, [Command("release")]));
      }
    }
  }

  lemma ReadKeeps(a: Adapter, line: Line)
    requires Sound(a)
    ensures Sound(Read(a, line))
  {
    hide Lawful, Seeing, Sound, ScheduleTermination, ScheduleCompletedClose, FinishAfterClose, Fail;
    match line
    case ConsumingLine => LoggedKeeps(a, Event(Consuming));
    case CompleteLine =>
      ContentKeeps(a);
      ScheduleKeeps(Log(a, [Event(ContentComplete)]).(flags := a.flags.(contentComplete := true)));
    case ReadErrorLine =>
      ErrorKeeps(a);
      ScheduleKeeps(Log(a, [Event(ContentError), Command("shutdown")]).(flags := a.flags.(readError := true)));
    case ClosingLine =>
      CancelNotedKeeps(a);
      ScheduleKeeps(a);
      ScheduleKeeps(Log(a, [CancelNoted]).(flags := a.flags.(cancelled := true)));
    case ClosedLine => if a.flags.settled && a.flags.dragReleased { FinishKeeps(a); }
    case ReadyLine(files) =>
      if !a.flags.settled {
        SettledAfterExit(a);
        ReadyKeeps(a);
        FailKeeps(a, false);
      }
  }

  lemma LoggedKeeps(a: Adapter, e: Entry)
    requires Sound(a) && (e.Command? || (e.Event? && (e.kind.Consuming? || e.kind.Motion?)))
    ensures Sound(Log(a, [e]))
  {
    hide Lawful, Seeing;
    One(a.log, e);
  }

  lemma ContentKeeps(a: Adapter)
    requires Sound(a)
    ensures Sound(Log(a, [Event(ContentComplete)]).(flags := a.flags.(contentComplete := true)))
  {
    hide Lawful, Seeing;
    One(a.log, Event(ContentComplete));
  }

  lemma ErrorKeeps(a: Adapter)
    requires Sound(a)
    ensures Sound(Log(a, [Event(ContentError), Command("shutdown")]).(flags := a.flags.(readError := true)))
  {
    hide Lawful, Seeing;
    Two(a.log, Event(ContentError), Command("shutdown"));
  }

  lemma CancelNotedKeeps(a: Adapter)
    requires Sound(a)
    ensures Sound(Log(a, [CancelNoted]).(flags := a.flags.(cancelled := true)))
  {
    hide Lawful, Seeing;
    One(a.log, CancelNoted);
  }

  lemma SettledAfterExit(a: Adapter)
    requires Sound(a)
    ensures a.flags.helperExited ==> a.flags.settled && a.flags.terminal && !a.flags.registered
  {
    hide Lawful, Seeing;
  }

  lemma ReadyKeeps(a: Adapter)
    requires Sound(a) && !a.flags.settled
    ensures a.flags.cancelled ==>
              Sound(Adapter(a.flags.(settled := true, terminal := true), a.timers.(startup := false),
                            a.log + [Event(Cancelled), Signalled(Terminate, false)]))
    ensures !a.flags.cancelled ==>
              Sound(Adapter(a.flags.(settled := true, ready := true, activated := false), a.timers.(startup := false),
                            a.log + [Event(Ready)]))
  {
    hide Lawful, Seeing;
    Two(a.log, Event(Cancelled), Signalled(Terminate, false));
    One(a.log, Event(Ready));
  }

  /** The exit noted before its consequences: only the verdict may be missing. */
  predicate Gone(a: Adapter) { Consistent(a) && a.flags.helperExited && Stopped(a.flags, a.timers) }

  lemma CloseKeeps(a: Adapter, clean: bool)
    requires Sound(a)
    ensures Sound(Close(a, clean))
    ensures Close(a, clean).flags.helperExited
  {
    hide Sound, Gone, Verdict, Left;
    if !a.flags.helperExited {
      ExitNoted(a);
      VerdictKeeps(Left(a), clean);
    }
  }

  lemma VerdictKeeps(a: Adapter, clean: bool)
    requires Gone(a)
    ensures Sound(Verdict(a, clean)) && Verdict(a, clean).flags.helperExited
  {
    hide Lawful, Seeing, Sound, Consistent, Fail, FinishAfterClose;
    var f := a.flags;
    if !f.settled && f.cancelled {
      assert a.log + [] == a.log;
      CancelledGone(a);
    } else if f.settled && !f.terminal {
      if f.cancelled || f.readError || f.dragReleased { FinishGone(a); }
      ErrorGone(a);
    } else if !f.settled {
      FailGone(a);
    } else {
      OverGone(a);
    }
  }

  lemma ExitNoted(a: Adapter)
    requires Sound(a) && !a.flags.helperExited
    ensures Gone(Left(a))
  {
    hide Lawful, Seeing;
    One(a.log, Exited);
  }

  lemma OverGone(a: Adapter)
    requires Gone(a) && a.flags.settled && a.flags.terminal
    ensures Sound(a)
  {
    hide Lawful, Seeing;
  }

  lemma CancelledGone(a: Adapter)
    requires Gone(a) && !a.flags.settled && a.flags.cancelled
    ensures a.flags.terminal ==> Sound(a.(flags := a.flags.(settled := true, terminal := true)))
    ensures !a.flags.terminal ==>
            Sound(Log(a, [Event(Cancelled)]).(flags := a.flags.(settled := true, terminal := true)))
  {
    hide Lawful, Seeing;
    One(a.log, Event(Cancelled));
  }

  lemma ErrorGone(a: Adapter)
    requires Gone(a) && a.flags.settled && !a.flags.terminal
    ensures Sound(Log(a, [Event(Error)]).(flags := a.flags.(terminal := true)))
  {
    hide Lawful, Seeing;
    One(a.log, Event(Error));
  }

  lemma FinishGone(a: Adapter)
    requires Gone(a) && a.flags.settled && !a.flags.terminal
    requires a.flags.cancelled || a.flags.readError || a.flags.dragReleased
    ensures Sound(FinishAfterClose(a)) && FinishAfterClose(a).flags.helperExited
  {
    hide Consistent;
    FinishConsistent(a);
  }

  lemma FailGone(a: Adapter)
    requires Gone(a) && !a.flags.settled
    ensures Sound(Fail(a, false)) && Fail(a, false).flags.helperExited
  {
    hide Lawful, Seeing;
    One(a.log, Signalled(Terminate, false));
    One(a.log + [Signalled(Terminate, false)], Event(Error));
  }

  lemma CancelKeeps(a: Adapter)
    requires Sound(a)
    ensures Sound(CancelDrag(a))
  {
    hide Sound;
    if a.flags.registered {
      var told := Adapter(a.flags.(cancelled := true), ClearTermination(a.timers),
          a.log + [CancelNoted, Command("cancel")]);
      CancelTold(a);
      ScheduleKeeps(told);
      if !a.flags.dragStarted { CancelledEarly(ScheduleTermination(told)); }
    }
  }

  lemma CancelTold(a: Adapter)
    requires Sound(a)
    ensures Sound(Adapter(a.flags.(cancelled := true), ClearTermination(a.timers),
            a.log + [CancelNoted, Command("cancel")]))
  {
    hide Lawful, Seeing;
    Two(a.log, CancelNoted, Command("cancel"));
  }

  lemma CancelledEarly(a: Adapter)
    requires Sound(a) && a.flags.cancelled && !a.flags.dragStarted
    ensures Sound(Log(a, [Event(Cancelled), Signalled(Terminate, false)]).(flags := a.flags.(terminal := true)))
  {
    hide Lawful, Seeing;
    Two(a.log, Event(Cancelled), Signalled(Terminate, false));
  }

  lemma ActivatedKeeps(a: Adapter)
    requires Sound(a)
    ensures Sound(Log(a, [ActivateCalled]).(flags := a.flags.(activated := true)))
  {
    hide Lawful, Seeing;
    One(a.log, ActivateCalled);
  }

  lemma TargetNoted(a: Adapter, internal: bool)
    requires Sound(a)
    ensures Sound(Log(a, [TargetSet(internal)]).(flags := a.flags.(internalTarget := internal)))
  {
    hide Lawful, Seeing;
    One(a.log, TargetSet(internal));
  }

  lemma ActivateKeeps(a: Adapter, throws: bool)
    requires Sound(a)
    ensures Sound(Step(a, Activate(throws)))
  {
    hide Sound, StartDrag;
    if a.flags.registered && !a.flags.cancelled && !a.flags.terminal {
      ActivatedKeeps(a);
      StartDragKeeps(Log(a, [ActivateCalled]).(flags := a.flags.(activated := true)), throws);
    }
  }

  lemma TargetKeeps(a: Adapter, internal: bool)
    requires Sound(a)
    ensures Sound(Step(a, SetInternalTarget(internal)))
  {
    hide Sound, FinishInternal;
    if a.flags.registered && !a.flags.cancelled && !a.flags.terminal {
      TargetNoted(a, internal);
      var told := Log(a, [TargetSet(internal)]).(flags := a.flags.(internalTarget := internal));
      if InternallyDropped(told.flags) { InternalKeeps(told); }
    }
  }

  lemma DisposeKeeps(a: Adapter)
    requires Sound(a)
    ensures Sound(DisposeDrag(a))
  {
    hide Sound, ScheduleTermination;
    if a.flags.registered {
      DisposedKeeps(a);
      ScheduleKeeps(Adapter(a.flags.(cleanupRequested := true, registered := false), ClearTermination(a.timers),
                            a.log + [Command("shutdown"), Signalled(Terminate, false)]));
    }
  }

  lemma DisposedKeeps(a: Adapter)
    requires Sound(a)
    ensures Sound(Adapter(a.flags.(cleanupRequested := true, registered := false), ClearTermination(a.timers),
                          a.log + [Command("shutdown"), Signalled(Terminate, false)]))
  {
    hide Lawful, Seeing;
    Two(a.log, Command("shutdown"), Signalled(Terminate, false));
  }

  lemma CompletedCloseKeeps(a: Adapter)
    requires Sound(a)
    ensures Sound(Step(a, CompletedCloseTimer))
  {
    hide Sound, ScheduleTermination;
    var fired := a.(timers := a.timers.(completedClose := false));
    FiredKeeps(a);
    LoggedKeeps(fired, Command("shutdown"));
    ScheduleKeeps(Log(fired, [Command("shutdown")]));
  }

  lemma TerminatedKeeps(a: Adapter)
    requires Sound(a) && !a.flags.helperExited
    ensures Sound(Adapter(a.flags.(cleanupRequested := true), a.timers.(forceKill := true),
            a.log + [Signalled(Terminate, true)]))
  {
    hide Lawful, Seeing;
    One(a.log, Signalled(Terminate, true));
  }

  lemma KilledKeeps(a: Adapter)
    requires Sound(a) && a.timers.forceKill && !a.flags.helperExited
    ensures Sound(Log(a, [Signalled(Kill, true)]).(timers := a.timers.(forceKill := false)))
  {
    hide Lawful, Seeing;
    One(a.log, Signalled(Kill, true));
  }

  lemma KillTimersKeep(a: Adapter, input: Input)
    requires Sound(a) && (input.TerminateTimer? || input.ForceKillTimer?)
    ensures Sound(Step(a, input))
  {
    hide Sound;
    FiredKeeps(a);
    if !a.flags.helperExited {
      TerminatedKeeps(a.(timers := a.timers.(terminate := false)));
      if a.timers.forceKill { KilledKeeps(a); }
    }
  }

  lemma StepKeeps(a: Adapter, input: Input)
    requires Sound(a)
    ensures Sound(Step(a, input))
    ensures input.ChildClose? ==> Step(a, input).flags.helperExited
  {
    hide Sound, Finalize, Read, Close, CancelDrag, DisposeDrag;
    match input
    case Activate(throws) => ActivateKeeps(a, throws);
    case SetInternalTarget(internal) => TargetKeeps(a, internal);
    case Cancel => CancelKeeps(a);
    case Dispose => DisposeKeeps(a);
    case Stdout(line) => ReadKeeps(a, line);
    case StartupTimeout => TimeoutKeeps(a);
    case FinalizeTimer => FinalizeKeeps(a);
    case CompletedCloseTimer => CompletedCloseKeeps(a);
    case TerminateTimer => KillTimersKeep(a, input);
    case ForceKillTimer => KillTimersKeep(a, input);
    case ChildError => ChildErrorKeeps(a);
    case ChildClose(clean) => CloseKeeps(a, clean);
  }

  lemma TimeoutKeeps(a: Adapter)
    requires Sound(a)
    ensures Sound(Step(a, StartupTimeout))
  {
    hide Lawful, Seeing, Fail;
    if a.timers.startup { FailKeeps(a.(timers := a.timers.(startup := false)), true); }
  }

  lemma ChildErrorKeeps(a: Adapter)
    requires Sound(a)
    ensures Sound(Step(a, ChildError))
  {
    hide Lawful, Seeing;
    if !a.flags.settled { FailKeeps(a, false); }
  }

  lemma {:induction false} RunKeeps(a: Adapter, inputs: seq<Input>)
    requires Sound(a)
    ensures Sound(Run(a, inputs))
    decreases |inputs|
  {
    hide Sound, Step;
    if inputs != [] {
      StepKeeps(a, inputs[0]);
      RunKeeps(Step(a, inputs[0]), inputs[1..]);
    }
  }

  // ---------------------------------------------------------------- what the rules say

  function Before(log: seq<Entry>, n: nat): seq<Entry>
    requires n <= |log|
  {
    log[..n]
  }

  lemma {:induction false} LawfulPrefix(log: seq<Entry>, n: nat)
    requires Lawful(log) && n < |log|
    ensures Lawful(Before(log, n)) && Allowed(Seeing(Before(log, n)), log[n])
    decreases |log|
  {
    var last := |log| - 1;
    if n < last {
      LawfulPrefix(log[..last], n);
      assert log[..last][..n] == log[..n];
    }
  }

  predicate SeesTerminal(log: seq<Entry>) { exists e :: e in log && IsTerminal(e) }

  lemma OneMore(log: seq<Entry>, e: Entry)
    ensures forall x :: x in log + [e] <==> x in log || x == e
    ensures SeesTerminal(log + [e]) <==> SeesTerminal(log) || IsTerminal(e)
  {
    assert e in log + [e];
  }

  /** What the monitor has seen is what the log holds. */
  lemma {:induction false} SeenIsLogged(log: seq<Entry>)
    ensures var s := Seeing(log);
            && (s.ready <==> Event(Ready) in log)
            && (s.begun <==> DragBegun in log)
            && (s.released <==> Event(Released) in log)
            && (s.cancelled <==> CancelNoted in log)
            && (s.content <==> Event(ContentComplete) in log)
            && (s.contentError <==> Event(ContentError) in log)
            && (s.terminal <==> SeesTerminal(log))
            && (s.completed <==> Event(Completed) in log)
            && (s.exited <==> Exited in log)
            && (s.terminated <==> Signalled(Terminate, true) in log || Signalled(Terminate, false) in log)
    decreases |log|
  {
    if log != [] {
      hide IsTerminal, SeesTerminal;
      var rest, e := log[..|log| - 1], log[|log| - 1];
      SeenIsLogged(rest);
      assert log == rest + [e];
      OneMore(rest, e);
    }
  }

  /** A target was chosen last. */
  predicate Chosen(log: seq<Entry>) { exists i :: 0 <= i < |log| && ChosenAt(log, i) }

  predicate ChosenAt(log: seq<Entry>, i: nat)
    requires i < |log|
  {
    log[i] == TargetSet(true) && forall j :: i < j < |log| ==> !log[j].TargetSet?
  }

  lemma {:induction false} InternalIsChosen(log: seq<Entry>)
    ensures Seeing(log).internal ==> Chosen(log)
    decreases |log|
  {
    if log != [] {
      var rest, e := log[..|log| - 1], log[|log| - 1];
      InternalIsChosen(rest);
      if Seeing(log).internal {
        if e.TargetSet? {
          assert ChosenAt(log, |log| - 1);
        } else {
          var i :| 0 <= i < |rest| && ChosenAt(rest, i);
          assert ChosenAt(log, i);
        }
      }
    }
  }

  /** An activation after the helper was ready. */
  predicate ActivatedWhenReady(log: seq<Entry>) {
    exists i, j :: 0 <= i < j < |log| && log[i] == Event(Ready) && log[j] == ActivateCalled
  }

  lemma {:induction false} ArmedIsActivated(log: seq<Entry>)
    ensures Seeing(log).armed ==> ActivatedWhenReady(log)
    decreases |log|
  {
    if log != [] {
      var rest, e := log[..|log| - 1], log[|log| - 1];
      ArmedIsActivated(rest);
      SeenIsLogged(rest);
      if Seeing(log).armed {
        if e == ActivateCalled {
          var i :| 0 <= i < |rest| && rest[i] == Event(Ready);
          assert log[i] == Event(Ready) && log[|log| - 1] == ActivateCalled;
        } else {
          var i, j :| 0 <= i < j < |rest| && rest[i] == Event(Ready) && rest[j] == ActivateCalled;
          assert log[i] == Event(Ready) && log[j] == ActivateCalled;
        }
      }
    }
  }

  /** What an entry of the log tells about those before it: `completed` comes after the release
      of a drag that is not cancelled, with an internal target or all content read and no read
      error, and alone among terminal events; the system drag starts once, after an activation
      that followed `ready`; no timer signals a helper that has exited, and SIGKILL comes only
      after SIGTERM. */
  predicate Orderly(past: seq<Entry>, e: Entry) {
    && (e == Event(Completed) ==>
          && !SeesTerminal(past) && Event(Released) in past && CancelNoted !in past
          && (Chosen(past) || (Event(ContentComplete) in past && Event(ContentError) !in past)))
    && (IsTerminal(e) ==> Event(Completed) !in past)
    && (e == DragBegun ==> DragBegun !in past && ActivatedWhenReady(past))
    && (e.Signalled? && e.byTimer ==> Exited !in past)
    && (e.Signalled? && e.signal.Kill? ==> Signalled(Terminate, true) in past || Signalled(Terminate, false) in past)
    && (e == Exited ==> Exited !in past)
  }

  /** Entries stay, and those added are in order. */
  ghost predicate Adds(before: seq<Entry>, after: seq<Entry>) {
    before <= after && forall n :: |before| <= n < |after| ==> Orderly(Before(after, n), after[n])
  }

  lemma AllowedIsOrderly(past: seq<Entry>, e: Entry)
    requires Allowed(Seeing(past), e)
    ensures Orderly(past, e)
  {
    hide Chosen, ActivatedWhenReady, Seeing;
    SeenIsLogged(past);
    InternalIsChosen(past);
    ArmedIsActivated(past);
    assert Event(Completed) in past ==> SeesTerminal(past) by { assert IsTerminal(Event(Completed)); }
  }

  lemma LawfulAdds(before: seq<Entry>, after: seq<Entry>)
    requires Lawful(after) && before <= after
    ensures Adds(before, after)
  {
    hide Allowed, Seeing, Lawful, Orderly;
    forall n | |before| <= n < |after| ensures Orderly(Before(after, n), after[n]) {
      LawfulPrefix(after, n);
      AllowedIsOrderly(Before(after, n), after[n]);
    }
  }

  lemma SoundAdds(a: Adapter, b: Adapter)
    requires Sound(b) && a.log <= b.log
    ensures Adds(a.log, b.log)
  {
    hide Adds;
    LawfulAdds(a.log, b.log);
  }

  /** No call, line, timer or exit breaks the order. */
  lemma StepAdds(a: Adapter, input: Input)
    requires Sound(a)
    ensures Sound(Step(a, input)) && Adds(a.log, Step(a, input).log)
  {
    hide Sound, Adds, Step;
    StepKeeps(a, input);
    StepExtends(a, input);
    SoundAdds(a, Step(a, input));
  }

  lemma StepExtends(a: Adapter, input: Input)
    ensures a.log <= Step(a, input).log
  {
    hide Read, Close;
    ExitExtends(a);
  }

  lemma ExitExtends(a: Adapter)
    ensures forall line :: a.log <= Read(a, line).log
    ensures forall clean :: a.log <= Close(a, clean).log
  {
  }

  function LogOf(inputs: seq<Input>): seq<Entry> { Run(Launch(), inputs).log }

  lemma LogIsOrderly(inputs: seq<Input>, n: nat)
    requires n < |LogOf(inputs)|
    ensures Orderly(Before(LogOf(inputs), n), LogOf(inputs)[n])
  {
    hide Run, Orderly;
    LaunchSound();
    RunKeeps(Launch(), inputs);
    SoundAdds(Launch(), Run(Launch(), inputs));
  }

  /** `completed` is reported at most once and alone among terminal events, after the drag was
      released and with no cancellation, either with an internal target or with all content
      read and no read error. */
  lemma CompletedIsEarned(inputs: seq<Input>, n: nat)
    requires n < |LogOf(inputs)| && LogOf(inputs)[n] == Event(Completed)
    ensures var log := LogOf(inputs);
            var past := Before(log, n);
            && (forall i :: 0 <= i < |log| && i != n ==> !IsTerminal(log[i]))
            && Event(Released) in past && CancelNoted !in past
            && (Chosen(past) || (Event(ContentComplete) in past && Event(ContentError) !in past))
  {
    hide LogOf, Chosen;
    var log := LogOf(inputs);
    LogIsOrderly(inputs, n);
    forall i | 0 <= i < |log| && i != n ensures !IsTerminal(log[i]) {
      if i < n {
        assert Before(log, n)[i] == log[i] && Before(log, n)[i] in Before(log, n);
      } else {
        LogIsOrderly(inputs, i);
        assert Before(log, i)[n] == Event(Completed);
      }
    }
  }

  /** The system drag starts at most once, after an activation that followed `ready`. */
  lemma DragStartsOnce(inputs: seq<Input>, n: nat)
    requires n < |LogOf(inputs)| && LogOf(inputs)[n] == DragBegun
    ensures var log := LogOf(inputs);
            && (forall i :: 0 <= i < |log| && i != n ==> log[i] != DragBegun)
            && ActivatedWhenReady(Before(log, n))
  {
    hide LogOf, ActivatedWhenReady;
    var log := LogOf(inputs);
    LogIsOrderly(inputs, n);
    forall i | 0 <= i < |log| && i != n ensures log[i] != DragBegun {
      if i < n {
        assert Before(log, n)[i] == log[i] && Before(log, n)[i] in Before(log, n);
      } else {
        LogIsOrderly(inputs, i);
        assert Before(log, i)[n] == DragBegun;
      }
    }
  }

  /** No timer signals a helper that has exited, and SIGKILL comes only after SIGTERM. */
  lemma SignalsAreOrderly(inputs: seq<Input>, n: nat, signal: Signal, byTimer: bool)
    requires n < |LogOf(inputs)| && LogOf(inputs)[n] == Signalled(signal, byTimer)
    ensures var past := Before(LogOf(inputs), n);
            && (byTimer ==> Exited !in past)
            && (signal == Kill ==> Signalled(Terminate, true) in past || Signalled(Terminate, false) in past)
  {
    LogIsOrderly(inputs, n);
  }

  lemma ExitedIsReported(a: Adapter)
    requires Sound(a) && a.flags.helperExited
    ensures SeesTerminal(a.log)
  {
    hide Lawful, Seeing;
    SeenIsLogged(a.log);
  }

  /** When the helper has exited, the drag has been reported as over. */
  lemma ExitIsReported(inputs: seq<Input>)
    requires Exited in LogOf(inputs)
    ensures SeesTerminal(LogOf(inputs))
  {
    hide Run;
    LaunchSound();
    RunKeeps(Launch(), inputs);
    SeenIsLogged(LogOf(inputs));
  }

  // ---------------------------------------------------------------- inside a callback

  /** The adapter may fail at any time, also when it has just noted the helper's exit. */
  lemma FailAdds(a: Adapter, byTimer: bool)
    requires Sound(a) || (Gone(a) && !a.flags.settled && !byTimer)
    ensures var r := Fail(a, byTimer);
            && Sound(r) && Adds(a.log, r.log) && r.flags.settled && r.flags.ready == a.flags.ready
            && (a.flags.settled ==> r == a)
            && (a.flags.settled || r.log[|r.log| - 1] == Event(Error))
  {
    hide Sound, Gone, Adds;
    if Sound(a) {
      SettledAfterExit(a);
      if !a.flags.settled { FailKeeps(a, byTimer); }
    } else {
      FailGone(a);
    }
    SoundAdds(a, Fail(a, byTimer));
  }

  /** The error is reported last. */
  lemma FailedLast(a: Adapter, told: Adapter, byTimer: bool)
    requires !a.flags.settled
    requires told == Adapter(a.flags.(settled := true, terminal := true, registered := false, cleanupRequested := true),
                             ClearTermination(a.timers).(startup := false), a.log + [Signalled(Terminate, byTimer)])
    ensures Fail(a, byTimer) == Log(ScheduleTermination(told), [Event(Error)])
  {
  }

  /** The end of the helper is reported as completed exactly if all content was read, without a
      read error and without a cancellation. */
  lemma FinishAdds(a: Adapter)
    requires Sound(a) || Gone(a)
    requires a.flags.settled && (a.flags.dragReleased || a.flags.cancelled || a.flags.readError)
    ensures var r := FinishAfterClose(a);
            && Sound(r) && Adds(a.log, r.log) && r.flags.terminal
            && (!a.flags.terminal ==>
                  r.log != [] && (r.log[|r.log| - 1] == Event(Completed)
                                  <==> a.flags.contentComplete && !a.flags.readError && !a.flags.cancelled))
  {
    hide Sound, Gone, Adds;
    if Sound(a) { FinishKeeps(a); }
    else if a.flags.terminal { OverGone(a); }
    else { FinishGone(a); }
    SoundAdds(a, FinishAfterClose(a));
  }

  /** When the helper says that it is ready, the drag settles; it is ready if it was, or if it
      has not settled before, is not cancelled and has files. */
  lemma ReadyAdds(a: Adapter, files: bool)
    requires Sound(a)
    ensures var r := ReadReady(a, files);
            && Sound(r) && Adds(a.log, r.log) && r.flags.settled
            && (r.flags.ready <==> a.flags.ready || (!a.flags.settled && !a.flags.cancelled && files))
            && (!a.flags.ready && r.flags.ready ==> !r.flags.activated && r.log == a.log + [Event(Ready)])
  {
    hide Sound, Adds, Fail;
    StepAdds(a, Stdout(ReadyLine(files)));
    ReadySettled(a);
    if !a.flags.settled && !a.flags.cancelled && !files { FailAdds(a, false); }
  }

  lemma ReadySettled(a: Adapter)
    requires Sound(a)
    ensures a.flags.ready ==> a.flags.settled
  {
    hide Lawful, Seeing, Agrees;
  }

  lemma InternalAdds(a: Adapter)
    requires Sound(a) && !a.flags.cancelled
    ensures InternallyDropped(a.flags) ==> Sound(FinishInternal(a)) && Adds(a.log, FinishInternal(a).log)
  {
    hide Sound, Adds;
    if InternallyDropped(a.flags) {
      InternalKeeps(a);
      SoundAdds(a, FinishInternal(a));
    }
  }

  lemma StartDragAdds(a: Adapter, throws: bool)
    requires Sound(a) && a.flags.registered
    ensures var r := StartDrag(a, throws);
            && Sound(r) && Adds(a.log, r.log)
            && (DragBegun in r.log[|a.log|..]
                <==> a.flags.ready && a.flags.activated
                     && !a.flags.dragStarted && !a.flags.cancelled && !a.flags.terminal)
  {
    hide Sound, Adds;
    StartDragKeeps(a, throws);
    SoundAdds(a, StartDrag(a, throws));
    var begun := a.log + [Event(Started), DragBegun];
    if begun <= StartDrag(a, throws).log { assert StartDrag(a, throws).log[|a.log|..][1] == begun[|a.log| + 1]; }
  }

  lemma StartedWhenReady(a: Adapter, throws: bool)
    ensures a.flags.registered && !a.flags.cancelled && !a.flags.terminal ==>
              var f := Step(a, Activate(throws)).flags;
              f.activated && (f.dragStarted <==> a.flags.dragStarted || a.flags.ready)
  {
  }

  lemma CloseAdds(a: Adapter, clean: bool)
    requires Sound(a)
    ensures var r := Close(a, clean);
            Sound(r) && r.flags.helperExited && Adds(a.log, r.log) && SeesTerminal(r.log)
  {
    hide Sound, Adds, SeesTerminal, Close, Step;
    CloseKeeps(a, clean);
    StepAdds(a, ChildClose(clean));
    assert Step(a, ChildClose(clean)) == Close(a, clean) by { StepCloses(a, clean); }
    ExitedIsReported(Close(a, clean));
  }

  /** The exit of the helper ends a drag that is not over: a cancelled one as cancelled, one with
      all content released and read without an error as completed, if the helper ended cleanly
      or was asked to end, and any other one as failed. */
  lemma CloseTells(a: Adapter, clean: bool)
    requires !a.flags.helperExited && !a.flags.terminal
    ensures var f := a.flags; var log := Close(a, clean).log;
            && log != []
            && log[|log| - 1] == Event(
                 if f.cancelled then Cancelled
                 else if f.settled && !f.readError && f.dragReleased && f.contentComplete
                         && (clean || f.cleanupRequested) then Completed
                 else Error)
  {
  }

  lemma StepCloses(a: Adapter, clean: bool)
    ensures Step(a, ChildClose(clean)) == Close(a, clean)
  {
  }

  lemma DisposeAdds(a: Adapter)
    requires Sound(a)
    ensures Sound(DisposeDrag(a)) && Adds(a.log, DisposeDrag(a).log)
    ensures !a.flags.registered ==> DisposeDrag(a) == a
  {
    hide Sound, Adds;
    DisposeKeeps(a);
    SoundAdds(a, DisposeDrag(a));
  }

  /** Taking the drag off the list comes last. */
  lemma DisposedLast(a: Adapter, told: Adapter)
    requires told == Adapter(a.flags.(cleanupRequested := true), ClearTermination(a.timers),
                             a.log + [Command("shutdown"), Signalled(Terminate, false)])
    ensures DisposeDrag(a) == if a.flags.registered
            then ScheduleTermination(told).(flags := told.flags.(registered := false)) else a
  {
  }

  lemma VerdictAdds(a: Adapter, clean: bool)
    requires Gone(a)
    ensures var r := Verdict(a, clean);
            Sound(r) && r.flags.helperExited && Adds(a.log, r.log) && SeesTerminal(r.log)
  {
    hide Sound, Gone, Adds, SeesTerminal;
    VerdictKeeps(a, clean);
    SoundAdds(a, Verdict(a, clean));
    ExitedIsReported(Verdict(a, clean));
  }
}
