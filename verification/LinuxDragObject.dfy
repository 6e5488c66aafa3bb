/**
 The Linux adapter as the program holds it: callbacks that change the state of one drag.
 Every method leaves the state that the corresponding step computes, keeps the invariant, and
 adds to the log in order.
 */
module LinuxDragObject {
  import opened LinuxDrag
  import opened LinuxDragSafety

  class LinuxHelper {
    var flags: Flags
    var timers: Timers
    var log: seq<Entry>

    ghost function View(): Adapter
      reads this
    {
      Adapter(flags, timers, log)
    }

    ghost predicate Valid()
      reads this
    {
      Sound(View())
    }

    constructor ()
      ensures View() == Launch() && Valid()
      ensures flags.registered && !flags.settled && timers.startup && log == []
    {
      flags := Flags(true, false, false, false, false, false, false, false, false, false, false, false, false);
      timers := Timers(true, false, false, false, false);
      log := [];
      new;
      LaunchSound();
    }

    method Report(kind: Kind)
      modifies this`log
      ensures log == old(log) + [Event(kind)]
    {
      log := log + [Event(kind)];
    }

    method Tell(command: string)
      modifies this`log
      ensures log == old(log) + [Command(command)]
    {
      log := log + [Command(command)];
    }

    method Signal(signal: Signal, byTimer: bool)
      modifies this`log
      ensures log == old(log) + [Signalled(signal, byTimer)]
    {
      log := log + [Signalled(signal, byTimer)];
    }

    method ClearTerminationTimers()
      modifies this`timers
      ensures timers == ClearTermination(old(timers))
    {
      timers := timers.(completedClose := false);
      timers := timers.(terminate := false);
      timers := timers.(forceKill := false);
    }

    method ScheduleHelperTermination()
      modifies this`timers
      ensures View() == ScheduleTermination(old(View()))
      ensures !flags.helperExited && !old(timers.forceKill) ==> timers.terminate
    {
      if flags.helperExited || timers.terminate || timers.forceKill { return; }
      timers := timers.(terminate := true);
    }

    /** A drag that has not settled is over, with an error reported last. */
    method Fail(byTimer: bool)
      requires Valid() || (Gone(View()) && !flags.settled && !byTimer)
      modifies this
      ensures View() == LinuxDrag.Fail(old(View()), byTimer)
      ensures Valid() && Adds(old(log), log) && flags.settled && flags.ready == old(flags.ready)
      ensures old(flags.settled) || (log != [] && log[|log| - 1] == Event(Error))
    {
      hide LinuxDrag.Fail, ScheduleTermination, Sound, Gone, Adds;
      ghost var before := View();
      FailAdds(before, byTimer);
      if flags.settled { return; }
      ClearTerminationTimers();
      timers := timers.(startup := false);
      flags := flags.(settled := true, terminal := true, registered := false, cleanupRequested := true);
      Signal(Terminate, byTimer);
      FailedLast(before, View(), byTimer);
      ScheduleHelperTermination();
      Report(Error);
    }

    /** The end of the helper: completed exactly if all content was read, without a read error
        and without a cancellation. */
    method FinishAfterHelperClose()
      requires Valid() || Gone(View())
      requires flags.settled && (flags.dragReleased || flags.cancelled || flags.readError)
      modifies this
      ensures View() == FinishAfterClose(old(View()))
      ensures Valid() && Adds(old(log), log) && flags.terminal
      ensures !old(flags.terminal) ==>
                log != [] && (log[|log| - 1] == Event(Completed)
                              <==> old(flags.contentComplete && !flags.readError && !flags.cancelled))
      ensures !old(flags.terminal) ==>
                (log[|log| - 1] == Event(Error) <==> old(flags.readError && !flags.cancelled))
    {
      hide Sound, Gone, Adds;
      FinishAdds(View());
      if flags.terminal { return; }
      ClearTerminationTimers();
      flags := flags.(terminal := true);
      if flags.cancelled {
        Report(Cancelled);
      } else if flags.readError {
        Report(Error);
      } else if !flags.contentComplete {
        Report(Cancelled);
      } else {
        Report(Completed);
      }
    }

    method ScheduleCompletedClose()
      modifies this`timers
      ensures View() == LinuxDrag.ScheduleCompletedClose(old(View()))
      ensures timers.completedClose <==>
                old(timers.completedClose) || (flags.dragReleased && flags.contentComplete && !flags.internalTarget
                                               && !flags.cancelled && !flags.terminal)
    {
      if timers.completedClose || flags.terminal || flags.cancelled || flags.internalTarget
         || !flags.dragReleased || !flags.contentComplete {
        return;
      }
      timers := timers.(completedClose := true);
    }

    method FinishInternalDrop() returns (finished: bool)
      requires Valid() && !flags.cancelled
      modifies this
      ensures Valid() && Adds(old(log), log)
      ensures finished == InternallyDropped(old(flags))
      ensures View() == if finished then FinishInternal(old(View())) else old(View())
      ensures finished ==> flags == old(flags).(terminal := true)
      ensures log == old(log) + (if finished then [Event(Completed), Command("cancel")] else [])
    {
      hide Sound, Adds;
      InternalAdds(View());
      SoundAdds(View(), View());
      if flags.terminal || !flags.internalTarget || !flags.dragReleased { return false; }
      ClearTerminationTimers();
      flags := flags.(terminal := true);
      Report(Completed);
      Tell("cancel");
      ScheduleHelperTermination();
      assert log == old(log) + [Event(Completed), Command("cancel")];
      return true;
    }

    /** The system drag begins exactly if the helper is ready and the drag activated, and neither
        begun nor cancelled nor over. */
    method StartDrag(throws: bool)
      requires Valid() && flags.registered
      modifies this
      ensures View() == LinuxDrag.StartDrag(old(View()), throws)
      ensures Valid() && Adds(old(log), log)
      ensures DragBegun in log[|old(log)|..]
              <==> old(flags.ready && flags.activated && !flags.dragStarted && !flags.cancelled && !flags.terminal)
      ensures DragBegun in log[|old(log)|..] && !throws ==>
                log == old(log) + [Event(Started), DragBegun, Event(Motion)] && timers.finalize && !flags.terminal
      ensures DragBegun in log[|old(log)|..] && throws ==>
                log == old(log) + [Event(Started), DragBegun, Event(Error), Command("cancel")] && flags.terminal
    {
      hide Sound, Adds;
      StartDragAdds(View(), throws);
      if !flags.ready || !flags.activated || flags.dragStarted || flags.cancelled || flags.terminal { return; }
      flags := flags.(dragStarted := true);
      Report(Started);
      log := log + [DragBegun];
      assert log == old(log) + [Event(Started), DragBegun];
      if throws {
        flags := flags.(terminal := true);
        ghost var begun := log;
        Report(Error);
        Tell("cancel");
        assert log == begun + [Event(Error), Command("cancel")];
        ScheduleHelperTermination();
      } else {
        Report(Motion);
        timers := timers.(finalize := true);
      }
    }

    /** A drag that has settled is released, unless it is over or cancelled; a cancelled one is
        over. */
    method OnFinalizeTimer()
      requires Valid()
      modifies this
      ensures View() == Finalize(old(View()))
      ensures Valid() && Adds(old(log), log)
      ensures flags.dragReleased
              <==> old(flags.dragReleased || (timers.finalize && !flags.terminal && !flags.cancelled))
      ensures old(timers.finalize && flags.cancelled) ==> flags.terminal
      ensures log == old(log) + (if old(!timers.finalize || flags.terminal) then []
                                 else if old(flags.cancelled) then [Event(Cancelled), Command("cancel")]
                                 else if old(flags.internalTarget)
                                 then [Event(Released), Event(Completed), Command("cancel")]
                                 else [Event(Released), Command("release")])
    {
      hide FinishInternal, Sound, Adds;
      StepAdds(View(), FinalizeTimer);
      if !timers.finalize { return; }
      timers := timers.(finalize := false);
      if flags.terminal { return; }
      if flags.cancelled {
        flags := flags.(terminal := true);
        Report(Cancelled);
        Tell("cancel");
        assert log == old(log) + [Event(Cancelled), Command("cancel")];
        return;
      }
      FiredKeeps(old(View()));
      FinalizeAfterStart(old(View()));
      ReleasedKeeps(View());
      flags := flags.(dragReleased := true);
      Report(Released);
      var finished := FinishInternalDrop();
      if finished { return; }
      Tell("release");
      ScheduleCompletedClose();
    }

    /** A line on the helper's standard output. */
    method OnLine(line: Line)
      requires Valid()
      modifies this
      ensures View() == Read(old(View()), line)
      ensures Valid() && Adds(old(log), log)
      ensures line.ConsumingLine? ==> log == old(log) + [Event(Consuming)]
      ensures line.CompleteLine? ==> log == old(log) + [Event(ContentComplete)] && flags.contentComplete
      ensures line.ReadErrorLine? ==> log == old(log) + [Event(ContentError), Command("shutdown")] && flags.readError
      ensures line.ClosingLine? ==>
                log == old(log) + if old(flags.contentComplete || flags.internalTarget || flags.readError) then []
                                  else [CancelNoted]
      ensures line.ClosedLine? && old(!flags.settled || !flags.dragReleased) ==> log == old(log)
    {
      hide ReadReady, FinishAfterClose, Sound, Adds;
      StepAdds(View(), Stdout(line));
      match line
      case ConsumingLine => Report(Consuming);
      case CompleteLine =>
        flags := flags.(contentComplete := true);
        Report(ContentComplete);
        ScheduleCompletedClose();
      case ReadErrorLine =>
        flags := flags.(readError := true);
        Report(ContentError);
        Tell("shutdown");
        assert log == old(log) + [Event(ContentError), Command("shutdown")];
        ScheduleHelperTermination();
      case ClosingLine =>
        if !flags.contentComplete && !flags.internalTarget && !flags.readError {
          flags := flags.(cancelled := true);
          log := log + [CancelNoted];
        }
        ScheduleHelperTermination();
      case ClosedLine => if flags.settled && flags.dragReleased { FinishAfterHelperClose(); }
      case ReadyLine(files) => OnReady(files);
    }

    /** The helper is ready: the drag settles, and an activation that came too early has to be
        repeated. */
    method OnReady(files: bool)
      requires Valid()
      modifies this
      ensures View() == ReadReady(old(View()), files)
      ensures Valid() && Adds(old(log), log) && flags.settled
      ensures flags.ready <==> old(flags.ready || (!flags.settled && !flags.cancelled && files))
      ensures !old(flags.ready) && flags.ready ==> !flags.activated && log == old(log) + [Event(Ready)]
      ensures old(!flags.settled && flags.cancelled) ==>
                log == old(log) + [Event(Cancelled), Signalled(Terminate, false)]
      ensures old(flags.settled) ==> log == old(log)
    {
      hide LinuxDrag.Fail, Sound, Adds;
      ReadyAdds(View(), files);
      if flags.settled { return; }
      if flags.cancelled {
        flags := flags.(settled := true, terminal := true);
        timers := timers.(startup := false);
        Report(Cancelled);
        Signal(Terminate, false);
        assert log == old(log) + [Event(Cancelled), Signalled(Terminate, false)];
        return;
      }
      if !files {
        Fail(false);
        return;
      }
      flags := flags.(settled := true, ready := true, activated := false);
      timers := timers.(startup := false);
      Report(Ready);
    }

    /** The helper's `close` event. */
    method OnClose(clean: bool)
      requires Valid()
      modifies this
      ensures View() == Close(old(View()), clean)
      ensures Valid() && Adds(old(log), log)
      ensures flags.helperExited && SeesTerminal(log)
      ensures old(!flags.helperExited && !flags.terminal) ==>
                log != []
                && log[|log| - 1] == Event(
                     if old(flags.cancelled) then Kind.Cancelled
                     else if old(flags.settled && !flags.readError && flags.dragReleased && flags.contentComplete
                                 && (clean || flags.cleanupRequested)) then Completed
                     else Error)
    {
      hide Verdict, Left, Sound, Adds, Gone, SeesTerminal;
      CloseAdds(View(), clean);
      if !flags.helperExited && !flags.terminal { CloseTells(View(), clean); }
      if flags.helperExited { return; }
      ExitNoted(View());
      NoteExit();
      Judge(clean);
    }

    method NoteExit()
      modifies this
      ensures View() == Left(old(View()))
    {
      timers := timers.(startup := false, finalize := false);
      flags := flags.(helperExited := true);
      log := log + [Exited];
      ClearTerminationTimers();
      flags := flags.(registered := false);
    }

    /** What the exit means for a drag that is not over. */
    method Judge(clean: bool)
      requires Gone(View())
      modifies this
      ensures View() == Verdict(old(View()), clean)
      ensures Valid() && Adds(old(log), log) && SeesTerminal(log)
    {
      hide LinuxDrag.Fail, FinishAfterClose, Sound, Gone, Adds, SeesTerminal;
      VerdictAdds(View(), clean);
      if !flags.settled && flags.cancelled {
        flags := flags.(settled := true);
        if flags.terminal {
          assert log == log + [];
        } else {
          flags := flags.(terminal := true);
          Report(Cancelled);
        }
        return;
      }
      if flags.settled && !flags.terminal {
        if flags.cancelled || flags.readError {
          FinishAfterHelperClose();
        } else if flags.dragReleased && flags.contentComplete && (clean || flags.cleanupRequested) {
          FinishAfterHelperClose();
        } else {
          flags := flags.(terminal := true);
          Report(Error);
        }
        return;
      }
      if !flags.settled { Fail(false); }
    }

    method Activate(throws: bool) returns (accepted: bool)
      requires Valid()
      modifies this
      ensures View() == Step(old(View()), LinuxDrag.Activate(throws))
      ensures Valid() && Adds(old(log), log)
      ensures accepted <==> old(flags.registered && !flags.cancelled && !flags.terminal)
      ensures accepted ==> flags.activated && (old(flags.ready && !flags.dragStarted) ==> flags.dragStarted)
      ensures !accepted ==> View() == old(View())
    {
      hide LinuxDrag.StartDrag, Sound, Adds;
      StartedWhenReady(View(), throws);
      StepAdds(View(), LinuxDrag.Activate(throws));
      if !flags.registered || flags.cancelled || flags.terminal { return false; }
      ActivatedKeeps(View());
      flags := flags.(activated := true);
      log := log + [ActivateCalled];
      StartDrag(throws);
      return true;
    }

    method SetInternalTarget(internal: bool) returns (accepted: bool)
      requires Valid()
      modifies this
      ensures View() == Step(old(View()), LinuxDrag.SetInternalTarget(internal))
      ensures Valid() && Adds(old(log), log)
      ensures accepted <==> old(flags.registered && !flags.cancelled && !flags.terminal)
      ensures log == old(log) + (if !accepted then []
                                 else if internal && flags.dragReleased
                                 then [TargetSet(internal), Event(Completed), Command("cancel")]
                                 else [TargetSet(internal)])
      ensures accepted ==> flags.internalTarget == internal
    {
      hide FinishInternal, Sound, Adds;
      StepAdds(View(), LinuxDrag.SetInternalTarget(internal));
      if !flags.registered || flags.cancelled || flags.terminal { return false; }
      TargetNoted(View(), internal);
      flags := flags.(internalTarget := internal);
      log := log + [TargetSet(internal)];
      if flags.internalTarget { var _ := FinishInternalDrop(); }
      return true;
    }

    method Cancel() returns (accepted: bool)
      requires Valid()
      modifies this
      ensures View() == CancelDrag(old(View()))
      ensures Valid() && Adds(old(log), log)
      ensures accepted <==> old(flags.registered)
      ensures accepted ==> flags.cancelled
      ensures log == old(log) + (if !accepted then []
                                 else if flags.dragStarted then [CancelNoted, Command("cancel")]
                                 else [CancelNoted, Command("cancel"), Event(Cancelled), Signalled(Terminate, false)])
    {
      hide Sound, Adds;
      StepAdds(View(), LinuxDrag.Cancel);
      if !flags.registered { return false; }
      flags := flags.(cancelled := true);
      log := log + [CancelNoted];
      ClearTerminationTimers();
      Tell("cancel");
      assert log == old(log) + [CancelNoted, Command("cancel")];
      ScheduleHelperTermination();
      if !flags.dragStarted {
        ghost var told := log;
        flags := flags.(terminal := true);
        Report(Cancelled);
        Signal(Terminate, false);
        assert log == told + [Event(Cancelled), Signalled(Terminate, false)];
      }
      return true;
    }

    method Dispose()
      requires Valid()
      modifies this
      ensures View() == DisposeDrag(old(View()))
      ensures Valid() && Adds(old(log), log)
      ensures log == old(log) + if old(flags.registered) then [Command("shutdown"), Signalled(Terminate, false)]
                                else []
      ensures !flags.registered && (old(flags.registered && !flags.helperExited) ==> timers.terminate)
    {
      hide ScheduleTermination, DisposeDrag, Sound, Adds;
      ghost var before := View();
      DisposeAdds(before);
      if !flags.registered { return; }
      ClearTerminationTimers();
      Tell("shutdown");
      flags := flags.(cleanupRequested := true);
      Signal(Terminate, false);
      assert log == before.log + [Command("shutdown"), Signalled(Terminate, false)];
      ghost var told := View();
      ScheduleHelperTermination();
      flags := flags.(registered := false);
      DisposedLast(before, told);
    }

    method OnStartupTimeout()
      requires Valid()
      modifies this
      ensures View() == Step(old(View()), StartupTimeout)
      ensures Valid() && Adds(old(log), log)
      ensures old(timers.startup && !flags.settled) ==> log != [] && log[|log| - 1] == Event(Error) && flags.settled
    {
      hide LinuxDrag.Fail, Sound, Adds;
      StepAdds(View(), StartupTimeout);
      if !timers.startup { return; }
      FiredKeeps(View());
      timers := timers.(startup := false);
      Fail(true);
    }

    method OnCompletedCloseTimer()
      requires Valid()
      modifies this
      ensures View() == Step(old(View()), CompletedCloseTimer)
      ensures Valid() && Adds(old(log), log)
      ensures log == old(log) + if old(timers.completedClose && flags.dragReleased && flags.contentComplete
                                       && !flags.terminal && !flags.cancelled && !flags.internalTarget)
                                then [Command("shutdown")] else []
    {
      hide Sound, Adds;
      StepAdds(View(), CompletedCloseTimer);
      if !timers.completedClose { return; }
      timers := timers.(completedClose := false);
      if flags.terminal || flags.cancelled || flags.internalTarget || !flags.dragReleased
          || !flags.contentComplete { return; }
      Tell("shutdown");
      ScheduleHelperTermination();
    }

    method OnTerminateTimer()
      requires Valid()
      modifies this
      ensures View() == Step(old(View()), TerminateTimer)
      ensures Valid() && Adds(old(log), log)
      ensures old(timers.terminate && !flags.helperExited) ==>
                log == old(log) + [Signalled(Terminate, true)] && timers.forceKill
    {
      hide Sound, Adds;
      StepAdds(View(), TerminateTimer);
      if !timers.terminate { return; }
      timers := timers.(terminate := false);
      if flags.helperExited { return; }
      flags := flags.(cleanupRequested := true);
      Signal(Terminate, true);
      timers := timers.(forceKill := true);
    }

    method OnForceKillTimer()
      requires Valid()
      modifies this
      ensures View() == Step(old(View()), ForceKillTimer)
      ensures Valid() && Adds(old(log), log)
      ensures log == old(log) + if old(timers.forceKill && !flags.helperExited) then [Signalled(Kill, true)] else []
    {
      hide Sound, Adds;
      StepAdds(View(), ForceKillTimer);
      if !timers.forceKill { return; }
      timers := timers.(forceKill := false);
      if flags.helperExited { return; }
      Signal(Kill, true);
    }

    method OnChildError()
      requires Valid()
      modifies this
      ensures View() == Step(old(View()), ChildError)
      ensures Valid() && Adds(old(log), log)
      ensures if old(flags.cancelled || flags.settled) then log == old(log)
              else log != [] && log[|log| - 1] == Event(Error) && flags.settled
    {
      hide LinuxDrag.Fail, Sound, Adds;
      StepAdds(View(), ChildError);
      FailAdds(View(), false);
      if !flags.cancelled { Fail(false); }
    }
  }
}
