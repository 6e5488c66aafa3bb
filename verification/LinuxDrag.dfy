/**
 The Linux side of a drag-out: a helper process that serves the files, the system drag, and
 the timers that end the helper.  What the adapter does is written to a log in order: the
 events it reports, the drag it starts and the signals it sends, together with the calls and
 the exit of the helper that the rules about them refer to.
 */
module LinuxDrag {
  datatype Kind = Ready | Started | Motion | Released | Consuming | ContentComplete | ContentError
                | Cancelled | Error | Completed

  datatype Signal = Terminate | Kill

  datatype Entry =
    | Event(kind: Kind)
    | DragBegun
    | Signalled(signal: Signal, byTimer: bool)
    | Command(name: string)
    | ActivateCalled
    | CancelNoted
    | TargetSet(internal: bool)
    | Exited

  datatype Flags = Flags(
    registered: bool,
    settled: bool,
    ready: bool,
    activated: bool,
    dragStarted: bool,
    dragReleased: bool,
    cancelled: bool,
    terminal: bool,
    internalTarget: bool,
    contentComplete: bool,
    readError: bool,
    helperExited: bool,
    cleanupRequested: bool)

  datatype Timers = Timers(startup: bool, finalize: bool, completedClose: bool, terminate: bool, forceKill: bool)

  datatype Adapter = Adapter(flags: Flags, timers: Timers, log: seq<Entry>)

  function Launch(): Adapter {
    Adapter(Flags(true, false, false, false, false, false, false, false, false, false, false, false, false),
            Timers(true, false, false, false, false), [])
  }

  datatype Line = ConsumingLine | CompleteLine | ReadErrorLine | ClosingLine | ClosedLine | ReadyLine(files: bool)

  datatype Input =
    | Activate(throws: bool)
    | SetInternalTarget(internal: bool)
    | Cancel
    | Dispose
    | Stdout(line: Line)
    | StartupTimeout
    | FinalizeTimer
    | CompletedCloseTimer
    | TerminateTimer
    | ForceKillTimer
    | ChildError
    | ChildClose(clean: bool)

  function Log(a: Adapter, entries: seq<Entry>): Adapter { a.(log := a.log + entries) }

  function ClearTermination(t: Timers): Timers { t.(completedClose := false, terminate := false, forceKill := false) }

  /** `scheduleHelperTermination`. */
  function ScheduleTermination(a: Adapter): Adapter {
    if a.flags.helperExited || a.timers.terminate || a.timers.forceKill then a
    else a.(timers := a.timers.(terminate := true))
  }

  /** `fail`. */
  function Fail(a: Adapter, byTimer: bool): Adapter {
    if a.flags.settled then a
    else
      var failed := Adapter(a.flags.(settled := true, terminal := true, registered := false, cleanupRequested := true),
                            ClearTermination(a.timers).(startup := false),
                            a.log + [Signalled(Terminate, byTimer)]);
      Log(ScheduleTermination(failed), [Event(Error)])
  }

  /** What the end of the helper means. */
  function Outcome(f: Flags): Kind {
    if f.cancelled then Cancelled
    else if f.readError then Error
    else if !f.contentComplete then Cancelled
    else Completed
  }

  /** `finishAfterHelperClose`. */
  function FinishAfterClose(a: Adapter): Adapter {
    if a.flags.terminal then a
    else Adapter(a.flags.(terminal := true), ClearTermination(a.timers), a.log + [Event(Outcome(a.flags))])
  }

  /** `scheduleCompletedClose`. */
  function ScheduleCompletedClose(a: Adapter): Adapter {
    if a.timers.completedClose || !Delivered(a.flags) then a else a.(timers := a.timers.(completedClose := true))
  }

  /** Released outside the program with all content read, and not over. */
  predicate Delivered(f: Flags) {
    !f.terminal && !f.cancelled && !f.internalTarget && f.dragReleased && f.contentComplete
  }

  /** `finishInternalDrop`, when it applies. */
  function FinishInternal(a: Adapter): Adapter {
    ScheduleTermination(Adapter(a.flags.(terminal := true), ClearTermination(a.timers),
                                a.log + [Event(Completed), Command("cancel")]))
  }

  predicate InternallyDropped(f: Flags) { !f.terminal && f.internalTarget && f.dragReleased }

  /** `startDrag`, after an activation. */
  function StartDrag(a: Adapter, throws: bool): Adapter {
    var f := a.flags;
    if !f.ready || !f.activated || f.dragStarted || f.cancelled || f.terminal then a
    else
      var begun := Adapter(f.(dragStarted := true), a.timers, a.log + [Event(Started), DragBegun]);
      if !throws then Log(begun, [Event(Motion)]).(timers := a.timers.(finalize := true))
      else ScheduleTermination(Log(begun, [Event(Error), Command("cancel")]).(flags := begun.flags.(terminal := true)))
  }

  /** The drag has settled: was it cancelled, dropped inside the program, or released outside? */
  function Finalize(a: Adapter): Adapter {
    if !a.timers.finalize then a
    else
      var fired := a.(timers := a.timers.(finalize := false));
      if a.flags.terminal then fired
      else if a.flags.cancelled
      then Log(fired, [Event(Cancelled), Command("cancel")]).(flags := a.flags.(terminal := true))
      else
        var released := Log(fired, [Event(Released)]).(flags := a.flags.(dragReleased := true));
        if InternallyDropped(released.flags) then FinishInternal(released)
        else ScheduleCompletedClose(Log(released, [Command("release")]))
  }

  /** A line from the helper. */
  function Read(a: Adapter, line: Line): Adapter {
    match line
    case ConsumingLine => Log(a, [Event(Consuming)])
    case CompleteLine =>
      ScheduleCompletedClose(Log(a, [Event(ContentComplete)]).(flags := a.flags.(contentComplete := true)))
    case ReadErrorLine =>
      ScheduleTermination(Log(a, [Event(ContentError), Command("shutdown")]).(flags := a.flags.(readError := true)))
    case ClosingLine =>
      ScheduleTermination(if !a.flags.contentComplete && !a.flags.internalTarget && !a.flags.readError
                          then Log(a, [CancelNoted]).(flags := a.flags.(cancelled := true)) else a)
    case ClosedLine => if a.flags.settled && a.flags.dragReleased then FinishAfterClose(a) else a
    case ReadyLine(files) => ReadReady(a, files)
  }

  /** The helper is ready, with or without files to serve. */
  function ReadReady(a: Adapter, files: bool): Adapter {
    if a.flags.settled then a
    else if a.flags.cancelled then
      Adapter(a.flags.(settled := true, terminal := true), a.timers.(startup := false),
              a.log + [Event(Cancelled), Signalled(Terminate, false)])
    else if !files then Fail(a, false)
    else Adapter(a.flags.(settled := true, ready := true, activated := false), a.timers.(startup := false),
                 a.log + [Event(Ready)])
  }

  /** The helper has exited and its pipes are closed. */
  function Close(a: Adapter, clean: bool): Adapter {
    if a.flags.helperExited then a else Verdict(Left(a), clean)
  }

  function Left(a: Adapter): Adapter {
    Adapter(a.flags.(helperExited := true, registered := false),
            ClearTermination(a.timers).(startup := false, finalize := false), a.log + [Exited])
  }

  /** What the exit means for a drag that is not over. */
  function Verdict(a: Adapter, clean: bool): Adapter {
    var f := a.flags;
    if !f.settled && f.cancelled then
      Log(a, if f.terminal then [] else [Event(Cancelled)]).(flags := f.(settled := true, terminal := true))
    else if f.settled && !f.terminal then
      if f.cancelled || f.readError || (f.dragReleased && f.contentComplete && (clean || f.cleanupRequested))
      then FinishAfterClose(a)
      else Log(a, [Event(Error)]).(flags := f.(terminal := true))
    else if !f.settled then Fail(a, false)
    else a
  }

  /** `cancel`. */
  function CancelDrag(a: Adapter): Adapter {
    if !a.flags.registered then a
    else
      var told := ScheduleTermination(Adapter(a.flags.(cancelled := true), ClearTermination(a.timers),
                                              a.log + [CancelNoted, Command("cancel")]));
      if a.flags.dragStarted then told
      else Log(told, [Event(Cancelled), Signalled(Terminate, false)]).(flags := told.flags.(terminal := true))
  }

  /** `dispose`. */
  function DisposeDrag(a: Adapter): Adapter {
    if !a.flags.registered then a
    else ScheduleTermination(Adapter(a.flags.(cleanupRequested := true, registered := false),
                                     ClearTermination(a.timers),
                                     a.log + [Command("shutdown"), Signalled(Terminate, false)]))
  }

  function Step(a: Adapter, input: Input): Adapter {
    match input
    case Activate(throws) =>
      if !a.flags.registered || a.flags.cancelled || a.flags.terminal then a
      else StartDrag(Log(a, [ActivateCalled]).(flags := a.flags.(activated := true)), throws)
    case SetInternalTarget(internal) =>
      if !a.flags.registered || a.flags.cancelled || a.flags.terminal then a
      else
        var told := Log(a, [TargetSet(internal)]).(flags := a.flags.(internalTarget := internal));
        if InternallyDropped(told.flags) then FinishInternal(told) else told
    case Cancel => CancelDrag(a)
    case Dispose => DisposeDrag(a)
    case Stdout(line) => Read(a, line)
    case StartupTimeout => if a.timers.startup then Fail(a.(timers := a.timers.(startup := false)), true) else a
    case FinalizeTimer => Finalize(a)
    case CompletedCloseTimer =>
      if !a.timers.completedClose then a
      else
        var fired := a.(timers := a.timers.(completedClose := false));
        if Delivered(a.flags) then ScheduleTermination(Log(fired, [Command("shutdown")])) else fired
    case TerminateTimer =>
      if !a.timers.terminate then a
      else
        var fired := a.(timers := a.timers.(terminate := false));
        if a.flags.helperExited then fired
        else Adapter(a.flags.(cleanupRequested := true), fired.timers.(forceKill := true),
                     a.log + [Signalled(Terminate, true)])
    case ForceKillTimer =>
      if !a.timers.forceKill then a
      else
        var fired := a.(timers := a.timers.(forceKill := false));
        if a.flags.helperExited then fired else Log(fired, [Signalled(Kill, true)])
    case ChildError => if a.flags.cancelled then a else Fail(a, false)
    case ChildClose(clean) => Close(a, clean)
  }

  function Run(a: Adapter, inputs: seq<Input>): Adapter
    decreases |inputs|
  {
    if inputs == [] then a else Run(Step(a, inputs[0]), inputs[1..])
  }
}
