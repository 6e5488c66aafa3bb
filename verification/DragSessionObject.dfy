/**
 The drag session as the program holds it, from the moment its native start returns: an object
 whose handlers and timers change its fields.  Every method leaves the state that the
 corresponding step computes, keeps the invariant, and promises what the renderer and the
 native side can see of it.
 */
module DragSessionObject {
  import opened Common
  import opened DragSession
  import opened DragSessionSafety
  import opened DragSessionOutcome
  import opened DragSessionTargets
  import opened DragSessionPromises

  class NativeDragSession {
    var life: Life
    var drag: Drag
    var items: Items
    var timers: Timers
    var writes: Writes

    ghost function View(): Session
      reads this
    {
      Session(life, drag, items, timers, writes)
    }

    ghost predicate Valid()
      reads this
    {
      Sound(View())
    }

    constructor (platform: Platform, topLevel: nat)
      ensures View() == Start(platform, topLevel) && Valid()
    {
      life := Life(platform, topLevel, Starting, true, false, false, false, []);
      drag := Drag(None, false, false, false, false, false, NoSlot);
      items := Items({}, topLevel, [], "");
      timers := Timers(true, None, multiset{}, false, false, false, false);
      writes := Writes(map[], 0, 0, [], {}, map[], multiset{});
      new;
      StartSound(platform, topLevel);
    }

    method Send(message: Message)
      modifies this`life
      ensures life == DragSession.Send(old(life), message)
    {
      if !life.senderGone { life := life.(sent := life.sent + [message]); }
    }

    /** `releaseNativeDragSession`: nothing finds the session any more, its timers are off and
        what is still being written is aborted. */
    method Release()
      modifies this
      ensures View() == DragSession.Release(old(View()))
      ensures life.released && life.sent == old(life.sent) && (!old(life.released) ==> !life.registered)
      ensures !old(life.released) ==> !(timers.expiry || timers.fallback.Some? || timers.mac || timers.windows)
      ensures drag == old(drag).(aborted := old(drag.aborted || (writes.pending > 0 && !life.released)))
    {
      if life.released { return; }
      if writes.pending > 0 && !drag.aborted { drag := drag.(aborted := true); }
      life := life.(released := true);
      timers := timers.(expiry := false);
      timers := timers.(fallback := None);
      timers := timers.(mac := false);
      timers := timers.(windows := false);
      life := life.(registered := false);
    }

    predicate IsMacExternalDrop()
      reads this
      ensures IsMacExternalDrop() <==> MacDrop(View())
    {
      life.platform.Mac? && !drag.internalTarget
      && drag.terminal.Some? && drag.terminal.value.kind.Ended? && Operated(drag.terminal.value)
    }

    /** The message for the renderer: a success exactly if the drop was an internal one, or it
        came to its end, nothing failed and the job is not over otherwise. */
    method ComposeResult(job: Job) returns (message: Message)
      requires drag.terminal.Some?
      ensures message == Report(drag, items, job)
      ensures message.Result? && message.internal == drag.internalTarget
      ensures message.ok <==> message.internal || Succeeds(drag.terminal.value, items, job)
      ensures !message.ok ==> message.message != ""
    {
      ReportSucceedsIff(drag, items, job);
      var terminal := drag.terminal.value;
      var ok := drag.internalTarget || terminal.kind.Completed? || (terminal.kind.Ended? && Operated(terminal));
      var contentError := if items.contentErrors == [] then "" else items.contentErrors[|items.contentErrors| - 1];
      var cancelled := terminal.kind.Cancelled? || terminal.operation == "none";
      var text := "";
      if !drag.internalTarget {
        text := Or(items.writeError, Or(contentError, Or(if cancelled then DRAG_CANCELLED else terminal.message,
                                                   if ok then "" else DRAG_FAILED)));
      }
      var succeeded := drag.internalTarget || (ok && items.writeError == "" && contentError == "");
      if !drag.internalTarget {
        match job
        case JobCancelled =>
          succeeded := false;
          text := if terminal.kind.Completed? then DRAG_INCOMPLETE else DRAG_CANCELLED;
        case JobFailed =>
          succeeded := false;
          text := Or(text, DOWNLOAD_FAILED);
        case JobOther =>
      }
      message := Result(succeeded, text, drag.internalTarget);
    }

    /** `maybeFinishNativeDragSession`: the result goes out exactly if it is due. */
    method MaybeFinish(w: World)
      requires Valid()
      modifies this
      ensures View() == DragSession.MaybeFinish(old(View()), w)
      ensures Valid() && Tells(old(View()), View())
      ensures life.resultSent <==> old(life.resultSent || Due(View()))
    {
      hide Report, DragSession.Release, MacDrop, Sound, Tells, Due, Succeeds;
      FinishTells(View(), w);
      if drag.terminal.None? || life.resultSent { return; }
      if drag.cancelling && drag.terminal.value.kind.Ended? { return; }
      if writes.pending > 0 { return; }
      if IsMacExternalDrop() && |items.ended| < items.expected { return; }
      if IsMacExternalDrop() && !timers.macGrace {
        if !timers.mac { timers := timers.(mac := true); }
        return;
      }
      if life.platform.Windows? && !timers.windowsAcknowledged {
        if !timers.windows { timers := timers.(windows := true); }
        return;
      }
      var message := ComposeResult(w.job);
      life := life.(resultSent := true);
      Send(message);
      Release();
    }

    /** `startNativeSftpDragProgress`. */
    method StartProgress(w: World)
      modifies this`drag, this`life
      ensures View() == DragSession.StartProgress(old(View()), w)
      ensures drag == if old(Starts(drag, w)) then old(drag).(jobStarted := true, slot := Awaited) else old(drag)
      ensures life == if old(Starts(drag, w) && !life.senderGone)
                      then old(life).(sent := old(life.sent) + [TransferStarted]) else old(life)
    {
      if drag.jobStarted || drag.internalTarget || drag.cancelling || !w.task { return; }
      drag := drag.(jobStarted := true, slot := Awaited);
      Send(TransferStarted);
    }

    /** `handleNativeSftpWriteRequest`, up to the point where it waits. */
    method BeginWrite(d: Delivery, w: World)
      requires Valid() && !life.released
      modifies this
      ensures View() == DragSession.BeginWrite(old(View()), d, w)
      ensures Valid() && Tells(old(View()), View()) && NoRepeats(old(writes), writes) && !timers.macGrace
      ensures writes.next == old(writes.next) + 1
      ensures old(writes.next) in writes.requests || old(writes.next) in writes.replies
    {
      hide DragSession.ProceedWrite, DragSession.StartProgress, Sound, Tells, NoRepeats;
      ghost var before := View();
      BeginWriteTells(before, d, w);
      BeginWriteBegins(before, d, w);
      var request := writes.next;
      writes := writes.(pending := writes.pending + 1);
      writes := writes.(requests := writes.requests[request := Waiting(d)], next := request + 1);
      StartProgress(w);
      timers := timers.(mac := false);
      timers := timers.(macGrace := false);
      if drag.slot.NoSlot? { ProceedWrite(request, d, w); }
    }

    /** A write that has its slot. */
    method ProceedWrite(request: nat, d: Delivery, w: World)
      requires Valid() && request in writes.requests && writes.requests[request] == Waiting(d)
      modifies this
      ensures View() == DragSession.ProceedWrite(old(View()), request, d, w)
      ensures Valid() && Tells(old(View()), View()) && NoRepeats(old(writes), writes)
      ensures if old(d in writes.delivered && d !in writes.inflight) then request in writes.replies
              else request in writes.requests && writes.requests[request] == Joined(d) && d in writes.inflight
    {
      hide DragSession.EndWrite, Sound, Tells, NoRepeats;
      ProceedWriteTells(View(), request, d, w);
      if d in writes.delivered && d !in writes.inflight {
        EndWrite(request, d, Delivered, w);
        return;
      }
      if d !in writes.inflight {
        writes := writes.(inflight := writes.inflight[d := None]);
        writes := writes.(running := writes.running + multiset{d});
      }
      writes := writes.(requests := writes.requests[request := Joined(d)]);
    }

    /** A write that is over, one way or the other: it is answered, and spoils the drag if it
        failed without being cancelled. */
    method EndWrite(request: nat, d: Delivery, outcome: Outcome, w: World)
      requires Valid() && request in writes.requests && !writes.requests[request].Joined?
      modifies this
      ensures View() == DragSession.EndWrite(old(View()), request, d, outcome, w)
      ensures Valid() && Tells(old(View()), View()) && writes == Replied(old(writes), request)
      ensures Failing(items) <==> old(Failing(items)) || Spoils(old(drag.cancelling), outcome)
    {
      hide DragSession.MaybeFinish, Sound, Tells, Failing;
      EndWriteTells(View(), request, d, outcome, w);
      EndedIsSound(View(), request, d, outcome);
      match outcome {
        case Delivered =>
          items := items.(ended := items.ended + {d.item});
        case Failed(failure) =>
          if !(drag.cancelling && failure.cancelLike) {
            items := items.(ended := items.ended + {d.item});
            var message := Or(failure.message, failure.shown);
            if items.writeError == "" { items := items.(writeError := message); }
          }
      }
      writes := writes.(requests := writes.requests - {request}, replies := writes.replies + [request]);
      writes := writes.(pending := if writes.pending > 0 then writes.pending - 1 else 0);
      MaybeFinish(w);
    }

    /** The backend is done with a delivery. */
    method ResolveDelivery(d: Delivery, outcome: Outcome, w: World)
      requires Valid()
      modifies this
      ensures View() == Step(old(View()), DeliveryResolves(d, outcome), w)
      ensures Valid() && Tells(old(View()), View())
    {
      hide Sound, Tells;
      StepTells(View(), DeliveryResolves(d, outcome), w);
      if d !in writes.inflight || writes.inflight[d].Some? { return; }
      writes := writes.(inflight := writes.inflight[d := Some(outcome)]);
      writes := writes.(running := writes.running - multiset{d});
      if outcome.Delivered? { writes := writes.(delivered := writes.delivered + {d}); }
      assert writes == Resolved(old(writes), d, outcome);
    }

    /** Nobody is to join a finished delivery any more. */
    method ClearDelivery(d: Delivery, w: World)
      requires Valid()
      modifies this
      ensures View() == Step(old(View()), DeliveryClears(d), w)
      ensures Valid() && Tells(old(View()), View())
    {
      hide Sound, Tells;
      StepTells(View(), DeliveryClears(d), w);
      if d !in writes.inflight || writes.inflight[d].None? { return; }
      var outcome := writes.inflight[d].value;
      writes := writes.(inflight := writes.inflight - {d});
      writes := writes.(requests := map r | r in writes.requests ::
                          if writes.requests[r] == Joined(d) then Settled(d, outcome) else writes.requests[r]);
    }

    /** A waiting write goes on, or fails, when the fate of its slot is known. */
    method Proceed(request: nat, w: World)
      requires Valid()
      modifies this
      ensures View() == Step(old(View()), Proceeds(request), w)
      ensures Valid() && Tells(old(View()), View())
      ensures Failing(items) <==> old(Failing(items) || Fails(View(), Proceeds(request), w))
    {
      hide DragSession.ProceedWrite, DragSession.EndWrite, Sound, Tells, Failing, Fails;
      StepTells(View(), Proceeds(request), w);
      StepGrows(View(), Proceeds(request), w);
      if request !in writes.requests || !writes.requests[request].Waiting? { return; }
      var d := writes.requests[request].delivery;
      match drag.slot
      case Granted => ProceedWrite(request, d, w);
      case Refused(failure) => EndWrite(request, d, Failed(failure), w);
      case _ =>
    }

    method Resume(request: nat, w: World)
      requires Valid()
      modifies this
      ensures View() == Step(old(View()), Resumes(request), w)
      ensures Valid() && Tells(old(View()), View())
      ensures Failing(items) <==> old(Failing(items) || Fails(View(), Resumes(request), w))
    {
      hide DragSession.EndWrite, Sound, Tells, Failing, Fails;
      StepTells(View(), Resumes(request), w);
      StepGrows(View(), Resumes(request), w);
      if request !in writes.requests || !writes.requests[request].Settled? { return; }
      EndWrite(request, writes.requests[request].delivery, writes.requests[request].outcome, w);
    }

    /** `handleNativeSftpDragEvent`.  A gesture is passed on to the renderer. */
    method Handle(e: Native, w: World)
      requires Valid()
      modifies this
      ensures View() == DragSession.Handle(old(View()), e, w)
      ensures Valid() && Tells(old(View()), View())
      ensures Failing(items) <==> old(Failing(items) || (e.ContentError? && !life.released))
      ensures e.Gesture? && !old(life.released || life.senderGone) ==> life.sent == old(life.sent) + [Echo(e.what)]
      ensures e.Gesture? && !old(life.released) ==> drag.uiReleased == (old(drag.uiReleased) || e.what == "released")
    {
      hide DragSession.BeginWrite, DragSession.StartProgress, DragSession.HandleEnd, Sound, Tells, Failing;
      StepTells(View(), FromNative(e), w);
      HandleGrows(View(), e, w);
      ReleasedWhenAnswered(View());
      if life.released { return; }
      match e
      case Progress => StartProgress(w);
      case Content =>
      case Gesture(what) =>
        if what == "released" { drag := drag.(uiReleased := true); }
        Send(Echo(what));
      case ContentError(message) =>
        items := items.(contentErrors := items.contentErrors + [Or(message, CONTENT_FAILED)]);
      case WriteRequested(d) => BeginWrite(d, w);
      case End(terminal, target) => HandleEnd(terminal, target, w);
    }

    /** The drag has ended, unless `ended` comes after `cancelled`. */
    method HandleEnd(terminal: Terminal, target: Option<bool>, w: World)
      requires Valid() && !life.resultSent
      modifies this
      ensures View() == DragSession.HandleEnd(old(View()), terminal, target, w)
      ensures Valid() && Tells(old(View()), View())
      ensures drag.terminal == LatestEnd(old(drag.terminal), terminal)
      ensures drag.internalTarget
              == if terminal.kind.Ended? && target.Some? then target.value else old(drag.internalTarget)
    {
      hide DragSession.MaybeFinish, Sound, Tells;
      EndAims(View(), terminal, target, w);
      EndTells(View(), terminal, target, w);
      EndingIsSound(View(), terminal, target);
      if terminal.kind.Ended? && target.Some? { drag := drag.(internalTarget := target.value); }
      if terminal.kind.Ended? && !drag.uiReleased {
        drag := drag.(uiReleased := true);
        Send(Echo("released"));
      }
      if drag.terminal.Some? && drag.terminal.value.kind.Cancelled? && terminal.kind.Ended? { return; }
      drag := drag.(terminal := Some(terminal));
      MaybeFinish(w);
    }

    /** The events the native side reports during a call. */
    method HandleAll(during: seq<Native>, w: World)
      requires Valid()
      modifies this
      ensures View() == DragSession.HandleAll(old(View()), during, w)
      ensures Valid() && Tells(old(View()), View())
    {
      hide DragSession.Handle, Sound, Tells;
      SameTells(View(), View());
      var n := 0;
      assert during[0..] == during;
      while n < |during|
        invariant n <= |during|
        invariant DragSession.HandleAll(View(), during[n..], w) == DragSession.HandleAll(old(View()), during, w)
        invariant Valid() && Tells(old(View()), View())
      {
        assert during[n..][1..] == during[n + 1..];
        ghost var middle := View();
        Handle(during[n], w);
        TellsOn(old(View()), middle, View());
        n := n + 1;
      }
    }

    /** `handleSftpDragTarget`. */
    method ChooseTarget(internal: bool, final: bool, during: seq<Native>, w: World)
      requires Valid()
      modifies this
      ensures View() == DragSession.ChooseTarget(old(View()), internal, final, during, w)
      ensures Valid() && Tells(old(View()), View())
      ensures Failing(items) <==> old(Failing(items) || Fails(View(), TargetChosen(internal, final, during), w))
      ensures final && !old(life.resultSent) ==> timers.windowsAcknowledged && !timers.windows && !Due(View())
    {
      hide DragSession.HandleAll, DragSession.MaybeFinish, Sound, Tells, Failing, Fails, Due;
      TargetTells(View(), internal, final, during, w);
      StepTells(View(), TargetChosen(internal, final, during), w);
      StepGrows(View(), TargetChosen(internal, final, during), w);
      ReleasedWhenAnswered(View());
      if !life.registered { return; }
      DragKeeps(View(), drag.(internalTarget := internal));
      drag := drag.(internalTarget := internal);
      HandleAll(during, w);
      if final {
        TimersKeep(View(), timers.(windowsAcknowledged := true, windows := false));
        timers := timers.(windowsAcknowledged := true);
        timers := timers.(windows := false);
        MaybeFinish(w);
      }
    }

    /** `nativeSftpDragSessionCanCancel`. */
    predicate Cancellable()
      reads this
      ensures Cancellable() <==> CanCancel(View())
    {
      if life.released || life.resultSent then false
      else drag.terminal.None? || (life.platform.Mac? && drag.terminal.value.kind.Ended?)
    }

    /** `handleSftpDragCancel`. */
    method Cancel(accepted: bool, during: seq<Native>, w: World)
      requires Valid()
      modifies this
      ensures View() == DragSession.Cancel(old(View()), accepted, during, w)
      ensures Valid() && Tells(old(View()), View())
      ensures Failing(items) <==> old(Failing(items) || Fails(View(), CancelRequested(accepted, during), w))
      ensures if old(life.resultSent || (drag.terminal.Some? && !MacEnded(View()))) then View() == old(View())
              else drag.cancelling == accepted && (accepted ==> drag.aborted)
                   && (accepted && !life.released && (drag.terminal.None? || MacEnded(View())) ==>
                         timers.fallback == Some(AfterCancel))
    {
      hide DragSession.HandleAll, CanCancel, Sound, Tells, Failing, Fails, MacEnded;
      CancelTells(View(), accepted, during, w);
      StepTells(View(), CancelRequested(accepted, during), w);
      StepGrows(View(), CancelRequested(accepted, during), w);
      if !life.registered || !Cancellable() { return; }
      DragKeeps(View(), drag.(cancelling := true));
      drag := drag.(cancelling := true);
      HandleAll(during, w);
      if !accepted {
        drag := drag.(cancelling := false);
        return;
      }
      drag := drag.(aborted := true);
      if life.released || !Cancellable() { return; }
      timers := timers.(fallback := Some(AfterCancel));
    }

    /** The expiry timer. */
    method Expire(during: seq<Native>, w: World)
      requires Valid()
      modifies this
      ensures View() == DragSession.Expire(old(View()), during, w)
      ensures Valid() && Tells(old(View()), View())
      ensures Failing(items) <==> old(Failing(items) || Fails(View(), ExpiryFires(during), w))
      ensures if !old(timers.expiry) then View() == old(View())
              else drag.cancelling && !timers.expiry && timers.fallback == Some(AfterExpiry)
    {
      hide DragSession.HandleAll, Sound, Tells, Failing, Fails;
      ExpireTells(View(), during, w);
      StepTells(View(), ExpiryFires(during), w);
      StepGrows(View(), ExpiryFires(during), w);
      if !timers.expiry { return; }
      TimersKeep(View(), timers.(expiry := false));
      timers := timers.(expiry := false);
      if life.released { return; }
      DragKeeps(View(), drag.(cancelling := true));
      drag := drag.(cancelling := true);
      HandleAll(during, w);
      if timers.fallback.Some? { timers := timers.(strays := timers.strays + multiset{timers.fallback.value}); }
      timers := timers.(fallback := Some(AfterExpiry));
    }

    /** The timer behind the handle `cancelTimer`, or one whose handle was lost. */
    method FallBack(which: Fallback, stray: bool, w: World)
      requires Valid()
      modifies this
      ensures View() == DragSession.FallBack(old(View()), which, stray, w)
      ensures Valid() && Tells(old(View()), View())
      ensures if old(GivesUp(View(), FallbackFires(which, stray))) then
                && drag.terminal == Some(if which.AfterCancel? then Terminal(Cancelled, "", DRAG_CANCELLED)
                                         else Terminal(Broken, "", TIMED_OUT))
                && items == old(items).(expected := |old(items.ended)|)
                && (life.resultSent <==>
                    old(writes.pending == 0 && (life.platform.Windows? ==> timers.windowsAcknowledged)))
              else life == old(life) && items == old(items) && drag == old(drag)
    {
      hide DragSession.MaybeFinish, Sound, Tells, GivesUp;
      FallBackTells(View(), which, stray, w);
      StepTells(View(), FallbackFires(which, stray), w);
      GivenUpIsSound(View(), which, stray, w);
      if stray {
        if which !in timers.strays { return; }
        timers := timers.(strays := timers.strays - multiset{which});
      } else {
        if timers.fallback != Some(which) { return; }
        timers := timers.(fallback := None);
      }
      if life.released { return; }
      if which.AfterCancel? && !Cancellable() { return; }
      if which.AfterExpiry? && drag.terminal.Some? { return; }
      var terminal := if which.AfterCancel? then Terminal(Cancelled, "", DRAG_CANCELLED)
                      else Terminal(Broken, "", TIMED_OUT);
      drag := drag.(terminal := Some(terminal));
      items := items.(expected := |items.ended|);
      MaybeFinish(w);
    }

    method MacTimer(w: World)
      requires Valid()
      modifies this
      ensures View() == Step(old(View()), MacTimerFires, w)
      ensures Valid() && Tells(old(View()), View())
      ensures old(timers.mac) ==> timers.macGrace && !timers.mac && !Due(View())
    {
      hide DragSession.MaybeFinish, Sound, Tells, Due;
      if timers.mac { MacTimerTells(View(), w); }
      StepTells(View(), MacTimerFires, w);
      TimersKeep(View(), timers.(mac := false, macGrace := timers.macGrace || timers.mac));
      if !timers.mac { return; }
      timers := timers.(mac := false);
      timers := timers.(macGrace := true);
      MaybeFinish(w);
    }

    method WindowsTimer(w: World)
      requires Valid()
      modifies this
      ensures View() == Step(old(View()), WindowsTimerFires, w)
      ensures Valid() && Tells(old(View()), View())
      ensures old(timers.windows) ==> timers.windowsAcknowledged && !timers.windows && !Due(View())
    {
      hide DragSession.MaybeFinish, Sound, Tells, Due;
      AcknowledgedIsSettled(Acknowledged(View()), w);
      StepTells(View(), WindowsTimerFires, w);
      TimersKeep(View(), timers.(windows := false, windowsAcknowledged := true));
      if !timers.windows { return; }
      timers := timers.(windows := false);
      timers := timers.(windowsAcknowledged := true);
      MaybeFinish(w);
    }
  }
}
