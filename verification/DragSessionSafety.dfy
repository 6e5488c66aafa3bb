/**
 What holds of a drag session in every run whose native start returned: one result at most,
 nothing after it, no write or delivery left behind.
 */
module DragSessionSafety {
  import opened Common
  import opened DragSession

  // ---------------------------------------------------------------- the invariant

  /** Every request is either being served or answered, and counted while it is served. */
  ghost predicate Tallied(w: Writes) {
    && w.pending == |w.requests|
    && (forall r :: r in w.requests ==> r < w.next && r !in w.replies)
    && (forall r: nat :: r < w.next ==> r in w.requests || r in w.replies)
    && (forall r :: r in w.replies ==> r < w.next)
    && (forall i, j :: 0 <= i < j < |w.replies| ==> w.replies[i] != w.replies[j])
  }

  /** Deliveries that run are the ones in flight without an outcome; each has a request waiting
      for it, and none that succeeded runs. */
  ghost predicate Delivering(w: Writes) {
    && (forall d :: w.running[d] == if d in w.inflight && w.inflight[d].None? then 1 else 0)
    && (forall d :: d in w.inflight ==> exists r :: r in w.requests && w.requests[r] == Joined(d))
    && (forall r :: r in w.requests && w.requests[r].Joined? ==> w.requests[r].delivery in w.inflight)
    && (forall d :: d in w.inflight && w.inflight[d].None? ==> d !in w.delivered)
  }

  ghost predicate Idle(w: Writes) { w.requests == map[] && w.inflight == map[] && w.running == multiset{} }

  predicate Failing(items: Items) { items.writeError != "" || LastError(items) != "" }

  /** A result is the last message and is sent once. */
  ghost predicate Reported(life: Life) {
    && !life.phase.Threw?
    && life.released == life.resultSent && life.registered == !life.released
    && forall i :: 0 <= i < |life.sent| && life.sent[i].Result? ==> i == |life.sent| - 1 && life.resultSent
  }

  /** The result is sent only when nothing is being written; failures keep an external drag from
      succeeding, and a macOS drop is reported when its items have ended and the grace period
      has passed. */
  ghost predicate Answered(s: Session) {
    && Reported(s.life)
    && (s.life.resultSent ==> Idle(s.writes) && !s.timers.mac && !s.timers.windows && !s.timers.expiry)
    && (Failing(s.items) ==> forall m :: m in s.life.sent && m.Result? && m.ok ==> m.internal)
    && (s.timers.mac || s.timers.macGrace ==> Complete(s.items))
    && (s.life.resultSent && MacDrop(s) ==> s.timers.macGrace)
  }

  ghost predicate Sound(s: Session) { Tallied(s.writes) && Delivering(s.writes) && Answered(s) }

  lemma StartSound(platform: Platform, topLevel: nat)
    ensures Sound(Start(platform, topLevel))
  {
  }

  // ---------------------------------------------------------------- writes

  lemma NothingRunning(w: Writes)
    requires Tallied(w) && Delivering(w) && w.pending == 0
    ensures Idle(w)
  {
    assert w.requests == map[];
    forall d ensures d !in w.inflight { }
    assert w.inflight == map[];
    assert w.running == multiset{};
  }

  lemma RepliedKeeps(w: Writes, r: nat)
    requires Tallied(w) && Delivering(w) && r in w.requests && !w.requests[r].Joined?
    ensures Tallied(Replied(w, r)) && Delivering(Replied(w, r))
  {
    var after := Replied(w, r);
    assert after.requests.Keys == w.requests.Keys - {r};
    assert |w.requests| == |w.requests.Keys| && |after.requests| == |after.requests.Keys|;
    forall d | d in w.inflight ensures exists q :: q in after.requests && after.requests[q] == Joined(d) {
      var q :| q in w.requests && w.requests[q] == Joined(d);
      assert q in after.requests && after.requests[q] == Joined(d);
    }
  }

  lemma JoiningKeeps(w: Writes, r: nat, d: Delivery)
    requires Tallied(w) && Delivering(w) && r in w.requests && w.requests[r] == Waiting(d) && d in w.inflight
    ensures Tallied(Joining(w, r, d)) && Delivering(Joining(w, r, d))
  {
    SameRequests(w, Joining(w, r, d));
    forall e | e in w.inflight
      ensures exists q :: q in Joining(w, r, d).requests && Joining(w, r, d).requests[q] == Joined(e)
    {
      var q :| q in w.requests && w.requests[q] == Joined(e);
      assert q in Joining(w, r, d).requests && Joining(w, r, d).requests[q] == Joined(e);
    }
  }

  lemma SameRequests(w: Writes, after: Writes)
    requires Tallied(w) && after.requests.Keys == w.requests.Keys
    requires after.pending == w.pending && after.next == w.next && after.replies == w.replies
    ensures Tallied(after)
  {
    assert |after.requests| == |after.requests.Keys| == |w.requests.Keys| == |w.requests|;
    forall r ensures r in after.requests <==> r in w.requests {
      assert r in after.requests.Keys <==> r in w.requests.Keys;
    }
  }

  lemma LaunchedKeeps(w: Writes, r: nat, d: Delivery)
    requires Tallied(w) && Delivering(w) && r in w.requests && w.requests[r] == Waiting(d)
    requires d !in w.inflight && d !in w.delivered
    ensures Tallied(Launched(w, r, d)) && Delivering(Launched(w, r, d))
  {
    var after := Launched(w, r, d);
    SameRequests(w, after);
    forall e | e in after.inflight ensures exists q :: q in after.requests && after.requests[q] == Joined(e) {
      if e == d {
        assert r in after.requests && after.requests[r] == Joined(e);
      } else {
        var q :| q in w.requests && w.requests[q] == Joined(e);
        assert q in after.requests && after.requests[q] == Joined(e);
      }
    }
  }

  lemma CountedKeeps(w: Writes, d: Delivery)
    requires Tallied(w) && Delivering(w)
    ensures Tallied(Counted(w, d)) && Delivering(Counted(w, d))
  {
    CountedTally(w, d);
    hide Tallied;
    var after := Counted(w, d);
    assert w.next !in w.requests by { NextIsFresh(w); }
    forall e | e in w.inflight ensures exists q :: q in after.requests && after.requests[q] == Joined(e) {
      var q :| q in w.requests && w.requests[q] == Joined(e);
      assert q in after.requests && after.requests[q] == Joined(e);
    }
  }

  lemma NextIsFresh(w: Writes)
    requires Tallied(w)
    ensures w.next !in w.requests
  {
  }

  lemma CountedTally(w: Writes, d: Delivery)
    requires Tallied(w)
    ensures Tallied(Counted(w, d))
  {
    var after := Counted(w, d).requests;
    assert after.Keys == w.requests.Keys + {w.next};
    assert |after| == |after.Keys| == |w.requests.Keys| + 1 == |w.requests| + 1;
    forall r ensures r in after <==> r in w.requests || r == w.next {
      assert r in after.Keys <==> r in w.requests.Keys + {w.next};
    }
  }

  lemma ResolvedKeeps(w: Writes, d: Delivery, outcome: Outcome)
    requires Tallied(w) && Delivering(w) && d in w.inflight && w.inflight[d].None?
    ensures Tallied(Resolved(w, d, outcome)) && Delivering(Resolved(w, d, outcome))
  {
    var after := Resolved(w, d, outcome);
    SameRequests(w, after);
    forall e | e in after.inflight ensures exists q :: q in after.requests && after.requests[q] == Joined(e) {
      assert e in w.inflight;
    }
  }

  lemma ClearedKeeps(w: Writes, d: Delivery, outcome: Outcome)
    requires Tallied(w) && Delivering(w) && d in w.inflight && w.inflight[d].Some?
    ensures Tallied(Cleared(w, d, outcome)) && Delivering(Cleared(w, d, outcome))
  {
    var after := Cleared(w, d, outcome);
    SameRequests(w, after);
    forall e | e in after.inflight ensures exists q :: q in after.requests && after.requests[q] == Joined(e) {
      assert e in w.inflight;
      var q :| q in w.requests && w.requests[q] == Joined(e);
      assert q in after.requests && after.requests[q] == Joined(e);
    }
  }

  // ---------------------------------------------------------------- the pieces of a step

  lemma FinishKeeps(s: Session, w: World)
    requires Sound(s)
    ensures Sound(MaybeFinish(s, w))
  {
    hide Finish, MacDrop, Sound, Ending, Complete;
    if Ending(s) {
      EndingUnanswered(s);
      ArmKeeps(s);
      if MacDrop(s) ==> s.timers.macGrace { ReportKeeps(s, w); }
    }
  }

  lemma EndingUnanswered(s: Session)
    requires Sound(s) && Ending(s)
    ensures s.drag.terminal.Some? && !s.life.resultSent && Idle(s.writes)
  {
    NothingRunning(s.writes);
  }

  lemma ReleasedWhenAnswered(s: Session)
    requires Sound(s)
    ensures s.life.released == s.life.resultSent == !s.life.registered && !s.life.phase.Threw?
  {
  }

  lemma ReportKeeps(s: Session, w: World)
    requires Sound(s) && s.drag.terminal.Some? && !s.life.resultSent && Idle(s.writes)
    requires MacDrop(s) ==> s.timers.macGrace
    ensures Sound(Finish(s, w))
  {
    hide Report, Tallied, Delivering, Idle;
    ReportIsHonest(s.drag, s.items, w.job);
    NoResultYet(s);
    assert forall m :: m in Finish(s, w).life.sent ==> m in s.life.sent || m == Report(s.drag, s.items, w.job);
  }

  lemma NoResultYet(s: Session)
    requires Sound(s) && !s.life.resultSent
    ensures forall m :: m in s.life.sent ==> !m.Result?
  {
  }

  /** A failure spoils the result of an external drag, and a bad result says why. */
  lemma ReportIsHonest(drag: Drag, items: Items, job: Job)
    requires drag.terminal.Some?
    ensures var m := Report(drag, items, job);
            && m.Result? && m.internal == drag.internalTarget
            && (Failing(items) && m.ok ==> m.internal)
            && (!m.ok ==> m.message != "")
  {
  }

  lemma ArmKeeps(s: Session)
    requires Sound(s) && !s.life.resultSent
    ensures Complete(s.items) ==> Sound(s.(timers := s.timers.(mac := true)))
    ensures Sound(s.(timers := s.timers.(windows := true)))
  {
    hide Tallied, Delivering, Idle;
  }

  /** Other writes in a session that is not answered. */
  lemma WritesKeep(s: Session, writes: Writes)
    requires Sound(s) && !s.life.resultSent && Tallied(writes) && Delivering(writes)
    ensures Sound(s.(writes := writes))
  {
    hide Tallied, Delivering, Idle;
  }

  /** Items may end and errors be noted while the session is not answered. */
  lemma ItemsKeep(s: Session, items: Items)
    requires Sound(s) && !s.life.resultSent && (Complete(s.items) ==> Complete(items))
    ensures Sound(s.(items := items))
  {
    hide Tallied, Delivering, Idle, Complete, Failing;
    NoResultYet(s);
  }

  /** The drag may go on while the session is not answered, or as far as it is no macOS drop. */
  lemma DragKeeps(s: Session, drag: Drag)
    requires Sound(s) && (!s.life.resultSent
            || (drag.terminal == s.drag.terminal && drag.internalTarget == s.drag.internalTarget))
    ensures Sound(s.(drag := drag))
  {
    hide Tallied, Delivering, Idle;
  }

  /** Timers may stop, and fallbacks come and go. */
  lemma TimersKeep(s: Session, timers: Timers)
    requires Sound(s) && (timers.mac ==> s.timers.mac) && (timers.windows ==> s.timers.windows)
            && (timers.expiry ==> s.timers.expiry)
    requires timers.macGrace == s.timers.macGrace || (timers.macGrace && s.timers.mac)
            || (!s.life.resultSent && !timers.macGrace)
    ensures Sound(s.(timers := timers))
  {
    hide Tallied, Delivering, Idle;
  }

  lemma SendKeeps(s: Session, message: Message)
    requires Sound(s) && !s.life.resultSent && !message.Result?
    ensures Sound(s.(life := Send(s.life, message)))
  {
    hide Tallied, Delivering, Idle;
  }

  lemma Requested(s: Session, r: nat)
    requires Sound(s) && r in s.writes.requests
    ensures !s.life.resultSent
  {
  }

  lemma ProgressKeeps(s: Session, w: World)
    requires Sound(s) && !s.life.resultSent
    ensures Sound(StartProgress(s, w))
    ensures var r := StartProgress(s, w); r.writes == s.writes && !r.life.resultSent
  {
    hide Sound;
    var drag := s.drag.(jobStarted := true, slot := Awaited);
    DragKeeps(s, drag);
    SendKeeps(s.(drag := drag), TransferStarted);
  }

  lemma EndedIsSound(s: Session, q: nat, d: Delivery, outcome: Outcome)
    requires Sound(s) && q in s.writes.requests && !s.writes.requests[q].Joined?
    ensures Sound(s.(writes := Replied(s.writes, q), items := Noted(s.items, s.drag.cancelling, d.item, outcome)))
  {
    hide Tallied, Delivering, Answered, Replied, Noted, Complete;
    Requested(s, q);
    RepliedKeeps(s.writes, q);
    WritesKeep(s, Replied(s.writes, q));
    NotedCompletes(s.items, s.drag.cancelling, d.item, outcome);
    ItemsKeep(s.(writes := Replied(s.writes, q)), Noted(s.items, s.drag.cancelling, d.item, outcome));
  }

  lemma EndWriteKeeps(s: Session, r: nat, d: Delivery, outcome: Outcome, w: World)
    requires Sound(s) && r in s.writes.requests && !s.writes.requests[r].Joined?
    ensures Sound(EndWrite(s, r, d, outcome, w))
  {
    hide MaybeFinish, Sound, Replied, Noted;
    EndedIsSound(s, r, d, outcome);
    FinishKeeps(s.(writes := Replied(s.writes, r), items := Noted(s.items, s.drag.cancelling, d.item, outcome)), w);
  }

  lemma NotedCompletes(items: Items, cancelling: bool, item: Item, outcome: Outcome)
    ensures Complete(items) ==> Complete(Noted(items, cancelling, item, outcome))
  {
    if item in items.ended { assert items.ended + {item} == items.ended; }
  }

  lemma ProceedWriteKeeps(s: Session, r: nat, d: Delivery, w: World)
    requires Sound(s) && r in s.writes.requests && s.writes.requests[r] == Waiting(d)
    ensures Sound(ProceedWrite(s, r, d, w))
  {
    hide EndWrite, Tallied, Delivering, Answered, Joining, Launched;
    Requested(s, r);
    if d in s.writes.inflight {
      JoiningKeeps(s.writes, r, d);
      WritesKeep(s, Joining(s.writes, r, d));
    } else if d in s.writes.delivered {
      EndWriteKeeps(s, r, d, Delivered, w);
    } else {
      LaunchedKeeps(s.writes, r, d);
      WritesKeep(s, Launched(s.writes, r, d));
    }
  }

  lemma BeginWriteBegins(s: Session, d: Delivery, w: World)
    requires Sound(s) && !s.life.released
    ensures var progressed := StartProgress(s.(writes := Counted(s.writes, d)), w);
            var begun := progressed.(timers := progressed.timers.(mac := false, macGrace := false));
            && Sound(begun) && begun.writes == Counted(s.writes, d)
            && s.writes.next in begun.writes.requests && begun.writes.requests[s.writes.next] == Waiting(d)
  {
    hide Sound, StartProgress, Counted;
    ReleasedWhenAnswered(s);
    CountedIsSound(s, d);
    var counted := s.(writes := Counted(s.writes, d));
    ProgressKeeps(counted, w);
    var progressed := StartProgress(counted, w);
    TimersKeep(progressed, progressed.timers.(mac := false, macGrace := false));
    NextWaits(s.writes, d);
  }

  lemma CountedIsSound(s: Session, d: Delivery)
    requires Sound(s) && !s.life.resultSent
    ensures Sound(s.(writes := Counted(s.writes, d)))
  {
    hide Tallied, Delivering, Answered;
    CountedKeeps(s.writes, d);
    WritesKeep(s, Counted(s.writes, d));
  }

  lemma BeginWriteKeeps(s: Session, d: Delivery, w: World)
    requires Sound(s) && !s.life.released
    ensures Sound(BeginWrite(s, d, w))
  {
    hide ProceedWrite, StartProgress, Sound, Counted;
    BeginWriteBegins(s, d, w);
    var progressed := StartProgress(s.(writes := Counted(s.writes, d)), w);
    var begun := progressed.(timers := progressed.timers.(mac := false, macGrace := false));
    if begun.drag.slot.NoSlot? { ProceedWriteKeeps(begun, s.writes.next, d, w); }
  }

  lemma NextWaits(w: Writes, d: Delivery)
    ensures w.next in Counted(w, d).requests && Counted(w, d).requests[w.next] == Waiting(d)
  {
  }

  // ---------------------------------------------------------------- native events

  lemma HandleKeeps(s: Session, e: Native, w: World)
    requires Sound(s)
    ensures Sound(Handle(s, e, w))
  {
    hide Sound, BeginWrite, HandleEnd, StartProgress, Echoed;
    if !s.life.released {
      ReleasedWhenAnswered(s);
      match e
      case Progress => ProgressKeeps(s, w);
      case Content =>
      case Gesture(what) => EchoKeeps(s, s.drag.(uiReleased := s.drag.uiReleased || what == "released"), what);
      case ContentError(message) => ItemsKeep(s,
          s.items.(contentErrors := s.items.contentErrors + [Or(message, CONTENT_FAILED)]));
      case WriteRequested(d) => BeginWriteKeeps(s, d, w);
      case End(terminal, target) => EndKeeps(s, terminal, target, w);
    }
  }

  lemma EchoKeeps(s: Session, drag: Drag, what: string)
    requires Sound(s) && !s.life.resultSent
    ensures Sound(Echoed(s, drag, what)) && !Echoed(s, drag, what).life.resultSent
  {
    hide Sound;
    DragKeeps(s, drag);
    SendKeeps(s.(drag := drag), Echo(what));
  }

  lemma EndingIsSound(s: Session, terminal: Terminal, target: Option<bool>)
    requires Sound(s) && !s.life.resultSent
    ensures var aimed := if terminal.kind.Ended? && target.Some? then s.drag.(internalTarget := target.value)
            else s.drag;
            var shown := if terminal.kind.Ended? && !s.drag.uiReleased
                then Echoed(s, aimed.(uiReleased := true), "released")
                         else s.(drag := aimed);
            Sound(shown.(drag := shown.drag.(terminal := Some(terminal))))
  {
    hide Sound, Echoed;
    var aimed := if terminal.kind.Ended? && target.Some? then s.drag.(internalTarget := target.value) else s.drag;
    var shown := if terminal.kind.Ended? && !s.drag.uiReleased then Echoed(s, aimed.(uiReleased := true), "released")
                 else s.(drag := aimed);
    DragKeeps(s, aimed);
    EchoKeeps(s, aimed.(uiReleased := true), "released");
    DragKeeps(shown, shown.drag.(terminal := Some(terminal)));
  }

  lemma EndKeeps(s: Session, terminal: Terminal, target: Option<bool>, w: World)
    requires Sound(s) && !s.life.resultSent
    ensures Sound(HandleEnd(s, terminal, target, w))
  {
    hide Sound, MaybeFinish, Echoed;
    EndingIsSound(s, terminal, target);
    var aimed := if terminal.kind.Ended? && target.Some? then s.drag.(internalTarget := target.value) else s.drag;
    var shown := if terminal.kind.Ended? && !s.drag.uiReleased then Echoed(s, aimed.(uiReleased := true), "released")
                 else s.(drag := aimed);
    DragKeeps(s, aimed);
    EchoKeeps(s, aimed.(uiReleased := true), "released");
    FinishKeeps(shown.(drag := shown.drag.(terminal := Some(terminal))), w);
  }

  lemma {:induction false} HandleAllKeeps(s: Session, during: seq<Native>, w: World)
    requires Sound(s)
    ensures Sound(HandleAll(s, during, w))
    decreases |during|
  {
    hide Sound, Handle;
    if during != [] {
      HandleKeeps(s, during[0], w);
      HandleAllKeeps(Handle(s, during[0], w), during[1..], w);
    }
  }

  // ---------------------------------------------------------------- the program's own events

  lemma TargetKeeps(s: Session, internal: bool, final: bool, during: seq<Native>, w: World)
    requires Sound(s)
    ensures Sound(ChooseTarget(s, internal, final, during, w))
  {
    hide MaybeFinish, HandleAll, Sound;
    ReleasedWhenAnswered(s);
    if s.life.registered {
      var aimed := s.(drag := s.drag.(internalTarget := internal));
      DragKeeps(s, s.drag.(internalTarget := internal));
      HandleAllKeeps(aimed, during, w);
      var told := HandleAll(aimed, during, w);
      TimersKeep(told, Acknowledged(told).timers);
      FinishKeeps(Acknowledged(told), w);
    }
  }

  lemma CancelKeeps(s: Session, accepted: bool, during: seq<Native>, w: World)
    requires Sound(s)
    ensures Sound(Cancel(s, accepted, during, w))
  {
    hide HandleAll, Sound, CanCancel;
    var cancelling := s.(drag := s.drag.(cancelling := true));
    DragKeeps(s, cancelling.drag);
    HandleAllKeeps(cancelling, during, w);
    var told := HandleAll(cancelling, during, w);
    DragKeeps(told, told.drag.(cancelling := false));
    var aborted := told.(drag := told.drag.(aborted := true));
    DragKeeps(told, aborted.drag);
    TimersKeep(aborted, aborted.timers.(fallback := Some(AfterCancel)));
  }

  lemma ExpireKeeps(s: Session, during: seq<Native>, w: World)
    requires Sound(s)
    ensures Sound(Expire(s, during, w))
  {
    hide HandleAll, Sound;
    var fired := s.(timers := s.timers.(expiry := false));
    TimersKeep(s, fired.timers);
    var cancelling := fired.(drag := fired.drag.(cancelling := true));
    DragKeeps(fired, cancelling.drag);
    HandleAllKeeps(cancelling, during, w);
    var told := HandleAll(cancelling, during, w);
    TimersKeep(told, Overwritten(told.timers));
  }

  lemma GiveUpKeeps(s: Session, which: Fallback, w: World)
    requires Sound(s) && !s.life.resultSent
    ensures Sound(GiveUp(s, which, w))
  {
    hide MaybeFinish, Sound;
    var t := if which.AfterCancel? then Terminal(Cancelled, "", DRAG_CANCELLED) else Terminal(Broken, "", TIMED_OUT);
    var over := s.(drag := s.drag.(terminal := Some(t)));
    DragKeeps(s, over.drag);
    ItemsKeep(over, over.items.(expected := |s.items.ended|));
    FinishKeeps(over.(items := over.items.(expected := |s.items.ended|)), w);
  }

  lemma FallBackKeeps(s: Session, which: Fallback, stray: bool, w: World)
    requires Sound(s)
    ensures Sound(FallBack(s, which, stray, w))
  {
    hide GiveUp, Sound, CanCancel;
    ReleasedWhenAnswered(s);
    var fired := s.(timers := if stray then s.timers.(strays := s.timers.strays - multiset{which})
                              else s.timers.(fallback := None));
    TimersKeep(s, fired.timers);
    if !s.life.released { GiveUpKeeps(fired, which, w); }
  }

  lemma RequestKeeps(s: Session, e: Event, w: World)
    requires Sound(s) && (e.Proceeds? || e.Resumes?)
    ensures Sound(Step(s, e, w))
  {
    hide ProceedWrite, EndWrite, Sound;
    if e.request in s.writes.requests && !s.writes.requests[e.request].Joined? {
      var d := s.writes.requests[e.request].delivery;
      if s.writes.requests[e.request].Waiting? {
        ProceedWriteKeeps(s, e.request, d, w);
        if s.drag.slot.Refused? { EndWriteKeeps(s, e.request, d, Failed(s.drag.slot.failure), w); }
      } else {
        EndWriteKeeps(s, e.request, d, s.writes.requests[e.request].outcome, w);
      }
    }
  }

  lemma DeliveryKeeps(s: Session, e: Event, w: World)
    requires Sound(s) && (e.DeliveryResolves? || e.DeliveryClears?)
    ensures Sound(Step(s, e, w))
  {
    hide Tallied, Delivering, Answered, Resolved, Cleared;
    if e.delivery in s.writes.inflight {
      InFlight(s, e.delivery);
      if e.DeliveryResolves? && s.writes.inflight[e.delivery].None? {
        ResolvedKeeps(s.writes, e.delivery, e.outcome);
        WritesKeep(s, Resolved(s.writes, e.delivery, e.outcome));
      } else if e.DeliveryClears? && s.writes.inflight[e.delivery].Some? {
        ClearedKeeps(s.writes, e.delivery, s.writes.inflight[e.delivery].value);
        WritesKeep(s, Cleared(s.writes, e.delivery, s.writes.inflight[e.delivery].value));
      }
    }
  }

  lemma InFlight(s: Session, d: Delivery)
    requires Sound(s) && d in s.writes.inflight
    ensures !s.life.resultSent
  {
  }

  lemma TimerKeeps(s: Session, e: Event, w: World)
    requires Sound(s) && (e.MacTimerFires? || e.WindowsTimerFires?)
    ensures Sound(Step(s, e, w))
  {
    hide MaybeFinish, Sound;
    TimersKeep(s, Acknowledged(s).timers);
    FinishKeeps(Acknowledged(s), w);
    var passed := s.(timers := s.timers.(mac := false, macGrace := true));
    if s.timers.mac {
      TimersKeep(s, passed.timers);
      FinishKeeps(passed, w);
    }
  }

  lemma QuietKeeps(s: Session, e: Event, w: World)
    requires Sound(s)
    requires e.SlotSettles? || e.SenderDestroyed? || e.StartReturned?
    ensures Sound(Step(s, e, w))
  {
    hide Tallied, Delivering, Idle;
  }

  /** No step breaks the invariant, as long as the native start does not throw. */
  lemma StepKeepsSound(s: Session, e: Event, w: World)
    requires Sound(s) && !e.StartThrew?
    ensures Sound(Step(s, e, w))
  {
    hide Sound, Handle, ChooseTarget, Cancel, Expire, FallBack;
    match e
    case FromNative(event) => HandleKeeps(s, event, w);
    case SlotSettles(slot) => QuietKeeps(s, e, w);
    case Proceeds(_) => RequestKeeps(s, e, w);
    case DeliveryResolves(_, _) => DeliveryKeeps(s, e, w);
    case DeliveryClears(_) => DeliveryKeeps(s, e, w);
    case Resumes(_) => RequestKeeps(s, e, w);
    case TargetChosen(internal, final, during) => TargetKeeps(s, internal, final, during, w);
    case CancelRequested(accepted, during) => CancelKeeps(s, accepted, during, w);
    case ExpiryFires(during) => ExpireKeeps(s, during, w);
    case FallbackFires(which, stray) => FallBackKeeps(s, which, stray, w);
    case MacTimerFires => TimerKeeps(s, e, w);
    case WindowsTimerFires => TimerKeeps(s, e, w);
    case SenderDestroyed => QuietKeeps(s, e, w);
    case StartReturned => QuietKeeps(s, e, w);
  }

  // ---------------------------------------------------------------- runs

  ghost predicate StartHeld(actions: seq<Action>) {
    forall a :: a in actions ==> !a.event.StartThrew?
  }

  lemma {:induction false} RunKeepsSound(s: Session, actions: seq<Action>)
    requires Sound(s) && StartHeld(actions)
    ensures Sound(Run(s, actions))
    decreases |actions|
  {
    hide Sound, Step;
    if actions != [] {
      assert actions[0] in actions;
      StepKeepsSound(s, actions[0].event, actions[0].world);
      RunKeepsSound(Step(s, actions[0].event, actions[0].world), actions[1..]);
    }
  }

  /** One result at most, nothing after it, and when it is sent no write is pending and no
      delivery is running. */
  lemma OneResultAndNothingAfter(platform: Platform, topLevel: nat, actions: seq<Action>)
    requires StartHeld(actions)
    ensures var s := Run(Start(platform, topLevel), actions);
            && (forall i :: 0 <= i < |s.life.sent| && s.life.sent[i].Result? ==>
                  i == |s.life.sent| - 1 && s.life.resultSent)
            && (s.life.resultSent ==>
                  s.writes.pending == 0 && s.writes.requests == map[] && s.writes.running == multiset{})
  {
    StartSound(platform, topLevel);
    RunKeepsSound(Start(platform, topLevel), actions);
  }
}
