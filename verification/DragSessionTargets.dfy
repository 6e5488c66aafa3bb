/**
 Where a drag went: the target told last before the result decides whether it was internal.
 */
module DragSessionTargets {
  import opened Common
  import opened DragSession
  import opened DragSessionSafety
  import opened DragSessionOutcome

  // ---------------------------------------------------------------- what is told

  /** The target after a native event, which only an `ended` event may tell. */
  function TargetAfter(e: Native, before: bool): bool {
    if e.End? && e.terminal.kind.Ended? && e.target.Some? then e.target.value else before
  }

  /** The target after native events, of which those after the end of the session do not count. */
  function TargetAfterAll(s: Session, during: seq<Native>, w: World, before: bool): bool
    decreases |during|
  {
    if during == [] || s.life.released then before
    else TargetAfterAll(Handle(s, during[0], w), during[1..], w, TargetAfter(during[0], before))
  }

  /** The target told last, by the renderer or by an `ended` event, in a step that the session
      takes up. */
  function TargetAfterStep(s: Session, e: Event, w: World, before: bool): bool {
    match e
    case FromNative(event) => if s.life.released then before else TargetAfter(event, before)
    case TargetChosen(internal, _, during) =>
      if !s.life.registered then before
      else TargetAfterAll(s.(drag := s.drag.(internalTarget := internal)), during, w, internal)
    case CancelRequested(_, during) =>
      if !s.life.registered || !CanCancel(s) then before
      else TargetAfterAll(s.(drag := s.drag.(cancelling := true)), during, w, before)
    case ExpiryFires(during) =>
      if !s.timers.expiry || s.life.released then before
      else
        var expired := s.(timers := s.timers.(expiry := false), drag := s.drag.(cancelling := true));
        TargetAfterAll(expired, during, w, before)
    case _ => before
  }

  /** The target told last in a run. */
  function LastTarget(s: Session, actions: seq<Action>, before: bool): bool
    decreases |actions|
  {
    if actions == [] then before
    else
      var a := actions[0];
      LastTarget(Step(s, a.event, a.world), actions[1..], TargetAfterStep(s, a.event, a.world, before))
  }

  // ---------------------------------------------------------------- what is reported

  /** The results sent tell the target the session holds. */
  ghost predicate Aimed(s: Session) {
    forall m :: m in s.life.sent && m.Result? ==> m.internal == s.drag.internalTarget
  }

  /** As `Aimed`, with this target and in a sound session. */
  ghost predicate AimedAt(s: Session, target: bool) { Sound(s) && Aimed(s) && s.drag.internalTarget == target }

  lemma FinishAims(s: Session, w: World)
    requires Aimed(s)
    ensures Aimed(MaybeFinish(s, w)) && MaybeFinish(s, w).drag.internalTarget == s.drag.internalTarget
  {
    hide Ending, MacDrop, Complete, Report;
    EndingHasTerminal(s);
    if s.drag.terminal.Some? { ReportIsHonest(s.drag, s.items, w.job); }
  }

  lemma EndWriteAims(s: Session, r: nat, d: Delivery, outcome: Outcome, w: World)
    requires Aimed(s)
    ensures var t := EndWrite(s, r, d, outcome, w); Aimed(t) && t.drag.internalTarget == s.drag.internalTarget
  {
    hide MaybeFinish, Noted;
    FinishAims(s.(writes := Replied(s.writes, r), items := Noted(s.items, s.drag.cancelling, d.item, outcome)), w);
  }

  lemma ProceedWriteAims(s: Session, r: nat, d: Delivery, w: World)
    requires Aimed(s)
    ensures Aimed(ProceedWrite(s, r, d, w)) && ProceedWrite(s, r, d, w).drag.internalTarget == s.drag.internalTarget
  {
    hide EndWrite;
    EndWriteAims(s, r, d, Delivered, w);
  }

  lemma BeginWriteAims(s: Session, d: Delivery, w: World)
    requires Aimed(s)
    ensures Aimed(BeginWrite(s, d, w)) && BeginWrite(s, d, w).drag.internalTarget == s.drag.internalTarget
  {
    hide ProceedWrite;
    var progressed := StartProgress(s.(writes := Counted(s.writes, d)), w);
    ProceedWriteAims(progressed.(timers := progressed.timers.(mac := false, macGrace := false)), s.writes.next, d, w);
  }

  lemma EndAims(s: Session, terminal: Terminal, target: Option<bool>, w: World)
    requires Sound(s) && !s.life.resultSent
    ensures var r := HandleEnd(s, terminal, target, w);
            && Aimed(r)
            && r.drag.internalTarget
               == if terminal.kind.Ended? && target.Some? then target.value else s.drag.internalTarget
  {
    hide MaybeFinish, Sound;
    NoResultYet(s);
    var aimed := if terminal.kind.Ended? && target.Some? then s.drag.(internalTarget := target.value) else s.drag;
    var shown := if terminal.kind.Ended? && !s.drag.uiReleased then Echoed(s, aimed.(uiReleased := true), "released")
                 else s.(drag := aimed);
    FinishAims(shown.(drag := shown.drag.(terminal := Some(terminal))), w);
  }

  lemma HandleAims(s: Session, e: Native, w: World, target: bool)
    requires AimedAt(s, target)
    ensures AimedAt(Handle(s, e, w), if s.life.released then target else TargetAfter(e, target))
  {
    hide BeginWrite, HandleEnd, Sound;
    HandleKeeps(s, e, w);
    ReleasedWhenAnswered(s);
    if !s.life.released {
      match e
      case WriteRequested(d) => BeginWriteAims(s, d, w);
      case End(terminal, t) => EndAims(s, terminal, t, w);
      case _ =>
    }
  }

  lemma {:induction false} HandleAllAims(s: Session, during: seq<Native>, w: World, target: bool)
    requires AimedAt(s, target)
    ensures AimedAt(HandleAll(s, during, w), TargetAfterAll(s, during, w, target))
    decreases |during|
  {
    hide Handle, AimedAt;
    if during != [] {
      HandleAims(s, during[0], w, target);
      if s.life.released {
        ReleasedHandles(s, during, w);
      } else {
        HandleAllAims(Handle(s, during[0], w), during[1..], w, TargetAfter(during[0], target));
      }
    }
  }

  lemma {:induction false} ReleasedHandles(s: Session, during: seq<Native>, w: World)
    requires s.life.released
    ensures HandleAll(s, during, w) == s
    decreases |during|
  {
    if during != [] { ReleasedHandles(s, during[1..], w); }
  }

  lemma AfterFinish(s: Session, w: World, target: bool)
    requires AimedAt(s, target)
    ensures AimedAt(MaybeFinish(s, w), target)
  {
    hide MaybeFinish, Sound;
    FinishKeeps(s, w);
    FinishAims(s, w);
  }

  lemma ChosenAims(s: Session, internal: bool, final: bool, during: seq<Native>, w: World, target: bool)
    requires AimedAt(s, target)
    ensures AimedAt(ChooseTarget(s, internal, final, during, w),
                    TargetAfterStep(s, TargetChosen(internal, final, during), w, target))
  {
    hide MaybeFinish, HandleAll, Sound;
    TargetKeeps(s, internal, final, during, w);
    ReleasedWhenAnswered(s);
    if s.life.registered {
      NoResultYet(s);
      DragKeeps(s, s.drag.(internalTarget := internal));
      var aimed := s.(drag := s.drag.(internalTarget := internal));
      HandleAllAims(aimed, during, w, internal);
      var told := HandleAll(aimed, during, w);
      FinishAims(Acknowledged(told), w);
    }
  }

  lemma CancelledAims(s: Session, accepted: bool, during: seq<Native>, w: World, target: bool)
    requires AimedAt(s, target)
    ensures AimedAt(Cancel(s, accepted, during, w), TargetAfterStep(s, CancelRequested(accepted, during), w, target))
  {
    hide HandleAll, Sound, CanCancel;
    CancelKeeps(s, accepted, during, w);
    DragKeeps(s, s.drag.(cancelling := true));
    HandleAllAims(s.(drag := s.drag.(cancelling := true)), during, w, target);
  }

  lemma ExpiredAims(s: Session, during: seq<Native>, w: World, target: bool)
    requires AimedAt(s, target)
    ensures AimedAt(Expire(s, during, w), TargetAfterStep(s, ExpiryFires(during), w, target))
  {
    hide HandleAll, Sound;
    ExpireKeeps(s, during, w);
    var fired := s.(timers := s.timers.(expiry := false));
    TimersKeep(s, fired.timers);
    DragKeeps(fired, fired.drag.(cancelling := true));
    HandleAllAims(fired.(drag := fired.drag.(cancelling := true)), during, w, target);
  }

  lemma RequestAims(s: Session, e: Event, w: World)
    requires Aimed(s) && (e.Proceeds? || e.Resumes?)
    ensures Aimed(Step(s, e, w)) && Step(s, e, w).drag.internalTarget == s.drag.internalTarget
  {
    hide ProceedWrite, EndWrite;
    if e.request in s.writes.requests {
      var d := s.writes.requests[e.request].delivery;
      ProceedWriteAims(s, e.request, d, w);
      if s.drag.slot.Refused? { EndWriteAims(s, e.request, d, Failed(s.drag.slot.failure), w); }
      if s.writes.requests[e.request].Settled? {
        EndWriteAims(s, e.request, d, s.writes.requests[e.request].outcome, w);
      }
    }
  }

  lemma OtherAims(s: Session, e: Event, w: World)
    requires Aimed(s) && !e.StartThrew?
    requires !e.FromNative? && !e.TargetChosen? && !e.CancelRequested? && !e.ExpiryFires? && !e.Proceeds? && !e.Resumes?
    ensures Aimed(Step(s, e, w)) && Step(s, e, w).drag.internalTarget == s.drag.internalTarget
  {
    hide MaybeFinish, CanCancel;
    FinishAims(Acknowledged(s), w);
    FinishAims(s.(timers := s.timers.(mac := false, macGrace := true)), w);
    if e.FallbackFires? {
      var fired := s.(timers := if e.stray then s.timers.(strays := s.timers.strays - multiset{e.which})
                                else s.timers.(fallback := None));
      var t := if e.which.AfterCancel? then Terminal(Cancelled, "", DRAG_CANCELLED)
          else Terminal(Broken, "", TIMED_OUT);
      FinishAims(fired.(drag := fired.drag.(terminal := Some(t)),
                        items := fired.items.(expected := |fired.items.ended|)), w);
    }
  }

  lemma StepAims(s: Session, e: Event, w: World, target: bool)
    requires AimedAt(s, target) && !e.StartThrew?
    ensures AimedAt(Step(s, e, w), TargetAfterStep(s, e, w, target))
  {
    hide Sound, Aimed, Handle, ChooseTarget, Cancel, Expire, FallBack, MaybeFinish;
    StepKeepsSound(s, e, w);
    match e
    case FromNative(event) => HandleAims(s, event, w, target);
    case TargetChosen(internal, final, during) => ChosenAims(s, internal, final, during, w, target);
    case CancelRequested(accepted, during) => CancelledAims(s, accepted, during, w, target);
    case ExpiryFires(during) => ExpiredAims(s, during, w, target);
    case Proceeds(_) => RequestAims(s, e, w);
    case Resumes(_) => RequestAims(s, e, w);
    case _ => OtherAims(s, e, w);
  }

  lemma {:induction false} RunAims(s: Session, actions: seq<Action>, target: bool)
    requires AimedAt(s, target) && StartHeld(actions)
    ensures AimedAt(Run(s, actions), LastTarget(s, actions, target))
    decreases |actions|
  {
    hide AimedAt, Step, TargetAfterStep;
    if actions != [] {
      var a := actions[0];
      assert a in actions;
      StepAims(s, a.event, a.world, target);
      RunAims(Step(s, a.event, a.world), actions[1..], TargetAfterStep(s, a.event, a.world, target));
    }
  }

  /** The result tells an internal drop exactly if the target told last before it, by the renderer
      or by an `ended` event, was an internal one; if none was told, it was not. */
  lemma ResultTellsLastTarget(platform: Platform, topLevel: nat, actions: seq<Action>)
    requires StartHeld(actions)
    ensures var start := Start(platform, topLevel);
            forall m :: m in Run(start, actions).life.sent && m.Result? ==>
                          m.internal == LastTarget(start, actions, false)
  {
    hide Run, LastTarget;
    StartSound(platform, topLevel);
    RunAims(Start(platform, topLevel), actions, false);
  }
}
