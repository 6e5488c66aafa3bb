/**
 When a drag that has ended is answered: in which circumstances every such drag is, sooner or
 later, and which drags never are.
 */
module DragSessionAnswers {
  import opened Common
  import opened DragSession
  import opened DragSessionOutcome
  import DragSessionGaps

  /** The drag has ended, every write request is answered, but the renderer is not. */
  predicate Unanswered(s: Session) {
    s.drag.terminal.Some? && s.writes.pending == 0 && !s.life.resultSent
  }

  /** A macOS drop outside the program of which not all items have ended. */
  predicate AwaitsItems(s: Session) {
    && s.life.platform.Mac? && !s.drag.internalTarget && |s.items.ended| < s.items.expected
    && s.drag.terminal.Some? && s.drag.terminal.value.kind.Ended?
    && s.drag.terminal.value.operation != "none" && s.drag.terminal.value.operation != "unknown"
  }

  predicate IsTimer(e: Event) { e.MacTimerFires? || e.WindowsTimerFires? || e.FallbackFires? }

  /** Whatever the surroundings answer, the renderer is answered when this timer goes off. */
  ghost predicate Answers(s: Session, timer: Event) {
    IsTimer(timer) && forall w :: Step(s, timer, w).life.resultSent
  }

  /** A drag that has ended and is not answered waits for items, or for a timer that answers. */
  ghost predicate Settling(s: Session) {
    Unanswered(s) ==> AwaitsItems(s) || exists timer :: Answers(s, timer)
  }

  /** What may happen to a drag: that it is cancelled, that it expires, and that the renderer
      tells a target that is not final after its end. */
  datatype Circumstances = Circumstances(cancels: bool, expires: bool, retargets: bool)

  predicate Possible(c: Circumstances, s: Session, e: Event) {
    && !e.StartThrew?
    && (e.CancelRequested? ==> c.cancels)
    && (e.ExpiryFires? ==> c.expires)
    && (e.TargetChosen? && !e.final && s.drag.terminal.Some? ==> c.retargets)
  }

  ghost predicate AllPossible(c: Circumstances, s: Session, actions: seq<Action>)
    decreases |actions|
  {
    actions != [] ==>
      Possible(c, s, actions[0].event) && AllPossible(c, Step(s, actions[0].event, actions[0].world), actions[1..])
  }

  // ---------------------------------------------------------------- undisturbed runs

  /** What an ended drag waits for while nothing has disturbed it. */
  predicate Moves(s: Session) {
    && !s.drag.cancelling && s.timers.fallback.None? && s.timers.strays == multiset{}
    && (Unanswered(s) ==> AwaitsItems(s) || (s.life.platform.Mac? && s.timers.mac)
                          || (s.life.platform.Windows? && s.timers.windows))
  }

  /** All but the last clause of `Moves`. */
  predicate Calm(s: Session) {
    !s.drag.cancelling && s.timers.fallback.None? && s.timers.strays == multiset{}
  }

  predicate MovesOn(s: Session, r: Session) { Calm(r) && (Moves(s) ==> Moves(r)) }

  lemma FinishMoves(s: Session, w: World)
    requires Calm(s)
    ensures Moves(MaybeFinish(s, w)) && MaybeFinish(s, w).items == s.items
    ensures MaybeFinish(s, w).life.platform == s.life.platform
  {
    hide Finish;
    if s.drag.terminal.Some? { FinishedIsCalm(s, w); }
  }

  lemma FinishedIsCalm(s: Session, w: World)
    requires Calm(s) && s.drag.terminal.Some?
    ensures var r := Finish(s, w);
            Calm(r) && r.life.resultSent && r.items == s.items && r.life.platform == s.life.platform
  {
    hide Report;
  }

  lemma EndWriteMoves(s: Session, q: nat, d: Delivery, outcome: Outcome, w: World)
    requires Calm(s)
    ensures Moves(EndWrite(s, q, d, outcome, w))
  {
    hide MaybeFinish, Noted;
    FinishMoves(s.(writes := Replied(s.writes, q), items := Noted(s.items, s.drag.cancelling, d.item, outcome)), w);
  }

  lemma ProceedWriteMoves(s: Session, q: nat, d: Delivery, w: World)
    requires Calm(s)
    ensures MovesOn(s, ProceedWrite(s, q, d, w))
  {
    hide EndWrite;
    EndWriteMoves(s, q, d, Delivered, w);
  }

  lemma BeginWriteMoves(s: Session, d: Delivery, w: World)
    requires Calm(s)
    ensures MovesOn(s, BeginWrite(s, d, w))
  {
    hide ProceedWrite;
    var progressed := StartProgress(s.(writes := Counted(s.writes, d)), w);
    ProceedWriteMoves(progressed.(timers := progressed.timers.(mac := false, macGrace := false)), s.writes.next, d, w);
  }

  lemma EndMoves(s: Session, terminal: Terminal, target: Option<bool>, w: World)
    requires Calm(s)
    ensures MovesOn(s, HandleEnd(s, terminal, target, w))
  {
    hide MaybeFinish;
    var aimed := if terminal.kind.Ended? && target.Some? then s.drag.(internalTarget := target.value) else s.drag;
    var shown := if terminal.kind.Ended? && !s.drag.uiReleased then Echoed(s, aimed.(uiReleased := true), "released")
                 else s.(drag := aimed);
    FinishMoves(shown.(drag := shown.drag.(terminal := Some(terminal))), w);
  }

  lemma HandleMoves(s: Session, e: Native, w: World)
    requires Calm(s)
    ensures MovesOn(s, Handle(s, e, w))
  {
    hide BeginWrite, HandleEnd;
    match e
    case WriteRequested(d) => BeginWriteMoves(s, d, w);
    case End(terminal, target) => EndMoves(s, terminal, target, w);
    case _ =>
  }

  lemma NativeMoves(s: Session, e: Native, w: World)
    requires Moves(s)
    ensures Moves(Handle(s, e, w))
  {
    hide Handle;
    HandleMoves(s, e, w);
  }

  lemma {:induction false} HandleAllMoves(s: Session, during: seq<Native>, w: World)
    requires Calm(s)
    ensures MovesOn(s, HandleAll(s, during, w))
    decreases |during|
  {
    hide Handle, Moves, Calm;
    if during != [] {
      HandleMoves(s, during[0], w);
      HandleAllMoves(Handle(s, during[0], w), during[1..], w);
    }
  }

  /** A target that is not final and comes after the end is told in vain on macOS only, and only
      if items are waited for. */
  predicate Harmless(s: Session, e: Event) {
    && !e.CancelRequested? && !e.ExpiryFires?
    && (e.TargetChosen? && !e.final ==>
          s.drag.terminal.None? || !s.life.platform.Mac? || s.items.expected == 0)
  }

  lemma ChosenMoves(s: Session, internal: bool, final: bool, during: seq<Native>, w: World)
    requires Moves(s) && Harmless(s, TargetChosen(internal, final, during))
    ensures Moves(ChooseTarget(s, internal, final, during, w))
  {
    hide HandleAll, MaybeFinish;
    var aimed := s.(drag := s.drag.(internalTarget := internal));
    HandleAllMoves(aimed, during, w);
    FinishMoves(Acknowledged(HandleAll(aimed, during, w)), w);
  }

  lemma RequestMoves(s: Session, e: Event, w: World)
    requires Moves(s) && (e.Proceeds? || e.Resumes?)
    ensures Moves(Step(s, e, w))
  {
    hide ProceedWrite, EndWrite;
    if e.request in s.writes.requests {
      var d := s.writes.requests[e.request].delivery;
      ProceedWriteMoves(s, e.request, d, w);
      if s.drag.slot.Refused? { EndWriteMoves(s, e.request, d, Failed(s.drag.slot.failure), w); }
      if s.writes.requests[e.request].Settled? {
        EndWriteMoves(s, e.request, d, s.writes.requests[e.request].outcome, w);
      }
    }
  }

  lemma OtherMoves(s: Session, e: Event, w: World)
    requires Moves(s)
    requires !e.FromNative? && !e.TargetChosen? && !e.CancelRequested? && !e.ExpiryFires? && !e.Proceeds? && !e.Resumes?
    ensures Moves(Step(s, e, w))
    ensures e.FallbackFires? ==> Step(s, e, w) == s
  {
    hide MaybeFinish, GiveUp;
    FinishMoves(Acknowledged(s), w);
    FinishMoves(s.(timers := s.timers.(mac := false, macGrace := true)), w);
  }

  lemma StepMoves(s: Session, e: Event, w: World)
    requires Moves(s) && Harmless(s, e)
    ensures var r := Step(s, e, w);
            Moves(r) && r.items.expected == s.items.expected && r.life.platform == s.life.platform
  {
    hide Moves, Handle, ChooseTarget, Cancel, Expire, FallBack, MaybeFinish;
    StepGrows(s, e, w);
    match e
    case FromNative(event) => NativeMoves(s, event, w);
    case TargetChosen(internal, final, during) => ChosenMoves(s, internal, final, during, w);
    case Proceeds(_) => RequestMoves(s, e, w);
    case Resumes(_) => RequestMoves(s, e, w);
    case _ => OtherMoves(s, e, w);
  }

  /** Nothing in these circumstances keeps a drag of so many items from being answered. */
  predicate Undisturbed(c: Circumstances, platform: Platform, topLevel: nat) {
    !c.cancels && !c.expires && !(c.retargets && platform.Mac? && topLevel > 0)
  }

  lemma {:induction false} RunMoves(c: Circumstances, s: Session, actions: seq<Action>)
    requires Moves(s) && Undisturbed(c, s.life.platform, s.items.expected) && AllPossible(c, s, actions)
    ensures Moves(Run(s, actions))
    decreases |actions|
  {
    hide Moves, Step;
    if actions != [] {
      StepMoves(s, actions[0].event, actions[0].world);
      RunMoves(c, Step(s, actions[0].event, actions[0].world), actions[1..]);
    }
  }

  lemma MovesSettles(s: Session)
    requires Moves(s)
    ensures Settling(s)
  {
    hide Step;
    if Unanswered(s) && !AwaitsItems(s) {
      var timer := if s.life.platform.Mac? then MacTimerFires else WindowsTimerFires;
      forall w ensures Step(s, timer, w).life.resultSent { TimerAnswers(s, w); }
      assert Answers(s, timer);
    }
  }

  lemma TimerAnswers(s: Session, w: World)
    requires Moves(s) && Unanswered(s) && !AwaitsItems(s)
    ensures Step(s, if s.life.platform.Mac? then MacTimerFires else WindowsTimerFires, w).life.resultSent
  {
    hide Report;
  }

  // ---------------------------------------------------------------- drags that are never answered

  /** Ended with nothing to come of it: no timer is on, and no item is waited for. */
  predicate Stuck(s: Session) {
    && Unanswered(s) && !AwaitsItems(s)
    && !s.timers.mac && !s.timers.windows && s.timers.strays == multiset{} && s.timers.fallback != Some(AfterCancel)
  }

  lemma StuckIsUnsettled(s: Session)
    requires Stuck(s)
    ensures !Settling(s)
  {
    hide MaybeFinish;
    forall timer ensures !Answers(s, timer) {
      assert IsTimer(timer) ==> !Step(s, timer, World(false, JobOther)).life.resultSent;
    }
  }

  const NOWHERE := FromNative(End(Terminal(Ended, "none", ""), None))
  const DROPPED := FromNative(End(Terminal(Ended, "copy", ""), None))

  /** A cancellation that is refused after the native side has reported the end during it. */
  const REFUSED: seq<Event> := [CancelRequested(false, [NOWHERE.event])]

  /** A drag that ends after it has expired. */
  const EXPIRED: seq<Event> := [ExpiryFires([]), NOWHERE]

  /** A macOS drop that turns out to be an internal one after its end. */
  const RETARGETED: seq<Event> := [DROPPED, TargetChosen(true, false, [])]

  lemma {:induction false} PlainlyPossible(c: Circumstances, s: Session, events: seq<Event>)
    requires forall e :: e in events ==> !e.StartThrew? && (e.CancelRequested? ==> c.cancels)
                                         && (e.ExpiryFires? ==> c.expires) && (e.TargetChosen? ==> c.retargets)
    ensures AllPossible(c, s, DragSessionGaps.Acts(events))
    decreases |events|
  {
    hide Step;
    if events != [] {
      assert DragSessionGaps.Acts(events)[1..] == DragSessionGaps.Acts(events[1..]);
      PlainlyPossible(c, Step(s, events[0], DragSessionGaps.PLAIN), events[1..]);
    }
  }

  lemma RefusedIsStuck(platform: Platform, topLevel: nat)
    ensures Stuck(Step(Start(platform, topLevel), REFUSED[0], DragSessionGaps.PLAIN))
  {
    var s := Start(platform, topLevel);
    var asked := s.(drag := s.drag.(cancelling := true));
    assert HandleAll(asked, [NOWHERE.event], DragSessionGaps.PLAIN)
        == Handle(asked, NOWHERE.event, DragSessionGaps.PLAIN);
  }

  lemma ExpiredIsStuck(platform: Platform, topLevel: nat)
    ensures Stuck(Step(Step(Start(platform, topLevel), EXPIRED[0], DragSessionGaps.PLAIN), EXPIRED[1],
                       DragSessionGaps.PLAIN))
  {
  }

  lemma RetargetedIsStuck(topLevel: nat)
    requires topLevel > 0
    ensures Stuck(Step(Step(Start(Mac, topLevel), RETARGETED[0], DragSessionGaps.PLAIN), RETARGETED[1],
                       DragSessionGaps.PLAIN))
  {
  }

  /** The run of one or two events. */
  lemma Plays(s: Session, events: seq<Event>)
    requires 1 <= |events| <= 2
    ensures var once := Step(s, events[0], DragSessionGaps.PLAIN);
            Run(s, DragSessionGaps.Acts(events)) == if |events| == 1 then once
                                                    else Step(once, events[1], DragSessionGaps.PLAIN)
  {
    hide Step;
    DragSessionGaps.PlainRun(s, events);
    var once := Step(s, events[0], DragSessionGaps.PLAIN);
    assert DragSessionGaps.Plainly(s, events) == DragSessionGaps.Plainly(once, events[1..]);
    assert events[1..] == if |events| == 1 then [] else [events[1]];
    assert |events| == 2 ==> [events[1]][1..] == [];
  }

  /** A run that ends in a stuck session, if the circumstances allow one. */
  lemma DisturbedRun(c: Circumstances, platform: Platform, topLevel: nat) returns (actions: seq<Action>)
    requires !Undisturbed(c, platform, topLevel)
    ensures AllPossible(c, Start(platform, topLevel), actions) && Stuck(Run(Start(platform, topLevel), actions))
  {
    hide Stuck, AllPossible, Run, Step;
    var s := Start(platform, topLevel);
    var events := if c.cancels then REFUSED else if c.expires then EXPIRED else RETARGETED;
    RefusedIsStuck(platform, topLevel);
    ExpiredIsStuck(platform, topLevel);
    if topLevel > 0 { RetargetedIsStuck(topLevel); }
    PlainlyPossible(c, s, events);
    Plays(s, events);
    actions := DragSessionGaps.Acts(events);
  }

  /** Every drag that has ended, and whose write requests are answered, is answered itself, waits
      for items of its drop, or waits for a timer that answers it: in all runs exactly if it is
      neither cancelled nor expires, and no macOS drop of items is told another target late. */
  lemma EndedDragsAreAnsweredIff(c: Circumstances, platform: Platform, topLevel: nat)
    ensures (forall actions :: AllPossible(c, Start(platform, topLevel), actions) ==>
                                 Settling(Run(Start(platform, topLevel), actions)))
            <==> !c.cancels && !c.expires && !(c.retargets && platform.Mac? && topLevel > 0)
  {
    hide Run, AllPossible, Settling, Stuck;
    var s := Start(platform, topLevel);
    if Undisturbed(c, platform, topLevel) {
      forall actions | AllPossible(c, s, actions) ensures Settling(Run(s, actions)) {
        RunMoves(c, s, actions);
        MovesSettles(Run(s, actions));
      }
    } else {
      var actions := DisturbedRun(c, platform, topLevel);
      StuckIsUnsettled(Run(s, actions));
    }
  }

  // ---------------------------------------------------------------- a drag that has expired

  /** The event brings no end of another kind, and does not cancel. */
  predicate Helpless(e: Event) {
    match e
    case FromNative(event) => OnlyEnds(event)
    case TargetChosen(_, _, during) => forall n :: n in during ==> OnlyEnds(n)
    case ExpiryFires(during) => forall n :: n in during ==> OnlyEnds(n)
    case CancelRequested(_, _) => false
    case FallbackFires(which, _) => which.AfterExpiry?
    case _ => true
  }

  predicate OnlyEnds(n: Native) { n.End? ==> n.terminal.kind.Ended? }

  /** Being cancelled, with only `ended` reported. */
  predicate Held(s: Session) {
    s.drag.cancelling && !s.life.resultSent && s.drag.terminal.Some? && s.drag.terminal.value.kind.Ended?
  }

  lemma HeldEndWrite(s: Session, q: nat, d: Delivery, outcome: Outcome, w: World)
    requires Held(s)
    ensures Held(EndWrite(s, q, d, outcome, w))
  {
    hide Noted, MacDrop, Complete, Finish;
  }

  lemma HeldBeginWrite(s: Session, d: Delivery, w: World)
    requires Held(s)
    ensures Held(BeginWrite(s, d, w))
  {
    hide EndWrite;
    var progressed := StartProgress(s.(writes := Counted(s.writes, d)), w);
    var begun := progressed.(timers := progressed.timers.(mac := false, macGrace := false));
    HeldEndWrite(begun, s.writes.next, d, Delivered, w);
  }

  lemma HeldHandle(s: Session, e: Native, w: World)
    requires Held(s) && OnlyEnds(e)
    ensures Held(Handle(s, e, w))
  {
    hide BeginWrite, MacDrop, Complete, Finish;
    if e.WriteRequested? { HeldBeginWrite(s, e.delivery, w); }
  }

  lemma {:induction false} HeldHandleAll(s: Session, during: seq<Native>, w: World)
    requires Held(s) && forall n :: n in during ==> OnlyEnds(n)
    ensures Held(HandleAll(s, during, w))
    decreases |during|
  {
    hide Held, Handle, OnlyEnds;
    if during != [] {
      HeldHandle(s, during[0], w);
      HeldHandleAll(Handle(s, during[0], w), during[1..], w);
    }
  }

  lemma HeldStep(s: Session, e: Event, w: World)
    requires Held(s) && Helpless(e)
    ensures Held(Step(s, e, w))
  {
    hide HandleAll, Handle, EndWrite, MacDrop, Complete, Finish, OnlyEnds;
    match e
    case FromNative(event) => HeldHandle(s, event, w);
    case TargetChosen(internal, _, during) => HeldHandleAll(s.(drag := s.drag.(internalTarget := internal)), during, w);
    case ExpiryFires(during) =>
      HeldHandleAll(s.(timers := s.timers.(expiry := false), drag := s.drag.(cancelling := true)), during, w);
    case Proceeds(q) => HeldRequest(s, e, w);
    case Resumes(q) => HeldRequest(s, e, w);
    case _ =>
  }

  lemma HeldRequest(s: Session, e: Event, w: World)
    requires Held(s) && (e.Proceeds? || e.Resumes?)
    ensures Held(Step(s, e, w))
  {
    hide EndWrite;
    if e.request in s.writes.requests {
      var d := s.writes.requests[e.request].delivery;
      HeldEndWrite(s, e.request, d, Delivered, w);
      if s.drag.slot.Refused? { HeldEndWrite(s, e.request, d, Failed(s.drag.slot.failure), w); }
      if s.writes.requests[e.request].Settled? {
        HeldEndWrite(s, e.request, d, s.writes.requests[e.request].outcome, w);
      }
    }
  }

  /** A drag that has expired after it had ended is answered by no write and no timer, not even
      the one that expiry sets, only by another end or a cancellation. */
  lemma {:induction false} ExpiredDropIsNotAnswered(s: Session, actions: seq<Action>)
    requires s.drag.cancelling && !s.life.resultSent && s.drag.terminal.Some? && s.drag.terminal.value.kind.Ended?
    requires forall a :: a in actions ==> Helpless(a.event)
    ensures !Run(s, actions).life.resultSent
    decreases |actions|
  {
    hide Step, Helpless;
    if actions != [] {
      HeldStep(s, actions[0].event, actions[0].world);
      ExpiredDropIsNotAnswered(Step(s, actions[0].event, actions[0].world), actions[1..]);
    }
  }
}
