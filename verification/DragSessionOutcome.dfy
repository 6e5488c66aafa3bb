/**
 What the result of a drag session tells: failures are not forgotten, nothing is delivered
 twice, and a macOS drop is reported after its items and a grace period, with all of them
 unless a fallback timer gave up on some.
 */
module DragSessionOutcome {
  import opened Common
  import opened DragSession
  import opened DragSessionSafety

  // ---------------------------------------------------------------- what only grows

  /** Deliveries made stay made, messages sent stay sent; only a fallback changes what is waited
      for, only the grace timer ends the grace period. */
  ghost predicate Grows(s: Session, r: Session) {
    && s.writes.delivered <= r.writes.delivered
    && s.life.sent <= r.life.sent
    && r.life.platform == s.life.platform
    && r.items.expected == s.items.expected
    && (s.life.released ==> r.life.released)
    && (r.timers.macGrace ==> s.timers.macGrace)
  }

  lemma FinishGrows(s: Session, w: World)
    ensures Grows(s, MaybeFinish(s, w))
    ensures MaybeFinish(s, w).items == s.items
  {
    hide Ending, MacDrop, Complete, Finish;
    EndingHasTerminal(s);
    if s.drag.terminal.Some? { ReportGrows(s, w); }
  }

  lemma EndingHasTerminal(s: Session)
    ensures Ending(s) ==> s.drag.terminal.Some?
  {
  }

  lemma ReportGrows(s: Session, w: World)
    requires s.drag.terminal.Some?
    ensures Grows(s, Finish(s, w)) && Finish(s, w).items == s.items
  {
    hide Report;
  }

  /** A write ends with an error that is not its cancellation. */
  predicate Spoils(cancelling: bool, outcome: Outcome) {
    outcome.Failed? && (cancelling ==> !outcome.failure.cancelLike)
  }

  lemma NotedGrows(items: Items, cancelling: bool, item: Item, outcome: Outcome)
    ensures Noted(items, cancelling, item, outcome).expected == items.expected
    ensures Failing(Noted(items, cancelling, item, outcome)) <==> Failing(items) || Spoils(cancelling, outcome)
    ensures item in Noted(items, cancelling, item, outcome).ended
            <==> item in items.ended || outcome.Delivered? || Spoils(cancelling, outcome)
  {
  }

  /** A write makes the drag fail exactly if it ends with an error that is not its cancellation. */
  lemma EndWriteGrows(s: Session, r: nat, d: Delivery, outcome: Outcome, w: World)
    ensures Grows(s, EndWrite(s, r, d, outcome, w))
    ensures Failing(EndWrite(s, r, d, outcome, w).items) <==> Failing(s.items) || Spoils(s.drag.cancelling, outcome)
  {
    hide MaybeFinish, Noted, Failing, Spoils;
    NotedGrows(s.items, s.drag.cancelling, d.item, outcome);
    var items := Noted(s.items, s.drag.cancelling, d.item, outcome);
    FinishGrows(s.(writes := Replied(s.writes, r), items := items), w);
  }

  lemma ProceedWriteGrows(s: Session, r: nat, d: Delivery, w: World)
    ensures Grows(s, ProceedWrite(s, r, d, w))
    ensures Failing(ProceedWrite(s, r, d, w).items) <==> Failing(s.items)
  {
    hide EndWrite, Failing;
    EndWriteGrows(s, r, d, Delivered, w);
  }

  lemma BeginWriteGrows(s: Session, d: Delivery, w: World)
    ensures Grows(s, BeginWrite(s, d, w)) && !BeginWrite(s, d, w).timers.macGrace
    ensures Failing(BeginWrite(s, d, w).items) <==> Failing(s.items)
  {
    hide ProceedWrite, Failing;
    var progressed := StartProgress(s.(writes := Counted(s.writes, d)), w);
    ProceedWriteGrows(progressed.(timers := progressed.timers.(mac := false, macGrace := false)), s.writes.next, d, w);
  }

  lemma EndGrows(s: Session, terminal: Terminal, target: Option<bool>, w: World)
    ensures Grows(s, HandleEnd(s, terminal, target, w))
    ensures HandleEnd(s, terminal, target, w).items == s.items
  {
    hide MaybeFinish;
    var aimed := if terminal.kind.Ended? && target.Some? then s.drag.(internalTarget := target.value) else s.drag;
    var shown := if terminal.kind.Ended? && !s.drag.uiReleased then Echoed(s, aimed.(uiReleased := true), "released")
                 else s.(drag := aimed);
    FinishGrows(shown.(drag := shown.drag.(terminal := Some(terminal))), w);
  }

  lemma HandleGrows(s: Session, e: Native, w: World)
    ensures Grows(s, Handle(s, e, w))
    ensures !s.life.released && e.WriteRequested? ==> !Handle(s, e, w).timers.macGrace
    ensures Failing(Handle(s, e, w).items) <==> Failing(s.items) || (e.ContentError? && !s.life.released)
  {
    hide BeginWrite, HandleEnd;
    match e
    case WriteRequested(d) => BeginWriteGrows(s, d, w);
    case End(terminal, target) => EndGrows(s, terminal, target, w);
    case _ =>
  }

  predicate HasWrite(during: seq<Native>) { exists e :: e in during && e.WriteRequested? }

  /** One of these events is a content error, and the session is not over when it comes. */
  predicate TakesUpError(s: Session, during: seq<Native>, w: World)
    decreases |during|
  {
    during != []
    && ((during[0].ContentError? && !s.life.released) || TakesUpError(Handle(s, during[0], w), during[1..], w))
  }

  lemma {:induction false} HandleAllGrows(s: Session, during: seq<Native>, w: World)
    ensures Grows(s, HandleAll(s, during, w))
    ensures !HandleAll(s, during, w).life.released && HasWrite(during) ==> !HandleAll(s, during, w).timers.macGrace
    ensures Failing(HandleAll(s, during, w).items) <==> Failing(s.items) || TakesUpError(s, during, w)
    decreases |during|
  {
    hide Handle, Failing;
    if during != [] {
      HandleGrows(s, during[0], w);
      HandleAllGrows(Handle(s, during[0], w), during[1..], w);
      if HasWrite(during) && !during[0].WriteRequested? {
        var e :| e in during && e.WriteRequested?;
        assert e in during[1..];
      }
    }
  }

  /** Something goes wrong in this step: a write ends with an error that is not its cancellation,
      because its delivery failed or its slot was refused, or a content error comes in. */
  predicate Fails(s: Session, e: Event, w: World) {
    match e
    case Resumes(r) =>
      r in s.writes.requests && s.writes.requests[r].Settled? && Spoils(s.drag.cancelling, s.writes.requests[r].outcome)
    case Proceeds(r) =>
      r in s.writes.requests && s.writes.requests[r].Waiting? && s.drag.slot.Refused?
      && Spoils(s.drag.cancelling, Failed(s.drag.slot.failure))
    case FromNative(event) => event.ContentError? && !s.life.released
    case TargetChosen(internal, _, during) =>
      s.life.registered && TakesUpError(s.(drag := s.drag.(internalTarget := internal)), during, w)
    case CancelRequested(_, during) =>
      s.life.registered && CanCancel(s) && TakesUpError(s.(drag := s.drag.(cancelling := true)), during, w)
    case ExpiryFires(during) =>
      s.timers.expiry && !s.life.released
      && TakesUpError(s.(timers := s.timers.(expiry := false), drag := s.drag.(cancelling := true)), during, w)
    case _ => false
  }

  /** The event brings a write request that the session takes up. */
  predicate Brings(s: Session, e: Event) {
    match e
    case FromNative(event) => !s.life.released && event.WriteRequested?
    case TargetChosen(_, _, during) => s.life.registered && HasWrite(during)
    case CancelRequested(_, during) => s.life.registered && CanCancel(s) && HasWrite(during)
    case ExpiryFires(during) => s.timers.expiry && !s.life.released && HasWrite(during)
    case _ => false
  }

  lemma DuringGrows(s: Session, e: Event, w: World)
    requires e.TargetChosen? || e.CancelRequested? || e.ExpiryFires?
    ensures Grows(s, Step(s, e, w))
    ensures !Step(s, e, w).life.released && Brings(s, e) ==> !Step(s, e, w).timers.macGrace
    ensures Failing(Step(s, e, w).items) <==> Failing(s.items) || Fails(s, e, w)
  {
    hide HandleAll, MaybeFinish, CanCancel, HasWrite, Failing, TakesUpError;
    match e
    case TargetChosen(internal, final, during) =>
      var aimed := s.(drag := s.drag.(internalTarget := internal));
      HandleAllGrows(aimed, during, w);
      FinishGrows(Acknowledged(HandleAll(aimed, during, w)), w);
    case CancelRequested(accepted, during) =>
      HandleAllGrows(s.(drag := s.drag.(cancelling := true)), during, w);
    case ExpiryFires(during) =>
      var fired := s.(timers := s.timers.(expiry := false));
      HandleAllGrows(fired.(drag := fired.drag.(cancelling := true)), during, w);
  }

  lemma RequestGrows(s: Session, e: Event, w: World)
    requires e.Proceeds? || e.Resumes?
    ensures Grows(s, Step(s, e, w))
    ensures Failing(Step(s, e, w).items) <==> Failing(s.items) || Fails(s, e, w)
  {
    hide ProceedWrite, EndWrite, Failing, Spoils;
    if e.request in s.writes.requests {
      var d := s.writes.requests[e.request].delivery;
      ProceedWriteGrows(s, e.request, d, w);
      if s.drag.slot.Refused? { EndWriteGrows(s, e.request, d, Failed(s.drag.slot.failure), w); }
      if s.writes.requests[e.request].Settled? {
        EndWriteGrows(s, e.request, d, s.writes.requests[e.request].outcome, w);
      }
    }
  }

  lemma OtherGrows(s: Session, e: Event, w: World)
    requires e.SlotSettles? || e.DeliveryResolves? || e.DeliveryClears? || e.WindowsTimerFires?
             || e.SenderDestroyed? || e.StartReturned? || e.StartThrew?
    ensures Grows(s, Step(s, e, w)) && Step(s, e, w).items == s.items
  {
    hide MaybeFinish;
    FinishGrows(Acknowledged(s), w);
  }

  /** As `Grows`, for a step that may end the grace period or change what is waited for. */
  ghost predicate Keeps(s: Session, r: Session) {
    && s.writes.delivered <= r.writes.delivered
    && s.life.sent <= r.life.sent
    && r.life.platform == s.life.platform
    && (Failing(s.items) ==> Failing(r.items))
    && (s.life.released ==> r.life.released)
  }

  lemma TimerKeeps(s: Session, e: Event, w: World)
    requires e.MacTimerFires? || e.FallbackFires?
    ensures Keeps(s, Step(s, e, w)) && (Failing(Step(s, e, w).items) <==> Failing(s.items))
    ensures e.MacTimerFires? ==> Step(s, e, w).items.expected == s.items.expected
    ensures Step(s, e, w).timers.macGrace ==> s.timers.macGrace || (e.MacTimerFires? && s.timers.mac)
  {
    hide MaybeFinish, CanCancel, Failing;
    match e
    case MacTimerFires => FinishGrows(s.(timers := s.timers.(mac := false, macGrace := true)), w);
    case FallbackFires(which, stray) =>
      var fired := s.(timers := if stray then s.timers.(strays := s.timers.strays - multiset{which})
                                else s.timers.(fallback := None));
      var t := if which.AfterCancel? then Terminal(Cancelled, "", DRAG_CANCELLED) else Terminal(Broken, "", TIMED_OUT);
      SameErrors(s.items, s.items.(expected := |s.items.ended|));
      FinishGrows(fired.(drag := fired.drag.(terminal := Some(t)),
                         items := fired.items.(expected := |fired.items.ended|)), w);
  }

  lemma SameErrors(a: Items, b: Items)
    requires a.contentErrors == b.contentErrors && a.writeError == b.writeError
    ensures Failing(a) == Failing(b)
  {
  }

  lemma StepGrows(s: Session, e: Event, w: World)
    ensures var r := Step(s, e, w);
            && Keeps(s, r)
            && (Failing(r.items) <==> Failing(s.items) || Fails(s, e, w))
            && (r.items.expected == s.items.expected || e.FallbackFires?)
            && (r.timers.macGrace ==> s.timers.macGrace || (e.MacTimerFires? && s.timers.mac))
            && (!r.life.released && Brings(s, e) ==> !r.timers.macGrace)
  {
    hide Step, Failing, HasWrite;
    match e
    case FromNative(event) => NativeGrows(s, e, w);
    case Proceeds(_) => RequestGrows(s, e, w);
    case Resumes(_) => RequestGrows(s, e, w);
    case TargetChosen(_, _, _) => DuringGrows(s, e, w);
    case CancelRequested(_, _) => DuringGrows(s, e, w);
    case ExpiryFires(_) => DuringGrows(s, e, w);
    case FallbackFires(_, _) => TimerKeeps(s, e, w);
    case MacTimerFires => TimerKeeps(s, e, w);
    case _ => OtherGrows(s, e, w);
  }

  lemma NativeGrows(s: Session, e: Event, w: World)
    requires e.FromNative?
    ensures Grows(s, Step(s, e, w)) && (Brings(s, e) ==> !Step(s, e, w).timers.macGrace)
    ensures Failing(Step(s, e, w).items) <==> Failing(s.items) || Fails(s, e, w)
  {
    hide Handle, Failing;
    HandleGrows(s, e.event, w);
  }

  // ---------------------------------------------------------------- runs

  lemma {:induction false} RunSplit(s: Session, a: seq<Action>, b: seq<Action>)
    ensures Run(s, a + b) == Run(Run(s, a), b)
    decreases |a|
  {
    if a == [] {
      assert a + b == b;
    } else {
      assert (a + b)[1..] == a[1..] + b;
      RunSplit(Step(s, a[0].event, a[0].world), a[1..], b);
    }
  }

  lemma {:induction false} RunKeeps(s: Session, actions: seq<Action>)
    ensures Keeps(s, Run(s, actions))
    decreases |actions|
  {
    hide Step, Failing;
    if actions != [] {
      StepGrows(s, actions[0].event, actions[0].world);
      RunKeeps(Step(s, actions[0].event, actions[0].world), actions[1..]);
    }
  }

  /** Once a write has ended with an error that is not its cancellation, or a content error has
      come in, no result of the run reports success, unless the drop was an internal one. */
  lemma FailureSpoilsTheDrag(platform: Platform, topLevel: nat, before: seq<Action>, a: Action, after: seq<Action>)
    requires StartHeld(before + [a] + after)
    requires Fails(Run(Start(platform, topLevel), before), a.event, a.world)
    ensures var sent := Run(Start(platform, topLevel), before + [a] + after).life.sent;
            forall m :: m in sent && m.Result? && m.ok ==> m.internal
  {
    hide Step, Failing, Fails;
    var start := Start(platform, topLevel);
    var s := Run(start, before);
    RunSplit(start, before + [a], after);
    RunSplit(start, before, [a]);
    assert Run(s, [a]) == Step(s, a.event, a.world) by { assert [a][1..] == []; }
    StepGrows(s, a.event, a.world);
    RunKeeps(Step(s, a.event, a.world), after);
    StartSound(platform, topLevel);
    RunKeepsSound(start, before + [a] + after);
  }

  /** The session takes the drag for failed exactly if something went wrong in some step. */
  lemma {:induction false} FailingIffAStepFailed(s: Session, actions: seq<Action>)
    requires !Failing(s.items)
    ensures Failing(Run(s, actions).items)
            <==> exists i :: 0 <= i < |actions| && Fails(At(s, actions, i), actions[i].event, actions[i].world)
    decreases |actions|
  {
    hide Step, Failing, Fails;
    if actions != [] {
      var n := |actions| - 1;
      var before, a := actions[..n], actions[n];
      assert actions == before + [a];
      FailingIffAStepFailed(s, before);
      AtNext(s, actions, n);
      assert actions[..n + 1] == actions;
      StepGrows(Run(s, before), a.event, a.world);
      forall i | 0 <= i < n ensures At(s, before, i) == At(s, actions, i) { assert before[..i] == actions[..i]; }
    }
  }

  /** For each item and target at most one delivery runs, and none starts once one succeeded. */
  lemma DeliveredOnce(platform: Platform, topLevel: nat, before: seq<Action>, after: seq<Action>, d: Delivery)
    requires StartHeld(before + after)
    ensures Run(Start(platform, topLevel), before + after).writes.running[d] <= 1
    ensures d in Run(Start(platform, topLevel), before).writes.delivered ==>
              Run(Start(platform, topLevel), before + after).writes.running[d] == 0
  {
    hide Step;
    var s := Start(platform, topLevel);
    RunSplit(s, before, after);
    RunKeeps(Run(s, before), after);
    StartSound(platform, topLevel);
    RunKeepsSound(s, before + after);
  }

  /** When the result is out, every write request has been answered exactly once. */
  lemma EveryWriteIsAnswered(platform: Platform, topLevel: nat, actions: seq<Action>)
    requires StartHeld(actions)
    ensures var s := Run(Start(platform, topLevel), actions);
            && (forall i, j :: 0 <= i < j < |s.writes.replies| ==> s.writes.replies[i] != s.writes.replies[j])
            && (s.life.resultSent ==> forall r: nat :: r < s.writes.next <==> r in s.writes.replies)
  {
    hide Run;
    StartSound(platform, topLevel);
    RunKeepsSound(Start(platform, topLevel), actions);
  }

  // ---------------------------------------------------------------- the macOS grace period

  /** The session after `n` actions. */
  function At(s: Session, actions: seq<Action>, n: nat): Session
    requires n <= |actions|
  {
    Run(s, actions[..n])
  }

  lemma AtNext(s: Session, actions: seq<Action>, n: nat)
    requires n < |actions|
    ensures At(s, actions, n + 1) == Step(At(s, actions, n), actions[n].event, actions[n].world)
  {
    assert actions[..n + 1] == actions[..n] + [actions[n]];
    RunSplit(s, actions[..n], [actions[n]]);
    assert Run(At(s, actions, n), [actions[n]]) == Step(At(s, actions, n), actions[n].event, actions[n].world);
  }

  /** The action before `k` set the grace timer, which has been running from there to `n`
      without a write coming in. */
  ghost predicate TimerRuns(s: Session, actions: seq<Action>, k: nat, n: nat) {
    && 0 < k <= n <= |actions|
    && (At(s, actions, k - 1).timers.mac ==> Brings(At(s, actions, k - 1), actions[k - 1].event))
    && (forall j :: k <= j <= n ==> At(s, actions, j).timers.mac)
    && NoWrites(s, actions, k, n)
  }

  ghost predicate NoWrites(s: Session, actions: seq<Action>, k: nat, n: nat)
    requires n <= |actions|
  {
    forall j :: k <= j < n ==> !Brings(At(s, actions, j), actions[j].event)
  }

  /** The timer that was set before `k` went off at `i`, and no write has come in since `k`. */
  ghost predicate GracePassed(s: Session, actions: seq<Action>, k: nat, i: nat, n: nat) {
    && i < n <= |actions| && actions[i].event == MacTimerFires
    && TimerRuns(s, actions, k, i)
    && NoWrites(s, actions, k, n)
  }

  lemma {:induction false} TimerStory(s: Session, actions: seq<Action>, n: nat)
    requires n <= |actions| && !s.timers.mac
    requires At(s, actions, n).timers.mac
    ensures exists k :: TimerRuns(s, actions, k, n)
    decreases n
  {
    hide Step, Brings;
    assert actions[..0] == [];
    if n > 0 {
      var before := At(s, actions, n - 1);
      if before.timers.mac && !Brings(before, actions[n - 1].event) {
        TimerStory(s, actions, n - 1);
        var k :| TimerRuns(s, actions, k, n - 1);
        assert TimerRuns(s, actions, k, n);
      } else {
        assert TimerRuns(s, actions, n, n);
      }
    }
  }

  lemma {:induction false} GraceStory(s: Session, actions: seq<Action>, n: nat)
    requires n <= |actions| && !s.timers.mac && !s.timers.macGrace
    requires At(s, actions, n).timers.macGrace && !At(s, actions, n).life.released
    ensures exists k, i :: GracePassed(s, actions, k, i, n)
    decreases n
  {
    hide Step, Brings;
    assert actions[..0] == [];
    if n > 0 {
      var before, e := At(s, actions, n - 1), actions[n - 1].event;
      AtNext(s, actions, n - 1);
      StepGrows(before, e, actions[n - 1].world);
      if before.timers.macGrace {
        GraceStory(s, actions, n - 1);
        var k, i :| GracePassed(s, actions, k, i, n - 1);
        assert GracePassed(s, actions, k, i, n);
      } else {
        TimerStory(s, actions, n - 1);
        var k :| TimerRuns(s, actions, k, n - 1);
        assert GracePassed(s, actions, k, n - 1, n) by { TimerIsNoWrite(before, e); }
      }
    }
  }

  lemma TimerIsNoWrite(s: Session, e: Event)
    ensures e.MacTimerFires? ==> !Brings(s, e)
  {
  }

  // ---------------------------------------------------------------- items given up

  /** A fallback timer goes off and makes the session give up. */
  predicate GivesUp(s: Session, e: Event) {
    && e.FallbackFires? && !s.life.released
    && (if e.stray then e.which in s.timers.strays else s.timers.fallback == Some(e.which))
    && (if e.which.AfterCancel? then CanCancel(s) else s.drag.terminal.None?)
  }

  /** It does so while a write is pending and not all top-level items have ended. */
  predicate LeavesItems(s: Session, e: Event, topLevel: nat) {
    GivesUp(s, e) && s.writes.pending > 0 && |s.items.ended| < topLevel
  }

  /** All top-level items are waited for, or the drag was reported and not as a macOS drop. */
  ghost predicate WaitsForAll(s: Session, topLevel: nat) {
    s.items.expected >= topLevel || (s.life.resultSent && !MacDrop(s))
  }

  /** A session that is over changes nothing a reader of the result could tell. */
  lemma OverStays(s: Session, e: Event, w: World)
    requires Sound(s) && s.life.resultSent && !e.StartThrew?
    ensures var r := Step(s, e, w);
            && r.life.resultSent && r.life.sent == s.life.sent && r.life.platform == s.life.platform
            && r.drag.terminal == s.drag.terminal && r.drag.internalTarget == s.drag.internalTarget
  {
    hide HandleAll, MaybeFinish, GiveUp, ProceedWrite, EndWrite;
  }

  lemma FallbackGivesUp(s: Session, e: Event, w: World)
    requires Sound(s) && e.FallbackFires? && s.life.platform.Mac?
    ensures var r := Step(s, e, w);
            if !GivesUp(s, e) then r.life == s.life && r.drag == s.drag && r.items == s.items
            else r.items.expected == |s.items.ended| && (if s.writes.pending > 0 then !r.life.resultSent
                                                         else r.life.resultSent && !MacDrop(r))
  {
    hide Finish, Report, Tallied, Delivering, Idle;
    ReleasedWhenAnswered(s);
    if GivesUp(s, e) {
      var fired := s.(timers := if e.stray then s.timers.(strays := s.timers.strays - multiset{e.which})
                                else s.timers.(fallback := None));
      var t := if e.which.AfterCancel? then Terminal(Cancelled, "", DRAG_CANCELLED)
          else Terminal(Broken, "", TIMED_OUT);
      var over := fired.(drag := fired.drag.(terminal := Some(t)),
                         items := fired.items.(expected := |fired.items.ended|));
      assert Step(s, e, w) == MaybeFinish(over, w);
      FinishEnds(over, w);
    }
  }

  lemma FinishEnds(s: Session, w: World)
    requires s.drag.terminal.Some?
    ensures var r := Finish(s, w);
            && r.life.resultSent && r.items == s.items && r.life.platform == s.life.platform
            && r.drag.terminal == s.drag.terminal && r.drag.internalTarget == s.drag.internalTarget
  {
    hide Report;
  }

  lemma StepWaitsForAll(s: Session, e: Event, w: World, topLevel: nat)
    requires Sound(s) && s.life.platform.Mac? && !e.StartThrew? && WaitsForAll(s, topLevel)
    ensures if LeavesItems(s, e, topLevel) then !Step(s, e, w).life.resultSent else WaitsForAll(Step(s, e, w), topLevel)
  {
    hide Step, Sound, GivesUp;
    StepGrows(s, e, w);
    if s.life.resultSent { OverStays(s, e, w); }
    if e.FallbackFires? { FallbackGivesUp(s, e, w); }
    else { assert !GivesUp(s, e) by { OnlyFallbackGivesUp(s, e); } }
  }

  lemma OnlyFallbackGivesUp(s: Session, e: Event)
    ensures GivesUp(s, e) ==> e.FallbackFires?
  {
  }

  /** As long as no fallback leaves items behind, all of them are waited for. */
  lemma {:induction false} AllAreWaitedFor(topLevel: nat, actions: seq<Action>, n: nat)
    requires n <= |actions| && StartHeld(actions)
    ensures var start := Start(Mac, topLevel);
            && Sound(At(start, actions, n)) && At(start, actions, n).life.platform.Mac?
            && (WaitsForAll(At(start, actions, n), topLevel)
                || exists i :: 0 <= i < n && LeavesItems(At(start, actions, i), actions[i].event, topLevel))
    decreases n
  {
    hide Step, Sound, LeavesItems, WaitsForAll;
    var start := Start(Mac, topLevel);
    if n == 0 {
      assert actions[..0] == [];
      StartSound(Mac, topLevel);
      assert WaitsForAll(start, topLevel) by { StartWaitsForAll(topLevel); }
    } else {
      AllAreWaitedFor(topLevel, actions, n - 1);
      AtNext(start, actions, n - 1);
      var s, a := At(start, actions, n - 1), actions[n - 1];
      assert a in actions;
      StepKeepsSound(s, a.event, a.world);
      StepGrows(s, a.event, a.world);
      if WaitsForAll(s, topLevel) { StepWaitsForAll(s, a.event, a.world, topLevel); }
    }
  }

  lemma StartWaitsForAll(topLevel: nat)
    ensures WaitsForAll(Start(Mac, topLevel), topLevel)
  {
  }

  /** A macOS drop outside the program is reported when all items that are waited for have
      ended and the grace timer, set after that, has run out with no write coming in.  All
      top-level items have ended then, unless a fallback timer gave up on some while a write
      was pending. */
  lemma MacDropIsReportedLate(topLevel: nat, actions: seq<Action>, last: Action)
    requires StartHeld(actions) && !last.event.StartThrew?
    requires !Run(Start(Mac, topLevel), actions).life.resultSent
    requires var r := Step(Run(Start(Mac, topLevel), actions), last.event, last.world); r.life.resultSent && MacDrop(r)
    ensures var start := Start(Mac, topLevel);
            var r := Step(Run(start, actions), last.event, last.world);
            && Complete(r.items)
            && (|r.items.ended| >= topLevel
                || exists i :: 0 <= i < |actions| && LeavesItems(At(start, actions, i), actions[i].event, topLevel))
            && ((exists k, i :: GracePassed(start, actions, k, i, |actions|))
                || (last.event == MacTimerFires && exists k :: TimerRuns(start, actions, k, |actions|)))
  {
    hide Step, Run, Sound, LeavesItems, MacDrop, TimerRuns, GracePassed, Start, StartHeld;
    var start := Start(Mac, topLevel);
    StartIsQuiet(topLevel);
    var s := Run(start, actions);
    assert actions[..|actions|] == actions;
    assert s == At(start, actions, |actions|);
    AllAreWaitedFor(topLevel, actions, |actions|);
    StepKeepsSound(s, last.event, last.world);
    var r := Step(s, last.event, last.world);
    ReportedComplete(r);
    ReleasedWhenAnswered(s);
    StepGrows(s, last.event, last.world);
    if WaitsForAll(s, topLevel) { StepWaitsForAll(s, last.event, last.world, topLevel); }
    if s.timers.macGrace { GraceStory(start, actions, |actions|); }
    else { TimerStory(start, actions, |actions|); }
  }

  lemma StartIsQuiet(topLevel: nat)
    ensures !Start(Mac, topLevel).timers.mac && !Start(Mac, topLevel).timers.macGrace
  {
  }

  lemma ReportedComplete(s: Session)
    requires Sound(s) && s.life.resultSent && MacDrop(s)
    ensures Complete(s.items) && s.timers.macGrace
  {
  }
}
