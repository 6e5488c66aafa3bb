/**
 Runs in which a drag session does less than one would expect, and what they have in common.
 */
module DragSessionGaps {
  import opened Common
  import opened DragSession
  import opened DragSessionSafety
  import opened DragSessionOutcome

  const PLAIN := World(false, JobOther)

  function Do(e: Event): Action { Action(e, PLAIN) }

  /** A run without transfer tasks in which every job ends as reported. */
  function Plainly(s: Session, events: seq<Event>): Session
    decreases |events|
  {
    if events == [] then s else Plainly(Step(s, events[0], PLAIN), events[1..])
  }

  function Acts(events: seq<Event>): seq<Action> {
    if events == [] then [] else [Do(events[0])] + Acts(events[1..])
  }

  lemma {:induction false} PlainRun(s: Session, events: seq<Event>)
    ensures Run(s, Acts(events)) == Plainly(s, events)
    decreases |events|
  {
    hide Step;
    if events != [] {
      assert Acts(events)[1..] == Acts(events[1..]);
      PlainRun(Step(s, events[0], PLAIN), events[1..]);
    }
  }

  /** A delivery that fails as a cancelled one does so because the session was aborted: the
      backend raises that error only when it finds the session's signal set. */
  predicate Caused(s: Session, e: Event) {
    e.DeliveryResolves? && e.outcome.Failed? && e.outcome.failure.cancelLike ==> s.drag.aborted
  }

  ghost predicate AllCaused(s: Session, actions: seq<Action>)
    decreases |actions|
  {
    actions != [] ==>
      Caused(s, actions[0].event) && AllCaused(Step(s, actions[0].event, actions[0].world), actions[1..])
  }

  /** One more event of a run. */
  lemma Onward(s: Session, events: seq<Event>, n: nat)
    requires n < |events|
    ensures Plainly(s, events[n..]) == Plainly(Step(s, events[n], PLAIN), events[n + 1..])
    ensures AllCaused(s, Acts(events[n..]))
            <==> Caused(s, events[n]) && AllCaused(Step(s, events[n], PLAIN), Acts(events[n + 1..]))
  {
    hide Step, Caused;
    assert events[n..][1..] == events[n + 1..];
    assert Acts(events[n..])[1..] == Acts(events[n + 1..]);
  }

  lemma Done(s: Session, events: seq<Event>)
    ensures Plainly(s, events[|events|..]) == s && AllCaused(s, Acts(events[|events|..])) && events[0..] == events
  {
  }

  // ---------------------------------------------------------------- a start that throws

  /** The expiry timer survives a start that throws, and reports a second time. */
  const AFTER_THROW: seq<Event> :=
    [StartThrew, ExpiryFires([]), FallbackFires(AfterExpiry, false), WindowsTimerFires]

  /** A session that is still starting, idle and not over. */
  ghost predicate Waits(s: Session) {
    && Sound(s) && s.life.phase.Starting? && !s.life.senderGone && !s.life.resultSent
    && s.drag.terminal.None? && s.writes.pending == 0 && s.timers.expiry && s.timers.fallback.None?
  }

  /** When the native start throws, the renderer is answered at once, and again when the
      session expires: `OneResultAndNothingAfter` needs a start that returns. */
  lemma ThrownStartAnswersTwice(s: Session)
    requires Waits(s)
    ensures var sent := Run(s, Acts(AFTER_THROW)).life.sent;
            && |sent| == |s.life.sent| + 2
            && sent[|sent| - 2] == Result(false, DRAG_FAILED, false)
            && sent[|sent| - 1].Result?
  {
    hide Run, Sound, Step, Plainly;
    var a := Step(s, StartThrew, PLAIN);
    var b := Step(a, ExpiryFires([]), PLAIN);
    var c := Step(b, FallbackFires(AfterExpiry, false), PLAIN);
    PlainRun(s, AFTER_THROW);
    Onward(s, AFTER_THROW, 0);
    Onward(a, AFTER_THROW, 1);
    Onward(b, AFTER_THROW, 2);
    Onward(c, AFTER_THROW, 3);
    Done(Step(c, WindowsTimerFires, PLAIN), AFTER_THROW);
    Unreleased(s);
    ThrownAnswer(s);
    LastAnswer(b);
  }

  lemma Unreleased(s: Session)
    requires Waits(s)
    ensures !s.life.released
  {
  }

  /** Until the fallback fires, the session that threw is as before, but answered. */
  lemma ThrownAnswer(s: Session)
    requires Waits(s) && !s.life.released
    ensures var b := Step(Step(s, StartThrew, PLAIN), ExpiryFires([]), PLAIN);
            && b.life.sent == s.life.sent + [Result(false, DRAG_FAILED, false)]
            && b.timers.fallback == Some(AfterExpiry) && b.drag.terminal.None? && b.writes.pending == 0
            && !b.life.released && !b.life.resultSent && !b.life.senderGone
  {
    hide Sound, Handle;
  }

  /** One more message, a result. */
  ghost predicate AnsweredOnceMore(s: Session, r: Session) {
    |r.life.sent| == |s.life.sent| + 1 && r.life.sent[..|s.life.sent|] == s.life.sent
        && r.life.sent[|s.life.sent|].Result?
  }

  lemma FinishAnswers(s: Session, w: World)
    requires s.drag.terminal.Some? && !s.life.senderGone
    ensures AnsweredOnceMore(s, Finish(s, w)) && (s.life.released || !Finish(s, w).timers.windows)
  {
    hide Report;
    ReportIsHonest(s.drag, s.items, w.job);
  }

  lemma LastAnswer(b: Session)
    requires b.timers.fallback == Some(AfterExpiry) && b.drag.terminal.None? && b.writes.pending == 0
    requires !b.life.released && !b.life.resultSent && !b.life.senderGone
    ensures AnsweredOnceMore(b, Step(Step(b, FallbackFires(AfterExpiry, false), PLAIN), WindowsTimerFires, PLAIN))
  {
    hide Report, Finish, AnsweredOnceMore;
    var over := b.(timers := b.timers.(fallback := None),
                   drag := b.drag.(terminal := Some(Terminal(Broken, "", TIMED_OUT))),
                   items := b.items.(expected := |b.items.ended|));
    var armed := over.(timers := over.timers.(windows := true));
    FinishAnswers(over, PLAIN);
    FinishAnswers(Acknowledged(armed), PLAIN);
    SameSent(b, over, Finish(over, PLAIN));
    SameSent(b, Acknowledged(armed), Finish(Acknowledged(armed), PLAIN));
  }

  lemma SameSent(a: Session, b: Session, r: Session)
    requires a.life.sent == b.life.sent
    ensures AnsweredOnceMore(a, r) <==> AnsweredOnceMore(b, r)
  {
  }

  /** A result is the last message there is. */
  ghost predicate ResultIsLast(sent: seq<Message>) {
    forall i :: 0 <= i < |sent| && sent[i].Result? ==> i == |sent| - 1
  }

  /** There is one result at most, and nothing after it, exactly if the native start may not
      throw. */
  lemma OneResultIffStartHolds(platform: Platform, topLevel: nat, mayThrow: bool)
    ensures (forall actions :: mayThrow || StartHeld(actions) ==>
               ResultIsLast(Run(Start(platform, topLevel), actions).life.sent))
            <==> !mayThrow
  {
    hide Run;
    var start := Start(platform, topLevel);
    if mayThrow {
      StartSound(platform, topLevel);
      ThrownStartAnswersTwice(start);
      var sent := Run(start, Acts(AFTER_THROW)).life.sent;
      assert sent[|sent| - 2].Result? && |sent| - 2 != |sent| - 1;
      assert !ResultIsLast(sent);
    } else {
      forall actions | StartHeld(actions) ensures ResultIsLast(Run(start, actions).life.sent) {
        OneResultAndNothingAfter(platform, topLevel, actions);
      }
    }
  }

  // ---------------------------------------------------------------- items given up

  const ONE: Delivery := Delivery("a", "/t/a")

  const ABORTED := Failed(Failure(DRAG_CANCELLED, "AbortError", true))

  const DROPPED := Terminal(Ended, "copy", "")

  /** An item is being written when the session expires and its fallback gives up on it.
      AppKit then reports the end, a cancellation is accepted, and the write fails as cancelled.
      Another cancellation, which is refused, and the final target clear the way: the drop is
      reported as done. */
  const GIVEN_UP: seq<Event> :=
    [FromNative(WriteRequested(ONE)), ExpiryFires([]), FallbackFires(AfterExpiry, false),
     FromNative(End(DROPPED, None)), CancelRequested(true, []),
     DeliveryResolves(ONE, ABORTED), DeliveryClears(ONE), Resumes(0),
     CancelRequested(false, []), TargetChosen(false, true, []), MacTimerFires]

  /** The session in which nothing ends. */
  ghost predicate Empty(s: Session, terminal: Option<Terminal>, cancelling: bool) {
    && s.life.platform == Mac && !s.life.released && !s.life.resultSent && s.life.registered && !s.life.senderGone
    && s.drag.terminal == terminal && s.drag.cancelling == cancelling && !s.drag.internalTarget
    && s.items.ended == {} && s.items.contentErrors == [] && s.items.writeError == "" && !s.timers.macGrace
  }

  ghost predicate Writing(s: Session, request: Request) {
    s.writes.pending == 1 && s.writes.requests == map[0 := request]
  }

  lemma Begun(topLevel: nat)
    ensures var s := Step(Start(Mac, topLevel), FromNative(WriteRequested(ONE)), PLAIN);
            Empty(s, None, false) && Writing(s, Joined(ONE)) && s.timers.expiry && s.writes.inflight == map[ONE := None]
  {
  }

  lemma GaveUp(s: Session)
    requires Empty(s, None, false) && Writing(s, Joined(ONE))
    requires s.timers.expiry && s.writes.inflight == map[ONE := None]
    ensures var t := Step(Step(s, ExpiryFires([]), PLAIN), FallbackFires(AfterExpiry, false), PLAIN);
            && Empty(t, Some(Terminal(Broken, "", TIMED_OUT)), true) && Writing(t, Joined(ONE))
            && t.items.expected == 0 && t.writes.inflight == map[ONE := None]
  {
    hide Report, Finish;
  }

  lemma Dropped(s: Session)
    requires Empty(s, Some(Terminal(Broken, "", TIMED_OUT)), true) && Writing(s, Joined(ONE))
    requires s.items.expected == 0 && s.writes.inflight == map[ONE := None]
    ensures var t := Step(s, FromNative(End(DROPPED, None)), PLAIN);
            && Empty(t, Some(DROPPED), true) && Writing(t, Joined(ONE))
            && t.items.expected == 0 && t.writes.inflight == map[ONE := None]
  {
    hide Report, Finish;
  }

  lemma Accepted(s: Session)
    requires Empty(s, Some(DROPPED), true) && Writing(s, Joined(ONE))
    ensures var t := Step(s, CancelRequested(true, []), PLAIN);
            && Empty(t, Some(DROPPED), true) && Writing(t, Joined(ONE)) && t.drag.aborted
            && t.items == s.items && t.writes == s.writes
  {
    hide Report, Finish;
  }

  lemma Aborted(s: Session)
    requires Empty(s, Some(DROPPED), true) && Writing(s, Joined(ONE)) && s.writes.inflight == map[ONE := None]
    ensures var t := Step(Step(s, DeliveryResolves(ONE, ABORTED), PLAIN), DeliveryClears(ONE), PLAIN);
            Empty(t, Some(DROPPED), true) && Writing(t, Settled(ONE, ABORTED)) && t.items == s.items
  {
  }

  lemma Cleared(s: Session)
    requires Empty(s, Some(DROPPED), true) && Writing(s, Settled(ONE, ABORTED)) && s.items.expected == 0
    ensures var t := Step(Step(s, Resumes(0), PLAIN), CancelRequested(false, []), PLAIN);
            Empty(t, Some(DROPPED), false) && t.writes.pending == 0 && t.items.expected == 0
  {
    hide Report, Finish;
  }

  /** The drop is reported as done with not one of its items written. */
  ghost predicate DoneEmpty(s: Session) {
    s.life.resultSent && MacDrop(s) && s.items.ended == {} && Result(true, "", false) in s.life.sent
  }

  lemma Reported(s: Session)
    requires Empty(s, Some(DROPPED), false) && s.writes.pending == 0 && s.items.expected == 0
    ensures var t := Step(Step(s, TargetChosen(false, true, []), PLAIN), MacTimerFires, PLAIN); DoneEmpty(t)
  {
    hide Finish;
    var r := Step(s, TargetChosen(false, true, []), PLAIN);
    assert r.timers.mac && Empty(r, Some(DROPPED), false) && r.items == s.items;
    assert Step(r, MacTimerFires, PLAIN) == Finish(Passed(r), PLAIN);
    Told(r);
  }

  /** The grace period is over. */
  function Passed(s: Session): Session { s.(timers := s.timers.(mac := false, macGrace := true)) }

  lemma Told(s: Session)
    requires Empty(s, Some(DROPPED), false)
    ensures var t := Finish(Passed(s), PLAIN);
            t.life.resultSent && MacDrop(t) && t.items == s.items && Result(true, "", false) in t.life.sent
  {
    assert Report(s.drag, s.items, JobOther) == Result(true, "", false);
  }

  /** Whatever the number of items, a run can report a macOS drop as done with nothing written. */
  lemma DropReportedWithNothingWritten(topLevel: nat)
    ensures DoneEmpty(Run(Start(Mac, topLevel), Acts(GIVEN_UP)))
    ensures AllCaused(Start(Mac, topLevel), Acts(GIVEN_UP))
  {
    hide Step, Run, Plainly, MacDrop, AllCaused, Acts, Start, Empty, Writing, DoneEmpty;
    var s0 := Start(Mac, topLevel);
    var s1 := Step(s0, GIVEN_UP[0], PLAIN);
    var s2 := Step(s1, GIVEN_UP[1], PLAIN);
    var s3 := Step(s2, GIVEN_UP[2], PLAIN);
    var s4 := Step(s3, GIVEN_UP[3], PLAIN);
    var s5 := Step(s4, GIVEN_UP[4], PLAIN);
    var s6 := Step(s5, GIVEN_UP[5], PLAIN);
    var s7 := Step(s6, GIVEN_UP[6], PLAIN);
    var s8 := Step(s7, GIVEN_UP[7], PLAIN);
    var s9 := Step(s8, GIVEN_UP[8], PLAIN);
    var s10 := Step(s9, GIVEN_UP[9], PLAIN);
    PlainRun(s0, GIVEN_UP);
    Onward(s0, GIVEN_UP, 0);
    Onward(s1, GIVEN_UP, 1);
    Onward(s2, GIVEN_UP, 2);
    Onward(s3, GIVEN_UP, 3);
    Onward(s4, GIVEN_UP, 4);
    Onward(s5, GIVEN_UP, 5);
    Onward(s6, GIVEN_UP, 6);
    Onward(s7, GIVEN_UP, 7);
    Onward(s8, GIVEN_UP, 8);
    Onward(s9, GIVEN_UP, 9);
    Onward(s10, GIVEN_UP, 10);
    Done(Step(s10, GIVEN_UP[10], PLAIN), GIVEN_UP);
    Begun(topLevel);
    GaveUp(s1);
    Dropped(s3);
    Accepted(s4);
    Aborted(s5);
    Cleared(s7);
    Reported(s9);
  }

  /** The runs whose start returned and in which deliveries fail as cancelled only once the
      session is aborted, with or without fallback timers that go off. */
  ghost predicate Permitted(topLevel: nat, actions: seq<Action>, fallbacks: bool) {
    && StartHeld(actions) && AllCaused(Start(Mac, topLevel), actions)
    && (fallbacks || forall a :: a in actions ==> !a.event.FallbackFires?)
  }

  /** A macOS drop, if that is what was reported, is whole. */
  ghost predicate WholeDrop(s: Session, topLevel: nat) {
    s.life.resultSent && MacDrop(s) ==> |s.items.ended| >= topLevel
  }

  lemma WithoutFallbackWhole(topLevel: nat, actions: seq<Action>)
    requires Permitted(topLevel, actions, false)
    ensures WholeDrop(Run(Start(Mac, topLevel), actions), topLevel)
  {
    hide Run, Sound;
    AllAreWaitedFor(topLevel, actions, |actions|);
    assert actions[..|actions|] == actions;
    var s := Run(Start(Mac, topLevel), actions);
    if s.life.resultSent && MacDrop(s) { ReportedComplete(s); }
  }

  /** All top-level items of every reported macOS drop have ended, exactly if there are none or
      no fallback timer may go off; and no drop is reported as done with nothing written under
      the same condition. */
  lemma DropsAreWholeIff(topLevel: nat, fallbacks: bool)
    ensures (forall actions :: Permitted(topLevel, actions, fallbacks) ==>
               WholeDrop(Run(Start(Mac, topLevel), actions), topLevel))
            <==> topLevel == 0 || !fallbacks
    ensures (forall actions :: Permitted(topLevel, actions, fallbacks) && topLevel > 0 ==>
               !DoneEmpty(Run(Start(Mac, topLevel), actions)))
            <==> topLevel == 0 || !fallbacks
  {
    hide Run, MacDrop, WholeDrop, DoneEmpty;
    var start := Start(Mac, topLevel);
    if topLevel > 0 && fallbacks {
      DropReportedWithNothingWritten(topLevel);
      GivenUpIsPermitted(topLevel);
      EmptyIsNotWhole(Run(start, Acts(GIVEN_UP)), topLevel);
    } else {
      forall actions | Permitted(topLevel, actions, fallbacks)
        ensures WholeDrop(Run(start, actions), topLevel) && (topLevel > 0 ==> !DoneEmpty(Run(start, actions)))
      {
        if topLevel > 0 { WithoutFallbackWhole(topLevel, actions); } else { NothingIsWhole(Run(start, actions)); }
        if DoneEmpty(Run(start, actions)) && topLevel > 0 { EmptyIsNotWhole(Run(start, actions), topLevel); }
      }
    }
  }

  lemma NothingIsWhole(s: Session)
    ensures WholeDrop(s, 0)
  {
  }

  lemma EmptyIsNotWhole(s: Session, topLevel: nat)
    requires DoneEmpty(s) && topLevel > 0
    ensures !WholeDrop(s, topLevel)
  {
  }

  lemma {:induction false} ActsAre(events: seq<Event>, a: Action)
    requires a in Acts(events)
    ensures a.event in events
  {
    if a != Do(events[0]) { ActsAre(events[1..], a); }
  }

  lemma GivenUpIsPermitted(topLevel: nat)
    requires AllCaused(Start(Mac, topLevel), Acts(GIVEN_UP))
    ensures Permitted(topLevel, Acts(GIVEN_UP), true)
  {
    hide AllCaused;
    forall a | a in Acts(GIVEN_UP) ensures !a.event.StartThrew? { ActsAre(GIVEN_UP, a); }
  }
}
