/**
 What each handler of a drag session promises to those who see it from outside: the renderer,
 which gets messages, and the native side, whose write requests are answered.
 */
module DragSessionPromises {
  import opened Common
  import opened DragSession
  import opened DragSessionSafety
  import opened DragSessionOutcome

  // ---------------------------------------------------------------- messages

  /** Messages sent stay, and none follows a result.  A new result is the last message; it is
      sent when no write is pending and no delivery runs, and after a failure it reports success
      for an internal drop only. */
  ghost predicate Tells(s: Session, r: Session) {
    && s.life.sent <= r.life.sent
    && (s.life.resultSent ==> r.life.resultSent && r.life.sent == s.life.sent)
    && (forall i :: |s.life.sent| <= i < |r.life.sent| && r.life.sent[i].Result? ==>
          i == |r.life.sent| - 1 && Last(r, r.life.sent[i]))
  }

  /** A session in which this result is sent. */
  ghost predicate Last(r: Session, m: Message) {
    && r.life.resultSent && r.writes.pending == 0 && r.writes.running == multiset{}
    && (m.Result? && m.ok && !m.internal ==> !Failing(r.items))
  }

  lemma SoundTells(s: Session, r: Session)
    requires Sound(r) && s.life.sent <= r.life.sent
    requires s.life.resultSent ==> r.life.resultSent && r.life.sent == s.life.sent
    ensures Tells(s, r)
  {
  }

  lemma TellsOn(s: Session, m: Session, r: Session)
    requires Tells(s, m) && Tells(m, r) && Sound(r)
    ensures Tells(s, r)
  {
    hide Sound;
    assert s.life.sent <= r.life.sent;
    SoundTells(s, r);
  }

  lemma SameTells(s: Session, r: Session)
    requires Sound(r) && r.life == s.life
    ensures Tells(s, r)
  {
    SoundTells(s, r);
  }

  /** No handler and no timer breaks these promises. */
  lemma StepTells(s: Session, e: Event, w: World)
    requires Sound(s) && !e.StartThrew?
    ensures Sound(Step(s, e, w)) && Tells(s, Step(s, e, w))
  {
    hide Step, Sound;
    StepKeepsSound(s, e, w);
    StepGrows(s, e, w);
    if s.life.resultSent { OverStays(s, e, w); }
    SoundTells(s, Step(s, e, w));
  }

  // ---------------------------------------------------------------- the end of a session

  /** The result is due: the drag has ended for good and nothing is being written; a macOS drop
      has all its items and its grace period, and Windows has told where the drop went. */
  predicate Due(s: Session) {
    && s.drag.terminal.Some? && !s.life.resultSent && s.writes.pending == 0
    && (s.drag.cancelling ==> !s.drag.terminal.value.kind.Ended?)
    && (DroppedOutside(s.drag) && s.life.platform.Mac? ==>
          |s.items.ended| >= s.items.expected && s.timers.macGrace)
    && (s.life.platform.Windows? ==> s.timers.windowsAcknowledged)
  }

  /** The drag ended with an operation, and not on a target of the program. */
  predicate DroppedOutside(drag: Drag) {
    match drag.terminal
    case Some(Terminal(Ended, operation, _)) =>
      !drag.internalTarget && operation != "none" && operation != "unknown"
    case _ => false
  }

  lemma FinishTells(s: Session, w: World)
    requires Sound(s)
    ensures var r := MaybeFinish(s, w);
            && Sound(r) && Tells(s, r) && r.items == s.items && r.writes == s.writes
            && (r.life.resultSent <==> s.life.resultSent || Due(s))
            && (!Due(s) ==> r.life == s.life)
  {
    hide Sound, Report;
    FinishKeeps(s, w);
    FinishGrows(s, w);
    SoundTells(s, MaybeFinish(s, w));
  }

  /** When an external drag is reported as a success. */
  predicate Succeeds(t: Terminal, items: Items, job: Job) {
    job.JobOther? && !Failing(items)
    && (t.kind.Completed? || (t.kind.Ended? && t.operation != "none" && t.operation != "unknown"))
  }

  lemma ReportSucceedsIff(drag: Drag, items: Items, job: Job)
    requires drag.terminal.Some?
    ensures var m := Report(drag, items, job);
            && m.Result? && m.internal == drag.internalTarget
            && (m.ok <==> m.internal || Succeeds(drag.terminal.value, items, job))
            && (m.internal ==> m.message == "") && (!m.ok ==> m.message != "")
  {
  }

  /** The result of an external drag tells a write error before a content error, that before a
      cancellation, that before what the native side said, and a cancelled job before all. */
  lemma ReportTellsWhy(drag: Drag, items: Items, job: Job)
    requires drag.terminal.Some? && !drag.internalTarget
    ensures var m := Report(drag, items, job).message; var t := drag.terminal.value;
            var errors := items.contentErrors; var n := |errors|;
            if job.JobCancelled? then m == if t.kind.Completed? then DRAG_INCOMPLETE else DRAG_CANCELLED
            else if items.writeError != "" then m == items.writeError
            else if n > 0 && errors[n - 1] != "" then m == errors[n - 1]
            else if t.kind.Cancelled? || t.operation == "none" then m == DRAG_CANCELLED
            else if t.message != "" then m == t.message
            else if t.kind.Completed? || (t.kind.Ended? && t.operation != "unknown")
              then m == if job.JobFailed? then DOWNLOAD_FAILED else ""
            else m == DRAG_FAILED
  {
  }

  /** What an end event leaves as the end of the drag. */
  function LatestEnd(before: Option<Terminal>, terminal: Terminal): Option<Terminal> {
    if before.Some? && before.value.kind.Cancelled? && terminal.kind.Ended? then before else Some(terminal)
  }

  lemma EndTells(s: Session, terminal: Terminal, target: Option<bool>, w: World)
    requires Sound(s) && !s.life.resultSent
    ensures var r := HandleEnd(s, terminal, target, w);
            && Sound(r) && Tells(s, r)
            && r.drag.terminal == LatestEnd(s.drag.terminal, terminal)
  {
    hide Sound, Report, Ending, MacDrop, Complete;
    EndKeeps(s, terminal, target, w);
    EndGrows(s, terminal, target, w);
    SoundTells(s, HandleEnd(s, terminal, target, w));
    assert forall t :: MaybeFinish(t, w).drag.terminal == t.drag.terminal;
  }

  // ---------------------------------------------------------------- writes

  /** Each delivery runs once at most, and one that succeeded is not started again. */
  ghost predicate NoRepeats(s: Writes, r: Writes) {
    forall d :: r.running[d] <= 1 && (d in s.delivered ==> r.running[d] <= s.running[d])
  }

  lemma RunsOnce(s: Session, r: Session)
    requires Sound(r) && s.writes.delivered <= r.writes.delivered
    ensures NoRepeats(s.writes, r.writes)
  {
  }

  lemma EndWriteTells(s: Session, q: nat, d: Delivery, outcome: Outcome, w: World)
    requires Sound(s) && q in s.writes.requests && !s.writes.requests[q].Joined?
    ensures var r := EndWrite(s, q, d, outcome, w);
            && Sound(r) && Tells(s, r) && r.writes == Replied(s.writes, q)
            && (Failing(r.items) <==> Failing(s.items) || Spoils(s.drag.cancelling, outcome))
  {
    hide Sound, MaybeFinish, Noted, Failing, Replied;
    EndWriteKeeps(s, q, d, outcome, w);
    EndWriteGrows(s, q, d, outcome, w);
    Requested(s, q);
    SoundTells(s, EndWrite(s, q, d, outcome, w));
    FinishWrites(w);
  }

  lemma FinishWrites(w: World)
    ensures forall t :: MaybeFinish(t, w).writes == t.writes
  {
    hide Report, Ending, MacDrop, Complete;
    forall t ensures MaybeFinish(t, w).writes == t.writes { EndingHasTerminal(t); }
  }

  /** A write that has its slot is answered exactly if its delivery has succeeded before, and
      otherwise waits for the one delivery that runs or is over. */
  lemma ProceedWriteTells(s: Session, q: nat, d: Delivery, w: World)
    requires Sound(s) && q in s.writes.requests && s.writes.requests[q] == Waiting(d)
    ensures var r := ProceedWrite(s, q, d, w);
            && Sound(r) && Tells(s, r) && NoRepeats(s.writes, r.writes)
            && (if d in s.writes.delivered && d !in s.writes.inflight then q in r.writes.replies
                else q in r.writes.requests && r.writes.requests[q] == Joined(d) && d in r.writes.inflight)
  {
    hide Sound, EndWrite;
    ProceedWriteKeeps(s, q, d, w);
    ProceedWriteGrows(s, q, d, w);
    Requested(s, q);
    EndWriteTells(s, q, d, Delivered, w);
    SoundTells(s, ProceedWrite(s, q, d, w));
    RunsOnce(s, ProceedWrite(s, q, d, w));
  }

  /** A write request is new; it is served or answered, and starts the grace period anew. */
  lemma BeginWriteTells(s: Session, d: Delivery, w: World)
    requires Sound(s) && !s.life.released
    ensures var r := BeginWrite(s, d, w);
            && Sound(r) && Tells(s, r) && NoRepeats(s.writes, r.writes) && !r.timers.macGrace
            && r.writes.next == s.writes.next + 1
            && (s.writes.next in r.writes.requests || s.writes.next in r.writes.replies)
  {
    hide Sound, BeginWrite;
    BeginWriteKeeps(s, d, w);
    BeginWriteGrows(s, d, w);
    ReleasedWhenAnswered(s);
    SoundTells(s, BeginWrite(s, d, w));
    RunsOnce(s, BeginWrite(s, d, w));
    BeginWriteCounts(s, d, w);
    Listed(BeginWrite(s, d, w), s.writes.next);
  }

  lemma BeginWriteCounts(s: Session, d: Delivery, w: World)
    ensures BeginWrite(s, d, w).writes.next == s.writes.next + 1
  {
    hide MaybeFinish, Noted;
    FinishWrites(w);
  }

  lemma Listed(s: Session, q: nat)
    requires Sound(s) && q < s.writes.next
    ensures q in s.writes.requests || q in s.writes.replies
  {
  }

  // ---------------------------------------------------------------- cancellation, expiry, targets

  /** Cancellation, expiry and what comes after them are as before, or the session is over. */
  predicate Untouched(s: Session, r: Session) {
    && r.drag.cancelling == s.drag.cancelling && r.timers.strays == s.timers.strays
    && (r.timers.fallback == s.timers.fallback || r.life.released)
    && (r.timers.expiry ==> s.timers.expiry)
  }

  /** Native events neither begin nor end a cancellation, and set no fallback timer. */
  lemma {:induction false} HandleAllCancels(s: Session, during: seq<Native>, w: World)
    ensures var r := HandleAll(s, during, w);
            && Untouched(s, r) && (s.life.released ==> r.life.released)
    decreases |during|
  {
    hide Handle;
    if during != [] {
      HandleCancels(s, during[0], w);
      HandleAllCancels(Handle(s, during[0], w), during[1..], w);
    }
  }

  lemma HandleCancels(s: Session, e: Native, w: World)
    ensures var r := Handle(s, e, w);
            && Untouched(s, r) && (s.life.released ==> r.life.released)
  {
    hide MaybeFinish, Noted;
    FinishCancels(w);
  }

  lemma FinishCancels(w: World)
    ensures forall t :: Untouched(t, MaybeFinish(t, w)) && (t.life.released ==> MaybeFinish(t, w).life.released)
  {
    hide Report, MacDrop, Complete;
  }

  predicate MacEnded(s: Session) {
    s.life.platform.Mac? && s.drag.terminal.Some? && s.drag.terminal.value.kind.Ended?
  }

  /** A cancellation is taken up while the drag has not ended, on macOS also after `ended`; if it
      is accepted the session is aborted and stays cancelled, and gives up some time later. */
  lemma CancelTells(s: Session, accepted: bool, during: seq<Native>, w: World)
    requires Sound(s)
    ensures var r := Cancel(s, accepted, during, w);
            if s.life.resultSent || (s.drag.terminal.Some? && !MacEnded(s)) then r == s
            else
              && r.drag.cancelling == accepted
              && (accepted ==> r.drag.aborted)
              && (accepted && !r.life.released && (r.drag.terminal.None? || MacEnded(r)) ==>
                    r.timers.fallback == Some(AfterCancel))
  {
    hide HandleAll, Tallied, Delivering;
    var asked := s.(drag := s.drag.(cancelling := true));
    HandleAllCancels(asked, during, w);
    HandleAllKeeps(asked, during, w) by { DragKeeps(s, asked.drag); }
  }

  /** The session as it asks the native side to cancel it. */
  function Expiring(s: Session): Session {
    s.(timers := s.timers.(expiry := false), drag := s.drag.(cancelling := true))
  }

  /** Expiry happens once; it cancels the drag, and gives up some time later, whether or not an
      accepted cancellation is going to. */
  lemma ExpireTells(s: Session, during: seq<Native>, w: World)
    requires Sound(s)
    ensures var r := Expire(s, during, w);
            if !s.timers.expiry then r == s
            else
              && r.drag.cancelling && !r.timers.expiry && r.timers.fallback == Some(AfterExpiry)
              && (!HandleAll(Expiring(s), during, w).life.released && s.timers.fallback.Some? ==>
                    s.timers.fallback.value in r.timers.strays)
  {
    hide HandleAll, Tallied, Delivering;
    HandleAllCancels(Expiring(s), during, w);
  }

  /** A final target settles where the drop went; one for a session that is over is ignored. */
  lemma TargetTells(s: Session, internal: bool, final: bool, during: seq<Native>, w: World)
    requires Sound(s)
    ensures var r := ChooseTarget(s, internal, final, during, w);
            && (s.life.resultSent ==> r == s)
            && (final && !s.life.resultSent ==>
                  r.timers.windowsAcknowledged && !r.timers.windows && !Due(r))
  {
    hide HandleAll, MaybeFinish, Tallied, Delivering;
    TargetKeeps(s, internal, final, during, w);
    var told := Acknowledged(HandleAll(s.(drag := s.drag.(internalTarget := internal)), during, w));
    if final && !s.life.resultSent { AcknowledgedIsSettled(told, w); }
  }

  lemma AcknowledgedIsSettled(s: Session, w: World)
    requires s.timers.windowsAcknowledged && !s.timers.windows
    ensures var r := MaybeFinish(s, w); r.timers.windowsAcknowledged && !r.timers.windows && !Due(r)
  {
    hide Report;
  }

  lemma MacTimerTells(s: Session, w: World)
    requires s.timers.mac
    ensures var r := Step(s, MacTimerFires, w); r.timers.macGrace && !r.timers.mac && !Due(r)
  {
    hide Report;
  }

  /** A transfer task appears: there is none yet, the drop is not known to be an internal one, and
      nothing cancels it. */
  predicate Starts(drag: Drag, w: World) {
    w.task && !drag.jobStarted && !drag.internalTarget && !drag.cancelling
  }

  // ---------------------------------------------------------------- items given up

  /** A fallback timer that gives up takes the drag as cancelled or timed out; the result goes out
      at once if nothing is being written and Windows has told where the drop went. */
  lemma FallBackTells(s: Session, which: Fallback, stray: bool, w: World)
    requires Sound(s)
    ensures var r := FallBack(s, which, stray, w);
            if GivesUp(s, FallbackFires(which, stray)) then
              && r.drag.terminal == Some(if which.AfterCancel? then Terminal(Cancelled, "", DRAG_CANCELLED)
                                         else Terminal(Broken, "", TIMED_OUT))
              && r.items == s.items.(expected := |s.items.ended|)
              && (r.life.resultSent <==>
                  s.writes.pending == 0 && (s.life.platform.Windows? ==> s.timers.windowsAcknowledged))
            else r.life == s.life && r.items == s.items && r.drag == s.drag
  {
    hide Report, Tallied, Delivering;
  }

  /** When a fallback timer that goes off gives up. */
  lemma GivesUpIff(s: Session, which: Fallback, stray: bool)
    ensures GivesUp(s, FallbackFires(which, stray))
            <==> && (if stray then which in s.timers.strays else s.timers.fallback == Some(which))
                 && !s.life.released && (which.AfterCancel? ==> !s.life.resultSent)
                 && (s.drag.terminal.None? || (which.AfterCancel? && MacEnded(s)))
  {
  }

  /** What a fallback that gives up leaves to be finished, and what comes of it. */
  lemma GivenUpIsSound(s: Session, which: Fallback, stray: bool, w: World)
    requires Sound(s)
    ensures var fired := s.(timers := if stray then s.timers.(strays := s.timers.strays - multiset{which})
                                      else s.timers.(fallback := None));
            var t := if which.AfterCancel? then Terminal(Cancelled, "", DRAG_CANCELLED)
                else Terminal(Broken, "", TIMED_OUT);
            var over := fired.(drag := fired.drag.(terminal := Some(t)),
                               items := fired.items.(expected := |fired.items.ended|));
            && (!s.life.released ==> Sound(over))
            && MaybeFinish(over, w).items == over.items
  {
    hide Sound, MaybeFinish;
    ReleasedWhenAnswered(s);
    var fired := s.(timers := if stray then s.timers.(strays := s.timers.strays - multiset{which})
                              else s.timers.(fallback := None));
    var t := if which.AfterCancel? then Terminal(Cancelled, "", DRAG_CANCELLED) else Terminal(Broken, "", TIMED_OUT);
    TimersKeep(s, fired.timers);
    var over := fired.(drag := fired.drag.(terminal := Some(t)));
    if !s.life.released {
      DragKeeps(fired, over.drag);
      ItemsKeep(over, over.items.(expected := |s.items.ended|));
    }
    FinishGrows(over.(items := over.items.(expected := |s.items.ended|)), w);
  }
}
