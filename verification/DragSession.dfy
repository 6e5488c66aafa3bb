/**
 One native drag-out of SFTP files, as the desktop process sees it: events of the native
 side, write requests, cancellation, timers, and one result for the renderer.

 Every handler and every firing timer is one step.  A call into the native side may report
 events before it returns; they are part of the step.
 */
module DragSession {
  import opened Common

  datatype Platform = Mac | Windows | Linux

  type Item = string

  /** An item and the path it is delivered to. */
  datatype Delivery = Delivery(item: Item, target: string)

  /** What is shown of an error that has no message: the name of its kind, never empty. */
  type Shown = s: string | s != "" witness "Error"

  /** Why a write failed, and whether that is how a cancelled one fails. */
  datatype Failure = Failure(message: string, shown: Shown, cancelLike: bool)

  datatype Outcome = Delivered | Failed(failure: Failure)

  /** A write request: waiting for its transfer slot, for a delivery, or about to answer. */
  datatype Request =
    | Waiting(delivery: Delivery)
    | Joined(delivery: Delivery)
    | Settled(delivery: Delivery, outcome: Outcome)

  datatype Kind = Completed | Cancelled | Ended | Broken

  /** The event that ends a drag; `Broken` stands for `error` and `terminalError`. */
  datatype Terminal = Terminal(kind: Kind, operation: string, message: string)

  datatype Fallback = AfterCancel | AfterExpiry

  /** What happened to the transfer job: whether its slot is awaited. */
  datatype Slot = NoSlot | Awaited | Granted | Refused(failure: Failure)

  datatype Phase = Starting | Returned | Threw

  datatype Message =
    | TransferStarted
    | Echo(what: string)
    | Result(ok: bool, message: string, internal: bool)

  /** What the job registry answers when the session reports its end. */
  datatype Job = JobCancelled | JobFailed | JobOther

  /** The write requests and the deliveries that serve them.  `running` are the deliveries the
      backend is working on, `replies` the requests that were answered. */
  datatype Writes = Writes(
    requests: map<nat, Request>,
    pending: nat,
    next: nat,
    replies: seq<nat>,
    delivered: set<Delivery>,
    inflight: map<Delivery, Option<Outcome>>,
    running: multiset<Delivery>)

  /** What the session has to do with the rest of the program. */
  datatype Life = Life(
    platform: Platform,
    topLevel: nat,
    phase: Phase,
    registered: bool,
    resultSent: bool,
    released: bool,
    senderGone: bool,
    sent: seq<Message>)

  /** How far the drag is. */
  datatype Drag = Drag(
    terminal: Option<Terminal>,
    internalTarget: bool,
    uiReleased: bool,
    cancelling: bool,
    aborted: bool,
    jobStarted: bool,
    slot: Slot)

  /** The items that ended, how many are waited for, and what went wrong. */
  datatype Items = Items(ended: set<Item>, expected: nat, contentErrors: seq<string>, writeError: string)

  datatype Timers = Timers(
    expiry: bool,
    fallback: Option<Fallback>,
    strays: multiset<Fallback>,
    mac: bool,
    macGrace: bool,
    windows: bool,
    windowsAcknowledged: bool)

  datatype Session = Session(life: Life, drag: Drag, items: Items, timers: Timers, writes: Writes)

  function Start(platform: Platform, topLevel: nat): Session {
    Session(Life(platform, topLevel, Starting, true, false, false, false, []),
            Drag(None, false, false, false, false, false, NoSlot),
            Items({}, topLevel, [], ""),
            Timers(true, None, multiset{}, false, false, false, false),
            Writes(map[], 0, 0, [], {}, map[], multiset{}))
  }

  datatype Native =
    | Progress
    | Content
    | Gesture(what: string)
    | ContentError(message: string)
    | WriteRequested(delivery: Delivery)
    | End(terminal: Terminal, target: Option<bool>)

  datatype Event =
    | FromNative(event: Native)
    | SlotSettles(slot: Slot)
    | Proceeds(request: nat)
    | DeliveryResolves(delivery: Delivery, outcome: Outcome)
    | DeliveryClears(delivery: Delivery)
    | Resumes(request: nat)
    | TargetChosen(internal: bool, final: bool, during: seq<Native>)
    | CancelRequested(accepted: bool, during: seq<Native>)
    | ExpiryFires(during: seq<Native>)
    | FallbackFires(which: Fallback, stray: bool)
    | MacTimerFires
    | WindowsTimerFires
    | SenderDestroyed
    | StartReturned
    | StartThrew

  /** What the surroundings answer during one step: whether a transfer task is created, and
      how its job ends. */
  datatype World = World(task: bool, job: Job)

  const CONTENT_FAILED := "Failed to read a file for SFTP drag-out"
  const DRAG_CANCELLED := "Drag-out cancelled"
  const DRAG_FAILED := "Could not complete the system drag-and-drop operation"
  const DRAG_INCOMPLETE := "Drag-out did not complete"
  const DOWNLOAD_FAILED := "Drag-out download failed"
  const TIMED_OUT := "The drag-out operation timed out"

  function Or(a: string, b: string): string { if a != "" then a else b }

  function Send(life: Life, message: Message): Life {
    if life.senderGone then life else life.(sent := life.sent + [message])
  }

  /** `releaseNativeDragSession`. */
  function Release(s: Session): Session {
    if s.life.released then s
    else s.(life := s.life.(released := true, registered := false),
            drag := s.drag.(aborted := s.drag.aborted || s.writes.pending > 0),
            timers := s.timers.(expiry := false, fallback := None, mac := false, windows := false))
  }

  predicate Operated(t: Terminal) { t.operation != "none" && t.operation != "unknown" }

  /** A drop outside the program that AppKit reported as ended with an operation. */
  predicate MacDrop(s: Session) {
    s.life.platform.Mac? && !s.drag.internalTarget
    && s.drag.terminal.Some? && s.drag.terminal.value.kind.Ended? && Operated(s.drag.terminal.value)
  }

  function LastError(items: Items): string {
    if items.contentErrors == [] then "" else items.contentErrors[|items.contentErrors| - 1]
  }

  function Report(drag: Drag, items: Items, job: Job): Message
    requires drag.terminal.Some?
  {
    var t := drag.terminal.value;
    var ok := drag.internalTarget || t.kind.Completed? || (t.kind.Ended? && Operated(t));
    var cancelled := t.kind.Cancelled? || t.operation == "none";
    var message := Or(items.writeError, Or(LastError(items), Or(if cancelled then DRAG_CANCELLED else t.message,
                                                                if ok then "" else DRAG_FAILED)));
    if drag.internalTarget then Result(true, "", true)
    else match job
      case JobCancelled => Result(false, if t.kind.Completed? then DRAG_INCOMPLETE else DRAG_CANCELLED, false)
      case JobFailed => Result(false, Or(message, DOWNLOAD_FAILED), false)
      case JobOther => Result(ok && items.writeError == "" && LastError(items) == "", message, false)
  }

  /** The drag has ended, is not answered, and nothing is being written.  Once a cancellation is
      under way, `ended` alone does not count. */
  predicate Ending(s: Session) {
    s.drag.terminal.Some? && !s.life.resultSent && !(s.drag.cancelling && s.drag.terminal.value.kind.Ended?)
    && s.writes.pending == 0
  }

  /** As many items have ended as are waited for. */
  predicate Complete(items: Items) { |items.ended| >= items.expected }

  /** `maybeFinishNativeDragSession`. */
  function MaybeFinish(s: Session, w: World): Session {
    if !Ending(s) then s
    else if MacDrop(s) && !Complete(s.items) then s
    else if MacDrop(s) && !s.timers.macGrace then s.(timers := s.timers.(mac := true))
    else if s.life.platform.Windows? && !s.timers.windowsAcknowledged then s.(timers := s.timers.(windows := true))
    else Finish(s, w)
  }

  function Finish(s: Session, w: World): Session
    requires s.drag.terminal.Some?
  {
    Release(s.(life := Send(s.life.(resultSent := true), Report(s.drag, s.items, w.job))))
  }

  /** `startNativeSftpDragProgress`. */
  function StartProgress(s: Session, w: World): Session {
    if s.drag.jobStarted || s.drag.internalTarget || s.drag.cancelling || !w.task then s
    else s.(drag := s.drag.(jobStarted := true, slot := Awaited), life := Send(s.life, TransferStarted))
  }

  // ---------------------------------------------------------------- writes

  function Counted(w: Writes, d: Delivery): Writes {
    w.(pending := w.pending + 1, requests := w.requests[w.next := Waiting(d)], next := w.next + 1)
  }

  function Replied(w: Writes, r: nat): Writes {
    w.(requests := w.requests - {r}, replies := w.replies + [r], pending := if w.pending > 0 then w.pending - 1 else 0)
  }

  function Joining(w: Writes, r: nat, d: Delivery): Writes { w.(requests := w.requests[r := Joined(d)]) }

  function Launched(w: Writes, r: nat, d: Delivery): Writes {
    Joining(w, r, d).(inflight := w.inflight[d := None], running := w.running + multiset{d})
  }

  /** The delivery has an outcome. */
  function Resolved(w: Writes, d: Delivery, outcome: Outcome): Writes {
    w.(inflight := w.inflight[d := Some(outcome)],
       running := w.running - multiset{d},
       delivered := w.delivered + if outcome.Delivered? then {d} else {})
  }

  /** The delivery is over; the requests that joined it are about to answer. */
  function Cleared(w: Writes, d: Delivery, outcome: Outcome): Writes {
    w.(inflight := w.inflight - {d},
       requests := map r | r in w.requests :: if w.requests[r] == Joined(d) then Settled(d, outcome) else w.requests[r])
  }

  /** A write request arrives. */
  function BeginWrite(s: Session, d: Delivery, w: World): Session {
    var progressed := StartProgress(s.(writes := Counted(s.writes, d)), w);
    var begun := progressed.(timers := progressed.timers.(mac := false, macGrace := false));
    if begun.drag.slot.NoSlot? then ProceedWrite(begun, s.writes.next, d, w) else begun
  }

  /** With its slot, a write joins the delivery in flight, is done already, or starts one. */
  function ProceedWrite(s: Session, r: nat, d: Delivery, w: World): Session {
    if d in s.writes.inflight then s.(writes := Joining(s.writes, r, d))
    else if d in s.writes.delivered then EndWrite(s, r, d, Delivered, w)
    else s.(writes := Launched(s.writes, r, d))
  }

  /** A write is answered; whether that ends the session is looked at again. */
  function EndWrite(s: Session, r: nat, d: Delivery, outcome: Outcome, w: World): Session {
    MaybeFinish(s.(writes := Replied(s.writes, r), items := Noted(s.items, s.drag.cancelling, d.item, outcome)), w)
  }

  /** What the outcome of a write leaves behind. */
  function Noted(items: Items, cancelling: bool, item: Item, outcome: Outcome): Items {
    if outcome.Delivered? then items.(ended := items.ended + {item})
    else if cancelling && outcome.failure.cancelLike then items
    else
      items.(ended := items.ended + {item},
             writeError := Or(items.writeError, Or(outcome.failure.message, outcome.failure.shown)))
  }

  // ---------------------------------------------------------------- native events

  /** `handleNativeSftpDragEvent`. */
  function Handle(s: Session, e: Native, w: World): Session {
    if s.life.released then s
    else match e
      case Progress => StartProgress(s, w)
      case Content => s
      case Gesture(what) => Echoed(s, s.drag.(uiReleased := s.drag.uiReleased || what == "released"), what)
      case ContentError(message) =>
        s.(items := s.items.(contentErrors := s.items.contentErrors + [Or(message, CONTENT_FAILED)]))
      case WriteRequested(d) => BeginWrite(s, d, w)
      case End(terminal, target) => HandleEnd(s, terminal, target, w)
  }

  function Echoed(s: Session, drag: Drag, what: string): Session {
    s.(drag := drag, life := Send(s.life, Echo(what)))
  }

  function HandleEnd(s: Session, terminal: Terminal, target: Option<bool>, w: World): Session {
    var aimed := if terminal.kind.Ended? && target.Some? then s.drag.(internalTarget := target.value) else s.drag;
    var shown := if terminal.kind.Ended? && !s.drag.uiReleased then Echoed(s, aimed.(uiReleased := true), "released")
                 else s.(drag := aimed);
    if s.drag.terminal.Some? && s.drag.terminal.value.kind.Cancelled? && terminal.kind.Ended? then shown
    else MaybeFinish(shown.(drag := shown.drag.(terminal := Some(terminal))), w)
  }

  function HandleAll(s: Session, during: seq<Native>, w: World): Session
    decreases |during|
  {
    if during == [] then s else HandleAll(Handle(s, during[0], w), during[1..], w)
  }

  // ---------------------------------------------------------------- the program's own events

  predicate CanCancel(s: Session) {
    !s.life.released && !s.life.resultSent
    && (s.drag.terminal.None? || (s.life.platform.Mac? && s.drag.terminal.value.kind.Ended?))
  }

  /** `handleSftpDragTarget`. */
  function ChooseTarget(s: Session, internal: bool, final: bool, during: seq<Native>, w: World): Session {
    if !s.life.registered then s
    else
      var told := HandleAll(s.(drag := s.drag.(internalTarget := internal)), during, w);
      if final then MaybeFinish(Acknowledged(told), w) else told
  }

  function Acknowledged(s: Session): Session {
    s.(timers := s.timers.(windowsAcknowledged := true, windows := false))
  }

  /** `handleSftpDragCancel`, and cancellation through the renderer's end or the ticket. */
  function Cancel(s: Session, accepted: bool, during: seq<Native>, w: World): Session {
    if !s.life.registered || !CanCancel(s) then s
    else
      var told := HandleAll(s.(drag := s.drag.(cancelling := true)), during, w);
      if !accepted then told.(drag := told.drag.(cancelling := false))
      else ScheduleFallback(told.(drag := told.drag.(aborted := true)))
  }

  function ScheduleFallback(s: Session): Session {
    if s.life.released || !CanCancel(s) then s else s.(timers := s.timers.(fallback := Some(AfterCancel)))
  }

  /** The session has lasted too long. */
  function Expire(s: Session, during: seq<Native>, w: World): Session {
    if !s.timers.expiry then s
    else
      var fired := s.(timers := s.timers.(expiry := false));
      if s.life.released then fired
      else
        var told := HandleAll(fired.(drag := fired.drag.(cancelling := true)), during, w);
        told.(timers := Overwritten(told.timers))
  }

  /** The handle of a fallback timer that is already waiting is overwritten, not cleared. */
  function Overwritten(timers: Timers): Timers {
    timers.(strays := timers.strays + (if timers.fallback.Some? then multiset{timers.fallback.value} else multiset{}),
            fallback := Some(AfterExpiry))
  }

  /** The native side did not answer the cancellation in time. */
  function FallBack(s: Session, which: Fallback, stray: bool, w: World): Session {
    if (if stray then which !in s.timers.strays else s.timers.fallback != Some(which)) then s
    else
      var fired := s.(timers := if stray then s.timers.(strays := s.timers.strays - multiset{which})
                                else s.timers.(fallback := None));
      if s.life.released || (which.AfterCancel? && !CanCancel(s)) || (which.AfterExpiry? && s.drag.terminal.Some?)
      then fired
      else GiveUp(fired, which, w)
  }

  /** The drag is taken as over; what has been written is all that is waited for. */
  function GiveUp(s: Session, which: Fallback, w: World): Session {
    var t := if which.AfterCancel? then Terminal(Cancelled, "", DRAG_CANCELLED) else Terminal(Broken, "", TIMED_OUT);
    MaybeFinish(s.(drag := s.drag.(terminal := Some(t)), items := s.items.(expected := |s.items.ended|)), w)
  }

  function Step(s: Session, e: Event, w: World): Session {
    match e
    case FromNative(event) => Handle(s, event, w)
    case SlotSettles(slot) =>
      if s.drag.slot.Awaited? && !slot.NoSlot? then s.(drag := s.drag.(slot := slot)) else s
    case Proceeds(r) =>
      if r in s.writes.requests && s.writes.requests[r].Waiting? then
        match s.drag.slot
        case Granted => ProceedWrite(s, r, s.writes.requests[r].delivery, w)
        case Refused(failure) => EndWrite(s, r, s.writes.requests[r].delivery, Failed(failure), w)
        case _ => s
      else s
    case DeliveryResolves(d, outcome) =>
      if d in s.writes.inflight && s.writes.inflight[d].None? then s.(writes := Resolved(s.writes, d, outcome)) else s
    case DeliveryClears(d) =>
      if d in s.writes.inflight && s.writes.inflight[d].Some?
      then s.(writes := Cleared(s.writes, d, s.writes.inflight[d].value)) else s
    case Resumes(r) =>
      if r in s.writes.requests && s.writes.requests[r].Settled?
      then EndWrite(s, r, s.writes.requests[r].delivery, s.writes.requests[r].outcome, w) else s
    case TargetChosen(internal, final, during) => ChooseTarget(s, internal, final, during, w)
    case CancelRequested(accepted, during) => Cancel(s, accepted, during, w)
    case ExpiryFires(during) => Expire(s, during, w)
    case FallbackFires(which, stray) => FallBack(s, which, stray, w)
    case MacTimerFires =>
      if s.timers.mac then MaybeFinish(s.(timers := s.timers.(mac := false, macGrace := true)), w) else s
    case WindowsTimerFires => if s.timers.windows then MaybeFinish(Acknowledged(s), w) else s
    case SenderDestroyed => s.(life := s.life.(senderGone := true))
    case StartReturned => if s.life.phase.Starting? then s.(life := s.life.(phase := Returned)) else s
    case StartThrew =>
      if s.life.phase.Starting?
      then s.(life := Send(s.life.(phase := Threw, registered := false), Result(false, DRAG_FAILED, false))) else s
  }

  datatype Action = Action(event: Event, world: World)

  function Run(s: Session, actions: seq<Action>): Session
    decreases |actions|
  {
    if actions == [] then s else Run(Step(s, actions[0].event, actions[0].world), actions[1..])
  }
}
