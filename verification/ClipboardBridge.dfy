/**
 The X11 clipboard bridge: it owns the CLIPBOARD selection for a local image as long as
 nobody else takes it (selection ownership as in section 2 of the ICCCM).

 An image stands for its own hash.  A refresh consists of two steps, because other things may
 happen while it waits: what follows its look at the focus, and what follows its reading of
 the clipboard.  A reading, and the focus it goes by, may be outdated when it is used.
 */
module ClipboardBridge {
  import opened Common

  type Byte = b: int | 0 <= b < 256

  type Image = seq<Byte>

  const MAX_IMAGE_BYTES := 25 * 1024 * 1024
  const PNG_SIGNATURE: Image := [0x89, 0x50, 0x4E, 0x47, 0x0D, 0x0A, 0x1A, 0x0A]
  const SETTLE := 30 * 1000
  const MAX_CLAIMS := 60

  /** `validPng`. */
  predicate ValidPng(image: Image) {
    |PNG_SIGNATURE| <= |image| <= MAX_IMAGE_BYTES && image[..|PNG_SIGNATURE|] == PNG_SIGNATURE
  }

  datatype Act = Claimed(image: Image) | Released | Lost | Stopped

  /** The local image, when it came, how often it was claimed and which one is suppressed. */
  datatype Cache = Cache(
    image: Option<Image>,
    currentHash: Option<Image>,
    suppressedHash: Option<Image>,
    changedAt: nat,
    claimAttempts: nat)

  datatype Bridge = Bridge(connected: bool, stopped: bool, ownsClipboard: bool, cache: Cache, log: seq<Act>)

  const EMPTY := Cache(None, None, None, 0, 0)

  function Start(): Bridge { Bridge(true, false, false, EMPTY, []) }

  datatype Event =
    | FocusSeen(active: bool)
    | ClipboardRead(active: bool, png: Option<Image>, throws: bool)
    | SelectionClear
    | Stop

  /** An event and the time it happens. */
  datatype Timed = Timed(event: Event, now: nat)

  function Did(b: Bridge, act: Act): Bridge { b.(log := b.log + [act]) }

  /** `release`. */
  function Release(b: Bridge): Bridge {
    if !b.connected || !b.ownsClipboard then b else Did(b.(ownsClipboard := false), Released)
  }

  /** `claimImage`. */
  function Claim(b: Bridge, image: Image, throws: bool): Bridge {
    if !b.connected then b
    else
      var held := b.(cache := b.cache.(image := Some(image), currentHash := Some(image)));
      if b.ownsClipboard || b.cache.suppressedHash == Some(image) || throws then held
      else Did(held.(ownsClipboard := true, cache := held.cache.(claimAttempts := b.cache.claimAttempts + 1)),
          Claimed(image))
  }

  /** The local image may still be a transient feedback of claiming it. */
  predicate Transient(c: Cache, now: nat) {
    c.image.Some? && c.currentHash.Some? && c.changedAt != 0 && now - c.changedAt <= SETTLE
  }

  /** A refresh that has read no image. */
  function ReadNothing(b: Bridge, active: bool, throws: bool, now: nat): Bridge {
    if Transient(b.cache, now) then
      if active && !b.ownsClipboard && b.cache.claimAttempts < MAX_CLAIMS
      then Claim(b, b.cache.image.value, throws) else b
    else Release(b).(cache := EMPTY)
  }

  /** A refresh that has read an image. */
  function ReadImage(b: Bridge, active: bool, image: Image, throws: bool, now: nat): Bridge {
    if b.cache.currentHash != Some(image) then
      var renewed := b.(cache := Cache(Some(image), Some(image), None, now, 0));
      if active then Claim(renewed, image, throws) else renewed
    else if !b.ownsClipboard && b.cache.suppressedHash != Some(image) then
      if active then Claim(b, image, throws) else b
    else if !b.ownsClipboard then b.(cache := b.cache.(image := Some(image)))
    else b
  }

  /** The owner has changed: while a local change settles, it may be reclaimed. */
  predicate Settling(c: Cache, now: nat) {
    c.currentHash.Some? && now - c.changedAt <= SETTLE && c.claimAttempts < MAX_CLAIMS
  }

  function Lose(b: Bridge, now: nat): Bridge {
    Did(b.(ownsClipboard := false,
           cache := b.cache.(suppressedHash := if Settling(b.cache, now) then None else b.cache.currentHash)), Lost)
  }

  function Step(b: Bridge, e: Event, now: nat): Bridge {
    match e
    case FocusSeen(active) => if active then b else Release(b)
    case ClipboardRead(active, png, throws) =>
      if png.Some? && ValidPng(png.value) then ReadImage(b, active, png.value, throws, now)
      else ReadNothing(b, active, throws, now)
    case SelectionClear => Lose(b, now)
    case Stop => if b.stopped then b else Did(Release(b).(stopped := true, connected := false), Stopped)
  }

  function Run(b: Bridge, events: seq<Timed>): Bridge
    decreases |events|
  {
    if events == [] then b else Run(Step(b, events[0].event, events[0].now), events[1..])
  }

  // ---------------------------------------------------------------- the invariant

  /** The cached image is a bounded PNG and the current one; a stopped bridge is cut off. */
  ghost predicate Sound(b: Bridge) {
    && (b.cache.image.Some? ==> ValidPng(b.cache.image.value))
    && b.cache.image == b.cache.currentHash
    && (b.stopped ==> !b.connected)
  }

  lemma StartSound()
    ensures Sound(Start())
  {
  }

  lemma StepKeepsSound(b: Bridge, e: Event, now: nat)
    requires Sound(b)
    ensures Sound(Step(b, e, now))
  {
    hide ValidPng;
  }

  lemma {:induction false} RunKeepsSound(b: Bridge, events: seq<Timed>)
    requires Sound(b)
    ensures Sound(Run(b, events))
    decreases |events|
  {
    hide Step, Sound;
    if events != [] {
      StepKeepsSound(b, events[0].event, events[0].now);
      RunKeepsSound(Step(b, events[0].event, events[0].now), events[1..]);
    }
  }

  /** In every run the cached image is a valid bounded PNG and the one that counts as current. */
  lemma CachedImageIsCurrent(events: seq<Timed>)
    ensures var c := Run(Start(), events).cache;
            c.image.Some? ==> ValidPng(c.image.value) && c.currentHash == c.image
  {
    RunKeepsSound(Start(), events);
  }

  /** What counts as an image: the eight bytes every PNG begins with, and at most 25 MiB. */
  lemma ValidPngIff(image: Image)
    ensures ValidPng(image) <==>
            && 8 <= |image| <= 26214400
            && image[0] == 137 && image[1] == 80 && image[2] == 78 && image[3] == 71
            && image[4] == 13 && image[5] == 10 && image[6] == 26 && image[7] == 10
  {
    if |image| >= 8 {
      assert image[..8] == [image[0], image[1], image[2], image[3], image[4], image[5], image[6], image[7]];
    }
  }

  // ---------------------------------------------------------------- ownership

  /** Claimed, and neither released nor lost after that. */
  predicate Owning(log: seq<Act>) {
    exists i :: 0 <= i < |log| && log[i].Claimed? && forall j :: i < j < |log| ==> log[j] != Released && log[j] != Lost
  }

  lemma OneMoreAct(log: seq<Act>, act: Act)
    ensures Owning(log + [act]) <==> act.Claimed? || (Owning(log) && act != Released && act != Lost)
    ensures forall a :: a in log + [act] <==> a in log || a == act
  {
    var r := log + [act];
    assert r[|log|] == act && forall i :: 0 <= i < |log| ==> r[i] == log[i];
    if act.Claimed? {
      assert r[|log|].Claimed?;
    } else if Owning(log) && act != Released && act != Lost {
      var i :| 0 <= i < |log| && log[i].Claimed? && forall j :: i < j < |log| ==> log[j] != Released && log[j] != Lost;
      assert r[i].Claimed?;
    }
  }

  /** The flags say what the log tells. */
  predicate Logged(b: Bridge) {
    && (b.ownsClipboard <==> Owning(b.log)) && (b.stopped <==> Stopped in b.log) && (b.connected <==> !b.stopped)
  }

  lemma StepIsLogged(b: Bridge, e: Event, now: nat)
    requires Sound(b) && Logged(b)
    ensures Logged(Step(b, e, now))
  {
    hide ValidPng, Owning;
    var r := Step(b, e, now);
    forall act { OneMoreAct(b.log, act); }
    if e.Stop? && !b.stopped { OneMoreAct(Release(b).log, Stopped); }
  }

  lemma {:induction false} RunIsLogged(b: Bridge, events: seq<Timed>)
    requires Sound(b) && Logged(b)
    ensures Logged(Run(b, events))
    decreases |events|
  {
    hide Step, Sound, Logged;
    if events != [] {
      StepKeepsSound(b, events[0].event, events[0].now);
      StepIsLogged(b, events[0].event, events[0].now);
      RunIsLogged(Step(b, events[0].event, events[0].now), events[1..]);
    }
  }

  /** In every run the bridge takes itself for the owner exactly if it has claimed the selection
      and neither released nor lost it since, and is cut off exactly if it was stopped. */
  lemma OwnershipIsLogged(events: seq<Timed>)
    ensures var b := Run(Start(), events);
            && (b.ownsClipboard <==> Owning(b.log))
            && (b.connected <==> Stopped !in b.log) && (b.stopped <==> Stopped in b.log)
  {
    StartSound();
    RunIsLogged(Start(), events);
  }

  // ---------------------------------------------------------------- claims

  /** The acts a run adds. */
  function Added(b: Bridge, r: Bridge): seq<Act>
    requires |b.log| <= |r.log|
  {
    r.log[|b.log|..]
  }

  ghost predicate Extends(b: Bridge, r: Bridge) { |b.log| <= |r.log| && r.log[..|b.log|] == b.log }

  predicate Claims(acts: seq<Act>) { exists a :: a in acts && a.Claimed? }

  lemma StepExtends(b: Bridge, e: Event, now: nat)
    ensures Extends(b, Step(b, e, now))
  {
    hide ValidPng;
  }

  /** A claim is made by a connected bridge that does not own the selection, by a refresh that
      has seen the focus on a remote window, for a valid image that is not suppressed. */
  lemma ClaimIsWarranted(b: Bridge, e: Event, now: nat)
    requires Sound(b) && Claims(Added(b, Step(b, e, now)))
    ensures b.connected && !b.stopped && !b.ownsClipboard
    ensures e.ClipboardRead? && e.active && !e.throws
    ensures var r := Step(b, e, now);
            && r.ownsClipboard && r.cache.image.Some? && ValidPng(r.cache.image.value)
            && Added(b, r) == [Claimed(r.cache.image.value)]
            && (b.cache.suppressedHash == r.cache.image ==> b.cache.currentHash != r.cache.image)
  {
    hide ValidPng;
    var r := Step(b, e, now);
    var a :| a in Added(b, r) && a.Claimed?;
  }

  /** Acts stay, and a claim added to them is warranted. */
  ghost predicate ClaimsRightly(b: Bridge, r: Bridge) {
    Extends(b, r) && forall a :: a in Added(b, r) && a.Claimed? ==> Warranted(b, r, a.image)
  }

  /** The image is valid and not suppressed, the bridge is connected and did not own the
      selection, and it holds the image now; nothing else happens. */
  ghost predicate Warranted(b: Bridge, r: Bridge, image: Image)
    requires Extends(b, r)
  {
    && b.connected && !b.stopped && !b.ownsClipboard && r.ownsClipboard
    && r.cache.image == Some(image) && ValidPng(image) && Added(b, r) == [Claimed(image)]
    && (b.cache.suppressedHash == Some(image) ==> b.cache.currentHash != Some(image))
  }

  lemma ClaimsIff(b: Bridge, image: Image, throws: bool)
    requires Sound(b) && ValidPng(image)
    ensures var r := Claim(b, image, throws);
            && Sound(r) && Extends(b, r)
            && (Claims(Added(b, r))
                <==> b.connected && !b.ownsClipboard && b.cache.suppressedHash != Some(image) && !throws)
  {
    hide ValidPng;
    var r := Claim(b, image, throws);
    if r.log != b.log { assert Added(b, r)[0] == Claimed(image); }
  }

  /** No event makes the bridge claim without warrant. */
  lemma StepClaimsRightly(b: Bridge, e: Event, now: nat)
    requires Sound(b)
    ensures Sound(Step(b, e, now)) && ClaimsRightly(b, Step(b, e, now))
  {
    hide Step, Sound, ValidPng;
    StepKeepsSound(b, e, now);
    StepExtends(b, e, now);
    if Claims(Added(b, Step(b, e, now))) { ClaimIsWarranted(b, e, now); }
  }

  lemma {:induction false} RunExtends(b: Bridge, events: seq<Timed>)
    ensures Extends(b, Run(b, events))
    decreases |events|
  {
    hide Step;
    if events != [] {
      StepExtends(b, events[0].event, events[0].now);
      RunExtends(Step(b, events[0].event, events[0].now), events[1..]);
    }
  }

  /** No claim follows a stop. */
  lemma {:induction false} NeverClaimsAfterStop(b: Bridge, events: seq<Timed>)
    requires Sound(b) && b.stopped
    ensures Extends(b, Run(b, events)) && !Claims(Added(b, Run(b, events)))
    decreases |events|
  {
    hide Step, Sound;
    RunExtends(b, events);
    if events != [] {
      var e, now := events[0].event, events[0].now;
      var next := Step(b, e, now);
      StepExtends(b, e, now);
      StepKeepsSound(b, e, now);
      StoppedStays(b, e, now);
      NeverClaimsAfterStop(next, events[1..]);
      RunExtends(next, events[1..]);
      AddedInTwo(b, next, Run(next, events[1..]));
    }
  }

  lemma StoppedStays(b: Bridge, e: Event, now: nat)
    requires Sound(b) && b.stopped
    ensures Step(b, e, now).stopped && !Claims(Added(b, Step(b, e, now)))
  {
    hide ValidPng;
    if Claims(Added(b, Step(b, e, now))) { ClaimIsWarranted(b, e, now); }
  }

  lemma AddedInTwo(a: Bridge, b: Bridge, c: Bridge)
    requires Extends(a, b) && Extends(b, c)
    ensures Extends(a, c) && Added(a, c) == Added(a, b) + Added(b, c)
  {
    assert c.log[..|a.log|] == c.log[..|b.log|][..|a.log|];
  }

  /** A claim is made exactly by a reading with focus, by a connected bridge that is not the owner
      and whose server takes the claim: for an image that is new or not suppressed, or, when
      nothing is read, for the cached one while it settles, up to 60 times, if not suppressed. */
  lemma ClaimedIff(b: Bridge, e: Event, now: nat)
    requires Sound(b)
    ensures Claims(Added(b, Step(b, e, now)))
            <==> && e.ClipboardRead? && e.active && !e.throws && b.connected && !b.ownsClipboard
                 && if e.png.Some? && ValidPng(e.png.value)
                    then b.cache.currentHash != e.png || b.cache.suppressedHash != e.png
                    else && b.cache.image.Some? && b.cache.suppressedHash != b.cache.image
                         && b.cache.changedAt != 0 && now - b.cache.changedAt <= 30000 && b.cache.claimAttempts < 60
  {
    hide ValidPng;
    var r := Step(b, e, now);
    StepExtends(b, e, now);
    if |r.log| > |b.log| { assert Added(b, r)[0] == r.log[|b.log|]; }
  }

  /** What was read is cached; the cached image outlives a reading without an image exactly while
      it settles, and everything else. */
  lemma ReadingIsCached(b: Bridge, e: Event, now: nat)
    requires Sound(b)
    ensures Step(b, e, now).cache.image ==
            if !e.ClipboardRead? then b.cache.image
            else if e.png.Some? && ValidPng(e.png.value) then e.png
            else if b.cache.changedAt != 0 && now - b.cache.changedAt <= 30000 then b.cache.image
            else None
  {
    hide ValidPng;
  }

  /** The selection is released exactly by a connected bridge that is the owner: when the focus is
      lost, when nothing is read and nothing settles, and when it stops. */
  lemma ReleasedIff(b: Bridge, e: Event, now: nat)
    requires Sound(b)
    ensures Released in Added(b, Step(b, e, now))
            <==> && b.connected && b.ownsClipboard
                 && match e
                    case FocusSeen(active) => !active
                    case ClipboardRead(_, png, _) =>
                      !(png.Some? && ValidPng(png.value))
                      && !(b.cache.image.Some? && b.cache.changedAt != 0 && now - b.cache.changedAt <= 30000)
                    case SelectionClear => false
                    case Stop => !b.stopped
  {
    hide ValidPng;
    var r := Step(b, e, now);
    StepExtends(b, e, now);
    if |r.log| > |b.log| { assert Added(b, r)[0] == r.log[|b.log|]; }
  }

  // ---------------------------------------------------------------- what the counters count

  function ClaimsIn(acts: seq<Act>): nat {
    if acts == [] then 0 else (if acts[0].Claimed? then 1 else 0) + ClaimsIn(acts[1..])
  }

  /** How often the current image has been claimed, counted over the log of a run. */
  function ClaimsOfCurrent(b: Bridge, events: seq<Timed>, before: nat): nat
    decreases |events|
  {
    if events == [] then before
    else
      var r := Step(b, events[0].event, events[0].now);
      StepExtends(b, events[0].event, events[0].now);
      var more := ClaimsIn(Added(b, r));
      ClaimsOfCurrent(r, events[1..], if r.cache.currentHash == b.cache.currentHash then before + more else more)
  }

  /** When the current image came. */
  function CameAt(b: Bridge, events: seq<Timed>, before: nat): nat
    decreases |events|
  {
    if events == [] then before
    else
      var r := Step(b, events[0].event, events[0].now);
      CameAt(r, events[1..], if r.cache.currentHash == b.cache.currentHash then before else events[0].now)
  }

  /** The cache counts this many claims of an image that came at this time. */
  ghost predicate Counts(c: Cache, claims: nat, came: nat) {
    c.claimAttempts == claims && (if c.currentHash.Some? then c.changedAt == came else c.changedAt == 0 && claims == 0)
  }

  lemma StepCounts(b: Bridge, e: Event, now: nat, claims: nat, came: nat)
    requires Sound(b) && Counts(b.cache, claims, came)
    ensures var r := Step(b, e, now);
            && Extends(b, r)
            && var more, same := ClaimsIn(Added(b, r)), r.cache.currentHash == b.cache.currentHash;
               Counts(r.cache, if same then claims + more else more, if same then came else now)
  {
    hide ValidPng;
    var r := Step(b, e, now);
    StepExtends(b, e, now);
    OneAct(Added(b, r));
    if |r.log| > |b.log| { assert Added(b, r)[0] == r.log[|b.log|]; }
  }

  lemma OneAct(acts: seq<Act>)
    ensures acts == [] ==> ClaimsIn(acts) == 0
    ensures |acts| == 1 ==> ClaimsIn(acts) == if acts[0].Claimed? then 1 else 0
    ensures |acts| == 2 ==> ClaimsIn(acts) == (if acts[0].Claimed? then 1 else 0) + (if acts[1].Claimed? then 1 else 0)
  {
    if acts != [] { assert acts[1..] == [] || acts[1..][1..] == acts[2..]; }
  }

  lemma {:induction false} RunCounts(b: Bridge, events: seq<Timed>, claims: nat, came: nat)
    requires Sound(b) && Counts(b.cache, claims, came)
    ensures Counts(Run(b, events).cache, ClaimsOfCurrent(b, events, claims), CameAt(b, events, came))
    decreases |events|
  {
    hide Step, Sound, Counts, ClaimsIn;
    if events != [] {
      var e, now := events[0].event, events[0].now;
      StepKeepsSound(b, e, now);
      StepCounts(b, e, now, claims, came);
      var r := Step(b, e, now);
      var more, same := ClaimsIn(Added(b, r)), r.cache.currentHash == b.cache.currentHash;
      RunCounts(r, events[1..], if same then claims + more else more, if same then came else now);
    }
  }

  /** In every run the bridge knows how often it has claimed the current image and since when it
      has had it. */
  lemma CountersCount(events: seq<Timed>)
    ensures var c := Run(Start(), events).cache;
            && c.claimAttempts == ClaimsOfCurrent(Start(), events, 0)
            && (c.currentHash.Some? ==> c.changedAt == CameAt(Start(), events, 0))
  {
    StartSound();
    RunCounts(Start(), events, 0, 0);
  }

  // ---------------------------------------------------------------- yielding to another owner

  /** The image is suppressed and nothing of it can settle any more from this time on. */
  ghost predicate Yielded(b: Bridge, image: Image, now: nat) {
    && b.cache.suppressedHash == b.cache.currentHash == Some(image)
    && (now - b.cache.changedAt > SETTLE || b.cache.claimAttempts >= MAX_CLAIMS)
  }

  /** The events come in order of time, and every reading shows this image. */
  ghost predicate OnlyShows(events: seq<Timed>, image: Image, now: nat)
    decreases |events|
  {
    events == []
    || (events[0].now >= now
        && (events[0].event.ClipboardRead? ==> events[0].event.png == Some(image))
        && OnlyShows(events[1..], image, events[0].now))
  }

  lemma YieldedStays(b: Bridge, e: Event, now: nat, image: Image, later: nat)
    requires Sound(b) && Yielded(b, image, now) && now <= later
    requires e.ClipboardRead? ==> e.png == Some(image)
    ensures Yielded(Step(b, e, later), image, later) && !Claims(Added(b, Step(b, e, later)))
  {
    hide ValidPng;
    CurrentIsValid(b, image);
  }

  lemma CurrentIsValid(b: Bridge, image: Image)
    requires Sound(b) && b.cache.currentHash == Some(image)
    ensures ValidPng(image)
  {
  }

  /** As long as every reading shows the image that was yielded, nothing is claimed. */
  lemma {:induction false} YieldedRunClaimsNothing(b: Bridge, now: nat, image: Image, events: seq<Timed>)
    requires Sound(b) && Yielded(b, image, now) && OnlyShows(events, image, now)
    ensures Extends(b, Run(b, events)) && !Claims(Added(b, Run(b, events)))
    decreases |events|
  {
    hide Step, Sound, Yielded;
    RunExtends(b, events);
    if events != [] {
      var e, later := events[0].event, events[0].now;
      var next := Step(b, e, later);
      StepExtends(b, e, later);
      StepKeepsSound(b, e, later);
      YieldedStays(b, e, now, image, later);
      YieldedRunClaimsNothing(next, later, image, events[1..]);
      RunExtends(next, events[1..]);
      AddedInTwo(b, next, Run(next, events[1..]));
    }
  }

  lemma NotSettling(c: Cache, now: nat)
    requires c.currentHash.Some?
    ensures Settling(c, now) <==> now - c.changedAt <= 30000 && c.claimAttempts < 60
  {
  }

  lemma LossYields(b: Bridge, image: Image, now: nat)
    requires b.cache.currentHash == Some(image) && !Settling(b.cache, now)
    ensures Yielded(Step(b, SelectionClear, now), image, now)
  {
  }

  lemma {:induction false} RunSplit(b: Bridge, first: seq<Timed>, second: seq<Timed>)
    ensures Run(b, first + second) == Run(Run(b, first), second)
    decreases |first|
  {
    hide Step;
    if first == [] {
      assert first + second == second;
    } else {
      assert (first + second)[1..] == first[1..] + second;
      RunSplit(Step(b, first[0].event, first[0].now), first[1..], second);
    }
  }

  /** In every run from the start: when another owner takes the selection, more than 30 seconds
      after the current image came or after 60 claims of it, the bridge claims nothing from then
      on, as long as every reading of the local clipboard shows that image, whatever else happens. */
  lemma YieldsUntilTheClipboardChanges(before: seq<Timed>, image: Image, now: nat, after: seq<Timed>)
    requires Run(Start(), before).cache.currentHash == Some(image)
    requires now - CameAt(Start(), before, 0) > 30000 || ClaimsOfCurrent(Start(), before, 0) >= 60
    requires OnlyShows(after, image, now)
    ensures var lost := Run(Start(), before + [Timed(SelectionClear, now)]);
            var r := Run(Start(), before + [Timed(SelectionClear, now)] + after);
            Extends(lost, r) && !Claims(Added(lost, r))
  {
    hide Step, Sound, Yielded, Settling;
    var b := Run(Start(), before);
    var loss := Timed(SelectionClear, now);
    CountersCount(before);
    NotSettling(b.cache, now);
    StartSound();
    RunKeepsSound(Start(), before);
    RunSplit(Start(), before, [loss]);
    RunSplit(Start(), before + [loss], after);
    assert Run(b, [loss]) == Step(b, SelectionClear, now) by { assert [loss][1..] == []; }
    StepKeepsSound(b, SelectionClear, now);
    LossYields(b, image, now);
    YieldedRunClaimsNothing(Step(b, SelectionClear, now), now, image, after);
  }

  /** After the selection was lost at `now`, a focused reading of the same image at `later` claims
      it again exactly if the loss came while the local change settled. */
  lemma ReclaimsIffSettling(b: Bridge, now: nat, later: nat)
    requires Sound(b) && b.connected && b.cache.image.Some?
    ensures var lost := Step(b, SelectionClear, now);
            var r := Step(lost, ClipboardRead(true, b.cache.image, false), later);
            && Extends(lost, r)
            && (Claims(Added(lost, r)) <==> now - b.cache.changedAt <= 30000 && b.cache.claimAttempts < 60)
            && (!Settling(b.cache, now) ==> Yielded(lost, b.cache.image.value, now))
  {
    hide ValidPng;
    var image := b.cache.image.value;
    var lost := Step(b, SelectionClear, now);
    var r := Step(lost, ClipboardRead(true, Some(image), false), later);
    if Settling(b.cache, now) {
      assert r.log == lost.log + [Claimed(image)];
      assert Claimed(image) in Added(lost, r);
    } else {
      assert r.log == lost.log;
    }
  }

  /** The X server announces the loss of the selection also when the bridge itself gives it up.
      So a bridge that releases for lack of focus claims the same image again, when the focus has
      returned, exactly if the announcement came while the local change settled. */
  lemma OwnReleaseIsTakenForALoss(b: Bridge, now: nat, announced: nat, later: nat)
    requires Sound(b) && b.connected && b.ownsClipboard && b.cache.image.Some?
    ensures var released := Step(b, FocusSeen(false), now);
            var lost := Step(released, SelectionClear, announced);
            var r := Step(lost, ClipboardRead(true, b.cache.image, false), later);
            && Added(b, released) == [Released] && Extends(lost, r)
            && (Claims(Added(lost, r)) <==> announced - b.cache.changedAt <= 30000 && b.cache.claimAttempts < 60)
  {
    hide ValidPng;
    ReclaimsIffSettling(Step(b, FocusSeen(false), now), announced, later);
  }
}
