/**
 Where resuming or rolling back a migration leads from the points at which it can die.
 */
module StorageRecovery {
  import opened Common
  import opened RuntimeTree
  import opened StorageProtocol
  import opened StorageSafety

  /** An upper bound on the effects that remain before the program is `Down`. */
  function Remaining(pc: Pc): nat {
    match pc
    case Down => 0
    case RevertSettings => 1
    case DropMarker(purpose) => if purpose.Rollback? then 2 else 28
    case DropStage(purpose) => if purpose.Rollback? then 3 else 29
    case Undo(purpose, owned) =>
      (if purpose.Rollback? then 4 else 30) + (if Data in owned then 1 else 0) + (if Ssh in owned then 1 else 0)
    case EnterRollback => 7
    case ForgetStage => 8
    case ForgetMarker => 9
    case SwitchSettings => 10
    case Seal => 11
    case SweepStage => 12
    case Record(i) => if i == 0 then 17 else 13
    case Move(i) => if i == 0 then 18 else 14
    case Probe(i) => if i == 0 then 19 else 15
    case Announce(i) => if i == 0 then 20 else 16
    case OpenMarker => 21
    case CheckAgain => 22
    case Compare => 23
    case CopySource => 24
    case CheckEmpty => 25
    case Enter => 33
  }

  lemma UndoApproachesDown(c: Circumstances, s: State)
    requires s.pc.Undo?
    ensures Remaining(Advance(c, s, map[]).pc) < Remaining(s.pc)
  {
  }

  lemma AdvanceApproachesDown(c: Circumstances, s: State)
    requires s.pc != Down
    ensures Remaining(Advance(c, s, map[]).pc) < Remaining(s.pc)
  {
    hide Manifest;
    if s.pc.Undo? { UndoApproachesDown(c, s); }
  }

  /** `completeDesktopStorageTransition` without interruption: it ends where it returns
      (the settings are switched next) or where its error is caught. */
  function Completed(c: Circumstances, s: State): State
    decreases Remaining(s.pc)
  {
    if s.pc.Down? || s.pc.SwitchSettings? || s.pc.EnterRollback? then s
    else
      AdvanceApproachesDown(c, s);
      Completed(c, Advance(c, s, map[]))
  }

  /** Everything the program still does when nothing interrupts it any more. */
  function Finished(c: Circumstances, s: State): State
    decreases Remaining(s.pc)
  {
    if s.pc.Down? then s
    else
      AdvanceApproachesDown(c, s);
      Finished(c, Advance(c, s, map[]))
  }

  /** The marker vouches for a target that is no longer complete. */
  ghost predicate Damaged(c: Circumstances, w: World) {
    w.marker.Some? && w.marker.value.progress.Promoted? && !Complete(c, w)
  }

  ghost predicate CrashPoint(c: Circumstances, s: State) {
    Invariant(c, s) && s.pc.Down? && s.w.settings.Pending?
  }

  ghost predicate Sealed(w: World) { w.marker.Some? && w.marker.value.progress.Promoted? }

  /** A completion that will end well if nothing interrupts it. */
  ghost predicate OnTrack(c: Circumstances, s: State) {
    && Invariant(c, s)
    && match s.pc
       case Enter => !Damaged(c, s.w)
       case Undo(purpose, _) => purpose.Restart?
       case DropStage(purpose) => purpose.Restart?
       case DropMarker(purpose) => purpose.Restart?
       case Compare => s.w.stage == Some(CopyOf(s.w.source, c.transient))
       case SwitchSettings => Sealed(s.w)
       case CheckEmpty | CopySource | CheckAgain | OpenMarker | SweepStage | Seal => true
       case Announce(_) | Probe(_) | Move(_) | Record(_) => true
       case _ => false
  }

  lemma PreparationStaysOnTrack(c: Circumstances, s: State)
    requires !c.anyCopier && OnTrack(c, s)
    requires s.pc.Enter? || s.pc.Undo? || s.pc.DropStage? || s.pc.DropMarker? || s.pc.CheckEmpty?
             || s.pc.CopySource? || s.pc.Compare? || s.pc.CheckAgain? || s.pc.OpenMarker?
    ensures OnTrack(c, Advance(c, s, map[]))
  {
    AdvanceKeepsInvariant(c, s, map[]);
    CopyPassesComparison(s.w.source, c.transient);
  }

  lemma PromotionStaysOnTrack(c: Circumstances, s: State)
    requires OnTrack(c, s)
    requires s.pc.Announce? || s.pc.Probe? || s.pc.Move? || s.pc.Record? || s.pc.SweepStage? || s.pc.Seal?
    ensures OnTrack(c, Advance(c, s, map[]))
  {
    AdvanceKeepsInvariant(c, s, map[]);
  }

  /** With an honest copier nothing after the fresh start can go wrong any more. */
  lemma {:induction false} CompletedFrom(c: Circumstances, s: State)
    requires !c.anyCopier && OnTrack(c, s)
    ensures var r := Completed(c, s);
            r.pc.SwitchSettings? && Invariant(c, r) && Sealed(r.w) && r.w.source == s.w.source
    decreases Remaining(s.pc)
  {
    if !s.pc.SwitchSettings? {
      AdvanceApproachesDown(c, s);
      if s.pc.Announce? || s.pc.Probe? || s.pc.Move? || s.pc.Record? || s.pc.SweepStage? || s.pc.Seal? {
        PromotionStaysOnTrack(c, s);
      } else {
        PreparationStaysOnTrack(c, s);
      }
      ActionLeavesSource(c, s, Step(map[]));
      CompletedFrom(c, Advance(c, s, map[]));
    }
  }

  /** Resuming at a crash point completes the migration exactly when the marker does not
      vouch for a damaged target. */
  lemma ResumeCompletesIffUndamaged(c: Circumstances, s: State)
    requires !c.anyCopier && CrashPoint(c, s)
    ensures var r := Completed(c, s.(pc := Enter));
            && (r.pc.SwitchSettings? <==> !Damaged(c, s.w))
            && (!Damaged(c, s.w) ==> Sealed(r.w) && HoldsAll(r.w.target, s.w.source, c.transient))
  {
    var e := s.(pc := Enter);
    if Damaged(c, s.w) {
      assert Advance(c, e, map[]).pc.EnterRollback?;
      assert Completed(c, e) == Completed(c, Advance(c, e, map[]));
    } else {
      CompletedFrom(c, e);
      ManifestDecidesHolding(s.w.source, Completed(c, e).w.target, c.transient);
    }
  }

  /** What rolling back from a crash point, or after any error, leaves behind: nothing. */
  lemma {:induction false} RollbackCleans(c: Circumstances, s: State)
    requires Invariant(c, s)
    requires s.pc.EnterRollback? || s.pc.RevertSettings?
             || ((s.pc.Undo? || s.pc.DropStage? || s.pc.DropMarker?) && s.pc.purpose.Rollback?)
    ensures var r := Finished(c, s); r.pc.Down? && Clean(r.w) && r.w.settings.Reverted?
    decreases Remaining(s.pc)
  {
    AdvanceKeepsInvariant(c, s, map[]);
    AdvanceApproachesDown(c, s);
    if s.pc.RevertSettings? {
      assert Finished(c, s) == Advance(c, s, map[]);
    } else {
      RollbackCleans(c, Advance(c, s, map[]));
    }
  }

  lemma {:induction false} FinishedKeepsInvariant(c: Circumstances, s: State)
    requires Invariant(c, s)
    ensures Invariant(c, Finished(c, s)) && Finished(c, s).pc.Down?
    decreases Remaining(s.pc)
  {
    if !s.pc.Down? {
      AdvanceKeepsInvariant(c, s, map[]);
      AdvanceApproachesDown(c, s);
      FinishedKeepsInvariant(c, Advance(c, s, map[]));
    }
  }

  /** Neither marker nor stage is left. */
  predicate Forgotten(w: World) { w.marker.None? && w.stage.None? }

  /** `Finished` never leaves the settings pending: one uninterrupted recovery ends it. */
  lemma {:induction false} FinishedSettles(c: Circumstances, s: State)
    requires Invariant(c, s) && s.pc != Down
    ensures !Finished(c, s).w.settings.Pending?
    ensures Finished(c, s).w.settings.Migrated? ==> Forgotten(Finished(c, s).w)
    decreases Remaining(s.pc)
  {
    AdvanceKeepsInvariant(c, s, map[]);
    AdvanceApproachesDown(c, s);
    var t := Advance(c, s, map[]);
    assert Finished(c, s) == Finished(c, t);
    if t.pc.Down? {
      assert Finished(c, t) == t;
    } else {
      FinishedSettles(c, t);
    }
  }

  /** From any state of a run: the program dies there, starts again and is left alone. */
  lemma RestartSettles(c: Circumstances, s: State)
    requires Invariant(c, s)
    ensures var resumed := Apply(c, s.(pc := Down), Resume);
            var r := Finished(c, resumed);
            && r.pc.Down? && !r.w.settings.Pending?
            && (if r.w.settings.Migrated? then HoldsAll(r.w.target, s.w.source, c.transient) else Clean(r.w))
            && (s.w.settings.Pending? ==> Forgotten(r.w))
  {
    var resumed := Apply(c, s.(pc := Down), Resume);
    CrashKeepsInvariant(c, s);
    FinishedKeepsInvariant(c, resumed);
    FinishedSource(c, resumed);
    ManifestDecidesHolding(s.w.source, Finished(c, resumed).w.target, c.transient);
    if resumed.pc != Down { FinishedSettles(c, resumed); }
  }

  lemma CrashKeepsInvariant(c: Circumstances, s: State)
    requires Invariant(c, s)
    ensures Invariant(c, s.(pc := Down)) && Invariant(c, Apply(c, s.(pc := Down), Resume))
  {
  }

  /** After any run and a crash at any moment, starting the program once more without
      interruption ends the migration: either everything is in the target and in use, or
      nothing is left of it; stage and marker are gone in both cases. */
  lemma RecoverySettles(c: Circumstances, source: Root, actions: seq<Action>)
    requires !c.others
    ensures var crashed := Run(c, Start(source), actions).(pc := Down);
            var r := Finished(c, Apply(c, crashed, Resume));
            && r.pc.Down? && !r.w.settings.Pending?
            && (if r.w.settings.Migrated? then HoldsAll(r.w.target, source, c.transient) else Clean(r.w))
            && (crashed.w.settings.Pending? ==> r.w.marker.None? && r.w.stage.None?)
  {
    RunKeepsInvariant(c, Start(source), actions);
    SourceUntouched(c, Start(source), actions);
    RestartSettles(c, Run(c, Start(source), actions));
  }

  lemma {:induction false} FinishedSource(c: Circumstances, s: State)
    ensures Finished(c, s).w.source == s.w.source
    decreases Remaining(s.pc)
  {
    if !s.pc.Down? {
      AdvanceApproachesDown(c, s);
      FinishedSource(c, Advance(c, s, map[]));
    }
  }

  /** How a damaged target arises: only by dying while a finished promotion is undone. */
  ghost predicate NeverUndoesSeal(c: Circumstances, s: State, actions: seq<Action>)
    decreases |actions|
  {
    actions != [] ==>
      && !(actions[0].Throw? && CanThrow(s.pc) && Sealed(s.w))
      && NeverUndoesSeal(c, Apply(c, s, actions[0]), actions[1..])
  }

  /** Only a completion about to switch, or a program that died there, sees a seal, and the
      sealed target is complete. */
  ghost predicate SealHonest(c: Circumstances, s: State) {
    Sealed(s.w) ==>
      && Complete(c, s.w)
      && (s.pc.Down? || s.pc.Enter? || s.pc.SwitchSettings? || s.pc.ForgetMarker?)
  }

  ghost predicate Trustworthy(c: Circumstances, s: State) { Invariant(c, s) && SealHonest(c, s) }

  lemma StepKeepsSealHonest(c: Circumstances, s: State, copied: Root)
    requires SealHonest(c, s)
    requires s.pc.Seal? ==> Complete(c, s.w)
    ensures SealHonest(c, Advance(c, s, copied))
  {
    hide Manifest;
  }

  lemma StepKeepsTrust(c: Circumstances, s: State, copied: Root)
    requires Trustworthy(c, s)
    ensures Trustworthy(c, Advance(c, s, copied))
  {
    hide Invariant, SealHonest, Advance;
    AdvanceKeepsInvariant(c, s, copied);
    if s.pc.Seal? { SealedIsComplete(c, s); }
    StepKeepsSealHonest(c, s, copied);
  }

  lemma SealedIsComplete(c: Circumstances, s: State)
    requires Invariant(c, s) && s.pc.Seal?
    ensures Complete(c, s.w)
  {
    AgreementIsManifest(c, s.w, s.w.target);
  }

  lemma ActionKeepsTrust(c: Circumstances, s: State, a: Action)
    requires !c.others && Trustworthy(c, s)
    requires !(a.Throw? && CanThrow(s.pc) && Sealed(s.w))
    ensures Trustworthy(c, Apply(c, s, a))
  {
    if a.Step? {
      StepKeepsTrust(c, s, a.copied);
    } else {
      ApplyKeepsInvariant(c, s, a);
    }
  }

  lemma {:induction false} UndamagedUnlessSealUndone(c: Circumstances, s: State, actions: seq<Action>)
    requires !c.others && Trustworthy(c, s) && NeverUndoesSeal(c, s, actions)
    ensures Trustworthy(c, Run(c, s, actions))
    decreases |actions|
  {
    if actions != [] {
      ActionKeepsTrust(c, s, actions[0]);
      UndamagedUnlessSealUndone(c, Apply(c, s, actions[0]), actions[1..]);
    }
  }

  /** In a run in which no finished promotion is undone, every crash point can be completed. */
  lemma EveryCrashPointCompletes(c: Circumstances, source: Root, actions: seq<Action>)
    requires !c.others && !c.anyCopier
    requires NeverUndoesSeal(c, Start(source), actions)
    ensures var crashed := Run(c, Start(source), actions).(pc := Down);
            crashed.w.settings.Pending? ==>
              var r := Completed(c, crashed.(pc := Enter));
              r.pc.SwitchSettings? && Sealed(r.w) && HoldsAll(r.w.target, source, c.transient)
  {
    UndamagedUnlessSealUndone(c, Start(source), actions);
    var s := Run(c, Start(source), actions);
    var crashed := s.(pc := Down);
    CrashKeepsInvariant(c, s);
    SourceUntouched(c, Start(source), actions);
    if crashed.w.settings.Pending? { ResumeCompletesIffUndamaged(c, crashed); }
  }

  /** Extends a run by one action, keeping its end in view. */
  lemma Then(c: Circumstances, start: State, actions: seq<Action>, s: State, a: Action)
    returns (longer: seq<Action>, t: State)
    requires Run(c, start, actions) == s
    ensures longer == actions + [a] && t == Apply(c, s, a) && Run(c, start, longer) == t
  {
    RunSnoc(c, start, actions, a);
    longer, t := actions + [a], Apply(c, s, a);
  }

  /** The undisturbed beginning of every migration: up to the comparison of the copy. */
  lemma ReachCompare(c: Circumstances, source: Root) returns (run: seq<Action>, s: State)
    requires !c.anyCopier
    ensures Run(c, Start(source), run) == s
    ensures s == State(World(source, map[], Some(CopyOf(source, c.transient)), None, Pending, {}, false), Compare)
  {
    var go := Step(map[]);
    run, s := Then(c, Start(source), [], Start(source), Request);
    run, s := Then(c, Start(source), run, s, Resume);
    run, s := Then(c, Start(source), run, s, go);   // no marker yet
    run, s := Then(c, Start(source), run, s, go);   // drop the stage
    run, s := Then(c, Start(source), run, s, go);   // drop the marker
    assert s.pc == CheckEmpty;
    run, s := Then(c, Start(source), run, s, go);
    run, s := Then(c, Start(source), run, s, go);   // copy
  }

  /** Up to the first announcement. */
  lemma ReachAnnounce(c: Circumstances, source: Root) returns (run: seq<Action>, s: State)
    requires !c.anyCopier
    ensures Run(c, Start(source), run) == s
    ensures s == State(World(source, map[], Some(CopyOf(source, c.transient)),
                             Some(Marker(Promoting, {}, {})), Pending, {}, false), Announce(0))
  {
    hide CopyOf, Manifest;
    CopyPassesComparison(source, c.transient);
    var go := Step(map[]);
    run, s := ReachCompare(c, source);
    run, s := Then(c, Start(source), run, s, go);
    run, s := Then(c, Start(source), run, s, go);
    assert s.pc == OpenMarker;
    run, s := Then(c, Start(source), run, s, go);
  }

  /** From an announcement of slot `i` to the next one, or to the sweep of the stage; a slot that
      is not staged is created empty. */
  lemma PromoteOne(c: Circumstances, start: State, actions: seq<Action>, from: State)
    returns (run: seq<Action>, s: State)
    requires Run(c, start, actions) == from
    requires from.pc.Announce? && from.pc.i < 2
    requires Nth(from.pc.i) !in from.w.target && from.w.stage.Some?
    ensures Run(c, start, run) == s
    ensures var slot := Nth(from.pc.i);
            var staged := if slot in from.w.stage.value then from.w.stage.value[slot] else [];
            s == State(from.w.(target := from.w.target[slot := staged],
                               stage := Some(from.w.stage.value - {slot}),
                               marker := Some(Marker(Promoting, Before(from.pc.i + 1), {}))),
                       if from.pc.i == 0 then Announce(1) else SweepStage)
  {
    hide Manifest, Owned;
    var go := Step(map[]);
    run, s := Then(c, start, actions, from, go);
    run, s := Then(c, start, run, s, go);
    assert s.pc == Move(from.pc.i);
    run, s := Then(c, start, run, s, go);
    assert Nth(from.pc.i) !in from.w.stage.value ==> from.w.stage.value - {Nth(from.pc.i)} == from.w.stage.value;
    run, s := Then(c, start, run, s, go);
  }

  /** A target can be damaged: the settings cannot be written, and the program dies after it has
      removed what was promoted but not yet the marker. */
  lemma DamageIsPossible(c: Circumstances, source: Root) returns (run: seq<Action>)
    requires !c.others && !c.anyCopier && c.crashInUndo
    requires Manifest(source, c.transient) != []
    ensures CrashPoint(c, Run(c, Start(source), run)) && Damaged(c, Run(c, Start(source), run).w)
  {
    var s;
    var start := Start(source);
    run, s := ReachSeal(c, source);
    run, s := Then(c, start, run, s, Throw);
    run, s := Then(c, start, run, s, Step(map[]));
    assert s.pc == Undo(Rollback, BOTH);
    run, s := Then(c, start, run, s, Step(map[]));
    run, s := Then(c, start, run, s, Step(map[]));
    assert s.w.target == map[] && Manifest(s.w.target, {}) == [];
    run, s := Then(c, start, run, s, Crash);
    RunKeepsInvariant(c, start, run);
  }

  lemma ReachSeal(c: Circumstances, source: Root) returns (run: seq<Action>, s: State)
    requires !c.anyCopier
    ensures Run(c, Start(source), run) == s
    ensures s.pc == SwitchSettings && s.w.settings == Pending && s.w.source == source && s.w.foreign == {}
    ensures s.w.marker == Some(Marker(Promoted, BOTH, {})) && s.w.target.Keys == BOTH && s.w.stage == None
  {
    hide Manifest;
    run, s := ReachAnnounce(c, source);
    run, s := PromoteOne(c, Start(source), run, s);
    run, s := PromoteOne(c, Start(source), run, s);
    assert s.pc == SweepStage;
    run, s := Then(c, Start(source), run, s, Step(map[]));
    run, s := Then(c, Start(source), run, s, Step(map[]));
  }
}
