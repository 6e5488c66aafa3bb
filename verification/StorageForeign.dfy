/**
 Slots that another program creates in the target while a migration is pending: when they
 are safe from it, and the runs that show exactly when they are not.
 */
module StorageForeign {
  import opened Common
  import opened RuntimeTree
  import opened StorageProtocol
  import opened StorageSafety
  import opened StorageRecovery

  /** The target slots this migration created. */
  ghost function Own(w: World): set<Slot> { w.target.Keys - w.foreign }

  /** The marker claims exactly the slots this migration created. */
  ghost predicate Accounted(w: World) { Owned(w.marker, w.stage) == Own(w) }

  ghost predicate AtPromotion(w: World, i: nat, moving: set<Slot>) {
    && i < 2
    && w.marker == Some(Marker(Promoting, Before(i), moving))
    && Own(w) == Before(i)
    && w.stage.Some? && w.stage.value.Keys == BOTH - Before(i)
  }

  ghost predicate ForeignInvariant(c: Circumstances, s: State) {
    var w := s.w;
    && w.source.Keys == BOTH
    && !w.lost && w.foreign <= w.target.Keys
    && (s.pc != Down && s.pc != ForgetMarker && s.pc != ForgetStage ==> w.settings.Pending?)
    && match s.pc
       case Down =>
         (match w.settings
          case Pending => Accounted(w)
          case Migrated => true
          case _ => Own(w) == {} && w.stage.None? && w.marker.None?)
       case Enter | EnterRollback | SwitchSettings => Accounted(w)
       case Undo(_, owned) => owned == Own(w) && (w.marker.None? ==> owned == {})
       case DropStage(_) => Own(w) == {}
       case DropMarker(_) => Own(w) == {} && w.stage.None?
       case CheckEmpty | CopySource => Own(w) == {} && w.marker.None?
       case Compare | CheckAgain | OpenMarker =>
         Own(w) == {} && w.marker.None? && w.stage.Some? && w.stage.value.Keys == BOTH
       case Announce(i) => AtPromotion(w, i, {})
       case Probe(i) => AtPromotion(w, i, {Nth(i)})
       case Move(i) => AtPromotion(w, i, {Nth(i)}) && Nth(i) !in w.target
       case Record(i) =>
         && i < 2
         && w.marker == Some(Marker(Promoting, Before(i), {Nth(i)}))
         && Own(w) == Before(i + 1)
         && w.stage.Some? && w.stage.value.Keys == BOTH - Before(i + 1)
       case SweepStage | Seal => w.marker == Some(Marker(Promoting, BOTH, {})) && Own(w) == BOTH
       case ForgetMarker | ForgetStage => w.settings.Migrated?
       case RevertSettings => Own(w) == {} && w.stage.None? && w.marker.None?
  }

  lemma PreparationStaysAccounted(c: Circumstances, s: State)
    requires !c.anyCopier && ForeignInvariant(c, s)
    requires s.pc.Enter? || s.pc.DropStage? || s.pc.DropMarker? || s.pc.CheckEmpty? || s.pc.CopySource?
             || s.pc.Compare? || s.pc.CheckAgain? || s.pc.OpenMarker? || s.pc.EnterRollback?
    ensures ForeignInvariant(c, Advance(c, s, map[]))
  {
    hide Manifest;
  }

  lemma PromotionStaysAccounted(c: Circumstances, s: State)
    requires ForeignInvariant(c, s)
    requires s.pc.Announce? || s.pc.Probe? || s.pc.Record? || s.pc.SweepStage? || s.pc.Seal?
    ensures ForeignInvariant(c, Advance(c, s, map[]))
  {
    hide Manifest;
    assert Before(2) == BOTH;
  }

  lemma MoveStaysAccounted(c: Circumstances, s: State)
    requires ForeignInvariant(c, s) && s.pc.Move?
    ensures ForeignInvariant(c, Advance(c, s, map[]))
  {
    hide Manifest;
    var t := Advance(c, s, map[]).w;
    var slot := Nth(s.pc.i);
    assert Has(s.w.stage, slot);
    assert t.target.Keys == s.w.target.Keys + {slot};
    assert t.stage.value.Keys == s.w.stage.value.Keys - {slot};
    assert Before(s.pc.i + 1) == Before(s.pc.i) + {slot};
  }

  lemma UndoStaysAccounted(c: Circumstances, s: State)
    requires ForeignInvariant(c, s) && s.pc.Undo?
    ensures ForeignInvariant(c, Advance(c, s, map[]))
  {
    hide Manifest;
    var t := Advance(c, s, map[]);
    if Data in s.pc.owned {
      assert t.w.target.Keys == s.w.target.Keys - {Data};
    } else if Ssh in s.pc.owned {
      assert t.w.target.Keys == s.w.target.Keys - {Ssh};
    } else {
      assert s.pc.owned == {} by {
        forall slot ensures slot !in s.pc.owned { match slot case Data => case Ssh => }
      }
    }
  }

  lemma StepStaysAccounted(c: Circumstances, s: State, copied: Root)
    requires !c.anyCopier && ForeignInvariant(c, s)
    ensures ForeignInvariant(c, Advance(c, s, copied))
  {
    hide Manifest;
    assert Advance(c, s, copied) == Advance(c, s, map[]);
    match s.pc
    case Undo(_, _) => UndoStaysAccounted(c, s);
    case Move(_) => MoveStaysAccounted(c, s);
    case Announce(_) | Probe(_) | Record(_) => PromotionStaysAccounted(c, s);
    case SweepStage | Seal => PromotionStaysAccounted(c, s);
    case Down | SwitchSettings | ForgetMarker | ForgetStage | RevertSettings =>
    case _ => PreparationStaysAccounted(c, s);
  }

  lemma ActionStaysAccounted(c: Circumstances, s: State, a: Action)
    requires !c.anyCopier && !c.crashInUndo && ForeignInvariant(c, s)
    ensures ForeignInvariant(c, Apply(c, s, a))
  {
    hide Manifest;
    match a
    case Step(copied) => StepStaysAccounted(c, s, copied);
    case Interrupt(left) =>
      if s.pc.Undo? { assert Partly(c, s, left).w.target.Keys == s.w.target.Keys; }
    case Create(slot, content) =>
      if Apply(c, s, a) != s {
        assert Own(Apply(c, s, a).w) == Own(s.w);
      }
    case _ =>
  }

  lemma {:induction false} RunStaysAccounted(c: Circumstances, s: State, actions: seq<Action>)
    requires !c.anyCopier && !c.crashInUndo && ForeignInvariant(c, s)
    ensures ForeignInvariant(c, Run(c, s, actions))
    decreases |actions|
  {
    if actions != [] {
      ActionStaysAccounted(c, s, actions[0]);
      RunStaysAccounted(c, Apply(c, s, actions[0]), actions[1..]);
    }
  }

  /** No run removes a slot that someone else created. */
  ghost predicate ForeignSafe(c: Circumstances, source: Root) {
    forall actions :: !Run(c, Start(source), actions).w.lost
  }

  lemma BothSlots(root: Root)
    requires Data in root && Ssh in root
    ensures root.Keys == BOTH
  {
    forall slot ensures slot in root.Keys <==> slot in BOTH { match slot case Data => case Ssh => }
  }

  /** The first announcement of a slot that is missing in the source. */
  lemma ReachUnstaged(c: Circumstances, source: Root) returns (run: seq<Action>, s: State)
    requires !c.anyCopier && source.Keys != BOTH
    ensures Run(c, Start(source), run) == s
    ensures s.pc.Announce? && s.pc.i < 2 && !Has(s.w.stage, Nth(s.pc.i)) && Nth(s.pc.i) !in s.w.target
    ensures s.w.marker == Some(Marker(Promoting, Before(s.pc.i), {})) && s.w.foreign == {} && s.w.stage.Some?
  {
    hide Manifest;
    run, s := ReachAnnounce(c, source);
    if Data in source {
      run, s := PromoteOne(c, Start(source), run, s);
      if Ssh in source { BothSlots(source); }
    }
  }

  /** The source has no `.ssh` (or no `data`): the announced slot looks as if it had already
      been moved, so the undo after the collision removes what the other program made. */
  lemma UnstagedSlotIsLost(c: Circumstances, source: Root) returns (run: seq<Action>)
    requires c.others && !c.anyCopier && source.Keys != BOTH
    ensures Run(c, Start(source), run).w.lost
  {
    hide Manifest;
    var s;
    var start, go := Start(source), Step(map[]);
    run, s := ReachUnstaged(c, source);
    var i := s.pc.i;
    run, s := Then(c, start, run, s, go);
    run, s := Then(c, start, run, s, Create(Nth(i), []));
    assert s.pc == Probe(i) && s.w.foreign == {Nth(i)} && Nth(i) in s.w.target;
    run, s := Then(c, start, run, s, go);
    run, s := Then(c, start, run, s, go);
    assert s.pc == Undo(Rollback, Before(i) + {Nth(i)});
    run, s := Then(c, start, run, s, go);
    if i == 1 { run, s := Then(c, start, run, s, go); }
  }

  /** Dying inside an undo: `data` has been removed, another program creates it, and the next
      start reads from the marker that it is ours. */
  lemma InterruptedUndoLoses(c: Circumstances, source: Root) returns (run: seq<Action>)
    requires c.others && !c.anyCopier && c.crashInUndo && source.Keys == BOTH
    ensures Run(c, Start(source), run).w.lost
  {
    var s;
    var start := Start(source);
    var go := Step(map[]);
    run, s := ReachAnnounce(c, source);
    run, s := PromoteOne(c, start, run, s);
    run, s := Then(c, start, run, s, Throw);
    run, s := Then(c, start, run, s, go);
    assert s.pc == Undo(Rollback, {Data});
    run, s := Then(c, start, run, s, go);                      // our data is gone
    assert Data !in s.w.target;
    run, s := Then(c, start, run, s, Create(Data, []));
    run, s := Then(c, start, run, s, Crash);
    assert s.w.foreign == {Data} && Owned(s.w.marker, s.w.stage) == {Data};
    run, s := Then(c, start, run, s, Resume);
    run, s := Then(c, start, run, s, go);
    assert s.pc == Undo(Restart, {Data});
    run, s := Then(c, start, run, s, go);
  }

  /** With other programs about and the production copier, their slots are safe in every run
      exactly when both source directories exist and no undo is cut short. */
  lemma ForeignSlotsSafeIff(c: Circumstances, source: Root)
    requires c.others && !c.anyCopier
    ensures ForeignSafe(c, source) <==> source.Keys == BOTH && !c.crashInUndo
  {
    if source.Keys == BOTH && !c.crashInUndo {
      forall actions ensures !Run(c, Start(source), actions).w.lost {
        RunStaysAccounted(c, Start(source), actions);
      }
    } else if source.Keys != BOTH {
      var run := UnstagedSlotIsLost(c, source);
    } else {
      var run := InterruptedUndoLoses(c, source);
    }
  }
}
