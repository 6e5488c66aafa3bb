/**
 What every run of a migration keeps when no other program writes to the target: the
 settings file never names a root that misses an entry, and every crash point can be
 resumed or rolled back.
 */
module StorageSafety {
  import opened Common
  import opened RuntimeTree
  import opened StorageProtocol

  /** The slots `slots` of `root` list what the source must keep in them. */
  ghost predicate Agrees(c: Circumstances, w: World, root: Root, slots: set<Slot>) {
    forall slot :: slot in slots ==> SlotRows(root, slot, {}) == SlotRows(w.source, slot, c.transient)
  }

  const BOTH: set<Slot> := {Data, Ssh}

  /** Everything in the target is claimed by the marker, so an undo can find it. */
  ghost predicate Claimed(w: World) { w.target.Keys <= Owned(w.marker, w.stage) }

  ghost predicate Clean(w: World) { w.target == map[] && w.stage.None? && w.marker.None? }

  /** Promotion has moved the first `i` slots and the rest is still staged. */
  ghost predicate Promoting(c: Circumstances, w: World, i: nat, moving: set<Slot>) {
    && i <= 2
    && w.marker == Some(Marker(StorageProtocol.Promoting, Before(i), moving))
    && w.target.Keys == Before(i)
    && w.stage.Some?
    && Agrees(c, w, w.target, Before(i))
    && Agrees(c, w, w.stage.value, BOTH - Before(i))
  }

  /** The target is complete and the settings may be switched to it. */
  ghost predicate Complete(c: Circumstances, w: World) {
    SourceManifest(c, w) == Manifest(w.target, {})
  }

  ghost predicate Invariant(c: Circumstances, s: State) {
    var w := s.w;
    && w.foreign == {} && !w.lost
    && (s.pc != Down && s.pc != ForgetMarker && s.pc != ForgetStage ==> w.settings.Pending?)
    && match s.pc
       case Down =>
         (match w.settings
          case Pending => Claimed(w)
          case Migrated => Complete(c, w)
          case _ => Clean(w))
       case Enter => Claimed(w)
       case EnterRollback => Claimed(w)
       case Undo(_, owned) => Claimed(w) && w.target.Keys <= owned
       case DropStage(_) => w.target == map[]
       case DropMarker(_) => w.target == map[] && w.stage.None?
       case CheckEmpty => Clean(w)
       case CopySource => w.target == map[] && w.marker.None?
       case Compare => w.target == map[] && w.marker.None?
       case CheckAgain => w.target == map[] && w.marker.None? && w.stage.Some? && Agrees(c, w, w.stage.value, BOTH)
       case OpenMarker => w.target == map[] && w.marker.None? && w.stage.Some? && Agrees(c, w, w.stage.value, BOTH)
       case Announce(i) => i < 2 && Promoting(c, w, i, {})
       case Probe(i) => i < 2 && Promoting(c, w, i, {Nth(i)})
       case Move(i) => i < 2 && Promoting(c, w, i, {Nth(i)})
       case Record(i) =>
         && i < 2
         && w.marker == Some(Marker(StorageProtocol.Promoting, Before(i), {Nth(i)}))
         && w.target.Keys == Before(i + 1)
         && w.stage.Some? && Nth(i) !in w.stage.value
         && Agrees(c, w, w.target, Before(i + 1))
         && Agrees(c, w, w.stage.value, BOTH - Before(i + 1))
       case SweepStage =>
         && w.marker == Some(Marker(StorageProtocol.Promoting, BOTH, {}))
         && w.target.Keys == BOTH && Agrees(c, w, w.target, BOTH)
       case Seal =>
         && w.marker == Some(Marker(StorageProtocol.Promoting, BOTH, {}))
         && w.target.Keys == BOTH && Agrees(c, w, w.target, BOTH)
       case SwitchSettings => Claimed(w) && Complete(c, w)
       case ForgetMarker => w.settings.Migrated? && Complete(c, w)
       case ForgetStage => w.settings.Migrated? && Complete(c, w) && w.marker.None?
       case RevertSettings => Clean(w)
  }

  /** Slot-wise agreement is what the manifest comparison decides. */
  lemma AgreementIsManifest(c: Circumstances, w: World, root: Root)
    ensures Agrees(c, w, root, BOTH) <==> SourceManifest(c, w) == Manifest(root, {})
  {
    ManifestBySlot(w.source, c.transient, root, {});
    forall slot: Slot ensures slot in BOTH { match slot case Data => case Ssh => }
  }

  lemma NoTargetNoKeys(root: Root)
    requires root.Keys == {}
    ensures root == map[]
  {
  }

  lemma MoveKeepsInvariant(c: Circumstances, s: State)
    requires Invariant(c, s) && s.pc.Move?
    ensures Invariant(c, Advance(c, s, map[]))
  {
    var w, i := s.w, s.pc.i;
    var slot := Nth(i);
    var t := Advance(c, s, map[]);
    assert Before(i + 1) == Before(i) + {slot};
    assert slot !in w.target;
    if Has(w.stage, slot) {
      assert t.w.target == w.target[slot := w.stage.value[slot]];
    } else {
      assert t.w.target == w.target[slot := []];
      KeptWhole(w.stage.value, slot);
    }
    KeptWhole(t.w.target, slot);
    KeptWhole(w.stage.value, slot);
    forall other | other in Before(i + 1)
      ensures SlotRows(t.w.target, other, {}) == SlotRows(w.source, other, c.transient)
    {
      if other == slot {
        assert SlotRows(w.stage.value, slot, {}) == SlotRows(w.source, slot, c.transient);
      } else {
        assert SlotRows(t.w.target, other, {}) == SlotRows(w.target, other, {});
      }
    }
    forall other | other in BOTH - Before(i + 1)
      ensures SlotRows(t.w.stage.value, other, {}) == SlotRows(w.source, other, c.transient)
    {
      assert SlotRows(t.w.stage.value, other, {}) == SlotRows(w.stage.value, other, {});
    }
  }

  lemma UndoKeepsInvariant(c: Circumstances, s: State)
    requires Invariant(c, s) && s.pc.Undo?
    ensures Invariant(c, Advance(c, s, map[]))
  {
    var t := Advance(c, s, map[]);
    if Data in s.pc.owned || Ssh in s.pc.owned {
      assert t.w.target.Keys <= s.w.target.Keys;
    } else {
      assert s.pc.owned == {} by { forall x | x in s.pc.owned ensures false { match x case Data => case Ssh => } }
      NoTargetNoKeys(s.w.target);
    }
  }

  lemma PreparationKeepsInvariant(c: Circumstances, s: State, copied: Root)
    requires Invariant(c, s)
    requires s.pc.Enter? || s.pc.DropStage? || s.pc.DropMarker? || s.pc.CheckEmpty? || s.pc.CopySource?
             || s.pc.Compare? || s.pc.CheckAgain? || s.pc.OpenMarker? || s.pc.EnterRollback?
    ensures Invariant(c, Advance(c, s, copied))
  {
    var w := s.w;
    if s.pc.Compare? && w.stage.Some? { AgreementIsManifest(c, w, w.stage.value); }
    if s.pc.Enter? && w.marker.None? { NoTargetNoKeys(w.target); }
  }

  lemma RecordingKeepsInvariant(c: Circumstances, s: State, copied: Root)
    requires Invariant(c, s)
    requires s.pc.Announce? || s.pc.Probe? || s.pc.Record? || s.pc.SweepStage? || s.pc.Seal?
    ensures Invariant(c, Advance(c, s, copied))
  {
    if s.pc.Record? && s.pc.i == 1 { assert Before(2) == BOTH; }
    if s.pc.Seal? { AgreementIsManifest(c, s.w, s.w.target); }
  }

  lemma AdvanceKeepsInvariant(c: Circumstances, s: State, copied: Root)
    requires Invariant(c, s)
    ensures Invariant(c, Advance(c, s, copied))
  {
    match s.pc
    case Undo(_, _) => UndoKeepsInvariant(c, s);
    case Move(_) => MoveKeepsInvariant(c, s);
    case Down | SwitchSettings | ForgetMarker | ForgetStage | RevertSettings =>
    case Announce(_) | Probe(_) | Record(_) => RecordingKeepsInvariant(c, s, copied);
    case SweepStage | Seal => RecordingKeepsInvariant(c, s, copied);
    case _ => PreparationKeepsInvariant(c, s, copied);
  }

  /** No single action leaves the invariant, whatever is interrupted and whoever dies. */
  lemma ApplyKeepsInvariant(c: Circumstances, s: State, a: Action)
    requires !c.others && Invariant(c, s)
    ensures Invariant(c, Apply(c, s, a))
  {
    match a
    case Step(copied) => AdvanceKeepsInvariant(c, s, copied);
    case Interrupt(left) =>
      if s.pc.Undo? { assert Partly(c, s, left).w.target.Keys == s.w.target.Keys; }
    case Crash =>
    case Throw =>
    case _ =>
  }

  lemma {:induction false} RunKeepsInvariant(c: Circumstances, s: State, actions: seq<Action>)
    requires !c.others && Invariant(c, s)
    ensures Invariant(c, Run(c, s, actions))
    decreases |actions|
  {
    if actions != [] {
      ApplyKeepsInvariant(c, s, actions[0]);
      RunKeepsInvariant(c, Apply(c, s, actions[0]), actions[1..]);
    }
  }

  lemma ActionLeavesSource(c: Circumstances, s: State, a: Action)
    ensures Apply(c, s, a).w.source == s.w.source
  {
  }

  lemma {:induction false} SourceUntouched(c: Circumstances, s: State, actions: seq<Action>)
    ensures Run(c, s, actions).w.source == s.w.source
    decreases |actions|
  {
    if actions != [] {
      ActionLeavesSource(c, s, actions[0]);
      SourceUntouched(c, Apply(c, s, actions[0]), actions[1..]);
    }
  }

  /** In every run, with a crash after any effect: the source is what it was, and the settings
      name either the source or a root with all its lasting entries. */
  lemma SettingsNameACompleteRoot(c: Circumstances, source: Root, actions: seq<Action>)
    requires !c.others
    ensures var w := Run(c, Start(source), actions).w;
            && w.source == source
            && (NamedRoot(w) == source || HoldsAll(NamedRoot(w), source, c.transient))
  {
    RunKeepsInvariant(c, Start(source), actions);
    SourceUntouched(c, Start(source), actions);
    var w := Run(c, Start(source), actions).w;
    ManifestDecidesHolding(source, w.target, c.transient);
  }

  /** What the proofs allow for: an interrupted copy or removal of the stage leaves anything there,
      an interrupted undo any part of each slot it is removing. */
  lemma InterruptionsLeave(c: Circumstances, s: State, left: Root)
    ensures var r := Apply(c, s, Interrupt(left));
            && (s.pc.CopySource? || s.pc.SweepStage? || s.pc.DropStage? ==> r.w.stage == Some(left))
            && (s.pc.Undo? ==>
                  forall slot :: slot in s.pc.owned && slot in s.w.target && slot in left ==>
                    slot !in s.w.foreign && PartOf(left[slot], s.w.target[slot]) ==> r.w.target[slot] == left[slot])
  {
  }
}
