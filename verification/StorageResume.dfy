/**
 When every point at which a migration can die is one from which it can be completed.
 */
module StorageResume {
  import opened RuntimeTree
  import opened StorageProtocol
  import opened StorageSafety
  import opened StorageRecovery
  import opened StorageContents

  /** If the program died here while a migration was pending, completion gets through and leaves
      a sealed target with everything in it. */
  ghost predicate Completes(c: Circumstances, source: Root, s: State) {
    s.pc.Down? && s.w.settings.Pending? ==>
      var r := Completed(c, s.(pc := Enter));
      r.pc.SwitchSettings? && Sealed(r.w) && HoldsAll(r.w.target, source, c.transient)
  }

  // ---------------------------------------------------------------- no death inside an undo

  /** A seal vouches for a complete target, unless it is being undone. */
  ghost predicate SealSafe(c: Circumstances, s: State) {
    Sealed(s.w) ==>
      || s.pc.Undo? || s.pc.DropStage? || s.pc.DropMarker?
      || (Complete(c, s.w)
          && (s.pc.Down? || s.pc.Enter? || s.pc.SwitchSettings? || s.pc.ForgetMarker? || s.pc.EnterRollback?))
  }

  lemma StepKeepsSealSafe(c: Circumstances, s: State, copied: Root)
    requires SealSafe(c, s) && (s.pc.Seal? ==> Complete(c, s.w))
    ensures SealSafe(c, Advance(c, s, copied))
  {
    hide Manifest;
  }

  lemma ActionKeepsSealSafe(c: Circumstances, s: State, a: Action)
    requires !c.others && !c.crashInUndo && Invariant(c, s) && SealSafe(c, s)
    ensures SealSafe(c, Apply(c, s, a))
  {
    hide Manifest, Invariant, Advance;
    if s.pc.Seal? { SealedIsComplete(c, s); }
    if a.Step? { StepKeepsSealSafe(c, s, a.copied); }
  }

  lemma {:induction false} RunKeepsSealSafe(c: Circumstances, s: State, actions: seq<Action>)
    requires !c.others && !c.crashInUndo && Invariant(c, s) && SealSafe(c, s)
    ensures SealSafe(c, Run(c, s, actions))
    decreases |actions|
  {
    hide Apply, Invariant, SealSafe;
    if actions != [] {
      ActionKeepsSealSafe(c, s, actions[0]);
      ApplyKeepsInvariant(c, s, actions[0]);
      RunKeepsSealSafe(c, Apply(c, s, actions[0]), actions[1..]);
    }
  }

  // ---------------------------------------------------------------- nothing to lose

  lemma NoRowsNoEntries(source: Root, slot: Slot, transient: set<string>)
    requires Manifest(source, transient) == []
    ensures Kept(source, slot, transient) == []
  {
    var kept := Kept(source, slot, transient);
    assert SlotRows(source, slot, transient) == [] by { match slot case Data => case Ssh => }
    if kept != [] { FirstRow(kept, [slot.FileName()]); }
  }

  /** What is drawn from nothing is nothing, so it is always complete. */
  lemma NothingIsComplete(c: Circumstances, w: World)
    requires Drawn(c, w.target, w.source) && Manifest(w.source, c.transient) == []
    ensures Complete(c, w)
  {
    forall slot ensures Kept(w.target, slot, {}) == [] {
      NoRowsNoEntries(w.source, slot, c.transient);
      KeptWhole(w.target, slot);
    }
  }

  // ---------------------------------------------------------------- every crash point

  lemma UndamagedCompletes(c: Circumstances, source: Root, actions: seq<Action>)
    requires !c.others && !c.anyCopier
    requires var s := Run(c, Start(source), actions); s.pc.Down? ==> !Damaged(c, s.w)
    ensures Completes(c, source, Run(c, Start(source), actions))
  {
    hide Run, Manifest, Complete;
    RunKeepsInvariant(c, Start(source), actions);
    SourceUntouched(c, Start(source), actions);
    var s := Run(c, Start(source), actions);
    if s.pc.Down? && s.w.settings.Pending? { ResumeCompletesIffUndamaged(c, s); }
  }

  lemma SafeCompletes(c: Circumstances, source: Root, actions: seq<Action>)
    requires !c.others && !c.anyCopier && (!c.crashInUndo || Manifest(source, c.transient) == [])
    ensures Completes(c, source, Run(c, Start(source), actions))
  {
    hide Run, Manifest, Complete, Completes, Drawn;
    var s := Run(c, Start(source), actions);
    SourceUntouched(c, Start(source), actions);
    if !c.crashInUndo {
      RunKeepsSealSafe(c, Start(source), actions);
    } else {
      StartHasContents(c, source);
      RunKeepsContents(c, Start(source), actions);
      NothingIsComplete(c, s.w);
    }
    UndamagedCompletes(c, source, actions);
  }

  /** Every point at which a migration can die is one from which it can be completed. */
  ghost predicate EveryPointCompletes(c: Circumstances, source: Root) {
    forall actions :: Completes(c, source, Run(c, Start(source), actions))
  }

  /** With the production copier and no other program about, every point at which a migration can
      die is one from which it can be completed, exactly if the program does not die inside an
      undo or there is nothing to migrate. */
  lemma CrashPointsCompleteIff(c: Circumstances, source: Root)
    requires !c.others && !c.anyCopier
    ensures EveryPointCompletes(c, source) <==> !c.crashInUndo || Manifest(source, c.transient) == []
  {
    hide Manifest, Complete, Completes;
    if !c.crashInUndo || Manifest(source, c.transient) == [] {
      forall actions ensures Completes(c, source, Run(c, Start(source), actions)) { SafeCompletes(c, source, actions); }
    } else {
      var run := DamageIsPossible(c, source);
      DamagedDoesNotComplete(c, source, Run(c, Start(source), run));
      assert !Completes(c, source, Run(c, Start(source), run));
    }
  }

  lemma DamagedDoesNotComplete(c: Circumstances, source: Root, s: State)
    requires !c.anyCopier && CrashPoint(c, s) && Damaged(c, s.w)
    ensures !Completes(c, source, s)
  {
    hide Invariant, Completed;
    ResumeCompletesIffUndamaged(c, s);
  }
}
