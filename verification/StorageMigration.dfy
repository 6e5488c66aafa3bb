/**
 The migration as the program performs it: a directory that is changed step by step.

 Every method is tied to the protocol: the directory it leaves is the one the protocol's
 steps reach when nothing interrupts them.  Interruptions are the business of the protocol's
 runs, which stop between any two of these steps.
 */
module StorageMigration {
  import opened Common
  import opened RuntimeTree
  import opened StorageProtocol
  import opened StorageSafety
  import opened StorageRecovery
  import Paths = StoragePaths

  const ORDER: seq<Slot> := [Data, Ssh]

  lemma CompletedUnfolds(c: Circumstances, s: State)
    requires !s.pc.Down? && !s.pc.SwitchSettings? && !s.pc.EnterRollback?
    ensures Completed(c, s) == Completed(c, Advance(c, s, map[]))
  {
  }

  lemma FinishedUnfolds(c: Circumstances, s: State)
    requires !s.pc.Down?
    ensures Finished(c, s) == Finished(c, Advance(c, s, map[]))
  {
  }

  /** The undo loops of completion and rollback do the same to the disk. */
  function Undone(w: World, owned: set<Slot>): World {
    var a := if Data in owned then Remove(w, Data) else w;
    if Ssh in owned then Remove(a, Ssh) else a
  }

  lemma UndoReachesDropStage(c: Circumstances, w: World, purpose: Purpose, owned: set<Slot>)
    ensures Finished(c, State(w, Undo(purpose, owned))) == Finished(c, State(Undone(w, owned), DropStage(purpose)))
    ensures Completed(c, State(w, Undo(purpose, owned))) == Completed(c, State(Undone(w, owned), DropStage(purpose)))
    decreases owned
  {
    hide Manifest;
    var s := State(w, Undo(purpose, owned));
    FinishedUnfolds(c, s);
    CompletedUnfolds(c, s);
    if Data in owned {
      UndoReachesDropStage(c, Remove(w, Data), purpose, owned - {Data});
    } else if Ssh in owned {
      UndoReachesDropStage(c, Remove(w, Ssh), purpose, owned - {Ssh});
    }
  }

  lemma UndoneKeys(w: World, owned: set<Slot>)
    ensures Undone(w, owned).target.Keys == w.target.Keys - owned
  {
    forall slot ensures slot in Undone(w, owned).target <==> slot in w.target && slot !in owned {
      match slot case Data => case Ssh =>
    }
  }

  /** The disk after slot `i` has been announced, moved and recorded. */
  function Round(w: World, i: nat): World
    requires i < 2 && w.stage.Some?
  {
    var slot, staged := Nth(i), w.stage.value;
    w.(target := w.target[slot := if slot in staged then staged[slot] else []],
       stage := Some(if slot in staged then staged - {slot} else staged),
       marker := Some(Marker(Promoting, Before(i + 1), {})))
  }

  lemma OneRound(c: Circumstances, w: World, i: nat)
    requires i < 2 && w.stage.Some? && w.target.Keys == Before(i)
    ensures Completed(c, State(w, Announce(i)))
            == Completed(c, State(Round(w, i), if i == 0 then Announce(1) else SweepStage))
  {
    hide Manifest;
    var announced := w.(marker := Some(Marker(Promoting, Before(i), {Nth(i)})));
    CompletedUnfolds(c, State(w, Announce(i)));
    CompletedUnfolds(c, State(announced, Probe(i)));
    CompletedUnfolds(c, State(announced, Move(i)));
    var moved := Round(w, i).(marker := announced.marker);
    assert Advance(c, State(announced, Move(i)), map[]) == State(moved, Record(i));
    CompletedUnfolds(c, State(moved, Record(i)));
  }

  class Migration {
    const source: Root
    const transient: set<string>
    var target: Root
    var stage: Option<Root>
    var marker: Option<Marker>
    var settings: Settings

    constructor (source: Root, transient: set<string>)
      ensures this.source == source && this.transient == transient
      ensures World() == Start(source).w
    {
      this.source, this.transient := source, transient;
      target, stage, marker, settings := map[], None, None, Original;
    }

    ghost function World(): World
      reads this
    {
      StorageProtocol.World(source, target, stage, marker, settings, {}, false)
    }

    /** A run with the production copier. */
    ghost function Honest(): Circumstances {
      Circumstances(transient, false, false, true)
    }

    /** `assertDesktopStorageMigrationTarget`, given whether the target directory can be read and
        written, the real paths of both roots and the names in the target directory: the target
        is accepted exactly if the transition is valid, the real target does not lie in the real
        source as far as the path test can tell, neither slot exists and no marker or stage of
        another migration is there. */
    method CheckTarget(t: Paths.Transition, accessible: bool, source: Paths.Path, target: Paths.Path,
        names: seq<string>)
      returns (ok: bool)
      ensures ok <==>
              && Paths.Accepted(t) && accessible && this.target == map[]
              && !(Paths.Within(source, target) && (target == source || !Paths.StartsWithDots(target[|source|])))
              && forall name :: name in names ==> !Paths.OfAnother(t, name)
    {
      if !Paths.Accepted(t) || !accessible { return false; }
      Paths.PathInsideIff(source, target);
      if source == target || Paths.PathInside(source, target) { return false; }
      var empty := AssertTarget();
      if !empty { return false; }
      var others := 0;
      var i := 0;
      while i < |names|
        invariant 0 <= i <= |names| && others <= i
        invariant others == 0 <==> forall name :: name in names[..i] ==> !Paths.OfAnother(t, name)
      {
        assert names[..i + 1] == names[..i] + [names[i]];
        assert forall name :: name in names[..i + 1] <==> name in names[..i] || name == names[i];
        if Paths.OfAnother(t, names[i]) { others := others + 1; }
        i := i + 1;
      }
      assert names[..i] == names;
      ok := others == 0;
    }

    /** The part of that check that a completion depends on: neither slot exists. */
    method AssertTarget() returns (ok: bool)
      ensures ok <==> target == map[]
    {
      ok := true;
      var i := 0;
      while i < |ORDER|
        invariant 0 <= i <= 2
        invariant ok <==> forall j :: 0 <= j < i ==> ORDER[j] !in target
      {
        if ORDER[i] in target { ok := false; }
        i := i + 1;
      }
      if ok {
        assert ORDER[0] == Data && ORDER[1] == Ssh;
        forall slot ensures slot !in target { match slot case Data => case Ssh => }
        assert target.Keys == {};
      }
    }

    /** Removes the target slots the marker claims. */
    method RemoveOwned()
      modifies this`target
      ensures World() == Undone(old(World()), Owned(marker, stage))
    {
      var owned: set<Slot> := {};
      if marker.Some? {
        owned := marker.value.promoted;
        if Data in marker.value.moving && !Has(stage, Data) { owned := owned + {Data}; }
        if Ssh in marker.value.moving && !Has(stage, Ssh) { owned := owned + {Ssh}; }
      }
      assert owned == Owned(marker, stage) by {
        forall slot ensures slot in owned <==> slot in Owned(marker, stage) {
          match slot case Data => case Ssh =>
        }
      }
      if Data in owned { target := target - {Data}; }
      if Ssh in owned { target := target - {Ssh}; }
    }

    /** Copies the source, without the transient data entries, into the staging directory. */
    method CopyRuntimeDirectory()
      modifies this`stage
      ensures stage == Some(CopyOf(source, transient))
      ensures stage.value.Keys == source.Keys && KeepsAll(stage.value, source, transient)
    {
      CopyKeepsAll(source, transient);
      var copy: Root := map[];
      if Data in source { copy := copy[Data := Persistent(source[Data], transient)]; }
      if Ssh in source { copy := copy[Ssh := source[Ssh]]; }
      assert copy == CopyOf(source, transient) by {
        forall slot ensures slot in copy <==> slot in source { match slot case Data => case Ssh => }
      }
      stage := Some(copy);
    }

    /** `completeDesktopStorageTransition`; `ok` is false where it throws.  Resumed where a
        run may have died, it succeeds exactly when the marker does not vouch for a damaged
        target, and then the target holds everything and the marker says so. */
    method Complete() returns (ok: bool)
      modifies this`target, this`stage, this`marker
      ensures State(World(), if ok then SwitchSettings else EnterRollback)
              == Completed(Honest(), State(old(World()), Enter))
      ensures old(settings.Pending? && Claimed(World())) ==>
                && (ok <==> !old(Damaged(Honest(), World())))
                && (ok ==> Sealed(World()) && HoldsAll(target, source, transient))
    {
      ghost var c := Honest();
      ghost var start := State(World(), Enter);
      if settings.Pending? && Claimed(World()) { ResumeCompletesIffUndamaged(c, State(World(), Down)); }
      CompletedUnfolds(c, start);
      if marker.Some? && marker.value.progress.Promoted? {
        var sourceRows := BuildManifest(source, transient);
        var targetRows := BuildManifest(target, {});
        return sourceRows == targetRows;
      }
      if marker.Some? {
        UndoReachesDropStage(c, World(), Restart, Owned(marker, stage));
        RemoveOwned();
      }
      CompletedUnfolds(c, State(World(), DropStage(Restart)));
      stage := None;
      CompletedUnfolds(c, State(World(), DropMarker(Restart)));
      marker := None;
      assert Completed(c, State(World(), CheckEmpty)) == Completed(c, start);
      ok := Prepare(start);
      if ok { Promote(start); }
    }

    /** Copies, compares, and checks the target once more. */
    method Prepare(ghost start: State) returns (ok: bool)
      requires Completed(Honest(), State(World(), CheckEmpty)) == Completed(Honest(), start)
      modifies this`stage
      ensures ok ==> Completed(Honest(), State(World(), OpenMarker)) == Completed(Honest(), start)
      ensures ok ==> target == map[] && stage.Some?
      ensures !ok ==> State(World(), EnterRollback) == Completed(Honest(), start)
    {
      ghost var c := Honest();
      CompletedUnfolds(c, State(World(), CheckEmpty));
      var free := AssertTarget();
      if !free { return false; }
      CompletedUnfolds(c, State(World(), CopySource));
      CopyRuntimeDirectory();
      CompletedUnfolds(c, State(World(), Compare));
      var sourceRows := BuildManifest(source, transient);
      var stagedRows := BuildManifest(stage.value, {});
      if sourceRows != stagedRows { return false; }
      CompletedUnfolds(c, State(World(), CheckAgain));
      free := AssertTarget();
      return free;
    }

    /** Moves the staged slots into the target, announcing each move in the marker. */
    method Promote(ghost start: State)
      requires Completed(Honest(), State(World(), OpenMarker)) == Completed(Honest(), start)
      requires target == map[] && stage.Some?
      modifies this`target, this`stage, this`marker
      ensures State(World(), SwitchSettings) == Completed(Honest(), start)
    {
      ghost var c := Honest();
      CompletedUnfolds(c, State(World(), OpenMarker));
      var promotion := Marker(Promoting, {}, {});
      marker := Some(promotion);
      var i := 0;
      while i < 2
        invariant 0 <= i <= 2
        invariant promotion == Marker(Promoting, Before(i), {})
        invariant marker == Some(promotion) && target.Keys == Before(i) && stage.Some?
        invariant Completed(c, State(World(), if i < 2 then Announce(i) else SweepStage)) == Completed(c, start)
      {
        promotion := PromoteNext(i, promotion, start);
        i := i + 1;
      }
      CompletedUnfolds(c, State(World(), SweepStage));
      stage := None;
      CompletedUnfolds(c, State(World(), Seal));
      marker := Some(promotion.(progress := Promoted));
    }

    /** One round of the promotion loop: announce, check, move, record. */
    method PromoteNext(i: nat, promotion: Marker, ghost start: State) returns (next: Marker)
      requires i < 2 && promotion == Marker(Promoting, Before(i), {})
      requires target.Keys == Before(i) && stage.Some?
      requires Completed(Honest(), State(World(), Announce(i))) == Completed(Honest(), start)
      modifies this`target, this`stage, this`marker
      ensures next == Marker(Promoting, Before(i + 1), {})
      ensures marker == Some(next) && target.Keys == Before(i + 1) && stage.Some?
      ensures Completed(Honest(), State(World(), if i == 0 then Announce(1) else SweepStage))
              == Completed(Honest(), start)
    {
      OneRound(Honest(), World(), i);
      marker := Some(promotion.(moving := {Nth(i)}));
      if Has(stage, Nth(i)) {
        target := target[Nth(i) := stage.value[Nth(i)]];
        stage := Some(stage.value - {Nth(i)});
      } else {
        target := target[Nth(i) := []];
      }
      next := Marker(Promoting, promotion.promoted + {Nth(i)}, {});
      marker := Some(next);
    }

    /** `finalizeDesktopStorageTransition`. */
    method Finalize()
      modifies this`stage, this`marker
      ensures State(World(), Down) == Finished(Honest(), State(old(World()), ForgetMarker))
      ensures marker.None? && stage.None?
    {
      FinishedUnfolds(Honest(), State(World(), ForgetMarker));
      marker := None;
      FinishedUnfolds(Honest(), State(World(), ForgetStage));
      stage := None;
    }

    /** `rollbackDesktopStorageTransition`: nothing claimed by the marker stays behind. */
    method RollBack()
      modifies this`target, this`stage, this`marker
      ensures Finished(Honest(), State(World(), RevertSettings))
              == Finished(Honest(), State(old(World()), EnterRollback))
      ensures old(Claimed(World())) ==> Clean(World())
    {
      ghost var c := Honest();
      FinishedUnfolds(c, State(World(), EnterRollback));
      UndoReachesDropStage(c, World(), Rollback, Owned(marker, stage));
      RemoveOwned();
      UndoneKeys(old(World()), Owned(old(marker), old(stage)));
      if old(Claimed(World())) { NoTargetNoKeys(target); }
      FinishedUnfolds(c, State(World(), DropStage(Rollback)));
      stage := None;
      FinishedUnfolds(c, State(World(), DropMarker(Rollback)));
      marker := None;
    }

    /** `finishDesktopStorageTransition` with the error handling of its two callers, the
        shutdown after a request and the next start-up. */
    method Recover()
      modifies this
      ensures State(World(), Down)
              == Finished(Honest(), Apply(Honest(), State(old(World()), Down), Resume))
    {
      if settings != Pending { return; }
      ghost var c := Honest();
      FinishedThroughCompletion(c, State(World(), Enter));
      var ok := Complete();
      if ok {
        FinishedUnfolds(c, State(World(), SwitchSettings));
        settings := Migrated;
        Finalize();
      } else {
        RollBack();
        FinishedUnfolds(c, State(World(), RevertSettings));
        settings := Reverted;
      }
    }
  }

  /** A full recovery is a completion followed by whatever its outcome asks for. */
  lemma {:induction false} FinishedThroughCompletion(c: Circumstances, s: State)
    ensures Finished(c, s) == Finished(c, Completed(c, s))
    decreases Remaining(s.pc)
  {
    if !s.pc.Down? && !s.pc.SwitchSettings? && !s.pc.EnterRollback? {
      AdvanceApproachesDown(c, s);
      FinishedThroughCompletion(c, Advance(c, s, map[]));
    }
  }
}
