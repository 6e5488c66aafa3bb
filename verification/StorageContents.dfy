/**
 File contents in a migration with the production copier.  The manifest compares names and
 sizes only, but whatever is in the target is part of what the source keeps, so that a root
 the settings name has the contents of the source, too.
 */
module StorageContents {
  import opened RuntimeTree
  import opened StorageProtocol
  import opened StorageSafety
  import opened StorageRecovery

  /** What is in the root is part of what the source keeps, contents included. */
  ghost predicate Drawn(c: Circumstances, root: Root, source: Root) {
    forall slot :: slot in root ==> PartOf(root[slot], Kept(source, slot, c.transient))
  }

  /** From the copy to the last move, the staging directory is what the target is made of. */
  predicate Promotes(pc: Pc) {
    pc.Compare? || pc.CheckAgain? || pc.OpenMarker? || pc.Announce? || pc.Probe? || pc.Move? || pc.Record?
  }

  ghost predicate Contents(c: Circumstances, s: State) {
    && Drawn(c, s.w.target, s.w.source)
    && (Promotes(s.pc) && s.w.stage.Some? ==> Drawn(c, s.w.stage.value, s.w.source))
  }

  lemma CopyIsDrawn(c: Circumstances, source: Root)
    ensures Drawn(c, CopyOf(source, c.transient), source)
  {
    forall slot | slot in source ensures PartOf(Kept(source, slot, c.transient), Kept(source, slot, c.transient)) {
      PartOfItself(Kept(source, slot, c.transient));
    }
  }

  lemma StepKeepsContents(c: Circumstances, s: State, copied: Root)
    requires !c.anyCopier && Contents(c, s)
    ensures Contents(c, Advance(c, s, copied))
  {
    hide Manifest, PartOf, Drawn, CopyOf, Kept;
    var w := s.w;
    CopyIsDrawn(c, w.source);
    FewerDrawn(c, w.target, w.source, Data);
    FewerDrawn(c, w.target, w.source, Ssh);
    if s.pc.Move? && w.stage.Some? {
      MovedDrawn(c, w.stage.value, w.target, w.source, Nth(s.pc.i));
      FewerDrawn(c, w.stage.value, w.source, Nth(s.pc.i));
    }
    NothingDrawn(c, w.source);
    MovedDrawn(c, map[], w.target, w.source, Data);
    MovedDrawn(c, map[], w.target, w.source, Ssh);
  }

  lemma NothingDrawn(c: Circumstances, source: Root)
    ensures Drawn(c, map[], source)
  {
  }

  lemma FewerDrawn(c: Circumstances, root: Root, source: Root, slot: Slot)
    requires Drawn(c, root, source)
    ensures Drawn(c, root - {slot}, source)
  {
    hide PartOf, Kept;
  }

  /** A slot moved from the stage, or created empty. */
  lemma MovedDrawn(c: Circumstances, stage: Root, target: Root, source: Root, slot: Slot)
    requires Drawn(c, stage, source) && Drawn(c, target, source)
    ensures slot in stage ==> Drawn(c, target[slot := stage[slot]], source)
    ensures Drawn(c, target[slot := []], source)
  {
    hide PartOf, Kept;
    PartOfItself(Kept(source, slot, c.transient));
  }

  lemma InterruptKeepsContents(c: Circumstances, s: State, left: Root)
    requires !c.anyCopier && Contents(c, s)
    ensures Contents(c, Partly(c, s, left))
  {
    hide PartOf;
    var r := Partly(c, s, left);
    forall slot | slot in r.w.target ensures PartOf(r.w.target[slot], Kept(s.w.source, slot, c.transient)) {
      if r.w.target[slot] != s.w.target[slot] {
        PartOfPart(left[slot], s.w.target[slot], Kept(s.w.source, slot, c.transient));
      }
    }
  }

  lemma ActionKeepsContents(c: Circumstances, s: State, a: Action)
    requires !c.others && !c.anyCopier && Contents(c, s)
    ensures Contents(c, Apply(c, s, a))
  {
    hide Advance, Partly, Drawn;
    match a
    case Step(copied) => StepKeepsContents(c, s, copied);
    case Interrupt(left) => InterruptKeepsContents(c, s, left);
    case _ =>
  }

  lemma {:induction false} RunKeepsContents(c: Circumstances, s: State, actions: seq<Action>)
    requires !c.others && !c.anyCopier && Contents(c, s)
    ensures Contents(c, Run(c, s, actions))
    decreases |actions|
  {
    hide Apply, Contents;
    if actions != [] {
      ActionKeepsContents(c, s, actions[0]);
      RunKeepsContents(c, Apply(c, s, actions[0]), actions[1..]);
    }
  }

  lemma {:induction false} FinishedKeepsContents(c: Circumstances, s: State)
    requires !c.anyCopier && Contents(c, s)
    ensures Contents(c, Finished(c, s))
    decreases Remaining(s.pc)
  {
    hide Contents, Advance;
    if !s.pc.Down? {
      AdvanceApproachesDown(c, s);
      StepKeepsContents(c, s, map[]);
      FinishedKeepsContents(c, Advance(c, s, map[]));
    }
  }

  /** Names and sizes then tell the contents as well. */
  lemma DrawnAndHolding(c: Circumstances, root: Root, source: Root)
    requires Drawn(c, root, source) && HoldsAll(root, source, c.transient)
    ensures KeepsAll(root, source, c.transient)
  {
    hide PartOf, SameEntries, SameOutlines;
    forall slot ensures SameEntries(Listing(root, slot), Listing(source, slot), Dropped(slot, c.transient)) {
      var kept, dropped := Kept(source, slot, c.transient), Dropped(slot, c.transient);
      KeptIsListed(source, slot, c.transient);
      PartOfItself(kept);
      SameOutlinesIff(Listing(root, slot), Listing(source, slot), dropped);
      PartWithSameOutlines(Listing(root, slot), kept);
      SameEntriesIff(Listing(root, slot), Listing(source, slot), dropped);
    }
  }

  /** In every run of the production copier, with a crash after any effect, the settings name
      either the source or a root that keeps everything the source keeps, contents included. */
  lemma SettingsNameTheSameContents(c: Circumstances, source: Root, actions: seq<Action>)
    requires !c.others && !c.anyCopier
    ensures var w := Run(c, Start(source), actions).w;
            w.source == source && (NamedRoot(w) == source || KeepsAll(NamedRoot(w), source, c.transient))
  {
    SettingsNameACompleteRoot(c, source, actions);
    RunKeepsContents(c, Start(source), actions);
    var w := Run(c, Start(source), actions).w;
    if NamedRoot(w) != source { DrawnAndHolding(c, w.target, source); }
  }

  /** After any run and a crash at any moment, one undisturbed start ends the migration: with
      the contents of the source in the target and in use, or with nothing left of it. */
  lemma RecoveryKeepsContents(c: Circumstances, source: Root, actions: seq<Action>)
    requires !c.others && !c.anyCopier
    ensures var crashed := Run(c, Start(source), actions).(pc := Down);
            var r := Finished(c, Apply(c, crashed, Resume));
            && r.pc.Down? && !r.w.settings.Pending?
            && (if r.w.settings.Migrated? then KeepsAll(r.w.target, source, c.transient) else Clean(r.w))
  {
    hide Run, Finished, Contents;
    RecoverySettles(c, source, actions);
    var s := Run(c, Start(source), actions);
    var resumed := Apply(c, s.(pc := Down), Resume);
    StartHasContents(c, source);
    RunKeepsContents(c, Start(source), actions);
    CrashKeepsContents(c, s);
    FinishedKeepsContents(c, resumed);
    SourceUntouched(c, Start(source), actions);
    FinishedSource(c, resumed);
    var r := Finished(c, resumed);
    ContentsAreDrawn(c, r);
    if r.w.settings.Migrated? { DrawnAndHolding(c, r.w.target, source); }
  }

  lemma StartHasContents(c: Circumstances, source: Root)
    ensures Contents(c, Start(source))
  {
  }

  lemma CrashKeepsContents(c: Circumstances, s: State)
    requires Contents(c, s)
    ensures Contents(c, Apply(c, s.(pc := Down), Resume))
  {
  }

  lemma ContentsAreDrawn(c: Circumstances, s: State)
    requires Contents(c, s)
    ensures Drawn(c, s.w.target, s.w.source)
  {
  }
}
