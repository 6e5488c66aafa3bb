/**
 The storage migration as a protocol over a disk that survives crashes.

 One `Action` is one indivisible effect: a step of the program, a crash, an error thrown by
 the next operation, an interrupted removal or copy, or another program creating a slot in
 the target directory.  A run is any sequence of actions; an action that is not possible in
 a state leaves the state alone, so a property of all action sequences is a property of all
 interleavings.
 */
module StorageProtocol {
  import opened Common
  import opened RuntimeTree

  datatype Progress = Promoting | Promoted

  /** The record that says which target slots belong to this migration. */
  datatype Marker = Marker(progress: Progress, promoted: set<Slot>, moving: set<Slot>)

  /** What the settings file says: which root is in use and whether a migration is pending. */
  datatype Settings = Original | Pending | Migrated | Reverted

  /** What a crash leaves behind. `foreign` are slots another program created; `lost` tells
      whether one of those has been removed. */
  datatype World = World(
    source: Root,
    target: Root,
    stage: Option<Root>,
    marker: Option<Marker>,
    settings: Settings,
    foreign: set<Slot>,
    lost: bool)

  /** Whether an undo runs because completion starts over or because it failed. */
  datatype Purpose = Restart | Rollback

  /** Where the program is. `Down` means it is not migrating: not running, or running
      normally before the migration starts. */
  datatype Pc =
    | Down
    | Enter
    | Undo(purpose: Purpose, owned: set<Slot>)
    | DropStage(purpose: Purpose)
    | DropMarker(purpose: Purpose)
    | CheckEmpty | CopySource | Compare | CheckAgain | OpenMarker
    | Announce(i: nat) | Probe(i: nat) | Move(i: nat) | Record(i: nat)
    | SweepStage | Seal
    | SwitchSettings | ForgetMarker | ForgetStage
    | EnterRollback | RevertSettings

  datatype State = State(w: World, pc: Pc)

  /** The circumstances of a run. */
  datatype Circumstances = Circumstances(
    transient: set<string>,       // data entries that are not copied
    anyCopier: bool,              // the copier may produce, and a removal may leave, anything
    others: bool,                 // other programs may create slots in the target
    crashInUndo: bool)            // the program may die while it undoes a marked attempt

  datatype Action =
    | Request
    | Resume
    | Step(copied: Root)
    | Interrupt(left: Root)       // a recursive copy or removal has got this far
    | Throw
    | Crash
    | Create(slot: Slot, content: Entries)

  /** The order in which slots are promoted. */
  function Nth(i: nat): Slot { if i == 0 then Data else Ssh }
  function Before(i: nat): set<Slot> { if i == 0 then {} else if i == 1 then {Data} else {Data, Ssh} }

  function Has(root: Option<Root>, slot: Slot): bool { root.Some? && slot in root.value }

  /** The slots the marker claims: those recorded as promoted, and the one announced as
      moving once its staged copy is gone. */
  function Owned(marker: Option<Marker>, stage: Option<Root>): set<Slot> {
    match marker
    case None => {}
    case Some(m) => m.promoted + set slot | slot in m.moving && !Has(stage, slot)
  }

  function SourceManifest(c: Circumstances, w: World): seq<Row> { Manifest(w.source, c.transient) }

  /** Removes a target slot; removing one that someone else created is a loss. */
  function Remove(w: World, slot: Slot): World {
    w.(target := w.target - {slot},
       lost := w.lost || (slot in w.target && slot in w.foreign),
       foreign := w.foreign - {slot})
  }

  function AfterUndo(purpose: Purpose): Pc {
    match purpose case Restart => CheckEmpty case Rollback => RevertSettings
  }

  /** The next effect of the program, and where it continues. */
  function Advance(c: Circumstances, s: State, copied: Root): State {
    var w := s.w;
    match s.pc
    case Down => s
    case Enter =>
      (match w.marker
       case None => State(w, DropStage(Restart))
       case Some(m) =>
         if m.progress.Promoted? then
           State(w, if SourceManifest(c, w) == Manifest(w.target, {}) then SwitchSettings else EnterRollback)
         else State(w, Undo(Restart, Owned(w.marker, w.stage))))
    case Undo(purpose, owned) =>
      if Data in owned then State(Remove(w, Data), Undo(purpose, owned - {Data}))
      else if Ssh in owned then State(Remove(w, Ssh), Undo(purpose, owned - {Ssh}))
      else State(w, DropStage(purpose))
    case DropStage(purpose) => State(w.(stage := None), DropMarker(purpose))
    case DropMarker(purpose) => State(w.(marker := None), AfterUndo(purpose))
    case CheckEmpty => State(w, if w.target == map[] then CopySource else EnterRollback)
    case CopySource =>
      State(w.(stage := Some(if c.anyCopier then copied else CopyOf(w.source, c.transient))), Compare)
    case Compare =>
      State(w, if w.stage.Some? && SourceManifest(c, w) == Manifest(w.stage.value, {})
               then CheckAgain else EnterRollback)
    case CheckAgain => State(w, if w.target == map[] then OpenMarker else EnterRollback)
    case OpenMarker => State(w.(marker := Some(Marker(Promoting, {}, {}))), Announce(0))
    case Announce(i) => State(w.(marker := Some(Marker(Promoting, Before(i), {Nth(i)}))), Probe(i))
    case Probe(i) => State(w, if Nth(i) in w.target then EnterRollback else Move(i))
    case Move(i) =>
      var slot := Nth(i);
      if Has(w.stage, slot) then
        // Renaming onto a directory that has entries fails.
        if slot in w.target && w.target[slot] != [] then State(w, EnterRollback)
        else State(w.(target := w.target[slot := w.stage.value[slot]],
                      stage := Some(w.stage.value - {slot})), Record(i))
      else State(w.(target := if slot in w.target then w.target else w.target[slot := []]), Record(i))
    case Record(i) =>
      State(w.(marker := Some(Marker(Promoting, Before(i + 1), {}))),
            if i == 0 then Announce(1) else SweepStage)
    case SweepStage => State(w.(stage := None), Seal)
    case Seal => State(w.(marker := Some(Marker(Promoted, Before(2), {}))), SwitchSettings)
    case SwitchSettings => State(w.(settings := Migrated), ForgetMarker)
    case ForgetMarker => State(w.(marker := None), ForgetStage)
    case ForgetStage => State(w.(stage := None), Down)
    case EnterRollback => State(w, Undo(Rollback, Owned(w.marker, w.stage)))
    case RevertSettings => State(w.(settings := Reverted), Down)
  }

  /** Where an error thrown by the next operation is caught by the rollback.  The removals
      of an undo swallow their errors. */
  predicate CanThrow(pc: Pc) {
    match pc
    case Enter | CheckEmpty | CopySource | Compare | CheckAgain | OpenMarker => true
    case Announce(_) | Probe(_) | Move(_) | Record(_) => true
    case SweepStage | Seal | SwitchSettings => true
    case _ => false
  }

  /** The program is undoing an attempt whose marker is still there. */
  predicate InUndo(s: State) {
    s.w.marker.Some? && (s.pc.Undo? || s.pc.DropStage? || s.pc.DropMarker?)
  }

  /** An interrupted copy leaves anything at all in the directory it works on, an interrupted
      removal a part of what was there, unless it may leave anything as well. */
  function Partly(c: Circumstances, s: State, left: Root): State {
    match s.pc
    case Undo(_, owned) =>
      // only slots being removed, and only those still there, can be half gone
      s.(w := s.w.(target := map slot | slot in s.w.target ::
                     if slot in owned && slot !in s.w.foreign && slot in left
                        && (c.anyCopier || PartOf(left[slot], s.w.target[slot]))
                     then left[slot] else s.w.target[slot]))
    case CopySource | DropStage(_) | SweepStage => s.(w := s.w.(stage := Some(left)))
    case _ => s
  }

  function Apply(c: Circumstances, s: State, a: Action): State {
    match a
    case Request =>
      // the target must be empty and free of unfinished migrations
      if s.pc.Down? && (s.w.settings.Original? || s.w.settings.Reverted?)
         && s.w.target == map[] && s.w.stage.None? && s.w.marker.None?
      then s.(w := s.w.(settings := Pending)) else s
    case Resume => if s.pc.Down? && s.w.settings.Pending? then s.(pc := Enter) else s
    case Step(copied) => Advance(c, s, copied)
    case Interrupt(left) => Partly(c, s, left)
    case Throw => if CanThrow(s.pc) then s.(pc := EnterRollback) else s
    case Crash => if InUndo(s) && !c.crashInUndo then s else s.(pc := Down)
    case Create(slot, content) =>
      if c.others && slot !in s.w.target && !s.pc.Move?
      then s.(w := s.w.(target := s.w.target[slot := content], foreign := s.w.foreign + {slot}))
      else s
  }

  function Run(c: Circumstances, s: State, actions: seq<Action>): State
    decreases |actions|
  {
    if actions == [] then s else Run(c, Apply(c, s, actions[0]), actions[1..])
  }

  function Start(source: Root): State {
    State(World(source, map[], None, None, Original, {}, false), Down)
  }

  /** The root the settings file names. */
  function NamedRoot(w: World): Root { if w.settings.Migrated? then w.target else w.source }

  lemma {:induction false} RunSnoc(c: Circumstances, s: State, actions: seq<Action>, a: Action)
    ensures Run(c, s, actions + [a]) == Apply(c, Run(c, s, actions), a)
    decreases |actions|
  {
    if actions == [] {
      assert actions + [a] == [a];
    } else {
      assert (actions + [a])[1..] == actions[1..] + [a];
      RunSnoc(c, Apply(c, s, actions[0]), actions[1..], a);
    }
  }
}
