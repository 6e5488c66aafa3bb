/**
 The public operations on a workspace, as functions of its state: opening, activating,
 closing and moving tabs, focusing panes and dropping a tab on a pane or beside it.
 */
module WorkspaceOperations {
  import opened Common
  import opened WorkspaceLayout
  import opened WorkspaceInvariant

  /** The keys of `keys` outside (or inside) a set, in order. */
  function Outside(keys: seq<string>, gone: set<string>): (r: seq<string>)
    ensures forall k :: k in r <==> k in keys && k !in gone
  {
    if keys == [] then []
    else if keys[0] in gone then Outside(keys[1..], gone)
    else [keys[0]] + Outside(keys[1..], gone)
  }

  function Inside(keys: seq<string>, wanted: set<string>): (r: seq<string>)
    ensures forall k :: k in r <==> k in keys && k in wanted
  {
    if keys == [] then []
    else if keys[0] in wanted then [keys[0]] + Inside(keys[1..], wanted)
    else Inside(keys[1..], wanted)
  }

  function TabsOutside(tabs: seq<Tab>, gone: set<string>): (r: seq<Tab>)
    ensures Keys(r) == Outside(Keys(tabs), gone)
    ensures forall t :: t in r <==> t in tabs && t.key !in gone
  {
    if tabs == [] then []
    else if tabs[0].key in gone then TabsOutside(tabs[1..], gone)
    else [tabs[0]] + TabsOutside(tabs[1..], gone)
  }

  /** `splice(i, 0, x)`. */
  function Insert<T>(s: seq<T>, i: nat, x: T): seq<T>
    requires i <= |s|
  {
    s[..i] + [x] + s[i..]
  }

  /** After the first occurrence of `anchor`, or at the end. */
  function InsertAfter(keys: seq<string>, anchor: string, key: string): seq<string> {
    var i := IndexOf(keys, anchor);
    Insert(keys, if i >= 0 then i + 1 else |keys|, key)
  }

  /** The first pane that holds the key. */
  function PaneOf(panes: seq<PaneState>, key: string): (i: int)
    ensures -1 <= i < |panes|
    ensures i >= 0 ==> key in panes[i].tabs
    ensures i < 0 ==> key !in Flat(panes)
  {
    if panes == [] then -1
    else if key in panes[0].tabs then 0
    else
      var i := PaneOf(panes[1..], key);
      if i < 0 then -1 else i + 1
  }

  // ---------------------------------------------------------------- recently shown tabs

  type History = map<string, seq<string>>

  function Remembered(history: History, id: string): seq<string> {
    if id in history then history[id] else []
  }

  /** `rememberWorkspacePaneTab`. */
  function Remember(history: History, pane: PaneState, key: string, previous: string): History {
    if key == "" || key !in pane.tabs then history
    else
      var earlier := Outside(Inside(Remembered(history, pane.id), Elements(pane.tabs)), {previous, key});
      var more := if previous != "" && previous != key && previous in pane.tabs then [previous] else [];
      history[pane.id := earlier + more + [key]]
  }

  /** `trimWorkspacePaneTabHistory`. */
  function Trim(history: History, pane: PaneState): History {
    var kept := Inside(Remembered(history, pane.id), Elements(pane.tabs));
    if kept == [] then history - {pane.id} else history[pane.id := kept]
  }

  /** `recentWorkspacePaneTab`: the pane's most recently shown tab outside `excluded`. */
  function Recent(history: History, pane: PaneState, excluded: set<string>): (key: string)
    ensures key == "" || (key in pane.tabs && key !in excluded)
  {
    var candidates := Outside(Inside(Remembered(history, pane.id), Elements(pane.tabs)), excluded);
    if candidates == [] then ""
    else
      var last := candidates[|candidates| - 1];
      assert last in candidates;
      last
  }

  // ---------------------------------------------------------------- opening

  const WELCOME := "welcome"

  function LoseWelcome(panes: seq<PaneState>): (r: seq<PaneState>)
    ensures |r| == |panes|
  {
    if panes == [] then []
    else
      var tabs := Outside(panes[0].tabs, {WELCOME});
      var pane := panes[0].(tabs := tabs);
      [if pane.active == WELCOME then pane.(active := First(tabs)) else pane] + LoseWelcome(panes[1..])
  }

  /** Opening anything else closes the welcome tab. */
  function WithoutWelcome(ws: Workspace, key: string): Workspace
    requires ws.layout.Some?
  {
    if key == WELCOME then ws
    else Normalize(ws.(tabs := TabsOutside(ws.tabs, {WELCOME}),
                       layout := Some(WithPanes(ws.layout.value, LoseWelcome(Leaves(ws.layout.value))))),
                   ws.focused)
  }

  /** Where a tab opens: where it already is, else in the executing, the focused or the
      first pane. */
  function OpeningPane(ws: Workspace, key: string, executing: string): (i: nat)
    requires ws.layout.Some?
    ensures i < |Leaves(ws.layout.value)|
  {
    var panes := Leaves(ws.layout.value);
    var i := PaneOf(panes, key);
    if i >= 0 then i else Choose(panes, executing, ws.focused)
  }

  function OpenTab(tabs: seq<Tab>, tab: Tab, anchor: string): seq<Tab> {
    var at := IndexOf(Keys(tabs), tab.key);
    if at >= 0 then tabs[at := tab.(pinned := tabs[at].pinned)]
    else
      var i := IndexOf(Keys(tabs), anchor);
      Insert(tabs, if i >= 0 then i + 1 else |tabs|, tab)
  }

  /** `addTab`, up to drawing. */
  function AddTab(ws: Workspace, tab: Tab, executing: string): Workspace
    requires ws.layout.Some?
  {
    var w := WithoutWelcome(ws, tab.key);
    if tab.key == WELCOME && exists k :: k in Keys(w.tabs) && k != WELCOME then w
    else Reconcile(Opened(w, tab, executing))
  }

  function Opened(w: Workspace, tab: Tab, executing: string): Workspace
    requires w.layout.Some?
  {
    var panes := Leaves(w.layout.value);
    var i := OpeningPane(w, tab.key, executing);
    var anchor := if panes[i].active != "" then panes[i].active else w.active;
    var pane := if tab.key in panes[i].tabs then panes[i]
                else panes[i].(tabs := InsertAfter(panes[i].tabs, anchor, tab.key));
    w.(tabs := OpenTab(w.tabs, tab, anchor),
       layout := Some(WithPanes(w.layout.value, panes[i := pane.(active := tab.key)])),
       history := Remember(w.history, pane, tab.key, pane.active),
       focused := pane.id,
       active := tab.key)
  }

  // ---------------------------------------------------------------- activating and focusing

  /** `activateTab`, up to drawing. */
  function ActivateTab(ws: Workspace, key: string): Workspace
    requires ws.layout.Some?
  {
    var panes := Leaves(ws.layout.value);
    var i := PaneOf(panes, key);
    if key !in Keys(ws.tabs) || i < 0 then ws
    else ws.(layout := Some(WithPanes(ws.layout.value, panes[i := panes[i].(active := key)])),
             history := Remember(ws.history, panes[i], key, panes[i].active),
             focused := panes[i].id,
             active := key)
  }

  /** `focusWorkspacePane`, up to drawing. */
  function FocusPane(ws: Workspace, id: string): Workspace
    requires ws.layout.Some?
  {
    var panes := Leaves(ws.layout.value);
    var i := IndexOf(Ids(panes), id);
    if i < 0 then ws
    else if panes[i].active !in Keys(ws.tabs) then ws.(focused := id)
    else ws.(focused := id,
             active := panes[i].active,
             history := Remember(ws.history, panes[i], panes[i].active, panes[i].active))
  }

  // ---------------------------------------------------------------- closing

  /** The first position of a key to be closed, or 0. */
  function FirstClosed(keys: seq<string>, targets: set<string>): (i: nat) {
    if keys == [] || keys[0] in targets then 0
    else if forall k :: k in keys ==> k !in targets then 0
    else 1 + FirstClosed(keys[1..], targets)
  }

  /** What a pane shows when the tab it showed is closed: the most recent survivor, else the
      one that takes the closed tab's place, else the last. */
  function Successor(history: History, pane: PaneState, targets: set<string>): string {
    var kept := Outside(pane.tabs, targets);
    var recent := if pane.active in targets then Recent(history, pane, targets) else "";
    var at := FirstClosed(pane.tabs, targets);
    if recent != "" then recent
    else if kept == [] then ""
    else kept[if at < |kept| then at else |kept| - 1]
  }

  function ClosedPane(history: History, pane: PaneState, targets: set<string>): PaneState {
    var kept := Outside(pane.tabs, targets);
    PaneState(pane.id, kept, if pane.active in kept then pane.active else Successor(history, pane, targets))
  }

  /** What closing leaves in the record of a pane's recently shown tabs. */
  function ClosedHistory(history: History, pane: PaneState, targets: set<string>): History {
    var pruned := if pane.active in targets then Trim(history, pane) else history;
    var after := ClosedPane(history, pane, targets);
    var trimmed := Trim(pruned, after);
    if after.active == "" then trimmed else Remember(trimmed, after, after.active, after.active)
  }

  /** Pane after pane, the record of one pane not concerning another. */
  function ClosedPanes(history: History, panes: seq<PaneState>, targets: set<string>)
    : (r: (seq<PaneState>, History))
    ensures |r.0| == |panes|
    decreases |panes|
  {
    if panes == [] then ([], history)
    else
      var rest := ClosedPanes(ClosedHistory(history, panes[0], targets), panes[1..], targets);
      ([ClosedPane(history, panes[0], targets)] + rest.0, rest.1)
  }

  /** The requested keys that are not pinned. */
  function Targets(ws: Workspace, keys: seq<string>): set<string> {
    set k | k in keys && !Pinned(ws.tabs, k)
  }

  /** The first tab with this key is pinned. */
  predicate Pinned(tabs: seq<Tab>, key: string) {
    var i := IndexOf(Keys(tabs), key);
    i >= 0 && tabs[i].pinned
  }

  /** `closeTabsByKey`, up to drawing. */
  function CloseTabs(ws: Workspace, keys: seq<string>, anchor: string): Workspace
    requires ws.layout.Some?
  {
    var targets := Targets(ws, keys);
    if targets == {} then ws else Reconcile(Refocused(Closed(ws, targets, anchor)))
  }

  function Closed(ws: Workspace, targets: set<string>, anchor: string): Workspace
    requires ws.layout.Some?
  {
    var panes := Leaves(ws.layout.value);
    var at := PaneOf(panes, anchor);
    var anchored := if at >= 0 then at else IndexOf(Ids(panes), ws.focused);
    var left := ClosedPanes(ws.history, panes, targets);
    Normalize(ws.(tabs := TabsOutside(ws.tabs, targets),
                  layout := Some(WithPanes(ws.layout.value, left.0)),
                  history := left.1),
              if anchored >= 0 && panes[anchored].id != "" then panes[anchored].id else ws.focused)
  }

  /** The focused pane, else the first, becomes focused and its tab the active one. */
  function Refocused(ws: Workspace): Workspace {
    var panes := LeavesOf(ws.layout);
    if panes == [] then ws
    else
      var pane := panes[Choose(panes, ws.focused, ws.focused)];
      ws.(focused := pane.id, active := pane.active)
  }

  // ---------------------------------------------------------------- moving

  function Clamp(i: int, low: int, high: int): int {
    var capped := if i < high then i else high;
    if capped > low then capped else low
  }

  /** The key at `from` taken out and put back at `to`. */
  function Moved(keys: seq<string>, from: nat, to: nat): seq<string>
    requires from < |keys| && to < |keys|
  {
    Insert(keys[..from] + keys[from + 1..], to, keys[from])
  }

  /** `moveWorkspaceTab`, up to drawing. */
  function MoveTab(ws: Workspace, key: string, offset: int): Workspace
    requires ws.layout.Some?
  {
    var panes := Leaves(ws.layout.value);
    var i := PaneOf(panes, key);
    if i < 0 then ws
    else
      var from := IndexOf(panes[i].tabs, key);
      var to := Clamp(from + offset, 0, |panes[i].tabs| - 1);
      if from < 0 || to == from then ws
      else
        var pane := panes[i].(tabs := Moved(panes[i].tabs, from, to));
        Reconcile(Normalize(ws.(layout := Some(WithPanes(ws.layout.value, panes[i := pane]))), pane.id))
  }

  // ---------------------------------------------------------------- dropping

  datatype Zone = Left | Right | Top | Bottom | Center(index: Option<int>)

  /** The source pane without the dragged tab.  If it was shown, prefer the remembered tab,
      then the one to its left. */
  function Bereft(pane: PaneState, key: string, remembered: string): PaneState
    requires key in pane.tabs
  {
    var at := IndexOf(pane.tabs, key);
    var kept := pane.tabs[..at] + pane.tabs[at + 1..];
    var before := if at > 0 then kept[at - 1] else "";
    var chosen := if remembered != "" && remembered != key && remembered in kept then remembered
                  else if remembered == key && before != "" then before
                  else if kept == [] then ""
                  else kept[if at < |kept| then at else |kept| - 1];
    PaneState(pane.id, kept, if pane.active in kept then pane.active else chosen)
  }

  /** `applyWorkspaceTabDrop`, up to drawing: the tab goes into the target pane, or into a new
      pane on one side of it. */
  function Drop(ws: Workspace, key: string, remembered: string, target: string, zone: Zone, splitId: string)
    : Workspace
    requires ws.layout.Some?
  {
    var panes := Leaves(ws.layout.value);
    var s, t := PaneOf(panes, key), IndexOf(Ids(panes), target);
    if s < 0 || t < 0 || (!zone.Center? && panes[s].id == panes[t].id && |panes[s].tabs| <= 1) then ws
    else Reconcile(Dropped(ws, s, t, key, remembered, zone, splitId))
  }

  function Dropped(ws: Workspace, s: nat, t: nat, key: string, remembered: string, zone: Zone, splitId: string)
    : Workspace
    requires ws.layout.Some?
    requires s < |Leaves(ws.layout.value)| && t < |Leaves(ws.layout.value)|
    requires key in Leaves(ws.layout.value)[s].tabs
  {
    var all := Leaves(ws.layout.value);
    var panes := all[s := Bereft(all[s], key, remembered)];
    if zone.Center? then
      var tabs := panes[t].tabs;
      var at := Clamp(if zone.index.Some? then zone.index.value else |tabs|, 0, |tabs|);
      var pane := PaneState(panes[t].id, Insert(tabs, at, key), key);
      Landed(ws.(layout := Some(WithPanes(ws.layout.value, panes[t := pane]))), key, pane.id)
    else
      var serial := NextSerial(ws.serial, UsedIds(ws));
      var pane := Leaf(PaneState(PaneName(serial), [key], key));
      var beside := Leaf(panes[t]);
      var split := if zone.Left? || zone.Top? then Split(splitId, pane, beside) else Split(splitId, beside, pane);
      var layout := Replace(WithPanes(ws.layout.value, panes), panes[t].id, split);
      Landed(ws.(layout := Some(layout), serial := serial), key, PaneName(serial))
  }

  /** The destination becomes focused, the dropped tab active. */
  function Landed(ws: Workspace, key: string, destination: string): Workspace {
    Normalize(ws, destination).(focused := destination, active := key)
  }
}
