/**
 Every state a workspace can reach through its public operations.
 */
module WorkspaceRuns {
  import opened WorkspaceLayout
  import opened WorkspaceInvariant
  import opened WorkspaceOperations
  import opened WorkspaceTheorems
  import opened WorkspaceMoves
  import opened WorkspaceDrops

  datatype Operation =
    | Add(tab: Tab, executing: string)
    | Activate(key: string)
    | Focus(id: string)
    | Close(keys: seq<string>, anchor: string)
    | Move(key: string, offset: int)
    | DropOn(key: string, remembered: string, target: string, zone: Zone, splitId: string)
    | Repair

  function Step(ws: Workspace, op: Operation): Workspace
    requires ws.layout.Some?
  {
    match op
    case Add(tab, executing) => AddTab(ws, tab, executing)
    case Activate(key) => ActivateTab(ws, key)
    case Focus(id) => FocusPane(ws, id)
    case Close(keys, anchor) => CloseTabs(ws, keys, anchor)
    case Move(key, offset) => MoveTab(ws, key, offset)
    case DropOn(key, remembered, target, zone, splitId) => Drop(ws, key, remembered, target, zone, splitId)
    case Repair => Reconcile(ws)
  }

  /** Tabs that are opened have a key. */
  predicate Keyed(op: Operation) { op.Add? ==> op.tab.key != "" }

  /** The keys that may be open afterwards. */
  function Openable(ws: Workspace, op: Operation): set<string> {
    Elements(Keys(ws.tabs)) + if op.Add? then {op.tab.key} else {}
  }

  lemma SubsetKeepsKeyed(tabs: seq<Tab>, before: set<string>)
    requires Elements(Keys(tabs)) <= before && "" !in before
    ensures "" !in Keys(tabs)
  {
    forall k | k in Keys(tabs) ensures k != "" { assert k in Elements(Keys(tabs)); }
  }

  /** The workspace is sound and holds none but these keys. */
  ghost predicate Kept(r: Workspace, openable: set<string>) {
    WellFormed(r) && "" !in Keys(r.tabs) && Elements(Keys(r.tabs)) <= openable
  }

  lemma AddKeeps(ws: Workspace, tab: Tab, executing: string)
    requires WellFormed(ws) && "" !in Keys(ws.tabs) && tab.key != ""
    ensures ws.layout.Some? && Kept(AddTab(ws, tab, executing), Elements(Keys(ws.tabs)) + {tab.key})
  {
    hide WellFormed, AddTab, Keys, Shown;
    HasLayout(ws);
    AddTabOpens(ws, tab, executing);
    SubsetKeepsKeyed(AddTab(ws, tab, executing).tabs, Elements(Keys(ws.tabs)) + {tab.key});
  }

  lemma ShowKeeps(ws: Workspace, key: string, id: string)
    requires WellFormed(ws) && "" !in Keys(ws.tabs)
    ensures ws.layout.Some?
    ensures Kept(ActivateTab(ws, key), Elements(Keys(ws.tabs))) && Kept(FocusPane(ws, id), Elements(Keys(ws.tabs)))
  {
    hide WellFormed, ActivateTab, FocusPane, Keys, Leaves, Shown;
    HasLayout(ws);
    ActivateTabWellFormed(ws, key);
    FocusPaneWellFormed(ws, id);
  }

  lemma CloseKeeps(ws: Workspace, keys: seq<string>, anchor: string)
    requires WellFormed(ws) && "" !in Keys(ws.tabs)
    ensures ws.layout.Some? && Kept(CloseTabs(ws, keys, anchor), Elements(Keys(ws.tabs)))
  {
    hide WellFormed, CloseTabs, Keys, Leaves, Survivors, NonEmpty;
    HasLayout(ws);
    CloseTabsKeepsSurvivors(ws, keys, anchor);
    SameTabs(CloseTabs(ws, keys, anchor).tabs, ws.tabs);
  }

  lemma MoveKeeps(ws: Workspace, key: string, offset: int)
    requires WellFormed(ws) && "" !in Keys(ws.tabs)
    ensures ws.layout.Some? && Kept(MoveTab(ws, key, offset), Elements(Keys(ws.tabs)))
  {
    hide WellFormed, MoveTab, Keys, Leaves;
    HasLayout(ws);
    MoveTabMoves(ws, key, offset);
    SameTabs(MoveTab(ws, key, offset).tabs, ws.tabs);
  }

  lemma DropKeeps(ws: Workspace, key: string, remembered: string, target: string, zone: Zone, splitId: string)
    requires WellFormed(ws) && "" !in Keys(ws.tabs)
    ensures ws.layout.Some? && Kept(Drop(ws, key, remembered, target, zone, splitId), Elements(Keys(ws.tabs)))
  {
    hide WellFormed, Drop, Keys, Leaves, Shown;
    HasLayout(ws);
    DropLands(ws, key, remembered, target, zone, splitId);
    assert "" !in Elements(Keys(ws.tabs));
    SubsetKeepsKeyed(Drop(ws, key, remembered, target, zone, splitId).tabs, Elements(Keys(ws.tabs)));
  }

  lemma RepairKeeps(ws: Workspace)
    requires WellFormed(ws) && "" !in Keys(ws.tabs)
    ensures Kept(Reconcile(ws), Elements(Keys(ws.tabs)))
  {
    hide WellFormed, Reconcile, Keys;
    TellsApart(ws);
    ReconcileRestores(ws);
    assert "" !in Elements(Keys(ws.tabs));
    SubsetKeepsKeyed(Reconcile(ws).tabs, Elements(Keys(ws.tabs)));
  }

  /** No operation breaks the workspace, and none but opening brings a key into it. */
  lemma StepKeepsWellFormed(ws: Workspace, op: Operation)
    requires WellFormed(ws) && "" !in Keys(ws.tabs) && Keyed(op)
    ensures ws.layout.Some? && Kept(Step(ws, op), Openable(ws, op))
  {
    hide WellFormed, AddTab, ActivateTab, FocusPane, CloseTabs, MoveTab, Drop, Reconcile, Keys, Kept;
    HasLayout(ws);
    assert Elements(Keys(ws.tabs)) + {} == Elements(Keys(ws.tabs));
    match op
    case Add(tab, executing) => AddKeeps(ws, tab, executing);
    case Activate(key) => ShowKeeps(ws, key, "");
    case Focus(id) => ShowKeeps(ws, "", id);
    case Close(keys, anchor) => CloseKeeps(ws, keys, anchor);
    case Move(key, offset) => MoveKeeps(ws, key, offset);
    case DropOn(key, remembered, target, zone, splitId) => DropKeeps(ws, key, remembered, target, zone, splitId);
    case Repair => RepairKeeps(ws);
  }

  /** The same, for the keys that may be open. */
  lemma StepKept(ws: Workspace, op: Operation, open: set<string>)
    requires Kept(ws, open) && Keyed(op)
    ensures ws.layout.Some? && Kept(Step(ws, op), if op.Add? then open + {op.tab.key} else open)
  {
    hide Step, WellFormed, Keys;
    StepKeepsWellFormed(ws, op);
  }

  lemma TellsApart(ws: Workspace)
    requires WellFormed(ws)
    ensures Identified(ws)
  {
  }

  lemma SameTabs(after: seq<Tab>, before: seq<Tab>)
    requires forall t :: t in after ==> t in before
    requires "" !in Keys(before)
    ensures Elements(Keys(after)) <= Elements(Keys(before)) && "" !in Keys(after)
  {
    hide Keys;
    forall k | k in Keys(after) ensures k in Keys(before) {
      var i :| 0 <= i < |after| && Keys(after)[i] == k;
      assert after[i] in before;
      var j :| 0 <= j < |before| && before[j] == after[i];
      assert Keys(before)[j] == k;
    }
  }

  function Run(ws: Workspace, ops: seq<Operation>): Workspace
    requires ws.layout.Some?
    decreases |ops|
  {
    if ops == [] then ws
    else
      var next := Step(ws, ops[0]);
      if next.layout.Some? then Run(next, ops[1..]) else next
  }

  /** From any layout and tab list that reconciling repairs, every sequence of operations stays
      well formed. */
  lemma {:induction false} RunKeepsWellFormed(ws: Workspace, ops: seq<Operation>)
    requires WellFormed(ws) && "" !in Keys(ws.tabs) && forall op :: op in ops ==> Keyed(op)
    ensures WellFormed(Run(ws, ops)) && "" !in Keys(Run(ws, ops).tabs)
    decreases |ops|
  {
    hide WellFormed, Step, Keys;
    HasLayout(ws);
    if ops != [] {
      assert ops[0] in ops;
      StepKeepsWellFormed(ws, ops[0]);
      HasLayout(Step(ws, ops[0]));
      RunKeepsWellFormed(Step(ws, ops[0]), ops[1..]);
    }
  }

  lemma RepairedRunsStayWellFormed(ws: Workspace, ops: seq<Operation>)
    requires Identified(ws) && "" !in Keys(ws.tabs) && forall op :: op in ops ==> Keyed(op)
    ensures Reconcile(ws).layout.Some? && WellFormed(Run(Reconcile(ws), ops))
  {
    hide WellFormed, Reconcile, Run;
    ReconcileRestores(ws);
    HasLayout(Reconcile(ws));
    assert "" !in Elements(Keys(ws.tabs));
    SubsetKeepsKeyed(Reconcile(ws).tabs, Elements(Keys(ws.tabs)));
    RunKeepsWellFormed(Reconcile(ws), ops);
  }
}
