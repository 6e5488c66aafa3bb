/**
 Closing, moving and dropping tabs: what survives, where, and what is shown afterwards.
 */
module WorkspaceMoves {
  import opened Common
  import opened WorkspaceLayout
  import opened WorkspaceInvariant
  import opened WorkspaceOperations
  import opened WorkspaceTheorems

  // ---------------------------------------------------------------- closing

  /** Pane by pane: the same pane without the closed tabs, showing what it showed unless that
      was closed. */
  ghost predicate Survivors(before: seq<PaneState>, after: seq<PaneState>, targets: set<string>) {
    && |after| == |before|
    && forall i :: 0 <= i < |before| ==>
         && after[i].id == before[i].id
         && after[i].tabs == Outside(before[i].tabs, targets)
         && Fits(after[i])
         && (before[i].active in after[i].tabs ==> after[i].active == before[i].active)
  }

  lemma ClosedPaneSurvives(history: History, pane: PaneState, targets: set<string>)
    ensures Fits(ClosedPane(history, pane, targets))
  {
  }

  lemma {:induction false} ClosedPanesSurvive(history: History, panes: seq<PaneState>, targets: set<string>)
    ensures Survivors(panes, ClosedPanes(history, panes, targets).0, targets)
    decreases |panes|
  {
    if panes != [] {
      hide ClosedPane, ClosedHistory, Survivors;
      ClosedPanesSurvive(ClosedHistory(history, panes[0], targets), panes[1..], targets);
      FirstSurvives(history, panes[0], targets);
      SurvivorsCons(panes, ClosedPane(history, panes[0], targets),
                    ClosedPanes(ClosedHistory(history, panes[0], targets), panes[1..], targets).0, targets);
    }
  }

  lemma FirstSurvives(history: History, pane: PaneState, targets: set<string>)
    ensures Survivors([pane], [ClosedPane(history, pane, targets)], targets)
  {
    hide Outside, ClosedPane, Fits;
    ClosedPaneSurvives(history, pane, targets);
    ClosedPaneTabs(history, pane, targets);
  }

  lemma ClosedPaneTabs(history: History, pane: PaneState, targets: set<string>)
    ensures var p := ClosedPane(history, pane, targets);
            && p.id == pane.id && p.tabs == Outside(pane.tabs, targets)
            && (pane.active in p.tabs ==> p.active == pane.active)
  {
  }

  lemma SurvivorsCons(panes: seq<PaneState>, first: PaneState, rest: seq<PaneState>, targets: set<string>)
    requires panes != [] && Survivors(panes[1..], rest, targets)
    requires Survivors([panes[0]], [first], targets)
    ensures Survivors(panes, [first] + rest, targets)
  {
    hide Outside, Fits;
    var after := [first] + rest;
    forall i | 0 <= i < |panes|
      ensures after[i].id == panes[i].id && after[i].tabs == Outside(panes[i].tabs, targets) && Fits(after[i])
      ensures panes[i].active in after[i].tabs ==> after[i].active == panes[i].active
    {
      if i == 0 {
        assert [first][0] == after[0] && [panes[0]][0] == panes[0];
      } else {
        assert after[i] == rest[i - 1] && panes[i] == panes[1..][i - 1];
      }
    }
  }

  lemma {:induction false} SurvivingKeys(before: seq<PaneState>, after: seq<PaneState>, targets: set<string>)
    requires Survivors(before, after, targets)
    ensures Ids(after) == Ids(before)
    ensures Flat(after) == Outside(Flat(before), targets)
    ensures forall p :: p in after ==> Fits(p)
    decreases |before|
  {
    if before != [] {
      assert Survivors(before[1..], after[1..], targets) by {
        forall i | 0 <= i < |before[1..]|
          ensures after[1..][i] == after[i + 1] && before[1..][i] == before[i + 1] {}
      }
      SurvivingKeys(before[1..], after[1..], targets);
      OutsideAppend(before[0].tabs, Flat(before[1..]), targets);
      assert Fits(after[0]);
    }
  }

  /** The state just before normalizing in `CloseTabs`. */
  function Emptied(ws: Workspace, targets: set<string>): Workspace
    requires ws.layout.Some?
  {
    var left := ClosedPanes(ws.history, Leaves(ws.layout.value), targets);
    ws.(tabs := TabsOutside(ws.tabs, targets),
        layout := Some(WithPanes(ws.layout.value, left.0)),
        history := left.1)
  }

  lemma EmptiedPartition(ws: Workspace, targets: set<string>)
    requires WellFormed(ws) && "" !in Keys(ws.tabs)
    ensures var w := Emptied(ws, targets);
            var after := Leaves(w.layout.value);
            && after == ClosedPanes(ws.history, Leaves(ws.layout.value), targets).0
            && Survivors(Leaves(ws.layout.value), after, targets)
            && Partitioned(after, w.tabs) && Keys(w.tabs) == Flat(after)
            && "" !in Keys(w.tabs)
  {
    hide Leaves, WithPanes, Flat, Keys, Outside, ClosedPanes;
    var panes := Leaves(ws.layout.value);
    var left := ClosedPanes(ws.history, panes, targets);
    ClosedPanesSurvive(ws.history, panes, targets);
    SurvivingKeys(panes, left.0, targets);
    LeavesOfWithPanes(ws.layout.value, left.0);
    OutsideDistinct(Flat(panes), targets);
  }

  /** Normalizing keeps a tab list that is already in pane order. */
  lemma NormalizeInOrder(ws: Workspace, preferred: string)
    requires ws.layout.Some? && Partitioned(Leaves(ws.layout.value), ws.tabs)
    requires Keys(ws.tabs) == Flat(Leaves(ws.layout.value)) && "" !in Keys(ws.tabs) && ws.tabs != []
    ensures var r := Normalize(ws, preferred);
            && r.tabs == ws.tabs
            && r.layout == Prune(ws.layout.value)
            && LeavesOf(r.layout) == NonEmpty(Leaves(ws.layout.value))
            && LeavesOf(r.layout) != []
            && r.focused == (if ws.focused in Ids(LeavesOf(r.layout)) then ws.focused
                             else LeavesOf(r.layout)[Choose(LeavesOf(r.layout), preferred, ws.focused)].id)
  {
    hide NormalizeOver, Normalize, Leaves, TabsInOrder, Flat, Keys, Ids;
    var panes := Leaves(ws.layout.value);
    NormalizeOpen(ws, preferred);
    PrunedLeaves(ws.layout.value);
    NonEmptyFlat(panes);
    NormalizeOverPartition(ws, Prune(ws.layout.value).value, preferred);
    InOrderSame(ws.tabs, 0);
    assert ws.tabs[0..] == ws.tabs;
  }

  lemma RefocusedSame(ws: Workspace)
    requires WellFormed(ws) && "" !in Keys(ws.tabs) && (ws.tabs == [] ==> ws.focused != "")
    ensures Reconcile(Refocused(ws)) == Refocused(ws)
    ensures WellFormed(Refocused(ws))
    ensures Refocused(ws).focused == ws.focused
    ensures Refocused(ws).tabs == ws.tabs && Refocused(ws).layout == ws.layout
  {
    hide Reconcile, Flat, Keys, Leaves;
    var panes := Leaves(ws.layout.value);
    var i := IndexOf(Ids(panes), ws.focused);
    ShownByIndex(panes, i);
    assert Ids(panes)[i] == ws.focused && panes[i].id == ws.focused;
    var r := Refocused(ws);
    assert r == ws.(active := panes[i].active);
    ReconcileFixed(r);
  }

  /** Closing tabs: exactly the requested tabs that are not pinned go; every other tab stays
      in its pane and in order, only emptied panes disappear, and a surviving pane shows what
      it showed unless that was closed. */
  lemma CloseTabsKeepsSurvivors(ws: Workspace, keys: seq<string>, anchor: string)
    requires WellFormed(ws) && "" !in Keys(ws.tabs)
    ensures var r := CloseTabs(ws, keys, anchor);
            && WellFormed(r)
            && (forall t :: t in r.tabs <==> t in ws.tabs && (t.key !in keys || t.pinned))
            && r.tabs == TabsOutside(ws.tabs, Targets(ws, keys))
            && (r.tabs != [] ==>
                  exists after :: Survivors(Leaves(ws.layout.value), after, Targets(ws, keys))
                               && LeavesOf(r.layout) == NonEmpty(after))
  {
    var targets := Targets(ws, keys);
    ClosedExactly(ws, keys);
    if targets == {} {
      NothingOutside(ws.tabs);
      NothingClosed(ws);
    } else {
      ClosingKeepsSurvivors(ws, targets, anchor);
    }
  }

  lemma ClosedExactly(ws: Workspace, keys: seq<string>)
    requires WellFormed(ws)
    ensures forall t :: t in TabsOutside(ws.tabs, Targets(ws, keys)) <==> t in ws.tabs && (t.key !in keys || t.pinned)
  {
    hide Keys;
    forall t | t in ws.tabs ensures Pinned(ws.tabs, t.key) == t.pinned {
      var i :| 0 <= i < |ws.tabs| && ws.tabs[i] == t;
      assert Keys(ws.tabs)[i] == t.key;
      IndexOfDistinct(Keys(ws.tabs), i);
    }
  }

  lemma {:induction false} NothingOutside(tabs: seq<Tab>)
    ensures TabsOutside(tabs, {}) == tabs
  {
    if tabs != [] { NothingOutside(tabs[1..]); }
  }

  lemma {:induction false} NoKeysOutside(keys: seq<string>)
    ensures Outside(keys, {}) == keys
  {
    if keys != [] { NoKeysOutside(keys[1..]); }
  }

  lemma NothingClosed(ws: Workspace)
    requires WellFormed(ws)
    ensures Survivors(Leaves(ws.layout.value), Leaves(ws.layout.value), {})
    ensures ws.tabs != [] ==> LeavesOf(ws.layout) == NonEmpty(Leaves(ws.layout.value))
  {
    hide Outside, Keys;
    var panes := Leaves(ws.layout.value);
    forall i | 0 <= i < |panes| ensures Outside(panes[i].tabs, {}) == panes[i].tabs && Fits(panes[i]) {
      NoKeysOutside(panes[i].tabs);
      assert panes[i] in panes;
    }
    if ws.tabs != [] {
      if |panes| == 1 { FlatSplit(panes, 0); }
      AllNonEmpty(panes);
    }
  }

  lemma {:induction false} AllNonEmpty(panes: seq<PaneState>)
    requires forall p :: p in panes ==> p.tabs != []
    ensures NonEmpty(panes) == panes
  {
    if panes != [] { AllNonEmpty(panes[1..]); }
  }

  /** The pane that is focused if the focused one goes: the one of the anchor. */
  function Preferred(ws: Workspace, anchor: string): string
    requires ws.layout.Some?
  {
    var panes := Leaves(ws.layout.value);
    var at := PaneOf(panes, anchor);
    var anchored := if at >= 0 then at else IndexOf(Ids(panes), ws.focused);
    if anchored >= 0 && panes[anchored].id != "" then panes[anchored].id else ws.focused
  }

  lemma ClosingKeepsSurvivors(ws: Workspace, targets: set<string>, anchor: string)
    requires WellFormed(ws) && "" !in Keys(ws.tabs)
    ensures var r := Reconcile(Refocused(Closed(ws, targets, anchor)));
            && WellFormed(r)
            && r.tabs == TabsOutside(ws.tabs, targets)
            && (r.tabs != [] ==>
                  exists after :: Survivors(Leaves(ws.layout.value), after, targets)
                               && LeavesOf(r.layout) == NonEmpty(after))
            && (r.tabs != [] ==>
                  && LeavesOf(r.layout) == NonEmpty(ClosedPanes(ws.history, Leaves(ws.layout.value), targets).0)
                  && LeavesOf(r.layout) != []
                  && var left := LeavesOf(r.layout);
                     r.focused == if ws.focused in Ids(left) then ws.focused
                                  else left[Choose(left, Preferred(ws, anchor), ws.focused)].id)
  {
    hide Leaves, Normalize, Flat, Keys, Reconcile, Refocused, ClosedPanes, TabsOutside, WithPanes;
    var w := Emptied(ws, targets);
    EmptiedPartition(ws, targets);
    var panes := Leaves(ws.layout.value);
    var preferred := Preferred(ws, anchor);
    var n := Normalize(w, preferred);
    assert Closed(ws, targets, anchor) == n;
    NormalizePartition(w, preferred);
    assert "" !in Elements(Keys(w.tabs)) && "" !in Elements(Keys(n.tabs));
    if w.tabs != [] {
      NormalizeInOrder(w, preferred);
    } else {
      NormalizedLoneName(w, preferred);
      NoElements(Keys(w.tabs));
      NoElements(Keys(n.tabs));
    }
    RefocusedSame(n);
  }
}
