/**
 Where a tab opens, and what opening it leaves of the other panes and tabs.
 */
module WorkspaceOpening {
  import opened Common
  import opened WorkspaceLayout
  import opened WorkspaceInvariant
  import opened WorkspaceOperations
  import opened WorkspaceTheorems
  import opened WorkspaceMoves

  /** The panes that remain when these tabs are gone, each with its other tabs in order. */
  ghost predicate Remain(before: seq<PaneState>, left: seq<PaneState>, gone: set<string>) {
    exists after :: Survivors(before, after, gone) && left == NonEmpty(after)
  }

  /** Where a tab opens: in the pane that holds it, else in the executing, the focused or the
      first pane. */
  function OpensIn(panes: seq<PaneState>, key: string, executing: string, focused: string): (i: nat)
    requires panes != []
    ensures i < |panes|
    ensures key in Flat(panes) ==> key in panes[i].tabs
    ensures key !in Flat(panes) && executing in Ids(panes) ==> panes[i].id == executing
    ensures key !in Flat(panes) && executing !in Ids(panes) && focused in Ids(panes) ==> panes[i].id == focused
  {
    var i := PaneOf(panes, key);
    if i >= 0 then
      FlatSplit(panes, i);
      i
    else Choose(panes, executing, focused)
  }

  /** The pane shows the tab, which is where it was or follows the tab that was shown. */
  ghost predicate Entered(pane: PaneState, after: PaneState, key: string) {
    && after.id == pane.id && after.active == key
    && (if key in pane.tabs then after.tabs == pane.tabs
        else exists n :: Follows(pane, after.tabs, key, n))
  }

  predicate Follows(pane: PaneState, tabs: seq<string>, key: string, n: nat) {
    && n < |pane.tabs| && pane.tabs[n] == pane.active
    && tabs == pane.tabs[..n + 1] + [key] + pane.tabs[n + 1..]
  }

  /** A tab enters one of the panes, the others stay as they are. */
  ghost predicate EnteredAt(panes: seq<PaneState>, after: seq<PaneState>, i: nat, key: string) {
    && i < |panes| == |after| && Entered(panes[i], after[i], key)
    && forall j :: 0 <= j < |panes| && j != i ==> after[j] == panes[j]
  }

  lemma OpenedEnters(pane: PaneState, key: string)
    requires pane.tabs != [] && Fits(pane)
    ensures Entered(pane, OpenedPane(pane, key, pane.active), key)
  {
    if key !in pane.tabs {
      var n := IndexOf(pane.tabs, pane.active);
      assert Follows(pane, OpenedPane(pane, key, pane.active).tabs, key, n);
    }
  }

  // ---------------------------------------------------------------- without the welcome tab

  function Gone(key: string): set<string> { if key == WELCOME then {} else {WELCOME} }

  lemma {:induction false} LostSurvive(panes: seq<PaneState>)
    requires forall p :: p in panes ==> Fits(p)
    ensures Survivors(panes, LoseWelcome(panes), {WELCOME})
    decreases |panes|
  {
    if panes != [] {
      LostSurvive(panes[1..]);
      assert panes[0] in panes && Fits(panes[0]);
      LostOne(panes[0]);
      var rest := LoseWelcome(panes[1..]);
      assert LoseWelcome(panes) == [LoseWelcome(panes)[0]] + rest;
      assert LoseWelcome([panes[0]]) == [LoseWelcome(panes)[0]];
      SurvivorsCons(panes, LoseWelcome(panes)[0], rest, {WELCOME});
    }
  }

  lemma LostOne(pane: PaneState)
    requires Fits(pane)
    ensures Survivors([pane], LoseWelcome([pane]), {WELCOME})
  {
    assert [pane][1..] == [];
  }

  /** Without the welcome tab the other tabs stay in their panes, and an emptied pane goes. */
  lemma WithoutWelcomeKeeps(ws: Workspace, key: string)
    requires WellFormed(ws) && "" !in Keys(ws.tabs)
    ensures var w := WithoutWelcome(ws, key);
            && WellFormed(w) && Keys(w.tabs) == Outside(Keys(ws.tabs), Gone(key)) && "" !in Keys(w.tabs)
            && (forall t :: t in w.tabs ==> t in ws.tabs)
            && (w.tabs != [] ==>
                  && Remain(Leaves(ws.layout.value), Leaves(w.layout.value), Gone(key))
                  && (ws.focused in Ids(Leaves(w.layout.value)) ==> w.focused == ws.focused)
                  && (ws.focused !in Ids(Leaves(w.layout.value)) ==> w.focused == Leaves(w.layout.value)[0].id))
  {
    hide Normalize, Keys, Flat, Leaves, WithPanes, Outside, Prune;
    WithoutWelcomeWellFormed(ws, key);
    NoKeysOutside(Keys(ws.tabs));
    if key == WELCOME {
      NothingClosed(ws);
    } else {
      var panes := Leaves(ws.layout.value);
      var left := LoseWelcome(panes);
      LoseWelcomePanes(panes);
      LostSurvive(panes);
      OutsideDistinct(Flat(panes), {WELCOME});
      LeavesOfWithPanes(ws.layout.value, left);
      var bare := ws.(tabs := TabsOutside(ws.tabs, {WELCOME}), layout := Some(WithPanes(ws.layout.value, left)));
      NormalizePartition(bare, ws.focused);
      assert "" !in Keys(bare.tabs);
      if bare.tabs != [] {
        NormalizeInOrder(bare, ws.focused);
        NormalizedFocus(bare, ws.focused);
      } else {
        NoElements(Keys(bare.tabs));
        NoElements(Keys(Normalize(bare, ws.focused).tabs));
      }
    }
  }

  /** A focused pane that is gone is replaced by the first. */
  lemma NormalizedFocus(ws: Workspace, preferred: string)
    requires ws.layout.Some? && Partitioned(Leaves(ws.layout.value), ws.tabs)
    requires "" !in Keys(ws.tabs) && ws.tabs != [] && preferred == ws.focused
    ensures var r := Normalize(ws, preferred);
            r.layout.Some? && (ws.focused !in Ids(Leaves(r.layout.value)) ==> r.focused == Leaves(r.layout.value)[0].id)
  {
    hide Flat, Keys, Leaves, Normalize, NormalizeOver;
    NormalizeOpen(ws, preferred);
    NormalizeOverPartition(ws, Prune(ws.layout.value).value, preferred);
  }

  // ---------------------------------------------------------------- opening

  /** The record of the opened tab is renewed, but stays pinned if it was. */
  ghost predicate Renewed(before: seq<Tab>, after: seq<Tab>, tab: Tab) {
    forall t :: t in after ==>
      if t.key != tab.key then t in before
      else if tab.key !in Keys(before) then t == tab
      else exists o :: o in before && o.key == tab.key && t == tab.(pinned := o.pinned)
  }

  lemma OpenTabRenews(tabs: seq<Tab>, tab: Tab, anchor: string)
    requires Distinct(Keys(tabs))
    ensures Renewed(tabs, OpenTab(tabs, tab, anchor), tab)
  {
    var at := IndexOf(Keys(tabs), tab.key);
    var after := OpenTab(tabs, tab, anchor);
    forall t | t in after
      ensures if t.key != tab.key then t in tabs
              else if tab.key !in Keys(tabs) then t == tab
              else exists o :: o in tabs && o.key == tab.key && t == tab.(pinned := o.pinned)
    {
      var n :| 0 <= n < |after| && after[n] == t;
      if at >= 0 {
        assert Keys(tabs)[n] == tabs[n].key && Keys(tabs)[at] == tabs[at].key;
        assert tabs[at] in tabs;
      } else if t in tabs {
        var m :| 0 <= m < |tabs| && tabs[m] == t;
        assert Keys(tabs)[m] == t.key;
      }
    }
  }

  /** The panes of a workspace with open tabs when one more tab opens. */
  lemma OpenedEntersOne(w: Workspace, tab: Tab, executing: string)
    requires WellFormed(w) && "" !in Keys(w.tabs) && tab.key != "" && w.tabs != []
    ensures var panes := Leaves(w.layout.value);
            var r := Opened(w, tab, executing);
            && r.layout.Some?
            && EnteredAt(panes, Leaves(r.layout.value), OpensIn(panes, tab.key, executing, w.focused), tab.key)
  {
    hide Leaves, WithPanes, Flat, Keys, Ids, Choose, OpenTab, PaneOf, Distinct, Fits, Entered;
    var panes := Leaves(w.layout.value);
    var i := OpensIn(panes, tab.key, executing, w.focused);
    WellFormedIsConsistent(w);
    assert panes[i] in panes;
    ShowsSomething(panes[i], w.tabs, panes);
    OpenedEnters(panes[i], tab.key);
    LeavesUpdated(w.layout.value, i, OpenedPane(panes[i], tab.key, panes[i].active));
  }

  lemma ShowsSomething(pane: PaneState, tabs: seq<Tab>, panes: seq<PaneState>)
    requires Partitioned(panes, tabs) && "" !in Keys(tabs) && pane in panes && pane.tabs != []
    ensures pane.active != "" && Fits(pane)
  {
    var i :| 0 <= i < |panes| && panes[i] == pane;
    FlatSplit(panes, i);
    assert pane.active in Elements(Flat(panes));
  }

  /** The one pane of an empty workspace. */
  lemma OpenedAlone(w: Workspace, tab: Tab, executing: string)
    requires WellFormed(w) && w.tabs == [] && tab.key != ""
    ensures var r := Opened(w, tab, executing);
            r.layout.Some? && Leaves(r.layout.value) == [PaneState(Leaves(w.layout.value)[0].id, [tab.key], tab.key)]
  {
    hide WithPanes;
    var panes := Leaves(w.layout.value);
    FlatSplit(panes, 0);
    assert Flat(panes) == [];
    assert panes[0] in panes && panes[0].tabs == [];
    assert panes == [panes[0]];
    assert OpeningPane(w, tab.key, executing) == 0 && panes[0].active == "";
    assert InsertAfter([], w.active, tab.key) == [tab.key];
    LeavesUpdated(w.layout.value, 0, OpenedPane(panes[0], tab.key, w.active));
  }

  /** Opening a tab takes the welcome tab away, unless that is what opens, and a pane that held
      nothing else.  Every other tab stays in its pane and in order.  The tab opens in the pane
      that holds it, else in the executing, the focused or the first one, after the tab shown
      there; without other tabs it is alone in the one pane there is. */
  lemma AddTabKeepsOthers(ws: Workspace, tab: Tab, executing: string)
    requires WellFormed(ws) && "" !in Keys(ws.tabs) && tab.key != ""
    requires tab.key == WELCOME ==> forall k :: k in Keys(ws.tabs) ==> k == WELCOME
    ensures var r := AddTab(ws, tab, executing);
            && r.layout.Some? && r.active == tab.key && Shown(r) == tab.key
            && Renewed(ws.tabs, r.tabs, tab)
            && (if Outside(Keys(ws.tabs), Gone(tab.key)) == []
                then exists id :: Leaves(r.layout.value) == [PaneState(id, [tab.key], tab.key)]
                else exists left ::
                  && Remain(Leaves(ws.layout.value), left, Gone(tab.key)) && left != []
                  && EnteredAt(left, Leaves(r.layout.value), OpensIn(left, tab.key, executing, ws.focused), tab.key))
  {
    hide Reconcile, Opened, Keys, Leaves, Flat, WithoutWelcome, Shown, Remain, EnteredAt, OpensIn, Outside, OpenTab,
        WellFormed, Renewed;
    HasLayout(ws);
    WithoutWelcomeKeeps(ws, tab.key);
    var w := WithoutWelcome(ws, tab.key);
    HasLayout(w);
    OpenedConsistent(w, tab, executing);
    var with := Opened(w, tab, executing);
    ConsistentReconciles(with);
    assert AddTab(ws, tab, executing) == Reconcile(with);
    RecordsRenewed(ws, w, tab, executing, Reconcile(with).tabs);
    if w.tabs == [] {
      OpenedAlone(w, tab, executing);
    } else {
      OpenedEntersOne(w, tab, executing);
      var left := Leaves(w.layout.value);
      OpensInSame(left, tab.key, executing, ws.focused, w.focused);
      assert Keys(w.tabs) != [] by { SomeKeys(w.tabs); }
    }
  }

  lemma SomeKeys(tabs: seq<Tab>)
    requires tabs != []
    ensures Keys(tabs) != []
  {
  }

  lemma OpensInSame(panes: seq<PaneState>, key: string, executing: string, before: string, focused: string)
    requires panes != [] && Distinct(Ids(panes))
    requires if before in Ids(panes) then focused == before else focused == panes[0].id
    ensures OpensIn(panes, key, executing, focused) == OpensIn(panes, key, executing, before)
  {
    ShownByIndex(panes, 0);
  }

  lemma RecordsRenewed(ws: Workspace, w: Workspace, tab: Tab, executing: string, tabs: seq<Tab>)
    requires WellFormed(w) && (forall t :: t in w.tabs ==> t in ws.tabs)
    requires tab.key in Keys(ws.tabs) ==> tab.key in Keys(w.tabs)
    requires forall t :: t in tabs ==> t in Opened(w, tab, executing).tabs
    ensures Renewed(ws.tabs, tabs, tab)
  {
    hide OpenTab, Keys, Leaves, Flat, Distinct;
    var panes := Leaves(w.layout.value);
    var i := OpeningPane(w, tab.key, executing);
    OpenTabRenews(w.tabs, tab, if panes[i].active != "" then panes[i].active else w.active);
    KeysOfSome(w.tabs, ws.tabs, tab.key);
  }

  lemma KeysOfSome(some: seq<Tab>, all: seq<Tab>, key: string)
    requires forall t :: t in some ==> t in all
    ensures key in Keys(some) ==> key in Keys(all)
  {
    if key in Keys(some) {
      var i :| 0 <= i < |some| && Keys(some)[i] == key;
      assert some[i] in all;
      var j :| 0 <= j < |all| && all[j] == some[i];
      assert Keys(all)[j] == key;
    }
  }
}
