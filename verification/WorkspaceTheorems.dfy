/**
 What the public operations keep and achieve on every well-formed workspace.
 */
module WorkspaceTheorems {
  import opened Common
  import opened WorkspaceLayout
  import opened WorkspaceInvariant
  import opened WorkspaceOperations

  // ---------------------------------------------------------------- replacing one pane's tabs

  /** The keys of all panes but one. */
  function Others(panes: seq<PaneState>, i: nat): seq<string>
    requires i < |panes|
  {
    Flat(panes[..i]) + Flat(panes[i + 1..])
  }

  /** One pane of a partition may get other tabs, as long as they are distinct, belong to no
      other pane and together with the rest are the open tabs. */
  lemma UpdatePartition(panes: seq<PaneState>, tabs: seq<Tab>, i: nat, pane: PaneState, keys: seq<Tab>)
    requires Partitioned(panes, tabs) && i < |panes| && pane.id == panes[i].id && Fits(pane)
    requires Distinct(pane.tabs) && forall k :: k in pane.tabs ==> k !in Others(panes, i)
    requires Elements(Keys(keys)) == Elements(Others(panes, i)) + Elements(pane.tabs)
    ensures Partitioned(panes[i := pane], keys)
    ensures Flat(panes[i := pane]) == Flat(panes[..i]) + pane.tabs + Flat(panes[i + 1..])
  {
    var r := panes[i := pane];
    SplitOthers(panes, i);
    FlatSplit(r, i);
    assert r[..i] == panes[..i] && r[i + 1..] == panes[i + 1..];
    InsertDistinct(Flat(panes[..i]), pane.tabs, Flat(panes[i + 1..]));
    IdsUpdate(panes, i, pane);
    assert Elements(Flat(r)) == Elements(Others(panes, i)) + Elements(pane.tabs);
    forall p | p in r ensures Fits(p) {
      var j :| 0 <= j < |r| && r[j] == p;
      if j != i { assert p == panes[j] && panes[j] in panes; }
    }
  }

  lemma SplitOthers(panes: seq<PaneState>, i: nat)
    requires i < |panes| && Distinct(Flat(panes))
    ensures Distinct(Others(panes, i)) && Distinct(panes[i].tabs)
    ensures forall k :: k in panes[i].tabs ==> k !in Others(panes, i)
    ensures Elements(Flat(panes)) == Elements(Others(panes, i)) + Elements(panes[i].tabs)
  {
    FlatSplit(panes, i);
    ThreeParts(Flat(panes[..i]), panes[i].tabs, Flat(panes[i + 1..]));
  }

  lemma ThreeParts(a: seq<string>, m: seq<string>, b: seq<string>)
    requires Distinct(a + m + b)
    ensures Distinct(a + b) && Distinct(m)
    ensures forall k :: k in m ==> k !in a + b
  {
    DistinctParts(a + m, b);
    DistinctParts(a, m);
    assert forall k :: k in m ==> k in a + m;
    var s, t := a + m + b, a + b;
    forall i, j | 0 <= i < j < |t| ensures t[i] != t[j] {
      assert t[i] == s[if i < |a| then i else i + |m|];
      assert t[j] == s[if j < |a| then j else j + |m|];
    }
  }

  /** Updating one leaf of the tree. */
  lemma LeavesUpdated(layout: Layout, i: nat, pane: PaneState)
    requires i < |Leaves(layout)|
    ensures Leaves(WithPanes(layout, Leaves(layout)[i := pane])) == Leaves(layout)[i := pane]
  {
    LeavesOfWithPanes(layout, Leaves(layout)[i := pane]);
  }

  lemma ShownByIndex(panes: seq<PaneState>, i: nat)
    requires i < |panes| && Distinct(Ids(panes))
    ensures IndexOf(Ids(panes), panes[i].id) == i
    ensures forall other :: Choose(panes, panes[i].id, other) == i
  {
    hide Ids, IndexOf, Distinct;
    IndexOfDistinct(Ids(panes), i);
    assert Ids(panes)[i] == panes[i].id;
  }

  lemma {:induction false} IndexOfDistinct(ids: seq<string>, i: nat)
    requires Distinct(ids) && i < |ids|
    ensures IndexOf(ids, ids[i]) == i
  {
    if i > 0 {
      DistinctTail(ids);
      assert ids[i] == ids[1..][i - 1];
      IndexOfDistinct(ids[1..], i - 1);
    }
  }

  // ---------------------------------------------------------------- activating and focusing

  /** Activating an open tab shows it, focuses its pane and leaves everything well formed. */
  lemma ActivateTabWellFormed(ws: Workspace, key: string)
    requires WellFormed(ws) && "" !in Keys(ws.tabs)
    ensures WellFormed(ActivateTab(ws, key))
    ensures ActivateTab(ws, key).tabs == ws.tabs
    ensures key in Keys(ws.tabs) ==>
              var r := ActivateTab(ws, key);
              Shown(r) == key && r.active == key && Flat(Leaves(r.layout.value)) == Flat(Leaves(ws.layout.value))
  {
    var panes := Leaves(ws.layout.value);
    var i := PaneOf(panes, key);
    if key in Keys(ws.tabs) && i >= 0 {
      var r := ActivateTab(ws, key);
      ShowingWellFormed(ws, i, key, r);
    }
  }

  /** Showing another tab of a pane and focusing it. */
  lemma ShowingWellFormed(ws: Workspace, i: nat, key: string, r: Workspace)
    requires WellFormed(ws) && i < |Leaves(ws.layout.value)|
    requires var panes := Leaves(ws.layout.value);
             && key in panes[i].tabs && r.tabs == ws.tabs && r.active == key && r.focused == panes[i].id
             && r.layout == Some(WithPanes(ws.layout.value, panes[i := panes[i].(active := key)]))
    ensures WellFormed(r) && Shown(r) == key
    ensures Flat(Leaves(r.layout.value)) == Flat(Leaves(ws.layout.value))
  {
    hide Leaves, WithPanes, Flat;
    var panes := Leaves(ws.layout.value);
    var pane := panes[i].(active := key);
    var after := panes[i := pane];
    LeavesUpdated(ws.layout.value, i, pane);
    AdoptKeepsFlat(panes, i, after);
    IdsUpdate(panes, i, pane);
    ShownByIndex(after, i);
    assert Ids(after)[i] == pane.id;
    forall p | p in after ensures Fits(p) && (|after| == 1 || p.tabs != []) {
      var j :| 0 <= j < |after| && after[j] == p;
      assert panes[j] in panes;
    }
  }

  /** Focusing a pane makes its tab the active one. */
  lemma FocusPaneWellFormed(ws: Workspace, id: string)
    requires WellFormed(ws) && "" !in Keys(ws.tabs)
    ensures WellFormed(FocusPane(ws, id))
    ensures FocusPane(ws, id).layout == ws.layout && FocusPane(ws, id).tabs == ws.tabs
    ensures id in Ids(Leaves(ws.layout.value)) ==> FocusPane(ws, id).focused == id
  {
    var panes := Leaves(ws.layout.value);
    var i := IndexOf(Ids(panes), id);
    if i >= 0 {
      ShownByIndex(panes, i);
      assert panes[i] in panes && Fits(panes[i]);
      FlatSplit(panes, i);
      if ws.tabs != [] {
        WellFormedIsConsistent(ws);
        assert panes[i].active in Elements(Flat(panes));
      }
    }
  }

  // ---------------------------------------------------------------- opening

  lemma {:induction false} OutsideDistinct(keys: seq<string>, gone: set<string>)
    requires Distinct(keys)
    ensures Distinct(Outside(keys, gone))
  {
    if keys != [] {
      DistinctTail(keys);
      OutsideDistinct(keys[1..], gone);
    }
  }

  lemma {:induction false} OutsideAppend(a: seq<string>, b: seq<string>, gone: set<string>)
    ensures Outside(a + b, gone) == Outside(a, gone) + Outside(b, gone)
  {
    if a == [] {
      assert a + b == b;
    } else {
      assert (a + b)[1..] == a[1..] + b;
      OutsideAppend(a[1..], b, gone);
    }
  }

  lemma {:induction false} LoseWelcomePanes(panes: seq<PaneState>)
    requires forall p :: p in panes ==> Fits(p)
    ensures Ids(LoseWelcome(panes)) == Ids(panes)
    ensures Flat(LoseWelcome(panes)) == Outside(Flat(panes), {WELCOME})
    ensures forall p :: p in LoseWelcome(panes) ==> Fits(p)
  {
    if panes != [] {
      assert panes[0] in panes && Fits(panes[0]);
      LoseWelcomePanes(panes[1..]);
      OutsideAppend(panes[0].tabs, Flat(panes[1..]), {WELCOME});
      assert LoseWelcome(panes)[1..] == LoseWelcome(panes[1..]);
    }
  }

  lemma WithoutWelcomeWellFormed(ws: Workspace, key: string)
    requires WellFormed(ws) && "" !in Keys(ws.tabs)
    ensures var w := WithoutWelcome(ws, key);
            && WellFormed(w)
            && Elements(Keys(w.tabs)) == Elements(Keys(ws.tabs)) - (if key == WELCOME then {} else {WELCOME})
            && "" !in Keys(w.tabs)
  {
    if key != WELCOME {
      hide Normalize, Keys, Flat, Leaves, WithPanes;
      var panes := Leaves(ws.layout.value);
      var left := LoseWelcome(panes);
      LoseWelcomePanes(panes);
      OutsideDistinct(Flat(panes), {WELCOME});
      LeavesOfWithPanes(ws.layout.value, left);
      var bare := ws.(tabs := TabsOutside(ws.tabs, {WELCOME}), layout := Some(WithPanes(ws.layout.value, left)));
      assert Keys(bare.tabs) == Flat(left);
      assert Partitioned(Leaves(bare.layout.value), bare.tabs);
      NormalizePartition(bare, ws.focused);
      var w := Normalize(bare, ws.focused);
      assert Elements(Keys(w.tabs)) == Elements(Keys(ws.tabs)) - {WELCOME};
      assert "" !in Elements(Keys(w.tabs));
    }
  }

  lemma InsertKeys(keys: seq<string>, i: nat, key: string)
    requires i <= |keys|
    ensures Elements(Insert(keys, i, key)) == Elements(keys) + {key}
    ensures Distinct(keys) && key !in keys ==> Distinct(Insert(keys, i, key))
  {
    assert keys == keys[..i] + keys[i..];
    if Distinct(keys) && key !in keys { InsertDistinct(keys[..i], [key], keys[i..]); }
  }

  lemma OpenTabKeys(tabs: seq<Tab>, tab: Tab, anchor: string)
    ensures Elements(Keys(OpenTab(tabs, tab, anchor))) == Elements(Keys(tabs)) + {tab.key}
  {
    hide IndexOf;
    var at := IndexOf(Keys(tabs), tab.key);
    if at >= 0 {
      KeysUpdate(tabs, at, tab.(pinned := tabs[at].pinned));
    } else {
      var i := IndexOf(Keys(tabs), anchor);
      var n := if i >= 0 then i + 1 else |tabs|;
      KeysInsert(tabs, n, tab);
      InsertKeys(Keys(tabs), n, tab.key);
    }
  }

  lemma KeysUpdate(tabs: seq<Tab>, i: nat, tab: Tab)
    requires i < |tabs| && tab.key == tabs[i].key
    ensures Keys(tabs[i := tab]) == Keys(tabs)
    ensures tab.key in Keys(tabs)
  {
    hide Keys;
    assert Keys(tabs)[i] == tab.key;
  }

  lemma KeysInsert(tabs: seq<Tab>, i: nat, tab: Tab)
    requires i <= |tabs|
    ensures Keys(Insert(tabs, i, tab)) == Insert(Keys(tabs), i, tab.key)
  {
    hide Keys;
    assert tabs == tabs[..i] + tabs[i..];
    KeysAppend(tabs[..i], tabs[i..]);
    assert Keys(tabs)[..i] == Keys(tabs[..i]) && Keys(tabs)[i..] == Keys(tabs[i..]);
    KeysAppend(tabs[..i] + [tab], tabs[i..]);
    KeysAppend(tabs[..i], [tab]);
    assert Keys([tab]) == [tab.key];
  }

  lemma {:induction false} KeysAppend(a: seq<Tab>, b: seq<Tab>)
    ensures Keys(a + b) == Keys(a) + Keys(b)
  {
    if a == [] {
      assert a + b == b;
    } else {
      assert (a + b)[1..] == a[1..] + b;
      KeysAppend(a[1..], b);
    }
  }

  /** The pane a tab opens in, with the tab. */
  function OpenedPane(pane: PaneState, key: string, anchor: string): PaneState {
    (if key in pane.tabs then pane else pane.(tabs := InsertAfter(pane.tabs, anchor, key))).(active := key)
  }

  lemma KeysOfOthers(panes: seq<PaneState>, i: nat, key: string)
    requires i < |panes| && Distinct(Flat(panes))
    ensures key in Flat(panes) <==> key in panes[i].tabs || key in Others(panes, i)
  {
    FlatSplit(panes, i);
  }

  /** The panes after a tab has entered one of them. */
  lemma OpenedPanes(w: Workspace, tab: Tab, executing: string)
    requires WellFormed(w) && tab.key != ""
    ensures var panes := Leaves(w.layout.value);
            var i := OpeningPane(w, tab.key, executing);
            var anchor := if panes[i].active != "" then panes[i].active else w.active;
            var after := panes[i := OpenedPane(panes[i], tab.key, anchor)];
            var tabs := OpenTab(w.tabs, tab, anchor);
            && Partitioned(after, tabs) && Ids(after) == Ids(panes)
            && Elements(Keys(tabs)) == Elements(Keys(w.tabs)) + {tab.key}
            && (forall p :: p in after ==> p.tabs != [])
  {
    hide Leaves, Flat, Keys, Ids, Choose, OpenTab, PaneOf, InsertAfter, Distinct, Fits;
    var panes := Leaves(w.layout.value);
    var i := OpeningPane(w, tab.key, executing);
    var anchor := if panes[i].active != "" then panes[i].active else w.active;
    var pane := OpenedPane(panes[i], tab.key, anchor);
    var tabs := OpenTab(w.tabs, tab, anchor);
    OpenTabKeys(w.tabs, tab, anchor);
    SplitOthers(panes, i);
    OpenedPaneKeys(panes[i], tab.key, anchor);
    assert tab.key !in Others(panes, i) by { HolderIsOpened(panes, tab.key, executing, w.focused); }
    forall k | k in pane.tabs ensures k !in Others(panes, i) { assert k in Elements(pane.tabs); }
    UpdatePartition(panes, w.tabs, i, pane, tabs);
    IdsUpdate(panes, i, pane);
    var after := panes[i := pane];
    forall p | p in after ensures p.tabs != [] {
      var j :| 0 <= j < |after| && after[j] == p;
      assert panes[j] in panes;
    }
  }

  /** Opening a tab in a well-formed workspace leaves it consistent. */
  lemma OpenedConsistent(w: Workspace, tab: Tab, executing: string)
    requires WellFormed(w) && "" !in Keys(w.tabs) && tab.key != ""
    ensures var r := Opened(w, tab, executing);
            && Consistent(r) && Shown(r) == tab.key && r.active == tab.key
            && Elements(Keys(r.tabs)) == Elements(Keys(w.tabs)) + {tab.key}
            && Ids(Leaves(r.layout.value)) == Ids(Leaves(w.layout.value))
  {
    hide Leaves, WithPanes, Flat, Keys, Ids, Choose, OpenTab, PaneOf, InsertAfter, Partitioned, OpeningPane;
    var panes := Leaves(w.layout.value);
    var i := OpeningPane(w, tab.key, executing);
    var anchor := if panes[i].active != "" then panes[i].active else w.active;
    var after := panes[i := OpenedPane(panes[i], tab.key, anchor)];
    OpenedPanes(w, tab, executing);
    LeavesUpdated(w.layout.value, i, after[i]);
    SameDistinct(panes, after);
    ShownByIndex(after, i);
    assert Ids(after)[i] == after[i].id;
    var r := Opened(w, tab, executing);
    assert "" !in Elements(Keys(r.tabs)) && tab.key in Elements(Keys(r.tabs));
    TabsFromKey(r.tabs, tab.key);
  }

  lemma SameDistinct(panes: seq<PaneState>, after: seq<PaneState>)
    requires Ids(after) == Ids(panes)
    ensures Distinct(Ids(panes)) ==> Distinct(Ids(after))
  {
  }

  lemma TabsFromKey(tabs: seq<Tab>, key: string)
    requires key in Elements(Keys(tabs))
    ensures tabs != []
  {
  }

  lemma OpenedPaneKeys(pane: PaneState, key: string, anchor: string)
    requires Distinct(pane.tabs)
    ensures var p := OpenedPane(pane, key, anchor);
            && Distinct(p.tabs) && Elements(p.tabs) == Elements(pane.tabs) + {key} && Fits(p) && p.id == pane.id
            && p.tabs != []
  {
    if key !in pane.tabs {
      var i := IndexOf(pane.tabs, anchor);
      InsertKeys(pane.tabs, if i >= 0 then i + 1 else |pane.tabs|, key);
    }
    assert key in Elements(OpenedPane(pane, key, anchor).tabs);
  }

  /** If some pane already holds the key, it is the one the tab opens in. */
  lemma HolderIsOpened(panes: seq<PaneState>, key: string, executing: string, focused: string)
    requires panes != [] && Distinct(Flat(panes))
    ensures var i := if PaneOf(panes, key) >= 0 then PaneOf(panes, key) else Choose(panes, executing, focused);
            key !in Others(panes, i)
  {
    hide Choose, PaneOf;
    var i := if PaneOf(panes, key) >= 0 then PaneOf(panes, key) else Choose(panes, executing, focused);
    SplitOthers(panes, i);
    KeysOfOthers(panes, i, key);
  }

  /** Opening a tab: it is open, shown, focused and active; the others stay open, except the
      welcome tab, which anything else replaces and which never opens beside others. */
  lemma AddTabOpens(ws: Workspace, tab: Tab, executing: string)
    requires WellFormed(ws) && "" !in Keys(ws.tabs) && tab.key != ""
    ensures var r := AddTab(ws, tab, executing);
            && WellFormed(r)
            && (if tab.key == WELCOME && (exists k :: k in Keys(ws.tabs) && k != WELCOME) then r == ws
                else
                  && r.active == tab.key && Shown(r) == tab.key
                  && Elements(Keys(r.tabs)) ==
                       Elements(Keys(ws.tabs)) - (if tab.key == WELCOME then {} else {WELCOME}) + {tab.key})
  {
    hide Reconcile, Opened, Keys, Leaves, Flat, WithoutWelcome, Shown, Distinct, Fits, Partitioned;
    WithoutWelcomeWellFormed(ws, tab.key);
    var w := WithoutWelcome(ws, tab.key);
    if tab.key == WELCOME { WelcomeStays(ws, tab.key); }
    if !(tab.key == WELCOME && exists k :: k in Keys(w.tabs) && k != WELCOME) {
      OpenedConsistent(w, tab, executing);
      ConsistentReconciles(Opened(w, tab, executing));
    }
  }

  lemma WelcomeStays(ws: Workspace, key: string)
    requires ws.layout.Some? && key == WELCOME
    ensures WithoutWelcome(ws, key) == ws
  {
  }

  /** Reconciling a consistent workspace makes it well formed and changes no pane. */
  lemma ConsistentReconciles(ws: Workspace)
    requires Consistent(ws)
    ensures var r := Reconcile(ws);
            && WellFormed(r) && r.layout == ws.layout && r.active == ws.active && r.focused == ws.focused
            && Shown(r) == Shown(ws)
            && Keys(r.tabs) == Flat(Leaves(ws.layout.value))
            && Elements(Keys(r.tabs)) == Elements(Keys(ws.tabs))
            && forall t :: t in r.tabs ==> t in ws.tabs
  {
    hide Reconcile, TabsInOrder;
    ReconcileConsistent(ws);
    var order := Flat(Leaves(ws.layout.value));
    forall k | k in order ensures k in Keys(ws.tabs) { assert k in Elements(order); }
    InOrderRecords(ws.tabs, order);
  }
}
