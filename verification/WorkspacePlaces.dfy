/**
 Where exactly a dropped tab goes, and which tab a pane shows when the one it showed has been
 closed or dragged away: told by positions and by the record of recently shown tabs.
 */
module WorkspacePlaces {
  import opened Common
  import opened WorkspaceLayout
  import opened WorkspaceInvariant
  import opened WorkspaceOperations
  import opened WorkspaceTheorems
  import opened WorkspaceMoves
  import opened WorkspaceDrops

  // ---------------------------------------------------------------- dragging a tab away

  /** Without the key at `at`. */
  function Without(keys: seq<string>, at: nat): seq<string>
    requires at < |keys|
  {
    keys[..at] + keys[at + 1..]
  }

  /** The pane without the tab at `at`.  If it showed that one, it shows the remembered tab; if
      that is the dragged one itself, the tab to its left; else the tab that takes its place, or the
      last one. */
  predicate LeftBy(before: PaneState, after: PaneState, at: nat, remembered: string) {
    && at < |before.tabs| && after.id == before.id && after.tabs == Without(before.tabs, at)
    && var key, kept := before.tabs[at], after.tabs;
       after.active ==
         if before.active in kept then before.active
         else if remembered != "" && remembered != key && remembered in kept then remembered
         else if kept == [] then ""
         else if remembered == key && at > 0 then before.tabs[at - 1]
         else if at < |kept| then kept[at]
         else kept[|kept| - 1]
  }

  lemma BereftIsLeft(pane: PaneState, key: string, remembered: string)
    requires key in pane.tabs && "" !in pane.tabs
    ensures LeftBy(pane, Bereft(pane, key, remembered), IndexOf(pane.tabs, key), remembered)
  {
    var at := IndexOf(pane.tabs, key);
    var kept := Without(pane.tabs, at);
    if at > 0 { assert kept[at - 1] == pane.tabs[at - 1]; }
  }

  // ---------------------------------------------------------------- dropping it

  /** At the place asked for, if there is such a place, else at the nearest end. */
  predicate PlacedAt(keys: seq<string>, after: seq<string>, key: string, index: Option<int>, at: nat) {
    && at < |after| && after[at] == key && Without(after, at) == keys
    && (index.None? ==> at == |keys|)
    && (index.Some? ==> at == if index.value < 0 then 0 else if index.value > |keys| then |keys| else index.value)
  }

  ghost predicate Received(before: PaneState, after: PaneState, key: string, index: Option<int>) {
    after.id == before.id && after.active == key && exists at: nat :: PlacedAt(before.tabs, after.tabs, key, index, at)
  }

  /** The panes after a drop, before an emptied one goes: the tab has left the pane at `s` from
      place `at`, and is in the pane at `t`, or in a new one before or after that. */
  ghost predicate DroppedOn(before: seq<PaneState>, after: seq<PaneState>, s: nat, at: nat, t: nat, remembered: string,
      zone: Zone, name: string)
  {
    && s < |before| && t < |before| && at < |before[s].tabs|
    && exists left: PaneState ::
         && LeftBy(before[s], left, at, remembered)
         && var key, panes := before[s].tabs[at], before[s := left];
            match zone
            case Center(index) =>
              && |after| == |panes| && Received(panes[t], after[t], key, index)
              && forall i :: 0 <= i < |panes| && i != t ==> after[i] == panes[i]
            case _ =>
              var n := if zone.Left? || zone.Top? then t else t + 1;
              after == panes[..n] + [PaneState(name, [key], key)] + panes[n..]
  }

  lemma InsertPlaces(keys: seq<string>, index: Option<int>, key: string)
    ensures var at := Clamp(if index.Some? then index.value else |keys|, 0, |keys|);
            0 <= at <= |keys| && PlacedAt(keys, Insert(keys, at, key), key, index, at)
  {
    var at := Clamp(if index.Some? then index.value else |keys|, 0, |keys|);
    var r := Insert(keys, at, key);
    assert r[..at] == keys[..at] && r[at + 1..] == keys[at..];
  }

  lemma DroppedAsTold(ws: Workspace, s: nat, t: nat, key: string, remembered: string, zone: Zone)
    requires ws.layout.Some? && s < |Leaves(ws.layout.value)| && t < |Leaves(ws.layout.value)|
    requires key in Leaves(ws.layout.value)[s].tabs && "" !in Leaves(ws.layout.value)[s].tabs
    ensures var panes := Leaves(ws.layout.value);
            DroppedOn(panes, DroppedPanes(ws, s, t, key, remembered, zone), s, IndexOf(panes[s].tabs, key), t,
                      remembered, zone, PaneName(NextSerial(ws.serial, UsedIds(ws))))
  {
    hide Leaves, NextSerial, PaneName, UsedIds, Clamp, LeftBy, PlacedAt, Bereft;
    var all := Leaves(ws.layout.value);
    BereftIsLeft(all[s], key, remembered);
    var left := Bereft(all[s], key, remembered);
    var panes := all[s := left];
    if zone.Center? {
      InsertPlaces(panes[t].tabs, zone.index, key);
      assert Received(panes[t], DroppedPanes(ws, s, t, key, remembered, zone)[t], key, zone.index);
    }
    assert LeftBy(all[s], left, IndexOf(all[s].tabs, key), remembered);
  }

  /** A drop that is not refused: the tab leaves its place, and lands at the place asked for of the
      target pane, or in a new pane of its own on the side asked for, with the first id that is not
      in use; a pane it leaves empty goes. */
  lemma DropPlaces(ws: Workspace, s: nat, at: nat, t: nat, remembered: string, zone: Zone, splitId: string)
    requires WellFormed(ws) && "" !in Keys(ws.tabs)
    requires var panes := Leaves(ws.layout.value);
             && s < |panes| && at < |panes[s].tabs| && t < |panes|
             && (zone.Center? || s != t || |panes[s].tabs| > 1)
    ensures var panes := Leaves(ws.layout.value);
            var r := Drop(ws, panes[s].tabs[at], remembered, panes[t].id, zone, splitId);
            exists after ::
              && DroppedOn(panes, after, s, at, t, remembered, zone, PaneName(NextSerial(ws.serial, UsedIds(ws))))
              && LeavesOf(r.layout) == NonEmpty(after)
  {
    hide Leaves, Drop, DroppedOn, NextSerial, PaneName, UsedIds, Keys, Shown, Outside;
    var panes := Leaves(ws.layout.value);
    var key, target := panes[s].tabs[at], panes[t].id;
    FoundAt(ws, s, at, t, key, target);
    DropLands(ws, key, remembered, target, zone, splitId);
    DroppedAsTold(ws, s, t, key, remembered, zone);
  }

  /** The searches find the one place there is. */
  lemma FoundAt(ws: Workspace, s: nat, at: nat, t: nat, key: string, target: string)
    requires WellFormed(ws) && "" !in Keys(ws.tabs)
    requires var panes := Leaves(ws.layout.value);
             s < |panes| && t < |panes| && at < |panes[s].tabs| && panes[s].tabs[at] == key && panes[t].id == target
    ensures var panes := Leaves(ws.layout.value);
            && PaneOf(panes, key) == s && IndexOf(panes[s].tabs, key) == at && IndexOf(Ids(panes), target) == t
            && "" !in panes[s].tabs
  {
    hide Leaves, Flat, PaneOf, IndexOf, Ids;
    var panes := Leaves(ws.layout.value);
    FirstHolder(panes, key);
    FlatSplit(panes, s);
    SplitOthers(panes, s);
    IndexOfDistinct(panes[s].tabs, at);
    ShownByIndex(panes, t);
    assert key in panes[s].tabs && key in Flat(panes);
    assert "" !in Flat(panes);
  }

  // ---------------------------------------------------------------- closing

  /** The last key of the record that is still there. */
  ghost predicate MostRecent(record: seq<string>, kept: seq<string>, key: string) {
    key in kept && exists n :: 0 <= n < |record| && record[n] == key && NoneAfter(record, kept, n)
  }

  predicate NoneAfter(record: seq<string>, kept: seq<string>, n: nat) {
    forall m :: n < m < |record| ==> record[m] !in kept
  }

  /** Where the first closed tab was. */
  predicate FirstGone(keys: seq<string>, targets: set<string>, at: nat) {
    at < |keys| && keys[at] in targets && forall m :: 0 <= m < at ==> keys[m] !in targets
  }

  /** What the pane shows after closing: what it showed, if that is still there; else the tab of
      its record that was shown last; without such a one, the tab in the place of the first closed
      one, or the last tab. */
  ghost predicate ShowsAfterClosing(record: seq<string>, before: PaneState, after: PaneState, targets: set<string>) {
    if before.active in after.tabs then after.active == before.active
    else if exists key :: MostRecent(record, after.tabs, key) then MostRecent(record, after.tabs, after.active)
    else if after.tabs == [] then after.active == ""
    else exists at: nat :: FirstGone(before.tabs, targets, at)
                      && after.active == after.tabs[if at < |after.tabs| then at else |after.tabs| - 1]
  }

  lemma {:induction false} LastInside(record: seq<string>, wanted: set<string>, targets: set<string>, kept: seq<string>)
    requires forall k :: k in kept <==> k in wanted && k !in targets
    ensures var c := Outside(Inside(record, wanted), targets);
            && (c == [] ==> forall m :: 0 <= m < |record| ==> record[m] !in kept)
            && (c != [] ==> MostRecent(record, kept, c[|c| - 1]))
  {
    if record != [] {
      var rest := record[1..];
      LastInside(rest, wanted, targets, kept);
      var c, d := Outside(Inside(record, wanted), targets), Outside(Inside(rest, wanted), targets);
      assert forall m :: 0 < m < |record| ==> record[m] == rest[m - 1];
      if record[0] in wanted { OutsideAppend([record[0]], Inside(rest, wanted), targets); }
      if d != [] {
        assert c[|c| - 1] == d[|d| - 1];
        var n :| 0 <= n < |rest| && rest[n] == d[|d| - 1] && NoneAfter(rest, kept, n);
        assert record[n + 1] == d[|d| - 1] && NoneAfter(record, kept, n + 1);
      } else if c != [] {
        assert record[0] == c[|c| - 1] && NoneAfter(record, kept, 0);
      }
    }
  }

  lemma {:induction false} FirstClosedIsFirst(keys: seq<string>, targets: set<string>)
    requires exists k :: k in keys && k in targets
    ensures FirstGone(keys, targets, FirstClosed(keys, targets))
  {
    if keys[0] !in targets {
      assert keys == [keys[0]] + keys[1..];
      FirstClosedIsFirst(keys[1..], targets);
      var at := FirstClosed(keys[1..], targets);
      assert forall m :: 0 < m < at + 1 ==> keys[m] == keys[1..][m - 1];
    }
  }

  lemma ClosedPaneShows(history: History, pane: PaneState, targets: set<string>)
    requires Fits(pane) && "" !in pane.tabs
    ensures ShowsAfterClosing(Remembered(history, pane.id), pane, ClosedPane(history, pane, targets), targets)
  {
    hide FirstClosed, MostRecent, FirstGone;
    var after := ClosedPane(history, pane, targets);
    var record := Remembered(history, pane.id);
    if pane.active !in after.tabs {
      if pane.tabs != [] {
        assert pane.active in targets;
        LastInside(record, Elements(pane.tabs), targets, after.tabs);
        FirstClosedIsFirst(pane.tabs, targets);
        NothingRecent(record, after.tabs);
      } else {
        NothingKept(record, after.tabs);
      }
    }
  }

  lemma NothingRecent(record: seq<string>, kept: seq<string>)
    ensures (forall m :: 0 <= m < |record| ==> record[m] !in kept) ==> !exists key :: MostRecent(record, kept, key)
  {
  }

  lemma NothingKept(record: seq<string>, kept: seq<string>)
    ensures kept == [] ==> !exists key :: MostRecent(record, kept, key)
  {
  }

  // ---------------------------------------------------------------- closing in a workspace

  /** The record of one pane does not concern another. */
  lemma ClosedRecordsApart(history: History, pane: PaneState, targets: set<string>, id: string)
    requires id != pane.id
    ensures Remembered(ClosedHistory(history, pane, targets), id) == Remembered(history, id)
  {
    hide Inside, Outside, ClosedPane;
    ClosedPaneTabs(history, pane, targets);
  }

  lemma {:induction false} ClosedPanesShow(history: History, panes: seq<PaneState>, targets: set<string>, i: nat)
    requires i < |panes| && Distinct(Ids(panes)) && (forall p :: p in panes ==> Fits(p) && "" !in p.tabs)
    ensures ShowsAfterClosing(Remembered(history, panes[i].id), panes[i],
                              ClosedPanes(history, panes, targets).0[i], targets)
    decreases i
  {
    hide ShowsAfterClosing, ClosedPane, ClosedHistory, Remembered;
    assert panes[0] in panes && panes[i] in panes;
    if i == 0 {
      ClosedPaneShows(history, panes[0], targets);
    } else {
      var rest := panes[1..];
      DistinctTail(Ids(panes));
      assert Ids(panes)[1..] == Ids(rest) && Ids(rest)[i - 1] == panes[i].id && rest[i - 1] == panes[i];
      assert forall p :: p in rest ==> p in panes;
      ClosedPanesShow(ClosedHistory(history, panes[0], targets), rest, targets, i - 1);
      ClosedRecordsApart(history, panes[0], targets, panes[i].id);
    }
  }

  /** Pane by pane, what is shown after closing. */
  ghost predicate AllShow(history: History, before: seq<PaneState>, after: seq<PaneState>, targets: set<string>) {
    |after| == |before|
    && forall i :: 0 <= i < |before| ==>
         ShowsAfterClosing(Remembered(history, before[i].id), before[i], after[i], targets)
  }

  /** The focus stays where it is, or goes to the pane that held the anchor, or to the first
      pane. */
  ghost predicate FocusAfter(panes: seq<PaneState>, focused: string, anchor: string, ids: seq<string>, after: string)
    requires ids != []
  {
    if focused in ids then after == focused
    else if exists i :: HeldIn(panes, anchor, ids, i)
    then exists i :: HeldIn(panes, anchor, ids, i) && panes[i].id == after
    else after == ids[0]
  }

  predicate HeldIn(panes: seq<PaneState>, anchor: string, ids: seq<string>, i: int) {
    0 <= i < |panes| && anchor in panes[i].tabs && panes[i].id != "" && panes[i].id in ids
  }

  lemma FocusFollowsAnchor(ws: Workspace, anchor: string, left: seq<PaneState>)
    requires WellFormed(ws) && left != []
    ensures var panes := Leaves(ws.layout.value);
            FocusAfter(panes, ws.focused, anchor, Ids(left),
                       if ws.focused in Ids(left) then ws.focused
                       else left[Choose(left, Preferred(ws, anchor), ws.focused)].id)
  {
    hide Leaves, Flat, Ids, Distinct, Fits;
    var panes := Leaves(ws.layout.value);
    FirstHolder(panes, anchor);
    var ids, at, preferred := Ids(left), PaneOf(panes, anchor), Preferred(ws, anchor);
    assert forall j :: 0 <= j < |left| ==> ids[j] == left[j].id;
    var n := IndexOf(Ids(panes), ws.focused);
    assert n >= 0 ==> Ids(panes)[n] == panes[n].id == ws.focused;
    if ws.focused !in ids {
      if at >= 0 && panes[at].id != "" && panes[at].id in ids {
        assert HeldIn(panes, anchor, ids, at);
        assert left[Choose(left, preferred, ws.focused)].id == preferred;
      } else {
        assert preferred !in ids;
        assert Choose(left, preferred, ws.focused) == 0;
      }
    }
  }

  /** Closing tabs while others stay: exactly the requested tabs that are not pinned leave their
      panes, emptied panes go, and every other pane shows what its record says. */
  lemma CloseTabsShows(ws: Workspace, keys: seq<string>, anchor: string)
    requires WellFormed(ws) && "" !in Keys(ws.tabs)
    requires CloseTabs(ws, keys, anchor).tabs != []
    ensures var r, targets := CloseTabs(ws, keys, anchor), Targets(ws, keys);
            && r.layout.Some?
            && exists after ::
                 && Survivors(Leaves(ws.layout.value), after, targets)
                 && AllShow(ws.history, Leaves(ws.layout.value), after, targets)
                 && Leaves(r.layout.value) == NonEmpty(after)
    ensures var r := CloseTabs(ws, keys, anchor);
            && r.layout.Some? && r.active == Shown(r)
            && FocusAfter(Leaves(ws.layout.value), ws.focused, anchor, Ids(Leaves(r.layout.value)), r.focused)
  {
    hide FocusAfter, WellFormed, Shown, Ids, Choose, Preferred;
    hide Leaves, Survivors, ShowsAfterClosing, ClosedPanes, Keys, Flat, Closed, Reconcile, Refocused, NonEmpty;
    HasLayout(ws);
    var panes, targets := Leaves(ws.layout.value), Targets(ws, keys);
    NamedKeys(ws);
    CloseTabsKeepsSurvivors(ws, keys, anchor);
    ActiveIsShown(ws, CloseTabs(ws, keys, anchor));
    if targets == {} {
      NothingClosed(ws);
      FocusStays(ws, anchor);
      forall i | 0 <= i < |panes|
        ensures ShowsAfterClosing(Remembered(ws.history, panes[i].id), panes[i], panes[i], {})
      {
        NothingGone(ws.history, panes, i);
      }
    } else {
      ClosingKeepsSurvivors(ws, targets, anchor);
      FocusFollowsAnchor(ws, anchor, LeavesOf(CloseTabs(ws, keys, anchor).layout));
      var after := ClosedPanes(ws.history, panes, targets).0;
      ClosedPanesSurvive(ws.history, panes, targets);
      forall i | 0 <= i < |panes|
        ensures ShowsAfterClosing(Remembered(ws.history, panes[i].id), panes[i], after[i], targets)
      {
        ClosedPanesShow(ws.history, panes, targets, i);
      }
    }
  }

  lemma ActiveIsShown(ws: Workspace, r: Workspace)
    requires WellFormed(r) && r.tabs != [] && "" !in Keys(ws.tabs) && forall t :: t in r.tabs ==> t in ws.tabs
    ensures r.active == Shown(r)
  {
    hide Keys;
    forall k | k in Keys(r.tabs) ensures k != "" {
      var i :| 0 <= i < |r.tabs| && Keys(r.tabs)[i] == k;
      assert r.tabs[i] in ws.tabs;
      var j :| 0 <= j < |ws.tabs| && ws.tabs[j] == r.tabs[i];
      assert Keys(ws.tabs)[j] == k;
    }
  }

  lemma FocusStays(ws: Workspace, anchor: string)
    requires WellFormed(ws)
    ensures FocusAfter(Leaves(ws.layout.value), ws.focused, anchor, Ids(Leaves(ws.layout.value)), ws.focused)
  {
  }

  lemma NamedKeys(ws: Workspace)
    requires WellFormed(ws) && "" !in Keys(ws.tabs)
    ensures var panes := Leaves(ws.layout.value);
            Distinct(Ids(panes)) && forall p :: p in panes ==> Fits(p) && "" !in p.tabs
  {
    hide Flat, Leaves;
    var panes := Leaves(ws.layout.value);
    forall p | p in panes ensures Fits(p) && "" !in p.tabs {
      var i :| 0 <= i < |panes| && panes[i] == p;
      FlatSplit(panes, i);
    }
  }

  lemma NothingGone(history: History, panes: seq<PaneState>, i: nat)
    requires i < |panes| && forall p :: p in panes ==> Fits(p)
    ensures ShowsAfterClosing(Remembered(history, panes[i].id), panes[i], panes[i], {})
  {
    assert panes[i] in panes;
    if panes[i].tabs == [] { NothingKept(Remembered(history, panes[i].id), []); }
  }
}
