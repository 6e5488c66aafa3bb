/**
 The record of recently shown tabs: what it says after each operation, and that closing a tab
 goes back to the one that was shown before it.
 */
module WorkspaceHistory {
  import opened Common
  import opened WorkspaceLayout
  import opened WorkspaceInvariant
  import opened WorkspaceOperations
  import opened WorkspaceTheorems
  import opened WorkspaceMoves
  import opened WorkspaceOpening
  import opened WorkspaceDrops
  import opened WorkspacePlaces

  // ---------------------------------------------------------------- reading a record

  predicate SomeKept(record: seq<string>, kept: seq<string>) { exists k :: k in record && k in kept }

  /** Of two records one after the other, the later one decides if it can. */
  lemma MostRecentOf(a: seq<string>, b: seq<string>, kept: seq<string>, key: string)
    ensures MostRecent(a + b, kept, key)
            <==> if SomeKept(b, kept) then MostRecent(b, kept, key) else MostRecent(a, kept, key)
  {
    var r := a + b;
    assert forall n :: 0 <= n < |b| ==> r[|a| + n] == b[n];
    if MostRecent(r, kept, key) {
      var n :| 0 <= n < |r| && r[n] == key && NoneAfter(r, kept, n);
      if n >= |a| {
        assert b[n - |a|] == key && NoneAfter(b, kept, n - |a|);
      } else {
        forall k | k in b ensures k !in kept {
          var m :| 0 <= m < |b| && b[m] == k;
          assert r[|a| + m] == k;
        }
        assert forall m :: 0 <= m < |a| ==> r[m] == a[m];
        assert a[n] == key && NoneAfter(a, kept, n);
      }
    }
    if SomeKept(b, kept) && MostRecent(b, kept, key) {
      var n :| 0 <= n < |b| && b[n] == key && NoneAfter(b, kept, n);
      assert r[|a| + n] == key && NoneAfter(r, kept, |a| + n);
    }
    if !SomeKept(b, kept) && MostRecent(a, kept, key) {
      var n :| 0 <= n < |a| && a[n] == key && NoneAfter(a, kept, n);
      forall m | n < m < |r| ensures r[m] !in kept {
        if m >= |a| { assert r[m] == b[m - |a|] && b[m - |a|] in b; }
      }
      assert r[n] == key && NoneAfter(r, kept, n);
    }
  }

  lemma MostRecentOnly(record: seq<string>, kept: seq<string>, a: string, b: string)
    requires MostRecent(record, kept, a) && MostRecent(record, kept, b)
    ensures a == b
  {
  }

  lemma MostRecentIsKept(record: seq<string>, kept: seq<string>, key: string)
    ensures MostRecent(record, kept, key) ==> SomeKept(record, kept)
  {
  }

  lemma MostRecentOne(only: string, kept: seq<string>, key: string)
    ensures MostRecent([only], kept, key) <==> key == only && key in kept
    ensures SomeKept([only], kept) <==> only in kept
  {
    if key == only && key in kept { assert [only][0] == key && NoneAfter([only], kept, 0); }
  }

  /** Leaving out what is not asked about does not matter. */
  lemma {:induction false} LeavingOut(record: seq<string>, wanted: set<string>, gone: set<string>, kept: seq<string>,
      key: string)
    requires forall k :: k in kept ==> k in wanted && k !in gone
    ensures var c := Outside(Inside(record, wanted), gone);
            && (MostRecent(c, kept, key) <==> MostRecent(record, kept, key))
            && (SomeKept(c, kept) <==> SomeKept(record, kept))
  {
    hide MostRecent, SomeKept;
    assert SomeKept(Outside(Inside(record, wanted), gone), kept) <==> SomeKept(record, kept) by {
      SameKept(record, wanted, gone, kept);
    }
    if record != [] {
      var h, rest := record[0], record[1..];
      LeavingOut(rest, wanted, gone, kept, key);
      var c := Outside(Inside(rest, wanted), gone);
      assert record == [h] + rest;
      MostRecentOf([h], rest, kept, key);
      MostRecentOf([h], c, kept, key);
      MostRecentOne(h, kept, key);
      MostRecentIsKept(rest, kept, key);
      MostRecentIsKept(c, kept, key);
      if h in wanted {
        OutsideAppend([h], Inside(rest, wanted), gone);
        assert Outside([h], gone) == if h in gone then [] else [h] by { assert [h][1..] == []; }
        assert [] + c == c;
      }
    }
  }

  lemma SameKept(record: seq<string>, wanted: set<string>, gone: set<string>, kept: seq<string>)
    requires forall k :: k in kept ==> k in wanted && k !in gone
    ensures SomeKept(Outside(Inside(record, wanted), gone), kept) <==> SomeKept(record, kept)
  {
    var c := Outside(Inside(record, wanted), gone);
    if SomeKept(record, kept) {
      var k :| k in record && k in kept;
      assert k in c;
    }
  }

  // ---------------------------------------------------------------- writing a record

  /** Once a tab is remembered, of any of the pane's tabs that one was shown last; of those without
      it the one shown before it, and of those without both the one that was before.  The records
      of other panes stay. */
  lemma RememberedShows(history: History, pane: PaneState, key: string, previous: string, kept: seq<string>, x: string)
    requires key != "" && key in pane.tabs && "" !in kept && forall k :: k in kept ==> k in pane.tabs
    ensures MostRecent(Remembered(Remember(history, pane, key, previous), pane.id), kept, x)
            <==> if key in kept then x == key
                 else if previous in kept then x == previous
                 else MostRecent(Remembered(history, pane.id), kept, x)
    ensures forall id :: id != pane.id ==>
              Remembered(Remember(history, pane, key, previous), id) == Remembered(history, id)
  {
    hide MostRecent, SomeKept;
    var was := Remembered(history, pane.id);
    var earlier := Outside(Inside(was, Elements(pane.tabs)), {previous, key});
    var more := if previous != "" && previous != key && previous in pane.tabs then [previous] else [];
    assert Remembered(Remember(history, pane, key, previous), pane.id) == earlier + more + [key];
    MostRecentOf(earlier + more, [key], kept, x);
    MostRecentOne(key, kept, x);
    if key !in kept {
      MostRecentOf(earlier, more, kept, x);
      MostRecentOne(previous, kept, x);
      assert !SomeKept([], kept) by { NothingIsKept(kept); }
      if previous !in kept {
        assert earlier + more == earlier || !SomeKept(more, kept);
        LeavingOut(was, Elements(pane.tabs), {previous, key}, kept, x);
      }
    }
  }

  /** Trimming a record says nothing else about the tabs the pane has. */
  lemma TrimmedShows(history: History, pane: PaneState, kept: seq<string>, x: string)
    requires forall k :: k in kept ==> k in pane.tabs
    ensures MostRecent(Remembered(Trim(history, pane), pane.id), kept, x)
            <==> MostRecent(Remembered(history, pane.id), kept, x)
    ensures forall id :: id != pane.id ==> Remembered(Trim(history, pane), id) == Remembered(history, id)
  {
    hide MostRecent;
    var was, wanted := Remembered(history, pane.id), Elements(pane.tabs);
    LeavingOut(was, wanted, {}, kept, x);
    NothingOut(Inside(was, wanted));
    assert Remembered(Trim(history, pane), pane.id) == Inside(was, wanted);
  }

  lemma {:induction false} NothingOut(keys: seq<string>)
    ensures Outside(keys, {}) == keys
  {
    if keys != [] { NothingOut(keys[1..]); }
  }

  // ---------------------------------------------------------------- the records of a workspace

  /** What a pane's record says of these tabs. */
  ghost predicate Recalls(ws: Workspace, id: string, kept: seq<string>, x: string) {
    MostRecent(Remembered(ws.history, id), kept, x)
  }

  /** Activating a tab makes it the one its pane showed last, and the tab the pane showed the one
      before it; all records else say what they said. */
  lemma ActivationIsRecorded(ws: Workspace, key: string, id: string, kept: seq<string>, x: string)
    requires WellFormed(ws) && "" !in Keys(ws.tabs) && key in Keys(ws.tabs)
    requires exists p :: p in Leaves(ws.layout.value) && p.id == id && forall k :: k in kept ==> k in p.tabs
    ensures var panes := Leaves(ws.layout.value); var i := PaneOf(panes, key);
            && i >= 0
            && (Recalls(ActivateTab(ws, key), id, kept, x)
                <==> if id != panes[i].id then Recalls(ws, id, kept, x)
                     else if key in kept then x == key
                     else if panes[i].active in kept then x == panes[i].active
                     else Recalls(ws, id, kept, x))
  {
    hide MostRecent, Flat, Leaves, Remember, Remembered;
    var panes := Leaves(ws.layout.value);
    var i := PaneOf(panes, key);
    NamedKeys(ws);
    var p :| p in panes && p.id == id && forall k :: k in kept ==> k in p.tabs;
    FirstHolder(panes, key);
    assert panes[i] in panes;
    if id == panes[i].id {
      SameIds(panes, p, i);
      RememberedShows(ws.history, panes[i], key, panes[i].active, kept, x);
    } else {
      RememberedShows(ws.history, panes[i], key, panes[i].active, [], x);
    }
  }

  lemma SameIds(panes: seq<PaneState>, p: PaneState, i: nat)
    requires i < |panes| && Distinct(Ids(panes)) && p in panes && p.id == panes[i].id
    ensures p == panes[i]
  {
    hide Ids, Distinct, IndexOf;
    var j :| 0 <= j < |panes| && panes[j] == p;
    ShownByIndex(panes, i);
    ShownByIndex(panes, j);
  }

  lemma NothingIsKept(kept: seq<string>)
    ensures !SomeKept([], kept)
  {
  }

  /** Focusing a pane makes the tab it shows the one it showed last. */
  lemma FocusIsRecorded(ws: Workspace, i: nat, kept: seq<string>, x: string)
    requires WellFormed(ws) && "" !in Keys(ws.tabs)
    requires var panes := Leaves(ws.layout.value);
             i < |panes| && panes[i].active in Keys(ws.tabs) && forall k :: k in kept ==> k in panes[i].tabs
    ensures var pane := Leaves(ws.layout.value)[i];
            Recalls(FocusPane(ws, pane.id), pane.id, kept, x)
            <==> if pane.active in kept then x == pane.active else Recalls(ws, pane.id, kept, x)
  {
    hide MostRecent, Flat, Leaves, Remember, Remembered, Ids, Keys;
    var panes := Leaves(ws.layout.value);
    NamedKeys(ws);
    assert panes[i] in panes;
    ShownByIndex(panes, i);
    RememberedShows(ws.history, panes[i], panes[i].active, panes[i].active, kept, x);
  }

  /** Closing makes the tab a pane shows then the one it showed last. */
  lemma ClosedPaneRecalls(history: History, pane: PaneState, targets: set<string>, kept: seq<string>, x: string)
    requires "" !in pane.tabs && forall k :: k in kept ==> k in Outside(pane.tabs, targets)
    ensures var after := ClosedPane(history, pane, targets);
            MostRecent(Remembered(ClosedHistory(history, pane, targets), pane.id), kept, x)
            <==> if after.active in kept then x == after.active else MostRecent(Remembered(history, pane.id), kept, x)
  {
    hide MostRecent, Remembered, Remember, Trim, ClosedPane;
    var after := ClosedPane(history, pane, targets);
    ClosedPaneTabs(history, pane, targets);
    ClosedPaneSurvives(history, pane, targets);
    var pruned := if pane.active in targets then Trim(history, pane) else history;
    TrimmedShows(history, pane, kept, x);
    TrimmedShows(pruned, after, kept, x);
    if after.active != "" { RememberedShows(Trim(pruned, after), after, after.active, after.active, kept, x); }
  }

  lemma {:induction false} ClosedPanesRecall(history: History, panes: seq<PaneState>, targets: set<string>, i: nat,
      kept: seq<string>, x: string)
    requires i < |panes| && Distinct(Ids(panes)) && "" !in panes[i].tabs
    requires forall k :: k in kept ==> k in Outside(panes[i].tabs, targets)
    ensures var (after, records) := ClosedPanes(history, panes, targets);
            MostRecent(Remembered(records, panes[i].id), kept, x)
            <==> if after[i].active in kept then x == after[i].active
                 else MostRecent(Remembered(history, panes[i].id), kept, x)
    decreases |panes|
  {
    hide ClosedPanes, ClosedHistory, ClosedPane, Remembered, MostRecent, Outside, Distinct;
    FirstThenRest(history, panes, targets);
    var rest, next := panes[1..], ClosedHistory(history, panes[0], targets);
    var ids := Ids(panes);
    FirstAlone(panes);
    if i == 0 {
      ClosedPaneRecalls(history, panes[0], targets, kept, x);
      ClosedLater(next, rest, targets, panes[0].id);
    } else {
      DistinctTail(ids);
      assert rest[i - 1] == panes[i] && panes[i] in rest && ids[1..] == Ids(rest);
      ClosedPanesRecall(next, rest, targets, i - 1, kept, x);
      ClosedRecordsApart(history, panes[0], targets, panes[i].id);
    }
  }

  lemma FirstThenRest(history: History, panes: seq<PaneState>, targets: set<string>)
    requires panes != []
    ensures var rest := ClosedPanes(ClosedHistory(history, panes[0], targets), panes[1..], targets);
            ClosedPanes(history, panes, targets) == ([ClosedPane(history, panes[0], targets)] + rest.0, rest.1)
  {
  }

  lemma FirstAlone(panes: seq<PaneState>)
    requires panes != [] && Distinct(Ids(panes))
    ensures forall p :: p in panes[1..] ==> p.id != panes[0].id
  {
    hide Ids;
    var ids := Ids(panes);
    forall p | p in panes[1..] ensures p.id != panes[0].id {
      var j :| 0 <= j < |panes[1..]| && panes[1..][j] == p;
      assert ids[j + 1] == p.id && ids[0] == panes[0].id;
    }
  }

  lemma {:induction false} ClosedLater(history: History, panes: seq<PaneState>, targets: set<string>, id: string)
    requires forall p :: p in panes ==> p.id != id
    ensures Remembered(ClosedPanes(history, panes, targets).1, id) == Remembered(history, id)
    decreases |panes|
  {
    hide ClosedHistory, ClosedPane, Remembered;
    if panes != [] {
      assert panes[0] in panes;
      ClosedRecordsApart(history, panes[0], targets, id);
      ClosedLater(ClosedHistory(history, panes[0], targets), panes[1..], targets, id);
    }
  }

  lemma RecordsSurvive(ws: Workspace, preferred: string)
    ensures Normalize(ws, preferred).history == ws.history && Reconcile(ws).history == ws.history
    ensures Refocused(ws).history == ws.history
  {
    hide FilterPanes, Adopt, Choose, Prune, TabsInOrder, WithPanes, UsedIds, Leaves;
  }

  /** After closing, the tab a pane shows is the one it showed last, and of tabs without it the
      record says what it said. */
  lemma ClosingIsRecorded(ws: Workspace, keys: seq<string>, anchor: string, p: PaneState, kept: seq<string>, x: string)
    requires WellFormed(ws) && "" !in Keys(ws.tabs) && Targets(ws, keys) != {}
    requires var r := CloseTabs(ws, keys, anchor);
             r.tabs != [] && p in LeavesOf(r.layout) && forall k :: k in kept ==> k in p.tabs
    ensures Recalls(CloseTabs(ws, keys, anchor), p.id, kept, x)
            <==> if p.active in kept then x == p.active else Recalls(ws, p.id, kept, x)
  {
    hide MostRecent, Leaves, Keys, Flat, ClosedPanes, Reconcile, Refocused, Normalize, Remembered, Targets, Survivors;
    var targets, panes := Targets(ws, keys), Leaves(ws.layout.value);
    var (after, records) := ClosedPanes(ws.history, panes, targets);
    ClosingKeepsSurvivors(ws, targets, anchor);
    NamedKeys(ws);
    ClosedPanesSurvive(ws.history, panes, targets);
    var i :| 0 <= i < |after| && after[i] == p;
    assert panes[i] in panes && p.id == panes[i].id && p.tabs == Outside(panes[i].tabs, targets) by {
      SurvivorAt(panes, after, targets, i);
    }
    ClosedPanesRecall(ws.history, panes, targets, i, kept, x);
    var closed := Closed(ws, targets, anchor);
    RecordsSurvive(closed, "");
    RecordsSurvive(Refocused(closed), "");
    assert closed.history == records by { ClosedRecords(ws, targets, anchor); }
  }

  lemma ClosedRecords(ws: Workspace, targets: set<string>, anchor: string)
    requires ws.layout.Some?
    ensures Closed(ws, targets, anchor).history == ClosedPanes(ws.history, Leaves(ws.layout.value), targets).1
  {
    hide ClosedPanes, Normalize, Leaves, WithPanes, TabsOutside;
    forall w, preferred { RecordsSurvive(w, preferred); }
  }

  lemma SurvivorAt(panes: seq<PaneState>, after: seq<PaneState>, targets: set<string>, i: nat)
    requires Survivors(panes, after, targets) && i < |panes|
    ensures |after| == |panes| && after[i].id == panes[i].id && after[i].tabs == Outside(panes[i].tabs, targets)
  {
  }

  // ---------------------------------------------------------------- going back

  /** The pane shows the key beside others and will show `back` without it. */
  ghost predicate Over(history: History, pane: PaneState, key: string, back: PaneState) {
    && pane.active == key && back.id == pane.id && back.tabs == Outside(pane.tabs, {key}) && back.active in back.tabs
    && forall x :: MostRecent(Remembered(history, pane.id), back.tabs, x) <==> x == back.active
  }

  lemma BackIsThere(history: History, pane: PaneState, key: string, back: PaneState)
    ensures Over(history, pane, key, back) ==> back.active in pane.tabs && back.active != key && back.id == pane.id
  {
  }

  /** Closing the key gives back these panes. */
  lemma ClosedGivesBack(history: History, panes: seq<PaneState>, i: nat, key: string, back: PaneState,
      after: seq<PaneState>)
    requires i < |panes| && Over(history, panes[i], key, back)
    requires forall j :: 0 <= j < |panes| && j != i ==> key !in panes[j].tabs && panes[j].active in panes[j].tabs
    requires Survivors(panes, after, {key}) && AllShow(history, panes, after, {key})
    ensures after == panes[i := back] && NonEmpty(after) == after
  {
    hide MostRecent, NonEmpty, Remembered;
    assert ShowsAfterClosing(Remembered(history, panes[i].id), panes[i], after[i], {key});
    assert MostRecent(Remembered(history, panes[i].id), back.tabs, back.active);
    forall j | 0 <= j < |panes| && j != i ensures after[j] == panes[j] { Untouched(panes[j].tabs, key); }
    AllNonEmpty(after);
  }

  lemma {:induction false} Untouched(keys: seq<string>, key: string)
    requires key !in keys
    ensures Outside(keys, {key}) == keys
  {
    if keys != [] { Untouched(keys[1..], key); }
  }

  lemma {:induction false} AllNonEmpty(panes: seq<PaneState>)
    requires forall j :: 0 <= j < |panes| ==> panes[j].tabs != []
    ensures NonEmpty(panes) == panes
  {
    if panes != [] { AllNonEmpty(panes[1..]); }
  }

  lemma OthersStay(ws: Workspace, key: string, i: nat)
    requires WellFormed(ws)
    requires var panes := Leaves(ws.layout.value); i < |panes| && key in panes[i].tabs
    ensures var panes := Leaves(ws.layout.value);
            forall j :: 0 <= j < |panes| && j != i ==> key !in panes[j].tabs && panes[j].active in panes[j].tabs
  {
    hide Leaves, Flat;
    var panes := Leaves(ws.layout.value);
    FirstHolder(panes, key);
    forall j | 0 <= j < |panes| && j != i ensures panes[j].active in panes[j].tabs { assert panes[j] in panes; }
  }

  lemma TabOfKey(ws: Workspace, i: nat, key: string)
    requires WellFormed(ws)
    requires var panes := Leaves(ws.layout.value); i < |panes| && key in panes[i].tabs
    ensures exists t :: t in ws.tabs && t.key == key
  {
    hide Leaves, Flat;
    FlatSplit(Leaves(ws.layout.value), i);
    var keys := Keys(ws.tabs);
    assert key in keys;
    var n :| 0 <= n < |keys| && keys[n] == key;
    assert ws.tabs[n].key == key;
  }

  /** The focus stays on the pane, which shows the tab it goes back to. */
  lemma FocusedOn(r: Workspace, panes: seq<PaneState>, focused: string, anchor: string, i: nat, back: PaneState)
    requires r.layout.Some? && i < |panes| && Distinct(Ids(panes)) && panes[i].id == back.id == focused
    requires Leaves(r.layout.value) == panes[i := back] && r.active == Shown(r)
    requires FocusAfter(panes, focused, anchor, Ids(panes[i := back]), r.focused)
    ensures r.focused == back.id && r.active == back.active
  {
    hide Leaves, Ids, Choose, FocusAfter;
    var left := panes[i := back];
    assert Ids(left) == Ids(panes);
    assert Ids(left)[i] == focused;
    assert r.focused == focused by { FocusIn(panes, focused, anchor, Ids(left), r.focused); }
    ShownByIndex(left, i);
  }

  lemma FocusIn(panes: seq<PaneState>, focused: string, anchor: string, ids: seq<string>, after: string)
    requires focused in ids && FocusAfter(panes, focused, anchor, ids, after)
    ensures after == focused
  {
  }

  /** Closing a tab that is shown and focused, when its pane's record leads back. */
  lemma ClosingLeadsBack(ws: Workspace, key: string, anchor: string, i: nat, back: PaneState)
    requires WellFormed(ws) && "" !in Keys(ws.tabs) && Targets(ws, [key]) == {key}
    requires var panes := Leaves(ws.layout.value);
             && i < |panes| && ws.focused == panes[i].id && Over(ws.history, panes[i], key, back)
             && key in panes[i].tabs
    ensures var r := CloseTabs(ws, [key], anchor);
            && r.layout.Some? && Leaves(r.layout.value) == Leaves(ws.layout.value)[i := back]
            && r.focused == back.id && r.active == back.active
            && WellFormed(r) && forall t :: t in r.tabs <==> t in ws.tabs && t.key != key
  {
    hide Leaves, CloseTabs, Flat, Keys, Over, AllShow, Survivors, FocusAfter, Ids, Choose, Targets, NonEmpty;
    var r, panes := CloseTabs(ws, [key], anchor), Leaves(ws.layout.value);
    CloseTabsKeepsSurvivors(ws, [key], anchor);
    BackIsThere(ws.history, panes[i], key, back);
    TabOfKey(ws, i, back.active);
    OthersStay(ws, key, i);
    CloseTabsShows(ws, [key], anchor);
    var after :| Survivors(panes, after, {key}) && AllShow(ws.history, panes, after, {key})
                 && Leaves(r.layout.value) == NonEmpty(after);
    ClosedGivesBack(ws.history, panes, i, key, back, after);
    FocusedOn(r, panes, ws.focused, anchor, i, back);
  }

  /** Closing a tab that was activated goes back to the tab that its pane showed before, whatever
      its record said. */
  lemma ClosingGoesBack(ws: Workspace, key: string, anchor: string, i: nat)
    requires WellFormed(ws) && "" !in Keys(ws.tabs) && !Pinned(ws.tabs, key)
    requires var panes := Leaves(ws.layout.value); i < |panes| && key in panes[i].tabs && panes[i].active != key
    ensures var panes := Leaves(ws.layout.value);
            var r := CloseTabs(ActivateTab(ws, key), [key], anchor);
            && WellFormed(r) && r.layout.Some?
            && Leaves(r.layout.value) == panes[i := panes[i].(tabs := Outside(panes[i].tabs, {key}))]
            && r.focused == panes[i].id && r.active == panes[i].active
            && forall t :: t in r.tabs <==> t in ws.tabs && t.key != key
  {
    hide Leaves, CloseTabs, Flat, Keys, Over, Remember, Remembered, MostRecent, WithPanes, Pinned, Outside, Distinct;
    hide Shown, PaneOf;
    var panes := Leaves(ws.layout.value);
    var back := panes[i].(tabs := Outside(panes[i].tabs, {key}));
    NamedKeys(ws);
    assert panes[i] in panes;
    OthersStay(ws, key, i);
    FirstHolder(panes, key);
    assert PaneOf(panes, key) == i;
    FlatSplit(panes, i);
    ActivateTabWellFormed(ws, key);
    LeavesUpdated(ws.layout.value, i, panes[i].(active := key));
    var a := ActivateTab(ws, key);
    RememberedOver(ws.history, panes[i], panes[i].(active := key), key, back);
    ShownIsNotRecorded(ws.history, panes[i], key);
    assert Targets(a, [key]) == {key};
    ClosingLeadsBack(a, key, anchor, i, back);
  }

  lemma ShownIsNotRecorded(history: History, pane: PaneState, key: string)
    ensures Remember(history, pane.(active := key), key, pane.active) == Remember(history, pane, key, pane.active)
  {
  }

  /** After the key was remembered over the tab the pane showed. */
  lemma RememberedOver(history: History, pane: PaneState, after: PaneState, key: string, back: PaneState)
    requires key != "" && pane.active in pane.tabs && pane.active != key && "" !in pane.tabs
    requires after.id == pane.id && after.active == key && key in after.tabs
    requires back == pane.(tabs := Outside(after.tabs, {key}))
    requires pane.active in after.tabs && "" !in after.tabs
    ensures Over(Remember(history, after, key, pane.active), after, key, back)
  {
    hide MostRecent, Remember, Remembered;
    forall x ensures MostRecent(Remembered(Remember(history, after, key, pane.active), after.id), back.tabs, x)
                     <==> x == back.active
    {
      RememberedShows(history, after, key, pane.active, back.tabs, x);
    }
  }

  /** Without a welcome tab there is none to lose. */
  lemma NoWelcomeStays(ws: Workspace, key: string)
    requires WellFormed(ws) && "" !in Keys(ws.tabs) && ws.tabs != [] && WELCOME !in Keys(ws.tabs)
    ensures WithoutWelcome(ws, key) == ws
  {
    hide Leaves, Flat, Normalize, TabsInOrder, Distinct;
    var panes := Leaves(ws.layout.value);
    WellFormedIsConsistent(ws);
    NoneLost(panes);
    WithOwnPanes(ws.layout.value);
    NoTabLost(ws.tabs, WELCOME);
    NormalizeConsistent(ws, ws.focused);
    InOrderSame(ws.tabs, 0);
    assert ws.tabs[0..] == ws.tabs;
  }

  lemma {:induction false} NoTabLost(tabs: seq<Tab>, key: string)
    requires key !in Keys(tabs)
    ensures TabsOutside(tabs, {key}) == tabs
  {
    if tabs != [] {
      assert Keys(tabs)[0] == tabs[0].key && Keys(tabs)[1..] == Keys(tabs[1..]);
      NoTabLost(tabs[1..], key);
    }
  }

  lemma {:induction false} NoneLost(panes: seq<PaneState>)
    requires WELCOME !in Flat(panes) && forall p :: p in panes ==> Fits(p)
    ensures LoseWelcome(panes) == panes
  {
    if panes != [] {
      assert panes[0] in panes && Fits(panes[0]);
      Untouched(panes[0].tabs, WELCOME);
      NoneLost(panes[1..]);
    }
  }

  /** A tab that is new opens in one pane and is remembered there over the tab it showed. */
  lemma OpenedRemembers(ws: Workspace, tab: Tab, executing: string)
    requires WellFormed(ws) && "" !in Keys(ws.tabs) && ws.tabs != [] && WELCOME !in Keys(ws.tabs)
    requires tab.key != "" && tab.key != WELCOME && tab.key !in Keys(ws.tabs)
    ensures var panes := Leaves(ws.layout.value);
            var i := OpensIn(panes, tab.key, executing, ws.focused);
            var a := AddTab(ws, tab, executing);
            && a.layout.Some? && EnteredAt(panes, Leaves(a.layout.value), i, tab.key)
            && a.focused == panes[i].id
            && a.history == Remember(ws.history, Leaves(a.layout.value)[i], tab.key, panes[i].active)
  {
    hide Leaves, Flat, Keys, Remember, WithPanes, Reconcile, EnteredAt, OpenTab, InsertAfter, TabsInOrder, Choose;
    hide WithoutWelcome, Fits, Distinct;
    NoWelcomeStays(ws, tab.key);
    var panes := Leaves(ws.layout.value);
    var i := OpensIn(panes, tab.key, executing, ws.focused);
    OpenedConsistent(ws, tab, executing);
    OpenedEntersOne(ws, tab, executing);
    ReconcileConsistent(Opened(ws, tab, executing));
    OpenedRecord(ws, tab, executing);
  }

  lemma OpenedRecord(ws: Workspace, tab: Tab, executing: string)
    requires ws.layout.Some? && tab.key !in Flat(Leaves(ws.layout.value))
    ensures var panes := Leaves(ws.layout.value);
            var i := OpeningPane(ws, tab.key, executing);
            var o := Opened(ws, tab, executing);
            && i == OpensIn(panes, tab.key, executing, ws.focused)
            && o.layout.Some? && |Leaves(o.layout.value)| == |panes|
            && o.focused == panes[i].id
            && o.history == Remember(ws.history, Leaves(o.layout.value)[i], tab.key, panes[i].active)
  {
    hide Leaves, Flat, OpenTab, InsertAfter, Choose, WithPanes, Remember;
    var panes := Leaves(ws.layout.value);
    var i := OpeningPane(ws, tab.key, executing);
    if tab.key in panes[i].tabs { FlatSplit(panes, i); }
    var anchor := if panes[i].active != "" then panes[i].active else ws.active;
    var pane := panes[i].(tabs := InsertAfter(panes[i].tabs, anchor, tab.key));
    LeavesUpdated(ws.layout.value, i, pane.(active := tab.key));
    ShownIsNotRecorded(ws.history, pane, tab.key);
  }

  lemma TakenOutAgain(pane: PaneState, tabs: seq<string>, key: string, n: nat)
    requires Follows(pane, tabs, key, n) && key !in pane.tabs
    ensures Outside(tabs, {key}) == pane.tabs && key in tabs && forall k :: k in tabs ==> k == key || k in pane.tabs
    ensures forall k :: k in pane.tabs ==> k in tabs
  {
    var a, b := pane.tabs[..n + 1], pane.tabs[n + 1..];
    assert pane.tabs == a + b && tabs == a + ([key] + b);
    OutsideAppend(a, [key] + b, {key});
    OutsideAppend([key], b, {key});
    Untouched(a, key);
    Untouched(b, key);
    assert Outside([key], {key}) == [] by { assert [key][1..] == []; }
  }

  /** The new tab is not pinned, and the others are as they were. */
  lemma OpenedTabs(ws: Workspace, tab: Tab, tabs: seq<Tab>)
    requires Distinct(Keys(ws.tabs)) && Renewed(ws.tabs, tabs, tab) && tab.key !in Keys(ws.tabs) && !tab.pinned
    requires Elements(Keys(tabs)) == Elements(Keys(ws.tabs)) + {tab.key}
    ensures !Pinned(tabs, tab.key)
    ensures forall t :: t in tabs && t.key != tab.key <==> t in ws.tabs
  {
    hide IndexOf;
    var at := IndexOf(Keys(tabs), tab.key);
    if at >= 0 { assert tabs[at] in tabs && tabs[at].key == tab.key; }
    forall t | t in ws.tabs ensures t in tabs && t.key != tab.key { OpenedKeeps(ws, tab, tabs, t); }
  }

  lemma OpenedKeeps(ws: Workspace, tab: Tab, tabs: seq<Tab>, t: Tab)
    requires Distinct(Keys(ws.tabs)) && Renewed(ws.tabs, tabs, tab) && tab.key !in Keys(ws.tabs)
    requires Elements(Keys(tabs)) == Elements(Keys(ws.tabs)) + {tab.key} && t in ws.tabs
    ensures t in tabs && t.key != tab.key
  {
    hide Keys;
    var keys, own := Keys(tabs), Keys(ws.tabs);
    var n :| 0 <= n < |ws.tabs| && ws.tabs[n] == t;
    assert own[n] == t.key && t.key in Elements(own) && t.key in Elements(keys);
    var m :| 0 <= m < |keys| && keys[m] == t.key;
    assert tabs[m] in tabs && tabs[m].key == t.key;
    var o :| 0 <= o < |ws.tabs| && ws.tabs[o] == tabs[m];
    assert own[o] == own[n];
  }

  /** Closing a tab that was just opened undoes the opening: all panes are as they were, the focus
      is on the pane in which it opened, and the tab that pane shows is the active one. */
  lemma ClosingUndoesOpening(ws: Workspace, tab: Tab, executing: string, anchor: string)
    requires WellFormed(ws) && "" !in Keys(ws.tabs) && ws.tabs != [] && WELCOME !in Keys(ws.tabs)
    requires tab.key != "" && tab.key != WELCOME && tab.key !in Keys(ws.tabs) && !tab.pinned
    ensures var panes := Leaves(ws.layout.value);
            var r := CloseTabs(AddTab(ws, tab, executing), [tab.key], anchor);
            && WellFormed(r) && r.layout.Some? && Leaves(r.layout.value) == panes
            && (forall t :: t in r.tabs <==> t in ws.tabs)
            && exists p :: p in panes && r.focused == p.id && r.active == p.active
  {
    hide Leaves, CloseTabs, AddTab, Flat, Keys, Over, Remember, Remembered, MostRecent, Pinned, Renewed, Outside;
    hide OpensIn, Remain, Shown;
    var a, panes := AddTab(ws, tab, executing), Leaves(ws.layout.value);
    var i := OpensIn(panes, tab.key, executing, ws.focused);
    AddTabOpens(ws, tab, executing);
    AddTabKeepsOthers(ws, tab, executing);
    OpenedRemembers(ws, tab, executing);
    assert WELCOME !in Elements(Keys(ws.tabs));
    OpenedTabs(ws, tab, a.tabs);
    var after := Leaves(a.layout.value)[i];
    OpenedOver(ws, i, tab.key, after);
    assert Targets(a, [tab.key]) == {tab.key};
    assert "" !in Keys(a.tabs) by { assert "" !in Elements(Keys(a.tabs)); }
    ClosingLeadsBack(a, tab.key, anchor, i, panes[i]);
    assert Leaves(a.layout.value)[i := panes[i]] == panes;
  }

  lemma OpenedOver(ws: Workspace, i: nat, key: string, after: PaneState)
    requires WellFormed(ws) && "" !in Keys(ws.tabs) && ws.tabs != [] && key !in Keys(ws.tabs) && key != ""
    requires var panes := Leaves(ws.layout.value); i < |panes| && Entered(panes[i], after, key)
    ensures var pane := Leaves(ws.layout.value)[i];
            Over(Remember(ws.history, after, key, pane.active), after, key, pane) && key in after.tabs
  {
    hide Leaves, Flat, Keys, Over, Remember, Follows;
    var panes := Leaves(ws.layout.value);
    var pane := panes[i];
    NamedKeys(ws);
    assert pane in panes;
    FlatSplit(panes, i);
    WellFormedIsConsistent(ws);
    var n :| Follows(pane, after.tabs, key, n);
    TakenOutAgain(pane, after.tabs, key, n);
    RememberedOver(ws.history, pane, after, key, pane);
  }
}
