/**
 Moving a tab within its pane, and dropping it on another pane or beside one.
 */
module WorkspaceDrops {
  import opened Common
  import opened WorkspaceLayout
  import opened WorkspaceInvariant
  import opened WorkspaceOperations
  import opened WorkspaceTheorems

  // ---------------------------------------------------------------- taking a key out, putting it in

  lemma OutsideAlone(keys: seq<string>, key: string)
    ensures key !in keys ==> Outside(keys, {key}) == keys
  {
    if keys != [] { OutsideAlone(keys[1..], key); }
  }

  /** Inserting a key somewhere leaves the other keys in their order. */
  lemma InsertOutside(keys: seq<string>, i: nat, key: string)
    requires i <= |keys| && key !in keys
    ensures Outside(Insert(keys, i, key), {key}) == keys
  {
    hide Outside;
    var a, b := keys[..i], keys[i..];
    assert keys == a + b;
    OutsideAppend(a + [key], b, {key});
    OutsideAppend(a, [key], {key});
    OutsideAlone(a, key);
    OutsideAlone(b, key);
    JustKey(key);
  }

  lemma JustKey(key: string)
    ensures Outside([key], {key}) == []
  {
  }

  /** Taking a key out is leaving it outside. */
  lemma RemovedKey(keys: seq<string>, i: nat)
    requires i < |keys| && Distinct(keys)
    ensures var kept := keys[..i] + keys[i + 1..];
            && Distinct(kept) && keys[i] !in kept && kept == Outside(keys, {keys[i]})
            && Elements(kept) == Elements(keys) - {keys[i]}
  {
    var kept := keys[..i] + keys[i + 1..];
    assert keys == keys[..i] + [keys[i]] + keys[i + 1..];
    ThreeParts(keys[..i], [keys[i]], keys[i + 1..]);
    assert keys[i] in [keys[i]];
    InsertOutside(kept, i, keys[i]);
    assert Insert(kept, i, keys[i]) == keys;
    forall k ensures k in Elements(kept) <==> k in keys && k != keys[i] {
      assert k in kept <==> k in keys && k !in {keys[i]};
    }
  }

  // ---------------------------------------------------------------- moving

  /** Moving a tab puts it at the place asked for and keeps the order of the others. */
  lemma MovedKeys(keys: seq<string>, from: nat, to: nat)
    requires from < |keys| && to < |keys| && Distinct(keys)
    ensures var r := Moved(keys, from, to);
            && |r| == |keys| && r[to] == keys[from] && Distinct(r) && Elements(r) == Elements(keys)
            && Outside(r, {keys[from]}) == Outside(keys, {keys[from]})
  {
    var kept := keys[..from] + keys[from + 1..];
    RemovedKey(keys, from);
    InsertKeys(kept, to, keys[from]);
    InsertOutside(kept, to, keys[from]);
    assert keys[from] in Elements(keys);
  }

  /** The key at `from` is now at `to`, and all others are in their order. */
  predicate ShiftedTo(before: seq<string>, after: seq<string>, from: nat, to: nat) {
    && from < |before| && to < |after| && after[to] == before[from]
    && after[..to] + after[to + 1..] == before[..from] + before[from + 1..]
  }

  /** From there so many places on, but not beyond the first or the last of `n`. */
  predicate PlacesOn(from: nat, offset: int, n: nat, to: nat) {
    if from + offset < 0 then to == 0
    else if from + offset >= n then to == n - 1
    else to == from + offset
  }

  ghost predicate Goes(before: seq<string>, after: seq<string>, key: string, offset: int) {
    exists from: nat, to: nat ::
      ShiftedTo(before, after, from, to) && before[from] == key && PlacesOn(from, offset, |before|, to)
  }

  lemma MovedShifts(keys: seq<string>, from: nat, to: nat)
    requires from < |keys| && to < |keys|
    ensures ShiftedTo(keys, Moved(keys, from, to), from, to)
  {
    var r, kept := Moved(keys, from, to), keys[..from] + keys[from + 1..];
    assert r[..to] == kept[..to] && r[to + 1..] == kept[to..];
  }

  lemma ClampPlaces(from: nat, offset: int, n: nat)
    requires n > 0
    ensures 0 <= Clamp(from + offset, 0, n - 1) < n && PlacesOn(from, offset, n, Clamp(from + offset, 0, n - 1))
  {
  }

  /** What moving the tab `key` makes of the panes. */
  ghost predicate MovedWithin(before: seq<PaneState>, after: seq<PaneState>, key: string, offset: int) {
    && |after| == |before|
    && forall i :: 0 <= i < |before| ==>
         if key !in before[i].tabs then after[i] == before[i]
         else
           && after[i].id == before[i].id && after[i].active == before[i].active
           && Goes(before[i].tabs, after[i].tabs, key, offset)
  }

  lemma FirstHolder(panes: seq<PaneState>, key: string)
    requires Distinct(Flat(panes))
    ensures var i := PaneOf(panes, key);
            && (i < 0 <==> key !in Flat(panes))
            && (i >= 0 ==> key !in Others(panes, i))
            && forall j :: 0 <= j < |panes| && j != i ==> key !in panes[j].tabs
  {
    hide PaneOf, Flat;
    var i := PaneOf(panes, key);
    if i >= 0 {
      SplitOthers(panes, i);
      KeysOfOthers(panes, i, key);
    }
    forall j | 0 <= j < |panes| && j != i ensures key !in panes[j].tabs {
      SplitOthers(panes, j);
      KeysOfOthers(panes, j, key);
      if i >= 0 && key in panes[j].tabs { KeysElsewhere(panes, i, j, key); }
    }
  }

  lemma KeysElsewhere(panes: seq<PaneState>, i: nat, j: nat, key: string)
    requires i < |panes| && j < |panes| && i != j && key in panes[j].tabs
    ensures key in Others(panes, i)
  {
    if j < i { FlatSplit(panes[..i], j); }
    else { FlatSplit(panes[i + 1..], j - i - 1); }
  }

  /** Moving a tab: everything stays well formed, the tab is `offset` places further in its pane
      or at its end, all other tabs keep their order, and what is shown does not change. */
  lemma MoveTabMoves(ws: Workspace, key: string, offset: int)
    requires WellFormed(ws) && "" !in Keys(ws.tabs)
    ensures var r := MoveTab(ws, key, offset);
            && WellFormed(r) && r.active == ws.active && r.focused == ws.focused && r.history == ws.history
            && MovedWithin(Leaves(ws.layout.value), Leaves(r.layout.value), key, offset)
            && (forall t :: t in r.tabs <==> t in ws.tabs)
  {
    hide Leaves, WithPanes, Flat, Keys, Reconcile, Normalize, Moved, IndexOf, Outside, WellFormed, MovedWithin, PaneOf;
    hide Goes, Clamp;
    DistinctKeys(ws);
    var panes := Leaves(ws.layout.value);
    var i := PaneOf(panes, key);
    FirstHolder(panes, key);
    if i >= 0 {
      var from := IndexOf(panes[i].tabs, key);
      var to := Clamp(from + offset, 0, |panes[i].tabs| - 1);
      ClampPlaces(from, offset, |panes[i].tabs|);
      if to != from {
        MovingReconciles(ws, i, from, to);
        MovedShifts(panes[i].tabs, from, to);
        KeyGoes(panes[i].tabs, Moved(panes[i].tabs, from, to), key, offset, from, to);
        OneMovedWithin(panes, i, panes[i].(tabs := Moved(panes[i].tabs, from, to)), key, offset);
      } else {
        KeyGoes(panes[i].tabs, panes[i].tabs, key, offset, from, from);
        OneMovedWithin(panes, i, panes[i], key, offset);
        assert panes[i := panes[i]] == panes;
      }
    } else {
      NoneMovedWithin(panes, key, offset);
    }
  }

  lemma DistinctKeys(ws: Workspace)
    requires WellFormed(ws)
    ensures ws.layout.Some? && Distinct(Flat(Leaves(ws.layout.value)))
  {
  }

  lemma OneMovedWithin(panes: seq<PaneState>, i: nat, pane: PaneState, key: string, offset: int)
    requires i < |panes| && key in panes[i].tabs
    requires forall j :: 0 <= j < |panes| && j != i ==> key !in panes[j].tabs
    requires pane.id == panes[i].id && pane.active == panes[i].active
    requires Goes(panes[i].tabs, pane.tabs, key, offset)
    ensures MovedWithin(panes, panes[i := pane], key, offset)
  {
    hide Goes;
  }

  lemma KeyGoes(before: seq<string>, after: seq<string>, key: string, offset: int, from: nat, to: nat)
    requires ShiftedTo(before, after, from, to) && before[from] == key && PlacesOn(from, offset, |before|, to)
    ensures Goes(before, after, key, offset)
  {
  }

  lemma NoneMovedWithin(panes: seq<PaneState>, key: string, offset: int)
    requires forall j :: 0 <= j < |panes| ==> key !in panes[j].tabs
    ensures MovedWithin(panes, panes, key, offset)
  {
  }

  lemma MovingReconciles(ws: Workspace, i: nat, from: nat, to: nat)
    requires WellFormed(ws) && "" !in Keys(ws.tabs)
    requires i < |Leaves(ws.layout.value)|
    requires from < |Leaves(ws.layout.value)[i].tabs| && to < |Leaves(ws.layout.value)[i].tabs|
    ensures var panes := Leaves(ws.layout.value);
            var pane := panes[i].(tabs := Moved(panes[i].tabs, from, to));
            var x := ws.(layout := Some(WithPanes(ws.layout.value, panes[i := pane])));
            var r := Reconcile(Normalize(x, pane.id));
            && WellFormed(r) && r.active == ws.active && r.focused == ws.focused && r.history == ws.history
            && Leaves(r.layout.value) == panes[i := pane]
            && |pane.tabs| == |panes[i].tabs| && pane.tabs[to] == panes[i].tabs[from]
            && Outside(pane.tabs, {panes[i].tabs[from]}) == Outside(panes[i].tabs, {panes[i].tabs[from]})
            && forall t :: t in r.tabs <==> t in ws.tabs
  {
    hide Leaves, WithPanes, Flat, Keys, Reconcile, Normalize, Moved, TabsInOrder, Outside;
    var panes := Leaves(ws.layout.value);
    var pane := panes[i].(tabs := Moved(panes[i].tabs, from, to));
    var after := panes[i := pane];
    var x := ws.(layout := Some(WithPanes(ws.layout.value, after)));
    SplitOthers(panes, i);
    MovedKeys(panes[i].tabs, from, to);
    assert panes[i] in panes && Fits(panes[i]);
    forall k ensures k in pane.tabs <==> k in panes[i].tabs { assert k in Elements(pane.tabs) <==> k in pane.tabs; }
    UpdatePartition(panes, ws.tabs, i, pane, ws.tabs);
    LeavesUpdated(ws.layout.value, i, pane);
    KeysOfOthers(panes, i, panes[i].tabs[from]);
    MovedConsistent(ws, i, pane, x);
    NormalizeConsistent(x, pane.id);
    InOrderSet(ws.tabs, Flat(after));
    var n := Normalize(x, pane.id);
    assert Consistent(n);
    ConsistentReconciles(n);
    ReconcileConsistent(n);
    InOrderSet(n.tabs, Flat(after));
  }

  lemma MovedConsistent(ws: Workspace, i: nat, pane: PaneState, x: Workspace)
    requires WellFormed(ws) && "" !in Keys(ws.tabs) && ws.tabs != []
    requires i < |Leaves(ws.layout.value)|
    requires var panes := Leaves(ws.layout.value);
             && pane == panes[i].(tabs := pane.tabs) && pane.tabs != []
             && x == ws.(layout := x.layout) && x.layout.Some?
             && Leaves(x.layout.value) == panes[i := pane]
             && Partitioned(panes[i := pane], ws.tabs)
    ensures Consistent(x)
  {
    hide Leaves, Flat, Keys, Ids;
    var panes := Leaves(ws.layout.value);
    WellFormedIsConsistent(ws);
    IdsUpdate(panes, i, pane);
    var after := panes[i := pane];
    forall p: PaneState | p in after ensures p.tabs != [] {
      var j :| 0 <= j < |panes| && after[j] == p;
      assert panes[j] in panes;
    }
  }

  lemma {:induction false} InOrderHas(tabs: seq<Tab>, order: seq<string>, key: string)
    requires key in order && key in Keys(tabs)
    ensures TabOf(tabs, key) in TabsInOrder(tabs, order)
    decreases |order|
  {
    if order[0] != key { InOrderHas(tabs, order[1..], key); }
  }

  lemma InOrderSet(tabs: seq<Tab>, order: seq<string>)
    requires Distinct(Keys(tabs)) && Elements(order) == Elements(Keys(tabs))
    ensures forall k :: k in order ==> k in Keys(tabs)
    ensures forall t :: t in TabsInOrder(tabs, order) <==> t in tabs
  {
    hide Keys, Distinct, TabOf, TabsInOrder;
    forall k ensures k in order <==> k in Keys(tabs) { assert k in Elements(order) <==> k in Elements(Keys(tabs)); }
    InOrderRecords(tabs, order);
    forall t | t in tabs ensures t in TabsInOrder(tabs, order) {
      var i :| 0 <= i < |tabs| && tabs[i] == t;
      TabOfDistinct(tabs, i);
      InOrderHas(tabs, order, t.key);
    }
  }

  // ---------------------------------------------------------------- fresh pane names

  lemma {:induction false} DigitsTell(a: nat, b: nat)
    requires Digits(a) == Digits(b)
    ensures a == b
    decreases a
  {
    var x, y := Digits(a), Digits(b);
    LastDigit(a);
    LastDigit(b);
    assert a % 10 == b % 10;
    if a >= 10 && b >= 10 {
      assert x[..|x| - 1] == Digits(a / 10) && y[..|y| - 1] == Digits(b / 10);
      DigitsTell(a / 10, b / 10);
    }
  }

  lemma LastDigit(n: nat)
    ensures var s := Digits(n);
            && s[|s| - 1] == '0' + (n % 10) as char
            && (|s| == 1 <==> n < 10)
  {
  }

  lemma PaneNamesTell(a: nat, b: nat)
    requires PaneName(a) == PaneName(b)
    ensures a == b
  {
    assert PaneName(a)[5..] == Digits(a) && PaneName(b)[5..] == Digits(b);
    DigitsTell(a, b);
  }

  /** All names before the next one are in use. */
  lemma {:induction false} NextNameIsFirst(serial: nat, used: set<string>, k: nat)
    requires serial < k < NextSerial(serial, used)
    ensures PaneName(k) in used
    decreases |used|
  {
    var name := PaneName(serial + 1);
    if name in used && k != serial + 1 { NextNameIsFirst(serial + 1, used - {name}, k); }
  }

  /** The next pane name is not one in use. */
  lemma {:induction false} NextNameIsFresh(serial: nat, used: set<string>)
    ensures PaneName(NextSerial(serial, used)) !in used
    decreases |used|
  {
    var name := PaneName(serial + 1);
    if name in used {
      NextNameIsFresh(serial + 1, used - {name});
      var next := NextSerial(serial + 1, used - {name});
      if PaneName(next) == name { PaneNamesTell(next, serial + 1); }
    }
  }

  // ---------------------------------------------------------------- splitting a pane

  lemma {:induction false} ReplaceNothing(layout: Layout, target: string, replacement: Layout)
    requires target !in Ids(Leaves(layout))
    ensures Replace(layout, target, replacement) == layout
  {
    match layout
    case Leaf(pane) => assert Ids(Leaves(layout))[0] == pane.id;
    case Split(_, first, second) =>
      IdsAppend(Leaves(first), Leaves(second));
      ReplaceNothing(first, target, replacement);
      ReplaceNothing(second, target, replacement);
  }

  lemma {:induction false} IdsAppend(a: seq<PaneState>, b: seq<PaneState>)
    ensures Ids(a + b) == Ids(a) + Ids(b)
  {
    if a == [] {
      assert a + b == b;
    } else {
      assert (a + b)[1..] == a[1..] + b;
      IdsAppend(a[1..], b);
    }
  }

  /** Replacing a pane by a subtree puts the subtree's leaves in its place. */
  lemma {:induction false} ReplacedLeaves(layout: Layout, t: nat, replacement: Layout)
    requires t < |Leaves(layout)| && Distinct(Ids(Leaves(layout)))
    ensures var panes := Leaves(layout);
            Leaves(Replace(layout, panes[t].id, replacement)) == panes[..t] + Leaves(replacement) + panes[t + 1..]
    decreases layout
  {
    hide Ids, Distinct;
    match layout
    case Leaf(_) =>
    case Split(_, first, second) =>
      var a, b := Leaves(first), Leaves(second);
      IdsAppend(a, b);
      DistinctParts(Ids(a), Ids(b));
      SeamOfLeaves(a, b, t, Leaves(replacement));
      if t < |a| {
        assert a[t].id == Ids(a)[t];
        ReplacedLeaves(first, t, replacement);
        ReplaceNothing(second, a[t].id, replacement);
      } else {
        assert b[t - |a|].id == Ids(b)[t - |a|];
        ReplaceNothing(first, b[t - |a|].id, replacement);
        ReplacedLeaves(second, t - |a|, replacement);
      }
  }

  lemma SeamOfLeaves(a: seq<PaneState>, b: seq<PaneState>, t: nat, middle: seq<PaneState>)
    requires t < |a| + |b|
    ensures (a + b)[..t] + middle + (a + b)[t + 1..] ==
              if t < |a| then a[..t] + middle + a[t + 1..] + b
              else a + (b[..t - |a|] + middle + b[t - |a| + 1..])
  {
    var s := a + b;
    if t < |a| {
      assert s[..t] == a[..t] && s[t + 1..] == a[t + 1..] + b;
    } else {
      assert s[..t] == a + b[..t - |a|] && s[t + 1..] == b[t - |a| + 1..];
    }
  }

  /** A new pane for a key that no pane holds. */
  lemma InsertPanePartition(panes: seq<PaneState>, tabs: seq<Tab>, k: nat, pane: PaneState, keys: seq<Tab>)
    requires Partitioned(panes, tabs) && k <= |panes| && pane.id !in Ids(panes)
    requires pane.tabs == [pane.active] && pane.active !in Flat(panes)
    requires Elements(Keys(keys)) == Elements(Keys(tabs)) + {pane.active}
    ensures Partitioned(Insert(panes, k, pane), keys)
  {
    hide Flat, Ids, Keys;
    var a, b := panes[..k], panes[k..];
    assert panes == a + b && Insert(panes, k, pane) == a + [pane] + b;
    FlatAppend(a, b);
    FlatAppend(a + [pane], b);
    FlatAppend(a, [pane]);
    FlatOfOne(pane);
    IdsAppend(a, b);
    IdsAppend(a + [pane], b);
    IdsAppend(a, [pane]);
    InsertDistinct(Flat(a), [pane.active], Flat(b));
    InsertDistinct(Ids(a), [pane.id], Ids(b));
    assert Elements(Flat(a) + [pane.active] + Flat(b)) == Elements(Flat(a) + Flat(b)) + {pane.active};
  }

  // ---------------------------------------------------------------- dropping

  /** The panes right after a drop, before empty ones go. */
  function DroppedPanes(ws: Workspace, s: nat, t: nat, key: string, remembered: string, zone: Zone)
    : (r: seq<PaneState>)
    requires ws.layout.Some?
    requires s < |Leaves(ws.layout.value)| && t < |Leaves(ws.layout.value)|
    requires key in Leaves(ws.layout.value)[s].tabs
  {
    var all := Leaves(ws.layout.value);
    var panes := all[s := Bereft(all[s], key, remembered)];
    if zone.Center? then
      var tabs := panes[t].tabs;
      var at := Clamp(if zone.index.Some? then zone.index.value else |tabs|, 0, |tabs|);
      panes[t := PaneState(panes[t].id, Insert(tabs, at, key), key)]
    else
      var pane := PaneState(PaneName(NextSerial(ws.serial, UsedIds(ws))), [key], key);
      Insert(panes, if zone.Left? || zone.Top? then t else t + 1, pane)
  }

  /** Where the dropped tab ends up. */
  function Destination(ws: Workspace, target: string, zone: Zone): string {
    if zone.Center? then target else PaneName(NextSerial(ws.serial, UsedIds(ws)))
  }

  lemma BereftKeys(pane: PaneState, key: string, remembered: string)
    requires key in pane.tabs && Distinct(pane.tabs)
    ensures var p := Bereft(pane, key, remembered);
            && p.id == pane.id && Fits(p) && Distinct(p.tabs) && key !in p.tabs
            && p.tabs == Outside(pane.tabs, {key}) && Elements(p.tabs) == Elements(pane.tabs) - {key}
            && (pane.active in p.tabs ==> p.active == pane.active)
  {
    hide Outside;
    RemovedKey(pane.tabs, IndexOf(pane.tabs, key));
  }

  lemma TakenOut(ws: Workspace, s: nat, key: string, remembered: string)
    requires WellFormed(ws) && s < |Leaves(ws.layout.value)| && key in Leaves(ws.layout.value)[s].tabs
    ensures var all := Leaves(ws.layout.value);
            var panes := all[s := Bereft(all[s], key, remembered)];
            var rest := TabsOutside(ws.tabs, {key});
            && Partitioned(panes, rest) && key !in Flat(panes) && Ids(panes) == Ids(all)
            && Elements(Keys(rest)) == Elements(Keys(ws.tabs)) - {key}
            && key in Keys(ws.tabs)
  {
    hide Leaves, Flat, Keys, TabsOutside, Outside, Bereft;
    var all := Leaves(ws.layout.value);
    var pane := Bereft(all[s], key, remembered);
    var rest := TabsOutside(ws.tabs, {key});
    SplitOthers(all, s);
    BereftKeys(all[s], key, remembered);
    KeysOfOthers(all, s, key);
    forall k ensures k in Elements(Keys(rest)) <==> k in Elements(Keys(ws.tabs)) && k != key {
      assert k in Outside(Keys(ws.tabs), {key}) <==> k in Keys(ws.tabs) && k !in {key};
    }
    assert key in Elements(all[s].tabs) && key !in Elements(Others(all, s));
    assert Elements(Keys(rest)) == Elements(Others(all, s)) + Elements(pane.tabs);
    forall k | k in pane.tabs ensures k !in Others(all, s) { assert k in Elements(pane.tabs); }
    UpdatePartition(all, ws.tabs, s, pane, rest);
    IdsUpdate(all, s, pane);
    assert key !in Elements(Keys(rest));
  }

  lemma DroppedPartition(ws: Workspace, s: nat, t: nat, key: string, remembered: string, zone: Zone)
    requires WellFormed(ws)
    requires s < |Leaves(ws.layout.value)| && t < |Leaves(ws.layout.value)|
    requires key in Leaves(ws.layout.value)[s].tabs
    ensures Partitioned(DroppedPanes(ws, s, t, key, remembered, zone), ws.tabs)
  {
    hide Leaves, Flat, Keys, Bereft, TabsOutside, Ids, PaneName, NextSerial;
    var all := Leaves(ws.layout.value);
    var panes := all[s := Bereft(all[s], key, remembered)];
    var rest := TabsOutside(ws.tabs, {key});
    TakenOut(ws, s, key, remembered);
    assert key in Elements(Keys(ws.tabs)) && key !in Elements(Flat(panes));
    if zone.Center? {
      var tabs := panes[t].tabs;
      var at := Clamp(if zone.index.Some? then zone.index.value else |tabs|, 0, |tabs|);
      SplitOthers(panes, t);
      KeysOfOthers(panes, t, key);
      InsertKeys(tabs, at, key);
      var pane := PaneState(panes[t].id, Insert(tabs, at, key), key);
      assert key in Elements(pane.tabs);
      forall k | k in pane.tabs ensures k !in Others(panes, t) { assert k in Elements(pane.tabs); }
      UpdatePartition(panes, rest, t, pane, ws.tabs);
    } else {
      NextNameIsFresh(ws.serial, UsedIds(ws));
      var pane := PaneState(PaneName(NextSerial(ws.serial, UsedIds(ws))), [key], key);
      assert pane.id !in Ids(panes) by { assert pane.id !in Elements(Ids(all)); }
      InsertPanePartition(panes, rest, if zone.Left? || zone.Top? then t else t + 1, pane, ws.tabs);
    }
  }

  /** The state just before normalizing in `Dropped`. */
  function Placed(ws: Workspace, s: nat, t: nat, key: string, remembered: string, zone: Zone, splitId: string)
    : Workspace
    requires ws.layout.Some?
    requires s < |Leaves(ws.layout.value)| && t < |Leaves(ws.layout.value)|
    requires key in Leaves(ws.layout.value)[s].tabs
  {
    var all := Leaves(ws.layout.value);
    var panes := all[s := Bereft(all[s], key, remembered)];
    if zone.Center? then
      ws.(layout := Some(WithPanes(ws.layout.value, DroppedPanes(ws, s, t, key, remembered, zone))))
    else
      var serial := NextSerial(ws.serial, UsedIds(ws));
      var pane := Leaf(PaneState(PaneName(serial), [key], key));
      var beside := Leaf(panes[t]);
      var split := if zone.Left? || zone.Top? then Split(splitId, pane, beside) else Split(splitId, beside, pane);
      ws.(layout := Some(Replace(WithPanes(ws.layout.value, panes), panes[t].id, split)), serial := serial)
  }

  lemma PlacedPanes(ws: Workspace, s: nat, t: nat, key: string, remembered: string, zone: Zone, splitId: string)
    requires WellFormed(ws)
    requires s < |Leaves(ws.layout.value)| && t < |Leaves(ws.layout.value)|
    requires key in Leaves(ws.layout.value)[s].tabs
    ensures var x := Placed(ws, s, t, key, remembered, zone, splitId);
            && Leaves(x.layout.value) == DroppedPanes(ws, s, t, key, remembered, zone)
            && Dropped(ws, s, t, key, remembered, zone, splitId)
               == Landed(x, key, Destination(ws, Leaves(ws.layout.value)[t].id, zone))
  {
    hide Leaves, Landed, NextSerial, PaneName, Replace, WithPanes, Ids, Bereft, UsedIds;
    var all := Leaves(ws.layout.value);
    var panes := all[s := Bereft(all[s], key, remembered)];
    SameIds(all, s, key, remembered);
    assert panes[t].id == Ids(panes)[t] == all[t].id;
    if zone.Center? {
      LeavesOfWithPanes(ws.layout.value, DroppedPanes(ws, s, t, key, remembered, zone));
    } else {
      PlacedBeside(ws, s, t, key, remembered, zone, splitId);
    }
  }

  lemma PlacedBeside(ws: Workspace, s: nat, t: nat, key: string, remembered: string, zone: Zone, splitId: string)
    requires WellFormed(ws) && !zone.Center?
    requires s < |Leaves(ws.layout.value)| && t < |Leaves(ws.layout.value)|
    requires key in Leaves(ws.layout.value)[s].tabs
    ensures Leaves(Placed(ws, s, t, key, remembered, zone, splitId).layout.value)
            == DroppedPanes(ws, s, t, key, remembered, zone)
  {
    hide Leaves, Flat, Keys, NextSerial, PaneName, Replace, WithPanes, Ids, Bereft, Fits, UsedIds;
    var all := Leaves(ws.layout.value);
    var panes := all[s := Bereft(all[s], key, remembered)];
    var first := zone.Left? || zone.Top?;
    var pane := PaneState(PaneName(NextSerial(ws.serial, UsedIds(ws))), [key], key);
    SameIds(all, s, key, remembered);
    LeavesOfWithPanes(ws.layout.value, panes);
    var split := if first then Split(splitId, Leaf(pane), Leaf(panes[t]))
        else Split(splitId, Leaf(panes[t]), Leaf(pane));
    ReplacedLeaves(WithPanes(ws.layout.value, panes), t, split);
    PairLeaves(splitId, pane, panes[t]);
    PairLeaves(splitId, panes[t], pane);
    PairInPlace(panes, t, pane, first);
  }

  lemma PairLeaves(id: string, a: PaneState, b: PaneState)
    ensures Leaves(Split(id, Leaf(a), Leaf(b))) == [a, b]
  {
  }

  lemma SameIds(all: seq<PaneState>, s: nat, key: string, remembered: string)
    requires s < |all| && key in all[s].tabs
    ensures Ids(all[s := Bereft(all[s], key, remembered)]) == Ids(all)
  {
    IdsUpdate(all, s, Bereft(all[s], key, remembered));
  }

  lemma PairInPlace(panes: seq<PaneState>, t: nat, pane: PaneState, first: bool)
    requires t < |panes|
    ensures Insert(panes, if first then t else t + 1, pane)
            == panes[..t] + (if first then [pane, panes[t]] else [panes[t], pane]) + panes[t + 1..]
  {
  }

  lemma TakenOrder(ws: Workspace, s: nat, key: string, remembered: string)
    requires WellFormed(ws) && s < |Leaves(ws.layout.value)| && key in Leaves(ws.layout.value)[s].tabs
    ensures var all := Leaves(ws.layout.value);
            Flat(all[s := Bereft(all[s], key, remembered)]) == Outside(Flat(all), {key})
  {
    hide Leaves, Flat, Keys, Bereft, Outside, Ids;
    var all := Leaves(ws.layout.value);
    var bereft := Bereft(all[s], key, remembered);
    var panes := all[s := bereft];
    SplitOthers(all, s);
    BereftKeys(all[s], key, remembered);
    FlatSplit(all, s);
    FlatSplit(panes, s);
    assert panes[..s] == all[..s] && panes[s + 1..] == all[s + 1..];
    OutsideMiddle(Flat(all[..s]), all[s].tabs, Flat(all[s + 1..]), bereft.tabs, key);
  }

  lemma PutInOrder(panes: seq<PaneState>, t: nat, at: nat, key: string)
    requires t < |panes| && at <= |panes[t].tabs| && key !in Flat(panes)
    ensures Outside(Flat(panes[t := PaneState(panes[t].id, Insert(panes[t].tabs, at, key), key)]), {key}) == Flat(panes)
  {
    hide Flat, Outside;
    var after := panes[t := PaneState(panes[t].id, Insert(panes[t].tabs, at, key), key)];
    FlatSplit(panes, t);
    FlatSplit(after, t);
    assert after[..t] == panes[..t] && after[t + 1..] == panes[t + 1..];
    InsertOutside(panes[t].tabs, at, key);
    OutsideMiddle(Flat(panes[..t]), Insert(panes[t].tabs, at, key), Flat(panes[t + 1..]), panes[t].tabs, key);
  }

  lemma PutBeside(panes: seq<PaneState>, k: nat, pane: PaneState)
    requires k <= |panes| && pane.tabs == [pane.active] && pane.active !in Flat(panes)
    ensures Outside(Flat(Insert(panes, k, pane)), {pane.active}) == Flat(panes)
  {
    hide Flat, Outside;
    var a, b := panes[..k], panes[k..];
    assert panes == a + b;
    FlatAppend(a, b);
    FlatAppend(a + [pane], b);
    FlatAppend(a, [pane]);
    FlatOfOne(pane);
    JustKey(pane.active);
    assert Flat(a) + [] + Flat(b) == Flat(panes);
    OutsideMiddle(Flat(a), [pane.active], Flat(b), [], pane.active);
  }

  /** Apart from the dropped key, the panes hold the same keys in the same order. */
  lemma DroppedOrder(ws: Workspace, s: nat, t: nat, key: string, remembered: string, zone: Zone)
    requires WellFormed(ws)
    requires s < |Leaves(ws.layout.value)| && t < |Leaves(ws.layout.value)|
    requires key in Leaves(ws.layout.value)[s].tabs
    ensures Outside(Flat(DroppedPanes(ws, s, t, key, remembered, zone)), {key})
            == Outside(Flat(Leaves(ws.layout.value)), {key})
  {
    hide Leaves, Flat, Keys, Bereft, TabsOutside, Outside, PaneName, NextSerial, Ids;
    var all := Leaves(ws.layout.value);
    var panes := all[s := Bereft(all[s], key, remembered)];
    TakenOrder(ws, s, key, remembered);
    TakenOut(ws, s, key, remembered);
    if zone.Center? {
      var n := |panes[t].tabs|;
      PutInOrder(panes, t, Clamp(if zone.index.Some? then zone.index.value else n, 0, n), key);
    } else {
      var pane := PaneState(PaneName(NextSerial(ws.serial, UsedIds(ws))), [key], key);
      PutBeside(panes, if zone.Left? || zone.Top? then t else t + 1, pane);
    }
  }

  /** Leaving a key outside of a middle part. */
  lemma OutsideMiddle(a: seq<string>, m: seq<string>, b: seq<string>, rest: seq<string>, key: string)
    requires key !in a && key !in b && rest == Outside(m, {key})
    ensures Outside(a + m + b, {key}) == a + rest + b
  {
    OutsideAppend(a + m, b, {key});
    OutsideAppend(a, m, {key});
    OutsideAlone(a, key);
    OutsideAlone(b, key);
  }

  /** Where the tab lands: the destination holds it and shows it. */
  lemma LandedAt(ws: Workspace, s: nat, t: nat, key: string, remembered: string, zone: Zone)
    requires ws.layout.Some?
    requires s < |Leaves(ws.layout.value)| && t < |Leaves(ws.layout.value)|
    requires key in Leaves(ws.layout.value)[s].tabs
    ensures exists p :: p in DroppedPanes(ws, s, t, key, remembered, zone) && key in p.tabs && p.active == key
                     && p.id == Destination(ws, Leaves(ws.layout.value)[t].id, zone)
  {
    hide Leaves, NextSerial, PaneName;
    var all := Leaves(ws.layout.value);
    var panes := all[s := Bereft(all[s], key, remembered)];
    var i := if zone.Center? || zone.Left? || zone.Top? then t else t + 1;
    var p := DroppedPanes(ws, s, t, key, remembered, zone)[i];
    assert p.id == Destination(ws, all[t].id, zone);
    if zone.Center? {
      var at := Clamp(if zone.index.Some? then zone.index.value else |panes[t].tabs|, 0, |panes[t].tabs|);
      assert p.tabs[at] == key;
    } else {
      assert p.tabs[0] == key;
    }
  }

  /** Normalizing and focusing the pane that shows the dropped tab. */
  lemma LandedConsistent(x: Workspace, key: string, p: PaneState)
    requires x.layout.Some? && Partitioned(Leaves(x.layout.value), x.tabs) && "" !in Keys(x.tabs)
    requires p in Leaves(x.layout.value) && key in p.tabs && p.active == key
    ensures var n := Landed(x, key, p.id);
            && Consistent(n) && n.active == key && n.focused == p.id && n.history == x.history
            && LeavesOf(n.layout) == NonEmpty(Leaves(x.layout.value))
            && (forall t :: t in n.tabs ==> t in x.tabs)
            && Keys(n.tabs) == Flat(Leaves(x.layout.value))
  {
    hide Leaves, Normalize, NormalizeOver, Prune, Flat, Keys, TabsInOrder, Ids, Partitioned;
    var panes := Leaves(x.layout.value);
    HeldKey(panes, x.tabs, p, key);
    NormalizeOpen(x, p.id);
    PrunedLeaves(x.layout.value);
    NonEmptyFlat(panes);
    var pruned := Prune(x.layout.value).value;
    NormalizeOverPartition(x, pruned, p.id);
    PaneIsShown(Leaves(pruned), x.tabs, p);
    var n := Landed(x, key, p.id);
    SamePartition(Leaves(pruned), x.tabs, n.tabs);
    assert "" !in Elements(Keys(n.tabs));
    HeldKey(Leaves(pruned), n.tabs, p, key);
  }

  lemma HeldKey(panes: seq<PaneState>, tabs: seq<Tab>, p: PaneState, key: string)
    requires Partitioned(panes, tabs) && p in panes && key in p.tabs
    ensures tabs != []
  {
    hide Keys, Flat, Fits, Distinct, Ids;
    var i :| 0 <= i < |panes| && panes[i] == p;
    FlatSplit(panes, i);
    assert key in Elements(Flat(panes));
    TabsFromKey(tabs, key);
  }

  lemma PaneIsShown(panes: seq<PaneState>, tabs: seq<Tab>, p: PaneState)
    requires Partitioned(panes, tabs) && p in panes
    ensures p.id in Ids(panes) && panes[Choose(panes, p.id, p.id)] == p
  {
    hide Keys, Flat, Fits, Distinct;
    var i :| 0 <= i < |panes| && panes[i] == p;
    ShownByIndex(panes, i);
    assert Ids(panes)[i] == p.id;
  }

  lemma SamePartition(panes: seq<PaneState>, tabs: seq<Tab>, others: seq<Tab>)
    requires Partitioned(panes, tabs) && Keys(others) == Flat(panes)
    ensures Partitioned(panes, others) && Elements(Keys(others)) == Elements(Keys(tabs))
  {
  }

  lemma LandingReconciles(x: Workspace, key: string, p: PaneState)
    requires x.layout.Some? && Partitioned(Leaves(x.layout.value), x.tabs) && "" !in Keys(x.tabs)
    requires p in Leaves(x.layout.value) && key in p.tabs && p.active == key
    ensures var r := Reconcile(Landed(x, key, p.id));
            && WellFormed(r) && r.active == key && Shown(r) == key && r.focused == p.id
            && LeavesOf(r.layout) == NonEmpty(Leaves(x.layout.value))
            && (forall t :: t in r.tabs ==> t in x.tabs)
            && Elements(Keys(r.tabs)) == Elements(Keys(x.tabs))
            && Keys(r.tabs) == Flat(Leaves(x.layout.value))
            && r.history == x.history
  {
    hide Landed, Leaves, Reconcile, Flat, Keys, TabsInOrder, NonEmpty, WellFormed;
    LandedConsistent(x, key, p);
    var n := Landed(x, key, p.id);
    ConsistentReconciles(n);
    ReconcileConsistent(n);
    NonEmptyFlat(Leaves(x.layout.value));
  }

  /** Dropping a tab: it ends up in the destination pane, shown, focused and active; all other
      tabs keep their order and their panes; only a pane emptied by the drop goes; a new pane
      gets an id that neither a pane nor a page element has. */
  lemma DropLands(ws: Workspace, key: string, remembered: string, target: string, zone: Zone, splitId: string)
    requires WellFormed(ws) && "" !in Keys(ws.tabs)
    ensures var panes := Leaves(ws.layout.value);
            var s, t := PaneOf(panes, key), IndexOf(Ids(panes), target);
            var r := Drop(ws, key, remembered, target, zone, splitId);
            && WellFormed(r)
            && Elements(Keys(r.tabs)) == Elements(Keys(ws.tabs))
            && Outside(Keys(r.tabs), {key}) == Outside(Keys(ws.tabs), {key})
            && (if s < 0 || t < 0 || (!zone.Center? && s == t && |panes[s].tabs| <= 1) then r == ws
                else
                  && r.active == key && Shown(r) == key && r.focused == Destination(ws, target, zone)
                  && LeavesOf(r.layout) == NonEmpty(DroppedPanes(ws, s, t, key, remembered, zone))
                  && (zone.Center? || r.focused !in UsedIds(ws)))
  {
    hide Leaves, Flat, Keys, Reconcile, Dropped, DroppedPanes, NextSerial, PaneName, PaneOf, Landed, Shown, Outside;
    hide Distinct, NonEmpty, UsedIds, Fits;
    var panes := Leaves(ws.layout.value);
    var s, t := PaneOf(panes, key), IndexOf(Ids(panes), target);
    if s >= 0 && t >= 0 {
      ShownByIndex(panes, s);
      ShownByIndex(panes, t);
      assert Ids(panes)[t] == target;
      if zone.Center? || s != t || |panes[s].tabs| > 1 {
        DroppedPartition(ws, s, t, key, remembered, zone);
        DroppedOrder(ws, s, t, key, remembered, zone);
        PlacedPanes(ws, s, t, key, remembered, zone, splitId);
        LandedAt(ws, s, t, key, remembered, zone);
        var p :| p in DroppedPanes(ws, s, t, key, remembered, zone) && key in p.tabs && p.active == key
              && p.id == Destination(ws, target, zone);
        var x := Placed(ws, s, t, key, remembered, zone, splitId);
        LandingReconciles(x, key, p);
        NextNameIsFresh(ws.serial, UsedIds(ws));
      }
    }
  }
}
