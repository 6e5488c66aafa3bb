/**
 What reconciling a workspace establishes, from however broken a state, and what pruning
 keeps.
 */
module WorkspaceInvariant {
  import opened Common
  import opened WorkspaceLayout

  /** A pane shows one of its tabs, or nothing if it has none. */
  predicate Fits(pane: PaneState) {
    if pane.tabs == [] then pane.active == "" else pane.active in pane.tabs
  }

  /** No pane is empty unless it is the only one. */
  ghost predicate NoneEmpty(panes: seq<PaneState>) { |panes| == 1 || forall p :: p in panes ==> p.tabs != [] }

  ghost predicate WellFormed(ws: Workspace) {
    && ws.layout.Some?
    && var panes := Leaves(ws.layout.value);
    && Distinct(Ids(panes))
    && Distinct(Flat(panes)) && Keys(ws.tabs) == Flat(panes)
    && NoneEmpty(panes)
    && (forall p :: p in panes ==> Fits(p))
    && ws.focused in Ids(panes)
    && (ws.tabs != [] && "" !in Keys(ws.tabs) ==> ws.active == Shown(ws))
  }

  lemma HasLayout(ws: Workspace)
    requires WellFormed(ws)
    ensures ws.layout.Some?
  {
  }

  /** The tab shown by the focused pane. */
  function Shown(ws: Workspace): string
    requires ws.layout.Some?
  {
    var panes := Leaves(ws.layout.value);
    panes[Choose(panes, ws.focused, ws.focused)].active
  }

  /** The precondition of all workspace functions: pane ids tell panes apart. */
  ghost predicate Identified(ws: Workspace) { Distinct(Ids(LeavesOf(ws.layout))) }

  function NonEmpty(panes: seq<PaneState>): (r: seq<PaneState>)
    ensures forall p :: p in r <==> p in panes && p.tabs != []
  {
    if panes == [] then []
    else if panes[0].tabs == [] then NonEmpty(panes[1..])
    else [panes[0]] + NonEmpty(panes[1..])
  }

  // ---------------------------------------------------------------- trees and their leaves

  lemma {:induction false} LeavesOfWithPanes(layout: Layout, panes: seq<PaneState>)
    requires |panes| == |Leaves(layout)|
    ensures Leaves(WithPanes(layout, panes)) == panes
  {
    match layout
    case Leaf(_) =>
    case Split(_, first, second) =>
      var n := |Leaves(first)|;
      LeavesOfWithPanes(first, panes[..n]);
      LeavesOfWithPanes(second, panes[n..]);
  }

  lemma {:induction false} WithOwnPanes(layout: Layout)
    ensures WithPanes(layout, Leaves(layout)) == layout
  {
    match layout
    case Leaf(_) =>
    case Split(_, first, second) =>
      WithOwnPanes(first);
      WithOwnPanes(second);
      assert Leaves(layout)[..|Leaves(first)|] == Leaves(first);
      assert Leaves(layout)[|Leaves(first)|..] == Leaves(second);
  }

  lemma {:induction false} NonEmptyAppend(a: seq<PaneState>, b: seq<PaneState>)
    ensures NonEmpty(a + b) == NonEmpty(a) + NonEmpty(b)
  {
    if a == [] {
      assert a + b == b;
    } else {
      assert (a + b)[1..] == a[1..] + b;
      NonEmptyAppend(a[1..], b);
    }
  }

  /** Pruning keeps exactly the non-empty leaves, in order. */
  lemma {:induction false} PrunedLeaves(layout: Layout)
    ensures LeavesOf(Prune(layout)) == NonEmpty(Leaves(layout))
  {
    match layout
    case Leaf(pane) =>
    case Split(_, first, second) =>
      PrunedLeaves(first);
      PrunedLeaves(second);
      NonEmptyAppend(Leaves(first), Leaves(second));
  }

  lemma {:induction false} PruneNothing(layout: Layout)
    requires forall p :: p in Leaves(layout) ==> p.tabs != []
    ensures Prune(layout) == Some(layout)
  {
    match layout
    case Leaf(_) =>
    case Split(_, first, second) =>
      PruneNothing(first);
      PruneNothing(second);
  }

  lemma {:induction false} NonEmptyFlat(panes: seq<PaneState>)
    ensures Flat(NonEmpty(panes)) == Flat(panes)
  {
    if panes != [] {
      NonEmptyFlat(panes[1..]);
    }
  }

  lemma DistinctParts(a: seq<string>, b: seq<string>)
    requires Distinct(a + b)
    ensures Distinct(a) && Distinct(b)
    ensures forall k :: k in a ==> k !in b
  {
    var s := a + b;
    assert forall i :: 0 <= i < |a| ==> s[i] == a[i];
    assert forall i :: 0 <= i < |b| ==> s[|a| + i] == b[i];
  }

  lemma DistinctTail(s: seq<string>)
    requires Distinct(s) && s != []
    ensures Distinct(s[1..]) && s[0] !in s[1..]
  {
    assert s == [s[0]] + s[1..];
    DistinctParts([s[0]], s[1..]);
  }

  lemma {:induction false} NonEmptyIds(panes: seq<PaneState>)
    requires Distinct(Ids(panes))
    ensures Distinct(Ids(NonEmpty(panes)))
    ensures forall k :: k in Ids(NonEmpty(panes)) ==> k in Ids(panes)
  {
    if panes != [] {
      DistinctTail(Ids(panes));
      assert Ids(panes) == [panes[0].id] + Ids(panes[1..]);
      NonEmptyIds(panes[1..]);
      if panes[0].tabs != [] {
        assert Ids(NonEmpty(panes)) == [panes[0].id] + Ids(NonEmpty(panes[1..]));
      }
    }
  }

  // ---------------------------------------------------------------- purging

  lemma {:induction false} FilterKeysDistinct(keys: seq<string>, valid: set<string>, claimed: set<string>)
    ensures Distinct(FilterKeys(keys, valid, claimed))
    decreases |keys|
  {
    if keys != [] {
      if keys[0] in valid && keys[0] !in claimed {
        FilterKeysDistinct(keys[1..], valid, claimed + {keys[0]});
      } else {
        FilterKeysDistinct(keys[1..], valid, claimed);
      }
    }
  }

  lemma {:induction false} FilterKeysNothing(keys: seq<string>, valid: set<string>, claimed: set<string>)
    requires Distinct(keys)
    requires forall k :: k in keys ==> k in valid && k !in claimed
    ensures FilterKeys(keys, valid, claimed) == keys
    decreases |keys|
  {
    if keys != [] {
      DistinctTail(keys);
      FilterKeysNothing(keys[1..], valid, claimed + {keys[0]});
    }
  }

  /** Panes that hold distinct known keys and fit are not changed by purging. */
  lemma {:induction false} FilterPanesNothing(panes: seq<PaneState>, valid: set<string>, claimed: set<string>)
    requires Distinct(Flat(panes))
    requires forall k :: k in Flat(panes) ==> k in valid && k !in claimed
    requires forall p :: p in panes ==> Fits(p)
    ensures FilterPanes(panes, valid, claimed) == panes
    decreases |panes|
  {
    if panes != [] {
      DistinctParts(panes[0].tabs, Flat(panes[1..]));
      FilterKeysNothing(panes[0].tabs, valid, claimed);
      FilterPanesNothing(panes[1..], valid, claimed + Elements(panes[0].tabs));
      assert panes[0] in panes && Fits(panes[0]);
      assert Refit(panes[0]) == panes[0];
    }
  }

  lemma {:induction false} FilteredPanesFit(panes: seq<PaneState>, valid: set<string>, claimed: set<string>)
    ensures Ids(FilterPanes(panes, valid, claimed)) == Ids(panes)
    ensures forall p :: p in FilterPanes(panes, valid, claimed) ==> Fits(p)
    decreases |panes|
  {
    if panes != [] {
      var tabs := FilterKeys(panes[0].tabs, valid, claimed);
      FilteredPanesFit(panes[1..], valid, claimed + Elements(tabs));
      assert Fits(Refit(panes[0].(tabs := tabs)));
    }
  }

  lemma IdsUpdate(panes: seq<PaneState>, i: nat, pane: PaneState)
    requires i < |panes| && pane.id == panes[i].id
    ensures Ids(panes[i := pane]) == Ids(panes)
  {
  }

  lemma AdoptDistinct(panes: seq<PaneState>, i: nat, keys: seq<string>)
    requires i < |panes| && Distinct(Flat(panes))
    ensures Distinct(Flat(Adopt(panes, i, keys)))
  {
    AdoptedFlat(panes, i, keys);
    FlatSplit(panes, i);
    var missing := FilterKeys(keys, Elements(keys), Elements(Flat(panes)));
    FilterKeysDistinct(keys, Elements(keys), Elements(Flat(panes)));
    var a, b := Flat(panes[..i]) + panes[i].tabs, Flat(panes[i + 1..]);
    DistinctParts(a, b);
    InsertDistinct(a, missing, b);
  }

  lemma InsertDistinct(a: seq<string>, m: seq<string>, b: seq<string>)
    requires Distinct(a + b) && Distinct(m)
    requires forall k :: k in m ==> k !in a + b
    ensures Distinct(a + m + b)
  {
    var s, t := a + m + b, a + b;
    forall i, j | 0 <= i < j < |s| ensures s[i] != s[j] {
      if i < |a| <= j < |a| + |m| {
        assert s[j] in m && s[i] in a;
      } else if |a| <= i < |a| + |m| <= j {
        assert s[i] in m && s[j] in b;
      } else if |a| <= i && j < |a| + |m| {
        assert s[i] == m[i - |a|] && s[j] == m[j - |a|];
      } else {
        assert s[i] == t[if i < |a| then i else i - |m|];
        assert s[j] == t[if j < |a| then j else j - |m|];
      }
    }
  }

  lemma {:induction false} FilterKeysNone(keys: seq<string>, valid: set<string>, claimed: set<string>)
    requires valid <= claimed
    ensures FilterKeys(keys, valid, claimed) == []
    decreases |keys|
  {
    if keys != [] { FilterKeysNone(keys[1..], valid, claimed); }
  }

  lemma {:induction false} NonEmptyIff(panes: seq<PaneState>)
    ensures NonEmpty(panes) == [] <==> Flat(panes) == []
  {
    if panes != [] { NonEmptyIff(panes[1..]); }
  }

  lemma NoElements(s: seq<string>)
    ensures Elements(s) == {} <==> s == []
  {
    if s != [] { assert s[0] in Elements(s); }
  }

  // ---------------------------------------------------------------- normalizing a consistent workspace

  /** The panes hold exactly the open tabs, once each, and fit. */
  ghost predicate Partitioned(panes: seq<PaneState>, tabs: seq<Tab>) {
    && Distinct(Ids(panes))
    && Distinct(Flat(panes))
    && Elements(Flat(panes)) == Elements(Keys(tabs))
    && forall p :: p in panes ==> Fits(p)
  }

  /** Only the order of the tab list and what is focused and shown can change then. */
  lemma NormalizeOverPartition(ws: Workspace, layout: Layout, preferred: string)
    requires Partitioned(Leaves(layout), ws.tabs)
    requires "" !in Keys(ws.tabs)
    ensures var panes := Leaves(layout);
            var r := NormalizeOver(ws, layout, preferred);
            && r.layout == Some(layout)
            && Keys(r.tabs) == Flat(panes) && r.tabs == TabsInOrder(ws.tabs, Flat(panes))
            && r.focused == (if ws.focused in Ids(panes) then ws.focused
               else panes[Choose(panes, preferred, ws.focused)].id)
            && r.active == (if Shown(r) == "" then ws.active else Shown(r))
            && r.serial == ws.serial && r.nodes == ws.nodes && r.history == ws.history
            && forall t :: t in r.tabs ==> t in ws.tabs
  {
    var panes := Leaves(layout);
    var keys := Keys(ws.tabs);
    FilterPanesNothing(panes, Elements(keys), {});
    var i := Choose(panes, preferred, ws.focused);
    NothingToAdopt(panes, i, keys);
    assert panes[i] in panes && Fits(panes[i]);
    FlatSplit(panes, i);
    assert panes[i].tabs == [] || panes[i].active in Elements(Flat(panes));
    assert panes[i := panes[i]] == panes;
    WithOwnPanes(layout);
    LeavesOfWithPanes(layout, panes);
    InOrderRecords(ws.tabs, Flat(panes));
  }

  lemma NothingToAdopt(panes: seq<PaneState>, i: nat, keys: seq<string>)
    requires i < |panes| && Elements(keys) <= Elements(Flat(panes))
    ensures Adopt(panes, i, keys) == panes
  {
    FilterKeysNone(keys, Elements(keys), Elements(Flat(panes)));
    assert panes[i].tabs + [] == panes[i].tabs;
  }

  /** With open tabs, normalizing prunes and reorders. */
  lemma NormalizeOpen(ws: Workspace, preferred: string)
    requires ws.layout.Some? && Partitioned(Leaves(ws.layout.value), ws.tabs)
    requires "" !in Keys(ws.tabs) && ws.tabs != []
    ensures Prune(ws.layout.value).Some?
    ensures Partitioned(Leaves(Prune(ws.layout.value).value), ws.tabs)
    ensures forall p :: p in Leaves(Prune(ws.layout.value).value) ==> p.tabs != []
    ensures Normalize(ws, preferred) == NormalizeOver(ws, Prune(ws.layout.value).value, preferred)
  {
    var panes := Leaves(ws.layout.value);
    PrunedLeaves(ws.layout.value);
    NonEmptyFlat(panes);
    NonEmptyIds(panes);
    assert Keys(ws.tabs)[0] in Elements(Keys(ws.tabs));
  }

  /** Without open tabs, a single empty pane is left. */
  lemma NormalizeClosed(ws: Workspace, preferred: string)
    requires ws.layout.Some? && Partitioned(Leaves(ws.layout.value), ws.tabs)
    requires ws.tabs == []
    ensures var spare := NextSerial(ws.serial, ws.nodes);
            Normalize(ws, preferred) ==
              if preferred == ""
              then NormalizeOver(ws.(serial := spare), Leaf(PaneState(PaneName(spare), [], "")), preferred)
              else NormalizeOver(ws, Leaf(PaneState(preferred, [], "")), preferred)
  {
    PrunedLeaves(ws.layout.value);
    NonEmptyFlat(Leaves(ws.layout.value));
    assert Elements(Flat(Leaves(ws.layout.value))) == {};
    NonEmptyIff(Leaves(ws.layout.value));
    NoElements(Flat(Leaves(ws.layout.value)));
  }

  /** What normalizing a partition establishes. */
  ghost predicate Normalized(ws: Workspace, r: Workspace) {
    && WellFormed(r)
    && Elements(Keys(r.tabs)) == Elements(Keys(ws.tabs))
    && (forall t :: t in r.tabs ==> t in ws.tabs)
  }

  lemma NormalizeOverEstablishes(ws: Workspace, layout: Layout, preferred: string)
    requires Partitioned(Leaves(layout), ws.tabs) && "" !in Keys(ws.tabs)
    requires |Leaves(layout)| == 1 || forall p :: p in Leaves(layout) ==> p.tabs != []
    requires ws.tabs != [] ==> forall p :: p in Leaves(layout) ==> p.tabs != []
    ensures Normalized(ws, NormalizeOver(ws, layout, preferred))
  {
    hide NormalizeOver, Flat, Ids, Keys, Leaves, TabsInOrder;
    NormalizeOverPartition(ws, layout, preferred);
    var r := NormalizeOver(ws, layout, preferred);
    if ws.tabs != [] { ShownIsATab(r); }
    assert r.focused in Ids(Leaves(layout)) by { ChosenId(Leaves(layout), preferred, ws.focused); }
    assert ws.tabs == [] ==> Elements(Keys(r.tabs)) == {} by { if ws.tabs == [] { NoElements(Keys(ws.tabs)); } }
    NoElements(Keys(r.tabs));
  }

  lemma ChosenId(panes: seq<PaneState>, wanted: string, otherwise: string)
    requires panes != []
    ensures panes[Choose(panes, wanted, otherwise)].id in Ids(panes)
  {
    assert Ids(panes)[Choose(panes, wanted, otherwise)] == panes[Choose(panes, wanted, otherwise)].id;
  }

  lemma LonePane(id: string, tabs: seq<Tab>)
    requires tabs == []
    ensures Partitioned(Leaves(Leaf(PaneState(id, [], ""))), tabs)
  {
    var pane := PaneState(id, [], "");
    FlatOfOne(pane);
    assert Leaves(Leaf(pane)) == [pane];
    NoElements([]);
    NoElements(Keys(tabs));
  }

  lemma NormalizePartition(ws: Workspace, preferred: string)
    requires ws.layout.Some? && Partitioned(Leaves(ws.layout.value), ws.tabs)
    requires "" !in Keys(ws.tabs)
    ensures Normalized(ws, Normalize(ws, preferred))
  {
    hide NormalizeOver, Normalize, WellFormed, FilterPanes, Adopt;
    if ws.tabs != [] {
      NormalizeOpen(ws, preferred);
      NormalizeOverEstablishes(ws, Prune(ws.layout.value).value, preferred);
    } else {
      NormalizeClosed(ws, preferred);
      var spare := NextSerial(ws.serial, ws.nodes);
      LonePane(PaneName(spare), ws.tabs);
      LonePane(preferred, ws.tabs);
      NormalizeOverEstablishes(ws.(serial := spare), Leaf(PaneState(PaneName(spare), [], "")), preferred);
      NormalizeOverEstablishes(ws, Leaf(PaneState(preferred, [], "")), preferred);
    }
  }

  lemma ShownIsATab(ws: Workspace)
    requires ws.layout.Some? && (forall p :: p in Leaves(ws.layout.value) ==> Fits(p) && p.tabs != [])
    ensures Shown(ws) in Flat(Leaves(ws.layout.value))
  {
    var panes := Leaves(ws.layout.value);
    var i := Choose(panes, ws.focused, ws.focused);
    assert panes[i] in panes;
    FlatSplit(panes, i);
  }

  // ---------------------------------------------------------------- reconciling anything

  /** Purging and adopting makes a partition of whatever panes there were. */
  lemma PurgedPartition(panes: seq<PaneState>, tabs: seq<Tab>, i: nat, shown: string)
    requires i < |panes| && Distinct(Ids(panes))
    ensures var keys := Keys(tabs);
            var adopted := Adopt(FilterPanes(panes, Elements(keys), {}), i, keys);
            (shown in adopted[i].tabs || (shown == "" && adopted[i].tabs == [])) ==>
              var r := adopted[i := adopted[i].(active := shown)];
              Partitioned(r, tabs) && Ids(r) == Ids(panes)
  {
    hide Flat, FilterPanes, FilterKeys, Ids, Keys, Distinct, Fits;
    var keys := Keys(tabs);
    var purged := FilterPanes(panes, Elements(keys), {});
    var adopted := Adopt(purged, i, keys);
    FilteredPanesFit(panes, Elements(keys), {});
    FlatOfFiltered(panes, Elements(keys), {});
    FilterKeysDistinct(Flat(panes), Elements(keys), {});
    AdoptDistinct(purged, i, keys);
    FilteredKeysAreKnown(purged, i, panes, keys);
    IdsUpdate(purged, i, adopted[i]);
    if shown in adopted[i].tabs || (shown == "" && adopted[i].tabs == []) {
      var pane := adopted[i].(active := shown);
      AdoptKeepsFlat(adopted, i, adopted[i := pane]);
      IdsUpdate(adopted, i, pane);
      ShownFits(adopted[i], shown);
      forall j | 0 <= j < |adopted| && j != i ensures Fits(adopted[j]) {
        assert adopted[j] == purged[j] && purged[j] in purged;
      }
      UpdateFits(adopted, i, pane);
    }
  }

  lemma ShownFits(pane: PaneState, shown: string)
    requires shown in pane.tabs || (shown == "" && pane.tabs == [])
    ensures Fits(pane.(active := shown))
  {
  }

  lemma UpdateFits(panes: seq<PaneState>, i: nat, pane: PaneState)
    requires i < |panes| && Fits(pane) && forall j :: 0 <= j < |panes| && j != i ==> Fits(panes[j])
    ensures forall p :: p in panes[i := pane] ==> Fits(p)
  {
    var r := panes[i := pane];
    forall p | p in r ensures Fits(p) {
      var j :| 0 <= j < |r| && r[j] == p;
    }
  }

  /** The workspace just before the final normalization of `Reconcile`. */
  function Gathered(ws: Workspace): (r: (Workspace, string))
    ensures r.0.layout.Some? && r.0.tabs == ws.tabs && r.0.focused == ws.focused
    ensures Reconcile(ws) == Normalize(r.0, r.1)
  {
    var spare := NextSerial(ws.serial, UsedIds(ws));
    var layout := if ws.layout.Some? then ws.layout.value else Leaf(PaneState(PaneName(spare), [], ""));
    var keys := Keys(ws.tabs);
    var purged := FilterPanes(Leaves(layout), Elements(keys), {});
    var i := Choose(purged, ws.focused, ws.focused);
    var adopted := Adopt(purged, i, keys);
    var panes := adopted[i := adopted[i].(active := ShownAfter(ws.active, adopted[i]))];
    (ws.(layout := Some(WithPanes(layout, panes)),
         serial := if ws.layout.Some? then ws.serial else spare),
     panes[i].id)
  }

  /** What the focused pane shows once the stray tabs have been adopted. */
  function ShownAfter(active: string, pane: PaneState): string {
    var a := if active != "" && active in pane.tabs then active else pane.active;
    if a == "" then First(pane.tabs) else a
  }

  lemma ReconcilePartitions(ws: Workspace)
    requires Identified(ws)
    ensures Partitioned(Leaves(Gathered(ws).0.layout.value), ws.tabs)
    ensures Gathered(ws).1 in Ids(Leaves(Gathered(ws).0.layout.value))
    ensures ws.layout.Some? ==> Ids(Leaves(Gathered(ws).0.layout.value)) == Ids(Leaves(ws.layout.value))
  {
    var spare := NextSerial(ws.serial, UsedIds(ws));
    var layout := if ws.layout.Some? then ws.layout.value else Leaf(PaneState(PaneName(spare), [], ""));
    var keys := Keys(ws.tabs);
    var purged := FilterPanes(Leaves(layout), Elements(keys), {});
    var i := Choose(purged, ws.focused, ws.focused);
    var adopted := Adopt(purged, i, keys);
    hide Leaves, Flat, Keys, FilterPanes, FilterKeys, Choose, Reconcile, Normalize;
    FilteredPanesFit(Leaves(layout), Elements(keys), {});
    assert purged[i] in purged && Fits(purged[i]);
    var shown := ShownAfter(ws.active, adopted[i]);
    PurgedPartition(Leaves(layout), ws.tabs, i, shown);
    LeavesOfWithPanes(layout, adopted[i := adopted[i].(active := shown)]);
    assert Ids(Leaves(Gathered(ws).0.layout.value))[i] == Gathered(ws).1;
  }

  /** From any layout and tab list whose panes can be told apart, reconciling restores the
      invariant and keeps exactly the open tabs. */
  lemma ReconcileRestores(ws: Workspace)
    requires Identified(ws) && "" !in Keys(ws.tabs)
    ensures WellFormed(Reconcile(ws))
    ensures Elements(Keys(Reconcile(ws).tabs)) == Elements(Keys(ws.tabs))
    ensures forall t :: t in Reconcile(ws).tabs ==> t in ws.tabs
  {
    ReconcilePartitions(ws);
    NormalizePartition(Gathered(ws).0, Gathered(ws).1);
  }

  lemma {:induction false} InOrderRecords(tabs: seq<Tab>, order: seq<string>)
    requires forall k :: k in order ==> k in Keys(tabs)
    ensures forall t :: t in TabsInOrder(tabs, order) ==> t in tabs
    decreases |order|
  {
    if order != [] { InOrderRecords(tabs, order[1..]); }
  }

  // ---------------------------------------------------------------- reconciling what is consistent

  /** The panes hold the open tabs, none is empty, and the focused one shows the active tab. */
  ghost predicate Consistent(ws: Workspace) {
    && ws.layout.Some? && ws.tabs != [] && "" !in Keys(ws.tabs)
    && Partitioned(Leaves(ws.layout.value), ws.tabs)
    && (forall p :: p in Leaves(ws.layout.value) ==> p.tabs != [])
    && ws.focused in Ids(Leaves(ws.layout.value))
    && ws.active == Shown(ws)
  }

  /** Normalizing or reconciling a consistent workspace only puts the tab list in pane order. */
  lemma NormalizeConsistent(ws: Workspace, preferred: string)
    requires Consistent(ws)
    ensures Normalize(ws, preferred) == ws.(tabs := TabsInOrder(ws.tabs, Flat(Leaves(ws.layout.value))))
  {
    PruneNothing(ws.layout.value);
    NormalizeOpen(ws, preferred);
    NormalizeOverPartition(ws, ws.layout.value, preferred);
    ShownIsATab(ws);
  }

  lemma ReconcileConsistent(ws: Workspace)
    requires Consistent(ws)
    ensures Reconcile(ws) == ws.(tabs := TabsInOrder(ws.tabs, Flat(Leaves(ws.layout.value))))
  {
    hide Normalize, WithPanes, Leaves, TabsInOrder;
    var panes := Leaves(ws.layout.value);
    var keys := Keys(ws.tabs);
    FilterPanesNothing(panes, Elements(keys), {});
    var i := Choose(panes, ws.focused, ws.focused);
    NothingToAdopt(panes, i, keys);
    assert panes[i] in panes && ws.active == panes[i].active && Fits(panes[i]);
    assert Elements(Flat(panes)) == Elements(keys);
    FlatSplit(panes, i);
    assert ws.active in Elements(Flat(panes));
    assert panes[i := panes[i].(active := ws.active)] == panes;
    WithOwnPanes(ws.layout.value);
    NormalizeConsistent(ws, panes[i].id);
  }

  lemma {:induction false} InOrderSame(tabs: seq<Tab>, i: nat)
    requires Distinct(Keys(tabs)) && i <= |tabs|
    ensures TabsInOrder(tabs, Keys(tabs[i..])) == tabs[i..]
    decreases |tabs| - i
  {
    hide Distinct, TabOf;
    if i < |tabs| {
      InOrderSame(tabs, i + 1);
      TabOfDistinct(tabs, i);
      assert tabs[i..][0] == tabs[i] && tabs[i..][1..] == tabs[i + 1..];
    }
  }

  lemma {:induction false} TabOfDistinct(tabs: seq<Tab>, i: nat)
    requires Distinct(Keys(tabs)) && i < |tabs|
    ensures tabs[i].key in Keys(tabs) && TabOf(tabs, tabs[i].key) == tabs[i]
    decreases |tabs|
  {
    assert Keys(tabs)[i] == tabs[i].key;
    var n := |tabs| - 1;
    assert Keys(tabs)[n] == tabs[n].key;
    if i < n {
      assert Keys(tabs[..n]) == Keys(tabs)[..n];
      TabOfDistinct(tabs[..n], i);
    }
  }

  lemma WellFormedIsConsistent(ws: Workspace)
    requires WellFormed(ws) && ws.tabs != [] && "" !in Keys(ws.tabs)
    ensures Consistent(ws)
  {
    var panes := Leaves(ws.layout.value);
    if |panes| == 1 {
      assert panes[0].tabs + Flat([]) == Flat(panes);
    }
  }

  /** A well-formed workspace is left as it is.  Without tabs its one pane needs a name. */
  lemma ReconcileFixed(ws: Workspace)
    requires WellFormed(ws) && "" !in Keys(ws.tabs)
    requires ws.tabs == [] ==> ws.focused != ""
    ensures Reconcile(ws) == ws
  {
    if ws.tabs != [] {
      WellFormedIsConsistent(ws);
      ReconcileConsistent(ws);
      InOrderSame(ws.tabs, 0);
      assert ws.tabs[0..] == ws.tabs;
    } else {
      ReconcileLone(ws);
    }
  }

  lemma ReconcileLone(ws: Workspace)
    requires WellFormed(ws) && ws.tabs == [] && ws.focused != ""
    ensures Reconcile(ws) == ws
  {
    var panes := Leaves(ws.layout.value);
    assert Flat(panes) == [];
    FlatSplit(panes, 0);
    assert panes[0] in panes && panes[0].tabs == [] && |panes| == 1 && panes[0].active == "";
    LoneLayout(ws.layout.value);
    assert Ids(panes) == [panes[0].id] && ws.focused == panes[0].id;
    var pane := PaneState(ws.focused, [], "");
    assert ws.layout.value == Leaf(pane);
    assert Gathered(ws).0.layout == Some(Leaf(pane)) && Gathered(ws).1 == ws.focused;
    LonePane(ws.focused, ws.tabs);
    NormalizeClosed(ws, ws.focused);
    NormalizeOverPartition(ws, Leaf(pane), ws.focused);
  }

  lemma LoneLayout(layout: Layout)
    requires |Leaves(layout)| == 1
    ensures layout == Leaf(Leaves(layout)[0])
  {
  }

  lemma NormalizedLoneName(ws: Workspace, preferred: string)
    requires ws.layout.Some? && Partitioned(Leaves(ws.layout.value), ws.tabs) && ws.tabs == []
    ensures Normalize(ws, preferred).focused != ""
  {
    NormalizeClosed(ws, preferred);
    var spare := NextSerial(ws.serial, ws.nodes);
    var id := if preferred == "" then PaneName(spare) else preferred;
    LonePane(id, ws.tabs);
    var before := if preferred == "" then ws.(serial := spare) else ws;
    NormalizeOverPartition(before, Leaf(PaneState(id, [], "")), preferred);
    assert Ids([PaneState(id, [], "")]) == [id];
  }

  /** Reconciling twice is reconciling once. */
  lemma ReconcileIdempotent(ws: Workspace)
    requires Identified(ws) && "" !in Keys(ws.tabs)
    ensures Reconcile(Reconcile(ws)) == Reconcile(ws)
  {
    ReconcileRestores(ws);
    var r := Reconcile(ws);
    assert "" !in Elements(Keys(ws.tabs));
    assert "" !in Elements(Keys(r.tabs));
    if r.tabs == [] {
      NoElements(Keys(ws.tabs));
      ReconcilePartitions(ws);
      NormalizedLoneName(Gathered(ws).0, Gathered(ws).1);
    }
    ReconcileFixed(r);
  }
}
