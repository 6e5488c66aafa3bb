/**
 What normalizing alone makes of any layout and tab list, and when it leaves a pane empty.
 */
module WorkspaceNormalize {
  import opened Common
  import opened WorkspaceLayout
  import opened WorkspaceInvariant

  /** What normalizing achieves whatever the panes held: every open tab is in exactly one pane
      and nothing else is, every pane shows one of its tabs, the focused pane exists and what it
      shows, if anything, is active. */
  ghost predicate Normal(ws: Workspace, r: Workspace) {
    && r.layout.Some?
    && var panes := Leaves(r.layout.value);
    && Partitioned(panes, ws.tabs) && Keys(r.tabs) == Flat(panes)
    && r.focused in Ids(panes)
    && r.active == (if Shown(r) == "" then ws.active else Shown(r))
  }

  lemma NormalizeOverRestores(ws: Workspace, layout: Layout, preferred: string)
    requires Distinct(Ids(Leaves(layout)))
    ensures var r := NormalizeOver(ws, layout, preferred);
            Normal(ws, r) && Ids(Leaves(r.layout.value)) == Ids(Leaves(layout))
  {
    hide Leaves, Flat, FilterPanes, FilterKeys, Adopt, WithPanes, Ids, Partitioned, Elements;
    var keys := Keys(ws.tabs);
    var purged := FilterPanes(Leaves(layout), Elements(keys), {});
    FilteredPanesFit(Leaves(layout), Elements(keys), {});
    var i := Choose(purged, preferred, ws.focused);
    var adopted := Adopt(purged, i, keys);
    AdoptedPane(purged, i, keys);
    var shown := if adopted[i].active == "" then First(adopted[i].tabs) else adopted[i].active;
    PurgedPartition(Leaves(layout), ws.tabs, i, shown);
    var panes := adopted[i := adopted[i].(active := shown)];
    assert adopted[i := if adopted[i].active == "" then adopted[i].(active := First(adopted[i].tabs)) else adopted[i]]
        == panes;
    LeavesOfWithPanes(layout, panes);
    ChosenId(panes, panes[i].id, panes[i].id);
    assert Ids(panes)[i] == panes[i].id;
    PartitionKeys(panes, ws.tabs);
  }

  /** The pane that adopts keeps what it showed, among its own tabs. */
  lemma AdoptedPane(purged: seq<PaneState>, i: nat, keys: seq<string>)
    requires i < |purged| && forall p :: p in purged ==> Fits(p)
    ensures var pane := Adopt(purged, i, keys)[i];
            pane.active == purged[i].active
            && (pane.active in pane.tabs || (pane.active == "" && purged[i].tabs == []))
  {
    hide FilterKeys;
    assert purged[i] in purged;
  }

  lemma PartitionKeys(panes: seq<PaneState>, tabs: seq<Tab>)
    requires Partitioned(panes, tabs)
    ensures forall k :: k in Flat(panes) ==> k in Keys(tabs)
  {
    forall k | k in Flat(panes) ensures k in Keys(tabs) { assert k in Elements(Flat(panes)); }
  }

  lemma LoneIds(id: string)
    ensures Distinct(Ids(Leaves(Leaf(PaneState(id, [], "")))))
  {
    assert |Ids([PaneState(id, [], "")])| == 1;
  }

  lemma NormalAnySerial(ws: Workspace, serial: nat, r: Workspace)
    ensures Normal(ws.(serial := serial), r) <==> Normal(ws, r)
  {
  }

  lemma NormalIsWellFormed(ws: Workspace, r: Workspace)
    requires Normal(ws, r)
    ensures WellFormed(r) <==> NoneEmpty(Leaves(r.layout.value))
  {
    var panes := Leaves(r.layout.value);
    if NoneEmpty(panes) && r.tabs != [] && "" !in Keys(r.tabs) {
      if |panes| == 1 { FlatSplit(panes, 0); }
      ShownIsATab(r);
    }
  }

  // ---------------------------------------------------------------- panes left empty

  /** The pane holds an open key that no earlier pane holds. */
  predicate Claims(panes: seq<PaneState>, i: nat, keys: seq<string>)
    requires i < |panes|
  {
    exists k :: k in panes[i].tabs && k in keys && k !in Flat(panes[..i])
  }

  /** Some open key is in no pane. */
  predicate Strays(panes: seq<PaneState>, keys: seq<string>) { exists k :: k in keys && k !in Flat(panes) }

  lemma {:induction false} KeptIffClaimed(panes: seq<PaneState>, valid: set<string>, claimed: set<string>, i: nat)
    requires i < |panes|
    ensures FilterPanes(panes, valid, claimed)[i].tabs != []
            <==> exists k :: k in panes[i].tabs && k in valid && k !in claimed && k !in Flat(panes[..i])
    decreases i
  {
    var tabs := FilterKeys(panes[0].tabs, valid, claimed);
    if i == 0 {
      assert Flat(panes[..0]) == [];
      if tabs != [] { assert tabs[0] in tabs; }
    } else {
      var rest := panes[1..];
      KeptIffClaimed(rest, valid, claimed + Elements(tabs), i - 1);
      assert rest[i - 1] == panes[i] && panes[..i][1..] == rest[..i - 1];
      assert Flat(panes[..i]) == panes[0].tabs + Flat(rest[..i - 1]);
      forall k | k in valid && k !in claimed
        ensures k !in claimed + Elements(tabs) && k !in Flat(rest[..i - 1]) <==> k !in Flat(panes[..i])
      {
      }
    }
  }

  lemma AdoptedIffStrays(panes: seq<PaneState>, keys: seq<string>)
    ensures FilterKeys(keys, Elements(keys), Elements(Flat(FilterPanes(panes, Elements(keys), {})))) != []
            <==> Strays(panes, keys)
  {
    FlatOfFiltered(panes, Elements(keys), {});
    var missing := FilterKeys(keys, Elements(keys), Elements(Flat(FilterPanes(panes, Elements(keys), {}))));
    if missing != [] { assert missing[0] in missing; }
  }

  /** The pane at `i` is not empty afterwards. */
  predicate Fills(panes: seq<PaneState>, i: nat, keys: seq<string>, preferred: string, focused: string)
    requires i < |panes|
  {
    Claims(panes, i, keys) || (i == Choose(panes, preferred, focused) && Strays(panes, keys))
  }

  lemma NormalizeOverFills(ws: Workspace, layout: Layout, preferred: string, i: nat)
    requires i < |Leaves(layout)|
    ensures var r := NormalizeOver(ws, layout, preferred);
            && r.layout.Some? && |Leaves(r.layout.value)| == |Leaves(layout)|
            && (Leaves(r.layout.value)[i].tabs != []
                <==> Fills(Leaves(layout), i, Keys(ws.tabs), preferred, ws.focused))
  {
    hide Leaves, Flat, FilterPanes, FilterKeys, WithPanes, Elements, IndexOf, Keys;
    var keys, panes := Keys(ws.tabs), Leaves(layout);
    var purged := FilterPanes(panes, Elements(keys), {});
    FilteredPanesFit(panes, Elements(keys), {});
    var chosen := Choose(purged, preferred, ws.focused);
    assert chosen == Choose(panes, preferred, ws.focused);
    var adopted := Adopt(purged, chosen, keys);
    KeptIffClaimed(panes, Elements(keys), {}, i);
    ClaimsAreElements(panes, i, keys);
    AdoptedIffStrays(panes, keys);
    var pane := adopted[chosen];
    LeavesOfWithPanes(layout, adopted[chosen := if pane.active == "" then pane.(active := First(pane.tabs)) else pane]);
  }

  lemma ClaimsAreElements(panes: seq<PaneState>, i: nat, keys: seq<string>)
    requires i < |panes|
    ensures Claims(panes, i, keys)
            <==> exists k :: k in panes[i].tabs && k in Elements(keys) && k !in {} && k !in Flat(panes[..i])
  {
    hide Flat;
  }

  /** Among several panes, each holds an open key that no earlier one holds, or it is the chosen
      one and some open key is in no pane. */
  predicate NothingStale(panes: seq<PaneState>, keys: seq<string>, preferred: string, focused: string) {
    |panes| <= 1 || forall i :: 0 <= i < |panes| ==> Fills(panes, i, keys, preferred, focused)
  }

  /** From any layout whose panes can be told apart and any tab list: panes that held nothing
      go, the others stay in order, and all is normal.  The result is well formed exactly if none
      of the others is stale. */
  lemma NormalizeRestores(ws: Workspace, preferred: string)
    requires Identified(ws)
    ensures var r := Normalize(ws, preferred);
            && Normal(ws, r)
            && (NonEmpty(LeavesOf(ws.layout)) != [] ==>
                  Ids(Leaves(r.layout.value)) == Ids(NonEmpty(LeavesOf(ws.layout))))
            && (WellFormed(r) <==> NothingStale(NonEmpty(LeavesOf(ws.layout)), Keys(ws.tabs), preferred, ws.focused))
  {
    hide NormalizeOver, Normal, WellFormed, NoneEmpty, NothingStale, Keys, Leaves;
    var r := Normalize(ws, preferred);
    var spare := NextSerial(ws.serial, ws.nodes);
    if ws.layout.Some? {
      PrunedLeaves(ws.layout.value);
      NonEmptyIds(Leaves(ws.layout.value));
    }
    if ws.layout.Some? && Prune(ws.layout.value).Some? {
      var layout := Prune(ws.layout.value).value;
      NormalizeOverRestores(ws, layout, preferred);
      NoneEmptyIff(ws, layout, preferred);
    } else {
      LoneIds(PaneName(spare));
      LoneIds(preferred);
      var made, given := Leaf(PaneState(PaneName(spare), [], "")), Leaf(PaneState(preferred, [], ""));
      NormalizeOverRestores(ws.(serial := spare), made, preferred);
      NormalizeOverRestores(ws, given, preferred);
      NoneEmptyIff(ws.(serial := spare), made, preferred);
      NoneEmptyIff(ws, given, preferred);
      NormalAnySerial(ws, spare, r);
      FewAreNotStale([], Keys(ws.tabs), preferred, ws.focused);
      FewAreNotStale(Leaves(made), Keys(ws.tabs), preferred, ws.focused);
      FewAreNotStale(Leaves(given), Keys(ws.tabs), preferred, ws.focused);
      LoneLeaf(made);
      LoneLeaf(given);
    }
    NormalIsWellFormed(ws, r);
  }

  lemma NoneEmptyIff(ws: Workspace, layout: Layout, preferred: string)
    ensures var r := NormalizeOver(ws, layout, preferred);
            && r.layout.Some?
            && (NoneEmpty(Leaves(r.layout.value))
                <==> NothingStale(Leaves(layout), Keys(ws.tabs), preferred, ws.focused))
  {
    hide NormalizeOver, Fills, Leaves, Keys;
    var r, panes := NormalizeOver(ws, layout, preferred), Leaves(layout);
    NormalizeOverFills(ws, layout, preferred, 0);
    var after := Leaves(r.layout.value);
    forall i | 0 <= i < |panes|
      ensures after[i].tabs != [] <==> Fills(panes, i, Keys(ws.tabs), preferred, ws.focused)
    {
      NormalizeOverFills(ws, layout, preferred, i);
    }
    if |panes| != 1 && NoneEmpty(after) {
      forall i | 0 <= i < |panes| ensures Fills(panes, i, Keys(ws.tabs), preferred, ws.focused) {
        assert after[i] in after;
      }
    }
    if forall i :: 0 <= i < |panes| ==> Fills(panes, i, Keys(ws.tabs), preferred, ws.focused) {
      forall p | p in after ensures p.tabs != [] { var i :| 0 <= i < |after| && after[i] == p; }
    }
  }

  /** Two panes, the right one with this key only, and one open tab in the left one. */
  function Halves(key: string): Workspace {
    var left, right := PaneState("a", ["x"], "x"), PaneState("b", [key], key);
    Workspace(Some(Split("s", Leaf(left), Leaf(right))), [Tab("x", "", false)], "a", "x", 0, {}, map[])
  }

  /** The right pane is left empty, whether its key is not open or the left pane has it. */
  lemma StalePaneIsLeftEmpty(key: string)
    ensures Identified(Halves(key)) && !WellFormed(Normalize(Halves(key), "a"))
  {
    var ws := Halves(key);
    var panes := LeavesOf(ws.layout);
    var left, right := PaneState("a", ["x"], "x"), PaneState("b", [key], key);
    assert Leaves(Leaf(left)) + Leaves(Leaf(right)) == [left, right];
    assert panes == [left, right];
    assert Ids(panes)[0] == "a" && Ids(panes)[1] == "b";
    HalvesHoldSomething(panes);
    assert Keys(ws.tabs) == ["x"];
    FlatOfOne(panes[0]);
    assert panes[..1] == [panes[0]];
    assert !Claims(panes, 1, ["x"]);
    FlatSplit(panes, 0);
    assert "x" in Flat(panes) by { assert "x" in panes[0].tabs; }
    assert !Strays(panes, ["x"]);
    assert !Fills(panes, 1, Keys(ws.tabs), "a", ws.focused);
    NormalizeRestores(ws, "a");
  }

  lemma FewAreNotStale(panes: seq<PaneState>, keys: seq<string>, preferred: string, focused: string)
    ensures |panes| <= 1 ==> NothingStale(panes, keys, preferred, focused)
  {
  }

  lemma LoneLeaf(layout: Layout)
    requires layout.Leaf?
    ensures |Leaves(layout)| == 1
  {
  }

  lemma HalvesHoldSomething(panes: seq<PaneState>)
    requires |panes| == 2 && panes[0].tabs != [] && panes[1].tabs != []
    ensures NonEmpty(panes) == panes
  {
    assert NonEmpty([panes[1]]) == [panes[1]] by { assert [panes[1]][1..] == []; }
    assert panes[1..] == [panes[1]];
    assert panes == [panes[0]] + [panes[1]];
  }
}
