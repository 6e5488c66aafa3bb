/**
 The workspace as the program holds it: pane objects that are changed in place, found through
 a tree, beside the tab list and the focused and active keys.  Every method leaves the state
 that the corresponding function of the values computes.
 */
module WorkspaceObjects {
  import opened Common
  import opened WorkspaceLayout
  import opened WorkspaceInvariant
  import opened WorkspaceOperations
  import opened WorkspaceTheorems
  import WorkspaceDrops
  import WorkspaceRuns

  class Pane {
    const id: string
    var tabs: seq<string>
    var active: string

    constructor (id: string, tabs: seq<string>, active: string)
      ensures State() == PaneState(id, tabs, active)
    {
      this.id, this.tabs, this.active := id, tabs, active;
    }

    function State(): PaneState
      reads this
    {
      PaneState(id, tabs, active)
    }
  }

  datatype Node = PaneNode(pane: Pane) | SplitNode(id: string, first: Node, second: Node)

  function Footprint(node: Node): set<Pane> {
    match node
    case PaneNode(pane) => {pane}
    case SplitNode(_, first, second) => Footprint(first) + Footprint(second)
  }

  /** `workspaceLeaves`. */
  function Panes(node: Node): (panes: seq<Pane>)
    ensures panes != []
    ensures forall i :: 0 <= i < |panes| ==> panes[i] in Footprint(node)
  {
    match node
    case PaneNode(pane) => [pane]
    case SplitNode(_, first, second) => Panes(first) + Panes(second)
  }

  function States(panes: seq<Pane>): (r: seq<PaneState>)
    reads panes
    ensures |r| == |panes|
    ensures forall i :: 0 <= i < |panes| ==> r[i] == panes[i].State()
  {
    if panes == [] then [] else [panes[0].State()] + States(panes[1..])
  }

  ghost predicate NoAlias(panes: seq<Pane>) {
    forall i, j :: 0 <= i < j < |panes| ==> panes[i] != panes[j]
  }

  /** The tree as a value. */
  ghost function View(node: Node): Layout
    reads Footprint(node)
  {
    match node
    case PaneNode(pane) =>
      Leaf(pane.State())
    case SplitNode(id, first, second) =>
      Split(id, View(first), View(second))
  }

  /** The same splits, whatever is in the panes. */
  ghost predicate SameShape(node: Node, layout: Layout)
    ensures SameShape(node, layout) ==> |Leaves(layout)| == |Panes(node)|
  {
    match (node, layout)
    case (PaneNode(_), Leaf(_)) => true
    case (SplitNode(i, a, b), Split(j, c, d)) => i == j && SameShape(a, c) && SameShape(b, d)
    case _ => false
  }

  lemma {:induction false} ViewLeaves(node: Node)
    ensures SameShape(node, View(node))
    ensures Leaves(View(node)) == States(Panes(node))
  {
    hide States;
    match node
    case PaneNode(_) =>
    case SplitNode(_, first, second) =>
      ViewLeaves(first);
      ViewLeaves(second);
      var a, b := Panes(first), Panes(second);
      assert Panes(node) == a + b;
      assert States(a + b) == States(a) + States(b);
  }

  /** After changes to the panes only, the tree is the earlier one with other panes. */
  lemma {:induction false} ViewAfter(node: Node, was: Layout)
    requires SameShape(node, was)
    ensures View(node) == WithPanes(was, States(Panes(node)))
  {
    match node
    case PaneNode(_) =>
    case SplitNode(_, first, second) =>
      ViewAfter(first, was.first);
      ViewAfter(second, was.second);
      var states := States(Panes(node));
      assert states[..|Leaves(was.first)|] == States(Panes(first));
      assert states[|Leaves(was.first)|..] == States(Panes(second));
  }

  /** `pruneWorkspaceLayout`. */
  function PruneNode(node: Node): Option<Node>
    reads Footprint(node)
  {
    match node
    case PaneNode(pane) =>
      if pane.tabs == [] then None else Some(node)
    case SplitNode(id, first, second) =>
      match (PruneNode(first), PruneNode(second))
      case (None, rest) => rest
      case (rest, None) => rest
      case (Some(a), Some(b)) => Some(SplitNode(id, a, b))
  }

  function FootprintOf(layout: Option<Node>): set<Pane> {
    if layout.Some? then Footprint(layout.value) else {}
  }

  function PanesOf(layout: Option<Node>): seq<Pane> {
    if layout.Some? then Panes(layout.value) else []
  }

  lemma NoAliasParts(a: seq<Pane>, b: seq<Pane>)
    requires NoAlias(a + b)
    ensures NoAlias(a) && NoAlias(b) && forall p :: p in a ==> p !in b
  {
    var s := a + b;
    forall i, j | 0 <= i < j < |a| ensures a[i] != a[j] { assert s[i] != s[j]; }
    forall i, j | 0 <= i < j < |b| ensures b[i] != b[j] { assert s[|a| + i] != s[|a| + j]; }
    forall p | p in a ensures p !in b {
      var i :| 0 <= i < |a| && a[i] == p;
      forall j | 0 <= j < |b| ensures b[j] != p { assert s[i] != s[|a| + j]; }
    }
  }

  lemma NoAliasJoin(a: seq<Pane>, b: seq<Pane>)
    requires NoAlias(a) && NoAlias(b) && forall p :: p in a ==> p !in b
    ensures NoAlias(a + b)
  {
    var s := a + b;
    forall i, j | 0 <= i < j < |s| ensures s[i] != s[j] {
      if j < |a| {
        assert s[i] == a[i] && s[j] == a[j];
      } else if |a| <= i {
        assert s[i] == b[i - |a|] && s[j] == b[j - |a|];
      } else {
        assert s[i] in a && s[j] == b[j - |a|] && s[j] in b;
      }
    }
  }

  lemma {:induction false} PanesAndFootprint(node: Node, p: Pane)
    ensures p in Panes(node) <==> p in Footprint(node)
  {
    match node
    case PaneNode(_) =>
    case SplitNode(_, first, second) =>
      PanesAndFootprint(first, p);
      PanesAndFootprint(second, p);
  }

  lemma {:induction false} PrunedView(node: Node)
    ensures (if PruneNode(node).Some? then Some(View(PruneNode(node).value)) else None) == Prune(View(node))
    ensures FootprintOf(PruneNode(node)) <= Footprint(node)
    ensures NoAlias(Panes(node)) ==> NoAlias(PanesOf(PruneNode(node)))
  {
    match node
    case PaneNode(_) =>
    case SplitNode(_, first, second) =>
      PrunedView(first);
      PrunedView(second);
      if NoAlias(Panes(node)) {
        NoAliasParts(Panes(first), Panes(second));
        forall p | p in PanesOf(PruneNode(first)) ensures p !in PanesOf(PruneNode(second)) {
          PanesAndFootprint(first, p);
          PanesAndFootprint(second, p);
        }
        NoAliasJoin(PanesOf(PruneNode(first)), PanesOf(PruneNode(second)));
      }
  }

  /** The keys kept by one pane and the keys claimed so far. */
  method FilterTabs(keys: seq<string>, valid: set<string>, claimed: set<string>)
    returns (kept: seq<string>, after: set<string>)
    ensures kept == FilterKeys(keys, valid, claimed)
    ensures after == claimed + Elements(kept)
  {
    hide FilterKeys, Elements;
    NoElements([]);
    kept, after := [], claimed;
    var n := 0;
    assert keys[0..] == keys;
    while n < |keys|
      invariant n <= |keys|
      invariant kept + FilterKeys(keys[n..], valid, after) == FilterKeys(keys, valid, claimed)
      invariant after == claimed + Elements(kept)
    {
      FilterNext(keys, n, valid, after);
      if keys[n] in valid && keys[n] !in after {
        ElementsOneMore(kept, keys[n]);
        kept, after := kept + [keys[n]], after + {keys[n]};
      }
      n := n + 1;
    }
    FilterDone(keys, valid, after);
  }

  lemma ElementsOneMore(keys: seq<string>, key: string)
    ensures Elements(keys + [key]) == Elements(keys) + {key}
  {
  }

  method PurgePane(pane: Pane, valid: set<string>, claimed: set<string>) returns (after: set<string>)
    modifies pane
    ensures pane.State() == Refit(old(pane.State()).(tabs := FilterKeys(old(pane.tabs), valid, claimed)))
    ensures after == claimed + Elements(pane.tabs)
  {
    pane.tabs, after := FilterTabs(pane.tabs, valid, claimed);
    if pane.active !in pane.tabs { pane.active := First(pane.tabs); }
  }

  /** The first part of both reconciling and normalizing. */
  method Purge(leaves: seq<Pane>, valid: set<string>) returns (claimed: set<string>)
    requires NoAlias(leaves)
    modifies leaves
    ensures States(leaves) == FilterPanes(old(States(leaves)), valid, {})
    ensures claimed == Elements(Flat(States(leaves)))
  {
    hide Flat, FilterKeys, FilterPanes, Refit, States;
    ghost var before := States(leaves);
    claimed := {};
    var n := 0;
    assert before[0..] == before && States(leaves[..0]) == [];
    NothingHeld();
    while n < |leaves|
      invariant n <= |leaves|
      invariant forall j :: n <= j < |leaves| ==> leaves[j].State() == before[j]
      invariant States(leaves[..n]) + FilterPanes(before[n..], valid, claimed) == FilterPanes(before, valid, {})
      invariant claimed == Elements(Flat(States(leaves[..n])))
    {
      ghost var done := States(leaves[..n]);
      assert leaves[n] !in leaves[..n];
      ghost var held := claimed;
      claimed := PurgePane(leaves[n], valid, claimed);
      assert States(leaves[..n + 1]) == done + [leaves[n].State()];
      OneMore(done, leaves[n].State());
      PurgedNext(before, n, valid, held);
      n := n + 1;
    }
    assert leaves[..n] == leaves;
    PurgedDone(before, valid, claimed);
  }

  lemma PurgedDone(panes: seq<PaneState>, valid: set<string>, claimed: set<string>)
    ensures FilterPanes(panes[|panes|..], valid, claimed) == []
  {
  }

  lemma PurgedNext(panes: seq<PaneState>, n: nat, valid: set<string>, claimed: set<string>)
    requires n < |panes|
    ensures var pane := Refit(panes[n].(tabs := FilterKeys(panes[n].tabs, valid, claimed)));
            FilterPanes(panes[n..], valid, claimed)
            == [pane] + FilterPanes(panes[n + 1..], valid, claimed + Elements(pane.tabs))
  {
    assert panes[n..][0] == panes[n] && panes[n..][1..] == panes[n + 1..];
  }

  lemma NothingHeld()
    ensures Flat([]) == [] && Elements([]) == {}
  {
  }

  lemma OneMore(done: seq<PaneState>, pane: PaneState)
    ensures Elements(Flat(done + [pane])) == Elements(Flat(done)) + Elements(pane.tabs)
  {
    FlatAppend(done, [pane]);
    FlatOfOne(pane);
  }

  class Dock {
    var layout: Option<Node>
    var tabs: seq<Tab>
    var focused: string
    var active: string
    var serial: nat
    const nodes: set<string>
    var history: History

    constructor (nodes: set<string>)
      ensures Valid() && State() == Workspace(None, [], "", "", 0, nodes, map[])
    {
      layout, tabs, focused, active, serial, history := None, [], "", "", 0, map[];
      this.nodes := nodes;
    }

    function Owned(): seq<Pane>
      reads this
    {
      PanesOf(layout)
    }

    ghost predicate Valid()
      reads this
    {
      NoAlias(Owned())
    }

    ghost function Held(): set<Pane>
      reads this
    {
      FootprintOf(layout)
    }

    ghost function State(): Workspace
      reads this, Held()
    {
      Workspace(if layout.Some? then Some(View(layout.value)) else None, tabs, focused, active, serial, nodes, history)
    }

    /** The workspace is well formed, every tab has a key, and there are none but these. */
    ghost predicate InOrder(openable: set<string>)
      reads this, Held()
    {
      layout.Some? && WorkspaceRuns.Kept(State(), openable)
    }

    ghost function OpenKeys(): set<string>
      reads this
    {
      Elements(Keys(tabs))
    }

    /** Where the first pane with this id is, or -1. */
    method FindPane(id: string) returns (i: int)
      ensures i == IndexOf(Ids(States(Owned())), id)
      ensures State() == old(State())
    {
      var leaves := Owned();
      ghost var ids := Ids(States(leaves));
      i := 0;
      while i < |leaves| && leaves[i].id != id
        invariant 0 <= i <= |leaves|
        invariant id !in ids[..i]
      {
        assert ids[..i + 1] == ids[..i] + [ids[i]];
        i := i + 1;
      }
      if i == |leaves| {
        assert ids[..i] == ids;
        i := -1;
      } else {
        FirstIndex(ids, i);
      }
    }

    /** `workspaceNextPaneId`. */
    method NextPaneId() returns (id: string)
      modifies this`serial
      ensures serial == NextSerial(old(serial), UsedIds(old(State()))) && id == PaneName(serial)
      ensures States(Owned()) == old(States(Owned()))
      ensures State() == old(State()).(serial := serial)
    {
      hide View, States, Ids, Elements, NextSerial, PaneName, Leaves, Footprint;
      var used := Elements(Ids(States(Owned()))) + nodes;
      if layout.Some? { ViewLeaves(layout.value); }
      assert used == UsedIds(State());
      ghost var left := used;
      ghost var first := serial;
      ghost var held: set<object> := Held();
      assert this !in held;
      serial := serial + 1;
      while PaneName(serial) in used
        invariant State() == old(State()).(serial := serial) && States(Owned()) == old(States(Owned()))
        invariant serial > 0 && NextSerial(serial - 1, left) == NextSerial(first, used)
        invariant forall k: nat :: k >= serial ==> (PaneName(k) in left <==> PaneName(k) in used)
        decreases |left|
      {
        forall k: nat | k > serial ensures PaneName(k) != PaneName(serial) {
          if PaneName(k) == PaneName(serial) { WorkspaceDrops.PaneNamesTell(k, serial); }
        }
        NextUnfolds(serial - 1, left);
        left := left - {PaneName(serial)};
        serial := serial + 1;
      }
      NextUnfolds(serial - 1, left);
      id := PaneName(serial);
    }

    /** The tabs that no pane has claimed go to this pane. */
    method AdoptInto(pane: Pane, claimed: set<string>)
      modifies pane`tabs
      ensures pane.tabs == old(pane.tabs) + FilterKeys(Keys(tabs), Elements(Keys(tabs)), claimed)
    {
      hide Keys, Elements, FilterKeys;
      ghost var keys, valid, all := Keys(tabs), Elements(Keys(tabs)), pane.tabs;
      var taken, n := claimed, 0;
      assert keys[0..] == keys;
      while n < |tabs|
        invariant n <= |tabs|
        invariant pane.tabs + FilterKeys(keys[n..], valid, taken) == all + FilterKeys(keys, valid, claimed)
      {
        FilterNext(keys, n, valid, taken);
        KnownKey(tabs, n);
        if tabs[n].key !in taken {
          pane.tabs, taken := pane.tabs + [tabs[n].key], taken + {tabs[n].key};
        }
        n := n + 1;
      }
      FilterDone(keys, valid, taken);
    }

    /** `workspaceFindPane(a) || workspaceFindPane(b) || leaves[0]`, as a position. */
    method ChoosePane(wanted: string, otherwise: string) returns (i: nat)
      requires layout.Some?
      ensures i < |Owned()| && i == Choose(States(Owned()), wanted, otherwise)
      ensures State() == old(State())
    {
      var at := FindPane(wanted);
      if at < 0 { at := FindPane(otherwise); }
      i := if at < 0 then 0 else at;
    }

    /** Purging, and the stray tabs going to the chosen pane. */
    method Gather(wanted: string, otherwise: string) returns (i: nat)
      requires Valid() && layout.Some?
      modifies Held()
      ensures i < |Owned()|
      ensures var keys := Keys(tabs);
              var purged := FilterPanes(old(States(Owned())), Elements(keys), {});
              i == Choose(purged, wanted, otherwise) && States(Owned()) == Adopt(purged, i, keys)
    {
      hide FilterPanes, FilterKeys, States, Flat, Choose, Keys;
      var leaves := Owned();
      ghost var before, valid := States(leaves), Elements(Keys(tabs));
      var claimed := Purge(leaves, Elements(Keys(tabs)));
      assert States(leaves) == FilterPanes(before, valid, {});
      assert claimed == Elements(Flat(States(leaves)));
      i := ChoosePane(wanted, otherwise);
      ghost var purged := States(Owned());
      assert purged[i] == leaves[i].State();
      assert forall j :: 0 <= j < |leaves| && j != i ==> leaves[j] != leaves[i];
      AdoptInto(leaves[i], claimed);
      assert forall j :: 0 <= j < |leaves| && j != i ==> leaves[j].State() == purged[j];
      assert tabs == old(tabs) && leaves == Owned();
      assert leaves[i].State() == purged[i].(tabs := purged[i].tabs + FilterKeys(Keys(tabs), valid, claimed));
      assert States(leaves) == Adopt(purged, i, Keys(tabs));
    }

    /** The tab list takes the order of the panes; the focused pane's tab becomes active. */
    method Reorder(fallback: nat)
      requires layout.Some? && fallback < |Owned()|
      modifies this`tabs, this`focused, this`active
      ensures var panes := States(Owned());
              && tabs == TabsInOrder(old(tabs), Flat(panes))
              && focused == (if old(focused) in Ids(panes) then old(focused) else panes[fallback].id)
              && var shown := panes[Choose(panes, focused, focused)].active;
                 active == if shown == "" then old(active) else shown
    {
      hide States, Flat, Choose, Keys, Ids, IndexOf, TabsInOrder;
      var panes := States(Owned());
      var at := FindPane(focused);
      if at < 0 { focused := Owned()[fallback].id; }
      tabs := TabsInOrder(tabs, Flat(panes));
      var shown := ChoosePane(focused, focused);
      if Owned()[shown].active != "" { active := Owned()[shown].active; }
    }

    /** Gathering for `Settle`, where the chosen pane comes to show a tab if it has any. */
    method GatherShown(preferred: string) returns (i: nat)
      requires Valid() && layout.Some?
      modifies Held()
      ensures i < |Owned()|
      ensures SettledPanes(old(States(Owned())), Keys(tabs), preferred, focused, i, States(Owned()))
    {
      hide FilterPanes, FilterKeys, States, Flat, Choose, Keys;
      var leaves := Owned();
      i := Gather(preferred, focused);
      ghost var gathered := States(leaves);
      assert forall j :: 0 <= j < |leaves| && j != i ==> leaves[j] != leaves[i];
      if leaves[i].active == "" { leaves[i].active := First(leaves[i].tabs); }
      assert forall j :: 0 <= j < |leaves| && j != i ==> leaves[j].State() == gathered[j];
      assert States(leaves) == gathered[i := States(leaves)[i]];
    }

    /** `normalizeWorkspaceLayoutAfterMutation`, from the pruned tree on. */
    method Settle(preferred: string)
      requires Valid() && layout.Some?
      modifies this`tabs, this`focused, this`active, Held()
      ensures State() == NormalizeOver(old(State()), old(State()).layout.value, preferred)
    {
      hide SettledPanes, States, Flat, Choose, Keys, View, WithPanes, Leaves, Ids, IndexOf, TabsInOrder, NormalizeOver;
      ghost var was, ws := View(layout.value), State();
      ViewLeaves(layout.value);
      var i := GatherShown(preferred);
      NormalizeOverSteps(ws, was, preferred, States(Owned()), i);
      Reorder(i);
      ViewAfter(layout.value, was);
    }

    /** `normalizeWorkspaceLayoutAfterMutation`. */
    method NormalizeAfterMutation(preferred: string)
      requires Valid()
      modifies this, Held()
      ensures Valid() && layout.Some?
      ensures forall p :: p in Held() ==> p in old(Held()) || fresh(p)
      ensures State() == Normalize(old(State()), preferred)
    {
      hide NormalizeOver, View, Prune, PruneNode, NextSerial, PaneName, Ids, Elements;
      ghost var ws := State();
      if layout.Some? {
        PrunedView(layout.value);
        layout := PruneNode(layout.value);
      }
      if layout.None? {
        var id := preferred;
        if preferred == "" {
          NothingUsed(State());
          id := NextPaneId();
        }
        var pane := new Pane(id, [], "");
        layout := Some(PaneNode(pane));
        LoneView(pane);
      }
      NormalizeOverAnyTree(ws.(serial := serial), State(), preferred);
      Settle(preferred);
    }

    /** Another content for the pane at `i`. */
    method Update(i: nat, keys: seq<string>, shown: string)
      requires Valid() && layout.Some? && i < |Owned()|
      modifies Owned()[i]
      ensures Leaves(old(State()).layout.value) == old(States(Owned()))
      ensures States(Owned()) == old(States(Owned()))[i := PaneState(Owned()[i].id, keys, shown)]
      ensures State() == old(State()).(layout := Some(WithPanes(old(State()).layout.value, States(Owned()))))
    {
      hide States, View, WithPanes;
      ghost var before, was := States(Owned()), View(layout.value);
      ViewLeaves(layout.value);
      assert forall j :: 0 <= j < |Owned()| && j != i ==> Owned()[j] != Owned()[i];
      Owned()[i].tabs := keys;
      Owned()[i].active := shown;
      assert forall j :: 0 <= j < |Owned()| && j != i ==> Owned()[j].State() == before[j];
      assert States(Owned()) == before[i := Owned()[i].State()];
      ViewAfter(layout.value, was);
    }

    /** `reconcileWorkspaceLayoutTabs`. */
    method ReconcileTabs()
      requires Valid()
      modifies this, Held()
      ensures Valid() && layout.Some?
      ensures forall p :: p in Held() ==> p in old(Held()) || fresh(p)
      ensures State() == Reconcile(old(State()))
    {
      hide Normalize, View, NextSerial, PaneName, Ids, Elements, Flat, Keys, Choose, FilterPanes, FilterKeys, States,
          WithPanes, Leaves, Adopt, UsedIds;
      ghost var ws := State();
      if layout.None? {
        var id := NextPaneId();
        var pane := new Pane(id, [], "");
        layout := Some(PaneNode(pane));
        LoneView(pane);
      }
      ghost var was := View(layout.value);
      ViewLeaves(layout.value);
      var i := Gather(focused, focused);
      ghost var gathered := States(Owned());
      ViewAfter(layout.value, was);
      var pane := Owned()[i];
      var shown := if active != "" && active in pane.tabs then active else pane.active;
      if shown == "" { shown := First(pane.tabs); }
      Update(i, pane.tabs, shown);
      RepeatedWithPanes(was, gathered, States(Owned()));
      ReconcileSteps(ws, was, i, gathered, States(Owned()), serial);
      NormalizeAfterMutation(pane.id);
    }

    /** The first pane that holds the key, or -1. */
    method FindPaneForTab(key: string) returns (i: int)
      ensures i == PaneOf(States(Owned()), key)
      ensures State() == old(State())
    {
      var leaves := Owned();
      ghost var panes := States(leaves);
      i := 0;
      assert panes[0..] == panes;
      while i < |leaves| && key !in leaves[i].tabs
        invariant 0 <= i <= |leaves|
        invariant PaneOf(panes, key) == if PaneOf(panes[i..], key) < 0 then -1 else i + PaneOf(panes[i..], key)
      {
        assert panes[i..][1..] == panes[i + 1..];
        i := i + 1;
      }
      if i == |leaves| { i := -1; }
    }

    /** `activateTab`, up to drawing. */
    method ActivateTab(key: string)
      requires Valid() && layout.Some?
      modifies this, Held()
      ensures Valid() && layout == old(layout)
      ensures State() == WorkspaceOperations.ActivateTab(old(State()), key)
      ensures old(InOrder(OpenKeys())) ==> InOrder(old(OpenKeys()))
    {
      hide View, Leaves, States, WithPanes, Remember, PaneOf, Keys, WorkspaceRuns.Kept;
      if InOrder(OpenKeys()) {
        WorkspaceRuns.StepKept(State(), WorkspaceRuns.Activate(key), OpenKeys());
      }
      var i := FindPaneForTab(key);
      ViewLeaves(layout.value);
      if key !in Keys(tabs) || i < 0 { return; }
      var pane := Owned()[i];
      focused := pane.id;
      history := Remember(history, pane.State(), key, pane.active);
      Update(i, pane.tabs, key);
      active := key;
    }

    /** `focusWorkspacePane`, up to drawing. */
    method FocusPane(id: string)
      requires Valid() && layout.Some?
      modifies this
      ensures Valid() && layout == old(layout)
      ensures State() == WorkspaceOperations.FocusPane(old(State()), id)
      ensures old(InOrder(OpenKeys())) ==> InOrder(old(OpenKeys()))
    {
      hide View, Leaves, States, WithPanes, Remember, Keys, Ids, IndexOf, WorkspaceRuns.Kept;
      if InOrder(OpenKeys()) {
        WorkspaceRuns.StepKept(State(), WorkspaceRuns.Focus(id), OpenKeys());
      }
      var i := FindPane(id);
      ViewLeaves(layout.value);
      if i < 0 { return; }
      var pane := Owned()[i];
      focused := id;
      if pane.active !in Keys(tabs) { return; }
      active := pane.active;
      history := Remember(history, pane.State(), pane.active, pane.active);
    }

    /** The key at one place of a pane goes to another. */
    method ShiftTab(i: nat, from: nat, to: nat)
      requires Valid() && layout.Some? && i < |Owned()| && from < |Owned()[i].tabs| && to < |Owned()[i].tabs|
      modifies Owned()[i]
      ensures Leaves(old(State()).layout.value) == old(States(Owned()))
      ensures States(Owned())
              == old(States(Owned()))[i := old(Owned()[i].State()).(tabs := Moved(old(Owned()[i].tabs), from, to))]
      ensures State() == old(State()).(layout := Some(WithPanes(old(State()).layout.value, States(Owned()))))
    {
      var pane := Owned()[i];
      var keys := pane.tabs[..from] + pane.tabs[from + 1..];
      Update(i, keys[..to] + [pane.tabs[from]] + keys[to..], pane.active);
    }

    /** `moveWorkspaceTab`, up to drawing. */
    method MoveTab(key: string, offset: int)
      requires Valid() && layout.Some?
      modifies this, Held()
      ensures Valid()
      ensures forall p :: p in Held() ==> p in old(Held()) || fresh(p)
      ensures State() == WorkspaceOperations.MoveTab(old(State()), key, offset)
      ensures old(InOrder(OpenKeys())) ==> InOrder(old(OpenKeys()))
    {
      hide View, Leaves, States, WithPanes, PaneOf, IndexOf, Normalize, Reconcile, Moved, WorkspaceRuns.Kept;
      if InOrder(OpenKeys()) {
        WorkspaceRuns.StepKept(State(), WorkspaceRuns.Move(key, offset), OpenKeys());
      }
      var i := FindPaneForTab(key);
      ViewLeaves(layout.value);
      if i < 0 { return; }
      var pane := Owned()[i];
      var from := IndexOf(pane.tabs, key);
      var to := Clamp(from + offset, 0, |pane.tabs| - 1);
      if from < 0 || to == from { return; }
      ShiftTab(i, from, to);
      NormalizeAfterMutation(pane.id);
      ReconcileTabs();
    }

    method LoseWelcomeTab(pane: Pane)
      modifies pane
      ensures [pane.State()] == LoseWelcome([old(pane.State())])
    {
      pane.tabs := Outside(pane.tabs, {WELCOME});
      if pane.active == WELCOME { pane.active := First(pane.tabs); }
    }

    /** The welcome tab leaves every pane. */
    method LoseWelcomeTabs()
      requires Valid() && layout.Some?
      modifies Held()
      ensures Leaves(old(State()).layout.value) == old(States(Owned()))
      ensures States(Owned()) == LoseWelcome(old(States(Owned())))
      ensures State() == old(State()).(layout := Some(WithPanes(old(State()).layout.value, States(Owned()))))
    {
      hide States, View, WithPanes, Leaves, LoseWelcome;
      var leaves := Owned();
      ghost var before, was := States(leaves), View(layout.value);
      ViewLeaves(layout.value);
      var n := 0;
      assert before[0..] == before && States(leaves[..0]) == [];
      while n < |leaves|
        invariant n <= |leaves|
        invariant forall j :: n <= j < |leaves| ==> leaves[j].State() == before[j]
        invariant States(leaves[..n]) + LoseWelcome(before[n..]) == LoseWelcome(before)
      {
        ghost var done := States(leaves[..n]);
        assert leaves[n] !in leaves[..n];
        LoseWelcomeTab(leaves[n]);
        assert States(leaves[..n + 1]) == done + [leaves[n].State()];
        LoseWelcomeNext(before, n);
        n := n + 1;
      }
      assert leaves[..n] == leaves && before[n..] == [];
      ViewAfter(layout.value, was);
    }

    /** The position of the pane a tab opens in. */
    method FindOpeningPane(key: string, executing: string) returns (i: nat)
      requires layout.Some?
      ensures i == OpeningPane(State(), key, executing) && State() == old(State())
      ensures i < |Owned()| && Leaves(State().layout.value) == States(Owned())
    {
      hide View, Leaves, States, PaneOf, Choose;
      var at := FindPaneForTab(key);
      ViewLeaves(layout.value);
      if at >= 0 { return at; }
      i := ChoosePane(executing, focused);
      ViewLeaves(layout.value);
    }

    /** The tab enters the pane it opens in and the tab list, and is shown. */
    method Open(tab: Tab, executing: string)
      requires Valid() && layout.Some?
      modifies this, Held()
      ensures Valid() && layout == old(layout)
      ensures State() == Opened(old(State()), tab, executing)
    {
      hide View, Leaves, States, WithPanes, Remember, OpeningPane, Keys, InsertAfter, OpenTab, NoAlias;
      var i := FindOpeningPane(tab.key, executing);
      var pane := Owned()[i];
      var anchor := if pane.active != "" then pane.active else active;
      tabs := OpenTab(tabs, tab, anchor);
      var keys := if tab.key in pane.tabs then pane.tabs else InsertAfter(pane.tabs, anchor, tab.key);
      history := Remember(history, PaneState(pane.id, keys, pane.active), tab.key, pane.active);
      Update(i, keys, tab.key);
      focused := pane.id;
      active := tab.key;
    }

    /** `addTab`, up to drawing. */
    method AddTab(tab: Tab, executing: string)
      requires Valid() && layout.Some?
      modifies this, Held()
      ensures Valid()
      ensures forall p :: p in Held() ==> p in old(Held()) || fresh(p)
      ensures State() == WorkspaceOperations.AddTab(old(State()), tab, executing)
      ensures old(InOrder(OpenKeys())) && tab.key != "" ==> InOrder(old(OpenKeys()) + {tab.key})
    {
      hide View, Leaves, States, WithPanes, Normalize, Reconcile, Opened, LoseWelcome, WorkspaceRuns.Kept;
      if InOrder(OpenKeys()) && tab.key != "" {
        WorkspaceRuns.StepKept(State(), WorkspaceRuns.Add(tab, executing), OpenKeys());
      }
      ViewLeaves(layout.value);
      if tab.key != WELCOME {
        tabs := TabsOutside(tabs, {WELCOME});
        LoseWelcomeTabs();
        NormalizeAfterMutation(focused);
      }
      if tab.key == WELCOME && exists k :: k in Keys(tabs) && k != WELCOME { return; }
      Open(tab, executing);
      ReconcileTabs();
    }

    /** One pane loses the closed tabs; it comes to show its most recent survivor. */
    method ClosePane(pane: Pane, targets: set<string>)
      modifies pane, this`history
      ensures pane.State() == ClosedPane(old(history), old(pane.State()), targets)
      ensures history == ClosedHistory(old(history), old(pane.State()), targets)
    {
      hide Outside, Trim, Remember, FirstClosed, Recent;
      var at, recent := FirstClosed(pane.tabs, targets), "";
      if pane.active in targets {
        recent := Recent(history, pane.State(), targets);
        history := Trim(history, pane.State());
      }
      pane.tabs := Outside(pane.tabs, targets);
      if pane.active !in pane.tabs {
        var n := |pane.tabs|;
        pane.active := if recent != "" then recent else if n == 0 then "" else pane.tabs[if at < n then at else n - 1];
      }
      history := Trim(history, pane.State());
      if pane.active != "" { history := Remember(history, pane.State(), pane.active, pane.active); }
    }

    /** The loop over the panes: each loses its closed tabs, in order. */
    method ClosePanesOf(leaves: seq<Pane>, targets: set<string>)
      requires NoAlias(leaves)
      modifies leaves, this`history
      ensures var left := ClosedPanes(old(history), old(States(leaves)), targets);
              States(leaves) == left.0 && history == left.1
    {
      hide States, ClosedPane, ClosedHistory, ClosedPanes;
      ClosedNone(history, targets);
      ghost var before, all := States(leaves), ClosedPanes(history, States(leaves), targets);
      var n := 0;
      assert before[0..] == before && leaves[..0] == [] && States(leaves[..0]) == [];
      while n < |leaves|
        invariant n <= |leaves|
        invariant forall j :: n <= j < |leaves| ==> leaves[j].State() == before[j]
        invariant all.0 == States(leaves[..n]) + ClosedPanes(history, before[n..], targets).0
        invariant all.1 == ClosedPanes(history, before[n..], targets).1
      {
        ghost var done := States(leaves[..n]);
        assert leaves[n] !in leaves[..n];
        ClosedNext(history, before, n, targets);
        ClosePane(leaves[n], targets);
        assert leaves[..n + 1] == leaves[..n] + [leaves[n]];
        assert States(leaves[..n + 1]) == done + [leaves[n].State()];
        n := n + 1;
      }
      assert leaves[..n] == leaves && before[n..] == [];
    }

    method ClosePanes(targets: set<string>)
      requires Valid() && layout.Some?
      modifies this`history, Held()
      ensures Leaves(old(State()).layout.value) == old(States(Owned()))
      ensures var left := ClosedPanes(old(history), old(States(Owned())), targets);
              States(Owned()) == left.0 && history == left.1
      ensures var panes := WithPanes(old(State()).layout.value, States(Owned()));
              State() == old(State()).(layout := Some(panes), history := history)
    {
      hide States, View, WithPanes, Leaves, ClosedPanes;
      ghost var was := View(layout.value);
      ViewLeaves(layout.value);
      ClosePanesOf(Owned(), targets);
      ViewAfter(layout.value, was);
    }

    /** The id of the pane that holds the anchor, else of the focused pane, else none. */
    method AnchorPane(anchor: string) returns (id: string)
      requires layout.Some?
      ensures var panes := Leaves(State().layout.value);
              var at := if PaneOf(panes, anchor) >= 0 then PaneOf(panes, anchor) else IndexOf(Ids(panes), focused);
              id == if at >= 0 then panes[at].id else ""
      ensures State() == old(State())
    {
      hide View, Leaves, States, PaneOf, IndexOf;
      var at := FindPaneForTab(anchor);
      ViewLeaves(layout.value);
      if at < 0 {
        at := FindPane(focused);
        ViewLeaves(layout.value);
      }
      id := if at >= 0 then Owned()[at].id else "";
    }

    method Refocus()
      requires Valid() && layout.Some?
      modifies this`focused, this`active
      ensures State() == Refocused(old(State()))
    {
      hide View, Leaves, States, Choose;
      var shown := ChoosePane(focused, focused);
      ViewLeaves(layout.value);
      LeavesExist(State());
      focused, active := Owned()[shown].id, Owned()[shown].active;
    }

    method CloseTargets(targets: set<string>, anchor: string)
      requires Valid() && layout.Some?
      modifies this, Held()
      ensures Valid() && layout.Some?
      ensures forall p :: p in Held() ==> p in old(Held()) || fresh(p)
      ensures State() == Closed(old(State()), targets, anchor)
    {
      hide View, Leaves, States, WithPanes, Normalize, PaneOf, IndexOf, Ids, ClosedPanes, TabsOutside;
      var id := AnchorPane(anchor);
      tabs := TabsOutside(tabs, targets);
      ClosePanes(targets);
      NormalizeAfterMutation(if id != "" then id else focused);
    }

    /** `closeTabsByKey`, up to drawing and the sessions behind the tabs. */
    method CloseTabs(keys: seq<string>, anchor: string)
      requires Valid() && layout.Some?
      modifies this, Held()
      ensures Valid()
      ensures forall p :: p in Held() ==> p in old(Held()) || fresh(p)
      ensures State() == WorkspaceOperations.CloseTabs(old(State()), keys, anchor)
      ensures old(InOrder(OpenKeys())) ==> InOrder(old(OpenKeys()))
    {
      hide View, Reconcile, Refocused, Closed, Pinned, WorkspaceRuns.Kept;
      if InOrder(OpenKeys()) {
        WorkspaceRuns.StepKept(State(), WorkspaceRuns.Close(keys, anchor), OpenKeys());
      }
      var targets := set k | k in keys && !Pinned(tabs, k);
      if targets == {} { return; }
      CloseTargets(targets, anchor);
      Refocus();
      ReconcileTabs();
    }

    /** The dragged tab leaves its pane, which comes to show another one. */
    method TakeOut(s: nat, key: string, remembered: string)
      requires Valid() && layout.Some? && s < |Owned()| && key in Owned()[s].tabs
      modifies Owned()[s]
      ensures Leaves(old(State()).layout.value) == old(States(Owned()))
      ensures States(Owned()) == old(States(Owned()))[s := Bereft(old(Owned()[s].State()), key, remembered)]
      ensures State() == old(State()).(layout := Some(WithPanes(old(State()).layout.value, States(Owned()))))
    {
      hide View, Leaves, States, WithPanes, IndexOf;
      var pane := Owned()[s];
      var at := IndexOf(pane.tabs, key);
      var kept := pane.tabs[..at] + pane.tabs[at + 1..];
      var shown := pane.active;
      if shown !in kept {
        var previous := if at > 0 then kept[at - 1] else "";
        var recalled := if remembered != "" && remembered != key && remembered in kept then remembered else "";
        var fallback := if remembered == key then previous else "";
        shown := if recalled != "" then recalled
                 else if fallback != "" then fallback
                 else if kept == [] then ""
                 else kept[if at < |kept| then at else |kept| - 1];
      }
      Update(s, kept, shown);
    }

    /** A new pane for the key takes a place before or after the pane at `t`. */
    method SplitPane(t: nat, key: string, first: bool, splitId: string) returns (id: string)
      requires Valid() && layout.Some? && t < |Owned()| && Distinct(Ids(States(Owned())))
      modifies this`layout, this`serial
      ensures Valid() && layout.Some?
      ensures forall p :: p in Held() ==> p in old(Held()) || fresh(p)
      ensures var ws := old(State());
              var serial := NextSerial(ws.serial, UsedIds(ws));
              var pane, beside := Leaf(PaneState(PaneName(serial), [key], key)), Leaf(old(Owned()[t].State()));
              var split := if first then Split(splitId, pane, beside) else Split(splitId, beside, pane);
              && id == PaneName(serial)
              && State() == ws.(layout := Some(Replace(ws.layout.value, beside.pane.id, split)), serial := serial)
    {
      hide View, Leaves, States, NextSerial, PaneName, UsedIds, Distinct, Ids, NoAlias, Panes, Replace, WithPanes;
      ghost var before := Owned();
      ghost var was, states := View(layout.value), States(Owned());
      id := NextPaneId();
      ViewLeaves(layout.value);
      var pane := new Pane(id, [key], key);
      assert forall j :: 0 <= j < |before| ==> before[j].State() == states[j];
      assert States(before) == states;
      ViewAfter(layout.value, was);
      WithOwnPanes(was);
      var beside := Owned()[t];
      var split := if first then SplitNode(splitId, PaneNode(pane), PaneNode(beside))
                   else SplitNode(splitId, PaneNode(beside), PaneNode(pane));
      ReplacedView(layout.value, beside.id, split);
      PairView(splitId, pane, beside);
      PairView(splitId, beside, pane);
      ReplacedNode(layout.value, t, split);
      PairedPanes(before, t, pane, first);
      layout := Some(ReplaceNode(layout.value, beside.id, split));
    }

    /** The tab leaves its pane and lands in the target, or in a new pane beside it. */
    method Place(s: nat, t: nat, key: string, remembered: string, zone: Zone, splitId: string)
      requires Valid() && layout.Some? && Identified(State())
      requires s < |Owned()| && t < |Owned()| && key in Owned()[s].tabs
      modifies this, Held()
      ensures Valid()
      ensures forall p :: p in Held() ==> p in old(Held()) || fresh(p)
      ensures Leaves(old(State()).layout.value) == old(States(Owned()))
      ensures State() == Dropped(old(State()), s, t, key, remembered, zone, splitId)
    {
      hide View, Leaves, States, WithPanes, Bereft, Replace, Normalize, NextSerial, PaneName, UsedIds, Distinct, Ids;
      ghost var ws, panes := State(), States(Owned());
      ViewLeaves(layout.value);
      TakeOut(s, key, remembered);
      ViewLeaves(layout.value);
      WorkspaceDrops.SameIds(panes, s, key, remembered);
      SameUsed(ws, State());
      ghost var bereft := States(Owned());
      var destination: string;
      if zone.Center? {
        var keys := Owned()[t].tabs;
        var at := Clamp(if zone.index.Some? then zone.index.value else |keys|, 0, |keys|);
        Update(t, keys[..at] + [key] + keys[at..], key);
        RepeatedWithPanes(ws.layout.value, bereft, States(Owned()));
        destination := Owned()[t].id;
      } else {
        destination := SplitPane(t, key, zone.Left? || zone.Top?, splitId);
      }
      assert forall p :: p in Held() ==> p in old(Held()) || fresh(p);
      ghost var placed := State();
      assert Dropped(ws, s, t, key, remembered, zone, splitId) == Landed(placed, key, destination);
      NormalizeAfterMutation(destination);
      ghost var held: set<object> := Held();
      assert this !in held;
      focused, active := destination, key;
    }

    /** `applyWorkspaceTabDrop`, up to drawing. */
    method DropTab(key: string, remembered: string, target: string, zone: Zone, splitId: string)
      requires Valid() && layout.Some? && Identified(State())
      modifies this, Held()
      ensures Valid()
      ensures forall p :: p in Held() ==> p in old(Held()) || fresh(p)
      ensures State() == Drop(old(State()), key, remembered, target, zone, splitId)
      ensures old(InOrder(OpenKeys())) ==> InOrder(old(OpenKeys()))
    {
      hide View, Leaves, States, PaneOf, IndexOf, Dropped, Reconcile, Distinct, Ids, WorkspaceRuns.Kept;
      if InOrder(OpenKeys()) {
        WorkspaceRuns.StepKept(State(), WorkspaceRuns.DropOn(key, remembered, target, zone, splitId), OpenKeys());
      }
      var s := FindPaneForTab(key);
      ViewLeaves(layout.value);
      var t := FindPane(target);
      ViewLeaves(layout.value);
      if s < 0 || t < 0 { return; }
      if !zone.Center? && Owned()[s].id == Owned()[t].id && |Owned()[s].tabs| <= 1 { return; }
      Place(s, t, key, remembered, zone, splitId);
      ReconcileTabs();
    }
  }

  /** `workspaceReplacePaneWithSplit`. */
  function ReplaceNode(node: Node, target: string, replacement: Node): Node {
    match node
    case PaneNode(pane) => if pane.id == target then replacement else node
    case SplitNode(id, first, second) =>
      SplitNode(id, ReplaceNode(first, target, replacement), ReplaceNode(second, target, replacement))
  }

  lemma {:induction false} ReplacedView(node: Node, target: string, replacement: Node)
    ensures View(ReplaceNode(node, target, replacement)) == Replace(View(node), target, View(replacement))
    ensures Footprint(ReplaceNode(node, target, replacement)) <= Footprint(node) + Footprint(replacement)
  {
    match node
    case PaneNode(_) =>
    case SplitNode(_, first, second) =>
      ReplacedView(first, target, replacement);
      ReplacedView(second, target, replacement);
  }

  lemma PairView(id: string, a: Pane, b: Pane)
    ensures View(SplitNode(id, PaneNode(a), PaneNode(b))) == Split(id, Leaf(a.State()), Leaf(b.State()))
    ensures Panes(SplitNode(id, PaneNode(a), PaneNode(b))) == [a, b]
    ensures Footprint(SplitNode(id, PaneNode(a), PaneNode(b))) == {a, b}
  {
  }

  lemma {:induction false} ReplacedNothing(node: Node, target: string, replacement: Node)
    requires forall p :: p in Panes(node) ==> p.id != target
    ensures ReplaceNode(node, target, replacement) == node
  {
    match node
    case PaneNode(pane) => assert pane in Panes(node);
    case SplitNode(_, first, second) =>
      assert Panes(node) == Panes(first) + Panes(second);
      ReplacedNothing(first, target, replacement);
      ReplacedNothing(second, target, replacement);
  }

  /** Pane objects whose ids tell them apart. */
  ghost predicate Told(panes: seq<Pane>) {
    forall i, j :: 0 <= i < j < |panes| ==> panes[i].id != panes[j].id
  }

  lemma ToldParts(a: seq<Pane>, b: seq<Pane>)
    requires Told(a + b)
    ensures Told(a) && Told(b) && forall p, q :: p in a && q in b ==> p.id != q.id
  {
    var s := a + b;
    forall i, j | 0 <= i < j < |a| ensures a[i].id != a[j].id { assert s[i].id != s[j].id; }
    forall i, j | 0 <= i < j < |b| ensures b[i].id != b[j].id { assert s[|a| + i].id != s[|a| + j].id; }
    forall p, q | p in a && q in b ensures p.id != q.id {
      var i :| 0 <= i < |a| && a[i] == p;
      var j :| 0 <= j < |b| && b[j] == q;
      assert s[i].id != s[|a| + j].id;
    }
  }

  lemma {:induction false} ReplacedPanes(node: Node, t: nat, replacement: Node)
    requires t < |Panes(node)| && Told(Panes(node))
    ensures Panes(ReplaceNode(node, Panes(node)[t].id, replacement))
            == Panes(node)[..t] + Panes(replacement) + Panes(node)[t + 1..]
  {
    hide Told;
    match node
    case PaneNode(_) =>
    case SplitNode(_, first, second) =>
      var a, b := Panes(first), Panes(second);
      ToldParts(a, b);
      SeamOfPanes(a, b, t, Panes(replacement));
      if t < |a| {
        assert a[t] in a;
        ReplacedPanes(first, t, replacement);
        ReplacedNothing(second, a[t].id, replacement);
      } else {
        assert b[t - |a|] in b;
        ReplacedNothing(first, b[t - |a|].id, replacement);
        ReplacedPanes(second, t - |a|, replacement);
      }
  }

  lemma SeamOfPanes(a: seq<Pane>, b: seq<Pane>, t: nat, middle: seq<Pane>)
    requires t < |a| + |b|
    ensures (a + b)[..t] + middle + (a + b)[t + 1..] ==
              if t < |a| then a[..t] + middle + a[t + 1..] + b
              else a + (b[..t - |a|] + middle + b[t - |a| + 1..])
  {
    var s := a + b;
    if t < |a| {
      assert s[..t] == a[..t] && s[t + 1..] == a[t + 1..] + b;
    } else {
      assert s[..t] == a + b[..t - |a|] && s[t + 1..] == b[t - |a| + 1..];
    }
  }

  lemma ReplacedNode(node: Node, t: nat, replacement: Node)
    requires t < |Panes(node)| && Distinct(Ids(States(Panes(node))))
    ensures Panes(ReplaceNode(node, Panes(node)[t].id, replacement))
            == Panes(node)[..t] + Panes(replacement) + Panes(node)[t + 1..]
  {
    var panes := Panes(node);
    forall i, j | 0 <= i < j < |panes| ensures panes[i].id != panes[j].id {
      assert Ids(States(panes))[i] != Ids(States(panes))[j];
    }
    ReplacedPanes(node, t, replacement);
  }

  /** A new pane next to one of the panes is not an alias. */
  lemma PairedPanes(panes: seq<Pane>, t: nat, pane: Pane, first: bool)
    requires t < |panes| && NoAlias(panes) && pane !in panes
    ensures NoAlias(panes[..t] + (if first then [pane, panes[t]] else [panes[t], pane]) + panes[t + 1..])
  {
    var k := if first then t else t + 1;
    var s := panes[..k] + [pane] + panes[k..];
    assert panes[..t] + (if first then [pane, panes[t]] else [panes[t], pane]) + panes[t + 1..] == s;
    assert panes == panes[..k] + panes[k..];
    NoAliasParts(panes[..k], panes[k..]);
    NoAliasJoin(panes[..k], [pane]);
    NoAliasJoin(panes[..k] + [pane], panes[k..]);
  }

  /** The ids in use depend on the ids of the panes only. */
  lemma SameUsed(ws: Workspace, changed: Workspace)
    requires ws.layout.Some? && changed.layout.Some? && ws.nodes == changed.nodes
    requires Ids(Leaves(ws.layout.value)) == Ids(Leaves(changed.layout.value))
    ensures UsedIds(ws) == UsedIds(changed)
  {
  }

  lemma FilterNext(keys: seq<string>, n: nat, valid: set<string>, claimed: set<string>)
    requires n < |keys|
    ensures FilterKeys(keys[n..], valid, claimed)
            == if keys[n] in valid && keys[n] !in claimed
                then [keys[n]] + FilterKeys(keys[n + 1..], valid, claimed + {keys[n]})
               else FilterKeys(keys[n + 1..], valid, claimed)
  {
    assert keys[n..][0] == keys[n] && keys[n..][1..] == keys[n + 1..];
  }

  lemma FilterDone(keys: seq<string>, valid: set<string>, claimed: set<string>)
    ensures FilterKeys(keys[|keys|..], valid, claimed) == []
  {
  }

  lemma KnownKey(tabs: seq<Tab>, n: nat)
    requires n < |tabs|
    ensures tabs[n].key in Elements(Keys(tabs)) && Keys(tabs)[n] == tabs[n].key
  {
  }

  lemma ClosedNext(history: History, panes: seq<PaneState>, n: nat, targets: set<string>)
    requires n < |panes|
    ensures var rest := ClosedPanes(ClosedHistory(history, panes[n], targets), panes[n + 1..], targets);
            var all := ClosedPanes(history, panes[n..], targets);
            all.0 == [ClosedPane(history, panes[n], targets)] + rest.0 && all.1 == rest.1
  {
    assert panes[n..][0] == panes[n] && panes[n..][1..] == panes[n + 1..];
  }

  lemma ClosedNone(history: History, targets: set<string>)
    ensures forall h: History :: ClosedPanes(h, [], targets) == ([], h)
  {
  }

  lemma LoseWelcomeNext(panes: seq<PaneState>, n: nat)
    requires n < |panes|
    ensures LoseWelcome(panes[n..]) == LoseWelcome([panes[n]]) + LoseWelcome(panes[n + 1..])
  {
    assert panes[n..][0] == panes[n] && panes[n..][1..] == panes[n + 1..];
    assert [panes[n]][0] == panes[n] && [panes[n]][1..] == [];
  }

  lemma LeavesExist(ws: Workspace)
    requires ws.layout.Some?
    ensures LeavesOf(ws.layout) == Leaves(ws.layout.value) != []
  {
  }

  lemma RepeatedWithPanes(layout: Layout, first: seq<PaneState>, second: seq<PaneState>)
    requires |first| == |second| == |Leaves(layout)|
    ensures |Leaves(WithPanes(layout, first))| == |second|
    ensures WithPanes(WithPanes(layout, first), second) == WithPanes(layout, second)
  {
    LeavesOfWithPanes(layout, first);
    WithPanesTwice(layout, first, second);
  }

  lemma {:induction false} WithPanesTwice(layout: Layout, first: seq<PaneState>, second: seq<PaneState>)
    requires |first| == |second| == |Leaves(layout)| == |Leaves(WithPanes(layout, first))|
    ensures WithPanes(WithPanes(layout, first), second) == WithPanes(layout, second)
  {
    match layout
    case Leaf(_) =>
    case Split(_, a, b) =>
      var n := |Leaves(a)|;
      LeavesOfWithPanes(a, first[..n]);
      LeavesOfWithPanes(b, first[n..]);
      WithPanesTwice(a, first[..n], second[..n]);
      WithPanesTwice(b, first[n..], second[n..]);
  }

  /** `Reconcile`, given the panes it normalizes. */
  lemma ReconcileSteps(ws: Workspace, layout: Layout, i: nat, gathered: seq<PaneState>, panes: seq<PaneState>,
      serial: nat)
    requires serial == (if ws.layout.Some? then ws.serial else NextSerial(ws.serial, UsedIds(ws)))
    requires layout == (if ws.layout.Some? then ws.layout.value else Leaf(PaneState(PaneName(serial), [], "")))
    requires var purged := FilterPanes(Leaves(layout), Elements(Keys(ws.tabs)), {});
             && i < |purged| && i == Choose(purged, ws.focused, ws.focused)
             && gathered == Adopt(purged, i, Keys(ws.tabs))
    requires panes == gathered[i := gathered[i].(active := ShownAfter(ws.active, gathered[i]))]
    ensures Reconcile(ws) == Normalize(ws.(layout := Some(WithPanes(layout, panes)), serial := serial), panes[i].id)
  {
    hide Normalize, NextSerial, PaneName, Ids, Elements, Flat, Keys, Choose, FilterPanes, FilterKeys, WithPanes,
        Leaves, UsedIds;
  }

  lemma NextUnfolds(serial: nat, used: set<string>)
    ensures var name := PaneName(serial + 1);
            NextSerial(serial, used) == if name in used then NextSerial(serial + 1, used - {name}) else serial + 1
  {
  }

  lemma NothingUsed(ws: Workspace)
    requires ws.layout.None?
    ensures UsedIds(ws) == ws.nodes
  {
  }

  /** Normalizing does not look at the tree it replaces. */
  lemma NormalizeOverAnyTree(ws: Workspace, changed: Workspace, preferred: string)
    requires changed == ws.(layout := changed.layout) && changed.layout.Some?
    ensures NormalizeOver(ws, changed.layout.value, preferred)
            == NormalizeOver(changed, changed.layout.value, preferred)
  {
    hide FilterPanes, FilterKeys, Flat, Choose, Keys, WithPanes, Leaves, Ids, TabsInOrder;
  }

  lemma LoneView(pane: Pane)
    ensures View(PaneNode(pane)) == Leaf(pane.State())
    ensures NoAlias(Panes(PaneNode(pane)))
  {
  }

  /** What becomes of the panes when they are purged, the one at `i` takes the stray tabs and
      comes to show a tab. */
  ghost predicate SettledPanes(before: seq<PaneState>, keys: seq<string>, preferred: string, focused: string, i: nat,
                               panes: seq<PaneState>)
  {
    var purged := FilterPanes(before, Elements(keys), {});
    && i < |purged| && i == Choose(purged, preferred, focused)
    && var adopted := Adopt(purged, i, keys);
       panes == adopted[i := if adopted[i].active == "" then adopted[i].(active := First(adopted[i].tabs))
           else adopted[i]]
  }

  /** `NormalizeOver`, given the panes it arrives at. */
  lemma NormalizeOverSteps(ws: Workspace, layout: Layout, preferred: string, panes: seq<PaneState>, i: nat)
    requires SettledPanes(Leaves(layout), Keys(ws.tabs), preferred, ws.focused, i, panes)
    ensures var focused := if ws.focused in Ids(panes) then ws.focused else panes[i].id;
            var shown := panes[Choose(panes, focused, focused)].active;
            NormalizeOver(ws, layout, preferred)
            == ws.(layout := Some(WithPanes(layout, panes)), tabs := TabsInOrder(ws.tabs, Flat(panes)),
                   focused := focused, active := if shown == "" then ws.active else shown)
  {
    hide FilterPanes, FilterKeys, Flat, Choose, Keys, WithPanes, Leaves, Ids, TabsInOrder;
  }

  lemma {:induction false} FirstIndex(ids: seq<string>, i: nat)
    requires i < |ids| && ids[i] !in ids[..i]
    ensures IndexOf(ids, ids[i]) == i
  {
    if i > 0 {
      assert ids[..i][0] == ids[0];
      assert ids[1..][..i - 1] == ids[..i][1..];
      FirstIndex(ids[1..], i - 1);
    }
  }
}
