/**
 The workspace as values: a binary tree of panes, the list of open tabs, and the functions
 that keep the two consistent.
 */
module WorkspaceLayout {
  import opened Common

  /** A pane: its id, the keys of its tabs and the key it shows ("" for none). */
  datatype PaneState = PaneState(id: string, tabs: seq<string>, active: string)

  datatype Layout = Leaf(pane: PaneState) | Split(id: string, first: Layout, second: Layout)

  datatype Tab = Tab(key: string, title: string, pinned: bool)

  function Leaves(layout: Layout): (panes: seq<PaneState>)
    ensures panes != []
  {
    match layout
    case Leaf(pane) => [pane]
    case Split(_, first, second) => Leaves(first) + Leaves(second)
  }

  function LeavesOf(layout: Option<Layout>): seq<PaneState> {
    if layout.Some? then Leaves(layout.value) else []
  }

  /** The same tree with other panes at its leaves. */
  function WithPanes(layout: Layout, panes: seq<PaneState>): Layout
    requires |panes| == |Leaves(layout)|
  {
    match layout
    case Leaf(_) => Leaf(panes[0])
    case Split(id, first, second) =>
      var n := |Leaves(first)|;
      Split(id, WithPanes(first, panes[..n]), WithPanes(second, panes[n..]))
  }

  /** All tab keys, pane by pane from left to right. */
  function Flat(panes: seq<PaneState>): seq<string> {
    if panes == [] then [] else panes[0].tabs + Flat(panes[1..])
  }

  function Keys(tabs: seq<Tab>): (keys: seq<string>)
    ensures |keys| == |tabs|
    ensures forall i :: 0 <= i < |tabs| ==> keys[i] == tabs[i].key
  {
    if tabs == [] then [] else [tabs[0].key] + Keys(tabs[1..])
  }

  function Ids(panes: seq<PaneState>): (ids: seq<string>)
    ensures |ids| == |panes|
    ensures forall i :: 0 <= i < |panes| ==> ids[i] == panes[i].id
  {
    if panes == [] then [] else [panes[0].id] + Ids(panes[1..])
  }

  function Elements(s: seq<string>): set<string> { set x | x in s }

  /** The keys kept when a list is purged of unknown and already claimed ones. */
  function FilterKeys(keys: seq<string>, valid: set<string>, claimed: set<string>): (kept: seq<string>)
    ensures forall k :: k in kept <==> k in keys && k in valid && k !in claimed
  {
    if keys == [] then []
    else if keys[0] in valid && keys[0] !in claimed then
      [keys[0]] + FilterKeys(keys[1..], valid, claimed + {keys[0]})
    else FilterKeys(keys[1..], valid, claimed)
  }

  function First(keys: seq<string>): string { if keys == [] then "" else keys[0] }

  /** A pane shows one of its tabs; if it does not, it shows its first. */
  function Refit(pane: PaneState): PaneState {
    if pane.active in pane.tabs then pane else pane.(active := First(pane.tabs))
  }

  /** Purges pane after pane, a key belonging to the first pane that holds it. */
  function FilterPanes(panes: seq<PaneState>, valid: set<string>, claimed: set<string>): (kept: seq<PaneState>)
    ensures |kept| == |panes|
  {
    if panes == [] then []
    else
      var tabs := FilterKeys(panes[0].tabs, valid, claimed);
      [Refit(panes[0].(tabs := tabs))] + FilterPanes(panes[1..], valid, claimed + Elements(tabs))
  }

  /** Drops empty panes; a split that loses a child becomes the other child. */
  function Prune(layout: Layout): Option<Layout> {
    match layout
    case Leaf(pane) => if pane.tabs == [] then None else Some(layout)
    case Split(id, first, second) =>
      match (Prune(first), Prune(second))
      case (None, rest) => rest
      case (rest, None) => rest
      case (Some(a), Some(b)) => Some(Split(id, a, b))
  }

  function Replace(layout: Layout, target: string, replacement: Layout): Layout {
    match layout
    case Leaf(pane) => if pane.id == target then replacement else layout
    case Split(id, first, second) =>
      Split(id, Replace(first, target, replacement), Replace(second, target, replacement))
  }

  /** The position of the first pane with this id, if any. */
  function IndexOf(ids: seq<string>, id: string): (i: int)
    ensures -1 <= i < |ids|
    ensures i >= 0 ==> ids[i] == id && id !in ids[..i]
    ensures i < 0 <==> id !in ids
  {
    if ids == [] then -1
    else if ids[0] == id then 0
    else
      var i := IndexOf(ids[1..], id);
      assert i >= 0 ==> ids[..i + 1] == [ids[0]] + ids[1..][..i];
      if i < 0 then -1 else i + 1
  }

  /** The first of two wanted panes that exists, else the leftmost. */
  function Choose(panes: seq<PaneState>, wanted: string, otherwise: string): (i: nat)
    requires panes != []
    ensures i < |panes|
  {
    var a, b := IndexOf(Ids(panes), wanted), IndexOf(Ids(panes), otherwise);
    if a >= 0 then a else if b >= 0 then b else 0
  }

  /** The tab a key stands for: the last one that carries it. */
  function TabOf(tabs: seq<Tab>, key: string): (tab: Tab)
    requires key in Keys(tabs)
    ensures tab in tabs && tab.key == key
  {
    var last := tabs[|tabs| - 1];
    if last.key == key then last
    else
      assert tabs == tabs[..|tabs| - 1] + [last];
      assert key in Keys(tabs[..|tabs| - 1]) by {
        var i :| 0 <= i < |tabs| && Keys(tabs)[i] == key;
        assert Keys(tabs[..|tabs| - 1])[i] == key;
      }
      TabOf(tabs[..|tabs| - 1], key)
  }

  function TabsInOrder(tabs: seq<Tab>, order: seq<string>): (r: seq<Tab>)
    ensures (forall k :: k in order ==> k in Keys(tabs)) ==> Keys(r) == order
  {
    if order == [] then []
    else (if order[0] in Keys(tabs) then [TabOf(tabs, order[0])] else []) + TabsInOrder(tabs, order[1..])
  }

  /** The digits of a serial number. */
  function Digits(n: nat): (s: string)
    ensures s != []
  {
    var last := ["0", "1", "2", "3", "4", "5", "6", "7", "8", "9"][n % 10];
    if n < 10 then last else Digits(n / 10) + last
  }

  function PaneName(serial: nat): string { "pane-" + Digits(serial) }

  /** Everything the workspace functions read and write. `nodes` are the ids of pane elements
      that exist on the page, `history` the recently shown keys of each pane. */
  datatype Workspace = Workspace(
    layout: Option<Layout>,
    tabs: seq<Tab>,
    focused: string,
    active: string,
    serial: nat,
    nodes: set<string>,
    history: map<string, seq<string>>)

  /** The next serial whose pane name is not in use. */
  function NextSerial(serial: nat, used: set<string>): (next: nat)
    ensures next > serial
    decreases |used|
  {
    var name := PaneName(serial + 1);
    if name in used then NextSerial(serial + 1, used - {name}) else serial + 1
  }

  function UsedIds(ws: Workspace): set<string> { Elements(Ids(LeavesOf(ws.layout))) + ws.nodes }

  /** Tabs that no pane holds go to the pane at `i`. */
  function Adopt(panes: seq<PaneState>, i: nat, keys: seq<string>): (r: seq<PaneState>)
    requires i < |panes|
    ensures |r| == |panes|
  {
    panes[i := panes[i].(tabs := panes[i].tabs + FilterKeys(keys, Elements(keys), Elements(Flat(panes))))]
  }

  /** `normalizeWorkspaceLayoutAfterMutation`. */
  function Normalize(ws: Workspace, preferred: string): Workspace {
    var pruned := if ws.layout.Some? then Prune(ws.layout.value) else None;
    var spare := NextSerial(ws.serial, ws.nodes);
    var makesPane := pruned.None? && preferred == "";
    var layout := if pruned.Some? then pruned.value
                  else Leaf(PaneState(if makesPane then PaneName(spare) else preferred, [], ""));
    NormalizeOver(ws.(serial := if makesPane then spare else ws.serial), layout, preferred)
  }

  function NormalizeOver(ws: Workspace, layout: Layout, preferred: string): Workspace {
    var keys := Keys(ws.tabs);
    var purged := FilterPanes(Leaves(layout), Elements(keys), {});
    var i := Choose(purged, preferred, ws.focused);
    var adopted := Adopt(purged, i, keys);
    var pane := adopted[i];
    var panes := adopted[i := if pane.active == "" then pane.(active := First(pane.tabs)) else pane];
    var focused := if ws.focused in Ids(panes) then ws.focused else panes[i].id;
    var shown := panes[Choose(panes, focused, focused)].active;
    ws.(layout := Some(WithPanes(layout, panes)),
        tabs := TabsInOrder(ws.tabs, Flat(panes)),
        focused := focused,
        active := if shown == "" then ws.active else shown)
  }

  /** `reconcileWorkspaceLayoutTabs`. */
  function Reconcile(ws: Workspace): Workspace {
    var spare := NextSerial(ws.serial, UsedIds(ws));
    var layout := if ws.layout.Some? then ws.layout.value else Leaf(PaneState(PaneName(spare), [], ""));
    var keys := Keys(ws.tabs);
    var purged := FilterPanes(Leaves(layout), Elements(keys), {});
    var i := Choose(purged, ws.focused, ws.focused);
    var adopted := Adopt(purged, i, keys);
    var pane := adopted[i];
    var a := if ws.active != "" && ws.active in pane.tabs then ws.active else pane.active;
    var panes := adopted[i := pane.(active := if a == "" then First(pane.tabs) else a)];
    Normalize(ws.(layout := Some(WithPanes(layout, panes)),
                  serial := if ws.layout.Some? then ws.serial else spare),
              panes[i].id)
  }

  // ---------------------------------------------------------------- basic facts

  lemma {:induction false} FlatAppend(a: seq<PaneState>, b: seq<PaneState>)
    ensures Flat(a + b) == Flat(a) + Flat(b)
  {
    if a == [] {
      assert a + b == b;
    } else {
      assert (a + b)[1..] == a[1..] + b;
      FlatAppend(a[1..], b);
    }
  }

  lemma FlatOfOne(pane: PaneState)
    ensures Flat([pane]) == pane.tabs && Ids([pane]) == [pane.id]
  {
    assert [pane][1..] == [];
  }

  lemma FlatSplit(panes: seq<PaneState>, i: nat)
    requires i < |panes|
    ensures Flat(panes) == Flat(panes[..i]) + panes[i].tabs + Flat(panes[i + 1..])
  {
    hide Flat;
    assert panes == panes[..i] + panes[i..];
    assert panes[i..] == [panes[i]] + panes[i + 1..];
    FlatAppend(panes[..i], panes[i..]);
    FlatAppend([panes[i]], panes[i + 1..]);
    FlatOfOne(panes[i]);
  }

  /** Changing which tab a pane shows does not change which tabs there are. */
  lemma AdoptKeepsFlat(panes: seq<PaneState>, i: nat, changed: seq<PaneState>)
    requires i < |panes| == |changed|
    requires changed[..i] == panes[..i] && changed[i + 1..] == panes[i + 1..]
    requires changed[i].tabs == panes[i].tabs
    ensures Flat(changed) == Flat(panes)
  {
    FlatSplit(panes, i);
    FlatSplit(changed, i);
  }

  lemma {:induction false} FilterKeysAppend(a: seq<string>, b: seq<string>, valid: set<string>, claimed: set<string>)
    ensures FilterKeys(a + b, valid, claimed)
            == FilterKeys(a, valid, claimed)
             + FilterKeys(b, valid, claimed + Elements(FilterKeys(a, valid, claimed)))
    decreases |a|
  {
    if a == [] {
      assert a + b == b;
      assert claimed + Elements(FilterKeys(a, valid, claimed)) == claimed;
    } else {
      assert (a + b)[1..] == a[1..] + b;
      if a[0] in valid && a[0] !in claimed {
        FilterKeysAppend(a[1..], b, valid, claimed + {a[0]});
        var rest := FilterKeys(a[1..], valid, claimed + {a[0]});
        assert FilterKeys(a, valid, claimed) == [a[0]] + rest;
        assert claimed + Elements([a[0]] + rest) == claimed + {a[0]} + Elements(rest);
      } else {
        FilterKeysAppend(a[1..], b, valid, claimed);
      }
    }
  }

  lemma {:induction false} FlatOfFiltered(panes: seq<PaneState>, valid: set<string>, claimed: set<string>)
    ensures Flat(FilterPanes(panes, valid, claimed)) == FilterKeys(Flat(panes), valid, claimed)
    decreases |panes|
  {
    if panes != [] {
      var tabs := FilterKeys(panes[0].tabs, valid, claimed);
      FlatOfFiltered(panes[1..], valid, claimed + Elements(tabs));
      FilterKeysAppend(panes[0].tabs, Flat(panes[1..]), valid, claimed);
      assert FilterPanes(panes, valid, claimed)[1..] == FilterPanes(panes[1..], valid, claimed + Elements(tabs));
    }
  }

  lemma FilteredKeysAreKnown(purged: seq<PaneState>, i: nat, panes: seq<PaneState>, keys: seq<string>)
    requires purged == FilterPanes(panes, Elements(keys), {}) && i < |purged|
    ensures Elements(Flat(Adopt(purged, i, keys))) == Elements(keys)
  {
    FlatOfFiltered(panes, Elements(keys), {});
    AdoptedFlat(purged, i, keys);
  }

  lemma AdoptedFlat(panes: seq<PaneState>, i: nat, keys: seq<string>)
    requires i < |panes|
    ensures Flat(Adopt(panes, i, keys))
            == Flat(panes[..i]) + panes[i].tabs + FilterKeys(keys, Elements(keys), Elements(Flat(panes)))
             + Flat(panes[i + 1..])
    ensures Elements(Flat(Adopt(panes, i, keys))) == Elements(Flat(panes)) + Elements(keys)
  {
    var adopted := Adopt(panes, i, keys);
    FlatSplit(panes, i);
    FlatSplit(adopted, i);
    assert adopted[..i] == panes[..i] && adopted[i + 1..] == panes[i + 1..];
  }
}
