/**
 The directory trees a migration copies, and the manifest that is compared before the
 copy is trusted.

 A runtime root holds at most two entries, `data` and `.ssh`.  Below them is an ordinary
 directory tree whose folders list their entries in the order in which the manifest visits
 them.  The manifest itself is a flat list of rows: one per folder, one per file with the
 file's size.
 */
module RuntimeTree {
  datatype Node = File(content: seq<bv8>) | Folder(entries: seq<Entry>)
  datatype Entry = Entry(name: string, node: Node)

  type Entries = seq<Entry>
  type Path = seq<string>

  /** The two names a migration owns inside a runtime root. */
  datatype Slot = Data | Ssh {
    function FileName(): string {
      match this
      case Data => "data"
      case Ssh => ".ssh"
    }
  }

  /** A runtime root: the slots that exist in it, with their contents. */
  type Root = map<Slot, Entries>

  datatype Row = FolderRow(path: Path) | FileRow(path: Path, size: nat)

  /** The rows of one directory entry, each row carrying its full path. */
  function EntryRows(entry: Entry, prefix: Path): seq<Row>
    decreases entry
  {
    var path := prefix + [entry.name];
    match entry.node
    case File(content) => [FileRow(path, |content|)]
    case Folder(sub) => [FolderRow(path)] + Rows(sub, path)
  }

  function Rows(entries: Entries, prefix: Path): seq<Row>
    decreases entries
  {
    if entries == [] then [] else EntryRows(entries[0], prefix) + Rows(entries[1..], prefix)
  }

  /** The entries of the data directory that outlive a run of the program. */
  function Persistent(entries: Entries, transient: set<string>): (kept: Entries)
    ensures forall e :: e in kept <==> e in entries && e.name !in transient
  {
    if entries == [] then []
    else if entries[0].name in transient then Persistent(entries[1..], transient)
    else [entries[0]] + Persistent(entries[1..], transient)
  }

  /** What a slot must keep: everything but the transient entries at the top of `data`. */
  function Kept(root: Root, slot: Slot, transient: set<string>): Entries {
    if slot !in root then []
    else if slot.Data? then Persistent(root[slot], transient)
    else root[slot]
  }

  function SlotRows(root: Root, slot: Slot, transient: set<string>): seq<Row> {
    Rows(Kept(root, slot, transient), [slot.FileName()])
  }

  function Manifest(root: Root, transient: set<string>): seq<Row> {
    SlotRows(root, Data, transient) + SlotRows(root, Ssh, transient)
  }

  /** A tree with file contents reduced to their sizes. */
  datatype Shape = FileShape(size: nat) | FolderShape(entries: seq<Outline>)
  datatype Outline = Outline(name: string, shape: Shape)

  function EntryOutline(entry: Entry): Outline
    decreases entry
  {
    match entry.node
    case File(content) => Outline(entry.name, FileShape(|content|))
    case Folder(sub) => Outline(entry.name, FolderShape(Outlines(sub)))
  }

  function Outlines(entries: Entries): seq<Outline>
    decreases entries
  {
    if entries == [] then [] else [EntryOutline(entries[0])] + Outlines(entries[1..])
  }

  /** Every row of `Rows(entries, prefix)` lies strictly below `prefix`. */
  lemma {:induction false} RowsBelow(entries: Entries, prefix: Path)
    ensures forall r :: r in Rows(entries, prefix) ==> |prefix| < |r.path| && prefix <= r.path
    decreases entries
  {
    if entries != [] {
      var path := prefix + [entries[0].name];
      if entries[0].node.Folder? { RowsBelow(entries[0].node.entries, path); }
      RowsBelow(entries[1..], prefix);
    }
  }

  /** How many rows at the front satisfy `p`. */
  function Lead(rows: seq<Row>, p: Row -> bool): (n: nat)
    ensures n <= |rows|
  {
    if rows == [] || !p(rows[0]) then 0 else 1 + Lead(rows[1..], p)
  }

  lemma {:induction false} LeadOfConcat(a: seq<Row>, b: seq<Row>, p: Row -> bool)
    requires forall r :: r in a ==> p(r)
    requires b != [] ==> !p(b[0])
    ensures Lead(a + b, p) == |a|
  {
    if a == [] {
      assert a + b == b;
    } else {
      assert (a + b)[1..] == a[1..] + b;
      LeadOfConcat(a[1..], b, p);
    }
  }

  /** Two concatenations agree piecewise when a property of rows marks the seam. */
  lemma SplitAtSeam(a: seq<Row>, b: seq<Row>, a': seq<Row>, b': seq<Row>, p: Row -> bool)
    requires a + b == a' + b'
    requires forall r :: r in a || r in a' ==> p(r)
    requires b != [] ==> !p(b[0])
    requires b' != [] ==> !p(b'[0])
    ensures a == a' && b == b'
  {
    LeadOfConcat(a, b, p);
    LeadOfConcat(a', b', p);
    assert a == (a + b)[..|a|] && b == (a + b)[|a|..];
    assert a' == (a' + b')[..|a|] && b' == (a' + b')[|a|..];
  }

  /** What the first row of an entry says about it. */
  lemma HeadRow(entry: Entry, prefix: Path)
    ensures var rows := EntryRows(entry, prefix);
            && rows != []
            && rows[0].path == prefix + [entry.name]
            && (entry.node.Folder? <==> rows[0].FolderRow?)
            && (entry.node.File? ==> rows == [FileRow(prefix + [entry.name], |entry.node.content|)])
            && (entry.node.Folder? ==> rows[1..] == Rows(entry.node.entries, prefix + [entry.name]))
  {
  }

  lemma FirstRow(entries: Entries, prefix: Path)
    requires entries != []
    ensures Rows(entries, prefix) != []
    ensures Rows(entries, prefix)[0] == EntryRows(entries[0], prefix)[0]
    ensures |Rows(entries, prefix)[0].path| == |prefix| + 1
  {
    HeadRow(entries[0], prefix);
  }

  /** The rows of the first entry and the rows of the others can be told apart. */
  lemma HeadAndTail(a: Entries, b: Entries, prefix: Path)
    requires a != [] && b != []
    requires Rows(a, prefix) == Rows(b, prefix)
    ensures EntryRows(a[0], prefix) == EntryRows(b[0], prefix)
    ensures Rows(a[1..], prefix) == Rows(b[1..], prefix)
  {
    SeamAfterEntry(a, prefix);
    SeamAfterEntry(b, prefix);
    SplitAfterFirst(EntryRows(a[0], prefix), Rows(a[1..], prefix),
                    EntryRows(b[0], prefix), Rows(b[1..], prefix), |prefix| + 1);
  }

  lemma SplitAfterFirst(a: seq<Row>, b: seq<Row>, a': seq<Row>, b': seq<Row>, depth: nat)
    requires a + b == a' + b' && a != [] && a' != []
    requires forall r :: r in a[1..] || r in a'[1..] ==> depth < |r.path|
    requires b != [] ==> |b[0].path| <= depth
    requires b' != [] ==> |b'[0].path| <= depth
    ensures a == a' && b == b'
  {
    assert a[0] == (a + b)[0] == (a' + b')[0] == a'[0];
    assert a[1..] + b == (a + b)[1..] && a'[1..] + b' == (a' + b')[1..];
    SplitAtSeam(a[1..], b, a'[1..], b', (r: Row) => depth < |r.path|);
    assert a == [a[0]] + a[1..] && a' == [a'[0]] + a'[1..];
  }

  /** Equal manifests of two directory listings mean equal trees, up to file contents. */
  lemma {:induction false} RowsDetermineOutlines(a: Entries, b: Entries, prefix: Path)
    ensures Rows(a, prefix) == Rows(b, prefix) <==> Outlines(a) == Outlines(b)
    decreases a, 1
  {
    if a != [] && b != [] {
      if Rows(a, prefix) == Rows(b, prefix) { HeadAndTail(a, b, prefix); }
      EntryDetermined(a[0], b[0], prefix);
      RowsDetermineOutlines(a[1..], b[1..], prefix);
      assert Outlines(a)[0] == EntryOutline(a[0]) && Outlines(a)[1..] == Outlines(a[1..]);
      assert Outlines(b)[0] == EntryOutline(b[0]) && Outlines(b)[1..] == Outlines(b[1..]);
    } else {
      if a != [] { FirstRow(a, prefix); }
      if b != [] { FirstRow(b, prefix); }
    }
  }

  /** Below the first row of an entry all paths are longer; the next entry starts shorter again. */
  lemma SeamAfterEntry(entries: Entries, prefix: Path)
    requires entries != []
    ensures EntryRows(entries[0], prefix) != []
    ensures forall r :: r in EntryRows(entries[0], prefix)[1..] ==> |prefix| + 1 < |r.path|
    ensures Rows(entries[1..], prefix) != [] ==> |Rows(entries[1..], prefix)[0].path| == |prefix| + 1
  {
    HeadRow(entries[0], prefix);
    if entries[0].node.Folder? { RowsBelow(entries[0].node.entries, prefix + [entries[0].name]); }
    if entries[1..] != [] { FirstRow(entries[1..], prefix); }
  }

  lemma {:induction false} EntryDetermined(a: Entry, b: Entry, prefix: Path)
    ensures EntryRows(a, prefix) == EntryRows(b, prefix) <==> EntryOutline(a) == EntryOutline(b)
    decreases a, 0
  {
    HeadRow(a, prefix); HeadRow(b, prefix);
    var pa, pb := prefix + [a.name], prefix + [b.name];
    assert pa[|prefix|] == a.name && pb[|prefix|] == b.name;
    if a.node.Folder? && b.node.Folder? {
      RowsDetermineOutlines(a.node.entries, b.node.entries, pa);
      assert EntryRows(a, prefix) == [FolderRow(pa)] + Rows(a.node.entries, pa);
      assert EntryRows(b, prefix) == [FolderRow(pb)] + Rows(b.node.entries, pb);
    }
  }

  /** The rows of the two slots cannot be confused: the first path component tells them apart. */
  lemma SlotRowsApart(root: Root, slot: Slot, transient: set<string>)
    ensures forall r :: r in SlotRows(root, slot, transient)
              ==> r.path != [] && r.path[0] == slot.FileName()
  {
    RowsBelow(Kept(root, slot, transient), [slot.FileName()]);
    forall r | r in SlotRows(root, slot, transient)
      ensures r.path != [] && r.path[0] == slot.FileName()
    {
      assert [slot.FileName()] <= r.path;
    }
  }

  /** Manifests are equal exactly when both slots list the same rows. */
  lemma ManifestBySlot(a: Root, ta: set<string>, b: Root, tb: set<string>)
    ensures Manifest(a, ta) == Manifest(b, tb) <==>
            forall slot :: SlotRows(a, slot, ta) == SlotRows(b, slot, tb)
  {
    if Manifest(a, ta) == Manifest(b, tb) {
      var da, sa := SlotRows(a, Data, ta), SlotRows(a, Ssh, ta);
      var db, sb := SlotRows(b, Data, tb), SlotRows(b, Ssh, tb);
      SlotRowsApart(a, Data, ta); SlotRowsApart(a, Ssh, ta);
      SlotRowsApart(b, Data, tb); SlotRowsApart(b, Ssh, tb);
      assert "data" != ".ssh" by { assert "data"[0] != ".ssh"[0]; }
      SplitAtSeam(da, sa, db, sb, (r: Row) => r.path != [] && r.path[0] == "data");
      forall slot ensures SlotRows(a, slot, ta) == SlotRows(b, slot, tb) {
        match slot case Data => case Ssh =>
      }
    }
  }

  // ---------------------------------------------------------------- what a root holds

  /** The entries of a slot; a slot that does not exist has none. */
  function Listing(root: Root, slot: Slot): Entries { if slot in root then root[slot] else [] }

  /** The names that need not be kept: only some at the top of `data`. */
  function Dropped(slot: Slot, transient: set<string>): set<string> {
    match slot case Data => transient case Ssh => {}
  }

  /** The positions of the entries with other names, in order. */
  ghost predicate Selects(at: seq<nat>, entries: Entries, dropped: set<string>) {
    && (forall j :: 0 <= j < |at| ==> at[j] < |entries| && entries[at[j]].name !in dropped)
    && (forall j, k :: 0 <= j < k < |at| ==> at[j] < at[k])
    && (forall i :: 0 <= i < |entries| && entries[i].name !in dropped ==> i in at)
  }

  /** `b` has the entries of `a` at these positions, and nothing else: the same entries, or
      entries with the same names and sizes. */
  ghost predicate Takes(b: Entries, a: Entries, at: seq<nat>) {
    |b| == |at| && forall j :: 0 <= j < |at| ==> at[j] < |a| && b[j] == a[at[j]]
  }

  ghost predicate Resembles(b: Entries, a: Entries, at: seq<nat>) {
    |b| == |at| && forall j :: 0 <= j < |at| ==> at[j] < |a| && EntryOutline(b[j]) == EntryOutline(a[at[j]])
  }

  /** The entries of `a` but those with the dropped names, in order and with all contents. */
  ghost predicate SameEntries(b: Entries, a: Entries, dropped: set<string>) {
    exists at :: Selects(at, a, dropped) && Takes(b, a, at)
  }

  /** The same trees up to file contents, in the same order. */
  ghost predicate SameOutlines(b: Entries, a: Entries, dropped: set<string>) {
    exists at :: Selects(at, a, dropped) && Resembles(b, a, at)
  }

  /** `b` holds everything of `a` that outlives a run, and nothing else: the same trees, names and
      sizes. */
  ghost predicate HoldsAll(b: Root, a: Root, transient: set<string>) {
    forall slot :: SameOutlines(Listing(b, slot), Listing(a, slot), Dropped(slot, transient))
  }

  /** `b` keeps everything of `a` that outlives a run, and nothing else: the same trees, names and
      contents. */
  ghost predicate KeepsAll(b: Root, a: Root, transient: set<string>) {
    forall slot :: SameEntries(Listing(b, slot), Listing(a, slot), Dropped(slot, transient))
  }

  function Shifted(at: seq<nat>): (r: seq<nat>)
    requires forall j :: 0 <= j < |at| ==> at[j] > 0
    ensures |r| == |at| && forall j :: 0 <= j < |at| ==> r[j] == at[j] - 1
  {
    seq(|at|, j requires 0 <= j < |at| => at[j] - 1)
  }

  /** Positions after the first are positions in the rest. */
  lemma ShiftedSelects(at: seq<nat>, entries: Entries, rest: Entries, dropped: set<string>)
    requires |entries| == |rest| + 1 && forall i :: 0 <= i < |rest| ==> rest[i] == entries[i + 1]
    requires forall j :: 0 <= j < |at| ==> 0 < at[j] < |entries| && entries[at[j]].name !in dropped
    requires forall j, k :: 0 <= j < k < |at| ==> at[j] < at[k]
    requires forall i :: 0 < i < |entries| && entries[i].name !in dropped ==> i in at
    ensures Selects(Shifted(at), rest, dropped)
  {
    var shifted := Shifted(at);
    forall i | 0 <= i < |rest| && rest[i].name !in dropped ensures i in shifted {
      assert entries[i + 1].name !in dropped;
      var j :| 0 <= j < |at| && at[j] == i + 1;
      assert shifted[j] == i;
    }
  }

  lemma SelectsAfterKept(at: seq<nat>, entries: Entries, dropped: set<string>)
    requires entries != [] && Selects(at, entries, dropped) && entries[0].name !in dropped
    ensures at != [] && at[0] == 0 && (forall j :: 0 <= j < |at[1..]| ==> at[1..][j] > 0)
    ensures Selects(Shifted(at[1..]), entries[1..], dropped)
  {
    assert 0 in at;
    var z :| 0 <= z < |at| && at[z] == 0;
    FirstIsLeast(at, z);
    var later := at[1..];
    assert forall j :: 0 <= j < |later| ==> later[j] == at[j + 1];
    forall i | 0 < i < |entries| && entries[i].name !in dropped ensures i in later { StillIn(at, i); }
    ShiftedSelects(later, entries, entries[1..], dropped);
  }

  lemma StillIn(at: seq<nat>, i: nat)
    requires at != [] && i in at && i != at[0]
    ensures i in at[1..]
  {
    var j :| 0 <= j < |at| && at[j] == i;
    assert at[1..][j - 1] == i;
  }

  lemma FirstIsLeast(at: seq<nat>, z: nat)
    requires z < |at| && forall j, k :: 0 <= j < k < |at| ==> at[j] < at[k]
    ensures at[0] <= at[z] && forall j :: 0 < j < |at| ==> at[0] < at[j]
  {
  }

  lemma SelectsAfterDropped(at: seq<nat>, entries: Entries, dropped: set<string>)
    requires entries != [] && Selects(at, entries, dropped) && entries[0].name in dropped
    ensures forall j :: 0 <= j < |at| ==> at[j] > 0
    ensures Selects(Shifted(at), entries[1..], dropped)
  {
    forall j | 0 <= j < |at| ensures at[j] > 0 { assert entries[at[j]].name !in dropped; }
    ShiftedSelects(at, entries, entries[1..], dropped);
  }

  lemma SelectedIsThere(at: seq<nat>, entries: Entries, dropped: set<string>)
    requires at != [] && Selects(at, entries, dropped)
    ensures entries != []
  {
    assert at[0] < |entries|;
  }

  lemma TakesKept(b: Entries, a: Entries, at: seq<nat>)
    requires a != [] && at != [] && at[0] == 0 && forall j :: 0 <= j < |at[1..]| ==> at[1..][j] > 0
    requires Takes(b, a[1..], Shifted(at[1..]))
    ensures Takes([a[0]] + b, a, at)
  {
    var r := [a[0]] + b;
    forall j | 0 <= j < |at| ensures at[j] < |a| && r[j] == a[at[j]] {
      if j > 0 { assert at[j] == at[1..][j - 1] && r[j] == b[j - 1]; }
    }
  }

  lemma TakesDropped(b: Entries, a: Entries, at: seq<nat>)
    requires a != [] && (forall j :: 0 <= j < |at| ==> at[j] > 0) && Takes(b, a[1..], Shifted(at))
    ensures Takes(b, a, at)
  {
  }

  /** What is persistent is what any such positions select. */
  lemma {:induction false} PersistentIsSelected(at: seq<nat>, entries: Entries, dropped: set<string>)
    requires Selects(at, entries, dropped)
    ensures Takes(Persistent(entries, dropped), entries, at)
    decreases |entries|
  {
    if entries == [] {
      if at != [] { SelectedIsThere(at, entries, dropped); }
    } else if entries[0].name in dropped {
      hide Selects, Takes;
      SelectsAfterDropped(at, entries, dropped);
      PersistentIsSelected(Shifted(at), entries[1..], dropped);
      TakesDropped(Persistent(entries[1..], dropped), entries, at);
    } else {
      hide Selects, Takes;
      SelectsAfterKept(at, entries, dropped);
      PersistentIsSelected(Shifted(at[1..]), entries[1..], dropped);
      TakesKept(Persistent(entries[1..], dropped), entries, at);
    }
  }

  lemma {:induction false} SomeSelect(entries: Entries, dropped: set<string>) returns (at: seq<nat>)
    ensures Selects(at, entries, dropped)
  {
    at := [];
    var i := 0;
    while i < |entries|
      invariant 0 <= i <= |entries|
      invariant forall j :: 0 <= j < |at| ==> at[j] < i && entries[at[j]].name !in dropped
      invariant forall j, k :: 0 <= j < k < |at| ==> at[j] < at[k]
      invariant forall k :: 0 <= k < i && entries[k].name !in dropped ==> k in at
    {
      if entries[i].name !in dropped { at := at + [i]; }
      i := i + 1;
    }
  }

  lemma {:induction false} OutlinesAt(entries: Entries)
    ensures |Outlines(entries)| == |entries|
    ensures forall i :: 0 <= i < |entries| ==> Outlines(entries)[i] == EntryOutline(entries[i])
  {
    if entries != [] { OutlinesAt(entries[1..]); }
  }

  /** What is kept of a slot, in terms of its listing. */
  lemma KeptIsListed(root: Root, slot: Slot, transient: set<string>)
    ensures Kept(root, slot, transient) == Persistent(Listing(root, slot), Dropped(slot, transient))
    ensures Kept(root, slot, {}) == Listing(root, slot)
  {
    KeptWhole(root, slot);
    if slot.Ssh? { PersistentOfNone(Listing(root, slot)); }
  }

  lemma TakenOnce(b: Entries, kept: Entries, a: Entries, at: seq<nat>)
    requires Takes(kept, a, at)
    ensures Takes(b, a, at) <==> b == kept
  {
  }

  lemma ResemblesTaken(b: Entries, kept: Entries, a: Entries, at: seq<nat>)
    requires Takes(kept, a, at)
    ensures Resembles(b, a, at) <==> Outlines(b) == Outlines(kept)
  {
    hide Outlines, EntryOutline;
    OutlinesAt(b);
    OutlinesAt(kept);
    if Outlines(b) == Outlines(kept) {
      forall j | 0 <= j < |at| ensures EntryOutline(b[j]) == EntryOutline(a[at[j]]) {
        assert Outlines(b)[j] == Outlines(kept)[j];
      }
    }
  }

  lemma SameEntriesIff(b: Entries, a: Entries, dropped: set<string>)
    ensures SameEntries(b, a, dropped) <==> b == Persistent(a, dropped)
  {
    hide Selects, Takes, Persistent;
    var at := SomeSelect(a, dropped);
    PersistentIsSelected(at, a, dropped);
    TakenOnce(b, Persistent(a, dropped), a, at);
    if SameEntries(b, a, dropped) {
      var other :| Selects(other, a, dropped) && Takes(b, a, other);
      PersistentIsSelected(other, a, dropped);
      TakenOnce(b, Persistent(a, dropped), a, other);
    }
  }

  lemma SameOutlinesIff(b: Entries, a: Entries, dropped: set<string>)
    ensures SameOutlines(b, a, dropped) <==> Outlines(b) == Outlines(Persistent(a, dropped))
  {
    hide Selects, Takes, Resembles, Persistent, Outlines;
    var at := SomeSelect(a, dropped);
    PersistentIsSelected(at, a, dropped);
    ResemblesTaken(b, Persistent(a, dropped), a, at);
    if SameOutlines(b, a, dropped) {
      var other :| Selects(other, a, dropped) && Resembles(b, a, other);
      PersistentIsSelected(other, a, dropped);
      ResemblesTaken(b, Persistent(a, dropped), a, other);
    }
  }

  /** The comparison made before a copy is trusted decides exactly whether a root holds it all. */
  lemma ManifestDecidesHolding(a: Root, b: Root, transient: set<string>)
    ensures Manifest(a, transient) == Manifest(b, {}) <==> HoldsAll(b, a, transient)
  {
    hide Selects, SameOutlines, Outlines;
    ManifestBySlot(a, transient, b, {});
    forall slot
      ensures SlotRows(a, slot, transient) == SlotRows(b, slot, {}) <==>
              SameOutlines(Listing(b, slot), Listing(a, slot), Dropped(slot, transient))
    {
      RowsDetermineOutlines(Kept(a, slot, transient), Kept(b, slot, {}), [slot.FileName()]);
      KeptIsListed(a, slot, transient);
      KeptIsListed(b, slot, {});
      SameOutlinesIff(Listing(b, slot), Listing(a, slot), Dropped(slot, transient));
    }
  }

  // ---------------------------------------------------------------- parts of a tree

  /** What is left of a listing when some of its entries, or entries below them, are gone. */
  predicate PartOf(a: Entries, b: Entries)
    decreases b
  {
    if b == [] then a == []
    else PartOf(a, b[1..])
         || (a != [] && a[0].name == b[0].name && PartOfNode(a[0].node, b[0].node) && PartOf(a[1..], b[1..]))
  }

  predicate PartOfNode(a: Node, b: Node)
    decreases b
  {
    a == b || (a.Folder? && b.Folder? && PartOf(a.entries, b.entries))
  }

  lemma {:induction false} PartOfItself(a: Entries)
    ensures PartOf(a, a) && PartOf([], a)
  {
    if a != [] { PartOfItself(a[1..]); }
  }

  lemma {:induction false} PartOfPart(a: Entries, b: Entries, c: Entries)
    requires PartOf(a, b) && PartOf(b, c)
    ensures PartOf(a, c)
    decreases c, b
  {
    if c != [] {
      if PartOf(b, c[1..]) {
        PartOfPart(a, b, c[1..]);
      } else if PartOf(a, b[1..]) {
        PartOfPart(a, b[1..], c[1..]);
      } else {
        PartOfPart(a[1..], b[1..], c[1..]);
        if a[0].node != b[0].node && b[0].node != c[0].node {
          PartOfPart(a[0].node.entries, b[0].node.entries, c[0].node.entries);
        }
      }
    }
  }

  lemma {:induction false} PartIsShorter(a: Entries, b: Entries)
    requires PartOf(a, b)
    ensures |a| <= |b|
  {
    if b != [] {
      if PartOf(a, b[1..]) { PartIsShorter(a, b[1..]); } else { PartIsShorter(a[1..], b[1..]); }
    }
  }

  /** A part with the same names and sizes is the whole, with all contents. */
  lemma {:induction false} PartWithSameOutlines(a: Entries, b: Entries)
    requires PartOf(a, b) && Outlines(a) == Outlines(b)
    ensures a == b
    decreases b
  {
    OutlinesLength(a);
    OutlinesLength(b);
    if b != [] {
      assert !PartOf(a, b[1..]) by { if PartOf(a, b[1..]) { PartIsShorter(a, b[1..]); } }
      assert EntryOutline(a[0]) == Outlines(a)[0] == Outlines(b)[0] == EntryOutline(b[0]);
      assert Outlines(a[1..]) == Outlines(a)[1..] == Outlines(b)[1..] == Outlines(b[1..]);
      if a[0].node != b[0].node { PartWithSameOutlines(a[0].node.entries, b[0].node.entries); }
      PartWithSameOutlines(a[1..], b[1..]);
      assert a == [a[0]] + a[1..] && b == [b[0]] + b[1..];
    }
  }

  lemma {:induction false} OutlinesLength(a: Entries)
    ensures |Outlines(a)| == |a|
  {
    if a != [] { OutlinesLength(a[1..]); }
  }

  // ---------------------------------------------------------------- copying

  lemma {:induction false} PersistentOfNone(entries: Entries)
    ensures Persistent(entries, {}) == entries
  {
    if entries != [] {
      PersistentOfNone(entries[1..]);
      assert entries == [entries[0]] + entries[1..];
    }
  }

  lemma KeptWhole(root: Root, slot: Slot)
    ensures Kept(root, slot, {}) == if slot in root then root[slot] else []
  {
    if slot in root { PersistentOfNone(root[slot]); }
  }

  /** The copier used in production: both slots, without the transient data entries. */
  function CopyOf(source: Root, transient: set<string>): Root {
    map slot | slot in source :: Kept(source, slot, transient)
  }

  lemma CopyPassesComparison(source: Root, transient: set<string>)
    ensures Manifest(CopyOf(source, transient), {}) == Manifest(source, transient)
  {
    KeptWhole(CopyOf(source, transient), Data);
    KeptWhole(CopyOf(source, transient), Ssh);
  }

  /** The copy has the slots of the source, and in them everything that outlives a run. */
  lemma CopyKeepsAll(source: Root, transient: set<string>)
    ensures CopyOf(source, transient).Keys == source.Keys
    ensures KeepsAll(CopyOf(source, transient), source, transient)
  {
    hide SameEntries;
    var copy := CopyOf(source, transient);
    forall slot ensures SameEntries(Listing(copy, slot), Listing(source, slot), Dropped(slot, transient)) {
      KeptIsListed(source, slot, transient);
      SameEntriesIff(Listing(copy, slot), Listing(source, slot), Dropped(slot, transient));
    }
  }

  // ---------------------------------------------------------------- the rows of a manifest

  /** There is this node at this path below the listing. */
  ghost predicate Reaches(entries: Entries, path: Path, node: Node)
    decreases |path|, 0
  {
    path != [] && exists e :: e in entries && e.name == path[0] && Leads(e.node, path[1..], node)
  }

  ghost predicate Leads(from: Node, path: Path, node: Node)
    decreases |path|, 1
  {
    if path == [] then from == node else from.Folder? && Reaches(from.entries, path, node)
  }

  function RowOf(path: Path, node: Node): Row {
    match node case File(content) => FileRow(path, |content|) case Folder(_) => FolderRow(path)
  }

  ghost predicate Shows(entries: Entries, prefix: Path, row: Row) {
    exists path, node :: Reaches(entries, path, node) && row == RowOf(prefix + path, node)
  }

  /** A listing has a row for every node below it, and no others. */
  lemma {:induction false} RowsShowTheTree(entries: Entries, prefix: Path, row: Row)
    ensures row in Rows(entries, prefix) <==> Shows(entries, prefix, row)
    decreases entries
  {
    hide Shows;
    if entries == [] {
      NothingShows(prefix, row);
    } else {
      var first, rest := entries[0], entries[1..];
      var path := prefix + [first.name];
      RowsShowTheTree(rest, prefix, row);
      if first.node.Folder? { RowsShowTheTree(first.node.entries, path, row); }
      FirstShows(first, rest, prefix, row);
      assert entries == [first] + rest;
    }
  }

  lemma NothingShows(prefix: Path, row: Row)
    ensures !Shows([], prefix, row)
  {
  }

  lemma FirstReaches(first: Entry, rest: Entries, path: Path, node: Node)
    ensures Reaches([first] + rest, path, node)
            <==> && path != []
                 && ((first.name == path[0] && Leads(first.node, path[1..], node)) || Reaches(rest, path, node))
  {
    hide Leads;
    var all := [first] + rest;
    assert first in all;
    if Reaches(rest, path, node) {
      var e :| e in rest && e.name == path[0] && Leads(e.node, path[1..], node);
      assert e in all;
    }
    if Reaches(all, path, node) {
      var e :| e in all && e.name == path[0] && Leads(e.node, path[1..], node);
      assert e != first ==> e in rest;
    }
  }

  /** The first entry shows its own row and what is below it. */
  lemma FirstShows(first: Entry, rest: Entries, prefix: Path, row: Row)
    ensures Shows([first] + rest, prefix, row) <==>
            || row == RowOf(prefix + [first.name], first.node)
            || (first.node.Folder? && Shows(first.node.entries, prefix + [first.name], row))
            || Shows(rest, prefix, row)
  {
    hide Reaches, RowOf;
    var all, name := [first] + rest, [first.name];
    if row == RowOf(prefix + name, first.node) {
      FirstReaches(first, rest, name, first.node);
      assert name[1..] == [] && Reaches(all, name, first.node);
    }
    if first.node.Folder? && Shows(first.node.entries, prefix + name, row) {
      var path, node :| Reaches(first.node.entries, path, node) && row == RowOf(prefix + name + path, node);
      FirstReaches(first, rest, name + path, node);
      ReachedHasPath(first.node.entries, path, node);
      assert (name + path)[1..] == path && prefix + name + path == prefix + (name + path);
      assert Reaches(all, name + path, node);
    }
    if Shows(rest, prefix, row) {
      var path, node :| Reaches(rest, path, node) && row == RowOf(prefix + path, node);
      FirstReaches(first, rest, path, node);
      ReachedHasPath(rest, path, node);
    }
    if Shows(all, prefix, row) {
      var path, node :| Reaches(all, path, node) && row == RowOf(prefix + path, node);
      FirstReaches(first, rest, path, node);
      if !Reaches(rest, path, node) {
        assert path == name + path[1..] && prefix + path == prefix + name + path[1..];
        if path[1..] == [] { assert path == name; }
      }
    }
  }

  lemma ReachedHasPath(entries: Entries, path: Path, node: Node)
    requires Reaches(entries, path, node)
    ensures path != []
  {
  }

  /** A row of the manifest stands for a node of a slot whose first name is not ignored there. */
  ghost predicate Manifested(root: Root, ignored: set<string>, row: Row) {
    exists slot :: ManifestedIn(root, slot, ignored, row)
  }

  ghost predicate ManifestedIn(root: Root, slot: Slot, ignored: set<string>, row: Row) {
    exists path, node ::
      && Reaches(Listing(root, slot), path, node) && path[0] !in Dropped(slot, ignored)
      && row == RowOf([slot.FileName()] + path, node)
  }

  /** The manifest has a row for every node of both slots but what is ignored at the top of
      `data`, and no others. */
  lemma ManifestShowsTheRoot(root: Root, ignored: set<string>, row: Row)
    ensures row in Manifest(root, ignored) <==> Manifested(root, ignored, row)
  {
    hide ManifestedIn;
    SlotShows(root, Data, ignored, row);
    SlotShows(root, Ssh, ignored, row);
    if Manifested(root, ignored, row) {
      var slot :| ManifestedIn(root, slot, ignored, row);
      match slot case Data => case Ssh =>
    }
  }

  lemma SlotShows(root: Root, slot: Slot, ignored: set<string>, row: Row)
    ensures row in SlotRows(root, slot, ignored) <==> ManifestedIn(root, slot, ignored, row)
  {
    hide Reaches;
    var listing, dropped, prefix := Listing(root, slot), Dropped(slot, ignored), [slot.FileName()];
    KeptIsListed(root, slot, ignored);
    RowsShowTheTree(Persistent(listing, dropped), prefix, row);
    forall path, node
      ensures Reaches(Persistent(listing, dropped), path, node)
              <==> path != [] && path[0] !in dropped && Reaches(listing, path, node)
    {
      PersistentReaches(listing, dropped, path, node);
    }
    forall path, node ensures Reaches(listing, path, node) ==> path != [] {
      PersistentReaches(listing, {}, path, node);
    }
  }

  lemma PersistentReaches(entries: Entries, dropped: set<string>, path: Path, node: Node)
    ensures Reaches(Persistent(entries, dropped), path, node)
            <==> path != [] && path[0] !in dropped && Reaches(entries, path, node)
    ensures Reaches(entries, path, node) ==> path != []
  {
  }

  // ---------------------------------------------------------------- the walk

  /** Builds a manifest by walking the tree and pushing rows, as the program does. */
  class ManifestWalk {
    var rows: seq<Row>

    constructor ()
      ensures rows == []
    {
      rows := [];
    }

    method Walk(entries: Entries, prefix: Path, ignored: set<string>)
      modifies this
      ensures rows == old(rows) + Rows(Persistent(entries, ignored), prefix)
      decreases entries, 1
    {
      var i := 0;
      while i < |entries|
        invariant 0 <= i <= |entries|
        invariant rows == old(rows) + RowsUpTo(entries, i, prefix, ignored)
      {
        if entries[i].name !in ignored { Visit(entries[i], prefix); }
        i := i + 1;
      }
      AllRows(entries, |entries|, prefix, ignored);
      assert entries[..i] == entries;
    }

    method Visit(entry: Entry, prefix: Path)
      modifies this
      ensures rows == old(rows) + EntryRows(entry, prefix)
      decreases entry, 0
    {
      var path := prefix + [entry.name];
      match entry.node {
        case Folder(sub) =>
          rows := rows + [FolderRow(path)];
          Walk(sub, path, {});
          PersistentOfNone(sub);
        case File(content) =>
          rows := rows + [FileRow(path, |content|)];
      }
    }
  }

  /** The rows pushed once the first `i` entries have been visited. */
  function RowsUpTo(entries: Entries, i: nat, prefix: Path, ignored: set<string>): seq<Row>
    requires i <= |entries|
  {
    if i == 0 then []
    else if entries[i - 1].name in ignored then RowsUpTo(entries, i - 1, prefix, ignored)
    else RowsUpTo(entries, i - 1, prefix, ignored) + EntryRows(entries[i - 1], prefix)
  }

  lemma {:induction false} AllRows(entries: Entries, i: nat, prefix: Path, ignored: set<string>)
    requires i <= |entries|
    ensures RowsUpTo(entries, i, prefix, ignored) == Rows(Persistent(entries[..i], ignored), prefix)
  {
    if i > 0 {
      AllRows(entries, i - 1, prefix, ignored);
      var before, entry := entries[..i - 1], entries[i - 1];
      assert entries[..i] == before + [entry];
      PersistentAppend(before, [entry], ignored);
      RowsAppend(Persistent(before, ignored), Persistent([entry], ignored), prefix);
      SingleRows(entry, prefix, ignored);
    }
  }

  lemma SingleRows(entry: Entry, prefix: Path, ignored: set<string>)
    ensures Rows(Persistent([entry], ignored), prefix)
            == if entry.name in ignored then [] else EntryRows(entry, prefix)
  {
    assert Persistent([entry], ignored) == if entry.name in ignored then [] else [entry];
  }

  lemma {:induction false} PersistentAppend(a: Entries, b: Entries, ignored: set<string>)
    ensures Persistent(a + b, ignored) == Persistent(a, ignored) + Persistent(b, ignored)
  {
    if a == [] {
      assert a + b == b;
    } else {
      assert (a + b)[1..] == a[1..] + b;
      PersistentAppend(a[1..], b, ignored);
    }
  }

  lemma {:induction false} RowsAppend(a: Entries, b: Entries, prefix: Path)
    ensures Rows(a + b, prefix) == Rows(a, prefix) + Rows(b, prefix)
  {
    if a == [] {
      assert a + b == b;
    } else {
      assert (a + b)[1..] == a[1..] + b;
      RowsAppend(a[1..], b, prefix);
    }
  }

  /** The whole manifest: `data` without the ignored entries at its top, then `.ssh`. */
  method BuildManifest(root: Root, ignored: set<string>) returns (rows: seq<Row>)
    ensures rows == Manifest(root, ignored)
    ensures forall row :: row in rows <==> Manifested(root, ignored, row)
  {
    hide Manifested;
    forall row ensures row in Manifest(root, ignored) <==> Manifested(root, ignored, row) {
      ManifestShowsTheRoot(root, ignored, row);
    }
    var walk := new ManifestWalk();
    if Data in root { walk.Walk(root[Data], ["data"], ignored); }
    if Ssh in root {
      walk.Walk(root[Ssh], [".ssh"], {});
      PersistentOfNone(root[Ssh]);
    }
    rows := walk.rows;
  }
}
