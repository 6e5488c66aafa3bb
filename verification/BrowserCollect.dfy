/**
 Collecting a folder: every file once, under its path in the folder, unless files and
 directories together are more than the limit.
 */
module BrowserCollect {
  import opened Common
  import opened BrowserPaths
  import opened BrowserFolder
  import opened BrowserTree

  function NamesOf(entries: seq<Entry>): (names: seq<string>)
    ensures |names| == |entries|
    ensures forall i :: 0 <= i < |entries| ==> names[i] == entries[i].name
  {
    if entries == [] then [] else [entries[0].name] + NamesOf(entries[1..])
  }

  /** The file lies in the directory under one of these names. */
  predicate Within(dir: seq<string>, names: seq<string>, f: File) { Inside(dir, f) && Child(dir, f) in names }

  ghost predicate Has(got: seq<Got>, f: File) { exists g :: g in got && g.file == f }

  /** Exactly the files under these names, once each, with their paths in the folder. */
  ghost predicate FilesRight(folder: Folder, dir: seq<string>, names: seq<string>, got: seq<Got>) {
    && (forall i, j :: 0 <= i < j < |got| ==> got[i].file != got[j].file)
    && (forall g :: g in got ==>
          g.file in folder.files && Within(dir, names, g.file) && g.relative == Join(Steps(g.file)))
    && (forall f :: f in folder.files && Within(dir, names, f) ==> Has(got, f))
  }

  ghost predicate IsDir(folder: Folder, q: seq<string>) { exists f :: f in folder.files && Inside(q, f) }

  predicate WithinDir(dir: seq<string>, names: seq<string>, q: seq<string>) { dir < q && q[|dir|] in names }

  /** Exactly the directories under these names, once each. */
  ghost predicate DirsRight(folder: Folder, dir: seq<string>, names: seq<string>, dirs: seq<string>) {
    Distinct(dirs) && AreDirs(folder, dir, names, dirs) && CoverDirs(folder, dir, names, dirs)
  }

  ghost predicate AreDirs(folder: Folder, dir: seq<string>, names: seq<string>, dirs: seq<string>) {
    forall x :: x in dirs ==> WithinDir(dir, names, Split(x)) && IsDir(folder, Split(x))
  }

  ghost predicate CoverDirs(folder: Folder, dir: seq<string>, names: seq<string>, dirs: seq<string>) {
    forall q :: WithinDir(dir, names, q) && IsDir(folder, q) ==> Join(q) in dirs
  }

  /** Files and directories added, unless they are too many. */
  function Limited(c: Collected, got: seq<Got>, dirs: seq<string>): Result<Collected> {
    var n := c.count + |got| + |dirs|;
    if n > LIMIT then Err else Ok(Collected(c.files + got, c.directories + dirs, n))
  }

  ghost predicate Good(folder: Folder, dir: seq<string>, e: Entry) {
    e.path == DirValue(dir + [e.name]) && Witnessed(folder.files, dir, e)
  }

  // ---------------------------------------------------------------- one file

  lemma {:induction false} FindInFirst(files: seq<File>, f: File)
    requires f in files && forall i, j :: 0 <= i < j < |files| ==> files[i].path != files[j].path
    ensures FindIn(files, f.path) == Ok(f)
  {
    if files[0].path != f.path {
      assert f in files[1..];
      assert forall i :: 0 <= i < |files[1..]| ==> files[1..][i] == files[i + 1];
      FindInFirst(files[1..], f);
    } else {
      var i :| 0 <= i < |files| && files[i] == f;
    }
  }

  lemma SamePath(folder: Folder, f: File, g: File)
    requires WellFormed(folder) && f in folder.files && g in folder.files && Steps(f) == Steps(g)
    ensures f == g
  {
    PathOfSteps(folder, f);
    PathOfSteps(folder, g);
    var i :| 0 <= i < |folder.files| && folder.files[i] == f;
    var j :| 0 <= j < |folder.files| && folder.files[j] == g;
  }

  lemma NameIsProper(folder: Folder, dir: seq<string>, e: Entry) returns (f: File)
    requires WellFormed(folder) && Proper(dir) && Witnessed(folder.files, dir, e)
    ensures f in folder.files && Inside(dir, f) && Child(dir, f) == e.name && e.dir == !Leaf(dir, f)
    ensures Proper(dir + [e.name]) && dir + [e.name] <= Steps(f) && (!e.dir ==> Steps(f) == dir + [e.name])
  {
    f :| f in folder.files && Inside(dir, f) && Child(dir, f) == e.name && e.dir == !Leaf(dir, f)
      && e.size == (if e.dir then 0 else f.size) && e.modified == f.modified / 1000;
    PathOfSteps(folder, f);
    assert Steps(f)[..|dir| + 1] == dir + [e.name];
  }

  lemma ReadsTheFile(folder: Folder, dir: seq<string>, e: Entry, f: File)
    requires WellFormed(folder) && Proper(dir + [e.name]) && e.path == DirValue(dir + [e.name])
    requires f in folder.files && Steps(f) == dir + [e.name]
    ensures Find(folder, e.path) == Ok(f)
  {
    PartsOfDir(dir + [e.name]);
    PathOfSteps(folder, f);
    FindInFirst(folder.files, f);
  }

  /** Under the name of a file there is that file and nothing else. */
  lemma FileAlone(folder: Folder, dir: seq<string>, f: File)
    requires WellFormed(folder) && f in folder.files && Inside(dir, f) && Leaf(dir, f)
    ensures FilesRight(folder, dir, [Child(dir, f)], [Got(f, Join(Steps(f)))])
    ensures DirsRight(folder, dir, [Child(dir, f)], [])
  {
    var name := Child(dir, f);
    assert Steps(f) == dir + [name];
    var got := [Got(f, Join(Steps(f)))];
    forall g | g in folder.files && Within(dir, [name], g) ensures Has(got, g) {
      assert Steps(g)[..|dir| + 1] == dir + [name];
      if |Steps(g)| == |dir| + 1 { SamePath(folder, f, g); }
      assert got[0] in got;
    }
    forall q | WithinDir(dir, [name], q) ensures !IsDir(folder, q) {
      assert q[..|dir| + 1] == dir + [name];
      forall g | g in folder.files ensures !Inside(q, g) { Deeper(Steps(f), q, Steps(g)); }
    }
  }

  lemma Deeper(a: seq<string>, b: seq<string>, c: seq<string>)
    ensures a <= b && b < c ==> a < c
  {
    if a <= b && b < c { assert c[..|a|] == c[..|b|][..|a|]; }
  }

  // ---------------------------------------------------------------- one directory

  /** What its children bring is what the directory brings, and itself. */
  lemma DirFromChildren(folder: Folder, dir: seq<string>, name: string, names: seq<string>, got: seq<Got>,
      dirs: seq<string>)
    requires WellFormed(folder) && IsDir(folder, dir + [name]) && Proper(dir + [name])
    requires forall f :: f in folder.files && Inside(dir + [name], f) ==> Child(dir + [name], f) in names
    requires FilesRight(folder, dir + [name], names, got) && DirsRight(folder, dir + [name], names, dirs)
    ensures FilesRight(folder, dir, [name], got)
    ensures DirsRight(folder, dir, [name], [Join(dir + [name])] + dirs)
  {
    FilesFromChildren(folder, dir, name, names, got);
    DirsFromChildren(folder, dir, name, names, dirs);
  }

  lemma FilesFromChildren(folder: Folder, dir: seq<string>, name: string, names: seq<string>, got: seq<Got>)
    requires WellFormed(folder) && IsDir(folder, dir + [name])
    requires forall f :: f in folder.files && Inside(dir + [name], f) ==> Child(dir + [name], f) in names
    requires FilesRight(folder, dir + [name], names, got)
    ensures FilesRight(folder, dir, [name], got)
  {
    hide Has, Steps, Child, Formed, IsDir;
    forall g | g in got ensures Within(dir, [name], g.file) { WithinName(dir, name, g.file); }
    forall f | f in folder.files && Within(dir, [name], f) ensures Has(got, f) {
      NotTheDirItself(folder, dir + [name], f);
      NameWithin(dir, name, f);
    }
  }

  lemma WithinName(dir: seq<string>, name: string, f: File)
    requires Inside(dir + [name], f)
    ensures Within(dir, [name], f)
  {
    assert Steps(f)[..|dir| + 1] == dir + [name];
    assert Steps(f)[..|dir|] == dir && Steps(f)[|dir|] == name;
  }

  lemma NameWithin(dir: seq<string>, name: string, f: File)
    requires Within(dir, [name], f) && Steps(f) != dir + [name]
    ensures Inside(dir + [name], f)
  {
    assert Steps(f)[..|dir| + 1] == dir + [name];
  }

  lemma NotTheDirItself(folder: Folder, dir: seq<string>, f: File)
    requires WellFormed(folder) && IsDir(folder, dir) && f in folder.files
    ensures Steps(f) != dir
  {
    hide Steps, Formed;
    var deep :| deep in folder.files && Inside(dir, deep);
  }

  lemma DirsFromChildren(folder: Folder, dir: seq<string>, name: string, names: seq<string>, dirs: seq<string>)
    requires WellFormed(folder) && IsDir(folder, dir + [name]) && Proper(dir + [name])
    requires forall f :: f in folder.files && Inside(dir + [name], f) ==> Child(dir + [name], f) in names
    requires DirsRight(folder, dir + [name], names, dirs)
    ensures DirsRight(folder, dir, [name], [Join(dir + [name])] + dirs)
  {
    hide IsDir, WellFormed, Inside, Child, Join, Proper, Distinct, AreDirs, CoverDirs;
    ProperSplits(dir + [name]);
    DirsSound(folder, dir, name, names, dirs);
    DirsComplete(folder, dir, name, names, dirs);
  }

  lemma DirsSound(folder: Folder, dir: seq<string>, name: string, names: seq<string>, dirs: seq<string>)
    requires Split(Join(dir + [name])) == dir + [name] && IsDir(folder, dir + [name])
    requires Distinct(dirs) && AreDirs(folder, dir + [name], names, dirs)
    ensures var all := [Join(dir + [name])] + dirs; Distinct(all) && AreDirs(folder, dir, [name], all)
  {
    hide IsDir, Join, Split, WithinDir;
    var deeper := dir + [name];
    var all := [Join(deeper)] + dirs;
    forall x | x in all ensures WithinDir(dir, [name], Split(x)) && IsDir(folder, Split(x)) {
      DeeperName(dir, name, Split(x), names);
    }
    forall x | x in dirs ensures x != Join(deeper) { NotWithinItself(deeper, names); }
    forall i, j | 0 <= i < j < |all| ensures all[i] != all[j] {
      assert all[j] == dirs[j - 1] && dirs[j - 1] in dirs;
      if i > 0 { assert all[i] == dirs[i - 1]; }
    }
  }

  lemma DirsComplete(folder: Folder, dir: seq<string>, name: string, names: seq<string>, dirs: seq<string>)
    requires forall f :: f in folder.files && Inside(dir + [name], f) ==> Child(dir + [name], f) in names
    requires CoverDirs(folder, dir + [name], names, dirs)
    ensures CoverDirs(folder, dir, [name], [Join(dir + [name])] + dirs)
  {
    hide IsDir, Inside, Child, Join, Split;
    forall q | WithinDir(dir, [name], q) && IsDir(folder, q) ensures Join(q) in [Join(dir + [name])] + dirs {
      StartsWithName(dir, name, q);
      if q != dir + [name] { ChildIsNamed(folder, dir + [name], names, q); }
    }
  }

  lemma NotWithinItself(dir: seq<string>, names: seq<string>)
    ensures !WithinDir(dir, names, dir)
  {
  }

  lemma StartsWithName(dir: seq<string>, name: string, q: seq<string>)
    requires WithinDir(dir, [name], q)
    ensures q == dir + [name] || dir + [name] < q
  {
    assert q[..|dir| + 1] == dir + [name];
  }

  lemma ProperSplits(dir: seq<string>)
    requires Proper(dir) && dir != []
    ensures Split(Join(dir)) == dir
  {
    SplitJoin(dir);
  }

  lemma DeeperName(dir: seq<string>, name: string, q: seq<string>, names: seq<string>)
    ensures q == dir + [name] || WithinDir(dir + [name], names, q) ==> WithinDir(dir, [name], q)
  {
    if dir + [name] <= q { assert q[..|dir| + 1] == dir + [name] && q[..|dir|] == dir; }
  }

  lemma ChildIsNamed(folder: Folder, dir: seq<string>, names: seq<string>, q: seq<string>)
    requires forall f :: f in folder.files && Inside(dir, f) ==> Child(dir, f) in names
    requires dir < q && IsDir(folder, q)
    ensures WithinDir(dir, names, q)
  {
    var f :| f in folder.files && Inside(q, f);
    Deeper(dir, q, Steps(f));
    assert Child(dir, f) == q[|dir|];
  }

  // ---------------------------------------------------------------- several entries

  lemma FilesTogether(folder: Folder, dir: seq<string>, name: string, names: seq<string>, a: seq<Got>, b: seq<Got>)
    requires name !in names && FilesRight(folder, dir, [name], a) && FilesRight(folder, dir, names, b)
    ensures FilesRight(folder, dir, [name] + names, a + b)
  {
    var all := a + b;
    forall i, j | 0 <= i < j < |all| ensures all[i].file != all[j].file {
      if j < |a| {
        assert all[i] == a[i] && all[j] == a[j];
      } else if i >= |a| {
        assert all[i] == b[i - |a|] && all[j] == b[j - |a|];
      } else {
        assert a[i] in a && b[j - |a|] in b;
        assert Child(dir, a[i].file) == name && Child(dir, b[j - |a|].file) in names;
      }
    }
    forall f | f in folder.files && Within(dir, [name] + names, f) ensures Has(all, f) {
      if Child(dir, f) == name {
        assert Has(a, f);
        var g :| g in a && g.file == f;
        assert g in all;
      } else {
        assert Has(b, f);
        var g :| g in b && g.file == f;
        assert g in all;
      }
    }
  }

  lemma DirsTogether(folder: Folder, dir: seq<string>, name: string, names: seq<string>, a: seq<string>, b: seq<string>)
    requires name !in names && DirsRight(folder, dir, [name], a) && DirsRight(folder, dir, names, b)
    ensures DirsRight(folder, dir, [name] + names, a + b)
  {
    hide IsDir, Split, Join, Distinct;
    forall x, y | x in a && y in b ensures x != y {
      assert WithinDir(dir, [name], Split(x)) && WithinDir(dir, names, Split(y));
    }
    OnceTogether(a, b);
    assert AreDirs(folder, dir, [name] + names, a + b);
    forall q | WithinDir(dir, [name] + names, q) && IsDir(folder, q) ensures Join(q) in a + b {
      if q[|dir|] == name { assert WithinDir(dir, [name], q); } else { assert WithinDir(dir, names, q); }
    }
  }

  lemma OnceTogether(a: seq<string>, b: seq<string>)
    requires Distinct(a) && Distinct(b) && forall x, y :: x in a && y in b ==> x != y
    ensures Distinct(a + b)
  {
    var all := a + b;
    forall i, j | 0 <= i < j < |all| ensures all[i] != all[j] {
      if j < |a| {
        assert all[i] == a[i] && all[j] == a[j];
      } else if i >= |a| {
        assert all[i] == b[i - |a|] && all[j] == b[j - |a|];
      } else {
        assert all[i] == a[i] && all[j] == b[j - |a|] && a[i] in a && b[j - |a|] in b;
      }
    }
  }

  lemma LimitedTwice(c: Collected, a: seq<Got>, p: seq<string>, b: seq<Got>, q: seq<string>)
    ensures Limited(c, a + b, p + q)
            == match Limited(c, a, p) case Err => Err case Ok(next) => Limited(next, b, q)
  {
    assert c.files + (a + b) == c.files + a + b && c.directories + (p + q) == c.directories + p + q;
  }

  ghost predicate Above(dir: seq<string>, above: Result<string>) {
    if dir == [] then above.Err? else above == Ok(Join(dir))
  }

  lemma UnderIsJoined(dir: seq<string>, above: Result<string>, name: string)
    requires Above(dir, above)
    ensures Under(above, name) == Join(dir + [name])
  {
    if dir != [] { JoinAround(dir, [name]); } else { assert dir + [name] == [name]; }
  }

  // ---------------------------------------------------------------- the walk

  lemma {:induction false} WalkBrings(folder: Folder, dir: seq<string>, e: Entry)
      returns (got: seq<Got>, dirs: seq<string>)
    requires WellFormed(folder) && Proper(dir) && Good(folder, dir, e)
    ensures FilesRight(folder, dir, [e.name], got) && DirsRight(folder, dir, [e.name], dirs)
    ensures forall c: Collected :: c.count <= LIMIT ==>
              Walk(folder, e, Join(dir + [e.name]), c) == Limited(c, got, dirs)
    decreases Room(folder, e.path), 1, 0
  {
    hide FilesRight, DirsRight, Arranged, ProperNames, Proper, List, Find, Room, Witnessed, DirValue, Inside, Child,
        Leaf;
    var f := NameIsProper(folder, dir, e);
    var deeper := dir + [e.name];
    if !e.dir {
      got, dirs := [Got(f, Join(deeper))], [];
      FileAlone(folder, dir, f);
      ReadsTheFile(folder, dir, e, f);
      forall c: Collected | c.count <= LIMIT ensures Walk(folder, e, Join(deeper), c) == Limited(c, got, dirs) {
        assert c.directories + [] == c.directories;
      }
    } else {
      ListingShowsTheChildren(folder, deeper);
      ListedHasRoom(folder, e.path);
      var children := List(folder, e.path).value;
      ChildrenAreNamed(folder, deeper, children);
      var names := NamesOf(children);
      DeeperIsDir(folder, dir, e, f);
      DeeperInside(dir, e, f);
      assert children != [] by { InsideIsNamed(deeper, f, children); }
      got, dirs := WalkAllBrings(folder, deeper, children, Ok(Join(deeper)), Room(folder, e.path) - 1);
      DirFromChildren(folder, dir, e.name, names, got, dirs);
      forall c: Collected | c.count <= LIMIT
        ensures Walk(folder, e, Join(deeper), c) == Limited(c, got, [Join(deeper)] + dirs)
      {
        WalkIntoDir(folder, e, Join(deeper), children, c, got, dirs);
      }
      dirs := [Join(deeper)] + dirs;
    }
  }

  /** Entering a directory counts it, and then its children are walked. */
  lemma WalkIntoDir(folder: Folder, e: Entry, relative: string, children: seq<Entry>, c: Collected, got: seq<Got>,
      dirs: seq<string>)
    requires e.dir && List(folder, e.path) == Ok(children) && children != [] && c.count <= LIMIT
            && Room(folder, e.path) > 0
    requires forall child :: child in children ==> Room(folder, child.path) <= Room(folder, e.path) - 1
    requires forall b: Collected :: b.count <= LIMIT ==>
               WalkAll(folder, children, Ok(relative), b, Room(folder, e.path) - 1) == Limited(b, got, dirs)
    ensures Walk(folder, e, relative, c) == Limited(c, got, [relative] + dirs)
  {
    hide WalkAll, List, Room;
    LimitedTwice(c, [], [relative], got, dirs);
    assert [] + got == got && c.files + [] == c.files;
  }

  lemma DeeperIsDir(folder: Folder, dir: seq<string>, e: Entry, f: File)
    requires f in folder.files && Inside(dir, f) && Child(dir, f) == e.name && !Leaf(dir, f)
    ensures IsDir(folder, dir + [e.name])
  {
    DeeperInside(dir, e, f);
  }

  lemma DeeperInside(dir: seq<string>, e: Entry, f: File)
    requires Inside(dir, f) && Child(dir, f) == e.name && !Leaf(dir, f)
    ensures Inside(dir + [e.name], f)
  {
    assert Steps(f)[..|dir| + 1] == dir + [e.name];
  }

  lemma InsideIsNamed(dir: seq<string>, f: File, children: seq<Entry>)
    requires Inside(dir, f) && Names(children, Child(dir, f))
    ensures children != []
  {
  }

  lemma ChildrenAreNamed(folder: Folder, dir: seq<string>, children: seq<Entry>)
    requires forall f :: f in folder.files && Inside(dir, f) ==> Names(children, Child(dir, f))
    ensures forall f :: f in folder.files && Inside(dir, f) ==> Child(dir, f) in NamesOf(children)
  {
    forall f | f in folder.files && Inside(dir, f) ensures Child(dir, f) in NamesOf(children) {
      var e :| e in children && e.name == Child(dir, f);
      var i :| 0 <= i < |children| && children[i] == e;
      assert NamesOf(children)[i] == e.name;
    }
  }

  lemma NothingRight(folder: Folder, dir: seq<string>)
    ensures FilesRight(folder, dir, NamesOf([]), []) && DirsRight(folder, dir, NamesOf([]), [])
  {
  }

  lemma {:induction false} WalkAllBrings(folder: Folder, dir: seq<string>, entries: seq<Entry>, above: Result<string>,
      room: nat)
    returns (got: seq<Got>, dirs: seq<string>)
    requires WellFormed(folder) && Proper(dir) && OneEach(entries) && Above(dir, above)
    requires forall e :: e in entries ==> Good(folder, dir, e) && Room(folder, e.path) <= room
    ensures FilesRight(folder, dir, NamesOf(entries), got) && DirsRight(folder, dir, NamesOf(entries), dirs)
    ensures forall c: Collected :: c.count <= LIMIT ==>
              WalkAll(folder, entries, above, c, room) == Limited(c, got, dirs)
    decreases room, 2, |entries|
  {
    hide FilesRight, DirsRight, WellFormed, Proper, Walk, Room, Good, Above, OneEach;
    if entries == [] {
      got, dirs := [], [];
      NothingRight(folder, dir);
      forall c: Collected | c.count <= LIMIT ensures Ok(c) == Limited(c, got, dirs) {
        assert c.files + [] == c.files && c.directories + [] == c.directories;
      }
    } else {
      var first, rest := entries[0], entries[1..];
      assert first in entries;
      FirstIsNew(entries);
      var a, p := WalkBrings(folder, dir, first);
      var b, q := WalkAllBrings(folder, dir, rest, above, room);
      UnderIsJoined(dir, above, first.name);
      FilesTogether(folder, dir, first.name, NamesOf(rest), a, b);
      DirsTogether(folder, dir, first.name, NamesOf(rest), p, q);
      got, dirs := a + b, p + q;
      forall c: Collected | c.count <= LIMIT ensures WalkAll(folder, entries, above, c, room) == Limited(c, got, dirs) {
        LimitedTwice(c, a, p, b, q);
      }
    }
  }

  lemma FirstIsNew(entries: seq<Entry>)
    requires OneEach(entries) && entries != []
    ensures OneEach(entries[1..]) && entries[0].name !in NamesOf(entries[1..])
    ensures NamesOf(entries) == [entries[0].name] + NamesOf(entries[1..])
  {
    assert forall i :: 0 <= i < |entries[1..]| ==> entries[1..][i] == entries[i + 1];
  }

  // ---------------------------------------------------------------- the whole folder

  /** Every file once, with its path in the folder. */
  ghost predicate AllFiles(folder: Folder, got: seq<Got>) {
    && (forall i, j :: 0 <= i < j < |got| ==> got[i].file != got[j].file)
    && (forall f :: f in folder.files <==> Has(got, f))
    && (forall g :: g in got ==> Join([folder.name] + Split(g.relative)) == g.file.path)
  }

  /** Every directory below the folder once. */
  ghost predicate AllDirs(folder: Folder, dirs: seq<string>) {
    && Distinct(dirs)
    && (forall x :: x in dirs ==> IsDir(folder, Split(x)))
    && (forall q :: q != [] && IsDir(folder, q) ==> Join(q) in dirs)
  }

  lemma RootFiles(folder: Folder, names: seq<string>, got: seq<Got>)
    requires WellFormed(folder) && FilesRight(folder, [], names, got)
    requires forall f :: f in folder.files && Inside([], f) ==> Child([], f) in names
    ensures AllFiles(folder, got)
  {
    forall f ensures f in folder.files <==> Has(got, f) {
      if f in folder.files { assert Formed(folder, f) && Within([], names, f); }
    }
    forall g | g in got ensures Join([folder.name] + Split(g.relative)) == g.file.path {
      PathOfSteps(folder, g.file);
      SplitJoin(Steps(g.file));
    }
  }

  lemma RootDirs(folder: Folder, names: seq<string>, dirs: seq<string>)
    requires WellFormed(folder) && DirsRight(folder, [], names, dirs)
    requires forall f :: f in folder.files && Inside([], f) ==> Child([], f) in names
    ensures AllDirs(folder, dirs)
  {
    forall q | q != [] && IsDir(folder, q) ensures Join(q) in dirs {
      var f :| f in folder.files && Inside(q, f);
      assert Inside([], f) && Child([], f) == q[0];
      assert WithinDir([], names, q);
    }
  }

  /** What the folder shows at its top. */
  lemma TopShows(folder: Folder) returns (top: seq<Entry>)
    requires WellFormed(folder)
    ensures List(folder, "/browser") == Ok(top) && OneEach(top)
    ensures forall e :: e in top ==> Good(folder, [], e) && Room(folder, e.path) <= LongestPath(folder.files) + 9
    ensures forall f :: f in folder.files && Inside([], f) ==> Child([], f) in NamesOf(top)
  {
    hide List, Arranged, ProperNames, DirValue, Witnessed, Inside, Child;
    TopValue();
    ListingShowsTheChildren(folder, []);
    top := List(folder, "/browser").value;
    ChildrenAreNamed(folder, [], top);
  }

  /** Every file once, under its path without the folder, and every directory once, unless they
      are more than 1000 together. */
  ghost predicate Brings(folder: Folder, r: Result<Collected>, got: seq<Got>, dirs: seq<string>) {
    && AllFiles(folder, got) && AllDirs(folder, dirs)
    && r == if |got| + |dirs| > 1000 then Err else Ok(Collected(got, dirs, |got| + |dirs|))
  }

  /** Collecting everything the folder shows at its top brings every file exactly once, its
      relative path being its path without the folder, and every directory exactly once;
      it fails exactly if they are more than 1000 together. */
  lemma CollectBringsEverything(folder: Folder)
    requires WellFormed(folder)
    ensures var top := List(folder, "/browser");
            top.Ok? && exists got, dirs :: Brings(folder, Collect(folder, top.value), got, dirs)
  {
    hide FilesRight, DirsRight, AllFiles, AllDirs, WellFormed, List, WalkAll, Good, Inside, Child, Limited, NamesOf,
        OneEach;
    TopValue();
    var top := TopShows(folder);
    var got, dirs := WalkAllBrings(folder, [], top, Err, LongestPath(folder.files) + 9);
    RootFiles(folder, NamesOf(top), got);
    RootDirs(folder, NamesOf(top), dirs);
    LimitedFromNothing(got, dirs);
    assert Brings(folder, Collect(folder, top), got, dirs);
  }

  lemma LimitedFromNothing(got: seq<Got>, dirs: seq<string>)
    ensures Limited(Collected([], [], 0), got, dirs)
            == if |got| + |dirs| > 1000 then Err else Ok(Collected(got, dirs, |got| + |dirs|))
  {
    assert [] + got == got && [] + dirs == dirs;
  }

  lemma TopValue()
    ensures DirValue([]) == "/browser" && Proper([])
  {
    assert ["", "browser"] + [] == ["", "browser"];
    assert ["", "browser"][1..] == ["browser"];
  }
}
