/**
 When collecting a folder succeeds: exactly if every name is proper and there are not too many
 files and directories.  Names that are not proper are listed all the same.
 */
module BrowserOutcome {
  import opened Common
  import opened BrowserPaths
  import opened BrowserFolder
  import opened BrowserTree
  import opened BrowserCollect

  // ---------------------------------------------------------------- improper names

  /** Below the directory, the file has an improper name at this place. */
  predicate Spoiled(dir: seq<string>, f: File, k: nat) { |dir| <= k < |Steps(f)| && BadPart(Steps(f)[k]) }

  /** An entry with an improper name can be neither listed nor read. */
  lemma ImproperEntryFails(folder: Folder, dir: seq<string>, e: Entry)
    requires AllPlain(dir) && Plain(e.name) && BadPart(e.name) && e.path == DirValue(dir + [e.name])
    ensures forall relative, c :: Walk(folder, e, relative, c).Err?
    ensures List(folder, e.path).Err? && Find(folder, e.path).Err?
  {
    var path := dir + [e.name];
    assert path[|dir|] == e.name;
    assert e.name in path && !ProperName(e.name);
    ResolvableIff(folder, path);
    AllGoodIff(path);
  }

  lemma {:induction false} OneFailureIsEnough(folder: Folder, entries: seq<Entry>, above: Result<string>,
      c: Collected, room: nat, bad: Entry)
    requires bad in entries && forall e :: e in entries ==> Room(folder, e.path) <= room
    requires forall relative, c :: Walk(folder, bad, relative, c).Err?
    ensures WalkAll(folder, entries, above, c, room).Err?
    decreases |entries|
  {
    hide Walk, Room;
    if entries[0] != bad {
      var first := Walk(folder, entries[0], Under(above, entries[0].name), c);
      if first.Ok? { OneFailureIsEnough(folder, entries[1..], above, first.value, room, bad); }
    }
  }

  /** The entry of the directory under which the file lies. */
  lemma EntryOf(folder: Folder, dir: seq<string>, f: File) returns (e: Entry)
    requires Arranged(folder) && Proper(dir) && f in folder.files && Inside(dir, f)
    ensures List(folder, DirValue(dir)).Ok? && e in List(folder, DirValue(dir)).value
    ensures e.name == Child(dir, f) && Good(folder, dir, e)
  {
    ListingShowsTheChildren(folder, dir);
    e :| e in List(folder, DirValue(dir)).value && e.name == Child(dir, f);
  }

  /** Where a file has an improper name further down, the entry over it is a directory. */
  lemma OverImproper(folder: Folder, dir: seq<string>, e: Entry, f: File, k: nat)
    requires Arranged(folder) && Proper(dir) && Good(folder, dir, e)
    requires f in folder.files && Inside(dir, f) && Child(dir, f) == e.name && Spoiled(dir, f, k) && !BadPart(e.name)
    ensures e.dir && Proper(dir + [e.name]) && Inside(dir + [e.name], f) && Spoiled(dir + [e.name], f, k)
  {
    hide Arranged, Steps, BadPart, Formed;
    var g :| g in folder.files && Inside(dir, g) && Child(dir, g) == e.name && e.dir == !Leaf(dir, g)
          && e.size == (if e.dir then 0 else g.size) && e.modified == g.modified / 1000;
    NoneInAnother(folder, g, f);
    PlainName(folder, dir, f);
    DeeperPaths(dir, e.name, Steps(g), Steps(f), k);
  }

  lemma NoneInAnother(folder: Folder, g: File, f: File)
    requires Arranged(folder) && g in folder.files && f in folder.files
    ensures !(Steps(g) < Steps(f))
  {
    hide Steps, Formed;
  }

  /** Of two paths through a name, neither above the other, one goes on if the other does. */
  lemma DeeperPaths(dir: seq<string>, name: string, a: seq<string>, b: seq<string>, k: nat)
    requires dir < a && dir < b && a[|dir|] == name == b[|dir|] && !(a < b)
    requires |dir| < k < |b|
    ensures |a| > |dir| + 1 && dir + [name] < b
  {
    assert a[..|dir| + 1] == dir + [name] && b[..|dir| + 1] == dir + [name];
    assert |a| == |dir| + 1 ==> a == dir + [name];
  }

  /** An entry over a file with an improper name cannot be walked. */
  lemma {:induction false} WalkFails(folder: Folder, dir: seq<string>, e: Entry, f: File, k: nat)
    requires Arranged(folder) && Proper(dir) && Good(folder, dir, e)
    requires f in folder.files && Inside(dir, f) && Child(dir, f) == e.name && Spoiled(dir, f, k)
    ensures forall relative, c :: Walk(folder, e, relative, c).Err?
    decreases Room(folder, e.path)
  {
    hide Arranged, Inside, Child, Spoiled, BadPart, Room, List, Find, DirValue, WalkAll, Proper, Witnessed;
    if BadPart(e.name) {
      PlainName(folder, dir, f);
      ImproperEntryFails(folder, dir, e) by { assert AllPlain(dir) by { ProperIsPlain(dir); } }
    } else {
      OverImproper(folder, dir, e, f, k);
      var deeper := dir + [e.name];
      var child := EntryOf(folder, deeper, f);
      ListedHasRoom(folder, e.path);
      WalkFails(folder, deeper, child, f, k);
      var children := List(folder, e.path).value;
      forall relative, c ensures Walk(folder, e, relative, c).Err? {
        OneFailureIsEnough(folder, children, Ok(relative),
            c.(count := c.count + 1, directories := c.directories + [relative]),
                           Room(folder, e.path) - 1, child);
      }
    }
  }

  lemma ProperIsPlain(dir: seq<string>)
    requires Proper(dir)
    ensures AllPlain(dir)
  {
  }

  lemma PlainName(folder: Folder, dir: seq<string>, f: File)
    requires Arranged(folder) && f in folder.files && Inside(dir, f)
    ensures Plain(Child(dir, f))
  {
    PathOfSteps(folder, f);
  }

  lemma ImproperFolderFails(folder: Folder, f: File, k: nat)
    requires Arranged(folder) && f in folder.files && Spoiled([], f, k)
    ensures List(folder, "/browser").Ok? && Collect(folder, List(folder, "/browser").value).Err?
  {
    hide Arranged, List, Walk, WalkAll, DirValue;
    TopValue();
    var e := EntryOf(folder, [], f);
    WalkFails(folder, [], e, f, k);
    var top := List(folder, "/browser").value;
    OneFailureIsEnough(folder, top, Err, Collected([], [], 0), LongestPath(folder.files) + 9, e);
  }

  // ---------------------------------------------------------------- how many there are

  /** The directories below the folder. */
  function Directories(folder: Folder): set<seq<string>> {
    set f, n: nat | f in folder.files && 0 < n < |Steps(f)| :: Steps(f)[..n]
  }

  lemma DirectoriesAreDirs(folder: Folder, q: seq<string>)
    ensures q in Directories(folder) <==> q != [] && IsDir(folder, q)
  {
    if q != [] && IsDir(folder, q) {
      var f :| f in folder.files && Inside(q, f);
      assert q == Steps(f)[..|q|];
    }
  }

  lemma FilesCounted(folder: Folder, got: seq<Got>)
    requires Arranged(folder) && AllFiles(folder, got)
    ensures |got| == |folder.files|
  {
    hide Formed, Steps, Join;
    var files := seq(|got|, i requires 0 <= i < |got| => got[i].file);
    DistinctCount(files);
    DistinctCount(folder.files);
    forall f ensures f in files <==> f in folder.files {
      if f in folder.files {
        var g :| g in got && g.file == f;
        var i :| 0 <= i < |got| && got[i] == g;
        assert files[i] == f;
      }
      if f in files {
        var i :| 0 <= i < |files| && files[i] == f;
        assert got[i] in got;
        assert Has(got, f);
      }
    }
    assert (set f | f in files) == set f | f in folder.files;
  }

  function Paths(dirs: seq<string>): (paths: seq<seq<string>>)
    ensures |paths| == |dirs| && forall i :: 0 <= i < |dirs| ==> paths[i] == Split(dirs[i])
  {
    seq(|dirs|, i requires 0 <= i < |dirs| => Split(dirs[i]))
  }

  lemma PathsDistinct(dirs: seq<string>)
    requires Distinct(dirs)
    ensures Distinct(Paths(dirs))
  {
    hide Split, Join;
    forall i, j | 0 <= i < j < |dirs| ensures Paths(dirs)[i] != Paths(dirs)[j] {
      JoinSplit(dirs[i]);
      JoinSplit(dirs[j]);
    }
  }

  lemma PathsAreDirs(folder: Folder, dirs: seq<string>, q: seq<string>)
    requires Arranged(folder) && AllDirs(folder, dirs)
    ensures q in Paths(dirs) <==> q in Directories(folder)
  {
    hide Arranged, IsDir, Directories, Split, Join, Distinct;
    DirectoriesAreDirs(folder, q);
    if q in Paths(dirs) {
      var i :| 0 <= i < |dirs| && Paths(dirs)[i] == q;
      assert dirs[i] in dirs;
    }
    if q in Directories(folder) {
      var i :| 0 <= i < |dirs| && dirs[i] == Join(q);
      DirSplits(folder, q);
      assert Paths(dirs)[i] == q;
    }
  }

  lemma DirsCounted(folder: Folder, dirs: seq<string>)
    requires Arranged(folder) && AllDirs(folder, dirs)
    ensures |dirs| == |Directories(folder)|
  {
    hide Arranged, AllDirs, Directories, Paths, Distinct;
    AllDirsDistinct(folder, dirs);
    PathsDistinct(dirs);
    DistinctCount(Paths(dirs));
    PathsAreAllDirs(folder, dirs);
  }

  lemma AllDirsDistinct(folder: Folder, dirs: seq<string>)
    requires AllDirs(folder, dirs)
    ensures Distinct(dirs)
  {
    hide Distinct, IsDir;
  }

  lemma PathsAreAllDirs(folder: Folder, dirs: seq<string>)
    requires Arranged(folder) && AllDirs(folder, dirs)
    ensures (set q | q in Paths(dirs)) == Directories(folder)
  {
    hide Arranged, AllDirs, Directories, Paths;
    forall q ensures q in Paths(dirs) <==> q in Directories(folder) { PathsAreDirs(folder, dirs, q); }
  }

  lemma DirSplits(folder: Folder, q: seq<string>)
    requires Arranged(folder) && q != [] && IsDir(folder, q)
    ensures Split(Join(q)) == q
  {
    var f :| f in folder.files && Inside(q, f);
    PathOfSteps(folder, f);
    SplitJoin(q);
  }

  // ---------------------------------------------------------------- the outcome

  /** Collecting everything the folder shows at its top succeeds exactly if all names of all
      files are proper and files and directories together are at most 1000. */
  lemma CollectSucceedsIff(folder: Folder)
    requires Arranged(folder)
    ensures List(folder, "/browser").Ok?
    ensures Collect(folder, List(folder, "/browser").value).Ok?
            <==> && (forall f, name :: f in folder.files && name in Steps(f) ==> ProperName(name))
                 && |folder.files| + |Directories(folder)| <= 1000
  {
    hide Arranged, List, Collect, AllFiles, AllDirs, Directories, Steps, AllGood, ProperName;
    forall f: File { AllGoodIff(Steps(f)); }
    if ProperNames(folder) {
      CollectBringsEverything(folder);
      var got, dirs :| Brings(folder, Collect(folder, List(folder, "/browser").value), got, dirs);
      FilesCounted(folder, got);
      DirsCounted(folder, dirs);
    } else {
      var f :| f in folder.files && !AllGood(Steps(f));
      var k := FirstBad(Steps(f));
      ImproperFolderFails(folder, f, k);
    }
  }

  lemma {:induction false} FirstBad(parts: seq<string>) returns (k: nat)
    requires !AllGood(parts)
    ensures k < |parts| && BadPart(parts[k]) && AllGood(parts[..k])
  {
    k := 0;
    while !BadPart(parts[k])
      invariant k < |parts| && AllGood(parts[..k])
      invariant exists i :: k <= i < |parts| && BadPart(parts[i])
      decreases |parts| - k
    {
      k := k + 1;
    }
  }

  /** A file with an improper name, say one with a backslash in it, is listed by its directory,
      or the directory of that name is, but it cannot be opened, and the folder cannot be
      collected. */
  lemma ImproperIsListedButLost(folder: Folder, f: File)
    requires Arranged(folder) && f in folder.files && exists name :: name in Steps(f) && !ProperName(name)
    ensures exists k :: 0 <= k < |Steps(f)| && BadPart(Steps(f)[k]) && AllGood(Steps(f)[..k])
                        && var r := List(folder, DirValue(Steps(f)[..k]));
                           r.Ok? && Names(r.value, Steps(f)[k])
    ensures Find(folder, DirValue(Steps(f))).Err?
    ensures List(folder, "/browser").Ok? && Collect(folder, List(folder, "/browser").value).Err?
  {
    hide List, Collect, Find, DirValue;
    AllGoodIff(Steps(f));
    PathOfSteps(folder, f);
    ResolvableIff(folder, Steps(f));
    var k := FirstBad(Steps(f));
    ImproperFolderFails(folder, f, k);
    var e := EntryOf(folder, Steps(f)[..k], f);
  }
}
