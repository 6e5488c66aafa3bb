/**
 The flat list as a tree: what listing shows of it, and what collecting brings back.
 */
module BrowserTree {
  import opened BrowserPaths
  import opened BrowserFolder

  /** The path of a file below the folder, part by part. */
  function Steps(f: File): seq<string> { Split(f.path)[1..] }

  /** The file lies in the folder, and no name in its path is empty. */
  ghost predicate Formed(folder: Folder, f: File) {
    && |Split(f.path)| >= 2 && Split(f.path)[0] == folder.name && "" !in Steps(f)
  }

  /** The files lie in the folder, their paths differ, and none lies in another. */
  ghost predicate Arranged(folder: Folder) {
    && Plain(folder.name)
    && (forall f :: f in folder.files ==> Formed(folder, f))
    && (forall i, j :: 0 <= i < j < |folder.files| ==> folder.files[i].path != folder.files[j].path)
    && (forall f, g :: f in folder.files && g in folder.files ==> !(Steps(f) < Steps(g)))
  }

  /** All names of all files are proper. */
  predicate ProperNames(folder: Folder) { forall f :: f in folder.files ==> AllGood(Steps(f)) }

  ghost predicate WellFormed(folder: Folder) { Arranged(folder) && ProperNames(folder) }

  /** The file lies somewhere inside the directory. */
  predicate Inside(dir: seq<string>, f: File) { dir < Steps(f) }

  /** The name under which the file shows in the directory, and whether it is the file itself. */
  function Child(dir: seq<string>, f: File): string
    requires Inside(dir, f)
  {
    Steps(f)[|dir|]
  }

  predicate Leaf(dir: seq<string>, f: File) { |Steps(f)| == |dir| + 1 }

  function DirValue(dir: seq<string>): string { Join(["", "browser"] + dir) }

  predicate Proper(dir: seq<string>) { AllPlain(dir) && AllGood(dir) }

  lemma PartsOfDir(dir: seq<string>)
    requires Proper(dir)
    ensures Parts(DirValue(dir)) == Ok(dir)
    ensures forall name :: DirValue(dir) + "/" + name == DirValue(dir + [name])
  {
    var ps := ["", "browser"] + dir;
    SplitJoin(ps);
    assert ps[2..] == dir;
    DirValueNonEmpty(dir);
    forall name ensures DirValue(dir) + "/" + name == DirValue(dir + [name]) {
      JoinAround(ps, [name]);
      assert ps + [name] == ["", "browser"] + (dir + [name]);
    }
  }

  /** A name that can be part of a path. */
  predicate ProperName(name: string) {
    name != "" && name != "." && name != ".." && forall c :: c in name ==> c != '\\' && c != '\0'
  }

  lemma AllGoodIff(parts: seq<string>)
    ensures AllGood(parts) <==> forall p :: p in parts ==> ProperName(p)
  {
    if forall p :: p in parts ==> ProperName(p) {
      forall i | 0 <= i < |parts| ensures !BadPart(parts[i]) { assert parts[i] in parts; }
    }
  }

  /** A path can be resolved exactly if all its names are proper, and no other path opens a file. */
  lemma ResolvableIff(folder: Folder, dir: seq<string>)
    requires AllPlain(dir)
    ensures Parts(DirValue(dir)).Ok? <==> forall name :: name in dir ==> ProperName(name)
    ensures !AllGood(dir) ==> Find(folder, DirValue(dir)) == Err
  {
    AllGoodIff(dir);
    var ps := ["", "browser"] + dir;
    SplitJoin(ps);
    assert ps[2..] == dir;
    DirValueNonEmpty(dir);
  }

  lemma DirValueNonEmpty(dir: seq<string>)
    ensures DirValue(dir) != ""
  {
    var ps := ["", "browser"] + dir;
    assert ps[0] == "" && |ps| > 1;
  }

  lemma PathOfSteps(folder: Folder, f: File)
    requires Formed(folder, f)
    ensures f.path == Join([folder.name] + Steps(f)) && AllPlain(Split(f.path)) && AllPlain(Steps(f))
    ensures Split(f.path) == [folder.name] + Steps(f)
  {
    JoinSplit(f.path);
    SplitIsPlain(f.path);
    assert Split(f.path) == [folder.name] + Steps(f);
  }

  /** The string test of the listing is being inside, and what remains tells the rest. */
  lemma PrefixIsInside(folder: Folder, dir: seq<string>, f: File)
    requires Plain(folder.name) && Proper(dir) && Formed(folder, f)
    ensures var prefix := Relative(folder, dir) + "/";
            && (prefix <= f.path <==> Inside(dir, f))
            && (Inside(dir, f) ==>
                  var rest := f.path[|prefix|..];
                  && Split(rest)[0] == Child(dir, f) && ('/' in rest <==> !Leaf(dir, f))
                  && Child(dir, f) != "")
  {
    PathOfSteps(folder, f);
    var d, p := [folder.name] + dir, [folder.name] + Steps(f);
    StartsInside(d, p);
    assert |d| < |p| && d == p[..|d|] <==> Inside(dir, f) by { SameTail(folder.name, dir, Steps(f)); }
    if Inside(dir, f) {
      assert p[|d|..] == Steps(f)[|dir|..];
      SlashMeansParts(f.path[|Join(d)| + 1..]);
    }
  }

  lemma SameTail(name: string, a: seq<string>, b: seq<string>)
    ensures |[name] + a| < |[name] + b| && [name] + a == ([name] + b)[..|a| + 1] <==> a < b
  {
    if |a| < |b| {
      assert ([name] + b)[..|a| + 1] == [name] + b[..|a|];
      assert ([name] + a)[1..] == a && ([name] + b[..|a|])[1..] == b[..|a|];
    }
  }

  // ---------------------------------------------------------------- listing

  /** The entries show the children, by these files, of names not seen before. */
  ghost predicate Shows(files: seq<File>, dir: seq<string>, seen: set<string>, entries: seq<Entry>) {
    && OneEach(entries)
    && (forall e :: e in entries ==> e.path == DirValue(dir + [e.name]) && e.name !in seen && Witnessed(files, dir, e))
    && (forall f :: f in files && Inside(dir, f) && Child(dir, f) !in seen ==> Names(entries, Child(dir, f)))
  }

  ghost predicate OneEach(entries: seq<Entry>) {
    forall i, j :: 0 <= i < j < |entries| ==> entries[i].name != entries[j].name
  }

  ghost predicate Names(entries: seq<Entry>, name: string) { exists e :: e in entries && e.name == name }

  /** Some file gives the entry its name, its kind, its time and, if it is one, its size. */
  ghost predicate Witnessed(files: seq<File>, dir: seq<string>, e: Entry) {
    exists f :: f in files && Inside(dir, f) && Child(dir, f) == e.name && e.dir == !Leaf(dir, f)
             && e.size == (if e.dir then 0 else f.size) && e.modified == f.modified / 1000
  }

  lemma {:induction false} EntriesShow(folder: Folder, files: seq<File>, dir: seq<string>, seen: set<string>)
    requires Plain(folder.name) && Proper(dir) && forall f :: f in files ==> Formed(folder, f)
    ensures Shows(files, dir, seen, Entries(files, Relative(folder, dir) + "/", DirValue(dir), seen))
    decreases |files|
  {
    hide Relative, DirValue, Inside, Child, Leaf, Formed, Proper, Plain;
    var prefix, value := Relative(folder, dir) + "/", DirValue(dir);
    var entries := Entries(files, prefix, value, seen);
    if files != [] {
      var f, tail := files[0], files[1..];
      assert files == [f] + tail;
      PrefixIsInside(folder, dir, f);
      if !Inside(dir, f) {
        EntriesShow(folder, tail, dir, seen);
        ShowsMore(f, tail, dir, seen, entries);
      } else if Child(dir, f) in seen {
        EntriesShow(folder, tail, dir, seen);
        ShowsMore(f, tail, dir, seen, entries);
      } else {
        var name := Child(dir, f);
        var rest := Entries(tail, prefix, value, seen + {name});
        EntriesShow(folder, tail, dir, seen + {name});
        PartsOfDir(dir);
        ShowsFirst(f, tail, dir, seen, EntryFor(f, f.path[|prefix|..], value), rest);
      }
    }
  }

  lemma ShowsMore(f: File, tail: seq<File>, dir: seq<string>, seen: set<string>, entries: seq<Entry>)
    requires Shows(tail, dir, seen, entries) && (Inside(dir, f) ==> Child(dir, f) in seen)
    ensures Shows([f] + tail, dir, seen, entries)
  {
    hide DirValue, Inside, Child, Leaf, Witnessed, Names, OneEach;
    forall e | e in entries ensures Witnessed([f] + tail, dir, e) { StillWitnessed(f, tail, dir, e); }
  }

  lemma ShowsFirst(f: File, tail: seq<File>, dir: seq<string>, seen: set<string>, first: Entry, rest: seq<Entry>)
    requires Inside(dir, f) && Child(dir, f) !in seen && Shows(tail, dir, seen + {Child(dir, f)}, rest)
    requires first.name == Child(dir, f) && first.path == DirValue(dir + [first.name]) && first.dir == !Leaf(dir, f)
    requires first.size == (if first.dir then 0 else f.size) && first.modified == f.modified / 1000
    ensures Shows([f] + tail, dir, seen, [first] + rest)
  {
    hide DirValue, Inside, Child, Leaf, Witnessed, OneEach, Names;
    var files, entries := [f] + tail, [first] + rest;
    FirstWitness(f, tail, dir, first);
    forall e | e in entries ensures e.path == DirValue(dir + [e.name]) && e.name !in seen && Witnessed(files, dir, e) {
      if e != first {
        assert e in rest;
        StillWitnessed(f, tail, dir, e);
      }
    }
    FirstOnce(first, rest);
    forall g | g in files && Inside(dir, g) && Child(dir, g) !in seen ensures Names(entries, Child(dir, g)) {
      FirstNames(first, rest, Child(dir, g));
      if Child(dir, g) != first.name { assert g in tail; }
    }
  }

  lemma FirstWitness(f: File, tail: seq<File>, dir: seq<string>, first: Entry)
    requires Inside(dir, f) && first.name == Child(dir, f) && first.dir == !Leaf(dir, f)
    requires first.size == (if first.dir then 0 else f.size) && first.modified == f.modified / 1000
    ensures Witnessed([f] + tail, dir, first)
  {
    assert f in [f] + tail;
  }

  lemma StillWitnessed(f: File, tail: seq<File>, dir: seq<string>, e: Entry)
    requires Witnessed(tail, dir, e)
    ensures Witnessed([f] + tail, dir, e)
  {
    hide Inside, Child, Leaf;
    var g :| g in tail && Inside(dir, g) && Child(dir, g) == e.name && e.dir == !Leaf(dir, g)
          && e.size == (if e.dir then 0 else g.size) && e.modified == g.modified / 1000;
    assert g in [f] + tail;
  }

  lemma FirstOnce(first: Entry, rest: seq<Entry>)
    requires OneEach(rest) && forall e :: e in rest ==> e.name != first.name
    ensures OneEach([first] + rest)
  {
    var entries := [first] + rest;
    forall i, j | 0 <= i < j < |entries| ensures entries[i].name != entries[j].name {
      assert entries[j] == rest[j - 1] && rest[j - 1] in rest;
      if i > 0 { assert entries[i] == rest[i - 1]; }
    }
  }

  lemma FirstNames(first: Entry, rest: seq<Entry>, name: string)
    ensures Names([first] + rest, name) <==> name == first.name || Names(rest, name)
  {
    var entries := [first] + rest;
    assert first in entries;
    if Names(rest, name) {
      var e :| e in rest && e.name == name;
      assert e in entries;
    }
  }

  /** Listing a directory shows its immediate children, each once: the files in it by name and
      size, and a directory for every name under which files lie deeper. */
  lemma ListingShowsTheChildren(folder: Folder, dir: seq<string>)
    requires Arranged(folder) && Proper(dir)
    ensures var r := List(folder, DirValue(dir));
            && r.Ok?
            && OneEach(r.value)
            && (forall f :: f in folder.files && Inside(dir, f) ==> Names(r.value, Child(dir, f)))
            && (forall e :: e in r.value ==>
                  && e.path == DirValue(dir + [e.name])
                  && Witnessed(folder.files, dir, e)
                  && (e.dir <==> exists f :: f in folder.files && Inside(dir + [e.name], f)))
  {
    PartsOfDir(dir);
    EntriesShow(folder, folder.files, dir, {});
    var entries := List(folder, DirValue(dir)).value;
    forall e | e in entries ensures e.dir <==> exists f :: f in folder.files && Inside(dir + [e.name], f) {
      KindIsRight(folder, dir, e);
    }
  }

  lemma KindIsRight(folder: Folder, dir: seq<string>, e: Entry)
    requires Arranged(folder) && Witnessed(folder.files, dir, e)
    ensures e.dir <==> exists f :: f in folder.files && Inside(dir + [e.name], f)
  {
    var f :| f in folder.files && Inside(dir, f) && Child(dir, f) == e.name && e.dir == !Leaf(dir, f)
          && e.size == (if e.dir then 0 else f.size) && e.modified == f.modified / 1000;
    if e.dir {
      assert Steps(f)[..|dir| + 1] == dir + [e.name];
      assert Inside(dir + [e.name], f);
    } else {
      assert Steps(f) == dir + [e.name];
    }
  }
}
