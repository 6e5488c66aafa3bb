/**
 The read-only browser directory as the program holds it: listing and collecting are loops
 that fill lists.
 */
module BrowserDirectory {
  import opened BrowserPaths
  import opened BrowserFolder

  class BrowserFileDirectory {
    const folder: Folder

    constructor (name: string, files: seq<File>)
      ensures folder == Folder(name, files)
    {
      folder := Folder(name, files);
    }

    /** `file`. */
    method FileAt(value: string) returns (r: Result<File>)
      ensures r == Find(folder, value)
    {
      var parts := Parts(value);
      if parts.Err? || parts.value == [] { return Err; }
      var relative := Relative(folder, parts.value);
      var n := 0;
      assert folder.files[0..] == folder.files;
      while n < |folder.files|
        invariant n <= |folder.files|
        invariant FindIn(folder.files, relative) == FindIn(folder.files[n..], relative)
      {
        assert folder.files[n..][1..] == folder.files[n + 1..];
        if folder.files[n].path == relative { return Ok(folder.files[n]); }
        n := n + 1;
      }
      return Err;
    }

    /** `list`. */
    method ListEntries(value: string) returns (r: Result<seq<Entry>>)
      ensures r == List(folder, value)
    {
      var parts := Parts(value);
      if parts.Err? { return Err; }
      var prefix := Relative(folder, parts.value) + "/";
      var seen: set<string>, entries: seq<Entry> := {}, [];
      var n := 0;
      assert folder.files[0..] == folder.files;
      while n < |folder.files|
        invariant n <= |folder.files|
        invariant Entries(folder.files, prefix, value, {}) == entries + Entries(folder.files[n..], prefix, value, seen)
      {
        var file := folder.files[n];
        assert folder.files[n..][1..] == folder.files[n + 1..];
        if prefix <= file.path {
          var rest := file.path[|prefix|..];
          var name := Split(rest)[0];
          if name != "" && name !in seen {
            seen := seen + {name};
            entries := entries + [EntryFor(file, rest, value)];
          }
        }
        n := n + 1;
      }
      assert folder.files[n..] == [] && entries + [] == entries;
      return Ok(entries);
    }
  }

  /** One collection under way: what has been found, and how many entries were visited. */
  class Collector {
    const directory: BrowserFileDirectory
    var files: seq<Got>
    var directories: seq<string>
    var count: nat

    ghost function View(): Collected
      reads this
    {
      Collected(files, directories, count)
    }

    constructor (directory: BrowserFileDirectory)
      ensures this.directory == directory && View() == Collected([], [], 0)
    {
      this.directory := directory;
      files, directories, count := [], [], 0;
    }

    /** Visits one entry and, if it is a directory, what is in it; false if that fails. */
    method Visit(entry: Entry, relative: string) returns (ok: bool)
      modifies this
      ensures var r := Walk(directory.folder, entry, relative, old(View()));
              ok == r.Ok? && (ok ==> View() == r.value)
      decreases Room(directory.folder, entry.path), 1, 0
    {
      if count + 1 > LIMIT { return false; }
      if entry.dir {
        var children := directory.ListEntries(entry.path);
        if children.Err? { return false; }
        count := count + 1;
        directories := directories + [relative];
        ListedHasRoom(directory.folder, entry.path);
        if children.value == [] { return true; }
        ok := VisitAll(children.value, Ok(relative), Room(directory.folder, entry.path) - 1);
      } else {
        var file := directory.FileAt(entry.path);
        if file.Err? { return false; }
        count := count + 1;
        files := files + [Got(file.value, relative)];
        ok := true;
      }
    }

    method VisitAll(entries: seq<Entry>, above: Result<string>, ghost room: nat) returns (ok: bool)
      requires forall e :: e in entries ==> Room(directory.folder, e.path) <= room
      modifies this
      ensures var r := WalkAll(directory.folder, entries, above, old(View()), room);
              ok == r.Ok? && (ok ==> View() == r.value)
      decreases room, 2, |entries|
    {
      if entries == [] { return true; }
      ok := Visit(entries[0], Under(above, entries[0].name));
      if ok { ok := VisitAll(entries[1..], above, room); }
    }
  }

  /** `collect`. */
  method CollectEntries(directory: BrowserFileDirectory, entries: seq<Entry>) returns (r: Result<Collected>)
    ensures r == Collect(directory.folder, entries)
  {
    var collector := new Collector(directory);
    var ok := collector.VisitAll(entries, Err, LongestPath(directory.folder.files) + 9);
    r := if ok then Ok(Collected(collector.files, collector.directories, collector.count)) else Err;
  }
}
