/**
 A folder chosen for reading: a flat list of files whose paths make it a tree.
 */
module BrowserFolder {
  import opened BrowserPaths

  datatype File = File(path: string, size: nat, modified: nat)

  /** The chosen folder: its name and its files, whose paths start with the name. */
  datatype Folder = Folder(name: string, files: seq<File>)

  datatype Entry = Entry(name: string, path: string, dir: bool, size: nat, modified: nat)

  datatype Result<+T> = Ok(value: T) | Err

  predicate BadPart(part: string) {
    part == "" || part == "." || part == ".." || '\\' in part || '\0' in part
  }

  predicate AllGood(parts: seq<string>) { forall i :: 0 <= i < |parts| ==> !BadPart(parts[i]) }

  /** `parts`. */
  function Parts(value: string): (r: Result<seq<string>>)
    ensures r.Ok? ==> AllGood(r.value)
  {
    var ps := Split(if value == "" then "/browser" else value);
    if |ps| < 2 || ps[0] != "" || ps[1] != "browser" || !AllGood(ps[2..]) then Err else Ok(ps[2..])
  }

  function Relative(folder: Folder, parts: seq<string>): string { Join([folder.name] + parts) }

  /** `file`. */
  function Find(folder: Folder, value: string): Result<File> {
    var parts := Parts(value);
    if parts.Err? || parts.value == [] then Err else FindIn(folder.files, Relative(folder, parts.value))
  }

  function FindIn(files: seq<File>, path: string): Result<File> {
    if files == [] then Err else if files[0].path == path then Ok(files[0]) else FindIn(files[1..], path)
  }

  /** The entries that the files contribute, skipping names already seen. */
  function Entries(files: seq<File>, prefix: string, value: string, seen: set<string>): (entries: seq<Entry>)
    ensures forall e :: e in entries ==> e.path == value + "/" + e.name && e.name != "" && e.name !in seen
  {
    if files == [] then []
    else if !(prefix <= files[0].path) then Entries(files[1..], prefix, value, seen)
    else
      var rest := files[0].path[|prefix|..];
      var name := Split(rest)[0];
      if name == "" || name in seen then Entries(files[1..], prefix, value, seen)
      else [EntryFor(files[0], rest, value)] + Entries(files[1..], prefix, value, seen + {name})
  }

  function EntryFor(file: File, rest: string, value: string): Entry {
    var name := Split(rest)[0];
    Entry(name, value + "/" + name, '/' in rest, if '/' in rest then 0 else file.size, file.modified / 1000)
  }

  /** `list`. */
  function List(folder: Folder, value: string): (r: Result<seq<Entry>>)
    ensures r.Ok? ==> forall e :: e in r.value ==> e.path == value + "/" + e.name && e.name != ""
  {
    match Parts(value)
    case Err => Err
    case Ok(parts) => Ok(Entries(folder.files, Relative(folder, parts) + "/", value, {}))
  }

  // ---------------------------------------------------------------- listing ends below the longest path

  function LongestPath(files: seq<File>): (n: nat)
    ensures forall f :: f in files ==> |f.path| <= n
  {
    if files == [] then 0
    else
      var n := LongestPath(files[1..]);
      if |files[0].path| > n then |files[0].path| else n
  }

  /** How much longer a listed path may get. */
  function Room(folder: Folder, value: string): nat {
    var bound := LongestPath(folder.files) + 9;
    if |value| < bound then bound - |value| else 0
  }

  lemma {:induction false} EntriesNeedAFile(files: seq<File>, prefix: string, value: string, seen: set<string>)
    ensures Entries(files, prefix, value, seen) != [] ==> exists f :: f in files && prefix <= f.path
  {
    if files != [] {
      EntriesNeedAFile(files[1..], prefix, value, seen);
      if prefix <= files[0].path {
        assert files[0] in files;
      } else if Entries(files[1..], prefix, value, seen) != [] {
        var f :| f in files[1..] && prefix <= f.path;
        assert f in files;
      }
    }
  }

  lemma ListedHasRoom(folder: Folder, value: string)
    ensures List(folder, value).Ok? && List(folder, value).value != [] ==> Room(folder, value) > 0
    ensures List(folder, value).Ok? ==> forall e :: e in List(folder, value).value ==>
            Room(folder, e.path) < Room(folder, value)
  {
    if List(folder, value).Ok? && List(folder, value).value != [] {
      var parts := Parts(value).value;
      var prefix := Relative(folder, parts) + "/";
      EntriesNeedAFile(folder.files, prefix, value, {});
      var f :| f in folder.files && prefix <= f.path;
      if value != "" {
        JoinSplit(value);
        assert Split(value) == ["", "browser"] + parts;
        RelativeLength(folder.name, parts);
      }
    }
  }

  lemma RelativeLength(name: string, parts: seq<string>)
    ensures |Join(["", "browser"] + parts)| <= |Join([name] + parts)| + 8
  {
    assert Join(["", "browser"]) == "/browser" by { assert ["", "browser"][1..] == ["browser"]; }
    if parts != [] {
      JoinAround(["", "browser"], parts);
      JoinAround([name], parts);
    } else {
      assert ["", "browser"] + parts == ["", "browser"] && [name] + parts == [name];
    }
  }

  // ---------------------------------------------------------------- collecting

  datatype Got = Got(file: File, relative: string)

  datatype Collected = Collected(files: seq<Got>, directories: seq<string>, count: nat)

  const LIMIT: nat := 1000

  /** The relative path of a child: its name at the top, else below its directory. */
  function Under(above: Result<string>, name: string): string {
    if above.Ok? then above.value + "/" + name else name
  }

  function Walk(folder: Folder, entry: Entry, relative: string, c: Collected): Result<Collected>
    decreases Room(folder, entry.path), 1, 0
  {
    if c.count + 1 > LIMIT then Err
    else if entry.dir then
      match List(folder, entry.path)
      case Err => Err
      case Ok(children) =>
        var entered := c.(count := c.count + 1, directories := c.directories + [relative]);
        ListedHasRoom(folder, entry.path);
        if children == [] then Ok(entered)
        else WalkAll(folder, children, Ok(relative), entered, Room(folder, entry.path) - 1)
    else
      match Find(folder, entry.path)
      case Err => Err
      case Ok(file) => Ok(c.(count := c.count + 1, files := c.files + [Got(file, relative)]))
  }

  function WalkAll(folder: Folder, entries: seq<Entry>, above: Result<string>, c: Collected,
      ghost room: nat): Result<Collected>
    requires forall e :: e in entries ==> Room(folder, e.path) <= room
    decreases room, 2, |entries|
  {
    if entries == [] then Ok(c)
    else
      match Walk(folder, entries[0], Under(above, entries[0].name), c)
      case Err => Err
      case Ok(next) => WalkAll(folder, entries[1..], above, next, room)
  }

  /** `collect`. */
  function Collect(folder: Folder, entries: seq<Entry>): Result<Collected> {
    WalkAll(folder, entries, Err, Collected([], [], 0), LongestPath(folder.files) + 9)
  }
}
