/**
 Paths as strings: splitting at slashes and joining with them.
 */
module BrowserPaths {
  /** `split('/')`. */
  function Split(s: string): (parts: seq<string>)
    ensures parts != []
  {
    if s == "" then [""]
    else
      var rest := Split(s[1..]);
      if s[0] == '/' then [""] + rest else [[s[0]] + rest[0]] + rest[1..]
  }

  /** `join('/')`. */
  function Join(parts: seq<string>): string
    requires parts != []
  {
    if |parts| == 1 then parts[0] else parts[0] + "/" + Join(parts[1..])
  }

  /** A part of a path has no slash in it. */
  predicate Plain(part: string) { '/' !in part }

  predicate AllPlain(parts: seq<string>) { forall i :: 0 <= i < |parts| ==> Plain(parts[i]) }

  lemma {:induction false} SplitPlain(part: string)
    requires Plain(part)
    ensures Split(part) == [part]
  {
    if part != "" {
      assert part[0] in part && part == [part[0]] + part[1..];
      assert forall c :: c in part[1..] ==> c in part;
      SplitPlain(part[1..]);
    }
  }

  lemma {:induction false} SplitIsPlain(s: string)
    ensures AllPlain(Split(s))
  {
    if s != "" { SplitIsPlain(s[1..]); }
  }

  /** Splitting around a slash. */
  lemma {:induction false} SplitAround(a: string, b: string)
    ensures Split(a + "/" + b) == Split(a) + Split(b)
  {
    var s := a + "/" + b;
    if a == "" {
      assert s[1..] == b;
    } else {
      assert s[1..] == a[1..] + "/" + b;
      SplitAround(a[1..], b);
    }
  }

  /** Plain parts survive joining and splitting. */
  lemma {:induction false} SplitJoin(parts: seq<string>)
    requires parts != [] && AllPlain(parts)
    ensures Split(Join(parts)) == parts
  {
    SplitPlain(parts[0]);
    if |parts| > 1 {
      SplitJoin(parts[1..]);
      SplitAround(parts[0], Join(parts[1..]));
      assert parts == [parts[0]] + parts[1..];
    }
  }

  lemma {:induction false} JoinAround(a: seq<string>, b: seq<string>)
    requires a != [] && b != []
    ensures Join(a + b) == Join(a) + "/" + Join(b)
  {
    if |a| == 1 {
      assert (a + b)[1..] == b;
    } else {
      assert (a + b)[1..] == a[1..] + b;
      JoinAround(a[1..], b);
    }
  }

  lemma {:induction false} JoinSplit(s: string)
    ensures Join(Split(s)) == s
  {
    if s != "" {
      JoinSplit(s[1..]);
      var rest := Split(s[1..]);
      if s[0] == '/' {
        JoinAround([""], rest);
      } else if |rest| > 1 {
        JoinAround([rest[0]], rest[1..]);
        JoinAround([[s[0]] + rest[0]], rest[1..]);
        assert rest == [rest[0]] + rest[1..];
      }
    }
  }

  /** `startsWith` on joined paths is being inside the directory. */
  lemma StartsInside(dir: seq<string>, path: seq<string>)
    requires dir != [] && path != [] && AllPlain(dir) && AllPlain(path)
    ensures Join(dir) + "/" <= Join(path) <==> |dir| < |path| && dir == path[..|dir|]
    ensures |dir| < |path| && dir == path[..|dir|] ==>
              var rest := Join(path)[|Join(dir)| + 1..];
              rest == Join(path[|dir|..]) && Split(rest) == path[|dir|..]
  {
    hide Split, Join;
    SplitJoin(dir);
    SplitJoin(path);
    if Join(dir) + "/" <= Join(path) { PrefixSplits(Join(dir), Join(path)); }
    if |dir| < |path| && dir == path[..|dir|] { TailJoins(dir, path); }
  }

  lemma PrefixSplits(a: string, s: string)
    requires a + "/" <= s
    ensures |Split(a)| < |Split(s)| && Split(s)[..|Split(a)|] == Split(a)
  {
    hide Split;
    var rest := s[|a| + 1..];
    assert s == a + "/" + rest;
    SplitAround(a, rest);
  }

  lemma TailJoins(dir: seq<string>, path: seq<string>)
    requires dir != [] && AllPlain(path) && |dir| < |path| && dir == path[..|dir|]
    ensures Join(dir) + "/" <= Join(path)
    ensures Join(path)[|Join(dir)| + 1..] == Join(path[|dir|..]) && Split(Join(path[|dir|..])) == path[|dir|..]
  {
    hide Split, Join;
    var tail := path[|dir|..];
    assert path == dir + tail;
    JoinAround(dir, tail);
    SplitJoin(tail);
  }

  /** A slash in what remains means at least two parts. */
  lemma {:induction false} SlashMeansParts(s: string)
    ensures '/' in s <==> |Split(s)| > 1
  {
    if s != "" {
      SlashMeansParts(s[1..]);
      assert s == [s[0]] + s[1..];
    }
  }
}
