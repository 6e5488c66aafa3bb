/**
 Where a migration may write.  Paths are absolute and resolved: sequences of component
 names.  The test that keeps the target out of the source looks at the text of the relative
 path, which is not quite the same as asking whether one path lies below the other.
 */
module StoragePaths {
  type Path = seq<string>

  /** `candidate` is `parent` or lies below it. */
  predicate Within(parent: Path, candidate: Path) { parent <= candidate }

  function CommonLength(a: Path, b: Path): (n: nat)
    ensures n <= |a| && n <= |b|
    ensures a[..n] == b[..n]
    ensures n < |a| && n < |b| ==> a[n] != b[n]
    ensures a <= b ==> n == |a|
  {
    if a == [] || b == [] || a[0] != b[0] then 0
    else
      var n := 1 + CommonLength(a[1..], b[1..]);
      assert a[..n] == [a[0]] + a[1..][..n - 1];
      assert b[..n] == [b[0]] + b[1..][..n - 1];
      n
  }

  /** `path.relative` of two resolved paths. */
  function Relative(from: Path, to: Path): Path {
    var n := CommonLength(from, to);
    seq(|from| - n, _ => "..") + to[n..]
  }

  predicate StartsWithDots(name: string) { ".." <= name }

  /** `pathInside`: the relative path is empty or its text does not start with two dots. */
  predicate PathInside(parent: Path, candidate: Path) {
    var relative := Relative(parent, candidate);
    relative == [] || !StartsWithDots(relative[0])
  }

  /** The test agrees with containment except for children whose own name starts with two
      dots, which it takes to be outside. */
  lemma PathInsideIff(parent: Path, candidate: Path)
    ensures PathInside(parent, candidate) <==>
            && Within(parent, candidate)
            && (candidate == parent || !StartsWithDots(candidate[|parent|]))
  {
    var n := CommonLength(parent, candidate);
    if n < |parent| {
      assert Relative(parent, candidate)[0] == "..";
    } else {
      assert Relative(parent, candidate) == candidate[n..];
      assert parent == parent[..n] == candidate[..n];
      if |candidate| == n { assert candidate == candidate[..n]; }
    }
  }

  datatype Transition = Transition(id: string, source: Path, target: Path)

  const MARKER_PREFIX := ".terma-storage-migration-"

  function StageName(t: Transition): string { MARKER_PREFIX + t.id + ".staging" }
  function MarkerName(t: Transition): string { MARKER_PREFIX + t.id + ".json" }

  /** A marker or a staging directory of another migration. */
  predicate OfAnother(t: Transition, name: string) {
    MARKER_PREFIX <= name && name != StageName(t) && name != MarkerName(t)
  }

  /** The checks of `transitionPaths`. */
  predicate Accepted(t: Transition) {
    && |t.id| == 32 && (forall i :: 0 <= i < 32 ==> t.id[i] in "0123456789abcdef")
    && t.source != t.target
    && !PathInside(t.source, t.target)
  }

  /** Exactly the ids of 32 lower-case hexadecimal digits are accepted, with a target that is not
      the source nor, as far as the path test can tell, in it. */
  lemma AcceptedIff(t: Transition)
    ensures Accepted(t) <==>
            && |t.id| == 32 && (forall c :: c in t.id ==> '0' <= c <= '9' || 'a' <= c <= 'f')
            && t.source != t.target && !(t.source <= t.target && !(".." <= t.target[|t.source|]))
  {
    PathInsideIff(t.source, t.target);
    var digits := "0123456789abcdef";
    forall c ensures c in digits <==> '0' <= c <= '9' || 'a' <= c <= 'f' { HexDigit(c); }
    if |t.id| == 32 && forall c :: c in t.id ==> '0' <= c <= '9' || 'a' <= c <= 'f' {
      forall i | 0 <= i < 32 ensures t.id[i] in digits { assert t.id[i] in t.id; }
    }
  }

  lemma HexDigit(c: char)
    ensures c in "0123456789abcdef" <==> '0' <= c <= '9' || 'a' <= c <= 'f'
  {
    var digits := "0123456789abcdef";
    assert digits[0] == '0' && digits[1] == '1' && digits[2] == '2' && digits[3] == '3' && digits[4] == '4';
    assert digits[5] == '5' && digits[6] == '6' && digits[7] == '7' && digits[8] == '8' && digits[9] == '9';
    assert digits[10] == 'a' && digits[11] == 'b' && digits[12] == 'c' && digits[13] == 'd';
    assert digits[14] == 'e' && digits[15] == 'f';
    if '0' <= c <= '9' { assert digits[c as int - '0' as int] == c; }
    if 'a' <= c <= 'f' { assert digits[10 + (c as int - 'a' as int)] == c; }
  }

  /** A migration's own stage and marker do not stand in its way; those of another do. */
  lemma OwnFilesPass(t: Transition, u: Transition)
    ensures !OfAnother(t, StageName(t)) && !OfAnother(t, MarkerName(t))
    ensures u.id != t.id && |u.id| == |t.id| ==> OfAnother(t, StageName(u)) && OfAnother(t, MarkerName(u))
    ensures !OfAnother(t, "data") && !OfAnother(t, ".ssh")
  {
    var n := |MARKER_PREFIX|;
    assert StageName(t)[n..n + |t.id|] == t.id && MarkerName(t)[n..n + |t.id|] == t.id;
    assert StageName(u)[n..n + |u.id|] == u.id && MarkerName(u)[n..n + |u.id|] == u.id;
    assert MARKER_PREFIX[1] == 't' && "data"[1] == 'a' && ".ssh"[1] == 's';
  }

  /** The directory entries a migration creates, renames or removes. */
  function Written(t: Transition): set<Path> {
    {t.target + ["data"], t.target + [".ssh"], t.target + [StageName(t)], t.target + [MarkerName(t)]}
  }

  /** The target is checked to have neither slot, while the source root is an existing
      directory; and the source root is not itself a staging directory or marker. */
  predicate Checked(t: Transition) {
    && t.source != t.target + ["data"] && t.source != t.target + [".ssh"]
    && t.source != t.target + [StageName(t)] && t.source != t.target + [MarkerName(t)]
  }

  lemma ChildWithin(parent: Path, directory: Path, name: string)
    ensures Within(parent, directory + [name]) <==> Within(parent, directory) || parent == directory + [name]
  {
    var child := directory + [name];
    if |parent| <= |directory| {
      assert child[..|parent|] == directory[..|parent|];
    } else if Within(parent, child) {
      assert parent == child[..|parent|] == child;
    }
  }

  lemma WithinChild(parent: Path, name: string, candidate: Path)
    ensures Within(parent + [name], candidate) <==> parent < candidate && candidate[|parent|] == name
  {
    if parent < candidate && candidate[|parent|] == name {
      assert candidate[..|parent| + 1] == parent + [name];
    }
    if Within(parent + [name], candidate) {
      assert candidate[..|parent|] == (parent + [name])[..|parent|] == parent;
      assert candidate[|parent|] == (parent + [name])[|parent|];
    }
  }

  lemma SameParent(a: Path, x: string, b: Path, y: string)
    requires a + [x] == b + [y]
    ensures a == b
  {
    assert a == (a + [x])[..|a|] && b == (b + [y])[..|b|];
  }

  /** An accepted migration writes outside the source root exactly when the target is not a
      child (or deeper) of it whose first name starts with two dots. */
  lemma WritesOutsideSourceIff(t: Transition)
    requires Accepted(t) && Checked(t)
    ensures (forall p :: p in Written(t) ==> !Within(t.source, p)) <==>
            !(t.source < t.target && StartsWithDots(t.target[|t.source|]))
  {
    PathInsideIff(t.source, t.target);
    ChildWithin(t.source, t.target, "data");
    ChildWithin(t.source, t.target, ".ssh");
    ChildWithin(t.source, t.target, StageName(t));
    ChildWithin(t.source, t.target, MarkerName(t));
    assert t.target + ["data"] in Written(t);
  }

  /** Even then the two directories that hold the source's data are left alone. */
  lemma WritesSpareSourceData(t: Transition, slot: string)
    requires Accepted(t) && Checked(t) && slot in {"data", ".ssh"}
    ensures forall p :: p in Written(t) ==> !Within(t.source + [slot], p)
  {
    PathInsideIff(t.source, t.target);
    assert !StartsWithDots(slot) by { assert slot[0] == 'd' || slot[1] == 's'; }
    WithinChild(t.source, slot, t.target);
    forall name: string ensures !Within(t.source + [slot], t.target + [name]) {
      ChildWithin(t.source + [slot], t.target, name);
      if t.source + [slot] == t.target + [name] { SameParent(t.source, slot, t.target, name); }
    }
  }

  /** A target below the source that is accepted all the same. */
  lemma DottedTargetAccepted() returns (t: Transition)
    ensures Accepted(t) && Checked(t) && t.source < t.target
  {
    t := Transition("00000000000000000000000000000000", ["srv"], ["srv", "..new"]);
    PathInsideIff(t.source, t.target);
    assert t.target[1] == "..new" && "..new"[..2] == "..";
  }
}
