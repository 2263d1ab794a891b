/** The build description of src/version_data.rs: `VersionData` and its `Display`. */
module Version {

  datatype VersionData = VersionData(
    build: string,
    name: string,
    version: string,
    branch: string,
    commit: string,
    cleanWorktree: bool,
    os: string,
    arch: string,
    timestamp: string)

  /** The mark after the commit: `*` for a build from a worktree with changes. */
  function DirtyMark(cleanWorktree: bool): (mark: string)
    ensures mark == "*" <==> !cleanWorktree
    ensures mark == "" <==> cleanWorktree
  {
    if cleanWorktree then "" else "*"
  }

  /** The text up to and including the commit. */
  function Head(v: VersionData): string
  {
    v.name + " " + v.version + " (" + v.branch + ":" + v.commit
  }

  /** The text after the mark. */
  function Tail(v: VersionData): string
  {
    ", " + v.build + " build, " + v.os + " [" + v.arch + "], " + v.timestamp + ")"
  }

  /** `Display for VersionData` (lines 20-24):
      `name version (branch:commit<mark>, build build, os [arch], timestamp)`. */
  function Display(v: VersionData): (s: string)
    ensures |s| == |v.name| + |v.version| + |v.branch| + |v.commit| + |v.build| + |v.os| + |v.arch| + |v.timestamp|
                   + 20 + (if v.cleanWorktree then 0 else 1)
  {
    Head(v) + DirtyMark(v.cleanWorktree) + Tail(v)
  }

  // ----- properties -----------------------------------------------------------------------------

  /** The description begins with the name, a space and the version, and ends with the
      timestamp and `)`. */
  lemma DisplayEnds(v: VersionData)
    ensures v.name + " " + v.version <= Display(v)
    ensures |Display(v)| >= |v.timestamp| + 1
    ensures Display(v)[|Display(v)| - |v.timestamp| - 1..] == v.timestamp + ")"
  {
    var front, back := v.name + " " + v.version, v.timestamp + ")";
    var x := " (" + v.branch + ":" + v.commit;
    var y := ", " + v.build + " build, " + v.os + " [" + v.arch + "], ";
    assert Head(v) == front + x;
    assert Tail(v) == y + back;
    var middle := x + DirtyMark(v.cleanWorktree) + y;
    assert Display(v) == front + middle + back;
    assert (front + middle + back)[..|front|] == front;
    assert (front + middle + back)[|front| + |middle|..] == back;
  }

  /** The two descriptions of the same build, from a clean and from a changed worktree, differ
      only by the `*` right after the commit. */
  lemma DirtyMarkFollowsCommit(v: VersionData)
    ensures Display(v.(cleanWorktree := true)) == Head(v) + Tail(v)
    ensures Display(v.(cleanWorktree := false)) == Head(v) + "*" + Tail(v)
    ensures Display(v.(cleanWorktree := false))[|Head(v)|] == '*'
    ensures |Head(v)| < |Display(v.(cleanWorktree := true))| && Display(v.(cleanWorktree := true))[|Head(v)|] == ','
  {
    var clean, dirty := v.(cleanWorktree := true), v.(cleanWorktree := false);
    assert Head(clean) == Head(v) && Tail(clean) == Tail(v);
    assert Head(dirty) == Head(v) && Tail(dirty) == Tail(v);
    assert (Head(v) + Tail(v))[|Head(v)|] == Tail(v)[0];
  }

  /** A changed worktree shows as one character more than a clean one; so the description tells
      the two apart. */
  lemma DisplayShowsWorktreeState(v: VersionData, w: VersionData)
    requires v.(cleanWorktree := true) == w.(cleanWorktree := true)
    ensures Display(v) == Display(w) <==> v == w
  {
  }
}
