/**
 When an operation of lfs.py ends in a failed assertion or a type error, in terms of the tree before the call:
 where the parts of the path lead. The walk looks at the wrong inode for being a directory, so a file in the
 middle of a path is found out only by the next lookup's assertion; and a link does not look whether its
 destination's directory was found.
 */
module LfsCrash {
  import opened LfsTree
  import opened LfsLog
  import opened LfsRun

  // ---------- What a walk finds ----------

  predicate IsDir(fs: Fs, n: int) { 0 <= n < |fs| && fs[n].Dir? }

  predicate IsFile(fs: Fs, n: int) { 0 <= n < |fs| && fs[n].File? }

  /** The first k parts of a path from d lead to a file. */
  predicate FileAt(fs: Fs, d: int, rest: seq<string>, k: nat) {
    k < |rest| && IsFile(fs, Resolve(fs, d, rest[..k]))
  }

  /** A walk gets to its last part exactly when the others lead to a directory; it aborts exactly when fewer parts
      than all lead to a file. */
  lemma {:induction false} WalkIs(fs: Fs, d: int, rest: seq<string>)
    requires FsOk(fs) && rest != [] && 0 <= d < |fs| && !fs[d].Free?
    ensures var r, p := WalkFrom(fs, d, rest), Resolve(fs, d, rest[..|rest| - 1]);
            && (r.Reached? <==> IsDir(fs, p))
            && (r.Reached? ==> r == Reached(Resolve(fs, d, rest), rest[|rest| - 1], p))
    ensures WalkFrom(fs, d, rest).Aborts? <==> exists k: nat :: FileAt(fs, d, rest, k)
    decreases |rest|
  {
    assert rest[..0] == [];
    if fs[d].File? {
      assert FileAt(fs, d, rest, 0);
      OffFile(fs, d, rest[..|rest| - 1]);
    } else if |rest| == 1 {
      assert Resolve(fs, d, rest) == Edge(fs, d, rest[0]) by { assert rest[1..] == []; }
    } else {
      var next := Edge(fs, d, rest[0]);
      EdgeLive(fs, d, rest[0]);
      FilesBeyond(fs, d, rest);
      assert rest[..|rest| - 1][1..] == rest[1..][..|rest| - 2];
      if next != -1 {
        WalkIs(fs, next, rest[1..]);
      }
    }
  }

  lemma OffFile(fs: Fs, d: int, path: seq<string>)
    requires 0 <= d < |fs| && fs[d].File?
    ensures path != [] ==> Resolve(fs, d, path) == -1
    ensures !IsDir(fs, Resolve(fs, d, path))
  {
  }

  /** From a directory, the files on the way are those on the way from where the first part leads. */
  lemma FilesBeyond(fs: Fs, d: int, rest: seq<string>)
    requires |rest| > 1 && IsDir(fs, d)
    ensures var next := Edge(fs, d, rest[0]);
            (exists k: nat :: FileAt(fs, d, rest, k)) <==> next != -1 && exists k: nat :: FileAt(fs, next, rest[1..], k)
  {
    var next := Edge(fs, d, rest[0]);
    forall k: nat | k < |rest|
      ensures FileAt(fs, d, rest, k) <==> k > 0 && next != -1 && FileAt(fs, next, rest[1..], k - 1)
    {
      if k > 0 {
        assert rest[..k][1..] == rest[1..][..k - 1];
      }
    }
    if next != -1 && exists k: nat :: FileAt(fs, next, rest[1..], k) {
      var k: nat :| FileAt(fs, next, rest[1..], k);
      assert FileAt(fs, d, rest, k + 1);
    }
  }

  // ---------- Paths from the root ----------

  predicate WellFormed(path: seq<string>) { path != [] && path[0] == "" }

  /** What a path leads to, and what it leads to without its last part. */
  function Target(fs: Fs, path: seq<string>): int
    requires path != []
  {
    Resolve(fs, ROOT_INODE, Below(path))
  }

  function Parent(fs: Fs, path: seq<string>): int
    requires path != []
  {
    Resolve(fs, ROOT_INODE, Below(path)[..|Below(path)| - 1])
  }

  /** Some parts of the path, but not all, lead to a file. */
  predicate ThroughFile(fs: Fs, path: seq<string>) {
    WellFormed(path) && exists k :: 0 < k < |Below(path)| && IsFile(fs, Resolve(fs, ROOT_INODE, Below(path)[..k]))
  }

  /** The path without its last part leads to a directory. */
  predicate HasParent(fs: Fs, path: seq<string>) {
    WellFormed(path) && IsDir(fs, Parent(fs, path))
  }

  predicate LeadsToFile(fs: Fs, path: seq<string>) {
    WellFormed(path) && IsFile(fs, Target(fs, path))
  }

  /** The walk's assertion fails exactly when the path goes through a file. */
  lemma WalkAborts(fs: Fs, path: seq<string>)
    requires FsOk(fs)
    ensures WalkPath(fs, path).Aborts? <==> ThroughFile(fs, path)
    ensures WalkPath(fs, path).Reached? <==> HasParent(fs, path)
    ensures WalkPath(fs, path).Reached? ==> path != [] && WalkPath(fs, path).inum == Target(fs, path)
  {
    if WellFormed(path) {
      var rest := Below(path);
      WalkIs(fs, ROOT_INODE, rest);
      assert rest[..0] == [] && !FileAt(fs, ROOT_INODE, rest, 0);
      forall k: nat
        ensures FileAt(fs, ROOT_INODE, rest, k) <==> 0 < k < |rest| && IsFile(fs, Resolve(fs, ROOT_INODE, rest[..k]))
      {
      }
    }
  }

  lemma FileHasParent(fs: Fs, path: seq<string>)
    requires FsOk(fs) && LeadsToFile(fs, path)
    ensures HasParent(fs, path)
  {
    var rest := Below(path);
    PrefixIsDir(fs, ROOT_INODE, rest);
  }

  /** What leads anywhere leads through directories. */
  lemma {:induction false} PrefixIsDir(fs: Fs, d: int, rest: seq<string>)
    requires rest != [] && Resolve(fs, d, rest) != -1
    ensures IsDir(fs, Resolve(fs, d, rest[..|rest| - 1]))
    decreases |rest|
  {
    if |rest| > 1 {
      PrefixIsDir(fs, Edge(fs, d, rest[0]), rest[1..]);
      assert rest[..|rest| - 1][1..] == rest[1..][..|rest| - 2];
    }
  }

  // ---------- Operations ----------

  /** When an operation crashes: its path goes through a file, or, for a link of a file, the destination's
      directory is missing or the destination goes through a file. */
  predicate Crashes(fs: Fs, op: Op) {
    match op
    case CreateOp(path, _, _) => ThroughFile(fs, path)
    case LinkOp(src, dst) => ThroughFile(fs, src) || (LeadsToFile(fs, src) && !HasParent(fs, dst))
    case WriteOp(path, _, _) => ThroughFile(fs, path)
    case DeleteOp(path) => ThroughFile(fs, path)
    case SyncOp => false
  }

  lemma CreateCrashes(fs: Fs, path: seq<string>, isFile: bool, m: int)
    requires FsOk(fs)
    ensures Create(fs, path, isFile, m).1 == Crash <==> ThroughFile(fs, path)
  {
    WalkAborts(fs, path);
  }

  lemma LinkCrashes(fs: Fs, src: seq<string>, dst: seq<string>)
    requires FsOk(fs)
    ensures Link(fs, src, dst).1 == Crash <==> ThroughFile(fs, src) || (LeadsToFile(fs, src) && !HasParent(fs, dst))
  {
    WalkAborts(fs, src);
    WalkAborts(fs, dst);
    if LeadsToFile(fs, src) {
      FileHasParent(fs, src);
    }
  }

  lemma WriteCrashes(fs: Fs, path: seq<string>, offset: int, contents: seq<string>)
    requires FsOk(fs)
    ensures Write(fs, path, offset, contents).1 == Crash <==> ThroughFile(fs, path)
  {
    WalkAborts(fs, path);
  }

  lemma DeleteCrashes(fs: Fs, path: seq<string>)
    requires FsOk(fs)
    ensures Delete(fs, path).1 == Crash <==> ThroughFile(fs, path)
  {
    WalkAborts(fs, path);
    var r := WalkPath(fs, path);
    if r.Reached? {
      WalkReaches(fs, ROOT_INODE, Below(path));
    }
  }

  /** On the disk as on the tree, an operation crashes exactly then. */
  lemma CrashesExactly(s: Lfs, force: bool, op: Op)
    requires Good(s) && FsOk(View(s))
    ensures Do(s, force, op).1 == Crash <==> Crashes(View(s), op)
  {
    DoFollows(s, force, op);
    match op
    case CreateOp(path, isFile, m) => CreateCrashes(View(s), path, isFile, m);
    case LinkOp(src, dst) => LinkCrashes(View(s), src, dst);
    case WriteOp(path, offset, contents) => WriteCrashes(View(s), path, offset, contents);
    case DeleteOp(path) => DeleteCrashes(View(s), path);
    case SyncOp =>
  }

  // ---------- Such inputs ----------

  const MAKE_A := CreateOp(["", "a"], true, 1)

  /** The tree after a file a was created in the root of a new file system. */
  lemma WithA() returns (fs: Fs)
    ensures fs == DoFs(Start(), MAKE_A).0 && DoFs(Start(), MAKE_A).1 == Done(0)
    ensures Allowed(Start(), MAKE_A) && FsOk(fs) && Resolve(fs, ROOT_INODE, ["a"]) == 1 && IsFile(fs, 1)
    ensures Edge(fs, ROOT_INODE, "x") == -1
  {
    StartOk();
    var fs0 := Start();
    assert Below(["", "a"]) == ["a"];
    StartLookup("a");
    StartLookup("x");
    assert WalkPath(fs0, ["", "a"]) == Reached(-1, "a", ROOT_INODE);
    StartHasRoom("a", 1);
    assert Creates(fs0, ROOT_INODE, "a", true, 1);
    fs := Created(fs0, ROOT_INODE, "a", true, 1);
    CreatedOk(fs0, ROOT_INODE, "a", true, 1);
    CreatedPath(fs0, ["", "a"], ROOT_INODE, "a", true, 1);
    CreatedEdges(fs0, ROOT_INODE, "a", true, 1, ROOT_INODE, "x");
  }

  lemma StartLookup(name: string)
    requires name != "." && name != ".." && name != "-"
    ensures Start()[ROOT_INODE].Dir? && First(Start()[ROOT_INODE].slots, name) == -1
            && Edge(Start(), ROOT_INODE, name) == -1
  {
  }

  lemma StartHasRoom(name: string, m: int)
    ensures Start()[ROOT_INODE].Dir? && AddEntry(Start()[ROOT_INODE].slots, name, m).Some?
  {
  }

  /** After creating the file /a, creating /a/b fails the walk's assertion. */
  lemma CreateUnderFile(force: bool)
    ensures var ops := [MAKE_A];
            && AllAllowed(Start(), ops)
            && Good(After(force, ops))
            && Do(After(force, ops), force, CreateOp(["", "a", "b"], true, 2)).1 == Crash
  {
    var s := AfterA(force);
    var fs := View(s);
    var path := ["", "a", "b"];
    assert Below(path) == ["a", "b"] && Below(path)[..1] == ["a"];
    assert IsFile(fs, Resolve(fs, ROOT_INODE, Below(path)[..1]));
    assert ThroughFile(fs, path);
    CrashesExactly(s, force, CreateOp(path, true, 2));
  }

  /** After creating the file /a, linking it to /x/b, where /x is missing, ends in an error that is not caught. */
  lemma LinkToNowhere(force: bool)
    ensures var ops := [MAKE_A];
            && AllAllowed(Start(), ops)
            && Good(After(force, ops))
            && Do(After(force, ops), force, LinkOp(["", "a"], ["", "x", "b"])).1 == Crash
  {
    var s := AfterA(force);
    var fs := View(s);
    var src, dst := ["", "a"], ["", "x", "b"];
    assert Below(src) == ["a"] && Below(dst) == ["x", "b"] && Below(dst)[..1] == ["x"];
    assert Resolve(fs, ROOT_INODE, ["x"]) == -1;
    assert LeadsToFile(fs, src) && !HasParent(fs, dst);
    CrashesExactly(s, force, LinkOp(src, dst));
  }

  lemma AfterA(force: bool) returns (s: Lfs)
    ensures AllAllowed(Start(), [MAKE_A]) && s == After(force, [MAKE_A]) && Good(s) && FsOk(View(s))
    ensures Resolve(View(s), ROOT_INODE, ["a"]) == 1 && IsFile(View(s), 1) && Edge(View(s), ROOT_INODE, "x") == -1
  {
    var ops := [MAKE_A];
    var fs := WithA();
    s := After(force, ops);
    assert ops[1..] == [];
    InitInv();
    MemoryIsTree(Init(), force, ops);
    assert RunFs(Start(), ops) == fs;
  }
}
