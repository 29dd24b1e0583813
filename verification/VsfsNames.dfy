/**
 What the names of vsfs.py lead to: in every directory "." leads to the directory and ".." to its parent, and every
 file holds what was last written to it under any of its names.
 */
module VsfsNames {
  import opened Vsfs
  import opened VsfsTree

  // ---------- The dot entries ----------

  /** The directory above, and the root above the root. */
  function Above(x: Path): Path { if x == [] then [] else Parent(x) }

  predicate DotsOk(s: State, x: Path) {
    && x in s.names && Above(x) in s.names
    && HasEntry(s.disk, s.names[x], ".", s.names[x])
    && HasEntry(s.disk, s.names[x], "..", s.names[Above(x)])
  }

  predicate AllDots(s: State) {
    forall x :: x in s.dirs ==> DotsOk(s, x)
  }

  lemma DotsStay(s: State, t: State, x: Path)
    requires DotsOk(s, x) && x in t.names && Above(x) in t.names
    requires t.names[x] == s.names[x] && t.names[Above(x)] == s.names[Above(x)]
    requires KeepsEntry(s.disk, t.disk, s.names[x], Entry(".", s.names[x]))
    requires KeepsEntry(s.disk, t.disk, s.names[x], Entry("..", s.names[Above(x)]))
    ensures DotsOk(t, x)
  {
  }

  lemma AboveIsDir(s: State, x: Path)
    requires Valid(s) && x in s.dirs
    ensures Above(x) in s.dirs && Above(x) in s.names
  {
    assert TrackedDir(s, x) && TrackedDir(s, []);
  }

  lemma StartDots(numInodes: nat, numData: nat)
    requires numInodes > 0 && numData > 0
    ensures AllDots(Start(numInodes, numData))
  {
    var s := Start(numInodes, numData);
    var l := DirBlock(s.disk, ROOT).dirList;
    assert l[0] == Entry(".", ROOT) && l[1] == Entry("..", ROOT);
  }

  lemma NewDots(s: State, parent: Path, name: string, n: nat, b: int)
    requires CanCreate(s, parent, name, true, n, b)
    ensures DotsOk(Created(s, parent, name, true, n, b), parent + [name])
  {
    var t, x := Created(s, parent, name, true, n, b), parent + [name];
    NewTracked(s, parent, name, true, n, b);
    Fresh(s.disk, n);
    Fresh(s.disk, b);
    DirKnown(s, parent);
    assert Above(x) == parent && parent != x;
    var l := DirBlock(t.disk, n).dirList;
    assert l[0] == Entry(".", n) && l[1] == Entry("..", s.names[parent]);
  }

  /** A create keeps the dot entries, and a new directory gets its own. */
  lemma CreatedDots(s: State, parent: Path, name: string, isDir: bool, n: nat, b: int)
    requires CanCreate(s, parent, name, isDir, n, b) && AllDots(s)
    ensures AllDots(Created(s, parent, name, isDir, n, b))
  {
    var t, added := Created(s, parent, name, isDir, n, b), parent + [name];
    FreshName(s, parent, name);
    if isDir {
      NewDots(s, parent, name, n, b);
    }
    forall x | x in t.dirs
      ensures DotsOk(t, x)
    {
      if x != added {
        AboveIsDir(s, x);
        assert DotsOk(s, x);
        CreatedEntry(s, parent, name, isDir, n, b, s.names[x], Entry(".", s.names[x]));
        CreatedEntry(s, parent, name, isDir, n, b, s.names[x], Entry("..", s.names[Above(x)]));
        DotsStay(s, t, x);
      }
    }
  }

  lemma LinkedDots(s: State, target: Path, parent: Path, name: string)
    requires CanLink(s, target, parent, name) && AllDots(s)
    ensures AllDots(Linked(s, target, parent, name))
  {
    var t := Linked(s, target, parent, name);
    FreshName(s, parent, name);
    forall x | x in t.dirs
      ensures DotsOk(t, x)
    {
      AboveIsDir(s, x);
      assert DotsOk(s, x);
      LinkedEntry(s, target, parent, name, s.names[x], Entry(".", s.names[x]));
      LinkedEntry(s, target, parent, name, s.names[x], Entry("..", s.names[Above(x)]));
      DotsStay(s, t, x);
    }
  }

  lemma WrittenDots(s: State, x: Path, b: int, text: string)
    requires CanWrite(s, x, b) && AllDots(s)
    ensures AllDots(WrittenTo(s, x, b, text))
  {
    var t := WrittenTo(s, x, b, text);
    forall y | y in t.dirs
      ensures DotsOk(t, y)
    {
      assert DotsOk(s, y);
      WrittenEntry(s, x, b, text, s.names[y], Entry(".", s.names[y]));
      WrittenEntry(s, x, b, text, s.names[y], Entry("..", s.names[Above(y)]));
      DotsStay(s, t, y);
    }
  }

  lemma SameName(b: Block, e: Entry, f: Entry)
    requires NamesDiffer(b) && e in b.dirList && f in b.dirList && e.name == f.name
    ensures e == f
  {
    var i :| 0 <= i < |b.dirList| && b.dirList[i] == e;
    var j :| 0 <= j < |b.dirList| && b.dirList[j] == f;
  }

  lemma NotNamed(s: State, x: Path, name: string, n: int)
    requires Valid(s) && x in s.files && TrackedFile(s, x) && HasEntry(s.disk, s.names[Parent(x)], name, n)
    requires Live(s.disk, n) && s.disk.inodes[n].ftype == DIR
    ensures Base(x) != name
  {
    var b := DirBlock(s.disk, s.names[Parent(x)]);
    assert Tidy(s.disk.data[s.disk.inodes[s.names[Parent(x)]].addr]);
    if Base(x) == name {
      SameName(b, Entry(Base(x), s.names[x]), Entry(name, n));
    }
  }

  /** A file is not a dot entry of its directory. */
  lemma NotADot(s: State, x: Path)
    requires Valid(s) && AllDots(s) && x in s.files
    ensures x != [] && Base(x) != "." && Base(x) != ".."
  {
    assert TrackedFile(s, x);
    var p := Parent(x);
    AboveIsDir(s, p);
    assert DotsOk(s, p) && TrackedDir(s, p) && TrackedDir(s, Above(p));
    NotNamed(s, x, ".", s.names[p]);
    NotNamed(s, x, "..", s.names[Above(p)]);
  }

  lemma WithoutDots(s: State, x: Path, k: int)
    requires CanDelete(s, x, k) && AllDots(s)
    ensures AllDots(Without(s, x, k))
  {
    var t := Without(s, x, k);
    NotADot(s, x);
    forall y | y in t.dirs
      ensures DotsOk(t, y)
    {
      assert DotsOk(s, y);
      WithoutKeepsEntry(s, x, k, s.names[y], Entry(".", s.names[y]));
      WithoutKeepsEntry(s, x, k, s.names[y], Entry("..", s.names[Above(y)]));
      DotsStay(s, t, y);
    }
  }

  // ---------- What files hold ----------

  datatype Content = Nothing | Text(text: string)

  function TextOf(d: Disk, n: int): Content {
    if Live(d, n) && 0 <= d.inodes[n].addr < |d.data| then Text(d.data[d.inodes[n].addr].data) else Nothing
  }

  function Holds(s: State, x: Path): Content {
    if x in s.names then TextOf(s.disk, s.names[x]) else Nothing
  }

  lemma CreatedText(s: State, parent: Path, name: string, isDir: bool, n: nat, b: int, m: nat)
    requires CanCreate(s, parent, name, isDir, n, b) && Live(s.disk, m) && s.disk.inodes[m].ftype == REG
    ensures TextOf(CreatedDisk(s, parent, name, isDir, n, b), m) == TextOf(s.disk, m)
  {
    Fresh(s.disk, n);
    assert InodeOk(s.disk, m);
    if isDir {
      Fresh(s.disk, b);
    }
  }

  /** A new file holds nothing, and all others what they held. */
  lemma CreatedHolds(s: State, parent: Path, name: string, isDir: bool, n: nat, b: int, f: Path)
    requires CanCreate(s, parent, name, isDir, n, b)
    ensures f in s.files ==> Holds(Created(s, parent, name, isDir, n, b), f) == Holds(s, f)
    ensures !isDir ==> Holds(Created(s, parent, name, isDir, n, b), parent + [name]) == Nothing
  {
    FreshName(s, parent, name);
    if f in s.files {
      assert TrackedFile(s, f);
      CreatedText(s, parent, name, isDir, n, b, s.names[f]);
    }
  }

  lemma LinkedText(s: State, target: Path, parent: Path, name: string, m: nat)
    requires CanLink(s, target, parent, name) && Live(s.disk, m)
    ensures TextOf(Linked(s, target, parent, name).disk, m) == TextOf(s.disk, m)
  {
    assert TrackedFile(s, target);
  }

  /** A new name of a file holds what the file holds, and so do the others. */
  lemma LinkedHolds(s: State, target: Path, parent: Path, name: string, f: Path)
    requires CanLink(s, target, parent, name)
    ensures f in s.files ==> Holds(Linked(s, target, parent, name), f) == Holds(s, f)
    ensures Holds(Linked(s, target, parent, name), parent + [name]) == Holds(s, target)
  {
    FreshName(s, parent, name);
    assert TrackedFile(s, target);
    LinkedText(s, target, parent, name, s.names[target]);
    if f in s.files {
      assert TrackedFile(s, f);
      LinkedText(s, target, parent, name, s.names[f]);
    }
  }

  /** A write is seen under every name of the file, and under no other. */
  lemma WrittenHolds(s: State, x: Path, b: int, text: string, f: Path)
    requires CanWrite(s, x, b) && f in s.files
    ensures f in s.names
    ensures Holds(WrittenTo(s, x, b, text), f) == if s.names[f] == s.names[x] then Text(text) else Holds(s, f)
  {
    Fresh(s.disk, b);
    assert TrackedFile(s, x) && TrackedFile(s, f) && InodeOk(s.disk, s.names[f]);
  }

  lemma DroppedText(d: Disk, n: nat, m: nat)
    requires Consistent(d) && n < |d.inodes| && m < |d.inodes| && Live(d, n) && Live(d, m)
    requires d.inodes[n].addr == -1 || 0 <= d.inodes[n].addr < |d.data|
    requires n == m ==> d.inodes[n].refCnt != 1
    ensures TextOf(DropName(d, n), m) == TextOf(d, m)
  {
    assert InodeOk(d, m);
    if d.inodes[m].addr != -1 {
      assert OneOwner(d, d.inodes[m].addr);
      assert Owns(d, m, d.inodes[m].addr);
      assert Owns(d, n, d.inodes[m].addr) ==> n == m;
    }
  }

  lemma DeletedText(d: Disk, pb: nat, k: nat, n: nat, m: nat)
    requires Consistent(d) && Names(d, pb, k, n) && m < |d.inodes| && Live(d, n) && Live(d, m)
    requires n == m ==> d.inodes[n].refCnt != 1
    ensures TextOf(Deleted(d, pb, k, n), m) == TextOf(d, m)
  {
    assert InodeOk(d, n);
    DroppedText(d, n, m);
  }

  /** A delete leaves what the other names hold. */
  lemma WithoutHolds(s: State, x: Path, k: int, f: Path)
    requires CanDelete(s, x, k) && f in s.files && f != x
    ensures Holds(Without(s, x, k), f) == Holds(s, f)
  {
    DeletesName(s, x, k);
    assert TrackedFile(s, x) && TrackedFile(s, f);
    WithoutTracked(s, x, k, f);
    StillCounted(s, x, k, f);
    DeletedText(s.disk, s.disk.inodes[s.names[Parent(x)]].addr, k, s.names[x], s.names[f]);
  }

  /** An inode with another name has more than one. */
  lemma StillCounted(s: State, x: Path, k: int, f: Path)
    requires CanDelete(s, x, k) && x in s.names && f in s.names && s.names[x] >= 0 && Live(s.disk, s.names[x])
    requires Live(Without(s, x, k).disk, s.names[f])
    ensures s.names[x] == s.names[f] ==> s.disk.inodes[s.names[x]].refCnt != 1
  {
    DeletesName(s, x, k);
  }

  // ---------- Room, and what is damaged ----------

  /** A directory takes a name until it lists thirty-two. */
  lemma RoomIs(d: Disk, n: nat)
    requires Consistent(d) && Live(d, n) && d.inodes[n].ftype == DIR
    ensures 0 <= d.inodes[n].addr < |d.data|
    ensures Room(d, n) <==> |d.data[d.inodes[n].addr].dirList| < 32
  {
    assert InodeOk(d, n);
    assert BlockOk(d, d.inodes[n].addr);
  }

  predicate BitsRight(d: Disk, inodes: set<nat>, blocks: set<nat>)
    requires |d.ibits| == |d.inodes| && |d.dbits| == |d.data|
  {
    && (forall n: nat :: n < |d.inodes| ==> (InodeBit(d, n) <==> n !in inodes))
    && (forall b: nat :: b < |d.data| ==> (BlockBit(d, b) <==> b !in blocks))
  }

  /** A flipped bit is a bit, and the only one that is wrong. */
  lemma FlippedBit(d: Disk, c: Corruption)
    requires Consistent(d) && Possible(d, c) && (c.DataBit? || c.InodeBitmap?)
    ensures var t := Corrupt(d, c);
      && BitsRight(t, if c.InodeBitmap? then {c.n} else {}, if c.DataBit? then {c.b} else {})
      && (if c.DataBit? then t.dbits[c.b] else t.ibits[c.n]) in {0, 1}
  {
    var t := Corrupt(d, c);
    assert c.DataBit? ==> BlockBit(d, c.b);
    assert c.InodeBitmap? ==> InodeBit(d, c.n);
    forall n: nat | n < |t.inodes|
      ensures InodeBit(t, n) <==> !(c.InodeBitmap? && c.n == n)
    {
      assert InodeBit(d, n);
    }
    forall b: nat | b < |t.data|
      ensures BlockBit(t, b) <==> !(c.DataBit? && c.b == b)
    {
      assert BlockBit(d, b);
    }
  }

  /** How far a count is from the entries it should count. */
  function Surplus(d: Disk, n: nat): int
    requires n < |d.inodes|
  {
    d.inodes[n].refCnt - Entries(d.data, n)
  }

  /** A damaged count is off by one, and no other count is off. */
  lemma CountOff(d: Disk, n: nat, up: bool, m: nat)
    requires Consistent(d) && Live(d, n) && Live(d, m)
    ensures Surplus(Corrupt(d, RefCnt(n, up)), m) == if m != n then 0 else if up then 1 else -1
  {
    assert InodeOk(d, m);
  }

  /** An orphan is an inode of its type that has no bit and no block, counts one entry, and is named by none. */
  lemma OrphanIs(d: Disk, n: nat, asDir: bool)
    requires Consistent(d) && Possible(d, Orphan(n, asDir))
    ensures var t := Corrupt(d, Orphan(n, asDir));
      && Live(t, n) && t.ibits[n] == 0 && (t.inodes[n].ftype == DIR <==> asDir)
      && t.inodes[n].addr == -1 && Surplus(t, n) == 1
      && t.data == d.data && (forall m: nat :: m < |d.inodes| && m != n ==> t.inodes[m] == d.inodes[m])
  {
    assert InodeBit(d, n);
    Unnamed(d, n);
  }
}
