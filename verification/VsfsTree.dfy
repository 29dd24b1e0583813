/**
 The file system of vsfs.py as its workload drives it: the lists of files and directories and the numbers of
 their inodes, next to the on-disk state of Vsfs.dfy. A full name is the sequence of its parts.
 */
module VsfsTree {
  import opened Vsfs
  import opened Collections
  import Bitmaps
  import opened Sums

  type Path = seq<string>

  /** The disk, the counters of the two bitmaps, the names in use, and the inode number recorded for each. */
  datatype State = State(disk: Disk, iused: int, dused: int, files: seq<Path>, dirs: seq<Path>, names: map<Path, int>)

  function Parent(x: Path): Path
    requires x != []
  {
    x[..|x| - 1]
  }

  function Base(x: Path): string
    requires x != []
  {
    x[|x| - 1]
  }

  // ---------- The invariant ----------

  predicate IsDir(d: Disk, p: int) {
    Live(d, p) && d.inodes[p].ftype == DIR && 0 <= d.inodes[p].addr < |d.data|
  }

  function DirBlock(d: Disk, p: int): Block
    requires IsDir(d, p)
  {
    d.data[d.inodes[p].addr]
  }

  predicate HasEntry(d: Disk, p: int, name: string, n: int) {
    IsDir(d, p) && Entry(name, n) in DirBlock(d, p).dirList
  }

  /** The name's inode is recorded, and its directory has the entry. */
  predicate Tracked(s: State, x: Path) {
    && x in s.names && Live(s.disk, s.names[x])
    && (if x == [] then s.names[x] == ROOT
        else Parent(x) in s.dirs && Parent(x) in s.names && HasEntry(s.disk, s.names[Parent(x)], Base(x), s.names[x]))
  }

  predicate TrackedDir(s: State, x: Path) {
    Tracked(s, x) && s.disk.inodes[s.names[x]].ftype == DIR
  }

  predicate TrackedFile(s: State, x: Path) {
    x != [] && Tracked(s, x) && s.disk.inodes[s.names[x]].ftype == REG
  }

  /** No name twice in a directory. */
  predicate NamesDiffer(b: Block) {
    forall i, j :: 0 <= i < j < |b.dirList| ==> b.dirList[i].name != b.dirList[j].name
  }

  /** Blocks that are no directories hold no entries. */
  predicate Tidy(b: Block) {
    NamesDiffer(b) && (b.ftype != DIR ==> b.dirList == [] && b.dirUsed == 0)
  }

  /** Different directories have different inodes. */
  predicate Apart(s: State, x: Path, y: Path) {
    x in s.names && y in s.names && s.names[x] == s.names[y] ==> x == y
  }

  predicate DiskTidy(d: Disk) {
    && (forall b: nat :: b < |d.data| ==> Tidy(d.data[b]))
    && (forall n: nat :: n < |d.inodes| && d.inodes[n].ftype == FREE ==> d.inodes[n].addr == -1)
  }

  predicate Counted(s: State) {
    s.iused == Bitmaps.Ones(s.disk.ibits) && s.dused == Bitmaps.Ones(s.disk.dbits)
  }

  predicate NamesOk(s: State) {
    && [] in s.dirs && Unique(s.files)
    && (forall x :: x in s.dirs ==> TrackedDir(s, x))
    && (forall x :: x in s.files ==> TrackedFile(s, x))
    && (forall x, y :: x in s.dirs && y in s.dirs ==> Apart(s, x, y))
  }

  predicate Valid(s: State) {
    Consistent(s.disk) && DiskTidy(s.disk) && Counted(s) && NamesOk(s)
  }

  lemma DirKnown(s: State, x: Path)
    requires Valid(s) && x in s.dirs
    ensures x in s.names && IsDir(s.disk, s.names[x]) && DirBlock(s.disk, s.names[x]).ftype == DIR
    ensures DirBlock(s.disk, s.names[x]).dirUsed == |DirBlock(s.disk, s.names[x]).dirList|
  {
    assert TrackedDir(s, x) && InodeOk(s.disk, s.names[x]);
    assert BlockOk(s.disk, s.disk.inodes[s.names[x]].addr);
  }

  // ---------- What keeps names tracked ----------

  /** Directory inodes keep their blocks, and entries stay. */
  predicate KeepsEntry(d: Disk, d2: Disk, p: int, e: Entry) {
    IsDir(d, p) && e in DirBlock(d, p).dirList ==> IsDir(d2, p) && e in DirBlock(d2, p).dirList
  }

  lemma StillTracked(s: State, t: State, x: Path)
    requires Tracked(s, x) && x in t.names && t.names[x] == s.names[x] && Live(t.disk, s.names[x])
    requires x != [] ==> Parent(x) in t.dirs && Parent(x) in t.names && t.names[Parent(x)] == s.names[Parent(x)]
    requires x != [] ==> KeepsEntry(s.disk, t.disk, s.names[Parent(x)], Entry(Base(x), s.names[x]))
    ensures Tracked(t, x)
  {
  }

  predicate Exists(b: Block, name: string) {
    exists k :: 0 <= k < |b.dirList| && b.dirList[k].name == name
  }

  /** A name that is not in the directory is not in use. */
  lemma FreshName(s: State, parent: Path, name: string)
    requires Valid(s) && parent in s.dirs && parent in s.names && IsDir(s.disk, s.names[parent])
    requires !Exists(DirBlock(s.disk, s.names[parent]), name)
    ensures parent + [name] !in s.files && parent + [name] !in s.dirs
  {
    var x := parent + [name];
    assert x != [] && Parent(x) == parent && Base(x) == name;
    assert x in s.files ==> TrackedFile(s, x);
    assert x in s.dirs ==> TrackedDir(s, x);
  }

  // ---------- Create ----------

  /** Everything createFile asks for holds. */
  predicate CanCreate(s: State, parent: Path, name: string, isDir: bool, n: int, b: int) {
    && Valid(s) && parent in s.dirs && parent in s.names && Room(s.disk, s.names[parent])
    && !Exists(s.disk.data[s.disk.inodes[s.names[parent]].addr], name)
    && 0 <= n < |s.disk.ibits| && s.disk.ibits[n] == 0
    && (isDir ==> 0 <= b < |s.disk.dbits| && s.disk.dbits[b] == 0)
  }

  lemma Fresh(d: Disk, n: nat)
    requires Consistent(d) && DiskTidy(d)
    ensures n < |d.ibits| && d.ibits[n] == 0 ==> FreshInode(d, n)
    ensures n < |d.dbits| && d.dbits[n] == 0 ==> FreshBlock(d, n)
  {
    if n < |d.ibits| && d.ibits[n] == 0 {
      assert InodeBit(d, n);
    }
    if n < |d.dbits| && d.dbits[n] == 0 {
      assert BlockBit(d, n) && Tidy(d.data[n]);
    }
  }

  function CreatedDisk(s: State, parent: Path, name: string, isDir: bool, n: nat, b: int): Disk
    requires CanCreate(s, parent, name, isDir, n, b)
  {
    if isDir then NewDir(s.disk, s.names[parent], name, n, b) else NewFile(s.disk, s.names[parent], name, n)
  }

  /** After doCreate: the disk, the counters, and the new full name. */
  function Created(s: State, parent: Path, name: string, isDir: bool, n: nat, b: int): State
    requires CanCreate(s, parent, name, isDir, n, b)
  {
    var x := parent + [name];
    State(CreatedDisk(s, parent, name, isDir, n, b), s.iused + 1, if isDir then s.dused + 1 else s.dused,
          if isDir then s.files else s.files + [x], if isDir then s.dirs + [x] else s.dirs, s.names[x := n])
  }

  lemma CreatedConsistent(s: State, parent: Path, name: string, isDir: bool, n: nat, b: int)
    requires CanCreate(s, parent, name, isDir, n, b)
    ensures Consistent(CreatedDisk(s, parent, name, isDir, n, b))
    ensures Counted(Created(s, parent, name, isDir, n, b))
  {
    Fresh(s.disk, n);
    SumUpdate(s.disk.ibits, n, 1, ID);
    if isDir {
      Fresh(s.disk, b);
      SumUpdate(s.disk.dbits, b, 1, ID);
      NewDirOk(s.disk, s.names[parent], name, n, b);
    } else {
      NewFileOk(s.disk, s.names[parent], name, n);
    }
  }

  lemma WithEntryTidy(b: Block, name: string, n: int)
    requires Tidy(b) && !Exists(b, name) && b.ftype == DIR
    ensures Tidy(WithEntry(b, name, n))
  {
  }

  lemma NewDirTidy(b: Block, p: nat, n: nat)
    requires b.dirList == []
    ensures Tidy(NewDirBlock(b, p, n))
  {
    var l := NewDirBlock(b, p, n).dirList;
    assert l == [Entry(".", n), Entry("..", p)];
    assert |l[0].name| != |l[1].name|;
  }

  lemma CreatedTidy(s: State, parent: Path, name: string, isDir: bool, n: nat, b: int)
    requires CanCreate(s, parent, name, isDir, n, b)
    ensures DiskTidy(CreatedDisk(s, parent, name, isDir, n, b))
  {
    var d, d2 := s.disk, CreatedDisk(s, parent, name, isDir, n, b);
    var pb := d.inodes[s.names[parent]].addr;
    Fresh(d, n);
    if isDir {
      Fresh(d, b);
      NewDirTidy(d.data[b], s.names[parent], n);
    }
    assert Tidy(d.data[pb]);
    WithEntryTidy(d.data[pb], name, n);
    forall c: nat | c < |d2.data|
      ensures Tidy(d2.data[c])
    {
      assert Tidy(d.data[c]);
    }
  }

  lemma CreatedEntry(s: State, parent: Path, name: string, isDir: bool, n: nat, b: int, p: int, e: Entry)
    requires CanCreate(s, parent, name, isDir, n, b)
    ensures KeepsEntry(s.disk, CreatedDisk(s, parent, name, isDir, n, b), p, e)
    ensures Live(s.disk, p) ==> p != n && Live(CreatedDisk(s, parent, name, isDir, n, b), p)
                                && CreatedDisk(s, parent, name, isDir, n, b).inodes[p].ftype == s.disk.inodes[p].ftype
  {
    Fresh(s.disk, n);
    if isDir {
      Fresh(s.disk, b);
    }
    if IsDir(s.disk, p) {
      assert InodeOk(s.disk, p);
    }
  }

  lemma CreatedTracked(s: State, parent: Path, name: string, isDir: bool, n: nat, b: int, x: Path)
    requires CanCreate(s, parent, name, isDir, n, b) && x != parent + [name] && Tracked(s, x)
             && (x != [] ==> Parent(x) in s.dirs)
    ensures Tracked(Created(s, parent, name, isDir, n, b), x)
  {
    var t := Created(s, parent, name, isDir, n, b);
    FreshName(s, parent, name);
    CreatedEntry(s, parent, name, isDir, n, b, s.names[x], Entry("", 0));
    if x != [] {
      CreatedEntry(s, parent, name, isDir, n, b, s.names[Parent(x)], Entry(Base(x), s.names[x]));
    }
    StillTracked(s, t, x);
  }

  lemma NewTracked(s: State, parent: Path, name: string, isDir: bool, n: nat, b: int)
    requires CanCreate(s, parent, name, isDir, n, b)
    ensures var t := Created(s, parent, name, isDir, n, b);
            Tracked(t, parent + [name]) && t.disk.inodes[n].ftype == (if isDir then DIR else REG)
  {
    var t, x := Created(s, parent, name, isDir, n, b), parent + [name];
    Fresh(s.disk, n);
    DirKnown(s, parent);
    if isDir {
      Fresh(s.disk, b);
    }
    assert Parent(x) == parent && Base(x) == name && parent != x;
    var e := Entry(name, n);
    var l := DirBlock(t.disk, s.names[parent]).dirList;
    assert l[|l| - 1] == e;
  }

  lemma CreatedNames(s: State, parent: Path, name: string, isDir: bool, n: nat, b: int)
    requires CanCreate(s, parent, name, isDir, n, b)
    ensures NamesOk(Created(s, parent, name, isDir, n, b))
  {
    var t, added := Created(s, parent, name, isDir, n, b), parent + [name];
    FreshName(s, parent, name);
    NewTracked(s, parent, name, isDir, n, b);
    forall x | x in t.dirs
      ensures TrackedDir(t, x)
    {
      if x != added {
        assert TrackedDir(s, x);
        CreatedTracked(s, parent, name, isDir, n, b, x);
        CreatedEntry(s, parent, name, isDir, n, b, s.names[x], Entry("", 0));
      }
    }
    forall x | x in t.files
      ensures TrackedFile(t, x)
    {
      if x != added {
        assert TrackedFile(s, x);
        CreatedTracked(s, parent, name, isDir, n, b, x);
        CreatedEntry(s, parent, name, isDir, n, b, s.names[x], Entry("", 0));
      }
    }
    forall x, y | x in t.dirs && y in t.dirs
      ensures Apart(t, x, y)
    {
      CreatedApart(s, parent, name, isDir, n, b, x, y);
    }
  }

  lemma CreatedApart(s: State, parent: Path, name: string, isDir: bool, n: nat, b: int, x: Path, y: Path)
    requires CanCreate(s, parent, name, isDir, n, b)
    requires x in Created(s, parent, name, isDir, n, b).dirs && y in Created(s, parent, name, isDir, n, b).dirs
    ensures Apart(Created(s, parent, name, isDir, n, b), x, y)
  {
    var added := parent + [name];
    Fresh(s.disk, n);
    if x != added {
      assert TrackedDir(s, x);
    }
    if y != added {
      assert TrackedDir(s, y);
    }
    if x != added && y != added {
      assert Apart(s, x, y);
    }
  }

  /** A create keeps everything: the disk consistent, and every name leading to its inode. */
  lemma CreatedValid(s: State, parent: Path, name: string, isDir: bool, n: nat, b: int)
    requires CanCreate(s, parent, name, isDir, n, b)
    ensures Valid(Created(s, parent, name, isDir, n, b))
  {
    CreatedConsistent(s, parent, name, isDir, n, b);
    CreatedTidy(s, parent, name, isDir, n, b);
    CreatedNames(s, parent, name, isDir, n, b);
  }

  // ---------- Link ----------

  predicate CanLink(s: State, target: Path, parent: Path, name: string) {
    && Valid(s) && parent in s.dirs && target in s.files && parent in s.names && target in s.names
    && Room(s.disk, s.names[parent])
    && !Exists(s.disk.data[s.disk.inodes[s.names[parent]].addr], name)
  }

  function Linked(s: State, target: Path, parent: Path, name: string): State
    requires CanLink(s, target, parent, name)
  {
    assert TrackedFile(s, target);
    s.(disk := NewLink(s.disk, s.names[parent], name, s.names[target]), files := s.files + [parent + [name]],
       names := s.names[parent + [name] := s.names[target]])
  }

  lemma LinkedEntry(s: State, target: Path, parent: Path, name: string, p: int, e: Entry)
    requires CanLink(s, target, parent, name)
    ensures KeepsEntry(s.disk, Linked(s, target, parent, name).disk, p, e)
    ensures Live(s.disk, p) ==> Live(Linked(s, target, parent, name).disk, p)
                                && Linked(s, target, parent, name).disk.inodes[p].ftype == s.disk.inodes[p].ftype
  {
    assert TrackedFile(s, target);
    if IsDir(s.disk, p) {
      assert InodeOk(s.disk, p);
    }
  }

  lemma LinkedTracked(s: State, target: Path, parent: Path, name: string, x: Path)
    requires CanLink(s, target, parent, name) && x != parent + [name] && Tracked(s, x)
             && (x != [] ==> Parent(x) in s.dirs)
    ensures Tracked(Linked(s, target, parent, name), x)
  {
    FreshName(s, parent, name);
    LinkedEntry(s, target, parent, name, s.names[x], Entry("", 0));
    if x != [] {
      LinkedEntry(s, target, parent, name, s.names[Parent(x)], Entry(Base(x), s.names[x]));
    }
    StillTracked(s, Linked(s, target, parent, name), x);
  }

  lemma LinkTracked(s: State, target: Path, parent: Path, name: string)
    requires CanLink(s, target, parent, name)
    ensures TrackedFile(Linked(s, target, parent, name), parent + [name])
  {
    var t, x := Linked(s, target, parent, name), parent + [name];
    assert TrackedFile(s, target);
    DirKnown(s, parent);
    assert Parent(x) == parent && Base(x) == name && parent != x;
    var l := DirBlock(t.disk, s.names[parent]).dirList;
    assert l[|l| - 1] == Entry(name, s.names[target]);
  }

  lemma LinkedNames(s: State, target: Path, parent: Path, name: string)
    requires CanLink(s, target, parent, name)
    ensures NamesOk(Linked(s, target, parent, name))
  {
    var t, added := Linked(s, target, parent, name), parent + [name];
    FreshName(s, parent, name);
    LinkTracked(s, target, parent, name);
    forall x | x in t.dirs
      ensures TrackedDir(t, x)
    {
      assert TrackedDir(s, x);
      LinkedTracked(s, target, parent, name, x);
      LinkedEntry(s, target, parent, name, s.names[x], Entry("", 0));
    }
    forall x | x in t.files
      ensures TrackedFile(t, x)
    {
      if x != added {
        assert TrackedFile(s, x);
        LinkedTracked(s, target, parent, name, x);
        LinkedEntry(s, target, parent, name, s.names[x], Entry("", 0));
      }
    }
    forall x, y | x in t.dirs && y in t.dirs
      ensures Apart(t, x, y)
    {
      assert Apart(s, x, y);
    }
  }

  lemma LinkedValid(s: State, target: Path, parent: Path, name: string)
    requires CanLink(s, target, parent, name)
    ensures Valid(Linked(s, target, parent, name))
  {
    var d, d2 := s.disk, Linked(s, target, parent, name).disk;
    assert TrackedFile(s, target);
    NewLinkOk(d, s.names[parent], name, s.names[target]);
    LinkedNames(s, target, parent, name);
    var pb := d.inodes[s.names[parent]].addr;
    assert Tidy(d.data[pb]);
    WithEntryTidy(d.data[pb], name, s.names[target]);
    forall c: nat | c < |d2.data|
      ensures Tidy(d2.data[c])
    {
      assert Tidy(d.data[c]);
    }
  }

  // ---------- Write ----------

  predicate CanWrite(s: State, x: Path, b: int) {
    && Valid(s) && x in s.files && x in s.names && Live(s.disk, s.names[x]) && s.disk.inodes[s.names[x]].addr == -1
    && 0 <= b < |s.disk.dbits| && s.disk.dbits[b] == 0
  }

  function WrittenTo(s: State, x: Path, b: int, text: string): State
    requires CanWrite(s, x, b)
  {
    s.(disk := NewData(s.disk, s.names[x], b, text), dused := s.dused + 1)
  }

  lemma WrittenEntry(s: State, x: Path, b: int, text: string, p: int, e: Entry)
    requires CanWrite(s, x, b)
    ensures KeepsEntry(s.disk, WrittenTo(s, x, b, text).disk, p, e)
    ensures Live(s.disk, p) ==> Live(WrittenTo(s, x, b, text).disk, p)
                                && WrittenTo(s, x, b, text).disk.inodes[p].ftype == s.disk.inodes[p].ftype
  {
    assert TrackedFile(s, x);
    Fresh(s.disk, b);
    if IsDir(s.disk, p) {
      assert InodeOk(s.disk, p);
    }
  }

  lemma WrittenTracked(s: State, x: Path, b: int, text: string, y: Path)
    requires CanWrite(s, x, b) && Tracked(s, y)
    ensures Tracked(WrittenTo(s, x, b, text), y)
    ensures WrittenTo(s, x, b, text).disk.inodes[s.names[y]].ftype == s.disk.inodes[s.names[y]].ftype
  {
    WrittenEntry(s, x, b, text, s.names[y], Entry("", 0));
    if y != [] {
      WrittenEntry(s, x, b, text, s.names[Parent(y)], Entry(Base(y), s.names[y]));
    }
    StillTracked(s, WrittenTo(s, x, b, text), y);
  }

  lemma WrittenValid(s: State, x: Path, b: int, text: string)
    requires CanWrite(s, x, b)
    ensures Valid(WrittenTo(s, x, b, text))
  {
    var t := WrittenTo(s, x, b, text);
    assert TrackedFile(s, x);
    Fresh(s.disk, b);
    NewDataOk(s.disk, s.names[x], b, text);
    SumUpdate(s.disk.dbits, b, 1, ID);
    forall c: nat | c < |t.disk.data|
      ensures Tidy(t.disk.data[c])
    {
      assert Tidy(s.disk.data[c]);
    }
    forall y | y in t.dirs
      ensures TrackedDir(t, y)
    {
      assert TrackedDir(s, y);
      WrittenTracked(s, x, b, text, y);
    }
    forall y | y in t.files
      ensures TrackedFile(t, y)
    {
      assert TrackedFile(s, y);
      WrittenTracked(s, x, b, text, y);
    }
    forall y, z | y in t.dirs && z in t.dirs
      ensures Apart(t, y, z)
    {
      assert Apart(s, y, z);
    }
  }

  // ---------- Delete ----------

  /** The index of the entry that deleteFile removes. */
  predicate EntryAt(s: State, x: Path, k: int) {
    && x != [] && x in s.names && Parent(x) in s.names && IsDir(s.disk, s.names[Parent(x)])
    && 0 <= k < |DirBlock(s.disk, s.names[Parent(x)]).dirList|
    && DirBlock(s.disk, s.names[Parent(x)]).dirList[k] == Entry(Base(x), s.names[x])
  }

  /** Names differ, so the first entry with the name is the file's. */
  lemma FirstEntry(s: State, x: Path, k: nat)
    requires Valid(s) && x in s.files
    ensures x != [] && Parent(x) in s.names && IsDir(s.disk, s.names[Parent(x)])
    ensures Exists(DirBlock(s.disk, s.names[Parent(x)]), Base(x))
    ensures k < |DirBlock(s.disk, s.names[Parent(x)]).dirList|
            && DirBlock(s.disk, s.names[Parent(x)]).dirList[k].name == Base(x) ==>
              EntryAt(s, x, k)
  {
    assert TrackedFile(s, x);
    var b := s.disk.inodes[s.names[Parent(x)]].addr;
    assert Tidy(s.disk.data[b]);
    var j :| 0 <= j < |s.disk.data[b].dirList| && s.disk.data[b].dirList[j] == Entry(Base(x), s.names[x]);
  }

  predicate CanDelete(s: State, x: Path, k: int) {
    Valid(s) && x in s.files && EntryAt(s, x, k)
  }

  lemma DeletesName(s: State, x: Path, k: int)
    requires CanDelete(s, x, k)
    ensures s.disk.inodes[s.names[Parent(x)]].addr >= 0 && k >= 0 && s.names[x] >= 0
    ensures Names(s.disk, s.disk.inodes[s.names[Parent(x)]].addr, k, s.names[x])
  {
    assert TrackedFile(s, x) && InodeOk(s.disk, s.names[Parent(x)]);
  }

  function Without(s: State, x: Path, k: int): State
    requires CanDelete(s, x, k)
  {
    DeletesName(s, x, k);
    var n := s.names[x];
    var gone := s.disk.inodes[n].refCnt == 1;
    State(Deleted(s.disk, s.disk.inodes[s.names[Parent(x)]].addr, k, n),
          if gone then s.iused - 1 else s.iused,
          if gone && s.disk.inodes[n].addr != -1 then s.dused - 1 else s.dused,
          Remove(s.files, x), s.dirs, s.names)
  }

  lemma StaysIn(l: seq<Entry>, k: nat, e: Entry)
    requires k < |l| && e in l && l[k] != e
    ensures e in l[..k] + l[k + 1..]
  {
    var j :| 0 <= j < |l| && l[j] == e;
    assert (l[..k] + l[k + 1..])[if j < k then j else j - 1] == e;
  }

  /** What a delete does to a directory's inode and block. */
  lemma WithoutDir(s: State, x: Path, k: int, p: nat)
    requires CanDelete(s, x, k) && IsDir(s.disk, p)
    ensures IsDir(Without(s, x, k).disk, p)
    ensures DirBlock(Without(s, x, k).disk, p)
         == if p == s.names[Parent(x)] then WithoutEntry(DirBlock(s.disk, p), k) else DirBlock(s.disk, p)
  {
    DeletesName(s, x, k);
    var d, n, q := s.disk, s.names[x], s.names[Parent(x)];
    var pb := d.inodes[q].addr;
    assert InodeOk(d, n) && InodeOk(d, p) && OneOwner(d, pb);
    assert Owns(d, q, pb) && (d.inodes[p].addr == pb ==> Owns(d, p, pb));
  }

  /** Other entries stay. */
  lemma WithoutKeepsEntry(s: State, x: Path, k: int, p: int, e: Entry)
    requires CanDelete(s, x, k) && (p == s.names[Parent(x)] ==> e.name != Base(x))
    ensures KeepsEntry(s.disk, Without(s, x, k).disk, p, e)
  {
    if IsDir(s.disk, p) && e in DirBlock(s.disk, p).dirList {
      WithoutDir(s, x, k, p);
      if p == s.names[Parent(x)] {
        StaysIn(DirBlock(s.disk, p).dirList, k, e);
      }
    }
  }

  lemma WithoutLive(s: State, x: Path, k: int, p: int)
    requires CanDelete(s, x, k) && Live(s.disk, p) && p != s.names[x]
    ensures Live(Without(s, x, k).disk, p) && Without(s, x, k).disk.inodes[p].ftype == s.disk.inodes[p].ftype
  {
    DeletesName(s, x, k);
  }

  /** Two names in one directory differ in their last part. */
  lemma BasesDiffer(s: State, x: Path, y: Path)
    requires x != [] && y != [] && x != y && Parent(x) in s.names && Parent(y) in s.names
             && Apart(s, Parent(x), Parent(y))
    ensures s.names[Parent(x)] == s.names[Parent(y)] ==> Base(x) != Base(y)
  {
    assert y == Parent(y) + [Base(y)] && x == Parent(x) + [Base(x)];
  }

  /** A name besides the deleted one stays, and so does its inode. */
  lemma WithoutTracked(s: State, x: Path, k: int, y: Path)
    requires CanDelete(s, x, k) && Tracked(s, y) && y != x && (y != [] ==> Parent(y) in s.dirs)
    ensures Tracked(Without(s, x, k), y)
    ensures Without(s, x, k).disk.inodes[s.names[y]].ftype == s.disk.inodes[s.names[y]].ftype
  {
    var t := Without(s, x, k);
    assert TrackedFile(s, x);
    if y == [] {
      assert TrackedDir(s, []);
      WithoutLive(s, x, k, ROOT);
    } else {
      assert Apart(s, Parent(x), Parent(y));
      BasesDiffer(s, x, y);
      WithoutKeepsEntry(s, x, k, s.names[Parent(y)], Entry(Base(y), s.names[y]));
      InodeStays(s, x, k, y);
    }
    StillTracked(s, t, y);
  }

  /** A second name is a second entry, so the inode is not freed. */
  lemma InodeStays(s: State, x: Path, k: int, y: Path)
    requires CanDelete(s, x, k) && Tracked(s, y) && y != [] && TrackedFile(s, x)
    requires HasEntry(Without(s, x, k).disk, s.names[Parent(y)], Base(y), s.names[y])
    ensures Live(Without(s, x, k).disk, s.names[y])
    ensures Without(s, x, k).disk.inodes[s.names[y]].ftype == s.disk.inodes[s.names[y]].ftype
  {
    DeletesName(s, x, k);
    var d, d2, n, pb := s.disk, Without(s, x, k).disk, s.names[x], s.disk.inodes[s.names[Parent(x)]].addr;
    DeletedOk(d, pb, k, n);
    assert InodeOk(d, n) && InodeOk(d, s.names[y]);
    if s.names[y] == n {
      DeletedCount(d, pb, k, n, n);
      var p := s.names[Parent(y)];
      assert InodeOk(d2, p);
      var l := DirBlock(d2, p).dirList;
      var j :| 0 <= j < |l| && l[j] == Entry(Base(y), n);
      EntriesAtLeast(d2.data, d2.inodes[p].addr, j, n);
    }
  }

  lemma WithoutCounted(s: State, x: Path, k: int)
    requires CanDelete(s, x, k)
    ensures Counted(Without(s, x, k))
  {
    DeletesName(s, x, k);
    var d, n := s.disk, s.names[x];
    assert InodeOk(d, n) && InodeBit(d, n);
    SumUpdate(d.ibits, n, 0, ID);
    if d.inodes[n].addr != -1 {
      assert BlockBit(d, d.inodes[n].addr);
      SumUpdate(d.dbits, d.inodes[n].addr, 0, ID);
    }
  }

  lemma WithoutTidy(s: State, x: Path, k: int)
    requires CanDelete(s, x, k)
    ensures DiskTidy(Without(s, x, k).disk)
  {
    DeletesName(s, x, k);
    var d, d2, n, pb := s.disk, Without(s, x, k).disk, s.names[x], s.disk.inodes[s.names[Parent(x)]].addr;
    assert InodeOk(d, n);
    forall c: nat | c < |d2.data|
      ensures Tidy(d2.data[c])
    {
      assert Tidy(d.data[c]);
      if c == pb {
        TidyWithout(d.data[pb], k);
      }
    }
  }

  lemma TidyWithout(b: Block, k: nat)
    requires Tidy(b) && b.ftype == DIR && k < |b.dirList|
    ensures Tidy(WithoutEntry(b, k))
  {
    var l, m := b.dirList, WithoutEntry(b, k).dirList;
    forall i, j | 0 <= i < j < |m|
      ensures m[i].name != m[j].name
    {
      var i2, j2 := if i < k then i else i + 1, if j < k then j else j + 1;
      assert m[i] == l[i2] && m[j] == l[j2];
    }
  }

  /** A delete keeps everything: other names, hard links included, lead where they led. */
  lemma WithoutValid(s: State, x: Path, k: int)
    requires CanDelete(s, x, k)
    ensures Valid(Without(s, x, k))
  {
    var t := Without(s, x, k);
    DeletesName(s, x, k);
    DeletedOk(s.disk, s.disk.inodes[s.names[Parent(x)]].addr, k, s.names[x]);
    WithoutCounted(s, x, k);
    WithoutTidy(s, x, k);
    RemoveUnique(s.files, x);
    assert TrackedFile(s, x);
    forall y | y in t.dirs
      ensures TrackedDir(t, y)
    {
      assert TrackedDir(s, y);
      WithoutTracked(s, x, k, y);
    }
    forall y | y in t.files
      ensures TrackedFile(t, y)
    {
      assert TrackedFile(s, y);
      WithoutTracked(s, x, k, y);
    }
    forall y, z | y in t.dirs && z in t.dirs
      ensures Apart(t, y, z)
    {
      assert Apart(s, y, z);
    }
  }

  // ---------- The start ----------

  function Zeros(n: nat): (r: seq<int>)
    ensures |r| == n && forall i :: 0 <= i < n ==> r[i] == 0
  {
    seq(n, _ => 0)
  }

  function FreeInodes(n: nat): (r: seq<Inode>)
    ensures |r| == n && forall i :: 0 <= i < n ==> r[i] == Inode(FREE, -1, 1)
  {
    seq(n, _ => Inode(FREE, -1, 1))
  }

  function FreeBlocks(n: nat): (r: seq<Block>)
    ensures |r| == n && forall i :: 0 <= i < n ==> r[i] == Block(FREE, 0, [], "")
  {
    seq(n, _ => Block(FREE, 0, [], ""))
  }

  /** The root directory in inode 0 and block 0. */
  function Start(numInodes: nat, numData: nat): State
    requires numInodes > 0 && numData > 0
  {
    State(Disk(Zeros(numInodes)[0 := 1], FreeInodes(numInodes)[0 := Inode(DIR, 0, 2)],
               Zeros(numData)[0 := 1], FreeBlocks(numData)[0 := NewDirBlock(FreeBlocks(numData)[0], ROOT, ROOT)]),
          1, 1, [], [[]], map[[] := ROOT])
  }

  lemma {:induction false} NoNames(data: seq<Block>, n: int)
    requires forall b :: 0 <= b < |data| ==> data[b].ftype != DIR
    ensures Entries(data, n) == 0
  {
    if data != [] {
      NoNames(data[1..], n);
    }
  }

  lemma StartConsistent(numInodes: nat, numData: nat)
    requires numInodes > 0 && numData > 0
    ensures Consistent(Start(numInodes, numData).disk)
  {
    var d := Start(numInodes, numData).disk;
    forall m: nat | m < |d.inodes|
      ensures InodeBit(d, m) && InodeOk(d, m)
    {
      NoNames(FreeBlocks(numData), m);
      NewDirCount(FreeBlocks(numData), 0, ROOT, ROOT, m);
    }
    forall c: nat | c < |d.data|
      ensures BlockBit(d, c) && BlockOk(d, c) && OneOwner(d, c)
    {
      if c == 0 {
        assert Owns(d, 0, 0);
        forall k: nat | k < |d.data[0].dirList|
          ensures EntryOk(d, 0, k)
        {
        }
      }
    }
  }

  lemma StartValid(numInodes: nat, numData: nat)
    requires numInodes > 0 && numData > 0
    ensures Valid(Start(numInodes, numData))
  {
    var s := Start(numInodes, numData);
    StartConsistent(numInodes, numData);
    SumZero(Zeros(numInodes), ID);
    SumZero(Zeros(numData), ID);
    SumUpdate(Zeros(numInodes), 0, 1, ID);
    SumUpdate(Zeros(numData), 0, 1, ID);
    NewDirTidy(FreeBlocks(numData)[0], ROOT, ROOT);
    assert TrackedDir(s, []);
  }
}
