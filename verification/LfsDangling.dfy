/**
 What a delete does in lfs.py when lookups go through the checkpoint and the checkpoint has an old version of the
 file. It goes by the reference count of the version it reads, so it keeps the tree exactly when that is the count
 in memory. After a link across chunks it is one fewer: the delete of one of two names frees the file.
 */
module LfsDangling {
  import opened Sums
  import opened LfsTree
  import opened LfsLog
  import opened LfsOps
  import opened LfsRun
  import opened LfsStale

  // ---------- Trees that differ in a file ----------

  /** Another file, or none, in place of a file changes no name and no count of names. */
  lemma FileSwap(fs: Fs, n: nat, x: Node, k: int, d: int, name: string)
    requires n < |fs| && !fs[n].Dir? && !x.Dir?
    ensures Entries(fs[n := x], k) == Entries(fs, k) && Edge(fs[n := x], d, name) == Edge(fs, d, name)
  {
    SumUpdate(fs, n, x, Naming(k));
  }

  /** With a file whose count is right in place of another, a consistent tree stays so. */
  lemma SameRefs(fs: Fs, n: nat, x: Node)
    requires FsOk(fs) && n < |fs| && fs[n].File? && x.File? && x.refs == fs[n].refs && FileOk(x)
    ensures FsOk(fs[n := x])
  {
    var fs2 := fs[n := x];
    assert NodeOk(fs, ROOT_INODE);
    forall k: nat | k < |fs2|
      ensures NodeOk(fs2, k)
    {
      assert NodeOk(fs, k);
      FileSwap(fs, n, x, k, 0, "");
      if fs[k].Dir? {
        SameSlots(fs, fs2, fs[k].slots);
      }
    }
  }

  lemma SameSlots(fs: Fs, fs2: Fs, slots: seq<Slot>)
    requires DirOk(fs, slots) && |fs2| == |fs| && forall n :: 0 <= n < |fs| && !fs[n].Free? ==> !fs2[n].Free?
    ensures DirOk(fs2, slots)
  {
    forall i | 0 <= i < |slots|
      ensures SlotOk(fs2, slots[i])
    {
      assert SlotOk(fs, slots[i]);
    }
  }

  /** The delete of a name of a file that is read as x. */
  function DeletedAs(fs: Fs, n: nat, p: nat, i: nat, x: Node): Fs
    requires p < |fs| && n < |fs| && fs[p].Dir? && fs[n].File? && i < |fs[p].slots| && x.File?
  {
    Deleted(fs[n := x], n, p, i)
  }

  lemma DeletedAsIs(fs: Fs, n: nat, p: nat, i: nat, x: Node)
    requires p < |fs| && n < |fs| && fs[p].Dir? && fs[n].File? && i < |fs[p].slots| && x.File?
    ensures DeletedAs(fs, n, p, i, x) == Deleted(fs, n, p, i)[n := DropRef(x)]
    ensures !Deleted(fs, n, p, i)[n].Dir? && !DropRef(x).Dir?
  {
  }

  /** The delete keeps the tree exactly when it reads the right count; whatever it reads, the other names stay. */
  lemma DeletedAsExactly(fs: Fs, n: nat, p: nat, name: string, x: Node)
    requires Deletes(fs, n, p, name) && x.File? && x.refs >= 1 && FileOk(x)
    ensures FsOk(DeletedAs(fs, n, p, First(fs[p].slots, name), x)) <==> x.refs == fs[n].refs
    ensures forall d: int, other: string ::
              Edge(DeletedAs(fs, n, p, First(fs[p].slots, name), x), d, other)
              == if d == p && other == name then -1 else Edge(fs, d, other)
  {
    var i := First(fs[p].slots, name);
    var right, fs2 := Deleted(fs, n, p, i), DeletedAs(fs, n, p, i, x);
    DeletedAsIs(fs, n, p, i, x);
    DeletedOk(fs, n, p, name);
    DeletedEntries(fs, n, p, name, n);
    FileSwap(right, n, DropRef(x), n, 0, "");
    assert NodeOk(fs, n) && NodeOk(right, n);
    if x.refs == fs[n].refs {
      if x.refs == 1 {
        assert fs2 == right;
      } else {
        SameRefs(right, n, DropRef(x));
      }
    } else {
      assert !RefsOk(fs2, n);
      assert !NodeOk(fs2, n);
    }
    forall d: int, other: string
      ensures Edge(fs2, d, other) == if d == p && other == name then -1 else Edge(fs, d, other)
    {
      FileSwap(right, n, DropRef(x), 0, d, other);
      DeletedEdges(fs, n, p, name, d, other);
    }
  }

  // ---------- On the log ----------

  /** A delete that reads an old version does what the delete does from a memory whose inode map has that version. */
  lemma DeleteReadIs(s: Lfs, force: bool, r: int, n: nat, p: nat, i: nat)
    requires Good(s) && p < NUM_INODES && n < NUM_INODES && n != p
    requires IsDirAt(s, p) && InodeOk(s.disk, r) && !s.disk[r].isDir && s.disk[r].refs >= 1
    requires i < SLOTS_PER_BLOCK * s.disk[s.inodeMap[p]].size
    ensures var v := s.(inodeMap := s.inodeMap[n := r]);
            && Good(v) && View(v) == View(s)[n := NodeOf(s.disk, r)] && IsDirAt(v, p) && IsFileAt(v, n)
            && DeleteRead(s, force, r, n, p, i) == DeleteLog(v, force, n, p, i)
  {
    var v := s.(inodeMap := s.inodeMap[n := r]);
    TreeRemap(s.disk, s.inodeMap, n, r);
    var b, f := s.disk[s.inodeMap[p]], s.disk[r];
    var bs := DeleteBlocks(s, b, SetSlot(s.disk, b, i, EMPTY), f);
    var a := if f.refs == 1 then -1 else |s.disk| + 2;
    assert Remap(LogAll(v, bs), n, a) == Remap(LogAll(s, bs), n, a) by {
      assert s.inodeMap[n := r][n := a] == s.inodeMap[n := a];
    }
  }

  /** The delete through the checkpoint, in a directory that is up to date there, of a name of a file with an old
      version leaves a consistent tree exactly when that version has the reference count of the memory's; the other
      names of the tree stay. */
  lemma DeleteThroughDisk(s: Lfs, force: bool, n: nat, p: nat, name: string)
    requires Good(s) && Deletes(View(s), n, p, name) && n != p && IsDirAt(s, p)
    requires DiskTree(s.disk)[n].File? && DiskTree(s.disk)[n].refs >= 1
    ensures InodeOk(s.disk, Address(s, true, n)) && !s.disk[Address(s, true, n)].isDir
    ensures First(View(s)[p].slots, name) < SLOTS_PER_BLOCK * s.disk[s.inodeMap[p]].size
    ensures var t := DeleteRead(s, force, Address(s, true, n), n, p, First(View(s)[p].slots, name));
            && Good(t) && (FsOk(View(t)) <==> DiskTree(s.disk)[n].refs == View(s)[n].refs)
            && (DiskTree(s.disk)[n].refs == 1 ==> View(t)[n].Free?)
            && forall d: int, other: string ::
                 Edge(View(t), d, other) == if d == p && other == name then -1 else Edge(View(s), d, other)
  {
    var r, i := Address(s, true, n), First(View(s)[p].slots, name);
    CrMapOk(s.disk, s.disk[0].entries);
    assert EntryOk(s.disk, r);
    DirAt(s, p);
    DeleteReadIs(s, force, r, n, p, i);
    var v := s.(inodeMap := s.inodeMap[n := r]);
    DeleteEnds(v, force, n, p, i);
    DeletedAsExactly(View(s), n, p, name, NodeOf(s.disk, r));
  }

  // ---------- The run ----------

  /** A link logs the chunk of its directory: a forced checkpoint leads to the directory as the memory has it. */
  lemma ParentIsCurrent(s: Lfs, src: nat, p: nat, ch: Change)
    requires Good(s) && p < NUM_INODES && src < NUM_INODES && IsDirAt(s, p) && IsFileAt(s, src)
             && ch.index < NUM_INODE_PTRS
    requires Good(LinkLog(s, true, src, p, ch)) && src != p
    ensures var t := LinkLog(s, true, src, p, ch); Address(t, true, p) == t.inodeMap[p]
  {
    var bs := LinkBlocks(s, s.disk[s.inodeMap[p]], ch, s.disk[s.inodeMap[src]]);
    var n, c := |s.disk|, p / INODES_PER_CHUNK;
    var s2 := Remap(Remap(LogAll(s, bs), p, n + 1), src, n + 2);
    assert UpdateImap(s2, [p], []) == LogChunk(s2, c) by {
      assert [p][1..] == [];
    }
    var t := LinkLog(s, true, src, p, ch);
    assert t.disk[t.cr[c]] == Imap(ChunkOf(t.inodeMap, c));
    assert ChunkOf(t.inodeMap, c)[p % INODES_PER_CHUNK] == t.inodeMap[p];
  }

  lemma SameAddress(s: Lfs, n: nat)
    requires Good(s) && n < NUM_INODES && Address(s, true, n) == s.inodeMap[n]
    ensures DiskTree(s.disk)[n] == View(s)[n]
  {
    CrMapOk(s.disk, s.disk[0].entries);
  }

  /** The state after the link is that of the linked tree. */
  lemma AfterLink(s: Lfs) returns (t: Lfs)
    requires Inv(s) && Holds(View(s), 16)
    ensures t == Do(s, true, LINK).0 && Good(t)
    ensures Deletes(View(t), 16, ROOT_INODE, "x") && Edge(View(t), ROOT_INODE, Name(16)) == 16
    ensures View(s)[16].File? && View(s)[16].refs == 1
  {
    var fs := View(s);
    LinkDone(s, true);
    LinkFound(fs);
    LinkEnds(s, true, 16, ROOT_INODE, "x");
    t := Do(s, true, LINK).0;
    NotFound(fs, ROOT_INODE, "x");
    NamesDiffer(16, 0);
    assert HoldsAt(fs, 16, 16);
    assert Links(fs, 16, ROOT_INODE, "x");
    LinkedOk(fs, 16, ROOT_INODE, "x");
    LinkedEdges(fs, 16, ROOT_INODE, "x", ROOT_INODE, "x");
    LinkedEdges(fs, 16, ROOT_INODE, "x", ROOT_INODE, Name(16));
    assert View(t) == Linked(fs, 16, ROOT_INODE, "x");
  }

  lemma LinkOnDisk(s: Lfs)
    requires Inv(s) && Holds(View(s), 16) && View(s)[16].File? && View(s)[16].refs == 1
    ensures var t := Do(s, true, LINK).0;
            && Good(t) && Address(t, true, ROOT_INODE) == t.inodeMap[ROOT_INODE]
            && DiskTree(t.disk)[16].File? && DiskTree(t.disk)[16].refs == 1 && View(t)[16].File?
            && View(t)[16].refs == 2
  {
    LinkDone(s, true);
    LinkLeavesStale(s, 16, ROOT_INODE, "x");
    ParentIsCurrent(s, 16, ROOT_INODE, DirEntryFor(s, ROOT_INODE, "x", 16).value);
  }

  /** After the sixteen creates and the link, with forced checkpoints, /x is found through the checkpoint, and its
      delete
      frees the file that its first name still names. */
  lemma DanglingRun() returns (s: Lfs)
    ensures s == After(true, Files(16) + [LINK]) && Good(s) && Address(s, true, ROOT_INODE) == s.inodeMap[ROOT_INODE]
    ensures IsDirAt(s, ROOT_INODE) && Edge(DiskTree(s.disk), ROOT_INODE, "x") == 16
    ensures InodeOk(s.disk, Address(s, true, 16)) && !s.disk[Address(s, true, 16)].isDir
    ensures var i := First(View(s)[ROOT_INODE].slots, "x");
            && 0 <= i < SLOTS_PER_BLOCK * s.disk[s.inodeMap[ROOT_INODE]].size
            && var t := DeleteRead(s, true, Address(s, true, 16), 16, ROOT_INODE, i);
               Good(t) && !FsOk(View(t)) && View(t)[16].Free? && Edge(View(t), ROOT_INODE, Name(16)) == 16
  {
    var s0 := AfterFiles(true);
    s := AfterLink(s0);
    LinkOnDisk(s0);
    SameAddress(s, ROOT_INODE);
    DirAt(s, ROOT_INODE);
    NamesDiffer(16, 0);
    DeleteThroughDisk(s, true, 16, ROOT_INODE, "x");
  }
}
