/**
 The operations of lfs.py on the log: what they append, and that memory then stands for the changed tree
 of LfsTree.dfy. A forced checkpoint puts the same tree on disk; without one the tree on disk stays.
 */
module LfsOps {
  import opened LfsTree
  import opened LfsLog

  /** A directory block to be logged, its place among the directory's blocks, and their number then. */
  datatype Change = Change(index: nat, size: nat, slots: seq<Slot>)

  predicate DirInode(d: seq<Block>, b: Block) {
    InodeBlockOk(d, b) && b.isDir
  }

  function Slots(d: seq<Block>, b: Block): seq<Slot>
    requires DirInode(d, b)
  {
    DirSlots(d, b.pointers, b.size)
  }

  /** The i-th slot of a directory set to x. */
  function SetSlot(d: seq<Block>, b: Block, i: nat, x: Slot): Change
    requires DirInode(d, b) && i < SLOTS_PER_BLOCK * b.size
  {
    assert DirPtr(d, b.pointers[i / SLOTS_PER_BLOCK]);
    Change(i / SLOTS_PER_BLOCK, b.size, d[b.pointers[i / SLOTS_PER_BLOCK]].slots[i % SLOTS_PER_BLOCK := x])
  }

  function AddDirEntry(d: seq<Block>, b: Block, name: string, m: int): Option<Change>
    requires DirInode(d, b)
  {
    var i := First(Slots(d, b), "-");
    if i != -1 then Some(SetSlot(d, b, i, Slot(name, m)))
    else if b.size != NUM_INODE_PTRS then Some(Change(b.size, b.size + 1, [Slot(name, m)] + EMPTIES))
    else None
  }

  /** The directory's inode with the change logged at address a. */
  function ChangedInode(b: Block, ch: Change, a: int, refs: int): Block
    requires b.Inode? && ch.index < |b.pointers|
  {
    Inode(true, ch.size, refs, b.pointers[ch.index := a])
  }

  // ---------- Directory blocks and slots ----------

  lemma {:induction false} DirSlotsPtrs(d: seq<Block>, ptrs: seq<int>, ptrs2: seq<int>, k: nat)
    requires k <= |ptrs| == |ptrs2| && (forall j :: 0 <= j < k ==> DirPtr(d, ptrs[j]) && ptrs2[j] == ptrs[j])
    ensures DirSlots(d, ptrs2, k) == DirSlots(d, ptrs, k)
  {
    if k > 0 {
      assert DirPtr(d, ptrs[k - 1]);
      DirSlotsPtrs(d, ptrs, ptrs2, k - 1);
    }
  }

  lemma SetInBoth<T>(s: seq<T>, t: seq<T>, i: nat, x: T)
    requires i < |s| + |t|
    ensures (s + t)[i := x] == if i < |s| then s[i := x] + t else s + t[i - |s| := x]
  {
  }

  lemma {:induction false} DirSlotsSet(d: seq<Block>, ptrs: seq<int>, ptrs2: seq<int>, i: nat, a: int, k: nat, x: Slot)
    requires k <= |ptrs| && i < SLOTS_PER_BLOCK * k && (forall j :: 0 <= j < k ==> DirPtr(d, ptrs[j]))
    requires ptrs2 == ptrs[i / SLOTS_PER_BLOCK := a] && DirPtr(d, a) && DirPtr(d, ptrs[i / SLOTS_PER_BLOCK])
    requires d[a].slots == d[ptrs[i / SLOTS_PER_BLOCK]].slots[i % SLOTS_PER_BLOCK := x]
    ensures forall j :: 0 <= j < k ==> DirPtr(d, ptrs2[j])
    ensures DirSlots(d, ptrs2, k) == DirSlots(d, ptrs, k)[i := x]
  {
    assert DirPtr(d, ptrs[k - 1]);
    SetInBoth(DirSlots(d, ptrs, k - 1), d[ptrs[k - 1]].slots, i, x);
    if i / SLOTS_PER_BLOCK == k - 1 {
      DirSlotsPtrs(d, ptrs, ptrs2, k - 1);
    } else {
      DirSlotsSet(d, ptrs, ptrs2, i, a, k - 1, x);
    }
  }

  /** What a change makes of the slots. */
  ghost predicate Makes(d: seq<Block>, b: Block, ch: Change, slots: seq<Slot>)
    requires DirInode(d, b)
  {
    && |ch.slots| == SLOTS_PER_BLOCK
    && ((ch.index == b.size < NUM_INODE_PTRS && ch.size == b.size + 1 && slots == Slots(d, b) + ch.slots)
        || exists i: nat, x: Slot :: Sets(d, b, ch, slots, i, x))
  }

  predicate Sets(d: seq<Block>, b: Block, ch: Change, slots: seq<Slot>, i: nat, x: Slot)
    requires DirInode(d, b)
  {
    i < SLOTS_PER_BLOCK * b.size && ch == SetSlot(d, b, i, x) && slots == Slots(d, b)[i := x]
  }

  lemma SetMakes(d: seq<Block>, b: Block, i: nat, x: Slot)
    requires DirInode(d, b) && i < SLOTS_PER_BLOCK * b.size
    ensures Makes(d, b, SetSlot(d, b, i, x), Slots(d, b)[i := x])
  {
    assert DirPtr(d, b.pointers[i / SLOTS_PER_BLOCK]);
    assert Sets(d, b, SetSlot(d, b, i, x), Slots(d, b)[i := x], i, x);
  }

  /** Adding an entry to the blocks is adding it to the slots. */
  lemma AddMakes(d: seq<Block>, b: Block, name: string, m: int)
    requires DirInode(d, b)
    ensures AddDirEntry(d, b, name, m).Some? <==> AddEntry(Slots(d, b), name, m).Some?
    ensures AddDirEntry(d, b, name, m).Some? ==>
              Makes(d, b, AddDirEntry(d, b, name, m).value, AddEntry(Slots(d, b), name, m).value)
  {
    var i := First(Slots(d, b), "-");
    if i != -1 {
      SetMakes(d, b, i, Slot(name, m));
    }
  }

  lemma MakesIndex(d: seq<Block>, b: Block, ch: Change, slots: seq<Slot>)
    requires DirInode(d, b) && Makes(d, b, ch, slots)
    ensures ch.index < NUM_INODE_PTRS && |ch.slots| == SLOTS_PER_BLOCK && ch.index < ch.size <= NUM_INODE_PTRS
  {
  }

  /** With the change logged, the new inode stands for the directory with the new slots. */
  lemma ChangedNode(d: seq<Block>, b: Block, ch: Change, slots: seq<Slot>, a: int, refs: int)
    requires DirInode(d, b) && Makes(d, b, ch, slots) && DirPtr(d, a) && d[a].slots == ch.slots
    ensures ch.index < NUM_INODE_PTRS && InodeBlockOk(d, ChangedInode(b, ch, a, refs))
    ensures NodeOfBlock(d, ChangedInode(b, ch, a, refs)) == Dir(refs, slots)
  {
    var ptrs := b.pointers[ch.index := a];
    if i: nat, x: Slot :| Sets(d, b, ch, slots, i, x) {
      assert DirPtr(d, b.pointers[i / SLOTS_PER_BLOCK]);
      DirSlotsSet(d, b.pointers, ptrs, i, a, b.size, x);
    } else {
      DirSlotsPtrs(d, b.pointers, ptrs, b.size);
    }
  }

  /** The same after more was logged. */
  lemma MakesGrown(d: seq<Block>, d2: seq<Block>, b: Block, ch: Change, slots: seq<Slot>)
    requires DirInode(d, b) && Makes(d, b, ch, slots) && Grows(d, d2)
    ensures DirInode(d2, b) && Makes(d2, b, ch, slots)
  {
    BlockFrame(d, d2, b);
    DirSlotsFrame(d, d2, b.pointers, b.size);
    if i: nat, x: Slot :| Sets(d, b, ch, slots, i, x) {
      var p := b.pointers[i / SLOTS_PER_BLOCK];
      assert DirPtr(d, p) && Same(d, d2, p);
      assert Sets(d2, b, ch, slots, i, x);
    }
  }

  lemma InodePointsBelow(d: seq<Block>, b: Block, a: nat)
    requires InodeBlockOk(d, b) && |d| <= a
    ensures PointsBelow(b, a)
  {
    forall k | 0 <= k < |b.pointers|
      ensures PtrBelow(b.pointers[k], a)
    {
      if b.isDir {
        if k < b.size {
          assert DirPtr(d, b.pointers[k]);
        }
      } else {
        assert DataPtr(d, b.pointers[k]);
      }
    }
  }

  // ---------- The end of every operation ----------

  /** Two inodes remapped, their chunks logged, the checkpoint written if forced. */
  function Commit(s: Lfs, n1: nat, a1: int, n2: nat, a2: int, inums: seq<nat>, force: bool): Lfs
    requires |s.inodeMap| == NUM_INODES && |s.cr| == NUM_CHUNKS && n1 < NUM_INODES && n2 < NUM_INODES
    requires forall k :: 0 <= k < |inums| ==> inums[k] < NUM_INODES
    requires s.disk != []
  {
    var t := UpdateImap(Remap(Remap(s, n1, a1), n2, a2), inums, []);
    assert t.disk != [] by { UpdateImapGrows(Remap(Remap(s, n1, a1), n2, a2), inums, []); }
    MaybeSync(t, force)
  }

  /** The mark of a new inode does not outlast the commit. */
  lemma CommitMark(s: Lfs, n1: nat, a1: int, n2: nat, a2: int, mark: int, inums: seq<nat>, force: bool)
    requires |s.inodeMap| == NUM_INODES && |s.cr| == NUM_CHUNKS && n1 < NUM_INODES && n2 < NUM_INODES
    requires forall k :: 0 <= k < |inums| ==> inums[k] < NUM_INODES
    requires s.disk != []
    ensures Commit(Remap(s, n2, mark), n1, a1, n2, a2, inums, force) == Commit(s, n1, a1, n2, a2, inums, force)
  {
    assert s.inodeMap[n2 := mark][n1 := a1][n2 := a2] == s.inodeMap[n1 := a1][n2 := a2];
  }

  lemma {:induction false} UpdateImapGrows(s: Lfs, inums: seq<nat>, chunks: seq<nat>)
    requires |s.inodeMap| == NUM_INODES && |s.cr| == NUM_CHUNKS
    requires forall k :: 0 <= k < |inums| ==> inums[k] < NUM_INODES
    ensures |s.disk| <= |UpdateImap(s, inums, chunks).disk|
    decreases |inums|
  {
    if inums != [] {
      var c := inums[0] / INODES_PER_CHUNK;
      if c in chunks {
        UpdateImapGrows(s, inums[1..], chunks);
      } else {
        UpdateImapGrows(LogChunk(s, c), inums[1..], chunks + [c]);
      }
    }
  }

  /** Where an operation leaves memory and disk. */
  ghost predicate Ends(s: Lfs, t: Lfs, fs: Fs, force: bool, keeps: bool)
    requires Good(s)
  {
    && Good(t) && Grows(s.disk, t.disk) && Tree(t.disk, t.inodeMap) == fs
    && (Matches(s) && keeps ==> Matches(t))
    && (force ==> Synced(t) && (Matches(t) ==> DiskTree(t.disk) == fs))
    && (!force ==> t.disk[0] == s.disk[0] && DiskTree(t.disk) == DiskTree(s.disk))
  }

  lemma MaybeSyncEnds(s: Lfs, force: bool)
    requires Good(s)
    ensures Ends(s, MaybeSync(s, force), Tree(s.disk, s.inodeMap), force, true)
  {
    SyncKeeps(s);
    GrowsSync(s);
    if force {
      SyncedTree(Sync(s));
    }
  }

  lemma SyncedTree(s: Lfs)
    requires Good(s) && Synced(s)
    ensures Matches(s) ==> DiskTree(s.disk) == Tree(s.disk, s.inodeMap)
  {
    if Matches(s) {
      LookupsAgree(s, 0);
    }
  }

  lemma CommitEnds(s: Lfs, n1: nat, a1: int, n2: nat, a2: int, inums: seq<nat>, force: bool)
    requires Good(s) && n1 < NUM_INODES && n2 < NUM_INODES && EntryOk(s.disk, a1) && EntryOk(s.disk, a2)
    requires forall k :: 0 <= k < |inums| ==> inums[k] < NUM_INODES
    ensures var fs := Tree(s.disk, s.inodeMap)[n1 := NodeOf(s.disk, a1)][n2 := NodeOf(s.disk, a2)];
            var keeps := {n1 / INODES_PER_CHUNK, n2 / INODES_PER_CHUNK} <= Chunks(inums);
            Ends(s, Commit(s, n1, a1, n2, a2, inums, force), fs, force, keeps)
  {
    var bad := {n1 / INODES_PER_CHUNK, n2 / INODES_PER_CHUNK};
    var s1 := Remap(s, n1, a1);
    var s2 := Remap(s1, n2, a2);
    RemapKeeps(s, n1, a1);
    RemapKeeps(s1, n2, a2);
    if Matches(s) {
      MatchesRemap(s, n1, a1, {});
      MatchesRemap(s1, n2, a2, {n1 / INODES_PER_CHUNK});
      assert {} + {n1 / INODES_PER_CHUNK} == {n1 / INODES_PER_CHUNK};
      assert {n1 / INODES_PER_CHUNK} + {n2 / INODES_PER_CHUNK} == bad;
    }
    UpdateImapKeeps(s2, inums, [], bad);
    if bad <= Chunks(inums) {
      assert bad - Chunks(inums) == {};
    }
    MaybeSyncEnds(UpdateImap(s2, inums, []), force);
    GrowsTrans(s.disk, UpdateImap(s2, inums, []).disk, Commit(s, n1, a1, n2, a2, inums, force).disk);
  }

  lemma CommitOneEnds(s: Lfs, n: nat, a: int, force: bool)
    requires Good(s) && n < NUM_INODES && EntryOk(s.disk, a)
    ensures Ends(s, MaybeSync(LogChunk(Remap(s, n, a), n / INODES_PER_CHUNK), force),
                 Tree(s.disk, s.inodeMap)[n := NodeOf(s.disk, a)], force, true)
  {
    var s2, c := Remap(s, n, a), n / INODES_PER_CHUNK;
    RemapKeeps(s, n, a);
    LogChunkKeeps(s2, c);
    if Matches(s) {
      MatchesRemap(s, n, a, {});
      MatchesChunk(s2, c, {} + {c});
      assert ({} + {c}) - {c} == {};
    }
    MaybeSyncEnds(LogChunk(s2, c), force);
    GrowsTrans(s.disk, LogChunk(s2, c).disk, MaybeSync(LogChunk(s2, c), force).disk);
  }

  // ---------- Logging several blocks ----------

  /** An inode logged with a block it points to, and more blocks after: it is found at its address. */
  lemma LoggedAt(d: seq<Block>, a: nat, b: Block)
    requires 0 < a < |d| && d[a] == b && InodeBlockOk(d, b)
    ensures EntryOk(d, a) && NodeOf(d, a) == NodeOfBlock(d, b)
  {
  }

  const NO_PTRS: seq<int> := [-1, -1, -1, -1, -1, -1, -1, -1]

  // ---------- Create ----------

  function NewInode(isFile: bool, dirBlock: int): Block {
    if isFile then Inode(false, 0, 1, NO_PTRS) else Inode(true, 1, 2, NO_PTRS[0 := dirBlock])
  }

  /** Parent p takes entry `name` for the new inode m: the blocks logged, in this order. */
  function CreateBlocks(s: Lfs, b: Block, ch: Change, p: nat, isFile: bool, m: nat): seq<Block>
    requires b.Inode? && ch.index < |b.pointers|
  {
    var parent := ChangedInode(b, ch, |s.disk|, b.refs + if isFile then 0 else 1);
    var dirs := if isFile then [DirBlock(ch.slots)] else [DirBlock(ch.slots), DirBlock(NewDirSlots(p, m))];
    dirs + [parent, NewInode(isFile, |s.disk| + 1)]
  }

  function LogAll(s: Lfs, bs: seq<Block>): Lfs {
    s.(disk := s.disk + bs)
  }

  /** Each block points below its own address. */
  predicate AllBelow(bs: seq<Block>, a: nat) {
    forall k :: 0 <= k < |bs| ==> PointsBelow(bs[k], a + k)
  }

  lemma {:induction false} LogAllKeeps(s: Lfs, bs: seq<Block>)
    requires Good(s) && AllBelow(bs, |s.disk|)
    ensures SameView(s, LogAll(s, bs))
    ensures forall bad :: MatchesBut(s, bad) ==> MatchesBut(LogAll(s, bs), bad)
    decreases |bs|
  {
    if bs == [] {
      assert s.disk + bs == s.disk;
    } else {
      var t := Log(s, bs[0]);
      LogKeeps(s, bs[0]);
      forall bad | MatchesBut(s, bad)
        ensures MatchesBut(t, bad)
      {
        MatchesLog(s, bs[0], bad);
      }
      forall k | 0 <= k < |bs[1..]|
        ensures PointsBelow(bs[1..][k], |t.disk| + k)
      {
        assert PointsBelow(bs[k + 1], |s.disk| + (k + 1));
      }
      LogAllKeeps(t, bs[1..]);
      assert t.disk + bs[1..] == s.disk + bs;
      SameViewTrans(s, t, LogAll(s, bs));
    }
  }

  lemma EndsAfterLog(s: Lfs, bs: seq<Block>, t: Lfs, fs: Fs, force: bool, keeps: bool)
    requires Good(s) && AllBelow(bs, |s.disk|) && Good(LogAll(s, bs)) && Ends(LogAll(s, bs), t, fs, force, keeps)
    ensures Ends(s, t, fs, force, keeps)
  {
    LogAllKeeps(s, bs);
    GrowsTrans(s.disk, LogAll(s, bs).disk, t.disk);
  }

  predicate IsDirAt(s: Lfs, p: nat)
    requires |s.inodeMap| == NUM_INODES && p < NUM_INODES
  {
    var a := s.inodeMap[p];
    InodeOk(s.disk, a) && s.disk[a].isDir
  }

  predicate IsFileAt(s: Lfs, n: nat)
    requires |s.inodeMap| == NUM_INODES && n < NUM_INODES
  {
    var a := s.inodeMap[n];
    InodeOk(s.disk, a) && !s.disk[a].isDir
  }

  lemma DirAt(s: Lfs, p: nat)
    requires Good(s) && p < NUM_INODES
    ensures Tree(s.disk, s.inodeMap)[p].Dir? <==> IsDirAt(s, p)
    ensures IsDirAt(s, p) ==>
              var b := s.disk[s.inodeMap[p]];
              DirInode(s.disk, b) && Tree(s.disk, s.inodeMap)[p] == Dir(b.refs, Slots(s.disk, b))
    ensures Tree(s.disk, s.inodeMap)[p].File? <==> IsFileAt(s, p)
    ensures IsFileAt(s, p) ==> Tree(s.disk, s.inodeMap)[p] == NodeOfBlock(s.disk, s.disk[s.inodeMap[p]])
    ensures Tree(s.disk, s.inodeMap)[p].Free? <==> s.inodeMap[p] == -1
  {
    assert EntryOk(s.disk, s.inodeMap[p]);
  }

  function DirEntryFor(s: Lfs, p: nat, name: string, m: int): Option<Change>
    requires Good(s) && p < NUM_INODES && IsDirAt(s, p)
  {
    AddDirEntry(s.disk, s.disk[s.inodeMap[p]], name, m)
  }

  function CreateLog(s: Lfs, force: bool, p: nat, ch: Change, isFile: bool, m: nat): Lfs
    requires |s.inodeMap| == NUM_INODES && |s.cr| == NUM_CHUNKS && p < NUM_INODES && m < NUM_INODES && s.disk != []
    requires IsDirAt(s, p) && ch.index < NUM_INODE_PTRS
  {
    var bs := CreateBlocks(s, s.disk[s.inodeMap[p]], ch, p, isFile, m);
    var last := |s.disk| + |bs|;
    Commit(LogAll(s, bs), p, last - 2, m, last - 1, [p, m], force)
  }

  lemma NewInodeNode(d: seq<Block>, isFile: bool, a: nat, p: nat, m: nat)
    requires !isFile ==> 0 < a < |d| && d[a] == DirBlock(NewDirSlots(p, m))
    ensures InodeBlockOk(d, NewInode(isFile, a)) && NodeOfBlock(d, NewInode(isFile, a)) == NewNode(isFile, p, m)
  {
    var b := NewInode(isFile, a);
    if isFile {
      forall k | 0 <= k < |b.pointers|
        ensures DataPtr(d, b.pointers[k]) && b.pointers[k] == -1
      {
      }
      assert FileBlocks(d, b.pointers) == NewFile().blocks;
    } else {
      assert DirPtr(d, b.pointers[0]);
      assert DirSlots(d, b.pointers, 0) == [];
      assert DirSlots(d, b.pointers, 1) == NewDirSlots(p, m);
    }
  }

  /** The blocks a create logs, once on disk, stand for the changed parent and the new inode. */
  lemma CreateNodes(s: Lfs, p: nat, ch: Change, slots: seq<Slot>, isFile: bool, m: nat)
    requires Good(s) && p < NUM_INODES && m < NUM_INODES && IsDirAt(s, p)
    requires Makes(s.disk, s.disk[s.inodeMap[p]], ch, slots)
    ensures ch.index < NUM_INODE_PTRS
    ensures var b := s.disk[s.inodeMap[p]];
            var bs := CreateBlocks(s, b, ch, p, isFile, m);
            var d, last := s.disk + bs, |s.disk| + |bs|;
            && AllBelow(bs, |s.disk|) && EntryOk(d, last - 2) && EntryOk(d, last - 1)
            && NodeOf(d, last - 2) == Dir(b.refs + (if isFile then 0 else 1), slots)
            && NodeOf(d, last - 1) == NewNode(isFile, p, m)
  {
    var b := s.disk[s.inodeMap[p]];
    MakesIndex(s.disk, b, ch, slots);
    var bs := CreateBlocks(s, b, ch, p, isFile, m);
    var d, last := s.disk + bs, |s.disk| + |bs|;
    assert Grows(s.disk, d);
    MakesGrown(s.disk, d, b, ch, slots);
    assert d[|s.disk|] == DirBlock(ch.slots);
    ChangedNode(d, b, ch, slots, |s.disk|, b.refs + if isFile then 0 else 1);
    LoggedAt(d, last - 2, bs[|bs| - 2]);
    NewInodeNode(d, isFile, |s.disk| + 1, p, m);
    LoggedAt(d, last - 1, bs[|bs| - 1]);
    CreateBelow(s, b, ch, p, isFile, m);
  }

  lemma CreateBelow(s: Lfs, b: Block, ch: Change, p: nat, isFile: bool, m: nat)
    requires s.disk != [] && DirInode(s.disk, b) && ch.index < NUM_INODE_PTRS
    ensures AllBelow(CreateBlocks(s, b, ch, p, isFile, m), |s.disk|)
  {
    var bs := CreateBlocks(s, b, ch, p, isFile, m);
    InodePointsBelow(s.disk, b, |s.disk|);
    forall k | 0 <= k < |bs|
      ensures PointsBelow(bs[k], |s.disk| + k)
    {
      if k == |bs| - 2 {
        forall j | 0 <= j < |bs[k].pointers|
          ensures PtrBelow(bs[k].pointers[j], |s.disk| + k)
        {
          assert PtrBelow(b.pointers[j], |s.disk|);
        }
      }
    }
  }

  lemma CreateTree(s: Lfs, p: nat, slots: seq<Slot>, isFile: bool, m: nat)
    requires Good(s) && p < NUM_INODES && m < NUM_INODES && IsDirAt(s, p)
    ensures var fs, b := Tree(s.disk, s.inodeMap), s.disk[s.inodeMap[p]];
            && fs[p].Dir?
            && WithNew(fs, p, slots, isFile, m)
            == fs[p := Dir(b.refs + (if isFile then 0 else 1), slots)][m := NewNode(isFile, p, m)]
  {
    DirAt(s, p);
  }

  lemma CreateLogEnds(s: Lfs, force: bool, p: nat, ch: Change, slots: seq<Slot>, isFile: bool, m: nat)
    requires Good(s) && p < NUM_INODES && m < NUM_INODES && IsDirAt(s, p)
             && Makes(s.disk, s.disk[s.inodeMap[p]], ch, slots)
    ensures var fs := Tree(s.disk, s.inodeMap);
            && fs[p].Dir? && ch.index < NUM_INODE_PTRS
            && Ends(s, CreateLog(s, force, p, ch, isFile, m), WithNew(fs, p, slots, isFile, m), force, true)
  {
    CreateTree(s, p, slots, isFile, m);
    CreateNodes(s, p, ch, slots, isFile, m);
    var bs := CreateBlocks(s, s.disk[s.inodeMap[p]], ch, p, isFile, m);
    var last := |s.disk| + |bs|;
    LogAllKeeps(s, bs);
    ChunksTwo(p, m);
    CommitEnds(LogAll(s, bs), p, last - 2, m, last - 1, [p, m], force);
    var fs := Tree(s.disk, s.inodeMap);
    EndsAfterLog(s, bs, CreateLog(s, force, p, ch, isFile, m), WithNew(fs, p, slots, isFile, m), force, true);
  }

  /** A create on the log is a create in the tree. */
  lemma CreateEnds(s: Lfs, force: bool, p: nat, name: string, isFile: bool, m: nat)
    requires Good(s) && p < NUM_INODES && m < NUM_INODES && IsDirAt(s, p) && DirEntryFor(s, p, name, m).Some?
    ensures var fs := Tree(s.disk, s.inodeMap);
            var ch := DirEntryFor(s, p, name, m).value;
            && fs[p].Dir? && AddEntry(fs[p].slots, name, m).Some? && ch.index < NUM_INODE_PTRS
            && Ends(s, CreateLog(s, force, p, ch, isFile, m),
                    WithNew(fs, p, AddEntry(fs[p].slots, name, m).value, isFile, m), force, true)
  {
    DirAt(s, p);
    AddMakes(s.disk, s.disk[s.inodeMap[p]], name, m);
    CreateLogEnds(s, force, p, DirEntryFor(s, p, name, m).value,
                  AddEntry(Slots(s.disk, s.disk[s.inodeMap[p]]), name, m).value, isFile, m);
  }

  lemma ChunksTwo(p: nat, m: nat)
    ensures Chunks([p, m]) == {p / INODES_PER_CHUNK, m / INODES_PER_CHUNK}
    ensures Chunks([p]) == {p / INODES_PER_CHUNK}
  {
    assert [p, m][0] == p && [p, m][1] == m && [p][0] == p;
  }

  // ---------- Link ----------

  /** The source's inode with another number of references. */
  function WithRefs(b: Block, refs: int): Block
    requires b.Inode?
  {
    Inode(b.isDir, b.size, refs, b.pointers)
  }

  lemma FileNode(d: seq<Block>, d2: seq<Block>, b: Block, refs: int)
    requires InodeBlockOk(d, b) && !b.isDir && Grows(d, d2)
    ensures InodeBlockOk(d2, WithRefs(b, refs))
    ensures NodeOfBlock(d2, WithRefs(b, refs)) == File(refs, b.size, FileBlocks(d, b.pointers))
  {
    FileBlocksFrame(d, d2, b.pointers);
  }

  function LinkBlocks(s: Lfs, b: Block, ch: Change, src: Block): seq<Block>
    requires b.Inode? && src.Inode? && ch.index < |b.pointers|
  {
    [DirBlock(ch.slots), ChangedInode(b, ch, |s.disk|, b.refs), WithRefs(src, src.refs + 1)]
  }

  /** The chunk of the destination's directory is logged, that of the source is not. */
  function LinkLog(s: Lfs, force: bool, src: nat, p: nat, ch: Change): Lfs
    requires |s.inodeMap| == NUM_INODES && |s.cr| == NUM_CHUNKS && p < NUM_INODES && src < NUM_INODES && s.disk != []
    requires IsDirAt(s, p) && IsFileAt(s, src) && ch.index < NUM_INODE_PTRS
  {
    var bs := LinkBlocks(s, s.disk[s.inodeMap[p]], ch, s.disk[s.inodeMap[src]]);
    Commit(LogAll(s, bs), p, |s.disk| + 1, src, |s.disk| + 2, [p], force)
  }

  lemma ChangedBelow(d: seq<Block>, b: Block, ch: Change, refs: int, a: nat)
    requires d != [] && DirInode(d, b) && ch.index < NUM_INODE_PTRS && |d| < a
    ensures PointsBelow(ChangedInode(b, ch, |d|, refs), a)
  {
    InodePointsBelow(d, b, |d|);
    var c := ChangedInode(b, ch, |d|, refs);
    forall j | 0 <= j < |c.pointers|
      ensures PtrBelow(c.pointers[j], a)
    {
      assert PtrBelow(b.pointers[j], |d|);
    }
  }

  lemma RefsBelow(d: seq<Block>, b: Block, refs: int, a: nat)
    requires InodeBlockOk(d, b) && |d| <= a
    ensures PointsBelow(WithRefs(b, refs), a)
  {
    InodePointsBelow(d, b, a);
  }

  lemma LinkNodes(s: Lfs, src: nat, p: nat, ch: Change, slots: seq<Slot>)
    requires Good(s) && p < NUM_INODES && src < NUM_INODES && IsDirAt(s, p) && IsFileAt(s, src)
    requires Makes(s.disk, s.disk[s.inodeMap[p]], ch, slots)
    ensures ch.index < NUM_INODE_PTRS
    ensures var b, f := s.disk[s.inodeMap[p]], s.disk[s.inodeMap[src]];
            var bs := LinkBlocks(s, b, ch, f);
            var d, n := s.disk + bs, |s.disk|;
            && AllBelow(bs, n) && EntryOk(d, n + 1) && EntryOk(d, n + 2)
            && NodeOf(d, n + 1) == Dir(b.refs, slots)
            && NodeOf(d, n + 2) == File(f.refs + 1, f.size, FileBlocks(s.disk, f.pointers))
  {
    var b, f := s.disk[s.inodeMap[p]], s.disk[s.inodeMap[src]];
    MakesIndex(s.disk, b, ch, slots);
    var bs := LinkBlocks(s, b, ch, f);
    var d, n := s.disk + bs, |s.disk|;
    assert Grows(s.disk, d);
    MakesGrown(s.disk, d, b, ch, slots);
    assert d[n] == bs[0] && d[n + 1] == bs[1] && d[n + 2] == bs[2];
    ChangedNode(d, b, ch, slots, n, b.refs);
    LoggedAt(d, n + 1, bs[1]);
    FileNode(s.disk, d, f, f.refs + 1);
    LoggedAt(d, n + 2, bs[2]);
    ChangedBelow(s.disk, b, ch, b.refs, n + 1);
    RefsBelow(s.disk, f, f.refs + 1, n + 2);
  }

  lemma LinkTree(s: Lfs, src: nat, p: nat, slots: seq<Slot>)
    requires Good(s) && p < NUM_INODES && src < NUM_INODES && IsDirAt(s, p) && IsFileAt(s, src)
    ensures var fs, b, f := Tree(s.disk, s.inodeMap), s.disk[s.inodeMap[p]], s.disk[s.inodeMap[src]];
            && fs[p].Dir? && fs[src].File?
            && WithLink(fs, src, p, slots)
            == fs[p := Dir(b.refs, slots)][src := File(f.refs + 1, f.size, FileBlocks(s.disk, f.pointers))]
  {
    DirAt(s, p);
    DirAt(s, src);
  }

  lemma LinkLogEnds(s: Lfs, force: bool, src: nat, p: nat, ch: Change, slots: seq<Slot>)
    requires Good(s) && p < NUM_INODES && src < NUM_INODES && IsDirAt(s, p) && IsFileAt(s, src)
    requires Makes(s.disk, s.disk[s.inodeMap[p]], ch, slots)
    ensures var fs := Tree(s.disk, s.inodeMap);
            && fs[p].Dir? && fs[src].File? && ch.index < NUM_INODE_PTRS
            && Ends(s, LinkLog(s, force, src, p, ch), WithLink(fs, src, p, slots), force,
                    src / INODES_PER_CHUNK == p / INODES_PER_CHUNK)
  {
    LinkTree(s, src, p, slots);
    LinkNodes(s, src, p, ch, slots);
    var bs := LinkBlocks(s, s.disk[s.inodeMap[p]], ch, s.disk[s.inodeMap[src]]);
    LogAllKeeps(s, bs);
    ChunksTwo(p, src);
    CommitEnds(LogAll(s, bs), p, |s.disk| + 1, src, |s.disk| + 2, [p], force);
    var fs := Tree(s.disk, s.inodeMap);
    EndsAfterLog(s, bs, LinkLog(s, force, src, p, ch), WithLink(fs, src, p, slots), force,
                 src / INODES_PER_CHUNK == p / INODES_PER_CHUNK);
  }

  /** A link on the log is a link in the tree; the chunks keep matching if source and directory share one. */
  lemma LinkEnds(s: Lfs, force: bool, src: nat, p: nat, name: string)
    requires Good(s) && p < NUM_INODES && src < NUM_INODES && IsDirAt(s, p) && IsFileAt(s, src)
    requires DirEntryFor(s, p, name, src).Some?
    ensures var fs := Tree(s.disk, s.inodeMap);
            var ch := DirEntryFor(s, p, name, src).value;
            && fs[p].Dir? && fs[src].File? && AddEntry(fs[p].slots, name, src).Some? && ch.index < NUM_INODE_PTRS
            && Ends(s, LinkLog(s, force, src, p, ch), WithLink(fs, src, p, AddEntry(fs[p].slots, name, src).value),
                    force, src / INODES_PER_CHUNK == p / INODES_PER_CHUNK)
  {
    DirAt(s, p);
    AddMakes(s.disk, s.disk[s.inodeMap[p]], name, src);
    LinkLogEnds(s, force, src, p, DirEntryFor(s, p, name, src).value,
                AddEntry(Slots(s.disk, s.disk[s.inodeMap[p]]), name, src).value);
  }

  /** Otherwise the map in memory has a new address for the source, but its chunk is not logged anew. */
  lemma LinkAddresses(s: Lfs, force: bool, src: nat, p: nat, ch: Change)
    requires Good(s) && p < NUM_INODES && src < NUM_INODES && IsDirAt(s, p) && IsFileAt(s, src)
             && ch.index < NUM_INODE_PTRS
    requires src / INODES_PER_CHUNK != p / INODES_PER_CHUNK && s.cr[src / INODES_PER_CHUNK] != -1
    ensures var t, c := LinkLog(s, force, src, p, ch), src / INODES_PER_CHUNK;
            && |t.cr| == NUM_CHUNKS && t.cr[c] == s.cr[c] && 0 < s.cr[c] < |s.disk| <= |t.disk|
            && t.disk[s.cr[c]] == s.disk[s.cr[c]]
            && |t.inodeMap| == NUM_INODES && t.inodeMap[src] == |s.disk| + 2
  {
    var bs := LinkBlocks(s, s.disk[s.inodeMap[p]], ch, s.disk[s.inodeMap[src]]);
    var c, n := src / INODES_PER_CHUNK, |s.disk|;
    var s2 := Remap(Remap(LogAll(s, bs), p, n + 1), src, n + 2);
    assert UpdateImap(s2, [p], []) == LogChunk(s2, p / INODES_PER_CHUNK) by {
      assert [p][1..] == [];
    }
    assert ImapOk(s.disk, s.cr[c]);
  }

  /** So the source's chunk, as the checkpoint region knows it, is out of date. */
  lemma LinkBreaks(s: Lfs, force: bool, src: nat, p: nat, ch: Change)
    requires Good(s) && p < NUM_INODES && src < NUM_INODES && IsDirAt(s, p) && IsFileAt(s, src)
             && ch.index < NUM_INODE_PTRS
    requires src / INODES_PER_CHUNK != p / INODES_PER_CHUNK && s.cr[src / INODES_PER_CHUNK] != -1
    ensures !Matches(LinkLog(s, force, src, p, ch))
  {
    LinkAddresses(s, force, src, p, ch);
    var t, c, k := LinkLog(s, force, src, p, ch), src / INODES_PER_CHUNK, src % INODES_PER_CHUNK;
    assert ImapOk(s.disk, s.cr[c]);
    assert EntryOk(s.disk, s.disk[s.cr[c]].entries[k]);
    assert ChunkOf(t.inodeMap, c)[k] == t.inodeMap[src];
    assert !ChunkMatches(t, c);
  }

  /** So a link keeps the chunks matching exactly when source and destination directory share a chunk. */
  lemma LinkMatches(s: Lfs, force: bool, src: nat, p: nat, name: string)
    requires Good(s) && Matches(s) && p < NUM_INODES && src < NUM_INODES && IsDirAt(s, p) && IsFileAt(s, src)
    requires DirEntryFor(s, p, name, src).Some?
    ensures DirEntryFor(s, p, name, src).value.index < NUM_INODE_PTRS
    ensures Matches(LinkLog(s, force, src, p, DirEntryFor(s, p, name, src).value)) <==>
              src / INODES_PER_CHUNK == p / INODES_PER_CHUNK
  {
    LinkEnds(s, force, src, p, name);
    if src / INODES_PER_CHUNK != p / INODES_PER_CHUNK {
      assert ChunkMatches(s, src / INODES_PER_CHUNK);
      assert ChunkOf(s.inodeMap, src / INODES_PER_CHUNK)[src % INODES_PER_CHUNK] == s.inodeMap[src];
      LinkBreaks(s, force, src, p, DirEntryFor(s, p, name, src).value);
    }
  }

  // ---------- Delete ----------

  /** The blocks logged: the directory's, its inode, and the file's inode if other names are left. */
  function DeleteBlocks(s: Lfs, b: Block, ch: Change, f: Block): seq<Block>
    requires b.Inode? && f.Inode? && ch.index < |b.pointers|
  {
    [DirBlock(ch.slots), ChangedInode(b, ch, |s.disk|, b.refs)] + if f.refs > 1 then [WithRefs(f, f.refs - 1)] else []
  }

  /** The delete of slot i of directory p and of a reference of inode n, whose block was read at address r. */
  function DeleteRead(s: Lfs, force: bool, r: int, n: nat, p: nat, i: nat): Lfs
    requires |s.inodeMap| == NUM_INODES && |s.cr| == NUM_CHUNKS && p < NUM_INODES && n < NUM_INODES && s.disk != []
    requires IsDirAt(s, p) && InodeOk(s.disk, r) && !s.disk[r].isDir && i < SLOTS_PER_BLOCK * s.disk[s.inodeMap[p]].size
  {
    var b, f := s.disk[s.inodeMap[p]], s.disk[r];
    var bs := DeleteBlocks(s, b, SetSlot(s.disk, b, i, EMPTY), f);
    Commit(LogAll(s, bs), n, if f.refs == 1 then -1 else if f.refs > 1 then |s.disk| + 2 else s.inodeMap[n],
           p, |s.disk| + 1, [n, p], force)
  }

  function DeleteLog(s: Lfs, force: bool, n: nat, p: nat, i: nat): Lfs
    requires |s.inodeMap| == NUM_INODES && |s.cr| == NUM_CHUNKS && p < NUM_INODES && n < NUM_INODES && s.disk != []
    requires IsDirAt(s, p) && IsFileAt(s, n) && i < SLOTS_PER_BLOCK * s.disk[s.inodeMap[p]].size
  {
    DeleteRead(s, force, s.inodeMap[n], n, p, i)
  }

  lemma DeleteNodes(s: Lfs, n: nat, p: nat, ch: Change, slots: seq<Slot>)
    requires Good(s) && p < NUM_INODES && n < NUM_INODES && IsDirAt(s, p) && IsFileAt(s, n)
    requires Makes(s.disk, s.disk[s.inodeMap[p]], ch, slots)
    ensures ch.index < NUM_INODE_PTRS
    ensures var b, f := s.disk[s.inodeMap[p]], s.disk[s.inodeMap[n]];
            var bs := DeleteBlocks(s, b, ch, f);
            var d, a := s.disk + bs, |s.disk|;
            && AllBelow(bs, a) && EntryOk(d, a + 1) && NodeOf(d, a + 1) == Dir(b.refs, slots)
            && (f.refs > 1 ==>
                  EntryOk(d, a + 2) && NodeOf(d, a + 2) == File(f.refs - 1, f.size, FileBlocks(s.disk, f.pointers)))
  {
    var b, f := s.disk[s.inodeMap[p]], s.disk[s.inodeMap[n]];
    MakesIndex(s.disk, b, ch, slots);
    var bs := DeleteBlocks(s, b, ch, f);
    var d, a := s.disk + bs, |s.disk|;
    assert Grows(s.disk, d);
    MakesGrown(s.disk, d, b, ch, slots);
    assert d[a] == bs[0] && d[a + 1] == bs[1];
    ChangedNode(d, b, ch, slots, a, b.refs);
    LoggedAt(d, a + 1, bs[1]);
    ChangedBelow(s.disk, b, ch, b.refs, a + 1);
    RefsBelow(s.disk, f, f.refs - 1, a + 2);
    if f.refs > 1 {
      FileNode(s.disk, d, f, f.refs - 1);
      LoggedAt(d, a + 2, bs[2]);
    }
  }

  /** A delete on the log is a delete in the tree. */
  lemma DeleteEnds(s: Lfs, force: bool, n: nat, p: nat, i: nat)
    requires Good(s) && p < NUM_INODES && n < NUM_INODES && IsDirAt(s, p) && IsFileAt(s, n)
    requires i < SLOTS_PER_BLOCK * s.disk[s.inodeMap[p]].size
    ensures var fs := Tree(s.disk, s.inodeMap);
            && fs[p].Dir? && fs[n].File? && i < |fs[p].slots|
            && Ends(s, DeleteLog(s, force, n, p, i), Deleted(fs, n, p, i), force, true)
  {
    var fs, b, f := Tree(s.disk, s.inodeMap), s.disk[s.inodeMap[p]], s.disk[s.inodeMap[n]];
    DirAt(s, p);
    DirAt(s, n);
    SetMakes(s.disk, b, i, EMPTY);
    var ch := SetSlot(s.disk, b, i, EMPTY);
    DeleteNodes(s, n, p, ch, Slots(s.disk, b)[i := EMPTY]);
    var bs := DeleteBlocks(s, b, ch, f);
    LogAllKeeps(s, bs);
    var a := if f.refs == 1 then -1 else if f.refs > 1 then |s.disk| + 2 else s.inodeMap[n];
    var d := s.disk + bs;
    NodeFrame(s.disk, d, s.inodeMap[n]);
    ChunksTwo(n, p);
    CommitEnds(LogAll(s, bs), n, a, p, |s.disk| + 1, [n, p], force);
    var x, y := DropRef(fs[n]), fs[p].(slots := WithoutEntry(fs[p].slots, i));
    assert fs[n := x][p := y] == fs[p := y][n := x];
    EndsAfterLog(s, bs, DeleteLog(s, force, n, p, i), Deleted(fs, n, p, i), force, true);
  }

  // ---------- Write ----------

  /** Data blocks of the first k contents. */
  function DataBlocks(contents: seq<string>, k: nat): (bs: seq<Block>)
    requires k <= |contents|
    ensures |bs| == k && forall j :: 0 <= j < k ==> bs[j] == Data(contents[j])
  {
    seq(k, j requires 0 <= j < |contents| => Data(contents[j]))
  }

  /** The file's inode with blocks at addresses from a on put in from an offset on. */
  function WrittenInode(f: Block, offset: nat, k: nat, a: nat): Block
    requires f.Inode? && |f.pointers| == NUM_INODE_PTRS && offset + k <= NUM_INODE_PTRS
  {
    Inode(f.isDir, Max(offset + k, f.size), f.refs, NewPointers(f.pointers, offset, k, a))
  }

  function NewPointers(ptrs: seq<int>, offset: nat, k: nat, a: nat): (r: seq<int>)
    requires |ptrs| == NUM_INODE_PTRS && offset + k <= NUM_INODE_PTRS
    ensures |r| == |ptrs|
    ensures forall j :: 0 <= j < |r| ==> r[j] == if offset <= j < offset + k then a + (j - offset) else ptrs[j]
  {
    seq(NUM_INODE_PTRS, j requires 0 <= j < |ptrs| => if offset <= j < offset + k then a + (j - offset) else ptrs[j])
  }

  function WriteBlocks(s: Lfs, f: Block, offset: nat, contents: seq<string>): seq<Block>
    requires f.Inode? && |f.pointers| == NUM_INODE_PTRS && offset < NUM_INODE_PTRS
  {
    var k := Fitting(offset, |contents|);
    DataBlocks(contents, k) + [WrittenInode(f, offset, k, |s.disk|)]
  }

  function WriteLog(s: Lfs, force: bool, n: nat, offset: nat, contents: seq<string>): Lfs
    requires |s.inodeMap| == NUM_INODES && |s.cr| == NUM_CHUNKS && n < NUM_INODES && s.disk != []
    requires IsFileAt(s, n) && offset < NUM_INODE_PTRS
  {
    var bs := WriteBlocks(s, s.disk[s.inodeMap[n]], offset, contents);
    MaybeSync(LogChunk(Remap(LogAll(s, bs), n, |s.disk| + |bs| - 1), n / INODES_PER_CHUNK), force)
  }

  lemma WriteNode(s: Lfs, n: nat, offset: nat, contents: seq<string>)
    requires Good(s) && n < NUM_INODES && IsFileAt(s, n) && offset < NUM_INODE_PTRS
    ensures var f := s.disk[s.inodeMap[n]];
            var bs := WriteBlocks(s, f, offset, contents);
            var d, a := s.disk + bs, |s.disk| + |bs| - 1;
            && AllBelow(bs, |s.disk|) && EntryOk(d, a)
            && NodeOf(d, a) == Written(NodeOfBlock(s.disk, f), offset, contents)
  {
    var f := s.disk[s.inodeMap[n]];
    var bs, k := WriteBlocks(s, f, offset, contents), Fitting(offset, |contents|);
    var d, a, ptrs := s.disk + bs, |s.disk| + |bs| - 1, bs[k].pointers;
    assert Grows(s.disk, d);
    forall j | 0 <= j < |ptrs|
      ensures DataPtr(d, ptrs[j]) && PtrBelow(ptrs[j], a)
      ensures (if ptrs[j] == -1 then None else Some(d[ptrs[j]].contents)) ==
              if offset <= j < offset + |contents| then Some(contents[j - offset])
              else FileBlocks(s.disk, f.pointers)[j]
    {
      WrittenPtr(s, n, offset, contents, j);
    }
    assert FilePtrs(d, ptrs);
    assert FileBlocks(d, ptrs) == PutBlocks(FileBlocks(s.disk, f.pointers), offset, contents);
    assert d[a] == bs[k];
  }

  lemma WrittenPtr(s: Lfs, n: nat, offset: nat, contents: seq<string>, j: nat)
    requires Good(s) && n < NUM_INODES && IsFileAt(s, n) && offset < NUM_INODE_PTRS && j < NUM_INODE_PTRS
    ensures var f := s.disk[s.inodeMap[n]];
            var bs, k := WriteBlocks(s, f, offset, contents), Fitting(offset, |contents|);
            var d, x := s.disk + bs, bs[k].pointers[j];
            && DataPtr(d, x) && PtrBelow(x, |s.disk| + |bs| - 1)
            && (if x == -1 then None else Some(d[x].contents)) ==
               if offset <= j < offset + |contents| then Some(contents[j - offset])
               else FileBlocks(s.disk, f.pointers)[j]
  {
    var f := s.disk[s.inodeMap[n]];
    var bs, k := WriteBlocks(s, f, offset, contents), Fitting(offset, |contents|);
    var d := s.disk + bs;
    assert DataPtr(s.disk, f.pointers[j]);
    if offset <= j < offset + k {
      assert d[|s.disk| + (j - offset)] == DataBlocks(contents, k)[j - offset];
    }
  }

  /** A write on the log is a write in the tree. */
  lemma WriteEnds(s: Lfs, force: bool, n: nat, offset: nat, contents: seq<string>)
    requires Good(s) && n < NUM_INODES && IsFileAt(s, n) && offset < NUM_INODE_PTRS
    ensures var fs := Tree(s.disk, s.inodeMap);
            && fs[n].File? && |fs[n].blocks| == NUM_INODE_PTRS
            && Ends(s, WriteLog(s, force, n, offset, contents), fs[n := Written(fs[n], offset, contents)], force, true)
  {
    DirAt(s, n);
    WriteNode(s, n, offset, contents);
    var bs := WriteBlocks(s, s.disk[s.inodeMap[n]], offset, contents);
    var a := |s.disk| + |bs| - 1;
    LogAllKeeps(s, bs);
    var t := LogAll(s, bs);
    CommitOneEnds(t, n, a, force);
    assert WriteLog(s, force, n, offset, contents) == MaybeSync(LogChunk(Remap(t, n, a), n / INODES_PER_CHUNK), force);
    var fs := Tree(s.disk, s.inodeMap);
    EndsAfterLog(s, bs, WriteLog(s, force, n, offset, contents), fs[n := Written(fs[n], offset, contents)], force,
                 true);
  }
}
