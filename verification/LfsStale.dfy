/**
 A run after which the disk and the memory of lfs.py disagree: files are created until inode 16, the first of the
 map's second chunk, is in use, and then that file is linked into the root, whose inode is in the first chunk.
 */
module LfsStale {
  import opened Sums
  import opened LfsTree
  import opened LfsLog
  import opened LfsOps
  import opened LfsRun

  // ---------- What such a link leaves on disk ----------

  /** After a forced link across chunks the disk still leads to the source's inode as it was, with one reference
      fewer than the memory's. */
  lemma LinkLeavesStale(s: Lfs, src: nat, p: nat, name: string)
    requires Good(s) && Matches(s) && p < NUM_INODES && src < NUM_INODES && IsDirAt(s, p) && IsFileAt(s, src)
    requires DirEntryFor(s, p, name, src).Some? && src / INODES_PER_CHUNK != p / INODES_PER_CHUNK
    ensures DirEntryFor(s, p, name, src).value.index < NUM_INODE_PTRS
    ensures var t := LinkLog(s, true, src, p, DirEntryFor(s, p, name, src).value);
            && Good(t) && Address(t, true, src) == s.inodeMap[src] != Address(t, false, src)
            && DiskTree(t.disk)[src] == View(s)[src] && View(s)[src].File?
            && View(t)[src] == Refer(View(s)[src])
  {
    LinkEnds(s, true, src, p, name);
    var ch := DirEntryFor(s, p, name, src).value;
    var t, c := LinkLog(s, true, src, p, ch), src / INODES_PER_CHUNK;
    assert ChunkMatches(s, c) && ChunkOf(s.inodeMap, c)[src % INODES_PER_CHUNK] == s.inodeMap[src];
    LinkAddresses(s, true, src, p, ch);
    StillLeadsTo(s, t, src);
    DirAt(s, src);
  }

  /** The chunk of an inode as it was logged leads to the inode as it was. */
  lemma StillLeadsTo(s: Lfs, t: Lfs, n: nat)
    requires Good(s) && Good(t) && Matches(s) && n < NUM_INODES && Grows(s.disk, t.disk) && Synced(t)
    requires var c := n / INODES_PER_CHUNK; s.cr[c] != -1 && t.cr[c] == s.cr[c]
    ensures Address(t, true, n) == s.inodeMap[n] && DiskTree(t.disk)[n] == View(s)[n]
  {
    var c := n / INODES_PER_CHUNK;
    assert ChunkMatches(s, c) && ChunkOf(s.inodeMap, c)[n % INODES_PER_CHUNK] == s.inodeMap[n];
    assert ImapOk(s.disk, s.cr[c]);
    assert Same(s.disk, t.disk, s.cr[c]);
    assert CrEntry(t.disk, t.cr, n) == s.inodeMap[n];
    NodeFrame(s.disk, t.disk, s.inodeMap[n]);
    CrMapOk(t.disk, t.cr);
  }

  // ---------- Filling the first chunk ----------

  function Name(n: nat): string {
    seq(n, _ => 'a')
  }

  /** Files 1 to k are created in the root, as the sequential allocator numbers them. */
  function Files(k: nat): (ops: seq<Op>)
    ensures |ops| == k
  {
    if k == 0 then [] else Files(k - 1) + [CreateOp(["", Name(k)], true, k)]
  }

  function InUse(slots: seq<Slot>): int {
    |slots| - Sum(slots, Is(-1))
  }

  ghost predicate Holds(fs: Fs, k: nat) {
    && FsOk(fs) && InUse(fs[ROOT_INODE].slots) == k + 2
    && (forall n: nat :: 1 <= n < |fs| ==> HoldsAt(fs, k, n))
    && Edge(fs, ROOT_INODE, "x") == -1
  }

  predicate HoldsAt(fs: Fs, k: nat, n: nat)
    requires n < |fs|
  {
    if n <= k then fs[n].File? && fs[n].refs == 1 && Edge(fs, ROOT_INODE, Name(n)) == n
    else fs[n].Free? && Edge(fs, ROOT_INODE, Name(n)) == -1
  }

  lemma NamesDiffer(n: nat, m: nat)
    requires n >= 1
    ensures Name(n) != "x" && Name(n) != "-" && Name(n) != "." && Name(n) != ".."
    ensures n != m ==> Name(n) != Name(m)
  {
    assert Name(n)[0] == 'a' && |Name(n)| == n && |Name(m)| == m;
  }

  lemma AddEntryUses(slots: seq<Slot>, name: string, m: int)
    requires AddEntry(slots, name, m).Some? && m >= 0
    requires forall i :: 0 <= i < |slots| && slots[i].name == "-" ==> slots[i].inum == -1
    ensures InUse(AddEntry(slots, name, m).value) == InUse(slots) + 1
  {
    var i := First(slots, "-");
    if i != -1 {
      SumUpdate(slots, i, Slot(name, m), Is(-1));
    } else {
      SumSplit(slots, [Slot(name, m)] + EMPTIES, Is(-1));
      SumSplit([Slot(name, m)], EMPTIES, Is(-1));
      EmptiesCount(-1);
      assert [Slot(name, m)][1..] == [];
    }
  }

  lemma HasRoom(fs: Fs, name: string, m: int)
    requires FsOk(fs) && InUse(fs[ROOT_INODE].slots) < SLOTS_PER_BLOCK * NUM_INODE_PTRS
    ensures AddEntry(fs[ROOT_INODE].slots, name, m).Some?
  {
    var slots := fs[ROOT_INODE].slots;
    assert NodeOk(fs, ROOT_INODE);
    AddEntryFails(fs, slots, name, m);
    if AddEntry(slots, name, m).None? {
      SumZero(slots, Is(-1));
    }
  }

  lemma NewFileHolds(fs: Fs, k: nat)
    requires 1 <= k <= 16 && Holds(fs, k - 1)
    ensures var op := CreateOp(["", Name(k)], true, k);
            && Allowed(fs, op) && SharesChunk(fs, op) && DoFs(fs, op).1 == Done(0) && Holds(DoFs(fs, op).0, k)
  {
    var name := Name(k);
    NamesDiffer(k, 0);
    assert HoldsAt(fs, k - 1, k);
    assert Below(["", name]) == [name];
    assert WalkPath(fs, ["", name]) == Reached(-1, name, ROOT_INODE);
    NotFound(fs, ROOT_INODE, name);
    HasRoom(fs, name, k);
    assert NodeOk(fs, ROOT_INODE);
    EmptySlots(fs, fs[ROOT_INODE].slots);
    AddEntryUses(fs[ROOT_INODE].slots, name, k);
    assert Creates(fs, ROOT_INODE, name, true, k);
    var fs2 := Created(fs, ROOT_INODE, name, true, k);
    CreatedOk(fs, ROOT_INODE, name, true, k);
    forall n: nat | 1 <= n < |fs2|
      ensures HoldsAt(fs2, k, n)
    {
      assert HoldsAt(fs, k - 1, n);
      NamesDiffer(k, n);
      CreatedEdges(fs, ROOT_INODE, name, true, k, ROOT_INODE, Name(n));
    }
    CreatedEdges(fs, ROOT_INODE, name, true, k, ROOT_INODE, "x");
  }

  lemma StartHolds()
    ensures Holds(Start(), 0)
  {
    StartOk();
    var fs := Start();
    var six := [EMPTY, EMPTY, EMPTY, EMPTY, EMPTY, EMPTY];
    EmptiesCount(-1);
    assert EMPTIES == [EMPTY] + six;
    assert EMPTIES[1..] == six;
    var dots := [Slot(".", ROOT_INODE), Slot("..", ROOT_INODE)];
    assert fs[ROOT_INODE].slots == dots + six;
    SumSplit(dots, six, Is(-1));
    SumZero(dots, Is(-1));
    forall n: nat | 1 <= n < |fs|
      ensures HoldsAt(fs, 0, n)
    {
      NamesDiffer(n, 0);
    }
  }

  // ---------- The run ----------

  lemma {:induction false} RunFsAppend(fs: Fs, ops: seq<Op>, op: Op)
    ensures RunFs(fs, ops + [op]) == DoFs(RunFs(fs, ops), op).0
    ensures AllAllowed(fs, ops + [op]) <==> AllAllowed(fs, ops) && Allowed(RunFs(fs, ops), op)
    ensures AllShareChunks(fs, ops + [op]) <==> AllShareChunks(fs, ops) && SharesChunk(RunFs(fs, ops), op)
    decreases |ops|
  {
    if ops == [] {
      assert [op][1..] == [] && ops + [op] == [op];
    } else {
      assert (ops + [op])[1..] == ops[1..] + [op];
      RunFsAppend(DoFs(fs, ops[0]).0, ops[1..], op);
    }
  }

  lemma {:induction false} RunAppend(s: Lfs, force: bool, ops: seq<Op>, op: Op)
    requires Good(s)
    ensures Good(Run(s, force, ops)) && Run(s, force, ops + [op]) == Do(Run(s, force, ops), force, op).0
    decreases |ops|
  {
    if ops == [] {
      DoGood(s, force, op);
      assert [op][1..] == [] && ops + [op] == [op];
    } else {
      DoGood(s, force, ops[0]);
      assert (ops + [op])[1..] == ops[1..] + [op];
      RunAppend(Do(s, force, ops[0]).0, force, ops[1..], op);
    }
  }

  lemma {:induction false} FilesHold(k: nat)
    requires k <= 16
    ensures AllAllowed(Start(), Files(k)) && AllShareChunks(Start(), Files(k)) && Holds(RunFs(Start(), Files(k)), k)
  {
    if k == 0 {
      StartHolds();
    } else {
      FilesHold(k - 1);
      NewFileHolds(RunFs(Start(), Files(k - 1)), k);
      RunFsAppend(Start(), Files(k - 1), CreateOp(["", Name(k)], true, k));
    }
  }

  const LINK := LinkOp(["", Name(16)], ["", "x"])

  lemma LinkFound(fs: Fs)
    requires Holds(fs, 16)
    ensures WalkPath(fs, LINK.src) == Reached(16, Name(16), ROOT_INODE)
            && WalkPath(fs, LINK.dst) == Reached(-1, "x", ROOT_INODE)
    ensures Allowed(fs, LINK) && !SharesChunk(fs, LINK) && fs[16].File? && AddEntry(fs[ROOT_INODE].slots, "x", 16).Some?
  {
    assert HoldsAt(fs, 16, 16);
    assert Below(LINK.src) == [Name(16)] && Below(LINK.dst) == ["x"];
    HasRoom(fs, "x", 16);
  }

  /** The link in a state where the files are: it succeeds, and what it logs. */
  lemma LinkDone(s: Lfs, force: bool)
    requires Inv(s) && Holds(View(s), 16)
    ensures IsDirAt(s, ROOT_INODE) && IsFileAt(s, 16) && DirEntryFor(s, ROOT_INODE, "x", 16).Some?
    ensures var ch := DirEntryFor(s, ROOT_INODE, "x", 16).value;
            ch.index < NUM_INODE_PTRS && Do(s, force, LINK) == (LinkLog(s, force, 16, ROOT_INODE, ch), Done(0))
  {
    LinkFound(View(s));
    DirAt(s, ROOT_INODE);
    DirAt(s, 16);
    AddMakes(s.disk, s.disk[s.inodeMap[ROOT_INODE]], "x", 16);
    LinkMatches(s, force, 16, ROOT_INODE, "x");
  }

  lemma AfterFiles(force: bool) returns (s: Lfs)
    ensures s == After(force, Files(16)) && Inv(s) && Holds(View(s), 16)
    ensures AllAllowed(Start(), Files(16) + [LINK]) && After(force, Files(16) + [LINK]) == Do(s, force, LINK).0
  {
    InitInv();
    FilesHold(16);
    s := After(force, Files(16));
    RunIsTree(Init(), force, Files(16));
    LinkFound(View(s));
    RunFsAppend(Start(), Files(16), LINK);
    RunAppend(Init(), force, Files(16), LINK);
  }

  /** After sixteen creates and the link, which succeeds, the chunks no longer match; with forced checkpoints the two
      lookups find different inodes for the linked file, and the disk's has one reference fewer. */
  lemma StaleRun(force: bool)
    ensures var ops := Files(16) + [LINK];
            && AllAllowed(Start(), ops) && Good(After(force, ops)) && !Matches(After(force, ops))
            && Good(After(force, Files(16))) && Do(After(force, Files(16)), force, LINK).1 == Done(0)
    ensures force ==>
              var t := After(true, Files(16) + [LINK]);
              && Good(t) && Address(t, true, 16) != Address(t, false, 16)
              && DiskTree(t.disk)[16].File? && View(t)[16].File?
              && View(t)[16].refs == DiskTree(t.disk)[16].refs + 1
  {
    var s := AfterFiles(force);
    DoGood(s, force, LINK);
    LinkDone(s, force);
    LinkMatches(s, force, 16, ROOT_INODE, "x");
    if force {
      LinkLeavesStale(s, 16, ROOT_INODE, "x");
    }
  }
}
