/**
 Whole runs of lfs.py: after any operations the log in memory stands for the tree the operations make, its
 reference counts are right, and the checkpoint on disk holds the tree as of the last checkpoint written.
 */
module LfsRun {
  import opened LfsTree
  import opened LfsLog
  import opened LfsOps

  /** Commands; `m` is the inode number the allocator picks, or -1. */
  datatype Op =
    | CreateOp(path: seq<string>, isFile: bool, m: int)
    | LinkOp(src: seq<string>, dst: seq<string>)
    | WriteOp(path: seq<string>, offset: int, contents: seq<string>)
    | DeleteOp(path: seq<string>)
    | SyncOp

  // ---------- On the log ----------

  function View(s: Lfs): Fs
    requires Good(s)
  {
    Tree(s.disk, s.inodeMap)
  }

  lemma WalkDir(s: Lfs, path: seq<string>)
    requires Good(s)
    ensures var r := WalkPath(View(s), path);
            r.Reached? ==>
              && 0 <= r.parent < NUM_INODES && IsDirAt(s, r.parent)
              && r.inum == Edge(View(s), r.parent, r.name)
  {
    if WalkPath(View(s), path).Reached? {
      WalkReaches(View(s), ROOT_INODE, Below(path));
      DirAt(s, WalkPath(View(s), path).parent);
    }
  }

  lemma EntryIndex(s: Lfs, p: nat, name: string, m: int)
    requires Good(s) && p < NUM_INODES && IsDirAt(s, p) && DirEntryFor(s, p, name, m).Some?
    ensures DirEntryFor(s, p, name, m).value.index < NUM_INODE_PTRS
  {
    AddMakes(s.disk, s.disk[s.inodeMap[p]], name, m);
    MakesIndex(s.disk, s.disk[s.inodeMap[p]], DirEntryFor(s, p, name, m).value,
               AddEntry(Slots(s.disk, s.disk[s.inodeMap[p]]), name, m).value);
  }

  function DoCreate(s: Lfs, force: bool, path: seq<string>, isFile: bool, m: int): (Lfs, Outcome)
    requires Good(s)
  {
    WalkDir(s, path);
    match WalkPath(View(s), path)
    case Aborts => (s, Crash)
    case Missing => (s, Fail)
    case Reached(inum, name, p) =>
      if inum != -1 || !(0 <= m < NUM_INODES) then (s, Fail)
      else match DirEntryFor(s, p, name, m)
           case None => (s, Fail)
           case Some(ch) =>
             EntryIndex(s, p, name, m);
             (CreateLog(s, force, p, ch, isFile, m), Done(0))
  }

  function DoLink(s: Lfs, force: bool, srcPath: seq<string>, dstPath: seq<string>): (Lfs, Outcome)
    requires Good(s)
  {
    WalkDir(s, srcPath);
    WalkDir(s, dstPath);
    match WalkPath(View(s), srcPath)
    case Aborts => (s, Crash)
    case Missing => (s, Fail)
    case Reached(src, _, _) =>
      if !(0 <= src < NUM_INODES) || !IsFileAt(s, src) then (s, Fail)
      else match WalkPath(View(s), dstPath)
           case Aborts => (s, Crash)
           case Missing => (s, Crash)
           case Reached(dst, name, p) =>
             if dst != -1 then (s, Fail)
             else match DirEntryFor(s, p, name, src)
                  case None => (s, Fail)
                  case Some(ch) =>
                    EntryIndex(s, p, name, src);
                    (LinkLog(s, force, src, p, ch), Done(0))
  }

  function DoWrite(s: Lfs, force: bool, path: seq<string>, offset: int, contents: seq<string>): (Lfs, Outcome)
    requires Good(s)
  {
    match WalkPath(View(s), path)
    case Aborts => (s, Crash)
    case Missing => (s, Fail)
    case Reached(n, _, _) =>
      if !(0 <= n < NUM_INODES) || !IsFileAt(s, n) || !(0 <= offset < NUM_INODE_PTRS) then (s, Fail)
      else (WriteLog(s, force, n, offset, contents), Done(Fitting(offset, |contents|)))
  }

  function DoDelete(s: Lfs, force: bool, path: seq<string>): (Lfs, Outcome)
    requires Good(s)
  {
    WalkDir(s, path);
    match WalkPath(View(s), path)
    case Aborts => (s, Crash)
    case Missing => (s, Fail)
    case Reached(n, name, p) =>
      if !(0 <= n < NUM_INODES) || !IsFileAt(s, n) then (s, Fail)
      else
        var i := First(Slots(s.disk, s.disk[s.inodeMap[p]]), name);
        if i == -1 then (s, Crash) else (DeleteLog(s, force, n, p, i), Done(0))
  }

  lemma DoDeleteFound(s: Lfs, force: bool, path: seq<string>, n: nat, name: string, p: nat)
    requires Good(s) && WalkPath(View(s), path) == Reached(n, name, p) && n < NUM_INODES && p < NUM_INODES
    requires IsDirAt(s, p) && IsFileAt(s, n) && Edge(View(s), p, name) == n
    ensures var i := First(Slots(s.disk, s.disk[s.inodeMap[p]]), name);
            i != -1 && DoDelete(s, force, path) == (DeleteLog(s, force, n, p, i), Done(0))
  {
    DirAt(s, p);
  }

  function Do(s: Lfs, force: bool, op: Op): (Lfs, Outcome)
    requires Good(s)
  {
    match op
    case CreateOp(path, isFile, m) => DoCreate(s, force, path, isFile, m)
    case LinkOp(src, dst) => DoLink(s, force, src, dst)
    case WriteOp(path, offset, contents) => DoWrite(s, force, path, offset, contents)
    case DeleteOp(path) => DoDelete(s, force, path)
    case SyncOp => (Sync(s), Done(0))
  }

  // ---------- On the tree ----------

  function DoFs(fs: Fs, op: Op): (Fs, Outcome) {
    match op
    case CreateOp(path, isFile, m) => Create(fs, path, isFile, m)
    case LinkOp(src, dst) => Link(fs, src, dst)
    case WriteOp(path, offset, contents) => Write(fs, path, offset, contents)
    case DeleteOp(path) => Delete(fs, path)
    case SyncOp => (fs, Done(0))
  }

  /** A created or linked name is not the mark of an empty slot; the allocator picks a free inode. */
  predicate Allowed(fs: Fs, op: Op) {
    match op
    case CreateOp(path, isFile, m) =>
      && (m == -1 || (0 <= m < |fs| && fs[m].Free?))
      && (WalkPath(fs, path).Reached? ==> WalkPath(fs, path).name != "-")
    case LinkOp(src, dst) => WalkPath(fs, dst).Reached? ==> WalkPath(fs, dst).name != "-"
    case _ => true
  }

  /** A link's source and its destination's directory share a chunk of the inode map. */
  predicate SharesChunk(fs: Fs, op: Op) {
    op.LinkOp? && WalkPath(fs, op.src).Reached? && WalkPath(fs, op.dst).Reached? ==>
      WalkPath(fs, op.src).inum / INODES_PER_CHUNK == WalkPath(fs, op.dst).parent / INODES_PER_CHUNK
  }

  lemma NotFound(fs: Fs, p: nat, name: string)
    requires FsOk(fs) && p < |fs| && fs[p].Dir? && name != "-" && Edge(fs, p, name) == -1
    ensures First(fs[p].slots, name) == -1
  {
    assert NodeOk(fs, p);
    var i := First(fs[p].slots, name);
    assert i != -1 ==> SlotOk(fs, fs[p].slots[i]);
  }

  /** Whatever a path leads to is -1 or an inode in use: the lookups' assertions on addresses hold. */
  lemma EdgeLive(fs: Fs, d: int, name: string)
    requires FsOk(fs)
    ensures var e := Edge(fs, d, name); e == -1 || (0 <= e < |fs| && !fs[e].Free?)
  {
    if 0 <= d < |fs| && fs[d].Dir? {
      assert NodeOk(fs, d);
      var i := First(fs[d].slots, name);
      if i != -1 {
        assert SlotOk(fs, fs[d].slots[i]);
      }
    }
  }

  /** Every command keeps the reference counts right. */
  lemma DoFsOk(fs: Fs, op: Op)
    requires FsOk(fs) && Allowed(fs, op)
    ensures FsOk(DoFs(fs, op).0)
  {
    match op
    case CreateOp(path, isFile, m) =>
      var r := WalkPath(fs, path);
      if r.Reached? && DoFs(fs, op).1.Done? {
        WalkReaches(fs, ROOT_INODE, Below(path));
        NotFound(fs, r.parent, r.name);
        CreatedOk(fs, r.parent, r.name, isFile, m);
      }
    case LinkOp(src, dst) =>
      var r := WalkPath(fs, dst);
      if r.Reached? && DoFs(fs, op).1.Done? {
        WalkReaches(fs, ROOT_INODE, Below(dst));
        NotFound(fs, r.parent, r.name);
        LinkedOk(fs, WalkPath(fs, src).inum, r.parent, r.name);
      }
    case WriteOp(path, offset, contents) =>
      if DoFs(fs, op).1.Done? {
        WrittenOk(fs, WalkPath(fs, path).inum, offset, contents);
      }
    case DeleteOp(path) =>
      var r := WalkPath(fs, path);
      if r.Reached? && DoFs(fs, op).1.Done? {
        WalkReaches(fs, ROOT_INODE, Below(path));
        DeletedOk(fs, r.inum, r.parent, r.name);
      }
    case SyncOp =>
  }

  // ---------- The log follows the tree ----------

  ghost predicate Inv(s: Lfs) {
    Good(s) && FsOk(View(s)) && Matches(s)
  }

  /** A command changes memory as it changes the tree, and fails when the tree's fails, changing nothing. */
  ghost predicate Follows(s: Lfs, force: bool, op: Op)
    requires Good(s)
  {
    var (t, out) := Do(s, force, op);
    var (fs, out2) := DoFs(View(s), op);
    && out == out2
    && (if op.SyncOp? then t == Sync(s)
        else if out.Done? then Ends(s, t, fs, force, SharesChunk(View(s), op))
        else t == s && fs == View(s))
  }

  lemma CreateInFollows(s: Lfs, force: bool, path: seq<string>, isFile: bool, m: nat, r: Walk)
    requires Good(s) && r == WalkPath(View(s), path) && r.Reached? && r.inum == -1 && m < NUM_INODES
    ensures Follows(s, force, CreateOp(path, isFile, m))
  {
    WalkDir(s, path);
    DirAt(s, r.parent);
    AddMakes(s.disk, s.disk[s.inodeMap[r.parent]], r.name, m);
    if DirEntryFor(s, r.parent, r.name, m).Some? {
      CreateEnds(s, force, r.parent, r.name, isFile, m);
    }
  }

  lemma CreateFollows(s: Lfs, force: bool, path: seq<string>, isFile: bool, m: int)
    requires Good(s)
    ensures Follows(s, force, CreateOp(path, isFile, m))
  {
    WalkDir(s, path);
    var r := WalkPath(View(s), path);
    if r.Reached? && r.inum == -1 && 0 <= m < NUM_INODES {
      CreateInFollows(s, force, path, isFile, m, r);
    }
  }

  lemma LinkToFollows(s: Lfs, force: bool, src: seq<string>, dst: seq<string>, n: nat)
    requires Good(s) && WalkPath(View(s), src).Reached? && WalkPath(View(s), src).inum == n < NUM_INODES
             && IsFileAt(s, n)
    ensures Follows(s, force, LinkOp(src, dst))
  {
    WalkDir(s, src);
    WalkDir(s, dst);
    DirAt(s, n);
    var q := WalkPath(View(s), dst);
    if q.Reached? && q.inum == -1 {
      DirAt(s, q.parent);
      AddMakes(s.disk, s.disk[s.inodeMap[q.parent]], q.name, n);
      if DirEntryFor(s, q.parent, q.name, n).Some? {
        LinkEnds(s, force, n, q.parent, q.name);
      }
    }
  }

  lemma LinkFollows(s: Lfs, force: bool, src: seq<string>, dst: seq<string>)
    requires Good(s)
    ensures Follows(s, force, LinkOp(src, dst))
  {
    WalkDir(s, src);
    var r := WalkPath(View(s), src);
    if r.Reached? && 0 <= r.inum < NUM_INODES {
      DirAt(s, r.inum);
      if IsFileAt(s, r.inum) {
        LinkToFollows(s, force, src, dst, r.inum);
      }
    }
  }

  lemma WriteFollows(s: Lfs, force: bool, path: seq<string>, offset: int, contents: seq<string>)
    requires Good(s)
    ensures Follows(s, force, WriteOp(path, offset, contents))
  {
    var r := WalkPath(View(s), path);
    if r.Reached? && 0 <= r.inum < NUM_INODES {
      DirAt(s, r.inum);
      if IsFileAt(s, r.inum) && 0 <= offset < NUM_INODE_PTRS {
        WriteEnds(s, force, r.inum, offset, contents);
      }
    }
  }

  lemma DeleteFollows(s: Lfs, force: bool, path: seq<string>)
    requires Good(s)
    ensures Follows(s, force, DeleteOp(path))
  {
    WalkDir(s, path);
    var r := WalkPath(View(s), path);
    if r.Reached? && 0 <= r.inum < NUM_INODES {
      DirAt(s, r.inum);
      DirAt(s, r.parent);
      var i := First(Slots(s.disk, s.disk[s.inodeMap[r.parent]]), r.name);
      if IsFileAt(s, r.inum) && i != -1 {
        DeleteEnds(s, force, r.inum, r.parent, i);
      }
    }
  }

  lemma DoFollows(s: Lfs, force: bool, op: Op)
    requires Good(s)
    ensures Follows(s, force, op)
  {
    match op
    case CreateOp(path, isFile, m) => CreateFollows(s, force, path, isFile, m);
    case LinkOp(src, dst) => LinkFollows(s, force, src, dst);
    case WriteOp(path, offset, contents) => WriteFollows(s, force, path, offset, contents);
    case DeleteOp(path) => DeleteFollows(s, force, path);
    case SyncOp =>
  }

  /** The tree on disk after a command: the new one if a checkpoint was written, else the old. */
  function Saves(force: bool, op: Op, out: Outcome): bool {
    op.SyncOp? || (force && out.Done?)
  }

  /** One command, from a state where the chunks match. */
  lemma StepKeeps(s: Lfs, force: bool, op: Op)
    requires Inv(s) && Allowed(View(s), op) && SharesChunk(View(s), op)
    ensures var (t, out) := Do(s, force, op);
            var (fs, out2) := DoFs(View(s), op);
            && Inv(t) && View(t) == fs && out == out2 && Grows(s.disk, t.disk)
            && DiskTree(t.disk) == (if Saves(force, op, out) then fs else DiskTree(s.disk))
            && (Synced(s) && force ==> Synced(t))
  {
    DoFollows(s, force, op);
    DoFsOk(View(s), op);
    if op.SyncOp? {
      SyncKeeps(s);
      GrowsSync(s);
    }
  }

  // ---------- Runs ----------

  function Run(s: Lfs, force: bool, ops: seq<Op>): Lfs
    requires Good(s)
    decreases |ops|
  {
    if ops == [] then s
    else
      DoGood(s, force, ops[0]);
      Run(Do(s, force, ops[0]).0, force, ops[1..])
  }

  lemma DoGood(s: Lfs, force: bool, op: Op)
    requires Good(s)
    ensures Good(Do(s, force, op).0)
  {
    DoFollows(s, force, op);
    SyncKeeps(s);
  }

  function RunFs(fs: Fs, ops: seq<Op>): Fs
    decreases |ops|
  {
    if ops == [] then fs else RunFs(DoFs(fs, ops[0]).0, ops[1..])
  }

  /** The tree as of the last checkpoint. */
  function SavedFs(saved: Fs, fs: Fs, force: bool, ops: seq<Op>): Fs
    decreases |ops|
  {
    if ops == [] then saved
    else
      var (fs2, out) := DoFs(fs, ops[0]);
      SavedFs(if Saves(force, ops[0], out) then fs2 else saved, fs2, force, ops[1..])
  }

  predicate AllAllowed(fs: Fs, ops: seq<Op>)
    decreases |ops|
  {
    ops == [] || (Allowed(fs, ops[0]) && AllAllowed(DoFs(fs, ops[0]).0, ops[1..]))
  }

  predicate AllShareChunks(fs: Fs, ops: seq<Op>)
    decreases |ops|
  {
    ops == [] || (SharesChunk(fs, ops[0]) && AllShareChunks(DoFs(fs, ops[0]).0, ops[1..]))
  }

  /** After any run, whatever chunks its links join, memory stands for the tree the commands make. Without forced
      checkpoints, and with none asked for, the disk goes on standing for the tree it did. */
  lemma {:induction false} MemoryIsTree(s: Lfs, force: bool, ops: seq<Op>)
    requires Good(s) && FsOk(View(s)) && AllAllowed(View(s), ops)
    ensures var t := Run(s, force, ops);
            && Good(t) && FsOk(View(t)) && View(t) == RunFs(View(s), ops) && Grows(s.disk, t.disk)
            && (!force && (forall k :: 0 <= k < |ops| ==> !ops[k].SyncOp?) ==> DiskTree(t.disk) == DiskTree(s.disk))
    decreases |ops|
  {
    if ops != [] {
      DoFollows(s, force, ops[0]);
      DoFsOk(View(s), ops[0]);
      SyncKeeps(s);
      GrowsSync(s);
      var t := Do(s, force, ops[0]).0;
      MemoryIsTree(t, force, ops[1..]);
      GrowsTrans(s.disk, t.disk, Run(t, force, ops[1..]).disk);
    }
  }

  /** After any run, memory stands for the tree the commands make, the disk for the tree at the last checkpoint,
      and no block but the first was overwritten. */
  lemma {:induction false} RunIsTree(s: Lfs, force: bool, ops: seq<Op>)
    requires Inv(s) && AllAllowed(View(s), ops) && AllShareChunks(View(s), ops)
    ensures var t := Run(s, force, ops);
            && Inv(t) && View(t) == RunFs(View(s), ops) && Grows(s.disk, t.disk)
            && DiskTree(t.disk) == SavedFs(DiskTree(s.disk), View(s), force, ops)
            && (Synced(s) && force ==> Synced(t))
    decreases |ops|
  {
    if ops != [] {
      StepKeeps(s, force, ops[0]);
      var t := Do(s, force, ops[0]).0;
      RunIsTree(t, force, ops[1..]);
      GrowsTrans(s.disk, t.disk, Run(t, force, ops[1..]).disk);
    }
  }

  // ---------- The start ----------

  const FIRST_CR: seq<int> := [3, -1, -1, -1, -1, -1, -1, -1, -1, -1, -1, -1, -1, -1, -1, -1]
  const FIRST_CHUNK: seq<int> := [2, -1, -1, -1, -1, -1, -1, -1, -1, -1, -1, -1, -1, -1, -1, -1]

  function NoInodes(): (r: seq<int>)
    ensures |r| == NUM_INODES && forall n :: 0 <= n < |r| ==> r[n] == -1
  {
    seq(NUM_INODES, _ => -1)
  }

  function Init(): Lfs {
    Lfs([Checkpoint(FIRST_CR), DirBlock(NewDirSlots(ROOT_INODE, ROOT_INODE)),
         Inode(true, 1, 2, NO_PTRS[0 := 1]), Imap(FIRST_CHUNK)],
        FIRST_CR, NoInodes()[ROOT_INODE := 2])
  }

  lemma InitEntries()
    ensures EntryOk(Init().disk, 2) && NodeOf(Init().disk, 2) == Dir(2, NewDirSlots(ROOT_INODE, ROOT_INODE))
    ensures forall k :: 0 <= k < 16 ==> FIRST_CHUNK[k] == -1 || FIRST_CHUNK[k] == 2
    ensures forall k :: 0 <= k < 16 ==> FIRST_CR[k] == -1 || FIRST_CR[k] == 3
  {
    var d, b := Init().disk, Init().disk[2];
    assert DirPtr(d, b.pointers[0]);
    assert DirSlots(d, b.pointers, 0) == [];
    assert DirSlots(d, b.pointers, 1) == NewDirSlots(ROOT_INODE, ROOT_INODE);
  }

  lemma InitMaps()
    ensures MapOk(Init().disk, Init().inodeMap) && CrOk(Init().disk, FIRST_CR) && Ordered(Init().disk)
  {
    var s := Init();
    InitEntries();
    forall n | 0 <= n < NUM_INODES
      ensures EntryOk(s.disk, s.inodeMap[n])
    {
    }
    assert ImapOk(s.disk, 3);
    forall c | 0 <= c < NUM_CHUNKS
      ensures ImapOk(s.disk, s.cr[c])
    {
    }
  }

  lemma InitMatches()
    ensures Matches(Init())
  {
    var s := Init();
    forall c: nat | c < NUM_CHUNKS
      ensures ChunkMatches(s, c)
    {
      if c == 0 {
        assert ChunkOf(s.inodeMap, 0) == FIRST_CHUNK;
      } else {
        assert FIRST_CR[c] == -1;
      }
    }
  }

  lemma InitInv()
    ensures Inv(Init()) && Synced(Init()) && View(Init()) == Start()
  {
    InitMaps();
    InitEntries();
    InitMatches();
    StartOk();
    assert View(Init()) == Start();
  }

  /** The state after the commands. */
  function After(force: bool, ops: seq<Op>): Lfs {
    InitInv();
    Run(Init(), force, ops)
  }

  /** With forced checkpoints, after any run the checkpoint on disk and the map in memory agree on every inode. */
  lemma ForcedAgree(ops: seq<Op>, n: nat)
    requires AllAllowed(Start(), ops) && AllShareChunks(Start(), ops) && n < NUM_INODES
    ensures var t := After(true, ops);
            && Good(t) && FsOk(View(t)) && View(t) == RunFs(Start(), ops)
            && Address(t, true, n) == Address(t, false, n) && DiskTree(t.disk) == View(t)
  {
    InitInv();
    RunIsTree(Init(), true, ops);
    LookupsAgree(After(true, ops), n);
  }

  /** Without them the disk holds the tree of the last checkpoint asked for, while memory holds the current one. */
  lemma UnforcedSaved(ops: seq<Op>)
    requires AllAllowed(Start(), ops) && AllShareChunks(Start(), ops)
    ensures var t := After(false, ops);
            && Good(t) && FsOk(View(t)) && View(t) == RunFs(Start(), ops)
            && DiskTree(t.disk) == SavedFs(Start(), Start(), false, ops)
  {
    InitInv();
    LookupsAgree(Init(), 0);
    RunIsTree(Init(), false, ops);
  }

  /** With none asked for, that is the tree there was at the start. */
  lemma {:induction false} UnforcedKeeps(saved: Fs, fs: Fs, ops: seq<Op>)
    requires forall k :: 0 <= k < |ops| ==> !ops[k].SyncOp?
    ensures SavedFs(saved, fs, false, ops) == saved
    decreases |ops|
  {
    if ops != [] {
      UnforcedKeeps(saved, DoFs(fs, ops[0]).0, ops[1..]);
    }
  }
}
