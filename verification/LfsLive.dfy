/**
 Which blocks of the log in lfs.py are live. An operation logs live blocks only, what is dead stays dead, and the
 live blocks alone hold the tree.
 */
module LfsLive {
  import opened LfsTree
  import opened LfsLog
  import opened LfsOps
  import opened LfsRun

  /** The inode at an address points to the block. */
  predicate Points(d: seq<Block>, a: int, b: int) {
    0 <= a < |d| && d[a].Inode? && b in d[a].pointers
  }

  /** The checkpoint, the latest map chunks, the latest inodes and what these point to. */
  ghost predicate Live(s: Lfs, b: int) {
    0 <= b < |s.disk| && (b == 0 || b in s.cr || b in s.inodeMap || PointedTo(s, b))
  }

  ghost predicate PointedTo(s: Lfs, b: int) {
    exists n :: 0 <= n < |s.inodeMap| && Points(s.disk, s.inodeMap[n], b)
  }

  // ---------- What is live is all that matters ----------

  ghost predicate SameLive(s: Lfs, d: seq<Block>) {
    |d| == |s.disk| && forall b :: Live(s, b) ==> d[b] == s.disk[b]
  }

  lemma LiveInode(s: Lfs, d: seq<Block>, n: nat)
    requires Good(s) && SameLive(s, d) && n < NUM_INODES
    ensures EntryOk(d, s.inodeMap[n]) && NodeOf(d, s.inodeMap[n]) == NodeOf(s.disk, s.inodeMap[n])
  {
    var a := s.inodeMap[n];
    assert EntryOk(s.disk, a);
    if a != -1 {
      assert Live(s, a);
      var b := s.disk[a];
      forall k | 0 <= k < |b.pointers| && 0 <= b.pointers[k] < |d|
        ensures d[b.pointers[k]] == s.disk[b.pointers[k]]
      {
        assert Points(s.disk, s.inodeMap[n], b.pointers[k]);
        assert Live(s, b.pointers[k]);
      }
      SameBlocks(s.disk, d, b);
    }
  }

  lemma SameBlocks(d: seq<Block>, d2: seq<Block>, b: Block)
    requires InodeBlockOk(d, b) && |d2| == |d|
    requires forall k :: 0 <= k < |b.pointers| && 0 <= b.pointers[k] < |d| ==> d2[b.pointers[k]] == d[b.pointers[k]]
    ensures InodeBlockOk(d2, b) && NodeOfBlock(d2, b) == NodeOfBlock(d, b)
  {
    if b.isDir {
      SameSlots(d, d2, b.pointers, b.size);
    } else {
      forall k | 0 <= k < |b.pointers|
        ensures DataPtr(d2, b.pointers[k])
      {
        assert DataPtr(d, b.pointers[k]);
      }
    }
  }

  lemma {:induction false} SameSlots(d: seq<Block>, d2: seq<Block>, ptrs: seq<int>, k: nat)
    requires |d2| == |d| && k <= |ptrs| && forall j :: 0 <= j < k ==> DirPtr(d, ptrs[j]) && Same(d, d2, ptrs[j])
    ensures forall j :: 0 <= j < k ==> DirPtr(d2, ptrs[j])
    ensures DirSlots(d2, ptrs, k) == DirSlots(d, ptrs, k)
  {
    if k > 0 {
      SameSlots(d, d2, ptrs, k - 1);
      assert DirPtr(d, ptrs[k - 1]);
    }
  }

  /** Whatever else the dead blocks come to hold, memory stands for the same tree, and so does the disk if the
      checkpoint is up to date. */
  lemma LiveIsEnough(s: Lfs, d: seq<Block>)
    requires Good(s) && SameLive(s, d)
    ensures MapOk(d, s.inodeMap) && Tree(d, s.inodeMap) == View(s)
    ensures Matches(s) && Synced(s) ==> DiskOk(d) && DiskTree(d) == DiskTree(s.disk)
  {
    forall n | 0 <= n < NUM_INODES
      ensures EntryOk(d, s.inodeMap[n]) && NodeOf(d, s.inodeMap[n]) == NodeOf(s.disk, s.inodeMap[n])
    {
      LiveInode(s, d, n);
    }
    if Matches(s) && Synced(s) {
      LiveChunks(s, d);
      LookupsAgree(s, 0);
      MatchingMap(s);
      MatchingMap(s.(disk := d));
    }
  }

  lemma LiveChunk(s: Lfs, d: seq<Block>, c: nat)
    requires Good(s) && SameLive(s, d) && Matches(s) && MapOk(d, s.inodeMap) && c < NUM_CHUNKS
    ensures ImapOk(d, s.cr[c]) && ChunkMatches(s.(disk := d), c)
  {
    var e := s.cr[c];
    assert ImapOk(s.disk, e) && ChunkMatches(s, c);
    if e != -1 {
      assert Live(s, e);
      forall k | 0 <= k < INODES_PER_CHUNK
        ensures EntryOk(d, d[e].entries[k])
      {
        assert ChunkOf(s.inodeMap, c)[k] == s.inodeMap[c * INODES_PER_CHUNK + k];
      }
    }
  }

  lemma LiveChunks(s: Lfs, d: seq<Block>)
    requires Good(s) && SameLive(s, d) && Matches(s) && MapOk(d, s.inodeMap) && Synced(s)
    ensures CrOk(d, s.cr) && Matches(s.(disk := d)) && DiskOk(d) && d[0].entries == s.cr
  {
    forall c: nat | c < NUM_CHUNKS
      ensures ImapOk(d, s.cr[c]) && ChunkMatches(s.(disk := d), c)
    {
      LiveChunk(s, d, c);
    }
    assert Live(s, 0);
  }

  // ---------- What an operation makes live ----------

  /** What t has logged since s is live, and nothing that was dead is live again. */
  ghost predicate Renews(s: Lfs, t: Lfs) {
    && |s.disk| <= |t.disk|
    && (forall b :: |s.disk| <= b < |t.disk| ==> Live(t, b))
    && (forall b :: 0 <= b < |s.disk| && Live(t, b) ==> Live(s, b))
  }

  /** The address may take the place of inode n's: none, the same, or a new inode that points to new blocks and to
      blocks the inode pointed to. */
  predicate Replaces(s: Lfs, d: seq<Block>, n: nat, a: int)
    requires n < |s.inodeMap|
  {
    a == -1 || a == s.inodeMap[n] || (|s.disk| <= a < |d| && d[a].Inode? && OldPtrs(s, d[a].pointers, s.inodeMap[n]))
  }

  predicate OldPtrs(s: Lfs, ptrs: seq<int>, a: int) {
    forall k :: 0 <= k < |ptrs| ==> ptrs[k] < 0 || |s.disk| <= ptrs[k] || Points(s.disk, a, ptrs[k])
  }

  predicate Under(d: seq<Block>, a: int, b: int) {
    a == b || Points(d, a, b)
  }

  ghost predicate Extends(s: Lfs, t: Lfs) {
    && t.inodeMap == s.inodeMap && |t.cr| == |s.cr| && |s.disk| <= |t.disk|
    && (forall a :: 0 < a < |s.disk| ==> t.disk[a] == s.disk[a])
    && (forall b :: |s.disk| <= b < |t.disk| ==> b in t.cr)
    && (forall c :: 0 <= c < |t.cr| ==> t.cr[c] == s.cr[c] || |s.disk| <= t.cr[c])
  }

  lemma {:induction false} ChunksAreLive(s: Lfs, inums: seq<nat>, chunks: seq<nat>)
    requires |s.inodeMap| == NUM_INODES && |s.cr| == NUM_CHUNKS
    requires forall k :: 0 <= k < |inums| ==> inums[k] < NUM_INODES
    ensures Extends(s, UpdateImap(s, inums, chunks))
    ensures forall c :: c in chunks && c < NUM_CHUNKS ==> UpdateImap(s, inums, chunks).cr[c] == s.cr[c]
    decreases |inums|
  {
    if inums != [] {
      var c := inums[0] / INODES_PER_CHUNK;
      if c in chunks {
        ChunksAreLive(s, inums[1..], chunks);
      } else {
        var s1 := LogChunk(s, c);
        ChunksAreLive(s1, inums[1..], chunks + [c]);
        var t := UpdateImap(s1, inums[1..], chunks + [c]);
        assert c in chunks + [c] && t.cr[c] == |s.disk|;
      }
    }
  }

  /** The blocks logged before a commit are under the addresses committed. */
  ghost predicate AllUnder(d: seq<Block>, from: nat, a1: int, a2: int) {
    forall b :: from <= b < |d| ==> Under(d, a1, b) || Under(d, a2, b)
  }

  lemma CommitRenews(s: Lfs, bs: seq<Block>, n1: nat, a1: int, n2: nat, a2: int, inums: seq<nat>, force: bool)
    requires Good(s) && n1 < NUM_INODES && n2 < NUM_INODES && (n1 == n2 ==> a1 == a2)
    requires forall k :: 0 <= k < |inums| ==> inums[k] < NUM_INODES
    requires Replaces(s, s.disk + bs, n1, a1) && Replaces(s, s.disk + bs, n2, a2)
    requires AllUnder(s.disk + bs, |s.disk|, a1, a2)
    ensures Renews(s, Commit(LogAll(s, bs), n1, a1, n2, a2, inums, force))
  {
    var s1, t := LogAll(s, bs), Commit(LogAll(s, bs), n1, a1, n2, a2, inums, force);
    var s2 := Remap(Remap(s1, n1, a1), n2, a2);
    ChunksAreLive(s2, inums, []);
    assert t.inodeMap == s.inodeMap[n1 := a1][n2 := a2];
    forall b | |s.disk| <= b < |t.disk|
      ensures Live(t, b)
    {
      if b < |s1.disk| {
        if Under(s1.disk, a1, b) {
          NewIsLive(s1.disk, t, n1, a1, b);
        } else {
          NewIsLive(s1.disk, t, n2, a2, b);
        }
      }
    }
    forall b | 0 <= b < |s.disk| && Live(t, b)
      ensures Live(s, b)
    {
      OldWasLive(s, s1.disk, t, n1, a1, n2, a2, b);
    }
  }

  lemma NewIsLive(d: seq<Block>, t: Lfs, n: nat, a: int, b: int)
    requires n < |t.inodeMap| && t.inodeMap[n] == a && a != 0 && 0 < b < |d| <= |t.disk| && Under(d, a, b)
    requires forall a :: 0 < a < |d| ==> t.disk[a] == d[a]
    ensures Live(t, b)
  {
    if a == b {
      assert b in t.inodeMap;
    } else {
      assert Points(t.disk, t.inodeMap[n], b);
    }
  }

  /** The map of t is that of s with two inodes replaced. */
  ghost predicate Renewed(s: Lfs, d: seq<Block>, t: Lfs, n1: nat, a1: int, n2: nat, a2: int) {
    && n1 < |s.inodeMap| && n2 < |s.inodeMap| && t.inodeMap == s.inodeMap[n1 := a1][n2 := a2]
    && Replaces(s, d, n1, a1) && Replaces(s, d, n2, a2) && (n1 == n2 ==> a1 == a2)
    && |s.disk| <= |d| <= |t.disk| && (forall a :: 0 < a < |d| ==> t.disk[a] == d[a])
    && (forall a :: 0 < a < |s.disk| ==> d[a] == s.disk[a])
    && |t.cr| == |s.cr| && (forall c :: 0 <= c < |t.cr| ==> t.cr[c] == s.cr[c] || |d| <= t.cr[c])
  }

  lemma OldWasLive(s: Lfs, d: seq<Block>, t: Lfs, n1: nat, a1: int, n2: nat, a2: int, b: int)
    requires Good(s) && Renewed(s, d, t, n1, a1, n2, a2) && 0 <= b < |s.disk| && Live(t, b)
    ensures Live(s, b)
  {
    if b != 0 && b !in s.cr && b !in s.inodeMap {
      assert b !in t.inodeMap;
      var n :| 0 <= n < |t.inodeMap| && Points(t.disk, t.inodeMap[n], b);
      OldPointed(s, d, t, n1, a1, n2, a2, b, n);
    }
  }

  lemma OldPointed(s: Lfs, d: seq<Block>, t: Lfs, n1: nat, a1: int, n2: nat, a2: int, b: int, n: nat)
    requires Good(s) && Renewed(s, d, t, n1, a1, n2, a2) && 0 <= b < |s.disk|
    requires n < |t.inodeMap| && Points(t.disk, t.inodeMap[n], b)
    ensures Points(s.disk, s.inodeMap[n], b)
  {
    var a := t.inodeMap[n];
    assert Replaces(s, d, n, a);
    assert EntryOk(s.disk, s.inodeMap[n]);
    if a == s.inodeMap[n] {
      assert t.disk[a] == s.disk[a];
    } else {
      var k :| 0 <= k < |d[a].pointers| && d[a].pointers[k] == b;
    }
  }

  // ---------- The operations ----------

  lemma PtrsStay(s: Lfs, n: nat)
    requires Good(s) && n < NUM_INODES && s.inodeMap[n] != -1
    ensures var a := s.inodeMap[n];
            && 0 < a < |s.disk| && s.disk[a].Inode? && |s.disk[a].pointers| == NUM_INODE_PTRS
            && OldPtrs(s, s.disk[a].pointers, a)
  {
    assert EntryOk(s.disk, s.inodeMap[n]);
  }

  lemma DirReplaces(s: Lfs, d: seq<Block>, p: nat, ch: Change, refs: int, a: int)
    requires Good(s) && p < NUM_INODES && IsDirAt(s, p) && ch.index < NUM_INODE_PTRS && |s.disk| <= a < |d|
    requires d[a] == ChangedInode(s.disk[s.inodeMap[p]], ch, |s.disk|, refs)
    ensures Replaces(s, d, p, a) && Points(d, a, |s.disk|)
  {
    PtrsStay(s, p);
    var ptrs := s.disk[s.inodeMap[p]].pointers;
    assert d[a].pointers[ch.index] == |s.disk|;
    forall k | 0 <= k < |d[a].pointers|
      ensures d[a].pointers[k] < 0 || |s.disk| <= d[a].pointers[k] || Points(s.disk, s.inodeMap[p], d[a].pointers[k])
    {
      assert ptrs[k] < 0 || |s.disk| <= ptrs[k] || Points(s.disk, s.inodeMap[p], ptrs[k]);
    }
  }

  lemma CreateRenews(s: Lfs, force: bool, p: nat, ch: Change, isFile: bool, m: nat)
    requires Good(s) && p < NUM_INODES && m < NUM_INODES && IsDirAt(s, p) && s.inodeMap[m] == -1
    requires ch.index < NUM_INODE_PTRS
    ensures Renews(s, CreateLog(s, force, p, ch, isFile, m))
  {
    var b := s.disk[s.inodeMap[p]];
    var bs := CreateBlocks(s, b, ch, p, isFile, m);
    var d, last := s.disk + bs, |s.disk| + |bs|;
    DirReplaces(s, d, p, ch, b.refs + if isFile then 0 else 1, last - 2);
    assert d[last - 1] == NewInode(isFile, |s.disk| + 1);
    if !isFile {
      assert d[last - 1].pointers[0] == |s.disk| + 1;
    }
    CommitRenews(s, bs, p, last - 2, m, last - 1, [p, m], force);
  }

  lemma LinkRenews(s: Lfs, force: bool, src: nat, p: nat, ch: Change)
    requires Good(s) && p < NUM_INODES && src < NUM_INODES && IsDirAt(s, p) && IsFileAt(s, src)
    requires ch.index < NUM_INODE_PTRS
    ensures Renews(s, LinkLog(s, force, src, p, ch))
  {
    var b := s.disk[s.inodeMap[p]];
    var bs := LinkBlocks(s, b, ch, s.disk[s.inodeMap[src]]);
    var d, n := s.disk + bs, |s.disk|;
    assert d[n + 1] == bs[1] && d[n + 2] == bs[2];
    DirReplaces(s, d, p, ch, b.refs, n + 1);
    PtrsStay(s, src);
    CommitRenews(s, bs, p, n + 1, src, n + 2, [p], force);
  }

  lemma DeleteRenews(s: Lfs, force: bool, n: nat, p: nat, i: nat)
    requires Good(s) && p < NUM_INODES && n < NUM_INODES && IsDirAt(s, p) && IsFileAt(s, n)
    requires i < SLOTS_PER_BLOCK * s.disk[s.inodeMap[p]].size
    ensures Renews(s, DeleteLog(s, force, n, p, i))
  {
    var b, f := s.disk[s.inodeMap[p]], s.disk[s.inodeMap[n]];
    var ch := SetSlot(s.disk, b, i, EMPTY);
    var bs := DeleteBlocks(s, b, ch, f);
    var d, end := s.disk + bs, |s.disk|;
    assert d[end + 1] == bs[1] && (f.refs > 1 ==> d[end + 2] == bs[2]);
    DirReplaces(s, d, p, ch, b.refs, end + 1);
    PtrsStay(s, n);
    CommitRenews(s, bs, n, if f.refs == 1 then -1 else if f.refs > 1 then end + 2 else s.inodeMap[n], p, end + 1,
                 [n, p], force);
  }

  lemma WriteRenews(s: Lfs, force: bool, n: nat, offset: nat, contents: seq<string>)
    requires Good(s) && n < NUM_INODES && IsFileAt(s, n) && offset < NUM_INODE_PTRS
    ensures Renews(s, WriteLog(s, force, n, offset, contents))
  {
    var f, k := s.disk[s.inodeMap[n]], Fitting(offset, |contents|);
    var bs := WriteBlocks(s, f, offset, contents);
    var d, a := s.disk + bs, |s.disk| + |bs| - 1;
    PtrsStay(s, n);
    WrittenReplaces(s, d, n, offset, k, a);
    CommitRenews(s, bs, n, a, n, a, [n], force);
    assert UpdateImap(Remap(LogAll(s, bs), n, a), [n], []) == LogChunk(Remap(LogAll(s, bs), n, a), n / INODES_PER_CHUNK)
      by { assert [n][1..] == []; }
    assert Remap(Remap(LogAll(s, bs), n, a), n, a) == Remap(LogAll(s, bs), n, a);
  }

  lemma WrittenReplaces(s: Lfs, d: seq<Block>, n: nat, offset: nat, k: nat, a: int)
    requires Good(s) && n < NUM_INODES && IsFileAt(s, n) && offset + k <= NUM_INODE_PTRS && a == |s.disk| + k < |d|
    requires d[a] == WrittenInode(s.disk[s.inodeMap[n]], offset, k, |s.disk|)
    ensures Replaces(s, d, n, a)
    ensures forall b :: |s.disk| <= b < a ==> Points(d, a, b)
  {
    PtrsStay(s, n);
    var ptrs := s.disk[s.inodeMap[n]].pointers;
    forall k | 0 <= k < |d[a].pointers|
      ensures d[a].pointers[k] < 0 || |s.disk| <= d[a].pointers[k] || Points(s.disk, s.inodeMap[n], d[a].pointers[k])
    {
      assert ptrs[k] < 0 || |s.disk| <= ptrs[k] || Points(s.disk, s.inodeMap[n], ptrs[k]);
    }
    forall b | |s.disk| <= b < a
      ensures Points(d, a, b)
    {
      assert d[a].pointers[offset + (b - |s.disk|)] == b;
    }
  }

  lemma RenewsSelf(s: Lfs)
    ensures Renews(s, s)
  {
  }

  lemma SyncRenews(s: Lfs)
    requires Good(s)
    ensures Renews(s, Sync(s))
  {
    var t := Sync(s);
    forall n, b | 0 <= n < |s.inodeMap| && Points(t.disk, t.inodeMap[n], b)
      ensures Points(s.disk, s.inodeMap[n], b)
    {
      assert EntryOk(s.disk, s.inodeMap[n]);
    }
  }

  /** Every block an operation logs is live after it, and it brings no dead block back. */
  lemma OperationRenews(s: Lfs, force: bool, op: Op)
    requires Good(s) && Allowed(View(s), op)
    ensures Renews(s, Do(s, force, op).0)
  {
    RenewsSelf(s);
    match op
    case CreateOp(path, isFile, m) =>
      WalkDir(s, path);
      var r := WalkPath(View(s), path);
      if r.Reached? && r.inum == -1 && 0 <= m < NUM_INODES && DirEntryFor(s, r.parent, r.name, m).Some? {
        EntryIndex(s, r.parent, r.name, m);
        DirAt(s, m);
        CreateRenews(s, force, r.parent, DirEntryFor(s, r.parent, r.name, m).value, isFile, m);
      }
    case LinkOp(src, dst) => LinkOpRenews(s, force, src, dst);
    case WriteOp(path, offset, contents) =>
      var r := WalkPath(View(s), path);
      if r.Reached? && 0 <= r.inum < NUM_INODES && IsFileAt(s, r.inum) && 0 <= offset < NUM_INODE_PTRS {
        WriteRenews(s, force, r.inum, offset, contents);
      }
    case DeleteOp(path) => DeleteOpRenews(s, force, path);
    case SyncOp => SyncRenews(s);
  }

  lemma LinkOpRenews(s: Lfs, force: bool, src: seq<string>, dst: seq<string>)
    requires Good(s)
    ensures Renews(s, DoLink(s, force, src, dst).0)
  {
    RenewsSelf(s);
    WalkDir(s, dst);
    var n, r := WalkPath(View(s), src), WalkPath(View(s), dst);
    if n.Reached? && 0 <= n.inum < NUM_INODES && IsFileAt(s, n.inum) && r.Reached? && r.inum == -1 {
      if DirEntryFor(s, r.parent, r.name, n.inum).Some? {
        EntryIndex(s, r.parent, r.name, n.inum);
        LinkRenews(s, force, n.inum, r.parent, DirEntryFor(s, r.parent, r.name, n.inum).value);
      }
    }
  }

  lemma DeleteOpRenews(s: Lfs, force: bool, path: seq<string>)
    requires Good(s)
    ensures Renews(s, DoDelete(s, force, path).0)
  {
    RenewsSelf(s);
    WalkDir(s, path);
    var r := WalkPath(View(s), path);
    if r.Reached? && 0 <= r.inum < NUM_INODES && IsFileAt(s, r.inum) {
      var i := First(Slots(s.disk, s.disk[s.inodeMap[r.parent]]), r.name);
      if i != -1 {
        DeleteRenews(s, force, r.inum, r.parent, i);
      }
    }
  }

  // ---------- Runs ----------

  /** Over a run, what is dead stays dead. */
  lemma {:induction false} DeadStaysDead(s: Lfs, force: bool, ops: seq<Op>, b: int)
    requires Good(s) && FsOk(View(s)) && AllAllowed(View(s), ops) && 0 <= b < |s.disk|
    ensures |s.disk| <= |Run(s, force, ops).disk|
    ensures Live(Run(s, force, ops), b) ==> Live(s, b)
    decreases |ops|
  {
    if ops != [] {
      DoFollows(s, force, ops[0]);
      SyncKeeps(s);
      DoFsOk(View(s), ops[0]);
      OperationRenews(s, force, ops[0]);
      DeadStaysDead(Do(s, force, ops[0]).0, force, ops[1..], b);
    }
  }

  /** So after any run from a new disk the dead blocks may be given away: the tree is what the commands made it. */
  lemma CleanedRun(force: bool, ops: seq<Op>, d: seq<Block>)
    requires AllAllowed(Start(), ops) && SameLive(After(force, ops), d)
    ensures var t := After(force, ops); MapOk(d, t.inodeMap) && Tree(d, t.inodeMap) == RunFs(Start(), ops)
  {
    InitInv();
    MemoryIsTree(Init(), force, ops);
    LiveIsEnough(After(force, ops), d);
  }

  // ---------- Marking live blocks ----------

  function Mark(live: seq<bool>, b: int): (r: seq<bool>)
    ensures |r| == |live| && forall k :: 0 <= k < |r| ==> (r[k] <==> live[k] || k == b)
  {
    if 0 <= b < |live| then live[b := true] else live
  }

  /** The marks are on those marked before and on those listed. */
  ghost predicate MarksMore(before: seq<bool>, live: seq<bool>, listed: seq<int>) {
    |live| == |before| && forall k :: 0 <= k < |live| ==> (live[k] <==> before[k] || k in listed)
  }

  method MarkAll(before: seq<bool>, listed: seq<int>) returns (live: seq<bool>)
    ensures MarksMore(before, live, listed)
  {
    live := before;
    for i := 0 to |listed|
      invariant MarksMore(before, live, listed[..i])
    {
      live := Mark(live, listed[i]);
      assert listed[..i + 1] == listed[..i] + [listed[i]];
    }
    assert listed[..|listed|] == listed;
  }

  /** The inodes in use are listed. */
  ghost predicate Lists(inodeMap: seq<int>, inodes: seq<nat>, limit: nat) {
    && (forall k :: 0 <= k < |inodes| ==> inodes[k] < limit <= |inodeMap| && inodeMap[inodes[k]] != -1)
    && (forall n :: 0 <= n < limit <= |inodeMap| && inodeMap[n] != -1 ==> n in inodes)
  }

  ghost predicate PointedFrom(s: Lfs, inodes: seq<nat>, b: int) {
    exists k :: 0 <= k < |inodes| && inodes[k] < |s.inodeMap| && Points(s.disk, s.inodeMap[inodes[k]], b)
  }

  lemma PointedFromMore(s: Lfs, inodes: seq<nat>, n: nat, b: int)
    requires n < |s.inodeMap|
    ensures PointedFrom(s, inodes + [n], b) <==> PointedFrom(s, inodes, b) || Points(s.disk, s.inodeMap[n], b)
  {
    var more := inodes + [n];
    if k :| 0 <= k < |inodes| && inodes[k] < |s.inodeMap| && Points(s.disk, s.inodeMap[inodes[k]], b) {
      assert more[k] == inodes[k];
    }
    assert more[|inodes|] == n;
  }

  lemma PointedFromAll(s: Lfs, inodes: seq<nat>, b: int)
    requires Lists(s.inodeMap, inodes, |s.inodeMap|)
    ensures PointedFrom(s, inodes, b) <==> PointedTo(s, b)
  {
    if n :| 0 <= n < |s.inodeMap| && Points(s.disk, s.inodeMap[n], b) {
      assert n in inodes;
      var k :| 0 <= k < |inodes| && inodes[k] == n;
      assert Points(s.disk, s.inodeMap[inodes[k]], b);
    }
  }
}
