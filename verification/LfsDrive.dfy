/**
 The LFS object of lfs.py: lookups by memory or by the checkpoint on disk, loops over directory blocks, and
 the operations, each of which changes the object as LfsRun.dfy says. The contents of written blocks and the
 random choice of an inode are inputs; error texts are left out.
 */
module LfsDrive {
  import opened LfsTree
  import opened LfsLog
  import opened LfsOps
  import opened LfsRun
  import opened LfsLive

  /** Lookups by disk need a checkpoint that is up to date. */
  ghost predicate Ready(s: Lfs, useDisk: bool, force: bool) {
    && Good(s) && FsOk(View(s))
    && (useDisk ==> force && Matches(s) && Synced(s))
  }

  lemma ReadyKeeps(s: Lfs, useDisk: bool, force: bool, op: Op)
    requires Ready(s, useDisk, force) && Allowed(View(s), op) && (useDisk ==> SharesChunk(View(s), op))
    ensures Ready(Do(s, force, op).0, useDisk, force)
  {
    DoFollows(s, force, op);
    DoFsOk(View(s), op);
    if op.SyncOp? {
      SyncKeeps(s);
    }
  }

  /** Block k of the directory among all its slots. */
  lemma {:induction false} SlotsOfBlock(d: seq<Block>, ptrs: seq<int>, k: nat, n: nat)
    requires k < n <= |ptrs| && (forall j :: 0 <= j < n ==> DirPtr(d, ptrs[j]))
    ensures DirPtr(d, ptrs[k])
    ensures DirSlots(d, ptrs, n)[SLOTS_PER_BLOCK * k..SLOTS_PER_BLOCK * k + SLOTS_PER_BLOCK] == d[ptrs[k]].slots
  {
    assert DirPtr(d, ptrs[n - 1]) && DirPtr(d, ptrs[k]);
    if k < n - 1 {
      SlotsOfBlock(d, ptrs, k, n - 1);
      var a := DirSlots(d, ptrs, n - 1);
      assert (a + d[ptrs[n - 1]].slots)[SLOTS_PER_BLOCK * k..SLOTS_PER_BLOCK * k + SLOTS_PER_BLOCK]
          == a[SLOTS_PER_BLOCK * k..SLOTS_PER_BLOCK * k + SLOTS_PER_BLOCK];
    }
  }

  /** A search block by block is a search slot by slot. */
  lemma ScanStep(d: seq<Block>, b: Block, name: string, k: nat)
    requires DirInode(d, b) && k < b.size && NoneBefore(Slots(d, b), name, SLOTS_PER_BLOCK * k)
    ensures DirPtr(d, b.pointers[k])
    ensures var i := First(d[b.pointers[k]].slots, name);
            if i == -1 then NoneBefore(Slots(d, b), name, SLOTS_PER_BLOCK * (k + 1))
            else
              && First(Slots(d, b), name) == SLOTS_PER_BLOCK * k + i
              && Slots(d, b)[SLOTS_PER_BLOCK * k + i] == d[b.pointers[k]].slots[i]
  {
    var all, lo := Slots(d, b), SLOTS_PER_BLOCK * k;
    SlotsOfBlock(d, b.pointers, k, b.size);
    var block := d[b.pointers[k]].slots;
    assert forall j :: 0 <= j < SLOTS_PER_BLOCK ==> all[lo + j] == block[j];
    var i := First(block, name);
    var limit := if i == -1 then SLOTS_PER_BLOCK else i;
    forall j | 0 <= j < lo + limit
      ensures all[j].name != name
    {
      if j >= lo {
        assert all[lo + (j - lo)] == block[j - lo];
      }
    }
    if i != -1 {
      FirstIs(all, name, lo + i);
    }
  }

  class LFS {
    var disk: seq<Block>
    var cr: seq<int>
    var inodeMap: seq<int>
    const useDiskCr: bool
    const force: bool
    const sequential: bool

    ghost function S(): Lfs
      reads this
    {
      Lfs(disk, cr, inodeMap)
    }

    ghost predicate Valid()
      reads this
    {
      Ready(S(), useDiskCr, force)
    }

    constructor (useDiskCr: bool, force: bool, sequential: bool)
      requires useDiskCr ==> force
      ensures this.useDiskCr == useDiskCr && this.force == force && this.sequential == sequential
      ensures S() == Init() && Valid()
    {
      this.useDiskCr, this.force, this.sequential := useDiskCr, force, sequential;
      disk := [Checkpoint(FIRST_CR)];
      cr := FIRST_CR;
      inodeMap := NoInodes()[ROOT_INODE := 2];
      new;
      var a := LogBlock(DirBlock(NewDirSlots(ROOT_INODE, ROOT_INODE)));
      a := LogBlock(Inode(true, 1, 2, NO_PTRS[0 := 1]));
      assert ChunkOf(inodeMap, 0) == FIRST_CHUNK;
      var chunk := MakeImapChunk(0);
      a := LogBlock(chunk);
      InitInv();
    }

    /** The marks are on the live blocks. */
    method DetermineLiveness() returns (live: seq<bool>)
      requires Valid()
      ensures |live| == |disk| && forall b :: 0 <= b < |disk| ==> (live[b] <==> Live(S(), b))
    {
      live := seq(|disk|, _ => false);
      live := MarkAll(live, [0] + cr);
      var inodes: seq<nat> := [];
      ghost var before := live;
      for n := 0 to |inodeMap|
        invariant Lists(inodeMap, inodes, n)
        invariant MarksMore(before, live, inodeMap[..n])
      {
        if inodeMap[n] != -1 {
          inodes := inodes + [n];
        }
        live := Mark(live, inodeMap[n]);
        assert inodeMap[..n + 1] == inodeMap[..n] + [inodeMap[n]];
      }
      assert inodeMap[..|inodeMap|] == inodeMap;
      live := MarkPointers(live, inodes);
      forall b | 0 <= b < |disk|
        ensures live[b] <==> Live(S(), b)
      {
        PointedFromAll(S(), inodes, b);
      }
    }

    method MarkPointers(before: seq<bool>, inodes: seq<nat>) returns (live: seq<bool>)
      requires Valid() && |before| == |disk| && Lists(inodeMap, inodes, |inodeMap|)
      ensures |live| == |disk|
      ensures forall b :: 0 <= b < |disk| ==> (live[b] <==> before[b] || PointedFrom(S(), inodes, b))
    {
      live := before;
      for i := 0 to |inodes|
        invariant |live| == |disk|
        invariant forall b :: 0 <= b < |disk| ==> (live[b] <==> before[b] || PointedFrom(S(), inodes[..i], b))
      {
        assert EntryOk(disk, inodeMap[inodes[i]]);
        ghost var marked := live;
        live := MarkAll(live, disk[inodeMap[inodes[i]]].pointers);
        assert inodes[..i + 1] == inodes[..i] + [inodes[i]];
        forall b | 0 <= b < |disk|
          ensures live[b] <==> before[b] || PointedFrom(S(), inodes[..i + 1], b)
        {
          PointedFromMore(S(), inodes[..i], inodes[i], b);
        }
      }
      assert inodes[..|inodes|] == inodes;
    }

    method LogBlock(b: Block) returns (a: nat)
      modifies this`disk
      ensures disk == old(disk) + [b] && a == |old(disk)| && S() == Log(old(S()), b)
    {
      a := |disk|;
      disk := disk + [b];
    }

    method MakeImapChunk(c: nat) returns (b: Block)
      requires |inodeMap| == NUM_INODES && c < NUM_CHUNKS
      ensures b == Imap(ChunkOf(inodeMap, c))
    {
      var entries := [];
      var start := c * INODES_PER_CHUNK;
      for i := start to start + INODES_PER_CHUNK
        invariant entries == inodeMap[start..i]
      {
        entries := entries + [inodeMap[i]];
      }
      b := Imap(entries);
    }

    method UpdateImapOf(inums: seq<nat>)
      requires |inodeMap| == NUM_INODES && |cr| == NUM_CHUNKS && forall k :: 0 <= k < |inums| ==> inums[k] < NUM_INODES
      modifies this`disk, this`cr
      ensures S() == UpdateImap(old(S()), inums, []) && |cr| == NUM_CHUNKS
    {
      var chunks: seq<nat> := [];
      for i := 0 to |inums|
        invariant |cr| == NUM_CHUNKS
        invariant UpdateImap(S(), inums[i..], chunks) == UpdateImap(old(S()), inums, [])
      {
        assert inums[i..][0] == inums[i] && inums[i..][1..] == inums[i + 1..];
        var c := inums[i] / INODES_PER_CHUNK;
        if c !in chunks {
          chunks := chunks + [c];
          var b := MakeImapChunk(c);
          var a := LogBlock(b);
          cr := cr[c := |disk| - 1];
        }
      }
    }

    method CrSync()
      requires disk != []
      modifies this`disk
      ensures S() == Sync(old(S()))
    {
      disk := disk[0 := Checkpoint(cr)];
    }

    method SyncIfForced()
      requires disk != []
      modifies this`disk
      ensures S() == MaybeSync(old(S()), force)
    {
      if force {
        CrSync();
      }
    }

    /** The inode, by the checkpoint on disk or by the map in memory; either way the latest. */
    method GetInodeFromInumber(n: nat) returns (b: Block)
      requires Valid() && n < NUM_INODES && inodeMap[n] != -1
      ensures InodeOk(disk, inodeMap[n]) && b == disk[inodeMap[n]]
    {
      var entryIndex, entryOffset := n / INODES_PER_CHUNK, n % INODES_PER_CHUNK;
      assert EntryOk(disk, inodeMap[n]);
      var a: int;
      if useDiskCr {
        LookupsAgree(S(), n);
        var e := disk[0].entries[entryIndex];
        assert ImapOk(disk, e);
        a := disk[e].entries[entryOffset];
      } else {
        a := inodeMap[n];
      }
      b := disk[a];
    }

    /** The first slot with a name among those of one block. */
    method ScanSlots(slots: seq<Slot>, name: string) returns (i: int)
      ensures i == First(slots, name)
    {
      for k := 0 to |slots|
        invariant NoneBefore(slots, name, k)
      {
        if slots[k].name == name {
          FirstIs(slots, name, k);
          return k;
        }
      }
      FirstIs(slots, name, |slots|);
      return -1;
    }

    /** Where a name leads from a directory. */
    method LookupName(parent: nat, name: string) returns (inum: int)
      requires Valid() && parent < NUM_INODES && IsDirAt(S(), parent)
      ensures inum == Edge(View(S()), parent, name)
    {
      DirAt(S(), parent);
      var b := GetInodeFromInumber(parent);
      for k := 0 to |b.pointers|
        invariant NoneBefore(Slots(disk, b), name, SLOTS_PER_BLOCK * if k < b.size then k else b.size)
      {
        assert k < b.size ==> DirPtr(disk, b.pointers[k]);
        if b.pointers[k] != -1 {
          ScanStep(disk, b, name, k);
          var slots := disk[b.pointers[k]].slots;
          var i := ScanSlots(slots, name);
          if i != -1 {
            return slots[i].inum;
          }
        }
      }
      FirstIs(Slots(disk, b), name, SLOTS_PER_BLOCK * b.size);
      return -1;
    }

    /** Follows a path, looking each name up in the directory before it. */
    method WalkTo(path: seq<string>) returns (r: Walk)
      requires Valid()
      ensures r == WalkPath(View(S()), path)
    {
      if path == [] || path[0] != "" {
        return Missing;
      }
      ghost var fs := View(S());
      var rest := Below(path);
      var parent: int := ROOT_INODE;
      var i := 0;
      while i < |rest| - 1
        invariant 0 <= i < |rest| && 0 <= parent < NUM_INODES && !fs[parent].Free?
        invariant WalkFrom(fs, parent, rest[i..]) == WalkPath(fs, path)
      {
        DirAt(S(), parent);
        assert rest[i..][0] == rest[i] && rest[i..][1..] == rest[i + 1..];
        var b := GetInodeFromInumber(parent);
        if !b.isDir {
          return Aborts;
        }
        var inum := LookupName(parent, rest[i]);
        EdgeLive(fs, parent, rest[i]);
        if inum == -1 {
          return Missing;
        }
        parent := inum;
        i := i + 1;
      }
      assert rest[i..][0] == rest[i] && |rest[i..]| == 1;
      DirAt(S(), parent);
      var b := GetInodeFromInumber(parent);
      if !b.isDir {
        return Aborts;
      }
      var inum := LookupName(parent, rest[i]);
      return Reached(inum, rest[i], parent);
    }

    /** The block and the slot with a name, over the directory's blocks. */
    method FindMatchingDirSlot(name: string, b: Block) returns (index: int, slot: int)
      requires DirInode(disk, b)
      ensures index == -1 <==> First(Slots(disk, b), name) == -1
      ensures index != -1 ==> 0 <= index < b.size && 0 <= slot < SLOTS_PER_BLOCK
                              && First(Slots(disk, b), name) == SLOTS_PER_BLOCK * index + slot
    {
      for k := 0 to b.size
        invariant NoneBefore(Slots(disk, b), name, SLOTS_PER_BLOCK * k)
      {
        ScanStep(disk, b, name, k);
        var i := ScanSlots(disk[b.pointers[k]].slots, name);
        if i != -1 {
          return k, i;
        }
      }
      FirstIs(Slots(disk, b), name, SLOTS_PER_BLOCK * b.size);
      return -1, -1;
    }

    method AddEntryTo(b: Block, name: string, m: int) returns (ch: Option<Change>)
      requires DirInode(disk, b)
      ensures ch == AddDirEntry(disk, b, name, m)
    {
      var index, slot := FindMatchingDirSlot("-", b);
      if index != -1 {
        assert DirPtr(disk, b.pointers[index]);
        ch := Some(Change(index, b.size, disk[b.pointers[index]].slots[slot := Slot(name, m)]));
      } else if b.size != NUM_INODE_PTRS {
        ch := Some(Change(b.size, b.size + 1, [Slot(name, m)] + EMPTIES));
      } else {
        ch := None;
      }
    }

    /** A free inode number: the first, or any; -1 when there is none. It is marked until its inode is logged. */
    method AllocateInode() returns (m: int)
      requires |inodeMap| == NUM_INODES
      modifies this`inodeMap
      ensures m == -1 <==> forall n :: 0 <= n < NUM_INODES ==> old(inodeMap)[n] != -1
      ensures m == -1 ==> inodeMap == old(inodeMap)
      ensures m != -1 ==> 0 <= m < NUM_INODES && old(inodeMap)[m] == -1 && inodeMap == old(inodeMap)[m := 1]
      ensures m != -1 && sequential ==> forall n :: 0 <= n < m ==> old(inodeMap)[n] != -1
    {
      m := 0;
      while m < |inodeMap| && inodeMap[m] != -1
        invariant 0 <= m <= |inodeMap| && forall n :: 0 <= n < m ==> inodeMap[n] != -1
      {
        m := m + 1;
      }
      if m == |inodeMap| {
        return -1;
      }
      if !sequential {
        m :| 0 <= m < |inodeMap| && inodeMap[m] == -1;
      }
      inodeMap := inodeMap[m := 1];
    }

    /** Remaps two inodes, logs chunks of the map, and writes the checkpoint if forced. */
    method CommitAll(n1: nat, a1: int, n2: nat, a2: int, inums: seq<nat>)
      requires |inodeMap| == NUM_INODES && |cr| == NUM_CHUNKS && disk != [] && n1 < NUM_INODES && n2 < NUM_INODES
      requires forall k :: 0 <= k < |inums| ==> inums[k] < NUM_INODES
      modifies this
      ensures S() == Commit(old(S()), n1, a1, n2, a2, inums, force)
    {
      inodeMap := inodeMap[n1 := a1][n2 := a2];
      ghost var s1 := S();
      UpdateImapOf(inums);
      UpdateImapGrows(s1, inums, []);
      SyncIfForced();
    }

    /** Logs the blocks of a create. */
    method CreateBlocksIn(b: Block, p: nat, ch: Change, isFile: bool, m: nat) returns (last: nat)
      requires b.Inode? && ch.index < |b.pointers|
      modifies this`disk
      ensures disk == old(disk) + CreateBlocks(old(S()), b, ch, p, isFile, m)
      ensures last == |old(disk)| + |CreateBlocks(old(S()), b, ch, p, isFile, m)| - 1 && last > 0
    {
      var dirBlock := LogBlock(DirBlock(ch.slots));
      var parent := ChangedInode(b, ch, dirBlock, if isFile then b.refs else b.refs + 1);
      var newBlock: int := -1;
      if !isFile {
        newBlock := LogBlock(DirBlock(NewDirSlots(p, m)));
      }
      var node := NewInode(isFile, newBlock);
      var parentAddress := LogBlock(parent);
      last := LogBlock(node);
    }

    /** Logs what a create logs; on entry the new inode's number is marked. */
    method CreateIn(ghost s0: Lfs, b: Block, p: nat, ch: Change, isFile: bool, m: nat)
      requires Good(s0) && p < NUM_INODES && m < NUM_INODES && p != m && IsDirAt(s0, p) && ch.index < NUM_INODE_PTRS
      requires S() == Remap(s0, m, 1) && b == s0.disk[s0.inodeMap[p]]
      modifies this
      ensures S() == CreateLog(s0, force, p, ch, isFile, m)
    {
      var last := CreateBlocksIn(b, p, ch, isFile, m);
      CommitMark(LogAll(s0, CreateBlocks(s0, b, ch, p, isFile, m)), p, last - 1, m, last, 1, [p, m], force);
      CommitAll(p, last - 1, m, last, [p, m]);
    }

    /** Creates a file or a directory. */
    method FileCreate(path: seq<string>, isFile: bool) returns (out: Outcome, ghost m: int)
      requires Valid() && (WalkPath(View(S()), path).Reached? ==> WalkPath(View(S()), path).name != "-")
      modifies this
      ensures Good(old(S())) && (S(), out) == Do(old(S()), force, CreateOp(path, isFile, m)) && Valid()
      ensures Allowed(View(old(S())), CreateOp(path, isFile, m))
      ensures m == -1 && WalkPath(View(old(S())), path).Reached? && WalkPath(View(old(S())), path).inum == -1 ==>
                forall n :: 0 <= n < NUM_INODES ==> old(inodeMap)[n] != -1
    {
      ghost var s0 := S();
      m := -1;
      var r := WalkTo(path);
      WalkDir(s0, path);
      if r.Aborts? {
        return Crash, m;
      }
      if r.Missing? || r.inum != -1 {
        return Fail, m;
      }
      var p, b := r.parent, disk[0];
      b := GetInodeFromInumber(p);
      var k := AllocateInode();
      m := k;
      if k == -1 {
        return Fail, m;
      }
      DirAt(s0, p);
      DirAt(s0, k);
      var ch := AddEntryTo(b, r.name, k);
      if ch.None? {
        inodeMap := inodeMap[k := -1];
        assert inodeMap == s0.inodeMap;
        return Fail, m;
      }
      EntryIndex(s0, p, r.name, k);
      CreateIn(s0, b, p, ch.value, isFile, k);
      out := Done(0);
      ReadyKeeps(s0, useDiskCr, force, CreateOp(path, isFile, m));
    }

    /** Gives a file a second name. */
    method FileLink(srcPath: seq<string>, dstPath: seq<string>) returns (out: Outcome)
      requires Valid() && Allowed(View(S()), LinkOp(srcPath, dstPath))
      requires useDiskCr ==> SharesChunk(View(S()), LinkOp(srcPath, dstPath))
      modifies this
      ensures Good(old(S())) && (S(), out) == Do(old(S()), force, LinkOp(srcPath, dstPath)) && Valid()
    {
      ghost var s0 := S();
      ReadyKeeps(s0, useDiskCr, force, LinkOp(srcPath, dstPath));
      var r := WalkTo(srcPath);
      WalkDir(s0, srcPath);
      if r.Aborts? {
        return Crash;
      }
      if r.Missing? || r.inum == -1 {
        return Fail;
      }
      var src := r.inum;
      EdgeLive(View(s0), r.parent, r.name);
      DirAt(s0, src);
      var f := GetInodeFromInumber(src);
      if f.isDir {
        return Fail;
      }
      out := LinkTo(src, f, dstPath, srcPath);
    }

    method LinkTo(src: nat, f: Block, dstPath: seq<string>, ghost srcPath: seq<string>) returns (out: Outcome)
      requires Valid() && src < NUM_INODES && IsFileAt(S(), src) && f == disk[inodeMap[src]]
      requires WalkPath(View(S()), srcPath).Reached? && WalkPath(View(S()), srcPath).inum == src
      modifies this
      ensures Good(old(S())) && (S(), out) == DoLink(old(S()), force, srcPath, dstPath)
    {
      ghost var s0 := S();
      var q := WalkTo(dstPath);
      WalkDir(s0, dstPath);
      if !q.Reached? {
        return Crash;
      }
      if q.inum != -1 {
        return Fail;
      }
      var b := GetInodeFromInumber(q.parent);
      var ch := AddEntryTo(b, q.name, src);
      if ch.None? {
        return Fail;
      }
      EntryIndex(s0, q.parent, q.name, src);
      LinkIn(src, f, q.parent, b, ch.value);
      out := Done(0);
    }

    method LinkIn(src: nat, f: Block, p: nat, b: Block, ch: Change)
      requires Good(S()) && p < NUM_INODES && src < NUM_INODES && IsDirAt(S(), p) && IsFileAt(S(), src)
               && ch.index < NUM_INODE_PTRS
      requires b == disk[inodeMap[p]] && f == disk[inodeMap[src]]
      modifies this
      ensures S() == LinkLog(old(S()), force, src, p, ch)
    {
      ghost var s0 := S();
      ghost var bs := LinkBlocks(s0, b, ch, f);
      var dirBlock := LogBlock(DirBlock(ch.slots));
      var parentAddress := LogBlock(ChangedInode(b, ch, dirBlock, b.refs));
      var address := LogBlock(WithRefs(f, f.refs + 1));
      assert disk == s0.disk + bs;
      CommitAll(p, parentAddress, src, address, [p]);
    }

    /** Writes blocks to a file. */
    method FileWrite(path: seq<string>, offset: int, contents: seq<string>) returns (out: Outcome)
      requires Valid()
      modifies this
      ensures Good(old(S())) && (S(), out) == Do(old(S()), force, WriteOp(path, offset, contents)) && Valid()
    {
      ghost var s0 := S();
      ReadyKeeps(s0, useDiskCr, force, WriteOp(path, offset, contents));
      var r := WalkTo(path);
      WalkDir(s0, path);
      if r.Aborts? {
        return Crash;
      }
      if r.Missing? || r.inum == -1 {
        return Fail;
      }
      var n := r.inum;
      EdgeLive(View(s0), r.parent, r.name);
      DirAt(s0, n);
      var f := GetInodeFromInumber(n);
      if f.isDir || offset < 0 || offset >= NUM_INODE_PTRS {
        return Fail;
      }
      var written := WriteIn(n, f, offset, contents);
      out := Done(written);
    }

    /** Logs the blocks that fit. */
    method LogData(offset: nat, contents: seq<string>) returns (written: nat)
      requires offset < NUM_INODE_PTRS
      modifies this`disk
      ensures written == Fitting(offset, |contents|) && disk == old(disk) + DataBlocks(contents, written)
    {
      written := 0;
      while offset + written < NUM_INODE_PTRS && written < |contents|
        invariant 0 <= written <= |contents| && offset + written <= NUM_INODE_PTRS
        invariant disk == old(disk) + DataBlocks(contents, written)
      {
        var a := LogBlock(Data(contents[written]));
        assert DataBlocks(contents, written + 1) == DataBlocks(contents, written) + [Data(contents[written])];
        written := written + 1;
      }
    }

    method WriteIn(n: nat, f: Block, offset: nat, contents: seq<string>) returns (written: nat)
      requires Good(S()) && n < NUM_INODES && IsFileAt(S(), n) && f == disk[inodeMap[n]] && offset < NUM_INODE_PTRS
      modifies this
      ensures S() == WriteLog(old(S()), force, n, offset, contents) && written == Fitting(offset, |contents|)
    {
      ghost var s0 := S();
      var first := |disk|;
      written := LogData(offset, contents);
      var address := LogBlock(WrittenInode(f, offset, written, first));
      ghost var bs := WriteBlocks(s0, f, offset, contents);
      assert disk == s0.disk + bs;
      inodeMap := inodeMap[n := address];
      var c := n / INODES_PER_CHUNK;
      var chunk := MakeImapChunk(c);
      var a := LogBlock(chunk);
      cr := cr[c := |disk| - 1];
      assert S() == LogChunk(Remap(LogAll(s0, bs), n, address), c);
      SyncIfForced();
    }

    /** Removes a name, and the file with its last name. */
    method FileDelete(path: seq<string>) returns (out: Outcome)
      requires Valid()
      modifies this
      ensures Good(old(S())) && (S(), out) == Do(old(S()), force, DeleteOp(path)) && Valid()
      ensures out != Crash || WalkPath(View(old(S())), path).Aborts?
    {
      ghost var s0 := S();
      ReadyKeeps(s0, useDiskCr, force, DeleteOp(path));
      var r := WalkTo(path);
      WalkDir(s0, path);
      if r.Aborts? {
        return Crash;
      }
      if r.Missing? || r.inum == -1 {
        return Fail;
      }
      EdgeLive(View(s0), r.parent, r.name);
      DirAt(s0, r.inum);
      out := DeleteFound(r.inum, r.name, r.parent, path);
    }

    method DeleteFound(n: nat, name: string, p: nat, ghost path: seq<string>) returns (out: Outcome)
      requires Valid() && WalkPath(View(S()), path) == Reached(n, name, p)
      requires n < NUM_INODES && inodeMap[n] != -1 && p < NUM_INODES && IsDirAt(S(), p) && Edge(View(S()), p, name) == n
      modifies this
      ensures Good(old(S())) && (S(), out) == DoDelete(old(S()), force, path) && out != Crash
    {
      DirAt(S(), n);
      var f := GetInodeFromInumber(n);
      if f.isDir {
        return Fail;
      }
      DoDeleteFound(S(), force, path, n, name, p);
      DeleteNamed(n, f, p, name);
      out := Done(0);
    }

    method DeleteNamed(n: nat, f: Block, p: nat, name: string)
      requires Valid() && p < NUM_INODES && n < NUM_INODES && p != n && IsDirAt(S(), p) && IsFileAt(S(), n)
      requires f == disk[inodeMap[n]] && First(Slots(disk, disk[inodeMap[p]]), name) != -1
      modifies this
      ensures S() == DeleteLog(old(S()), force, n, p, First(Slots(old(disk), old(disk)[old(inodeMap)[p]]), name))
    {
      var b := GetInodeFromInumber(p);
      var index, slot := FindMatchingDirSlot(name, b);
      DeleteIn(n, f, p, b, index, slot);
    }

    method DeleteIn(n: nat, f: Block, p: nat, b: Block, index: nat, slot: nat)
      requires Good(S()) && p < NUM_INODES && n < NUM_INODES && p != n && IsDirAt(S(), p) && IsFileAt(S(), n)
      requires b == disk[inodeMap[p]] && f == disk[inodeMap[n]] && index < b.size && slot < SLOTS_PER_BLOCK
      modifies this
      ensures S() == DeleteLog(old(S()), force, n, p, SLOTS_PER_BLOCK * index + slot)
    {
      assert DirPtr(disk, b.pointers[index]);
      var ch := Change(index, b.size, disk[b.pointers[index]].slots[slot := EMPTY]);
      assert ch == SetSlot(disk, b, SLOTS_PER_BLOCK * index + slot, EMPTY);
      DeleteBlocksIn(n, f, p, b, ch);
      ghost var s1 := S();
      UpdateImapOf([n, p]);
      UpdateImapGrows(s1, [n, p], []);
      SyncIfForced();
    }

    method DeleteBlocksIn(n: nat, f: Block, p: nat, b: Block, ch: Change)
      requires |inodeMap| == NUM_INODES && p < NUM_INODES && n < NUM_INODES && p != n
      requires b.Inode? && f.Inode? && ch.index < |b.pointers| && ch.size == b.size
      modifies this`disk, this`inodeMap
      ensures S() == Remap(Remap(LogAll(old(S()), DeleteBlocks(old(S()), b, ch, f)),
                                 n,
                                 if f.refs == 1 then -1 else if f.refs > 1 then |old(disk)| + 2 else old(inodeMap)[n]),
                           p, |old(disk)| + 1)
    {
      ghost var s0 := S();
      if f.refs == 1 {
        inodeMap := inodeMap[n := -1];
      }
      var dirBlock := LogBlock(DirBlock(ch.slots));
      var parentAddress := LogBlock(ChangedInode(b, ch, dirBlock, b.refs));
      inodeMap := inodeMap[p := parentAddress];
      if f.refs > 1 {
        var address := LogBlock(WithRefs(f, f.refs - 1));
        inodeMap := inodeMap[n := address];
      }
      ghost var bs := DeleteBlocks(s0, b, ch, f);
      assert disk == s0.disk + bs;
      ghost var a := if f.refs == 1 then -1 else if f.refs > 1 then |s0.disk| + 2 else s0.inodeMap[n];
      assert inodeMap == s0.inodeMap[n := a][p := parentAddress];
    }

    method SyncAll()
      requires Valid()
      modifies this
      ensures Good(old(S())) && S() == Do(old(S()), force, SyncOp).0 && Valid()
    {
      ReadyKeeps(S(), useDiskCr, force, SyncOp);
      CrSync();
    }
  }
}
