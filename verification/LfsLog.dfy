/**
 The log of lfs.py: blocks on disk, the checkpoint region, the inode map in memory, and the file trees that
 the memory map and the checkpoint on disk stand for. The disk only grows, apart from its first block.
 */
module LfsLog {
  import opened LfsTree

  const NUM_CHUNKS := 16
  const INODES_PER_CHUNK := 16

  datatype Block =
    | Checkpoint(entries: seq<int>)
    | DirBlock(slots: seq<Slot>)
    | Data(contents: string)
    | Inode(isDir: bool, size: int, refs: int, pointers: seq<int>)
    | Imap(entries: seq<int>)

  /** The disk, the checkpoint region and the inode map in memory. */
  datatype Lfs = Lfs(disk: seq<Block>, cr: seq<int>, inodeMap: seq<int>)

  // ---------- Growing ----------

  predicate Same(d: seq<Block>, d2: seq<Block>, a: int) {
    0 <= a < |d| <= |d2| && d2[a] == d[a]
  }

  /** Every block but the first stays as it was logged. */
  ghost predicate Grows(d: seq<Block>, d2: seq<Block>) {
    |d| <= |d2| && forall a :: 0 < a < |d| ==> Same(d, d2, a)
  }

  lemma GrowsTrans(d: seq<Block>, d2: seq<Block>, d3: seq<Block>)
    requires Grows(d, d2) && Grows(d2, d3)
    ensures Grows(d, d3)
  {
    forall a | 0 < a < |d|
      ensures Same(d, d3, a)
    {
      assert Same(d, d2, a) && Same(d2, d3, a);
    }
  }

  // ---------- Inodes ----------

  predicate DirPtr(d: seq<Block>, a: int) {
    0 < a < |d| && d[a].DirBlock? && |d[a].slots| == SLOTS_PER_BLOCK
  }

  predicate DataPtr(d: seq<Block>, a: int) {
    a == -1 || (0 < a < |d| && d[a].Data?)
  }

  /** The pointers of a directory: `size` blocks of slots, then nothing. */
  predicate DirPtrs(d: seq<Block>, ptrs: seq<int>, size: int) {
    |ptrs| == NUM_INODE_PTRS && 0 <= size <= NUM_INODE_PTRS
    && forall k :: 0 <= k < size ==> DirPtr(d, ptrs[k])
  }

  predicate Unused(ptrs: seq<int>, size: int) {
    forall k :: 0 <= k < |ptrs| && k >= size ==> ptrs[k] == -1
  }

  predicate FilePtrs(d: seq<Block>, ptrs: seq<int>) {
    |ptrs| == NUM_INODE_PTRS && forall k :: 0 <= k < |ptrs| ==> DataPtr(d, ptrs[k])
  }

  predicate InodeBlockOk(d: seq<Block>, b: Block) {
    && b.Inode?
    && (if b.isDir then DirPtrs(d, b.pointers, b.size) else FilePtrs(d, b.pointers))
    && 0 <= b.size <= NUM_INODE_PTRS && Unused(b.pointers, b.size)
  }

  predicate InodeOk(d: seq<Block>, a: int) {
    0 < a < |d| && InodeBlockOk(d, d[a])
  }

  predicate EntryOk(d: seq<Block>, a: int) {
    a == -1 || InodeOk(d, a)
  }

  /** The slots of the first k directory blocks. */
  function DirSlots(d: seq<Block>, ptrs: seq<int>, k: nat): (s: seq<Slot>)
    requires k <= |ptrs| && forall j :: 0 <= j < k ==> DirPtr(d, ptrs[j])
    ensures |s| == SLOTS_PER_BLOCK * k
  {
    if k == 0 then []
    else
      assert DirPtr(d, ptrs[k - 1]);
      DirSlots(d, ptrs, k - 1) + d[ptrs[k - 1]].slots
  }

  function FileBlocks(d: seq<Block>, ptrs: seq<int>): (r: seq<Option<string>>)
    requires FilePtrs(d, ptrs)
    ensures |r| == NUM_INODE_PTRS
    ensures forall k :: 0 <= k < |r| ==> r[k] == if ptrs[k] == -1 then None else Some(d[ptrs[k]].contents)
  {
    seq(NUM_INODE_PTRS, k requires 0 <= k < |ptrs| && DataPtr(d, ptrs[k]) =>
      if ptrs[k] == -1 then None else Some(d[ptrs[k]].contents))
  }

  /** The node an inode block stands for. */
  function NodeOfBlock(d: seq<Block>, b: Block): Node
    requires InodeBlockOk(d, b)
  {
    if b.isDir then Dir(b.refs, DirSlots(d, b.pointers, b.size)) else File(b.refs, b.size, FileBlocks(d, b.pointers))
  }

  function NodeOf(d: seq<Block>, a: int): Node
    requires EntryOk(d, a)
  {
    if a == -1 then Free else NodeOfBlock(d, d[a])
  }

  lemma {:induction false} DirSlotsFrame(d: seq<Block>, d2: seq<Block>, ptrs: seq<int>, k: nat)
    requires Grows(d, d2) && k <= |ptrs| && forall j :: 0 <= j < k ==> DirPtr(d, ptrs[j])
    ensures forall j :: 0 <= j < k ==> DirPtr(d2, ptrs[j])
    ensures DirSlots(d2, ptrs, k) == DirSlots(d, ptrs, k)
  {
    if k > 0 {
      DirSlotsFrame(d, d2, ptrs, k - 1);
      assert DirPtr(d, ptrs[k - 1]) && Same(d, d2, ptrs[k - 1]);
    }
  }

  lemma FileBlocksFrame(d: seq<Block>, d2: seq<Block>, ptrs: seq<int>)
    requires Grows(d, d2) && FilePtrs(d, ptrs)
    ensures FilePtrs(d2, ptrs) && FileBlocks(d2, ptrs) == FileBlocks(d, ptrs)
  {
    forall k | 0 <= k < |ptrs|
      ensures DataPtr(d2, ptrs[k]) && (ptrs[k] != -1 ==> d2[ptrs[k]] == d[ptrs[k]])
    {
      assert DataPtr(d, ptrs[k]);
      if ptrs[k] != -1 {
        assert Same(d, d2, ptrs[k]);
      }
    }
  }

  lemma BlockFrame(d: seq<Block>, d2: seq<Block>, b: Block)
    requires Grows(d, d2) && InodeBlockOk(d, b)
    ensures InodeBlockOk(d2, b) && NodeOfBlock(d2, b) == NodeOfBlock(d, b)
  {
    if b.isDir {
      DirSlotsFrame(d, d2, b.pointers, b.size);
    } else {
      FileBlocksFrame(d, d2, b.pointers);
    }
  }

  lemma NodeFrame(d: seq<Block>, d2: seq<Block>, a: int)
    requires Grows(d, d2) && EntryOk(d, a)
    ensures EntryOk(d2, a) && NodeOf(d2, a) == NodeOf(d, a)
  {
    if a != -1 {
      assert Same(d, d2, a);
      BlockFrame(d, d2, d[a]);
    }
  }

  // ---------- Maps and trees ----------

  ghost predicate MapOk(d: seq<Block>, inodeMap: seq<int>) {
    |inodeMap| == NUM_INODES && forall n :: 0 <= n < |inodeMap| ==> EntryOk(d, inodeMap[n])
  }

  /** The tree an inode map stands for. */
  function Tree(d: seq<Block>, inodeMap: seq<int>): (fs: Fs)
    requires MapOk(d, inodeMap)
    ensures |fs| == |inodeMap| && forall n :: 0 <= n < |fs| ==> fs[n] == NodeOf(d, inodeMap[n])
  {
    seq(|inodeMap|, n requires 0 <= n < |inodeMap| && EntryOk(d, inodeMap[n]) => NodeOf(d, inodeMap[n]))
  }

  lemma TreeFrame(d: seq<Block>, d2: seq<Block>, inodeMap: seq<int>)
    requires Grows(d, d2) && MapOk(d, inodeMap)
    ensures MapOk(d2, inodeMap) && Tree(d2, inodeMap) == Tree(d, inodeMap)
  {
    forall n | 0 <= n < |inodeMap|
      ensures EntryOk(d2, inodeMap[n]) && NodeOf(d2, inodeMap[n]) == NodeOf(d, inodeMap[n])
    {
      assert EntryOk(d, inodeMap[n]);
      NodeFrame(d, d2, inodeMap[n]);
    }
  }

  lemma TreeRemap(d: seq<Block>, inodeMap: seq<int>, n: nat, a: int)
    requires MapOk(d, inodeMap) && n < |inodeMap| && EntryOk(d, a)
    ensures MapOk(d, inodeMap[n := a]) && Tree(d, inodeMap[n := a]) == Tree(d, inodeMap)[n := NodeOf(d, a)]
  {
    var changed := inodeMap[n := a];
    forall k | 0 <= k < |changed|
      ensures EntryOk(d, changed[k])
    {
      assert EntryOk(d, inodeMap[k]);
    }
  }

  predicate ImapOk(d: seq<Block>, e: int) {
    e == -1 || (0 < e < |d| && d[e].Imap? && |d[e].entries| == INODES_PER_CHUNK
                && forall k :: 0 <= k < INODES_PER_CHUNK ==> EntryOk(d, d[e].entries[k]))
  }

  predicate CrOk(d: seq<Block>, cr: seq<int>) {
    |cr| == NUM_CHUNKS && forall c :: 0 <= c < NUM_CHUNKS ==> ImapOk(d, cr[c])
  }

  /** The inode map a checkpoint region and its chunks hold. */
  function CrMap(d: seq<Block>, cr: seq<int>): (inodeMap: seq<int>)
    requires CrOk(d, cr)
    ensures |inodeMap| == NUM_INODES
    ensures forall n :: 0 <= n < |inodeMap| ==> inodeMap[n] == CrEntry(d, cr, n)
  {
    seq(NUM_INODES, n requires 0 <= n < NUM_INODES => CrEntry(d, cr, n))
  }

  function CrEntry(d: seq<Block>, cr: seq<int>, n: nat): int
    requires CrOk(d, cr) && n < NUM_INODES
  {
    var e := cr[n / INODES_PER_CHUNK];
    assert ImapOk(d, e);
    if e == -1 then -1 else d[e].entries[n % INODES_PER_CHUNK]
  }

  lemma CrMapOk(d: seq<Block>, cr: seq<int>)
    requires CrOk(d, cr)
    ensures MapOk(d, CrMap(d, cr))
  {
    forall n | 0 <= n < NUM_INODES
      ensures EntryOk(d, CrMap(d, cr)[n])
    {
      assert ImapOk(d, cr[n / INODES_PER_CHUNK]);
    }
  }

  lemma ImapFrame(d: seq<Block>, d2: seq<Block>, e: int)
    requires Grows(d, d2) && ImapOk(d, e)
    ensures ImapOk(d2, e) && (e != -1 ==> d2[e] == d[e])
  {
    if e != -1 {
      assert Same(d, d2, e);
      forall k | 0 <= k < INODES_PER_CHUNK
        ensures EntryOk(d2, d2[e].entries[k])
      {
        assert EntryOk(d, d[e].entries[k]);
        NodeFrame(d, d2, d[e].entries[k]);
      }
    }
  }

  lemma CrFrame(d: seq<Block>, d2: seq<Block>, cr: seq<int>)
    requires Grows(d, d2) && CrOk(d, cr)
    ensures CrOk(d2, cr) && CrMap(d2, cr) == CrMap(d, cr)
  {
    forall c | 0 <= c < NUM_CHUNKS
      ensures ImapOk(d2, cr[c]) && (cr[c] != -1 ==> d2[cr[c]] == d[cr[c]])
    {
      assert ImapOk(d, cr[c]);
      ImapFrame(d, d2, cr[c]);
    }
    forall n | 0 <= n < NUM_INODES
      ensures CrEntry(d2, cr, n) == CrEntry(d, cr, n)
    {
      assert ImapOk(d, cr[n / INODES_PER_CHUNK]);
    }
  }

  predicate DiskOk(d: seq<Block>) {
    d != [] && d[0].Checkpoint? && CrOk(d, d[0].entries)
  }

  /** The tree reached from the first block on disk. */
  function DiskTree(d: seq<Block>): Fs
    requires DiskOk(d)
  {
    CrMapOk(d, d[0].entries);
    Tree(d, CrMap(d, d[0].entries))
  }

  /** As long as the first block stays, so does the tree on disk, whatever is logged. */
  lemma Frozen(d: seq<Block>, d2: seq<Block>)
    requires DiskOk(d) && Grows(d, d2) && d2 != [] && d2[0] == d[0]
    ensures DiskOk(d2) && DiskTree(d2) == DiskTree(d)
  {
    CrFrame(d, d2, d[0].entries);
    CrMapOk(d, d[0].entries);
    TreeFrame(d, d2, CrMap(d, d[0].entries));
  }

  // ---------- Order on disk ----------

  predicate PtrBelow(p: int, a: nat) {
    p == -1 || 0 < p < a
  }

  /** Whatever the block points to has a lower address, and not that of the checkpoint. */
  predicate PointsBelow(b: Block, a: nat) {
    match b
    case Inode(_, _, _, pointers) => forall k :: 0 <= k < |pointers| ==> PtrBelow(pointers[k], a)
    case Imap(entries) => forall k :: 0 <= k < |entries| ==> PtrBelow(entries[k], a)
    case _ => true
  }

  predicate Ordered(d: seq<Block>) {
    forall a :: 0 < a < |d| ==> PointsBelow(d[a], a)
  }

  // ---------- The state invariant ----------

  ghost predicate Good(s: Lfs) {
    && DiskOk(s.disk) && Ordered(s.disk)
    && MapOk(s.disk, s.inodeMap) && CrOk(s.disk, s.cr)
  }

  /** A chunk of the inode map. */
  function ChunkOf(inodeMap: seq<int>, c: nat): (r: seq<int>)
    requires |inodeMap| == NUM_INODES && c < NUM_CHUNKS
    ensures |r| == INODES_PER_CHUNK
    ensures forall k :: 0 <= k < |r| ==> r[k] == inodeMap[c * INODES_PER_CHUNK + k]
  {
    inodeMap[c * INODES_PER_CHUNK..c * INODES_PER_CHUNK + INODES_PER_CHUNK]
  }

  /** The checkpoint region in memory leads to the map's chunk, or the chunk holds no inode. */
  predicate ChunkMatches(s: Lfs, c: nat)
    requires c < NUM_CHUNKS && |s.cr| == NUM_CHUNKS && |s.inodeMap| == NUM_INODES
  {
    if s.cr[c] == -1 then forall k :: 0 <= k < INODES_PER_CHUNK ==> ChunkOf(s.inodeMap, c)[k] == -1
    else 0 < s.cr[c] < |s.disk| && s.disk[s.cr[c]] == Imap(ChunkOf(s.inodeMap, c))
  }

  /** All chunks but those listed match. */
  ghost predicate MatchesBut(s: Lfs, bad: set<int>)
  {
    |s.cr| == NUM_CHUNKS && |s.inodeMap| == NUM_INODES
    && forall c: nat :: c < NUM_CHUNKS && c !in bad ==> ChunkMatches(s, c)
  }

  ghost predicate Matches(s: Lfs) {
    MatchesBut(s, {})
  }

  // ---------- Steps ----------

  function Log(s: Lfs, b: Block): Lfs {
    s.(disk := s.disk + [b])
  }

  function Remap(s: Lfs, n: nat, a: int): Lfs
    requires n < |s.inodeMap|
  {
    s.(inodeMap := s.inodeMap[n := a])
  }

  function LogChunk(s: Lfs, c: nat): Lfs
    requires |s.inodeMap| == NUM_INODES && |s.cr| == NUM_CHUNKS && c < NUM_CHUNKS
  {
    s.(disk := s.disk + [Imap(ChunkOf(s.inodeMap, c))], cr := s.cr[c := |s.disk|])
  }

  /** One chunk for each inode, each chunk once. */
  function UpdateImap(s: Lfs, inums: seq<nat>, chunks: seq<nat>): Lfs
    requires |s.inodeMap| == NUM_INODES && |s.cr| == NUM_CHUNKS
    requires forall k :: 0 <= k < |inums| ==> inums[k] < NUM_INODES
    decreases |inums|
  {
    if inums == [] then s
    else
      var c := inums[0] / INODES_PER_CHUNK;
      if c in chunks then UpdateImap(s, inums[1..], chunks)
      else UpdateImap(LogChunk(s, c), inums[1..], chunks + [c])
  }

  /** The only overwrite. */
  function Sync(s: Lfs): Lfs
    requires s.disk != []
  {
    s.(disk := s.disk[0 := Checkpoint(s.cr)])
  }

  function MaybeSync(s: Lfs, force: bool): Lfs
    requires s.disk != []
  {
    if force then Sync(s) else s
  }

  /** Nothing a reader of memory or disk can see has changed. */
  ghost predicate SameView(s: Lfs, t: Lfs) {
    && Good(s) && Good(t) && Grows(s.disk, t.disk) && t.disk[0] == s.disk[0]
    && Tree(t.disk, t.inodeMap) == Tree(s.disk, s.inodeMap) && DiskTree(t.disk) == DiskTree(s.disk)
  }

  lemma OrderedLog(d: seq<Block>, b: Block)
    requires Ordered(d) && PointsBelow(b, |d|)
    ensures Ordered(d + [b])
  {
  }

  lemma GrowsLog(d: seq<Block>, b: Block)
    ensures Grows(d, d + [b])
  {
  }

  lemma MatchesLog(s: Lfs, b: Block, bad: set<int>)
    requires MatchesBut(s, bad)
    ensures MatchesBut(Log(s, b), bad)
  {
    forall c: nat | c < NUM_CHUNKS && c !in bad
      ensures ChunkMatches(Log(s, b), c)
    {
      assert ChunkMatches(s, c);
    }
  }

  lemma LogKeeps(s: Lfs, b: Block)
    requires Good(s) && PointsBelow(b, |s.disk|)
    ensures SameView(s, Log(s, b))
  {
    GrowsLog(s.disk, b);
    OrderedLog(s.disk, b);
    Frozen(s.disk, s.disk + [b]);
    TreeFrame(s.disk, s.disk + [b], s.inodeMap);
    CrFrame(s.disk, s.disk + [b], s.cr);
  }

  lemma RemapKeeps(s: Lfs, n: nat, a: int)
    requires Good(s) && n < NUM_INODES && EntryOk(s.disk, a)
    ensures Good(Remap(s, n, a)) && Tree(s.disk, s.inodeMap[n := a]) == Tree(s.disk, s.inodeMap)[n := NodeOf(s.disk, a)]
  {
    TreeRemap(s.disk, s.inodeMap, n, a);
  }

  lemma MatchesRemap(s: Lfs, n: nat, a: int, bad: set<int>)
    requires MatchesBut(s, bad) && n < NUM_INODES
    ensures MatchesBut(Remap(s, n, a), bad + {n / INODES_PER_CHUNK})
  {
    var t := Remap(s, n, a);
    forall c: nat | c < NUM_CHUNKS && c !in bad + {n / INODES_PER_CHUNK}
      ensures ChunkMatches(t, c)
    {
      assert ChunkMatches(s, c);
      assert ChunkOf(t.inodeMap, c) == ChunkOf(s.inodeMap, c);
    }
  }

  lemma ChunkBelow(s: Lfs, c: nat)
    requires Good(s) && c < NUM_CHUNKS
    ensures PointsBelow(Imap(ChunkOf(s.inodeMap, c)), |s.disk|)
  {
    var chunk := ChunkOf(s.inodeMap, c);
    forall k | 0 <= k < |chunk|
      ensures PtrBelow(chunk[k], |s.disk|) && EntryOk(s.disk, chunk[k])
    {
      assert EntryOk(s.disk, s.inodeMap[c * INODES_PER_CHUNK + k]);
    }
  }

  lemma LogChunkKeeps(s: Lfs, c: nat)
    requires Good(s) && c < NUM_CHUNKS
    ensures SameView(s, LogChunk(s, c))
  {
    var b := Imap(ChunkOf(s.inodeMap, c));
    ChunkBelow(s, c);
    LogKeeps(s, b);
    var t := LogChunk(s, c);
    assert t.disk == Log(s, b).disk;
    forall k | 0 <= k < NUM_CHUNKS
      ensures ImapOk(t.disk, t.cr[k])
    {
      assert ImapOk(Log(s, b).disk, s.cr[k]);
      if k == c {
        ChunkLogged(s, c);
      }
    }
  }

  lemma ChunkLogged(s: Lfs, c: nat)
    requires Good(s) && c < NUM_CHUNKS
    ensures ImapOk(LogChunk(s, c).disk, |s.disk|)
  {
    var d, t := s.disk, LogChunk(s, c);
    GrowsLog(d, Imap(ChunkOf(s.inodeMap, c)));
    forall k | 0 <= k < INODES_PER_CHUNK
      ensures EntryOk(t.disk, ChunkOf(s.inodeMap, c)[k])
    {
      assert EntryOk(d, s.inodeMap[c * INODES_PER_CHUNK + k]);
      NodeFrame(d, t.disk, s.inodeMap[c * INODES_PER_CHUNK + k]);
    }
  }

  lemma MatchesChunk(s: Lfs, c: nat, bad: set<int>)
    requires MatchesBut(s, bad) && s.disk != [] && c < NUM_CHUNKS
    ensures MatchesBut(LogChunk(s, c), bad - {c})
  {
    var t := LogChunk(s, c);
    forall k: nat | k < NUM_CHUNKS && k !in bad - {c}
      ensures ChunkMatches(t, k)
    {
      if k != c {
        assert ChunkMatches(s, k);
      }
    }
  }

  /** The chunks of the inodes. */
  function Chunks(inums: seq<nat>): set<int> {
    set k | 0 <= k < |inums| :: inums[k] / INODES_PER_CHUNK
  }

  lemma SameViewTrans(s: Lfs, t: Lfs, u: Lfs)
    requires SameView(s, t) && SameView(t, u)
    ensures SameView(s, u)
  {
    GrowsTrans(s.disk, t.disk, u.disk);
  }

  /** Logging chunks of the map changes nothing visible, and makes the chunks match. */
  lemma {:induction false} UpdateImapKeeps(s: Lfs, inums: seq<nat>, chunks: seq<nat>, bad: set<int>)
    requires Good(s) && (forall k :: 0 <= k < |inums| ==> inums[k] < NUM_INODES)
    ensures SameView(s, UpdateImap(s, inums, chunks)) && UpdateImap(s, inums, chunks).inodeMap == s.inodeMap
    ensures MatchesBut(s, bad) && (forall c :: c in chunks ==> c !in bad) ==>
              MatchesBut(UpdateImap(s, inums, chunks), bad - Chunks(inums))
    decreases |inums|
  {
    if inums == [] {
      assert bad - Chunks(inums) == bad;
    } else {
      var c := inums[0] / INODES_PER_CHUNK;
      ChunksFirst(inums);
      if c in chunks {
        UpdateImapKeeps(s, inums[1..], chunks, bad);
        if c !in bad {
          assert bad - Chunks(inums[1..]) == bad - Chunks(inums);
        }
      } else {
        LogChunkKeeps(s, c);
        if MatchesBut(s, bad) {
          MatchesChunk(s, c, bad);
        }
        UpdateImapKeeps(LogChunk(s, c), inums[1..], chunks + [c], bad - {c});
        SameViewTrans(s, LogChunk(s, c), UpdateImap(s, inums, chunks));
        assert (bad - {c}) - Chunks(inums[1..]) == bad - Chunks(inums);
      }
    }
  }

  lemma ChunksFirst(inums: seq<nat>)
    requires inums != []
    ensures Chunks(inums) == {inums[0] / INODES_PER_CHUNK} + Chunks(inums[1..])
  {
    var t := inums[1..];
    forall x | x in Chunks(inums)
      ensures x in {inums[0] / INODES_PER_CHUNK} + Chunks(t)
    {
      var k :| 0 <= k < |inums| && x == inums[k] / INODES_PER_CHUNK;
      if k > 0 {
        assert t[k - 1] == inums[k];
      }
    }
    forall x | x in Chunks(t)
      ensures x in Chunks(inums)
    {
      var k :| 0 <= k < |t| && x == t[k] / INODES_PER_CHUNK;
      assert inums[k + 1] == t[k];
    }
  }

  lemma GrowsSync(s: Lfs)
    requires s.disk != []
    ensures Grows(s.disk, Sync(s).disk)
  {
  }

  /** A checkpoint leaves the tree in memory, and puts it on disk when the chunks match. */
  lemma SyncKeeps(s: Lfs)
    requires Good(s)
    ensures Good(Sync(s)) && Tree(Sync(s).disk, Sync(s).inodeMap) == Tree(s.disk, s.inodeMap)
    ensures Matches(s) ==> Matches(Sync(s)) && DiskTree(Sync(s).disk) == Tree(s.disk, s.inodeMap)
  {
    var t := Sync(s);
    GrowsSync(s);
    TreeFrame(s.disk, t.disk, s.inodeMap);
    CrFrame(s.disk, t.disk, s.cr);
    if Matches(s) {
      forall c: nat | c < NUM_CHUNKS
        ensures ChunkMatches(t, c)
      {
        assert ChunkMatches(s, c);
        assert ImapOk(s.disk, s.cr[c]);
      }
      MatchingMap(t);
    }
  }

  /** Matching chunks hold the map in memory. */
  lemma MatchingMap(s: Lfs)
    requires Matches(s) && CrOk(s.disk, s.cr)
    ensures CrMap(s.disk, s.cr) == s.inodeMap
  {
    forall n | 0 <= n < NUM_INODES
      ensures CrEntry(s.disk, s.cr, n) == s.inodeMap[n]
    {
      assert ChunkMatches(s, n / INODES_PER_CHUNK);
      assert ChunkOf(s.inodeMap, n / INODES_PER_CHUNK)[n % INODES_PER_CHUNK] == s.inodeMap[n];
    }
  }

  // ---------- Lookup by number ----------

  /** The address of an inode, by the checkpoint on disk or by the map in memory. */
  function Address(s: Lfs, useDisk: bool, n: nat): int
    requires DiskOk(s.disk) && |s.inodeMap| == NUM_INODES && n < NUM_INODES
  {
    if useDisk then CrEntry(s.disk, s.disk[0].entries, n) else s.inodeMap[n]
  }

  /** The checkpoint on disk is the one in memory. */
  predicate Synced(s: Lfs) {
    s.disk != [] && s.disk[0] == Checkpoint(s.cr)
  }

  /** With the checkpoint on disk and its chunks up to date, the two lookups find the same inode. */
  lemma LookupsAgree(s: Lfs, n: nat)
    requires Good(s) && Matches(s) && Synced(s) && n < NUM_INODES
    ensures Address(s, true, n) == Address(s, false, n)
    ensures s.inodeMap[n] != -1 ==> s.cr[n / INODES_PER_CHUNK] != -1
    ensures DiskTree(s.disk) == Tree(s.disk, s.inodeMap)
  {
    MatchingMap(s);
    assert ChunkMatches(s, n / INODES_PER_CHUNK);
    assert ChunkOf(s.inodeMap, n / INODES_PER_CHUNK)[n % INODES_PER_CHUNK] == s.inodeMap[n];
  }
}
