/**
 The on-disk state that vsfs.py and fsck.py print: bitmaps, inodes and data blocks. What the operations
 do to it, why they keep it consistent, and which corruptions a consistency check must notice.
 */
module Vsfs {
  import opened Arith
  import opened Sums

  const MAX_USED := 32
  const ROOT := 0

  datatype FType = DIR | REG | FREE

  datatype Inode = Inode(ftype: FType, addr: int, refCnt: int)

  datatype Entry = Entry(name: string, inum: int)

  datatype Block = Block(ftype: FType, dirUsed: int, dirList: seq<Entry>, data: string)

  datatype Disk = Disk(ibits: seq<int>, inodes: seq<Inode>, dbits: seq<int>, data: seq<Block>)

  // ---------- Counting entries ----------

  function Is(n: int): Entry -> int {
    (e: Entry) => if e.inum == n then 1 else 0
  }

  function Naming(n: int): Block -> int {
    (b: Block) => if b.ftype == DIR then Sum(b.dirList, Is(n)) else 0
  }

  /** The number of directory entries that name an inode. */
  function Entries(data: seq<Block>, n: int): int {
    Sum(data, Naming(n))
  }

  lemma EntriesAtLeast(data: seq<Block>, b: nat, k: nat, n: int)
    requires b < |data| && data[b].ftype == DIR && k < |data[b].dirList| && data[b].dirList[k].inum == n
    ensures Entries(data, n) >= 1
  {
    SumAtLeast(data[b].dirList, Is(n), k);
    forall j | 0 <= j < |data|
      ensures Naming(n)(data[j]) >= 0
    {
      if data[j].ftype == DIR {
        SumNonNegative(data[j].dirList, Is(n));
      }
    }
    SumAtLeast(data, Naming(n), b);
  }

  // ---------- Consistency ----------

  predicate Live(d: Disk, n: int) {
    0 <= n < |d.inodes| && d.inodes[n].ftype != FREE
  }

  predicate InodeBit(d: Disk, n: nat)
    requires n < |d.inodes| == |d.ibits|
  {
    d.ibits[n] == Bit(d.inodes[n].ftype != FREE)
  }

  predicate BlockBit(d: Disk, b: nat)
    requires b < |d.data| == |d.dbits|
  {
    d.dbits[b] == Bit(d.data[b].ftype != FREE)
  }

  /** The inode's block is of its type, a directory has one, and its count is that of its entries. */
  predicate InodeOk(d: Disk, n: nat)
    requires n < |d.inodes|
  {
    var x := d.inodes[n];
    x.ftype != FREE ==>
      && (if x.addr == -1 then x.ftype == REG else 0 <= x.addr < |d.data| && d.data[x.addr].ftype == x.ftype)
      && x.refCnt == Entries(d.data, n)
  }

  predicate EntryOk(d: Disk, b: nat, k: nat)
    requires b < |d.data| && k < |d.data[b].dirList|
  {
    Live(d, d.data[b].dirList[k].inum)
  }

  predicate EntriesOk(d: Disk, b: nat)
    requires b < |d.data|
  {
    forall k: nat :: k < |d.data[b].dirList| ==> EntryOk(d, b, k)
  }

  predicate BlockOk(d: Disk, b: nat)
    requires b < |d.data|
  {
    d.data[b].ftype == DIR ==> d.data[b].dirUsed == |d.data[b].dirList| <= MAX_USED && EntriesOk(d, b)
  }

  predicate Owns(d: Disk, n: int, b: nat) {
    Live(d, n) && d.inodes[n].addr == b
  }

  /** A block in use has one owner. */
  predicate OneOwner(d: Disk, b: nat)
    requires b < |d.data|
  {
    && (d.data[b].ftype != FREE ==> exists n: nat :: n < |d.inodes| && Owns(d, n, b))
    && (forall n: nat, m: nat :: n < |d.inodes| && m < |d.inodes| && Owns(d, n, b) && Owns(d, m, b) ==> n == m)
  }

  /** Bitmaps match inodes and blocks, blocks in use have one owner of their type, entries name live inodes,
      and reference counts count the entries. */
  predicate Consistent(d: Disk) {
    && |d.ibits| == |d.inodes| && |d.dbits| == |d.data|
    && (forall n: nat :: n < |d.inodes| ==> InodeBit(d, n))
    && (forall b: nat :: b < |d.data| ==> BlockBit(d, b))
    && (forall n: nat :: n < |d.inodes| ==> InodeOk(d, n))
    && (forall b: nat :: b < |d.data| ==> BlockOk(d, b))
    && (forall b: nat :: b < |d.data| ==> OneOwner(d, b))
  }

  // ---------- Operations ----------

  function WithEntry(b: Block, name: string, n: int): Block {
    b.(dirUsed := b.dirUsed + 1, dirList := b.dirList + [Entry(name, n)])
  }

  function WithoutEntry(b: Block, k: nat): Block
    requires k < |b.dirList|
  {
    b.(dirUsed := b.dirUsed - 1, dirList := b.dirList[..k] + b.dirList[k + 1..])
  }

  function MoreRefs(x: Inode, k: int): Inode {
    x.(refCnt := x.refCnt + k)
  }

  /** A directory in use with room for an entry. */
  predicate Room(d: Disk, p: int) {
    && Live(d, p) && d.inodes[p].ftype == DIR && 0 <= d.inodes[p].addr < |d.data|
    && d.data[d.inodes[p].addr].ftype == DIR && d.data[d.inodes[p].addr].dirUsed < MAX_USED
  }

  /** A new file: inode n, with no block, under a name of directory p. */
  function NewFile(d: Disk, p: nat, name: string, n: nat): Disk
    requires Room(d, p) && n < |d.inodes| == |d.ibits|
  {
    var pb := d.inodes[p].addr;
    Disk(d.ibits[n := 1], d.inodes[n := Inode(REG, -1, 1)], d.dbits, d.data[pb := WithEntry(d.data[pb], name, n)])
  }

  function NewDirBlock(b: Block, p: nat, n: nat): Block {
    WithEntry(WithEntry(b.(ftype := DIR), ".", n), "..", p)
  }

  /** A new directory: inode n with block b. */
  function NewDir(d: Disk, p: nat, name: string, n: nat, b: nat): Disk
    requires Room(d, p) && n < |d.inodes| == |d.ibits| && b < |d.data| == |d.dbits|
  {
    var pb := d.inodes[p].addr;
    var data := d.data[b := NewDirBlock(d.data[b], p, n)];
    var inodes := d.inodes[n := Inode(DIR, b, 2)];
    Disk(d.ibits[n := 1], inodes[p := MoreRefs(inodes[p], 1)], d.dbits[b := 1],
         data[pb := WithEntry(data[pb], name, n)])
  }

  /** A second name for inode t. */
  function NewLink(d: Disk, p: nat, name: string, t: nat): Disk
    requires Room(d, p) && t < |d.inodes|
  {
    var pb := d.inodes[p].addr;
    d.(inodes := d.inodes[t := MoreRefs(d.inodes[t], 1)], data := d.data[pb := WithEntry(d.data[pb], name, t)])
  }

  /** The first block of file n. */
  function NewData(d: Disk, n: nat, b: nat, text: string): Disk
    requires n < |d.inodes| && b < |d.data| == |d.dbits|
  {
    d.(inodes := d.inodes[n := d.inodes[n].(addr := b)], dbits := d.dbits[b := 1],
       data := d.data[b := d.data[b].(ftype := REG, data := text)])
  }

  /** A name less for file n; with the last name go the inode and its block. */
  function DropName(d: Disk, n: nat): Disk
    requires n < |d.inodes| == |d.ibits| && |d.data| == |d.dbits|
             && (d.inodes[n].addr == -1 || 0 <= d.inodes[n].addr < |d.data|)
  {
    var x := d.inodes[n];
    if x.refCnt != 1 then d.(inodes := d.inodes[n := MoreRefs(x, -1)])
    else
      var t := d.(ibits := d.ibits[n := 0], inodes := d.inodes[n := x.(ftype := FREE, addr := -1)]);
      if x.addr == -1 then t
      else t.(dbits := t.dbits[x.addr := 0], data := t.data[x.addr := t.data[x.addr].(ftype := FREE, data := "")])
  }

  function DropEntry(d: Disk, pb: nat, k: nat): Disk
    requires pb < |d.data| && k < |d.data[pb].dirList|
  {
    d.(data := d.data[pb := WithoutEntry(d.data[pb], k)])
  }

  // ---------- How operations change the counts ----------

  lemma SumOne(e: Entry, n: int)
    ensures Sum([e], Is(n)) == Bit(e.inum == n)
  {
    assert [e][1..] == [];
  }

  lemma AddCount(data: seq<Block>, pb: nat, name: string, n: int, k: int)
    requires pb < |data| && data[pb].ftype == DIR
    ensures Entries(data[pb := WithEntry(data[pb], name, n)], k) == Entries(data, k) + Bit(n == k)
  {
    SumUpdate(data, pb, WithEntry(data[pb], name, n), Naming(k));
    SumSplit(data[pb].dirList, [Entry(name, n)], Is(k));
    SumOne(Entry(name, n), k);
  }

  lemma DropCount(data: seq<Block>, pb: nat, i: nat, k: int)
    requires pb < |data| && data[pb].ftype == DIR && i < |data[pb].dirList|
    ensures Entries(data[pb := WithoutEntry(data[pb], i)], k) == Entries(data, k) - Bit(data[pb].dirList[i].inum == k)
  {
    var s := data[pb].dirList;
    SumUpdate(data, pb, WithoutEntry(data[pb], i), Naming(k));
    SumSplit(s[..i], s[i + 1..], Is(k));
    SumSplit(s[..i], [s[i]] + s[i + 1..], Is(k));
    SumSplit([s[i]], s[i + 1..], Is(k));
    SumOne(s[i], k);
    assert s == s[..i] + ([s[i]] + s[i + 1..]);
  }

  /** A block that is no directory, before or after, does not change the counts. */
  lemma PlainCount(data: seq<Block>, b: nat, x: Block, k: int)
    requires b < |data| && data[b].ftype != DIR && x.ftype != DIR
    ensures Entries(data[b := x], k) == Entries(data, k)
  {
    SumUpdate(data, b, x, Naming(k));
  }

  lemma NewDirCount(data: seq<Block>, b: nat, p: nat, n: nat, k: int)
    requires b < |data| && data[b].ftype == FREE && data[b].dirList == []
    ensures Entries(data[b := NewDirBlock(data[b], p, n)], k) == Entries(data, k) + Bit(n == k) + Bit(p == k)
  {
    var x := NewDirBlock(data[b], p, n);
    SumUpdate(data, b, x, Naming(k));
    assert x.dirList == [Entry(".", n)] + [Entry("..", p)];
    SumSplit([Entry(".", n)], [Entry("..", p)], Is(k));
    SumOne(Entry(".", n), k);
    SumOne(Entry("..", p), k);
  }

  // ---------- Operations keep consistency ----------

  /** Inodes that were live stay live. */
  ghost predicate StayLive(d: Disk, d2: Disk) {
    |d2.inodes| == |d.inodes| && forall n :: Live(d, n) ==> Live(d2, n)
  }

  lemma BlockStaysOk(d: Disk, d2: Disk, b: nat)
    requires b < |d.data| && b < |d2.data| && d2.data[b] == d.data[b] && BlockOk(d, b) && StayLive(d, d2)
    ensures BlockOk(d2, b)
  {
    if d.data[b].ftype == DIR {
      forall k: nat | k < |d2.data[b].dirList|
        ensures EntryOk(d2, b, k)
      {
        assert EntryOk(d, b, k);
      }
    }
  }

  /** One entry more keeps the block, if its inode is live. */
  lemma EntryAdded(d: Disk, d2: Disk, b: nat, name: string, n: int)
    requires b < |d.data| && b < |d2.data| && d.data[b].ftype == DIR && d.data[b].dirUsed < MAX_USED && BlockOk(d, b)
    requires d2.data[b] == WithEntry(d.data[b], name, n) && StayLive(d, d2) && Live(d2, n)
    ensures BlockOk(d2, b)
  {
    forall k: nat | k < |d2.data[b].dirList|
      ensures EntryOk(d2, b, k)
    {
      if k < |d.data[b].dirList| {
        assert EntryOk(d, b, k);
      }
    }
  }

  /** Owners do not change when addresses and types in use do not. */
  lemma OwnersSame(d: Disk, d2: Disk, b: nat)
    requires b < |d.data| && b < |d2.data| && OneOwner(d, b) && d2.data[b].ftype == d.data[b].ftype
    requires |d2.inodes| == |d.inodes| && forall n: nat :: n < |d.inodes| ==> Owns(d2, n, b) == Owns(d, n, b)
    ensures OneOwner(d2, b)
  {
    if n: nat :| n < |d.inodes| && Owns(d, n, b) {
      assert Owns(d2, n, b);
    }
  }

  predicate FreshInode(d: Disk, n: nat) {
    n < |d.inodes| && d.inodes[n].ftype == FREE
  }

  /** A clean block holds no entries. */
  predicate FreshBlock(d: Disk, b: nat) {
    b < |d.data| && d.data[b].ftype == FREE && d.data[b].dirList == [] && d.data[b].dirUsed == 0
  }

  /** Nothing names a free inode. */
  lemma {:induction false} NoEntries(d: Disk, data: seq<Block>, n: int)
    requires !Live(d, n)
    requires forall b, k :: 0 <= b < |data| && data[b].ftype == DIR && 0 <= k < |data[b].dirList| ==>
               Live(d, data[b].dirList[k].inum)
    ensures Entries(data, n) == 0
  {
    if data != [] {
      NoEntries(d, data[1..], n);
      if data[0].ftype == DIR {
        SumZero(data[0].dirList, Is(n));
      }
    }
  }

  lemma Unnamed(d: Disk, n: int)
    requires Consistent(d) && !Live(d, n)
    ensures Entries(d.data, n) == 0
  {
    forall b, k | 0 <= b < |d.data| && d.data[b].ftype == DIR && 0 <= k < |d.data[b].dirList|
      ensures Live(d, d.data[b].dirList[k].inum)
    {
      assert BlockOk(d, b) && EntryOk(d, b, k);
    }
    NoEntries(d, d.data, n);
  }

  lemma NewFileOk(d: Disk, p: nat, name: string, n: nat)
    requires Consistent(d) && Room(d, p) && FreshInode(d, n)
    ensures Consistent(NewFile(d, p, name, n))
  {
    var d2, pb := NewFile(d, p, name, n), d.inodes[p].addr;
    Unnamed(d, n);
    forall m: nat | m < |d2.inodes|
      ensures InodeBit(d2, m) && InodeOk(d2, m)
    {
      assert InodeBit(d, m) && InodeOk(d, m);
      AddCount(d.data, pb, name, n, m);
    }
    forall b: nat | b < |d2.data|
      ensures BlockBit(d2, b) && BlockOk(d2, b) && OneOwner(d2, b)
    {
      assert BlockBit(d, b) && BlockOk(d, b) && OneOwner(d, b);
      OwnersSame(d, d2, b);
      if b == pb {
        EntryAdded(d, d2, b, name, n);
      } else {
        BlockStaysOk(d, d2, b);
      }
    }
  }

  lemma NewLinkOk(d: Disk, p: nat, name: string, t: nat)
    requires Consistent(d) && Room(d, p) && Live(d, t)
    ensures Consistent(NewLink(d, p, name, t))
  {
    var d2, pb := NewLink(d, p, name, t), d.inodes[p].addr;
    forall m: nat | m < |d2.inodes|
      ensures InodeBit(d2, m) && InodeOk(d2, m)
    {
      assert InodeBit(d, m) && InodeOk(d, m);
      AddCount(d.data, pb, name, t, m);
    }
    forall b: nat | b < |d2.data|
      ensures BlockBit(d2, b) && BlockOk(d2, b) && OneOwner(d2, b)
    {
      assert BlockBit(d, b) && BlockOk(d, b) && OneOwner(d, b);
      OwnersSame(d, d2, b);
      if b == pb {
        EntryAdded(d, d2, b, name, t);
      } else {
        BlockStaysOk(d, d2, b);
      }
    }
  }

  /** A free block has no owner. */
  lemma NoOwner(d: Disk, b: nat, n: nat)
    requires Consistent(d) && b < |d.data| && d.data[b].ftype == FREE && n < |d.inodes|
    ensures !Owns(d, n, b)
  {
    assert InodeOk(d, n);
  }

  lemma NewDataOk(d: Disk, n: nat, b: nat, text: string)
    requires Consistent(d) && Live(d, n) && d.inodes[n].ftype == REG && d.inodes[n].addr == -1 && FreshBlock(d, b)
    ensures Consistent(NewData(d, n, b, text))
  {
    var d2 := NewData(d, n, b, text);
    forall m: nat | m < |d2.inodes|
      ensures InodeBit(d2, m) && InodeOk(d2, m)
    {
      assert InodeBit(d, m) && InodeOk(d, m);
      NoOwner(d, b, m);
      PlainCount(d.data, b, d2.data[b], m);
    }
    forall c: nat | c < |d2.data|
      ensures BlockBit(d2, c) && BlockOk(d2, c) && OneOwner(d2, c)
    {
      assert BlockBit(d, c) && BlockOk(d, c) && OneOwner(d, c);
      if c == b {
        NewOwner(d, d2, n, b);
      } else {
        BlockStaysOk(d, d2, c);
        OwnersSame(d, d2, c);
      }
    }
  }

  /** The block that had no owner now has one. */
  lemma NewOwner(d: Disk, d2: Disk, n: nat, b: nat)
    requires Consistent(d) && n < |d.inodes| == |d2.inodes| && b < |d.data| && b < |d2.data| && d.data[b].ftype == FREE
    requires Owns(d2, n, b) && forall m: nat :: m < |d.inodes| && m != n ==> Owns(d2, m, b) == Owns(d, m, b)
    ensures OneOwner(d2, b)
  {
    forall m: nat | m < |d.inodes|
      ensures !Owns(d, m, b)
    {
      NoOwner(d, b, m);
    }
  }

  lemma NewDirInode(d: Disk, p: nat, name: string, n: nat, b: nat, m: nat)
    requires Consistent(d) && Room(d, p) && FreshInode(d, n) && FreshBlock(d, b) && m < |d.inodes|
    ensures var d2 := NewDir(d, p, name, n, b); InodeBit(d2, m) && InodeOk(d2, m)
  {
    var d2, pb := NewDir(d, p, name, n, b), d.inodes[p].addr;
    Unnamed(d, n);
    assert InodeBit(d, m) && InodeOk(d, m);
    NoOwner(d, b, m);
    NewDirCount(d.data, b, p, n, m);
    AddCount(d.data[b := NewDirBlock(d.data[b], p, n)], pb, name, n, m);
  }

  lemma NewDirBlockOk(d: Disk, p: nat, name: string, n: nat, b: nat, c: nat)
    requires Consistent(d) && Room(d, p) && FreshInode(d, n) && FreshBlock(d, b) && c < |d.data|
    ensures var d2 := NewDir(d, p, name, n, b); BlockBit(d2, c) && BlockOk(d2, c) && OneOwner(d2, c)
  {
    var d2, pb := NewDir(d, p, name, n, b), d.inodes[p].addr;
    assert BlockBit(d, c) && BlockOk(d, c) && OneOwner(d, c);
    if c == b {
      NewOwner(d, d2, n, b);
      forall k: nat | k < |d2.data[b].dirList|
        ensures EntryOk(d2, b, k)
      {
      }
    } else {
      OwnersSame(d, d2, c);
      if c == pb {
        EntryAdded(d, d2, c, name, n);
      } else {
        BlockStaysOk(d, d2, c);
      }
    }
  }

  lemma NewDirOk(d: Disk, p: nat, name: string, n: nat, b: nat)
    requires Consistent(d) && Room(d, p) && FreshInode(d, n) && FreshBlock(d, b)
    ensures Consistent(NewDir(d, p, name, n, b))
  {
    var d2 := NewDir(d, p, name, n, b);
    forall m: nat | m < |d2.inodes|
      ensures InodeBit(d2, m) && InodeOk(d2, m)
    {
      NewDirInode(d, p, name, n, b, m);
    }
    forall c: nat | c < |d2.data|
      ensures BlockBit(d2, c) && BlockOk(d2, c) && OneOwner(d2, c)
    {
      NewDirBlockOk(d, p, name, n, b, c);
    }
  }

  /** The entry to be deleted names file n. */
  predicate Names(d: Disk, pb: nat, k: nat, n: nat) {
    && pb < |d.data| && d.data[pb].ftype == DIR && k < |d.data[pb].dirList| && d.data[pb].dirList[k].inum == n
    && n < |d.inodes| && d.inodes[n].ftype == REG
  }

  function Deleted(d: Disk, pb: nat, k: nat, n: nat): (d2: Disk)
    requires Consistent(d) && Names(d, pb, k, n)
    ensures |d2.inodes| == |d.inodes| == |d2.ibits| && |d2.data| == |d.data| == |d2.dbits|
  {
    assert InodeOk(d, n);
    DropEntry(DropName(d, n), pb, k)
  }

  lemma DeletedCount(d: Disk, pb: nat, k: nat, n: nat, m: int)
    requires Consistent(d) && Names(d, pb, k, n)
    ensures Entries(Deleted(d, pb, k, n).data, m) == Entries(d.data, m) - Bit(m == n)
  {
    assert InodeOk(d, n);
    var t := DropName(d, n);
    if d.inodes[n].refCnt == 1 && d.inodes[n].addr != -1 {
      PlainCount(d.data, d.inodes[n].addr, t.data[d.inodes[n].addr], m);
    }
    DropCount(t.data, pb, k, m);
  }

  lemma DeletedInode(d: Disk, pb: nat, k: nat, n: nat, m: nat)
    requires Consistent(d) && Names(d, pb, k, n) && m < |d.inodes|
    ensures var d2 := Deleted(d, pb, k, n); InodeBit(d2, m) && InodeOk(d2, m)
  {
    assert InodeBit(d, m) && InodeOk(d, m) && InodeOk(d, n);
    DeletedCount(d, pb, k, n, m);
    if m != n && d.inodes[n].addr != -1 {
      assert OneOwner(d, d.inodes[n].addr);
      assert Owns(d, n, d.inodes[n].addr);
      assert Owns(d, m, d.inodes[n].addr) ==> m == n;
    }
  }

  /** After the last name is gone no entry names the file. */
  lemma DeletedEntry(d: Disk, pb: nat, k: nat, n: nat, c: nat, j: nat)
    requires Consistent(d) && Names(d, pb, k, n) && c < |d.data|
    requires Deleted(d, pb, k, n).data[c].ftype == DIR && j < |Deleted(d, pb, k, n).data[c].dirList|
    ensures EntryOk(Deleted(d, pb, k, n), c, j)
  {
    var d2 := Deleted(d, pb, k, n);
    assert BlockOk(d, c) && InodeOk(d, n);
    var i := if c == pb && j >= k then j + 1 else j;
    assert d2.data[c].dirList[j] == d.data[c].dirList[i];
    assert EntryOk(d, c, i);
    if d2.data[c].dirList[j].inum == n {
      DeletedCount(d, pb, k, n, n);
      EntriesAtLeast(d2.data, c, j, n);
    }
  }

  lemma DeletedBlock(d: Disk, pb: nat, k: nat, n: nat, c: nat)
    requires Consistent(d) && Names(d, pb, k, n) && c < |d.data|
    ensures var d2 := Deleted(d, pb, k, n); BlockBit(d2, c) && BlockOk(d2, c)
  {
    var d2 := Deleted(d, pb, k, n);
    assert BlockBit(d, c) && BlockOk(d, c) && InodeOk(d, n);
    if d2.data[c].ftype == DIR {
      forall j: nat | j < |d2.data[c].dirList|
        ensures EntryOk(d2, c, j)
      {
        DeletedEntry(d, pb, k, n, c, j);
      }
    }
  }

  lemma DeletedOwner(d: Disk, pb: nat, k: nat, n: nat, c: nat)
    requires Consistent(d) && Names(d, pb, k, n) && c < |d.data|
    ensures OneOwner(Deleted(d, pb, k, n), c)
  {
    var d2 := Deleted(d, pb, k, n);
    assert OneOwner(d, c) && InodeOk(d, n);
    forall m: nat | m < |d.inodes|
      ensures Owns(d2, m, c) == (Owns(d, m, c) && !(m == n && d.inodes[n].refCnt == 1))
    {
    }
    if m: nat :| m < |d.inodes| && Owns(d, m, c) {
      assert m == n || Owns(d2, m, c);
    }
  }

  lemma DeletedOk(d: Disk, pb: nat, k: nat, n: nat)
    requires Consistent(d) && Names(d, pb, k, n)
    ensures Consistent(Deleted(d, pb, k, n))
  {
    var d2 := Deleted(d, pb, k, n);
    assert InodeOk(d, n);
    forall m: nat | m < |d2.inodes|
      ensures InodeBit(d2, m) && InodeOk(d2, m)
    {
      DeletedInode(d, pb, k, n, m);
    }
    forall c: nat | c < |d2.data|
      ensures BlockBit(d2, c) && BlockOk(d2, c) && OneOwner(d2, c)
    {
      DeletedBlock(d, pb, k, n, c);
      DeletedOwner(d, pb, k, n, c);
    }
  }

  // ---------- Corruption ----------

  /** What fsck.py damages. `up` tells which way a count goes. */
  datatype Corruption =
    | DataBit(b: nat)
    | InodeBitmap(n: nat)
    | RefCnt(n: nat, up: bool)
    | Orphan(n: nat, asDir: bool)
    | BadBlock(n: nat, b: nat)
    | TypeSwitch(n: nat)
    | BadEntry(n: nat, k: nat, free: int)
    | Rename(n: nat, k: nat, name: string)

  /** What corrupt's random picks allow. */
  predicate Possible(d: Disk, c: Corruption)
    requires Consistent(d)
  {
    match c
    case DataBit(b) => b < |d.dbits|
    case InodeBitmap(n) => n < |d.ibits|
    case RefCnt(n, _) => Live(d, n)
    case Orphan(n, _) => n < |d.inodes| && d.inodes[n].ftype == FREE
    case BadBlock(n, b) => Live(d, n) && b < |d.data| && d.data[b].ftype == FREE
    case TypeSwitch(n) => Live(d, n)
    case BadEntry(n, k, free) => DirEntry(d, n, k) && (free == -1 || (0 <= free < |d.ibits| && d.ibits[free] == 0))
    case Rename(n, k, _) => DirEntry(d, n, k)
  }

  predicate DirEntry(d: Disk, n: nat, k: nat) {
    Live(d, n) && d.inodes[n].ftype == DIR && 0 <= d.inodes[n].addr < |d.data| && k < |d.data[d.inodes[n].addr].dirList|
  }

  function SetEntry(d: Disk, b: nat, k: nat, e: Entry): Disk
    requires b < |d.data| && k < |d.data[b].dirList|
  {
    d.(data := d.data[b := d.data[b].(dirList := d.data[b].dirList[k := e])])
  }

  function Corrupt(d: Disk, c: Corruption): Disk
    requires Consistent(d) && Possible(d, c)
  {
    match c
    case DataBit(b) => d.(dbits := d.dbits[b := 1 - d.dbits[b]])
    case InodeBitmap(n) => d.(ibits := d.ibits[n := 1 - d.ibits[n]])
    case RefCnt(n, up) => d.(inodes := d.inodes[n := MoreRefs(d.inodes[n], if up then 1 else -1)])
    case Orphan(n, asDir) => d.(inodes := d.inodes[n := Inode(if asDir then DIR else REG, -1, 1)])
    case BadBlock(n, b) => d.(inodes := d.inodes[n := d.inodes[n].(addr := b)])
    case TypeSwitch(n) =>
      d.(inodes := d.inodes[n := d.inodes[n].(ftype := if d.inodes[n].ftype == DIR then REG else DIR)])
    case BadEntry(n, k, free) =>
      var b := d.inodes[n].addr;
      SetEntry(d, b, k, Entry(d.data[b].dirList[k].name, free))
    case Rename(n, k, name) =>
      var b := d.inodes[n].addr;
      SetEntry(d, b, k, Entry(name, d.data[b].dirList[k].inum))
  }

  /** The other name changes no count and no owner. */
  lemma RenameOk(d: Disk, n: nat, k: nat, name: string)
    requires Consistent(d) && DirEntry(d, n, k)
    ensures Consistent(Corrupt(d, Rename(n, k, name)))
  {
    var d2, b := Corrupt(d, Rename(n, k, name)), d.inodes[n].addr;
    var s, e := d.data[b].dirList, Entry(name, d.data[b].dirList[k].inum);
    assert InodeOk(d, n);
    forall m: nat | m < |d2.inodes|
      ensures InodeBit(d2, m) && InodeOk(d2, m)
    {
      assert InodeBit(d, m) && InodeOk(d, m);
      SumUpdate(s, k, e, Is(m));
      SumUpdate(d.data, b, d2.data[b], Naming(m));
    }
    forall c: nat | c < |d2.data|
      ensures BlockBit(d2, c) && BlockOk(d2, c) && OneOwner(d2, c)
    {
      assert BlockBit(d, c) && BlockOk(d, c) && OneOwner(d, c);
      OwnersSame(d, d2, c);
      forall j: nat | j < |d2.data[c].dirList| && d.data[c].ftype == DIR
        ensures EntryOk(d2, c, j)
      {
        assert EntryOk(d, c, j);
      }
    }
  }

  lemma BadEntryShows(d: Disk, n: nat, k: nat, free: int)
    requires Consistent(d) && Possible(d, BadEntry(n, k, free))
    ensures !Consistent(Corrupt(d, BadEntry(n, k, free)))
  {
    var d2, b := Corrupt(d, BadEntry(n, k, free)), d.inodes[n].addr;
    assert InodeOk(d, n);
    assert free != -1 ==> InodeBit(d, free);
    assert !EntryOk(d2, b, k);
    assert !BlockOk(d2, b);
  }

  lemma InodeShows(d: Disk, c: Corruption)
    requires Consistent(d) && Possible(d, c) && (c.RefCnt? || c.BadBlock? || c.TypeSwitch?)
    ensures !Consistent(Corrupt(d, c))
  {
    var d2, n := Corrupt(d, c), c.n;
    assert InodeOk(d, n);
    assert !InodeOk(d2, n);
  }

  lemma BitShows(d: Disk, c: Corruption)
    requires Consistent(d) && Possible(d, c) && (c.DataBit? || c.InodeBitmap? || c.Orphan?)
    ensures !Consistent(Corrupt(d, c))
  {
    var d2 := Corrupt(d, c);
    if c.DataBit? {
      assert BlockBit(d, c.b);
      assert !BlockBit(d2, c.b);
    } else {
      assert InodeBit(d, c.n);
      assert !InodeBit(d2, c.n);
    }
  }

  /** A consistency check notices every corruption but the change of a name. */
  lemma CorruptionShows(d: Disk, c: Corruption)
    requires Consistent(d) && Possible(d, c)
    ensures Consistent(Corrupt(d, c)) <==> c.Rename?
  {
    match c
    case Rename(n, k, name) => RenameOk(d, n, k, name);
    case BadEntry(n, k, free) => BadEntryShows(d, n, k, free);
    case RefCnt(_, _) => InodeShows(d, c);
    case BadBlock(_, _) => InodeShows(d, c);
    case TypeSwitch(_) => InodeShows(d, c);
    case _ => BitShows(d, c);
  }
}
