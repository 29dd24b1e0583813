/**
 The objects of vsfs.py and fsck.py: bitmaps that allocate, and a file system whose workload creates, links,
 appends and deletes. Each operation's new state is that of VsfsTree.dfy, and the assertions in the
 program hold. Random picks are inputs; inode and block objects are values in lists.
 */
module VsfsDrive {
  import opened Vsfs
  import opened VsfsTree
  import opened Collections
  import Bitmaps
  import opened Sums

  predicate AllTaken(bits: seq<int>) {
    forall i :: 0 <= i < |bits| ==> bits[i] == 1
  }

  class Bitmap {
    var bmap: seq<int>
    var numAllocated: int
    /** vsfs.py takes the first free bit, fsck.py any. */
    const firstFit: bool

    predicate Valid()
      reads this
    {
      Bitmaps.Bits(bmap) && numAllocated == Bitmaps.Ones(bmap)
    }

    constructor (size: nat, firstFit: bool)
      ensures Valid() && bmap == Zeros(size) && numAllocated == 0 && this.firstFit == firstFit
    {
      bmap, numAllocated := Zeros(size), 0;
      this.firstFit := firstFit;
      SumZero(Zeros(size), ID);
    }

    /** Takes a free bit; -1 when every bit is taken. */
    method Alloc() returns (num: int)
      requires Valid()
      modifies this
      ensures Valid()
      ensures num == -1 <==> AllTaken(old(bmap))
      ensures num == -1 ==> bmap == old(bmap) && numAllocated == old(numAllocated)
      ensures num != -1 ==> 0 <= num < |old(bmap)| && old(bmap)[num] == 0
                            && bmap == old(bmap)[num := 1] && numAllocated == old(numAllocated) + 1
      ensures num != -1 && firstFit ==> forall i :: 0 <= i < num ==> old(bmap)[i] == 1
    {
      Bitmaps.BitsCount(bmap);
      if firstFit {
        num := FirstFree();
      } else if numAllocated == |bmap| {
        num := -1;
      } else {
        num :| 0 <= num < |bmap| && bmap[num] == 0;
      }
      if num != -1 {
        SumUpdate(bmap, num, 1, ID);
        bmap := bmap[num := 1];
        numAllocated := numAllocated + 1;
      }
    }

    method FirstFree() returns (num: int)
      requires Valid()
      ensures num == -1 <==> AllTaken(bmap)
      ensures num != -1 ==> 0 <= num < |bmap| && bmap[num] == 0 && forall i :: 0 <= i < num ==> bmap[i] == 1
    {
      for i := 0 to |bmap|
        invariant forall k :: 0 <= k < i ==> bmap[k] == 1
      {
        if bmap[i] == 0 {
          return i;
        }
      }
      return -1;
    }

    method Free(num: nat)
      requires Valid() && num < |bmap| && bmap[num] == 1
      modifies this
      ensures Valid() && bmap == old(bmap)[num := 0] && numAllocated == old(numAllocated) - 1
    {
      SumUpdate(bmap, num, 0, ID);
      numAllocated := numAllocated - 1;
      bmap := bmap[num := 0];
    }

    /** Inverts a bit behind the counter's back. */
    method CorruptBit(which: nat)
      requires which < |bmap|
      modifies this
      ensures bmap == old(bmap)[which := 1 - old(bmap)[which]] && numAllocated == old(numAllocated)
    {
      bmap := bmap[which := 1 - bmap[which]];
    }

    method MarkAllocated(num: nat)
      requires Valid() && num < |bmap| && bmap[num] == 0
      modifies this
      ensures Valid() && bmap == old(bmap)[num := 1] && numAllocated == old(numAllocated) + 1
    {
      SumUpdate(bmap, num, 1, ID);
      numAllocated := numAllocated + 1;
      bmap := bmap[num := 1];
    }
  }

  /** The blocks and the inodes of a create before the entry is added. */
  function Prepared(s: State, parent: Path, name: string, isDir: bool, n: nat, b: int): (seq<Block>, seq<Inode>)
    requires CanCreate(s, parent, name, isDir, n, b)
  {
    var p := s.names[parent];
    if isDir then (s.disk.data[b := NewDirBlock(s.disk.data[b], p, n)],
                   s.disk.inodes[n := Inode(DIR, b, 2)][p := MoreRefs(s.disk.inodes[p], 1)])
    else (s.disk.data, s.disk.inodes[n := Inode(REG, -1, 1)])
  }

  /** The directory's block still has room, and with the entry the disk is that of the create. */
  lemma EntryFinishes(s: State, parent: Path, name: string, isDir: bool, n: nat, b: int)
    requires CanCreate(s, parent, name, isDir, n, b)
    ensures var p := s.names[parent];
            var pb := s.disk.inodes[p].addr;
            var (data, inodes) := Prepared(s, parent, name, isDir, n, b);
            && p < |inodes| && inodes[p].addr == pb && pb < |data| && data[pb].ftype == DIR
            && data[pb].dirUsed < MAX_USED
            && CreatedDisk(s, parent, name, isDir, n, b) ==
               Disk(s.disk.ibits[n := 1], inodes, if isDir then s.disk.dbits[b := 1] else s.disk.dbits,
                    data[pb := WithEntry(data[pb], name, n)])
  {
    Fresh(s.disk, n);
    if isDir {
      Fresh(s.disk, b);
    }
  }

  /** Deleting a name is dropping the reference, the entry and the listed name. */
  lemma DeleteParts(s: State, x: Path, k: nat)
    requires CanDelete(s, x, k)
    ensures var n, pb := s.names[x], s.disk.inodes[s.names[Parent(x)]].addr;
            && 0 <= n < |s.disk.inodes| == |s.disk.ibits| && |s.disk.data| == |s.disk.dbits|
            && s.disk.inodes[n].ftype == REG && InodeOk(s.disk, n)
            && 0 <= pb < |DropName(s.disk, n).data| && k < |DropName(s.disk, n).data[pb].dirList|
            && Without(s, x, k).disk == DropEntry(DropName(s.disk, n), pb, k)
  {
    assert TrackedFile(s, x);
    DeletesName(s, x, k);
    assert InodeOk(s.disk, s.names[x]);
  }

  class Fs {
    const ibitmap: Bitmap
    const dbitmap: Bitmap
    var inodes: seq<Inode>
    var data: seq<Block>
    var files: seq<Path>
    var dirs: seq<Path>
    var nameToInum: map<Path, int>

    ghost function S(): State
      reads this, ibitmap, dbitmap
    {
      State(Disk(ibitmap.bmap, inodes, dbitmap.bmap, data), ibitmap.numAllocated, dbitmap.numAllocated, files, dirs,
            nameToInum)
    }

    ghost predicate Ok()
      reads this, ibitmap, dbitmap
    {
      ibitmap != dbitmap && ibitmap.Valid() && dbitmap.Valid() && Valid(S())
    }

    constructor (numInodes: nat, numData: nat, firstFit: bool)
      requires numInodes > 0 && numData > 0
      ensures Ok() && S() == Start(numInodes, numData) && fresh(ibitmap) && fresh(dbitmap)
    {
      ibitmap := new Bitmap(numInodes, firstFit);
      dbitmap := new Bitmap(numData, firstFit);
      inodes := FreeInodes(numInodes);
      data := FreeBlocks(numData);
      files, dirs, nameToInum := [], [[]], map[[] := ROOT];
      new;
      ibitmap.MarkAllocated(ROOT);
      inodes := inodes[ROOT := Inode(DIR, 0, 2)];
      dbitmap.MarkAllocated(ROOT);
      MakeRootBlock();
      StartValid(numInodes, numData);
    }

    method MakeRootBlock()
      requires data != [] && data[0].dirUsed + 2 <= MAX_USED && data[0].dirList == []
      modifies this`data
      ensures data == old(data)[0 := NewDirBlock(old(data)[0], ROOT, ROOT)]
    {
      data := data[0 := data[0].(ftype := DIR)];
      AddDirEntry(0, ".", ROOT);
      AddDirEntry(0, "..", ROOT);
    }

    method AddDirEntry(b: nat, name: string, inum: int)
      requires b < |data| && data[b].ftype == DIR && data[b].dirUsed < MAX_USED
      modifies this`data
      ensures data == old(data)[b := WithEntry(old(data)[b], name, inum)]
    {
      data := data[b := data[b].(dirList := data[b].dirList + [Entry(name, inum)], dirUsed := data[b].dirUsed + 1)];
      assert data[b].dirUsed <= MAX_USED;
    }

    method DirEntryExists(b: Block, name: string) returns (found: bool)
      ensures found == Exists(b, name)
    {
      for i := 0 to |b.dirList|
        invariant forall k :: 0 <= k < i ==> b.dirList[k].name != name
      {
        if name == b.dirList[i].name {
          return true;
        }
      }
      return false;
    }

    /** Whether the directory has room and the name is free. */
    method CanAdd(parent: Path, name: string) returns (ok: bool)
      requires Ok() && parent in dirs
      ensures parent in nameToInum && IsDir(S().disk, nameToInum[parent])
      ensures ok <==> Room(S().disk, nameToInum[parent]) && !Exists(DirBlock(S().disk, nameToInum[parent]), name)
    {
      DirKnown(S(), parent);
      var pblock := inodes[nameToInum[parent]].addr;
      if MAX_USED - data[pblock].dirUsed <= 0 {
        return false;
      }
      var taken := DirEntryExists(data[pblock], name);
      ok := !taken;
    }

    /** Creates a file or a directory; -1 when the directory is full, the name is taken, or inodes or blocks run out. */
    method DoCreate(parent: Path, name: string, isDir: bool) returns (inum: int, ghost b: int)
      requires Ok() && parent in dirs
      modifies this, ibitmap, dbitmap
      ensures Ok()
      ensures inum == -1 ==> S() == old(S())
      ensures inum != -1 ==>
                && CanCreate(old(S()), parent, name, isDir, inum, b)
                && S() == Created(old(S()), parent, name, isDir, inum, b)
      ensures inum == -1 ==>
                || !Room(old(S()).disk, old(nameToInum)[parent])
                || Exists(DirBlock(old(S()).disk, old(nameToInum)[parent]), name)
                || AllTaken(old(ibitmap.bmap))
                || (isDir && AllTaken(old(dbitmap.bmap)))
    {
      ghost var s := S();
      b := -1;
      var ok := CanAdd(parent, name);
      if !ok {
        return -1, b;
      }
      inum := ibitmap.Alloc();
      if inum == -1 {
        return;
      }
      Fresh(s.disk, inum);
      if isDir {
        var fblock := MakeDir(nameToInum[parent], inum, s);
        b := fblock;
        if fblock == -1 {
          return -1, b;
        }
      } else {
        inodes := inodes[inum := Inode(REG, -1, 1)];
      }
      EntryFinishes(s, parent, name, isDir, inum, b);
      FinishCreate(parent, name, isDir, inum);
      CreatedValid(s, parent, name, isDir, inum, b);
    }

    /** The inode and block are made: what is left is the entry and the lists. */
    method FinishCreate(parent: Path, name: string, isDir: bool, inum: nat)
      requires parent in nameToInum && 0 <= nameToInum[parent] < |inodes|
               && 0 <= inodes[nameToInum[parent]].addr < |data|
      requires data[inodes[nameToInum[parent]].addr].ftype == DIR
               && data[inodes[nameToInum[parent]].addr].dirUsed < MAX_USED
      modifies this`data, this`files, this`dirs, this`nameToInum
      ensures var pb := inodes[old(nameToInum)[parent]].addr;
              S() == State(Disk(ibitmap.bmap, inodes, dbitmap.bmap,
                                old(data)[pb := WithEntry(old(data)[pb], name, inum)]),
                           ibitmap.numAllocated, dbitmap.numAllocated,
                           if isDir then old(files) else old(files) + [parent + [name]],
                           if isDir then old(dirs) + [parent + [name]] else old(dirs),
                           old(nameToInum)[parent + [name] := inum])
    {
      AddDirEntry(inodes[nameToInum[parent]].addr, name, inum);
      AddName(parent, name, inum, isDir);
    }

    /** The block and the inode of a new directory; without a block the inode goes back. */
    method MakeDir(p: nat, inum: nat, ghost s: State) returns (fblock: int)
      requires ibitmap != dbitmap && ibitmap.Valid() && dbitmap.Valid() && Valid(s)
      requires IsDir(s.disk, p) && FreshInode(s.disk, inum) && inum < |s.disk.ibits| && s.disk.ibits[inum] == 0
      requires S() == s.(disk := s.disk.(ibits := s.disk.ibits[inum := 1]), iused := s.iused + 1)
      modifies this`inodes, this`data, ibitmap, dbitmap
      ensures ibitmap.Valid() && dbitmap.Valid()
      ensures fblock == -1 <==> AllTaken(s.disk.dbits)
      ensures fblock == -1 ==> S() == s
      ensures fblock != -1 ==> 0 <= fblock < |s.disk.dbits| && s.disk.dbits[fblock] == 0
      ensures fblock != -1 ==>
                && ibitmap.bmap == s.disk.ibits[inum := 1] && ibitmap.numAllocated == s.iused + 1
                && dbitmap.bmap == s.disk.dbits[fblock := 1] && dbitmap.numAllocated == s.dused + 1
                && data == s.disk.data[fblock := NewDirBlock(s.disk.data[fblock], p, inum)]
                && inodes == s.disk.inodes[inum := Inode(DIR, fblock, 2)][p := MoreRefs(s.disk.inodes[p], 1)]
    {
      fblock := dbitmap.Alloc();
      if fblock == -1 {
        ibitmap.Free(inum);
        inodes := inodes[inum := inodes[inum].(ftype := FREE, addr := -1)];
        assert inodes == s.disk.inodes && ibitmap.bmap == s.disk.ibits;
        return;
      }
      Fresh(s.disk, fblock);
      assert data[fblock].ftype == FREE;
      data := data[fblock := data[fblock].(ftype := DIR)];
      AddDirEntry(fblock, ".", inum);
      AddDirEntry(fblock, "..", p);
      assert data == s.disk.data[fblock := NewDirBlock(s.disk.data[fblock], p, inum)];
      inodes := inodes[inum := Inode(DIR, fblock, 2)];
      inodes := inodes[p := MoreRefs(inodes[p], 1)];
    }

    method AddName(parent: Path, name: string, inum: int, isDir: bool)
      modifies this`files, this`dirs, this`nameToInum
      ensures files == (if isDir then old(files) else old(files) + [parent + [name]])
      ensures dirs == (if isDir then old(dirs) + [parent + [name]] else old(dirs))
      ensures nameToInum == old(nameToInum)[parent + [name] := inum]
    {
      if isDir {
        dirs := dirs + [parent + [name]];
      } else {
        files := files + [parent + [name]];
      }
      nameToInum := nameToInum[parent + [name] := inum];
    }

    /** Gives a file another name; -1 when the directory is full or the name is taken. */
    method DoLink(target: Path, parent: Path, name: string) returns (inum: int)
      requires Ok() && parent in dirs && target in files
      modifies this
      ensures Ok()
      ensures inum == -1 <==> !CanLink(old(S()), target, parent, name)
      ensures S() == if inum == -1 then old(S()) else Linked(old(S()), target, parent, name)
      ensures inum != -1 ==> inum == old(nameToInum)[target]
    {
      ghost var s := S();
      assert TrackedFile(s, target);
      var ok := CanAdd(parent, name);
      if !ok {
        return -1;
      }
      var pblock := inodes[nameToInum[parent]].addr;
      inum := nameToInum[target];
      inodes := inodes[inum := MoreRefs(inodes[inum], 1)];
      AddDirEntry(pblock, name, inum);
      AddName(parent, name, inum, false);
      assert S().disk == NewLink(s.disk, s.names[parent], name, inum);
      LinkedValid(s, target, parent, name);
    }

    /** Gives a file its one block; -1 when it has one, or no block is free. */
    method DoAppend(x: Path, text: string) returns (rc: int, ghost b: int)
      requires Ok() && x in files
      modifies this, dbitmap
      ensures Ok()
      ensures rc == -1 || rc == 0
      ensures rc == -1 ==> S() == old(S()) && (old(inodes)[old(nameToInum)[x]].addr != -1
                                                || AllTaken(old(dbitmap.bmap)))
      ensures rc == 0 ==> CanWrite(old(S()), x, b) && S() == WrittenTo(old(S()), x, b, text)
    {
      ghost var s := S();
      assert TrackedFile(s, x);
      b := -1;
      var inum := nameToInum[x];
      if inodes[inum].addr != -1 {
        return -1, b;
      }
      var fblock := dbitmap.Alloc();
      b := fblock;
      if fblock == -1 {
        return -1, b;
      }
      Fresh(s.disk, fblock);
      assert data[fblock].ftype == FREE;
      data := data[fblock := data[fblock].(ftype := REG, data := text)];
      inodes := inodes[inum := inodes[inum].(addr := fblock)];
      WrittenValid(s, x, fblock, text);
      rc := 0;
    }

    /** Removes a file's name, and the file with its last name. */
    method DoDelete(x: Path) returns (ghost k: int)
      requires Ok() && x in files
      modifies this, ibitmap, dbitmap
      ensures Ok() && CanDelete(old(S()), x, k) && S() == Without(old(S()), x, k)
    {
      assert TrackedFile(S(), x);
      FirstEntry(S(), x, 0);
      var pblock := inodes[nameToInum[Parent(x)]].addr;
      var i := FindEntry(data[pblock], Base(x));
      FirstEntry(S(), x, i);
      k := i;
      DeleteAt(x, pblock, i);
    }

    /** Deletes a file whose entry is known. */
    method DeleteAt(x: Path, pblock: nat, i: nat)
      requires Ok() && CanDelete(S(), x, i) && pblock == inodes[nameToInum[Parent(x)]].addr
      modifies this, ibitmap, dbitmap
      ensures Ok() && S() == Without(old(S()), x, i)
    {
      ghost var s := S();
      DeleteParts(s, x, i);
      WithoutValid(s, x, i);
      var inum := nameToInum[x];
      DropRef(inum, s);
      data := data[pblock := WithoutEntry(data[pblock], i)];
      RemoveFile(x);
    }

    /** The file's reference goes; with the last one its block and its inode. */
    method DropRef(inum: nat, ghost s: State)
      requires Ok() && s == S() && inum < |inodes| && inodes[inum].ftype == REG && InodeOk(s.disk, inum)
      modifies this`inodes, this`data, ibitmap, dbitmap
      ensures ibitmap.Valid() && dbitmap.Valid()
      ensures Disk(ibitmap.bmap, inodes, dbitmap.bmap, data) == DropName(s.disk, inum)
      ensures ibitmap.numAllocated == if s.disk.inodes[inum].refCnt == 1 then s.iused - 1 else s.iused
      ensures dbitmap.numAllocated
           == if s.disk.inodes[inum].refCnt == 1 && s.disk.inodes[inum].addr != -1 then s.dused - 1 else s.dused
    {
      if inodes[inum].refCnt == 1 {
        assert InodeBit(s.disk, inum);
        var dblock := inodes[inum].addr;
        if dblock != -1 {
          assert BlockBit(s.disk, dblock);
          dbitmap.Free(dblock);
          data := data[dblock := data[dblock].(ftype := FREE, data := "")];
        }
        ibitmap.Free(inum);
        inodes := inodes[inum := inodes[inum].(ftype := FREE, addr := -1)];
      } else {
        inodes := inodes[inum := MoreRefs(inodes[inum], -1)];
      }
    }

    method FindEntry(b: Block, name: string) returns (i: nat)
      requires Exists(b, name)
      ensures i < |b.dirList| && b.dirList[i].name == name
    {
      i := 0;
      while b.dirList[i].name != name
        invariant i < |b.dirList| && forall j :: 0 <= j < i ==> b.dirList[j].name != name
        decreases |b.dirList| - i
      {
        i := i + 1;
      }
    }

    /** Damages one thing on disk: fsck.py's corruption, which a check notices unless it is a rename. */
    method CorruptDisk(c: Corruption)
      requires Ok() && Possible(S().disk, c)
      modifies this`inodes, this`data, ibitmap, dbitmap
      ensures S().disk == Corrupt(old(S()).disk, c)
      ensures Consistent(S().disk) <==> c.Rename?
    {
      CorruptionShows(S().disk, c);
      match c
      case DataBit(b) => dbitmap.CorruptBit(b);
      case InodeBitmap(n) => ibitmap.CorruptBit(n);
      case RefCnt(n, up) => inodes := inodes[n := MoreRefs(inodes[n], if up then 1 else -1)];
      case Orphan(n, asDir) => inodes := inodes[n := Inode(if asDir then DIR else REG, -1, 1)];
      case BadBlock(n, b) => inodes := inodes[n := inodes[n].(addr := b)];
      case TypeSwitch(n) => inodes := inodes[n := inodes[n].(ftype := if inodes[n].ftype == DIR then REG else DIR)];
      case BadEntry(n, k, free) => SetDirEntry(inodes[n].addr, k, Entry(data[inodes[n].addr].dirList[k].name, free));
      case Rename(n, k, name) => SetDirEntry(inodes[n].addr, k, Entry(name, data[inodes[n].addr].dirList[k].inum));
    }

    method SetDirEntry(b: nat, k: nat, e: Entry)
      requires b < |data| && k < |data[b].dirList|
      modifies this`data
      ensures data == old(data)[b := old(data)[b].(dirList := old(data)[b].dirList[k := e])]
    {
      data := data[b := data[b].(dirList := data[b].dirList[k := e])];
    }

    method RemoveFile(x: Path)
      requires x in files
      modifies this`files
      ensures files == Remove(old(files), x)
    {
      var i := 0;
      while files[i] != x
        invariant 0 <= i < |files| && forall j :: 0 <= j < i ==> files[j] != x
        decreases |files| - i
      {
        i := i + 1;
      }
      RemoveAt(files, x, i);
      files := files[..i] + files[i + 1..];
    }
  }
}
