/**
 The file tree that lfs.py's disk stands for: inodes by number, directories as lists of slots.
 Operations on the tree, what they keep, and which names they change. LfsLog.dfy and LfsOps.dfy
 show that the log structure on disk is this tree.
 */
module LfsTree {
  import opened Sums

  const NUM_INODES := 256
  const SLOTS_PER_BLOCK := 8
  const NUM_INODE_PTRS := 8
  const ROOT_INODE := 0

  datatype Option<T> = None | Some(value: T)

  datatype Slot = Slot(name: string, inum: int)

  const EMPTY := Slot("-", -1)

  /** A free inode number; a file with its eight blocks; a directory with the slots of its blocks. */
  datatype Node = Free | File(refs: int, size: int, blocks: seq<Option<string>>) | Dir(refs: int, slots: seq<Slot>)

  type Fs = seq<Node>

  datatype Outcome = Crash | Fail | Done(value: int)

  // ---------- Lookup ----------

  /** The first slot with a name, or -1. */
  function First(slots: seq<Slot>, name: string): (i: int)
    ensures -1 <= i < |slots|
    ensures i >= 0 ==> slots[i].name == name
    ensures forall k :: 0 <= k < (if i == -1 then |slots| else i) ==> slots[k].name != name
  {
    if slots == [] then -1
    else
      var n := |slots| - 1;
      var i := First(slots[..n], name);
      if i != -1 then i else if slots[n].name == name then n else -1
  }

  /** Nothing before has the name. */
  predicate NoneBefore(slots: seq<Slot>, name: string, i: nat)
    requires i <= |slots|
  {
    forall k :: 0 <= k < i ==> slots[k].name != name
  }

  lemma FirstIs(slots: seq<Slot>, name: string, i: nat)
    requires i <= |slots| && NoneBefore(slots, name, i) && (i < |slots| ==> slots[i].name == name)
    ensures First(slots, name) == if i < |slots| then i else -1
  {
  }

  /** A change to one slot with neither the old name nor the new: the first slot with the name stays. */
  lemma FirstSame(slots: seq<Slot>, i: nat, y: Slot, name: string)
    requires i < |slots| && slots[i].name != name && y.name != name
    ensures First(slots[i := y], name) == First(slots, name)
  {
    var f := First(slots, name);
    FirstIs(slots[i := y], name, if f == -1 then |slots| else f);
  }

  function Lookup(slots: seq<Slot>, name: string): int {
    var i := First(slots, name);
    if i == -1 then -1 else slots[i].inum
  }

  /** Where a name leads from an inode: to an inode, or nowhere. */
  function Edge(fs: Fs, d: int, name: string): int {
    if 0 <= d < |fs| && fs[d].Dir? then Lookup(fs[d].slots, name) else -1
  }

  /** A walk ends in a directory's lookup, at a missing directory, or in the assertion that a directory is looked in. */
  datatype Walk = Aborts | Missing | Reached(inum: int, name: string, parent: int)

  function WalkFrom(fs: Fs, d: int, rest: seq<string>): Walk
    requires rest != []
    decreases |rest|
  {
    if !(0 <= d < |fs| && fs[d].Dir?) then Aborts
    else if |rest| == 1 then Reached(Edge(fs, d, rest[0]), rest[0], d)
    else
      var next := Edge(fs, d, rest[0]);
      if next == -1 then Missing else WalkFrom(fs, next, rest[1..])
  }

  /** `path` is the path split at its slashes: the part before the first has to be empty. */
  function WalkPath(fs: Fs, path: seq<string>): Walk {
    if path == [] || path[0] != "" then Missing
    else WalkFrom(fs, ROOT_INODE, Below(path))
  }

  lemma {:induction false} WalkReaches(fs: Fs, d: int, rest: seq<string>)
    requires rest != []
    ensures var r := WalkFrom(fs, d, rest);
            r.Reached? ==>
              && 0 <= r.parent < |fs| && fs[r.parent].Dir? && r.name == rest[|rest| - 1]
              && r.inum == Edge(fs, r.parent, r.name)
    decreases |rest|
  {
    if 0 <= d < |fs| && fs[d].Dir? && |rest| > 1 && Edge(fs, d, rest[0]) != -1 {
      WalkReaches(fs, Edge(fs, d, rest[0]), rest[1..]);
    }
  }

  // ---------- Counting entries ----------

  function Is(m: int): Slot -> int {
    (x: Slot) => if x.inum == m then 1 else 0
  }

  function Naming(m: int): Node -> int {
    (x: Node) => if x.Dir? then Sum(x.slots, Is(m)) else 0
  }

  /** The number of directory entries that name an inode. */
  function Entries(fs: Fs, m: int): int {
    Sum(fs, Naming(m))
  }

  lemma EntriesNonNegative(fs: Fs, m: int)
    ensures Entries(fs, m) >= 0
  {
    forall n | 0 <= n < |fs|
      ensures Naming(m)(fs[n]) >= 0
    {
      NamingNonNegative(fs[n], m);
    }
    SumNonNegative(fs, Naming(m));
  }

  lemma NamingNonNegative(x: Node, m: int)
    ensures Naming(m)(x) >= 0
  {
    if x.Dir? {
      SumNonNegative(x.slots, Is(m));
    }
  }

  lemma EntriesAtLeast(fs: Fs, d: nat, i: nat, m: int)
    requires d < |fs| && fs[d].Dir? && i < |fs[d].slots| && fs[d].slots[i].inum == m
    ensures Entries(fs, m) >= 1
  {
    SumAtLeast(fs[d].slots, Is(m), i);
    forall n | 0 <= n < |fs|
      ensures Naming(m)(fs[n]) >= 0
    {
      NamingNonNegative(fs[n], m);
    }
    SumAtLeast(fs, Naming(m), d);
  }

  // ---------- The invariant ----------

  predicate SlotOk(fs: Fs, x: Slot) {
    && (x.name == "-" <==> x.inum == -1)
    && (x.inum != -1 ==> 0 <= x.inum < |fs| && !fs[x.inum].Free?)
  }

  predicate SlotsOk(fs: Fs, slots: seq<Slot>) {
    forall i :: 0 <= i < |slots| ==> SlotOk(fs, slots[i])
  }

  /** No name twice. */
  predicate Distinct(slots: seq<Slot>) {
    forall i, j :: 0 <= i < j < |slots| && slots[i].name == slots[j].name ==> slots[i].name == "-"
  }

  predicate Sized(slots: seq<Slot>) {
    |slots| % SLOTS_PER_BLOCK == 0 && 0 < |slots| <= SLOTS_PER_BLOCK * NUM_INODE_PTRS
  }

  predicate DirOk(fs: Fs, slots: seq<Slot>) {
    Sized(slots) && SlotsOk(fs, slots) && Distinct(slots)
  }

  predicate RefsOk(fs: Fs, n: nat)
    requires n < |fs|
  {
    if fs[n].Free? then Entries(fs, n) == 0 else fs[n].refs == Entries(fs, n) && fs[n].refs >= 1
  }

  /** A file has blocks up to its size only, though not all of them need be written. */
  predicate FileOk(x: Node) {
    x.File? ==>
      && |x.blocks| == NUM_INODE_PTRS && 0 <= x.size <= NUM_INODE_PTRS
      && forall k :: x.size <= k < NUM_INODE_PTRS ==> x.blocks[k].None?
  }

  predicate NodeOk(fs: Fs, n: nat)
    requires n < |fs|
  {
    && (fs[n].Dir? ==> DirOk(fs, fs[n].slots))
    && FileOk(fs[n])
    && RefsOk(fs, n)
  }

  /** Every entry names a live inode, and every inode counts the entries that name it. */
  predicate FsOk(fs: Fs) {
    && |fs| == NUM_INODES && fs[ROOT_INODE].Dir?
    && forall n: nat :: n < |fs| ==> NodeOk(fs, n)
  }

  // ---------- Adding and removing an entry ----------

  const EMPTIES: seq<Slot> := [EMPTY, EMPTY, EMPTY, EMPTY, EMPTY, EMPTY, EMPTY]

  /** A slot list with one more entry: in the first empty slot, in a new block, or nowhere. */
  function AddEntry(slots: seq<Slot>, name: string, m: int): Option<seq<Slot>> {
    var i := First(slots, "-");
    if i != -1 then Some(slots[i := Slot(name, m)])
    else if |slots| < SLOTS_PER_BLOCK * NUM_INODE_PTRS then Some(slots + ([Slot(name, m)] + EMPTIES))
    else None
  }

  /** There is no room exactly when eight blocks hold no empty slot. */
  lemma AddEntryFails(fs: Fs, slots: seq<Slot>, name: string, m: int)
    requires DirOk(fs, slots)
    ensures AddEntry(slots, name, m).None? <==>
            |slots| == SLOTS_PER_BLOCK * NUM_INODE_PTRS && forall i :: 0 <= i < |slots| ==> slots[i].inum != -1
  {
    var i := First(slots, "-");
    if i != -1 {
      assert SlotOk(fs, slots[i]);
    } else {
      forall k | 0 <= k < |slots|
        ensures slots[k].inum != -1
      {
        assert SlotOk(fs, slots[k]);
      }
    }
  }

  lemma EmptiesCount(m: int)
    ensures Sum(EMPTIES, Is(m)) == if m == -1 then 7 else 0
  {
    var one := if m == -1 then 1 else 0;
    assert Sum([EMPTY], Is(m)) == one by { assert [EMPTY][1..] == []; }
    assert Sum([EMPTY, EMPTY], Is(m)) == 2 * one by { assert [EMPTY, EMPTY][1..] == [EMPTY]; }
    assert Sum([EMPTY, EMPTY, EMPTY], Is(m)) == 3 * one by { assert [EMPTY, EMPTY, EMPTY][1..] == [EMPTY, EMPTY]; }
    var e3 := [EMPTY, EMPTY, EMPTY];
    SumSplit(e3, e3, Is(m));
    SumSplit(e3 + e3, [EMPTY], Is(m));
    assert EMPTIES == e3 + e3 + [EMPTY];
  }

  lemma AddEntryCount(slots: seq<Slot>, name: string, m: int, k: int)
    requires AddEntry(slots, name, m).Some? && k >= 0
             && (forall i :: 0 <= i < |slots| && slots[i].name == "-" ==> slots[i].inum == -1)
    ensures Sum(AddEntry(slots, name, m).value, Is(k)) == Sum(slots, Is(k)) + if k == m then 1 else 0
  {
    var i := First(slots, "-");
    if i != -1 {
      SumUpdate(slots, i, Slot(name, m), Is(k));
    } else {
      SumSplit(slots, [Slot(name, m)] + EMPTIES, Is(k));
      SumSplit([Slot(name, m)], EMPTIES, Is(k));
      EmptiesCount(k);
      assert [Slot(name, m)][1..] == [];
    }
  }

  /** The entry is found under its name, other names as before. */
  lemma AddEntryLookup(slots: seq<Slot>, name: string, m: int, x: string)
    requires AddEntry(slots, name, m).Some? && name != "-" && First(slots, name) == -1
    requires forall i :: 0 <= i < |slots| && slots[i].name == "-" ==> slots[i].inum == -1
    ensures Lookup(AddEntry(slots, name, m).value, x) == if x == name then m else Lookup(slots, x)
  {
    var t := AddEntry(slots, name, m).value;
    var i := First(slots, "-");
    if i != -1 {
      if x == name {
        FirstIs(t, x, i);
      } else if x != "-" {
        FirstSame(slots, i, Slot(name, m), x);
      }
    } else {
      AppendedLookup(slots, [Slot(name, m)] + EMPTIES, x);
    }
  }

  lemma FirstConcat(s: seq<Slot>, r: seq<Slot>, x: string)
    ensures First(s + r, x)
         == if First(s, x) != -1 then First(s, x) else if First(r, x) == -1 then -1 else |s| + First(r, x)
  {
    var f, g := First(s, x), First(r, x);
    FirstIs(s + r, x, if f != -1 then f else if g == -1 then |s + r| else |s| + g);
  }

  /** A slot after the others, and only empty ones after it. */
  lemma AppendedLookup(slots: seq<Slot>, r: seq<Slot>, x: string)
    requires r != [] && r[0].name != "-" && First(slots, r[0].name) == -1 && (forall k :: 0 < k < |r| ==> r[k] == EMPTY)
    requires forall i :: 0 <= i < |slots| && slots[i].name == "-" ==> slots[i].inum == -1
    ensures Lookup(slots + r, x) == if x == r[0].name then r[0].inum else Lookup(slots, x)
  {
    FirstConcat(slots, r, x);
    if x == r[0].name {
      FirstIs(r, x, 0);
    }
  }

  lemma AddEntryOk(fs: Fs, fs2: Fs, slots: seq<Slot>, name: string, m: int)
    requires DirOk(fs, slots) && AddEntry(slots, name, m).Some? && name != "-" && First(slots, name) == -1
    requires SlotOk(fs2, Slot(name, m)) && StillLive(fs, fs2)
    ensures DirOk(fs2, AddEntry(slots, name, m).value)
  {
    var t := AddEntry(slots, name, m).value;
    var i := First(slots, "-");
    forall k | 0 <= k < |t|
      ensures SlotOk(fs2, t[k])
    {
      if k < |slots| {
        assert SlotOk(fs, slots[k]);
      } else if k > |slots| {
        assert t[k] == EMPTY;
      }
    }
    if i == -1 {
      assert forall k :: |slots| < k < |t| ==> t[k] == EMPTY;
    }
  }

  /** No inode in use goes out of use. */
  predicate StillLive(fs: Fs, fs2: Fs) {
    |fs| == |fs2| && forall n :: 0 <= n < |fs| && !fs[n].Free? ==> !fs2[n].Free?
  }

  lemma DirStillOk(fs: Fs, fs2: Fs, slots: seq<Slot>)
    requires DirOk(fs, slots) && StillLive(fs, fs2)
    ensures DirOk(fs2, slots)
  {
    forall i | 0 <= i < |slots|
      ensures SlotOk(fs2, slots[i])
    {
      assert SlotOk(fs, slots[i]);
    }
  }

  // ---------- Create ----------

  function NewFile(): Node {
    File(1, 0, [None, None, None, None, None, None, None, None])
  }

  function NewDirSlots(p: int, m: int): (s: seq<Slot>)
    ensures |s| == SLOTS_PER_BLOCK
  {
    [Slot(".", m), Slot("..", p), EMPTY, EMPTY, EMPTY, EMPTY, EMPTY, EMPTY]
  }

  function NewNode(isFile: bool, p: int, m: int): Node {
    if isFile then NewFile() else Dir(2, NewDirSlots(p, m))
  }

  /** The tree with a new file or directory m under a name of directory p. */
  function WithNew(fs: Fs, p: nat, slots: seq<Slot>, isFile: bool, m: nat): Fs
    requires p < |fs| && m < |fs| && fs[p].Dir?
  {
    fs[p := Dir(fs[p].refs + (if isFile then 0 else 1), slots)][m := NewNode(isFile, p, m)]
  }

  /** m is the inode number the allocator picked, or -1. */
  function Create(fs: Fs, path: seq<string>, isFile: bool, m: int): (Fs, Outcome) {
    match WalkPath(fs, path)
    case Aborts => (fs, Crash)
    case Missing => (fs, Fail)
    case Reached(inum, name, p) =>
      if inum != -1 || !(0 <= m < |fs|) || !(0 <= p < |fs| && fs[p].Dir?) then (fs, Fail)
      else match AddEntry(fs[p].slots, name, m)
           case None => (fs, Fail)
           case Some(slots) => (WithNew(fs, p, slots, isFile, m), Done(0))
  }

  lemma NewDirCount(p: int, m: int, k: int)
    requires k >= 0
    ensures Sum(NewDirSlots(p, m), Is(k)) == (if k == m then 1 else 0) + (if k == p then 1 else 0)
  {
    var six := [EMPTY, EMPTY, EMPTY, EMPTY, EMPTY, EMPTY];
    EmptiesCount(k);
    assert EMPTIES[1..] == six;
    assert Sum(six, Is(k)) == 0;
    assert NewDirSlots(p, m)[1..] == [Slot("..", p)] + six;
    assert ([Slot("..", p)] + six)[1..] == six;
  }

  /** The premises under which a create changes the tree. */
  predicate Creates(fs: Fs, p: nat, name: string, isFile: bool, m: nat) {
    && FsOk(fs) && p < |fs| && m < |fs| && fs[p].Dir? && fs[m].Free?
    && name != "-" && First(fs[p].slots, name) == -1 && AddEntry(fs[p].slots, name, m).Some?
  }

  function Created(fs: Fs, p: nat, name: string, isFile: bool, m: nat): Fs
    requires Creates(fs, p, name, isFile, m)
  {
    WithNew(fs, p, AddEntry(fs[p].slots, name, m).value, isFile, m)
  }

  lemma EmptySlots(fs: Fs, slots: seq<Slot>)
    requires SlotsOk(fs, slots)
    ensures forall i :: 0 <= i < |slots| && slots[i].name == "-" ==> slots[i].inum == -1
  {
    forall i | 0 <= i < |slots| && slots[i].name == "-"
      ensures slots[i].inum == -1
    {
      assert SlotOk(fs, slots[i]);
    }
  }

  lemma CreatedEntries(fs: Fs, p: nat, name: string, isFile: bool, m: nat, k: nat)
    requires Creates(fs, p, name, isFile, m)
    ensures Entries(Created(fs, p, name, isFile, m), k)
         == Entries(fs, k) + (if k == m then 1 else 0)
            + (if isFile then 0 else (if k == m then 1 else 0) + (if k == p then 1 else 0))
  {
    var slots := fs[p].slots;
    assert NodeOk(fs, p);
    EmptySlots(fs, slots);
    AddEntryCount(slots, name, m, k);
    var x := Dir(fs[p].refs + (if isFile then 0 else 1), AddEntry(slots, name, m).value);
    SumUpdate(fs, p, x, Naming(k));
    SumUpdate(fs[p := x], m, NewNode(isFile, p, m), Naming(k));
    NewDirCount(p, m, k);
  }

  lemma CreatedNode(fs: Fs, p: nat, name: string, isFile: bool, m: nat, n: nat)
    requires Creates(fs, p, name, isFile, m) && n < |fs|
    ensures NodeOk(Created(fs, p, name, isFile, m), n)
  {
    var fs2 := Created(fs, p, name, isFile, m);
    assert NodeOk(fs, n) && NodeOk(fs, p) && NodeOk(fs, m);
    CreatedEntries(fs, p, name, isFile, m, n);
    EntriesNonNegative(fs, n);
    assert StillLive(fs, fs2);
    if n == m {
      NewDirOk(fs2, p, m);
    } else if n == p {
      assert SlotOk(fs2, Slot(name, m));
      AddEntryOk(fs, fs2, fs[p].slots, name, m);
    } else if fs[n].Dir? {
      DirStillOk(fs, fs2, fs[n].slots);
    }
  }

  lemma NewDirOk(fs: Fs, p: nat, m: nat)
    requires p < |fs| && m < |fs| && !fs[p].Free? && !fs[m].Free?
    ensures DirOk(fs, NewDirSlots(p, m))
  {
    var s := NewDirSlots(p, m);
    forall i | 0 <= i < |s|
      ensures SlotOk(fs, s[i])
    {
    }
    forall i, j | 0 <= i < j < |s| && s[i].name == s[j].name
      ensures s[i].name == "-"
    {
      assert s[0].name == "." && s[1].name == ".." && |"."| == 1 && |".."| == 2 && "-"[0] != "."[0];
    }
  }

  /** Create keeps every reference count equal to the number of entries. */
  lemma CreatedOk(fs: Fs, p: nat, name: string, isFile: bool, m: nat)
    requires Creates(fs, p, name, isFile, m)
    ensures FsOk(Created(fs, p, name, isFile, m))
  {
    forall n: nat | n < |fs|
      ensures NodeOk(Created(fs, p, name, isFile, m), n)
    {
      CreatedNode(fs, p, name, isFile, m, n);
    }
  }

  /** Create makes one name lead to the new inode, gives a new directory its two names, and changes no other name. */
  lemma CreatedEdges(fs: Fs, p: nat, name: string, isFile: bool, m: nat, d: int, x: string)
    requires Creates(fs, p, name, isFile, m)
    ensures Edge(Created(fs, p, name, isFile, m), d, x) ==
            if d == p && x == name then m
            else if d == m then (if isFile then -1 else if x == "." then m else if x == ".." then p else -1)
            else Edge(fs, d, x)
  {
    assert NodeOk(fs, p);
    EmptySlots(fs, fs[p].slots);
    if d == p {
      AddEntryLookup(fs[p].slots, name, m, x);
    } else if d == m && !isFile {
      var s := NewDirSlots(p, m);
      assert s[0].name == "." && s[1].name == ".." && |"."| == 1 && |".."| == 2;
      assert forall k :: 2 <= k < 8 ==> s[k] == EMPTY;
    }
  }

  // ---------- Link ----------

  predicate Links(fs: Fs, src: nat, p: nat, name: string) {
    && FsOk(fs) && p < |fs| && src < |fs| && fs[p].Dir? && fs[src].File?
    && name != "-" && First(fs[p].slots, name) == -1 && AddEntry(fs[p].slots, name, src).Some?
  }

  function Refer(x: Node): Node
    requires x.File?
  {
    File(x.refs + 1, x.size, x.blocks)
  }

  function WithLink(fs: Fs, src: nat, p: nat, slots: seq<Slot>): Fs
    requires p < |fs| && src < |fs| && fs[p].Dir? && fs[src].File?
  {
    fs[p := fs[p].(slots := slots)][src := Refer(fs[src])]
  }

  function Link(fs: Fs, srcPath: seq<string>, dstPath: seq<string>): (Fs, Outcome) {
    match WalkPath(fs, srcPath)
    case Aborts => (fs, Crash)
    case Missing => (fs, Fail)
    case Reached(src, _, _) =>
      if !(0 <= src < |fs|) || !fs[src].File? then (fs, Fail)
      else match WalkPath(fs, dstPath)
           case Aborts => (fs, Crash)
           case Missing => (fs, Crash)
           case Reached(dst, name, p) =>
             if dst != -1 || !(0 <= p < |fs| && fs[p].Dir?) then (fs, Fail)
             else match AddEntry(fs[p].slots, name, src)
                  case None => (fs, Fail)
                  case Some(slots) => (WithLink(fs, src, p, slots), Done(0))
  }

  function Linked(fs: Fs, src: nat, p: nat, name: string): Fs
    requires Links(fs, src, p, name)
  {
    WithLink(fs, src, p, AddEntry(fs[p].slots, name, src).value)
  }

  lemma LinkedEntries(fs: Fs, src: nat, p: nat, name: string, k: nat)
    requires Links(fs, src, p, name)
    ensures Entries(Linked(fs, src, p, name), k) == Entries(fs, k) + if k == src then 1 else 0
  {
    var slots := fs[p].slots;
    assert NodeOk(fs, p);
    EmptySlots(fs, slots);
    AddEntryCount(slots, name, src, k);
    var x := fs[p].(slots := AddEntry(slots, name, src).value);
    SumUpdate(fs, p, x, Naming(k));
    SumUpdate(fs[p := x], src, Refer(fs[src]), Naming(k));
  }

  lemma LinkedOk(fs: Fs, src: nat, p: nat, name: string)
    requires Links(fs, src, p, name)
    ensures FsOk(Linked(fs, src, p, name))
  {
    var fs2 := Linked(fs, src, p, name);
    assert StillLive(fs, fs2);
    forall n: nat | n < |fs|
      ensures NodeOk(fs2, n)
    {
      assert NodeOk(fs, n);
      LinkedEntries(fs, src, p, name, n);
      if n == p {
        assert SlotOk(fs2, Slot(name, src));
        AddEntryOk(fs, fs2, fs[p].slots, name, src);
      } else if fs[n].Dir? {
        DirStillOk(fs, fs2, fs[n].slots);
      }
    }
  }

  /** Link makes one name lead to the source and changes no other name. */
  lemma LinkedEdges(fs: Fs, src: nat, p: nat, name: string, d: int, x: string)
    requires Links(fs, src, p, name)
    ensures Edge(Linked(fs, src, p, name), d, x) == if d == p && x == name then src else Edge(fs, d, x)
  {
    assert NodeOk(fs, p);
    EmptySlots(fs, fs[p].slots);
    if d == p {
      AddEntryLookup(fs[p].slots, name, src, x);
    }
  }

  // ---------- Delete ----------

  predicate Deletes(fs: Fs, n: nat, p: nat, name: string) {
    && FsOk(fs) && p < |fs| && n < |fs| && fs[p].Dir? && fs[n].File?
    && First(fs[p].slots, name) != -1 && Lookup(fs[p].slots, name) == n
  }

  function WithoutEntry(slots: seq<Slot>, i: nat): seq<Slot>
    requires i < |slots|
  {
    slots[i := EMPTY]
  }

  function DropRef(x: Node): Node
    requires x.File?
  {
    if x.refs == 1 then Free else if x.refs > 1 then File(x.refs - 1, x.size, x.blocks) else x
  }

  function Deleted(fs: Fs, n: nat, p: nat, i: nat): Fs
    requires p < |fs| && n < |fs| && fs[p].Dir? && fs[n].File? && i < |fs[p].slots|
  {
    fs[p := fs[p].(slots := WithoutEntry(fs[p].slots, i))][n := DropRef(fs[n])]
  }

  function Delete(fs: Fs, path: seq<string>): (Fs, Outcome) {
    match WalkPath(fs, path)
    case Aborts => (fs, Crash)
    case Missing => (fs, Fail)
    case Reached(n, name, p) =>
      if !(0 <= n < |fs|) || !fs[n].File? || !(0 <= p < |fs| && fs[p].Dir?) then (fs, Fail)
      else
        var i := First(fs[p].slots, name);
        if i == -1 then (fs, Crash) else (Deleted(fs, n, p, i), Done(0))
  }

  lemma DeletedEntries(fs: Fs, n: nat, p: nat, name: string, k: nat)
    requires Deletes(fs, n, p, name)
    ensures Entries(Deleted(fs, n, p, First(fs[p].slots, name)), k) == Entries(fs, k) - if k == n then 1 else 0
  {
    var slots, i := fs[p].slots, First(fs[p].slots, name);
    SumUpdate(slots, i, EMPTY, Is(k));
    var x := fs[p].(slots := WithoutEntry(slots, i));
    SumUpdate(fs, p, x, Naming(k));
    SumUpdate(fs[p := x], n, DropRef(fs[n]), Naming(k));
  }

  lemma DeletedDir(fs: Fs, n: nat, p: nat, name: string, d: nat)
    requires Deletes(fs, n, p, name) && d < |fs| && fs[d].Dir?
    ensures var fs2 := Deleted(fs, n, p, First(fs[p].slots, name)); fs2[d].Dir? && DirOk(fs2, fs2[d].slots)
  {
    var fs2 := Deleted(fs, n, p, First(fs[p].slots, name));
    assert NodeOk(fs, d) && NodeOk(fs, n);
    DeletedEntries(fs, n, p, name, n);
    var slots, slots2 := fs[d].slots, fs2[d].slots;
    forall i | 0 <= i < |slots2|
      ensures SlotOk(fs2, slots2[i])
    {
      assert SlotOk(fs, slots[i]);
      if slots2[i].inum == n {
        EntriesAtLeast(fs2, d, i, n);
      }
    }
  }

  lemma DeletedOk(fs: Fs, n: nat, p: nat, name: string)
    requires Deletes(fs, n, p, name)
    ensures FsOk(Deleted(fs, n, p, First(fs[p].slots, name)))
  {
    var fs2 := Deleted(fs, n, p, First(fs[p].slots, name));
    assert NodeOk(fs, ROOT_INODE);
    forall k: nat | k < |fs|
      ensures NodeOk(fs2, k)
    {
      assert NodeOk(fs, k);
      DeletedEntries(fs, n, p, name, k);
      if fs[k].Dir? {
        DeletedDir(fs, n, p, name, k);
      }
    }
  }

  /** Delete makes one name lead nowhere and changes no other name. */
  lemma DeletedEdges(fs: Fs, n: nat, p: nat, name: string, d: int, x: string)
    requires Deletes(fs, n, p, name)
    ensures Edge(Deleted(fs, n, p, First(fs[p].slots, name)), d, x)
         == if d == p && x == name then -1 else Edge(fs, d, x)
  {
    if d == p {
      var slots, i := fs[p].slots, First(fs[p].slots, name);
      assert NodeOk(fs, p) && SlotOk(fs, slots[i]);
      RemoveLookup(fs, slots, i, x);
    }
  }

  lemma RemoveLookup(fs: Fs, slots: seq<Slot>, i: nat, x: string)
    requires DirOk(fs, slots) && i < |slots| && slots[i].name != "-"
    ensures Lookup(slots[i := EMPTY], x) == if x == slots[i].name then -1 else Lookup(slots, x)
  {
    var t := slots[i := EMPTY];
    var f, g := First(slots, x), First(t, x);
    if x == "-" {
      if f != -1 {
        assert SlotOk(fs, slots[f]);
      }
      if g != -1 && g != i {
        assert SlotOk(fs, slots[g]);
      }
    } else if x != slots[i].name {
      FirstSame(slots, i, EMPTY, x);
    } else {
      FirstIs(t, x, |t|);
    }
  }

  // ---------- Write ----------

  /** Blocks put in from an offset on, as many as fit. */
  function Fitting(offset: nat, n: nat): nat
    requires offset < NUM_INODE_PTRS
  {
    if n <= NUM_INODE_PTRS - offset then n else NUM_INODE_PTRS - offset
  }

  function PutBlocks(blocks: seq<Option<string>>, offset: nat, contents: seq<string>): (r: seq<Option<string>>)
    requires |blocks| == NUM_INODE_PTRS && offset < NUM_INODE_PTRS
    ensures |r| == |blocks|
    ensures forall k :: 0 <= k < |r| ==>
              r[k] == if offset <= k < offset + |contents| then Some(contents[k - offset]) else blocks[k]
  {
    seq(NUM_INODE_PTRS, k requires 0 <= k < NUM_INODE_PTRS =>
      if offset <= k < offset + |contents| then Some(contents[k - offset]) else blocks[k])
  }

  function Max(a: int, b: int): int { if a >= b then a else b }

  function Written(x: Node, offset: nat, contents: seq<string>): Node
    requires x.File? && |x.blocks| == NUM_INODE_PTRS && offset < NUM_INODE_PTRS
  {
    File(x.refs, Max(offset + Fitting(offset, |contents|), x.size), PutBlocks(x.blocks, offset, contents))
  }

  function Write(fs: Fs, path: seq<string>, offset: int, contents: seq<string>): (Fs, Outcome) {
    match WalkPath(fs, path)
    case Aborts => (fs, Crash)
    case Missing => (fs, Fail)
    case Reached(n, _, _) =>
      if !(0 <= n < |fs|) || !fs[n].File? || |fs[n].blocks| != NUM_INODE_PTRS || !(0 <= offset < NUM_INODE_PTRS) then
        (fs, Fail)
      else (fs[n := Written(fs[n], offset, contents)], Done(Fitting(offset, |contents|)))
  }

  /** What a write answers and does to its file: it puts in as many blocks as there is room for, grows the size to
      the end of what it wrote and never shrinks it, and leaves the other blocks and the count. */
  lemma WrittenIs(x: Node, offset: nat, contents: seq<string>)
    requires x.File? && FileOk(x) && offset < NUM_INODE_PTRS
    ensures var n, y := Fitting(offset, |contents|), Written(x, offset, contents);
            && n <= |contents| && offset + n <= NUM_INODE_PTRS && (n == |contents| || offset + n == NUM_INODE_PTRS)
            && y.File? && FileOk(y) && y.refs == x.refs
            && y.size >= x.size && y.size >= offset + n && (y.size == x.size || y.size == offset + n)
            && (forall k :: 0 <= k < n ==> y.blocks[offset + k] == Some(contents[k]))
            && (forall k :: 0 <= k < NUM_INODE_PTRS && !(offset <= k < offset + n) ==> y.blocks[k] == x.blocks[k])
  {
  }

  /** A write changes one file's blocks: no count, no name. */
  lemma WrittenOk(fs: Fs, n: nat, offset: nat, contents: seq<string>)
    requires FsOk(fs) && n < |fs| && fs[n].File? && offset < NUM_INODE_PTRS
    requires |fs[n].blocks| == NUM_INODE_PTRS
    ensures FsOk(fs[n := Written(fs[n], offset, contents)])
    ensures forall d: int, x: string :: Edge(fs[n := Written(fs[n], offset, contents)], d, x) == Edge(fs, d, x)
  {
    var fs2 := fs[n := Written(fs[n], offset, contents)];
    assert StillLive(fs, fs2);
    assert NodeOk(fs, n);
    WrittenIs(fs[n], offset, contents);
    forall k: nat | k < |fs|
      ensures NodeOk(fs2, k)
    {
      assert NodeOk(fs, k);
      SumUpdate(fs, n, fs2[n], Naming(k));
      if fs[k].Dir? {
        DirStillOk(fs, fs2, fs[k].slots);
      }
    }
  }

  // ---------- Paths ----------

  /** Where a path from a directory leads; -1 if nowhere. */
  function Resolve(fs: Fs, d: int, path: seq<string>): int
    decreases |path|
  {
    if path == [] then d
    else if Edge(fs, d, path[0]) == -1 then -1
    else Resolve(fs, Edge(fs, d, path[0]), path[1..])
  }

  /** The path from d does not go by the name of directory p. */
  predicate Avoids(fs: Fs, d: int, path: seq<string>, p: int, name: string)
    decreases |path|
  {
    || path == []
    || ((d != p || path[0] != name)
        && (Edge(fs, d, path[0]) == -1 || Avoids(fs, Edge(fs, d, path[0]), path[1..], p, name)))
  }

  /** Trees that differ in one name only, and in a free inode's names, resolve every path alike that does not use the
      name. */
  lemma {:induction false} SameElsewhere(fs: Fs, fs2: Fs, p: int, name: string, free: int, d: int, path: seq<string>)
    requires forall e: int, x: string :: (e != p || x != name) && e != free ==> Edge(fs2, e, x) == Edge(fs, e, x)
    requires Avoids(fs, d, path, p, name) && d != free
    requires forall e: int, x: string :: Edge(fs, e, x) == free ==> free == -1
    ensures Resolve(fs2, d, path) == Resolve(fs, d, path)
    decreases |path|
  {
    if path != [] && Edge(fs, d, path[0]) != -1 {
      SameElsewhere(fs, fs2, p, name, free, Edge(fs, d, path[0]), path[1..]);
    }
  }

  /** No name leads to a free inode. */
  lemma FreeUnnamed(fs: Fs, m: nat, d: int, x: string)
    requires FsOk(fs) && m < |fs| && fs[m].Free?
    ensures Edge(fs, d, x) != m
  {
    if 0 <= d < |fs| && fs[d].Dir? {
      assert NodeOk(fs, d);
      var i := First(fs[d].slots, x);
      if i != -1 {
        assert SlotOk(fs, fs[d].slots[i]);
      }
    }
  }

  /** After a create, every path that does not use the new name leads where it led. */
  lemma CreateResolves(fs: Fs, p: nat, name: string, isFile: bool, m: nat, path: seq<string>)
    requires Creates(fs, p, name, isFile, m) && Avoids(fs, ROOT_INODE, path, p, name)
    ensures Resolve(Created(fs, p, name, isFile, m), ROOT_INODE, path) == Resolve(fs, ROOT_INODE, path)
  {
    var fs2 := Created(fs, p, name, isFile, m);
    forall e: int, x: string | (e != p || x != name) && e != m
      ensures Edge(fs2, e, x) == Edge(fs, e, x)
    {
      CreatedEdges(fs, p, name, isFile, m, e, x);
    }
    forall e: int, x: string
      ensures Edge(fs, e, x) != m
    {
      FreeUnnamed(fs, m, e, x);
    }
    SameElsewhere(fs, fs2, p, name, m, ROOT_INODE, path);
  }

  lemma LinkResolves(fs: Fs, src: nat, p: nat, name: string, path: seq<string>)
    requires Links(fs, src, p, name) && Avoids(fs, ROOT_INODE, path, p, name)
    ensures Resolve(Linked(fs, src, p, name), ROOT_INODE, path) == Resolve(fs, ROOT_INODE, path)
  {
    var fs2 := Linked(fs, src, p, name);
    forall e: int, x: string | e != p || x != name
      ensures Edge(fs2, e, x) == Edge(fs, e, x)
    {
      LinkedEdges(fs, src, p, name, e, x);
    }
    SameElsewhere(fs, fs2, p, name, -1, ROOT_INODE, path);
  }

  lemma DeleteResolves(fs: Fs, n: nat, p: nat, name: string, path: seq<string>)
    requires Deletes(fs, n, p, name) && Avoids(fs, ROOT_INODE, path, p, name)
    ensures Resolve(Deleted(fs, n, p, First(fs[p].slots, name)), ROOT_INODE, path) == Resolve(fs, ROOT_INODE, path)
  {
    var fs2 := Deleted(fs, n, p, First(fs[p].slots, name));
    forall e: int, x: string | e != p || x != name
      ensures Edge(fs2, e, x) == Edge(fs, e, x)
    {
      DeletedEdges(fs, n, p, name, e, x);
    }
    SameElsewhere(fs, fs2, p, name, -1, ROOT_INODE, path);
  }

  /** The path a walk follows below the root. */
  function Below(path: seq<string>): (r: seq<string>)
    requires path != []
    ensures r != []
  {
    if |path| == 1 then [""] else path[1..]
  }

  /** A walk that gets to its last name went through directories only: by no name that leads to none. */
  lemma {:induction false} WalkResolves(fs: Fs, d: int, rest: seq<string>, p: int, name: string)
    requires rest != [] && WalkFrom(fs, d, rest).Reached?
    requires var e := Edge(fs, p, name); e == -1 || (0 <= e < |fs| && !fs[e].Dir?)
    ensures Resolve(fs, d, rest[..|rest| - 1]) == WalkFrom(fs, d, rest).parent
    ensures Avoids(fs, d, rest[..|rest| - 1], p, name)
    decreases |rest|
  {
    var n := |rest| - 1;
    if n > 0 {
      var next := Edge(fs, d, rest[0]);
      WalkResolves(fs, next, rest[1..], p, name);
      assert rest[..n][1..] == rest[1..][..n - 1];
    }
  }

  lemma {:induction false} ResolveLast(fs: Fs, d: int, path: seq<string>)
    requires path != []
    ensures var e := Resolve(fs, d, path[..|path| - 1]);
            e != -1 ==> Resolve(fs, d, path) == Edge(fs, e, path[|path| - 1])
    decreases |path|
  {
    var n := |path| - 1;
    if n > 0 && Edge(fs, d, path[0]) != -1 {
      ResolveLast(fs, Edge(fs, d, path[0]), path[1..]);
      assert path[..n][1..] == path[1..][..n - 1];
    } else if n == 0 {
      assert path[1..] == [] && path[..0] == [];
    } else {
      assert path[..n][0] == path[0];
    }
  }

  /** When only the name a path ends in changes, the path leads where the name now leads. */
  lemma PathRedirected(fs: Fs, fs2: Fs, path: seq<string>, p: int, name: string, free: int)
    requires path != [] && WalkFrom(fs, ROOT_INODE, Below(path)) == Reached(Edge(fs, p, name), name, p)
    requires var e := Edge(fs, p, name); e == -1 || (0 <= e < |fs| && !fs[e].Dir?)
    requires forall e: int, x: string :: (e != p || x != name) && e != free ==> Edge(fs2, e, x) == Edge(fs, e, x)
    requires ROOT_INODE != free && forall e: int, x: string :: Edge(fs, e, x) == free ==> free == -1
    ensures Resolve(fs2, ROOT_INODE, Below(path)) == Edge(fs2, p, name)
  {
    var rest := Below(path);
    WalkReaches(fs, ROOT_INODE, rest);
    WalkResolves(fs, ROOT_INODE, rest, p, name);
    SameElsewhere(fs, fs2, p, name, free, ROOT_INODE, rest[..|rest| - 1]);
    ResolveLast(fs2, ROOT_INODE, rest);
  }

  /** The path that was created leads to the new inode. */
  lemma CreatedPath(fs: Fs, path: seq<string>, p: nat, name: string, isFile: bool, m: nat)
    requires Creates(fs, p, name, isFile, m) && path != []
             && WalkFrom(fs, ROOT_INODE, Below(path)) == Reached(-1, name, p)
    ensures Resolve(Created(fs, p, name, isFile, m), ROOT_INODE, Below(path)) == m
  {
    var fs2 := Created(fs, p, name, isFile, m);
    forall e: int, x: string | (e != p || x != name) && e != m
      ensures Edge(fs2, e, x) == Edge(fs, e, x)
    {
      CreatedEdges(fs, p, name, isFile, m, e, x);
    }
    forall e: int, x: string
      ensures Edge(fs, e, x) != m
    {
      FreeUnnamed(fs, m, e, x);
    }
    PathRedirected(fs, fs2, path, p, name, m);
    CreatedEdges(fs, p, name, isFile, m, p, name);
  }

  /** The path that was deleted leads nowhere. */
  lemma DeletedPath(fs: Fs, path: seq<string>, n: nat, p: nat, name: string)
    requires Deletes(fs, n, p, name) && path != [] && WalkFrom(fs, ROOT_INODE, Below(path)) == Reached(n, name, p)
    ensures Resolve(Deleted(fs, n, p, First(fs[p].slots, name)), ROOT_INODE, Below(path)) == -1
  {
    var fs2 := Deleted(fs, n, p, First(fs[p].slots, name));
    forall e: int, x: string | e != p || x != name
      ensures Edge(fs2, e, x) == Edge(fs, e, x)
    {
      DeletedEdges(fs, n, p, name, e, x);
    }
    PathRedirected(fs, fs2, path, p, name, -1);
    DeletedEdges(fs, n, p, name, p, name);
  }

  /** The linked path leads to the source. */
  lemma LinkedPath(fs: Fs, path: seq<string>, src: nat, p: nat, name: string)
    requires Links(fs, src, p, name) && path != [] && WalkFrom(fs, ROOT_INODE, Below(path)) == Reached(-1, name, p)
    ensures Resolve(Linked(fs, src, p, name), ROOT_INODE, Below(path)) == src
  {
    var fs2 := Linked(fs, src, p, name);
    forall e: int, x: string | e != p || x != name
      ensures Edge(fs2, e, x) == Edge(fs, e, x)
    {
      LinkedEdges(fs, src, p, name, e, x);
    }
    PathRedirected(fs, fs2, path, p, name, -1);
    LinkedEdges(fs, src, p, name, p, name);
  }

  // ---------- The start ----------

  function Nodes(n: nat): (r: Fs)
    ensures |r| == n && forall k :: 0 <= k < n ==> r[k] == Free
  {
    seq(n, _ => Free)
  }

  function Start(): Fs {
    Nodes(NUM_INODES)[ROOT_INODE := Dir(2, NewDirSlots(ROOT_INODE, ROOT_INODE))]
  }

  lemma StartOk()
    ensures FsOk(Start())
  {
    var fs, none := Start(), Nodes(NUM_INODES);
    forall k: nat | k < |fs|
      ensures NodeOk(fs, k)
    {
      SumZero(none, Naming(k));
      NewDirCount(ROOT_INODE, ROOT_INODE, k);
      SumUpdate(none, ROOT_INODE, fs[ROOT_INODE], Naming(k));
      if k == ROOT_INODE {
        NewDirOk(fs, ROOT_INODE, ROOT_INODE);
      }
    }
  }

  // ---------- Writing by path ----------

  /** What a walk finds is what the path leads to. */
  lemma {:induction false} WalkTarget(fs: Fs, d: int, rest: seq<string>)
    requires rest != [] && WalkFrom(fs, d, rest).Reached?
    ensures WalkFrom(fs, d, rest).inum == Resolve(fs, d, rest)
    decreases |rest|
  {
    if |rest| > 1 {
      WalkTarget(fs, Edge(fs, d, rest[0]), rest[1..]);
    }
  }

  /** A write by path that answers n has put n blocks into the file the path leads to, and changed nothing else. */
  lemma WriteIs(fs: Fs, path: seq<string>, offset: int, contents: seq<string>)
    requires FsOk(fs) && Write(fs, path, offset, contents).1.Done?
    ensures var (fs2, out) := Write(fs, path, offset, contents);
            && path != [] && 0 <= offset < NUM_INODE_PTRS && |fs2| == |fs|
            && var m := Resolve(fs, ROOT_INODE, Below(path));
               && 0 <= m < |fs| && fs[m].File? && fs2[m].File? && FileOk(fs[m]) && FileOk(fs2[m])
               && out.value <= |contents| && (out.value == |contents| || offset + out.value == NUM_INODE_PTRS)
               && fs2[m].size >= fs[m].size && fs2[m].size >= offset + out.value
               && (fs2[m].size == fs[m].size || fs2[m].size == offset + out.value)
               && (forall k :: 0 <= k < out.value ==> fs2[m].blocks[offset + k] == Some(contents[k]))
               && (forall k :: 0 <= k < NUM_INODE_PTRS && !(offset <= k < offset + out.value) ==>
                     fs2[m].blocks[k] == fs[m].blocks[k])
               && forall d :: 0 <= d < |fs| && d != m ==> fs2[d] == fs[d]
  {
    var r := WalkPath(fs, path);
    WalkTarget(fs, ROOT_INODE, Below(path));
    assert NodeOk(fs, r.inum);
    WrittenIs(fs[r.inum], offset, contents);
  }
}
