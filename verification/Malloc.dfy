/**
 The free-list allocator of malloc.py: every address of the heap is in exactly one free entry or one
 allocated block, whatever the search policy, the list order and the coalescing.
 */
module Malloc {
  import opened Arith
  import opened Collections

  datatype Policy = FIRST | BEST | WORST
  datatype Order = ADDRSORT | SIZESORTUP | SIZESORTDOWN | INSERTFRONT | INSERTBACK

  datatype Block = Block(addr: int, size: int) {
    predicate Has(a: int) { addr <= a < addr + size }
    function End(): int { addr + size }
  }

  datatype Config = Config(size: int, start: int, headerSize: int, policy: Policy, order: Order, coalesce: bool,
                           align: int) {
    predicate Ok() { size > 0 && start >= 0 && (align == -1 || align > 0) }
    predicate InHeap(a: int) { start <= a < start + size }
  }

  /** The free list, and the sizes of the allocated blocks by address. */
  datatype Heap = Heap(free: seq<Block>, sizes: map<int, int>)

  // ---------- How often an address is covered ----------

  /** The number of entries that hold the address. */
  function Cover(s: seq<Block>, a: int): nat {
    if s == [] then 0 else Bit(s[0].Has(a)) + Cover(s[1..], a)
  }

  lemma {:induction false} CoverSplit(s: seq<Block>, t: seq<Block>, a: int)
    ensures Cover(s + t, a) == Cover(s, a) + Cover(t, a)
    decreases |s|
  {
    if s == [] {
      assert s + t == t;
    } else {
      CoverSplit(s[1..], t, a);
      assert (s + t)[1..] == s[1..] + t;
    }
  }

  lemma CoverAround(s: seq<Block>, k: nat, a: int)
    requires k < |s|
    ensures Cover(s, a) == Cover(s[..k], a) + Bit(s[k].Has(a)) + Cover(s[k + 1..], a)
  {
    CoverSplit(s[..k], s[k..], a);
    assert s == s[..k] + s[k..];
  }

  lemma CoverUpdate(s: seq<Block>, k: nat, b: Block, a: int)
    requires k < |s|
    ensures Cover(s[k := b], a) == Cover(s, a) - Bit(s[k].Has(a)) + Bit(b.Has(a))
  {
    CoverAround(s, k, a);
    CoverAround(s[k := b], k, a);
    assert s[k := b][..k] == s[..k] && s[k := b][k + 1..] == s[k + 1..];
  }

  lemma CoverRemove(s: seq<Block>, k: nat, a: int)
    requires k < |s|
    ensures Cover(s[..k] + s[k + 1..], a) == Cover(s, a) - Bit(s[k].Has(a))
  {
    CoverAround(s, k, a);
    CoverSplit(s[..k], s[k + 1..], a);
  }

  lemma CoverTwo(s: seq<Block>, i: nat, j: nat, a: int)
    requires i < j < |s| && s[i].Has(a) && s[j].Has(a)
    ensures Cover(s, a) >= 2
  {
    CoverAround(s, j, a);
    CoverAround(s[..j], i, a);
  }

  lemma {:induction false} CoverWitness(s: seq<Block>, a: int) returns (k: nat)
    requires Cover(s, a) > 0
    ensures k < |s| && s[k].Has(a)
  {
    if s[0].Has(a) {
      k := 0;
    } else {
      k := CoverWitness(s[1..], a);
      k := k + 1;
    }
  }

  /** The allocated blocks that hold the address. */
  function Holders(m: map<int, int>, a: int): set<int> {
    set k | k in m && k <= a < k + m[k]
  }

  // ---------- The invariant ----------

  predicate Positive(s: seq<Block>) {
    forall k :: 0 <= k < |s| ==> s[k].size > 0
  }

  predicate PositiveSizes(m: map<int, int>) {
    forall k :: k in m ==> m[k] > 0
  }

  /** The address has one owner if it is in the heap, and none otherwise. */
  predicate Once(c: Config, h: Heap, a: int) {
    Cover(h.free, a) + |Holders(h.sizes, a)| == Bit(c.InHeap(a))
  }

  ghost predicate Partition(c: Config, h: Heap) {
    && Positive(h.free) && PositiveSizes(h.sizes)
    && forall a :: Once(c, h, a)
  }

  /** Each entry ends before the next begins, with room between. */
  predicate Spaced(s: seq<Block>, gap: nat) {
    forall i, j :: 0 <= i < j < |s| ==> s[i].End() + gap <= s[j].addr
  }

  /** The list order that address sorting keeps; with coalescing no two entries touch. */
  ghost predicate InOrder(c: Config, h: Heap) {
    c.order == ADDRSORT ==> Spaced(h.free, Bit(c.coalesce))
  }

  ghost predicate Inv(c: Config, h: Heap) {
    c.Ok() && Partition(c, h) && InOrder(c, h)
  }

  function Init(c: Config): Heap {
    Heap([Block(c.start, c.size)], map[])
  }

  lemma InvInit(c: Config)
    requires c.Ok()
    ensures Inv(c, Init(c))
  {
    forall a
      ensures Once(c, Init(c), a)
    {
      assert Cover(Init(c).free[1..], a) == 0;
      assert Holders(map[], a) == {};
    }
  }

  /** What a block has to hold for a request: the size rounded up, and the header. */
  function Need(c: Config, size: int): int
    requires c.Ok()
  {
    var left := if c.align == -1 then 0 else size % c.align;
    (if left != 0 then size + (c.align - left) else size) + c.headerSize
  }

  /** Rounding goes to the next multiple of the alignment. */
  lemma NeedRounds(c: Config, size: int)
    requires c.Ok() && c.align > 0
    ensures var rounded := Need(c, size) - c.headerSize;
            size <= rounded < size + c.align && rounded % c.align == 0
  {
    var q, left := size / c.align, size % c.align;
    var rounded := Need(c, size) - c.headerSize;
    assert size == q * c.align + left;
    if left != 0 {
      assert rounded == (q + 1) * c.align;
      DivModUnique(rounded, q + 1, c.align, 0);
    }
  }

  // ---------- Allocation ----------

  predicate Fits(s: seq<Block>, need: int, k: int) {
    0 <= k < |s| && s[k].size >= need
  }

  predicate NoneFits(s: seq<Block>, need: int) {
    forall k :: 0 <= k < |s| ==> !Fits(s, need, k)
  }

  /** Entry k is preferred to entry j: the first, the smallest or the largest; earlier entries win ties. */
  predicate Preferred(p: Policy, s: seq<Block>, k: nat, j: nat)
    requires k < |s| && j < |s|
  {
    match p
    case FIRST => k <= j
    case BEST => s[k].size < s[j].size || (s[k].size == s[j].size && k <= j)
    case WORST => s[k].size > s[j].size || (s[k].size == s[j].size && k <= j)
  }

  ghost predicate Chosen(p: Policy, s: seq<Block>, need: int, k: int) {
    Fits(s, need, k) && forall j :: Fits(s, need, j) ==> Preferred(p, s, k, j)
  }

  /** In sizes and places: FIRST takes the first entry that fits, BEST the first of the smallest, WORST the first of
      the largest. */
  lemma ChosenIs(p: Policy, s: seq<Block>, need: int, k: int, j: int)
    requires Chosen(p, s, need, k) && Fits(s, need, j)
    ensures s[k].size >= need
    ensures p == FIRST ==> k <= j
    ensures p == BEST ==> s[k].size <= s[j].size && (j < k ==> s[k].size < s[j].size)
    ensures p == WORST ==> s[j].size <= s[k].size && (j < k ==> s[j].size < s[k].size)
  {
    assert Preferred(p, s, k, j);
  }

  /** The heap after taking the front of entry k. */
  function Take(h: Heap, k: nat, need: int): Heap
    requires k < |h.free|
  {
    var b := h.free[k];
    Heap(if b.size > need then h.free[k := Block(b.addr + need, b.size - need)] else h.free[..k] + h.free[k + 1..],
         h.sizes[b.addr := need])
  }

  /** The address of a free entry is not that of an allocated block: addToMap's assertion holds. */
  lemma FreshAddress(c: Config, h: Heap, k: nat)
    requires Partition(c, h) && k < |h.free|
    ensures h.free[k].addr !in h.sizes
  {
    var a := h.free[k].addr;
    assert Once(c, h, a);
    CoverAround(h.free, k, a);
    assert a in h.sizes ==> a in Holders(h.sizes, a);
  }

  lemma HoldersAdd(m: map<int, int>, addr: int, size: int, a: int)
    requires addr !in m
    ensures |Holders(m[addr := size], a)| == |Holders(m, a)| + Bit(addr <= a < addr + size)
  {
    if addr <= a < addr + size {
      assert Holders(m[addr := size], a) == Holders(m, a) + {addr};
    } else {
      assert Holders(m[addr := size], a) == Holders(m, a);
    }
  }

  lemma TakeOnce(c: Config, h: Heap, k: nat, need: int, a: int)
    requires Partition(c, h) && Fits(h.free, need, k) && need > 0
    ensures Once(c, Take(h, k, need), a)
  {
    var b := h.free[k];
    assert Once(c, h, a);
    FreshAddress(c, h, k);
    HoldersAdd(h.sizes, b.addr, need, a);
    CoverUpdate(h.free, k, Block(b.addr + need, b.size - need), a);
    CoverRemove(h.free, k, a);
  }

  lemma TakeKeeps(c: Config, h: Heap, k: nat, need: int)
    requires Inv(c, h) && Fits(h.free, need, k) && need > 0
    ensures Inv(c, Take(h, k, need))
  {
    var h2 := Take(h, k, need);
    forall a
      ensures Once(c, h2, a)
    {
      TakeOnce(c, h, k, need, a);
    }
    if c.order == ADDRSORT {
      TakeSpaced(h, k, need, Bit(c.coalesce));
    }
  }

  lemma TakeSpaced(h: Heap, k: nat, need: int, gap: nat)
    requires Spaced(h.free, gap) && Fits(h.free, need, k) && need > 0
    ensures Spaced(Take(h, k, need).free, gap)
  {
    var s, t := h.free, Take(h, k, need).free;
    forall i, j | 0 <= i < j < |t|
      ensures t[i].End() + gap <= t[j].addr
    {
      var skip := if |t| == |s| then 0 else 1;
      var i2, j2 := if i < k then i else i + skip, if j < k then j else j + skip;
      assert s[i2].End() + gap <= s[j2].addr;
    }
  }

  // ---------- Sorting and coalescing ----------

  function Key(o: Order, b: Block): int {
    match o
    case ADDRSORT => b.addr
    case SIZESORTUP => b.size
    case SIZESORTDOWN => -b.size
    case _ => 0
  }

  function Insert(o: Order, s: seq<Block>, b: Block): seq<Block> {
    if s == [] || Key(o, b) <= Key(o, s[0]) then [b] + s
    else [s[0]] + Insert(o, s[1..], b)
  }

  /** The library's sort, which keeps equal keys in their order, also when reversed. */
  function StableSort(o: Order, s: seq<Block>): seq<Block> {
    if s == [] then [] else Insert(o, StableSort(o, s[1..]), s[0])
  }

  predicate SortedBy(o: Order, s: seq<Block>) {
    forall i, j :: 0 <= i < j < |s| ==> Key(o, s[i]) <= Key(o, s[j])
  }

  function OnlyKey(o: Order, b: Block, key: int): seq<Block> {
    if Key(o, b) == key then [b] else []
  }

  /** The entries with a given key, in their order. */
  function WithKey(o: Order, s: seq<Block>, key: int): seq<Block> {
    if s == [] then [] else OnlyKey(o, s[0], key) + WithKey(o, s[1..], key)
  }

  /** In addresses and sizes: what the three sorting orders mean. */
  lemma SortedMeans(o: Order, s: seq<Block>, i: nat, j: nat)
    requires SortedBy(o, s) && i < j < |s|
    ensures o == ADDRSORT ==> s[i].addr <= s[j].addr
    ensures o == SIZESORTUP ==> s[i].size <= s[j].size
    ensures o == SIZESORTDOWN ==> s[j].size <= s[i].size
  {
    assert Key(o, s[i]) <= Key(o, s[j]);
  }

  lemma {:induction false} InsertSorts(o: Order, s: seq<Block>, b: Block)
    requires SortedBy(o, s)
    ensures SortedBy(o, Insert(o, s, b)) && multiset(Insert(o, s, b)) == multiset(s) + multiset{b}
  {
    if s == [] || Key(o, b) <= Key(o, s[0]) {
      PrependSorted(o, s, b);
    } else {
      InsertSorts(o, s[1..], b);
      assert s == [s[0]] + s[1..];
      AllFromKey(o, Insert(o, s[1..], b), s[1..], b, s[0]);
      PrependSorted(o, Insert(o, s[1..], b), s[0]);
    }
  }

  lemma AllFromKey(o: Order, t: seq<Block>, s: seq<Block>, b: Block, x: Block)
    requires multiset(t) == multiset(s) + multiset{b} && Key(o, x) <= Key(o, b)
    requires forall i :: 0 <= i < |s| ==> Key(o, x) <= Key(o, s[i])
    ensures forall i :: 0 <= i < |t| ==> Key(o, x) <= Key(o, t[i])
  {
    forall i | 0 <= i < |t|
      ensures Key(o, x) <= Key(o, t[i])
    {
      Member(t, s, b, i);
    }
  }

  lemma PrependSorted(o: Order, t: seq<Block>, x: Block)
    requires SortedBy(o, t) && forall i :: 0 <= i < |t| ==> Key(o, x) <= Key(o, t[i])
    ensures SortedBy(o, [x] + t) && multiset([x] + t) == multiset(t) + multiset{x}
  {
  }

  lemma WithKeyFront(o: Order, x: Block, t: seq<Block>, key: int)
    ensures WithKey(o, [x] + t, key) == OnlyKey(o, x, key) + WithKey(o, t, key)
  {
    assert ([x] + t)[1..] == t;
  }

  lemma NothingToSwap(a: seq<Block>, b: seq<Block>, s: seq<Block>)
    requires a == [] || b == []
    ensures a + (b + s) == b + (a + s)
  {
  }

  lemma {:induction false} InsertStable(o: Order, s: seq<Block>, b: Block, key: int)
    ensures WithKey(o, Insert(o, s, b), key) == OnlyKey(o, b, key) + WithKey(o, s, key)
  {
    if s == [] || Key(o, b) <= Key(o, s[0]) {
      WithKeyFront(o, b, s, key);
    } else {
      InsertStable(o, s[1..], b, key);
      WithKeyFront(o, s[0], Insert(o, s[1..], b), key);
      NothingToSwap(OnlyKey(o, s[0], key), OnlyKey(o, b, key), WithKey(o, s[1..], key));
    }
  }

  /** The sort orders by key, moves entries only, and keeps the order of equal keys. */
  lemma {:induction false} SortSorts(o: Order, s: seq<Block>)
    ensures SortedBy(o, StableSort(o, s)) && multiset(StableSort(o, s)) == multiset(s)
  {
    if s != [] {
      SortSorts(o, s[1..]);
      InsertSorts(o, StableSort(o, s[1..]), s[0]);
      assert s == [s[0]] + s[1..];
    }
  }

  lemma {:induction false} SortStable(o: Order, s: seq<Block>, key: int)
    ensures WithKey(o, StableSort(o, s), key) == WithKey(o, s, key)
  {
    if s != [] {
      SortStable(o, s[1..], key);
      InsertStable(o, StableSort(o, s[1..]), s[0], key);
    }
  }

  lemma {:induction false} CoverInsert(o: Order, s: seq<Block>, b: Block, a: int)
    ensures Cover(Insert(o, s, b), a) == Cover(s, a) + Bit(b.Has(a))
  {
    if s == [] || Key(o, b) <= Key(o, s[0]) {
      assert ([b] + s)[1..] == s;
    } else {
      CoverInsert(o, s[1..], b, a);
      assert ([s[0]] + Insert(o, s[1..], b))[1..] == Insert(o, s[1..], b);
    }
  }

  lemma {:induction false} CoverSort(o: Order, s: seq<Block>, a: int)
    ensures Cover(StableSort(o, s), a) == Cover(s, a)
  {
    if s != [] {
      CoverSort(o, s[1..], a);
      CoverInsert(o, StableSort(o, s[1..]), s[0], a);
    }
  }

  /** The list with runs of entries that touch, in list order, joined. */
  function Merge(curr: Block, rest: seq<Block>): seq<Block>
    decreases |rest|
  {
    if rest == [] then [curr]
    else if rest[0].addr == curr.End() then Merge(Block(curr.addr, curr.size + rest[0].size), rest[1..])
    else [curr] + Merge(rest[0], rest[1..])
  }

  lemma MergeStep(done: seq<Block>, curr: Block, rest: seq<Block>)
    requires rest != []
    ensures done + Merge(curr, rest) ==
            if rest[0].addr == curr.End() then done + Merge(Block(curr.addr, curr.size + rest[0].size), rest[1..])
            else (done + [curr]) + Merge(rest[0], rest[1..])
  {
  }

  lemma {:induction false} CoverMerge(curr: Block, rest: seq<Block>, a: int)
    requires curr.size > 0 && Positive(rest)
    ensures Cover(Merge(curr, rest), a) == Bit(curr.Has(a)) + Cover(rest, a)
    decreases |rest|
  {
    if rest == [] {
    } else if rest[0].addr == curr.End() {
      CoverMerge(Block(curr.addr, curr.size + rest[0].size), rest[1..], a);
    } else {
      CoverMerge(rest[0], rest[1..], a);
      assert ([curr] + Merge(rest[0], rest[1..]))[1..] == Merge(rest[0], rest[1..]);
    }
  }

  lemma {:induction false} MergePositive(curr: Block, rest: seq<Block>)
    requires curr.size > 0 && Positive(rest)
    ensures Positive(Merge(curr, rest))
    decreases |rest|
  {
    if rest == [] {
    } else if rest[0].addr == curr.End() {
      MergePositive(Block(curr.addr, curr.size + rest[0].size), rest[1..]);
    } else {
      MergePositive(rest[0], rest[1..]);
    }
  }

  predicate AllFrom(s: seq<Block>, addr: int) {
    forall k :: 0 <= k < |s| ==> s[k].addr >= addr
  }

  /** Joining an ordered list leaves room between its entries. */
  lemma {:induction false} MergeSpaced(curr: Block, rest: seq<Block>)
    requires curr.size > 0 && Positive(rest) && Spaced([curr] + rest, 0)
    ensures Spaced(Merge(curr, rest), 1) && AllFrom(Merge(curr, rest), curr.addr)
    decreases |rest|
  {
    if rest != [] {
      SpacedTail(curr, rest);
      if rest[0].addr == curr.End() {
        var joined := Block(curr.addr, curr.size + rest[0].size);
        MergeSpaced(joined, rest[1..]);
      } else {
        MergeSpaced(rest[0], rest[1..]);
      }
    }
  }

  lemma SpacedTail(curr: Block, rest: seq<Block>)
    requires rest != [] && Spaced([curr] + rest, 0)
    ensures curr.End() <= rest[0].addr && Spaced([rest[0]] + rest[1..], 0)
    ensures rest[0].addr == curr.End() ==> Spaced([Block(curr.addr, curr.size + rest[0].size)] + rest[1..], 0)
  {
    var s := [curr] + rest;
    assert s[0] == curr && s[1] == rest[0];
    forall i, j | 0 <= i < j < |rest|
      ensures rest[i].End() <= rest[j].addr
    {
      assert s[i + 1] == rest[i] && s[j + 1] == rest[j];
    }
  }

  /** Entries in address order that hold no address twice do not overlap. */
  lemma SortedSpaced(s: seq<Block>)
    requires Positive(s) && SortedBy(ADDRSORT, s) && forall a :: Cover(s, a) <= 1
    ensures Spaced(s, 0)
  {
    forall i, j | 0 <= i < j < |s|
      ensures s[i].End() <= s[j].addr
    {
      assert Key(ADDRSORT, s[i]) <= Key(ADDRSORT, s[j]);
      assert Cover(s, s[j].addr) <= 1;
      if s[j].addr < s[i].End() {
        CoverTwo(s, i, j, s[j].addr);
      }
    }
  }

  // ---------- Freeing ----------

  /** Where a freed block goes in the list. */
  function PutBack(o: Order, s: seq<Block>, b: Block): (t: seq<Block>)
    ensures t != []
  {
    match o
    case INSERTBACK => s + [b]
    case INSERTFRONT => [b] + s
    case _ =>
      assert StableSort(o, s + [b]) != [] by {
        SortSorts(o, s + [b]);
        assert b in multiset(s + [b]);
      }
      StableSort(o, s + [b])
  }

  function Coalesced(s: seq<Block>): seq<Block>
    requires s != []
  {
    Merge(s[0], s[1..])
  }

  function Release(c: Config, h: Heap, addr: int): Heap
    requires addr in h.sizes
  {
    var list := PutBack(c.order, h.free, Block(addr, h.sizes[addr]));
    Heap(if c.coalesce then Coalesced(list) else list, h.sizes - {addr})
  }

  lemma PutBackCover(o: Order, s: seq<Block>, b: Block, a: int)
    ensures Cover(PutBack(o, s, b), a) == Cover(s, a) + Bit(b.Has(a))
  {
    CoverSplit(s, [b], a);
    CoverSplit([b], s, a);
    CoverSort(o, s + [b], a);
    assert Cover([b], a) == Bit(b.Has(a));
  }

  lemma PutBackPositive(o: Order, s: seq<Block>, b: Block)
    requires Positive(s) && b.size > 0
    ensures Positive(PutBack(o, s, b))
  {
    var t := PutBack(o, s, b);
    SortSorts(o, s + [b]);
    forall k | 0 <= k < |t|
      ensures t[k].size > 0
    {
      if o != INSERTBACK && o != INSERTFRONT {
        assert t[k] in multiset(s + [b]);
      }
    }
  }

  lemma HoldersDrop(m: map<int, int>, addr: int, a: int)
    requires addr in m
    ensures |Holders(m - {addr}, a)| == |Holders(m, a)| - Bit(addr <= a < addr + m[addr])
  {
    if addr <= a < addr + m[addr] {
      assert Holders(m, a) == Holders(m - {addr}, a) + {addr};
    } else {
      assert Holders(m, a) == Holders(m - {addr}, a);
    }
  }

  lemma ReleaseOnce(c: Config, h: Heap, addr: int, a: int)
    requires Partition(c, h) && addr in h.sizes
    ensures Once(c, Release(c, h, addr), a)
  {
    var b := Block(addr, h.sizes[addr]);
    var list := PutBack(c.order, h.free, b);
    assert Once(c, h, a);
    HoldersDrop(h.sizes, addr, a);
    PutBackCover(c.order, h.free, b, a);
    PutBackPositive(c.order, h.free, b);
    if c.coalesce {
      CoverMerge(list[0], list[1..], a);
    }
  }

  lemma ReleasePositive(c: Config, h: Heap, addr: int)
    requires Partition(c, h) && addr in h.sizes
    ensures Positive(Release(c, h, addr).free)
  {
    var b := Block(addr, h.sizes[addr]);
    var list := PutBack(c.order, h.free, b);
    PutBackPositive(c.order, h.free, b);
    MergePositive(list[0], list[1..]);
  }

  lemma PutBackSpaced(c: Config, h: Heap, addr: int)
    requires Partition(c, h) && addr in h.sizes && c.order == ADDRSORT
    ensures Spaced(PutBack(ADDRSORT, h.free, Block(addr, h.sizes[addr])), 0)
  {
    var b := Block(addr, h.sizes[addr]);
    var list := PutBack(ADDRSORT, h.free, b);
    PutBackPositive(ADDRSORT, h.free, b);
    SortSorts(ADDRSORT, h.free + [b]);
    forall a
      ensures Cover(list, a) <= 1
    {
      PutBackCover(ADDRSORT, h.free, b, a);
      assert Once(c, h, a);
      HoldersDrop(h.sizes, addr, a);
    }
    SortedSpaced(list);
  }

  lemma ReleaseKeeps(c: Config, h: Heap, addr: int)
    requires Inv(c, h) && addr in h.sizes
    ensures Inv(c, Release(c, h, addr))
  {
    forall a
      ensures Once(c, Release(c, h, addr), a)
    {
      ReleaseOnce(c, h, addr, a);
    }
    ReleasePositive(c, h, addr);
    if c.order == ADDRSORT {
      PutBackSpaced(c, h, addr);
      var b := Block(addr, h.sizes[addr]);
      var list := PutBack(ADDRSORT, h.free, b);
      PutBackPositive(ADDRSORT, h.free, b);
      assert [list[0]] + list[1..] == list;
      MergeSpaced(list[0], list[1..]);
    }
  }

  // ---------- Runs ----------

  datatype Op = Alloc(size: int) | Free(addr: int)

  /** One call, with the state it leaves. A call that fails changes nothing. */
  ghost predicate Step(c: Config, h: Heap, op: Op, h2: Heap)
    requires c.Ok()
  {
    match op
    case Alloc(size) =>
      if NoneFits(h.free, Need(c, size)) then h2 == h
      else
        exists k: nat ::
          k < |h.free| && Chosen(c.policy, h.free, Need(c, size), k) && h2 == Take(h, k, Need(c, size))
    case Free(addr) => h2 == if addr in h.sizes then Release(c, h, addr) else h
  }

  predicate GoodOp(c: Config, op: Op)
    requires c.Ok()
  {
    op.Alloc? ==> Need(c, op.size) > 0
  }

  ghost predicate Run(c: Config, h: Heap, ops: seq<Op>, last: Heap)
    requires c.Ok()
    decreases |ops|
  {
    if ops == [] then last == h
    else GoodOp(c, ops[0]) && exists h2 :: Step(c, h, ops[0], h2) && Run(c, h2, ops[1..], last)
  }

  lemma StepKeeps(c: Config, h: Heap, op: Op, h2: Heap)
    requires Inv(c, h) && GoodOp(c, op) && Step(c, h, op, h2)
    ensures Inv(c, h2)
  {
    match op
    case Alloc(size) =>
      if !NoneFits(h.free, Need(c, size)) {
        var k: nat :| k < |h.free| && Chosen(c.policy, h.free, Need(c, size), k) && h2 == Take(h, k, Need(c, size));
        TakeKeeps(c, h, k, Need(c, size));
      }
    case Free(addr) =>
      if addr in h.sizes {
        ReleaseKeeps(c, h, addr);
      }
  }

  lemma {:induction false} RunKeeps(c: Config, h: Heap, ops: seq<Op>, last: Heap)
    requires Inv(c, h) && Run(c, h, ops, last)
    ensures Inv(c, last)
    decreases |ops|
  {
    if ops != [] {
      var h2 :| Step(c, h, ops[0], h2) && Run(c, h2, ops[1..], last);
      StepKeeps(c, h, ops[0], h2);
      RunKeeps(c, h2, ops[1..], last);
    }
  }

  /** Blocks handed out never overlap. */
  lemma AllocatedApart(c: Config, h: Heap, k: int, j: int)
    requires Partition(c, h) && k in h.sizes && j in h.sizes && k < j
    ensures k + h.sizes[k] <= j
  {
    if j < k + h.sizes[k] {
      assert Once(c, h, j);
      assert {k, j} <= Holders(h.sizes, j);
      SubsetSize({k, j}, Holders(h.sizes, j));
    }
  }

  /** The list of a heap with nothing allocated, in address order with coalescing, is one entry: the whole heap. */
  lemma AllFree(c: Config, h: Heap)
    requires Inv(c, h) && c.order == ADDRSORT && c.coalesce && h.sizes == map[]
    ensures h.free == [Block(c.start, c.size)]
  {
    forall a
      ensures Cover(h.free, a) == Bit(c.InHeap(a))
    {
      assert Once(c, h, a);
      assert Holders(h.sizes, a) == {};
    }
    var s := h.free;
    assert Cover(s, c.start) == 1;
    assert s != [];
    if |s| > 1 {
      CoverAround(s, 0, s[0].addr);
      CoverAround(s, 1, s[1].addr);
      assert s[0].End() + 1 <= s[1].addr;
      assert Cover(s, s[0].End()) == 1;
      var k := CoverWitness(s, s[0].End());
      assert false;
    }
    OneEntry(c, s);
  }

  lemma OneEntry(c: Config, s: seq<Block>)
    requires |s| == 1 && s[0].size > 0 && c.Ok() && forall a :: Cover(s, a) == Bit(c.InHeap(a))
    ensures s == [Block(c.start, c.size)]
  {
    var last := c.start + c.size - 1;
    assert s[1..] == [];
    assert Cover(s, c.start) == 1 && Cover(s, last) == 1;
    assert Cover(s, s[0].addr) == 1 && Cover(s, s[0].End() - 1) == 1;
  }

  /** After any calls, once everything is freed the list is as at the start. */
  lemma FreeingAllRestores(c: Config, ops: seq<Op>, last: Heap)
    requires c.Ok() && c.order == ADDRSORT && c.coalesce
    requires Run(c, Init(c), ops, last) && last.sizes == map[]
    ensures last == Init(c)
  {
    InvInit(c);
    RunKeeps(c, Init(c), ops, last);
    AllFree(c, last);
  }

  // ---------- When the last free restores the list ----------

  /** Each entry begins where the one before it ends. */
  predicate Touching(s: seq<Block>) {
    forall k :: 0 <= k < |s| - 1 ==> s[k].End() == s[k + 1].addr
  }

  /** Joining leaves one entry exactly when all touch in list order. */
  lemma {:induction false} MergeToOne(curr: Block, rest: seq<Block>)
    ensures |Merge(curr, rest)| >= 1
    ensures |Merge(curr, rest)| == 1 <==> Touching([curr] + rest)
    decreases |rest|
  {
    var s := [curr] + rest;
    if rest != [] {
      assert s[0] == curr && s[1] == rest[0];
      if rest[0].addr == curr.End() {
        var joined := Block(curr.addr, curr.size + rest[0].size);
        MergeToOne(joined, rest[1..]);
        TouchingJoined(curr, rest, joined);
      } else {
        MergeToOne(rest[0], rest[1..]);
      }
    }
  }

  lemma TouchingJoined(curr: Block, rest: seq<Block>, joined: Block)
    requires rest != [] && rest[0].addr == curr.End() && joined.End() == rest[0].End()
    ensures Touching([curr] + rest) <==> Touching([joined] + rest[1..])
  {
    var s, t := [curr] + rest, [joined] + rest[1..];
    forall k | 1 <= k < |t|
      ensures t[k] == s[k + 1] && t[k - 1].End() == s[k].End()
    {
    }
    if Touching(t) {
      forall k | 0 <= k < |s| - 1
        ensures s[k].End() == s[k + 1].addr
      {
        if k > 0 {
          assert t[k - 1].End() == t[k].addr;
        }
      }
    }
    if Touching(s) {
      forall k | 0 <= k < |t| - 1
        ensures t[k].End() == t[k + 1].addr
      {
        assert s[k + 1].End() == s[k + 2].addr;
      }
    }
  }

  lemma {:induction false} TouchingOrdered(s: seq<Block>, i: nat, j: nat)
    requires Positive(s) && Touching(s) && i <= j < |s|
    ensures s[i].addr <= s[j].addr
    decreases j
  {
    if i < j {
      TouchingOrdered(s, i, j - 1);
      assert s[j - 1].End() == s[j].addr && s[j - 1].size > 0;
    }
  }

  /** The entries of a whole heap touch in list order exactly when they are in address order. */
  lemma TouchingIsSorted(c: Config, s: seq<Block>)
    requires Positive(s) && forall a :: Cover(s, a) == Bit(c.InHeap(a))
    ensures Touching(s) <==> SortedBy(ADDRSORT, s)
  {
    if Touching(s) {
      forall i, j | 0 <= i < j < |s|
        ensures Key(ADDRSORT, s[i]) <= Key(ADDRSORT, s[j])
      {
        TouchingOrdered(s, i, j);
      }
    }
    if SortedBy(ADDRSORT, s) {
      SortedSpaced(s);
      forall k | 0 <= k < |s| - 1
        ensures s[k].End() == s[k + 1].addr
      {
        NoGap(c, s, k);
      }
    }
  }

  lemma NoGap(c: Config, s: seq<Block>, k: nat)
    requires Positive(s) && Spaced(s, 0) && k + 1 < |s| && forall a :: Cover(s, a) == Bit(c.InHeap(a))
    ensures s[k].End() == s[k + 1].addr
  {
    CoverAround(s, k, s[k].addr);
    CoverAround(s, k + 1, s[k + 1].addr);
    var a := s[k].End();
    if a < s[k + 1].addr {
      assert c.InHeap(a) && Cover(s, a) == 1;
      var m := CoverWitness(s, a);
      assert false;
    }
  }

  lemma PutBackLength(o: Order, s: seq<Block>, b: Block)
    ensures |PutBack(o, s, b)| == |s| + 1
  {
    SortSorts(o, s + [b]);
    assert |multiset(StableSort(o, s + [b]))| == |multiset(s + [b])|;
  }

  /** The last free makes the list one entry again exactly when nothing else was free, or when entries are joined and
      the freed block falls into place in address order. */
  lemma LastFreeExactly(c: Config, h: Heap, addr: int)
    requires Inv(c, h) && h.sizes.Keys == {addr}
    ensures Release(c, h, addr).free == [Block(c.start, c.size)] <==>
            || h.free == []
            || (c.coalesce && SortedBy(ADDRSORT, PutBack(c.order, h.free, Block(addr, h.sizes[addr]))))
  {
    var b := Block(addr, h.sizes[addr]);
    var list, h2 := PutBack(c.order, h.free, b), Release(c, h, addr);
    PutBackPositive(c.order, h.free, b);
    PutBackLength(c.order, h.free, b);
    ReleasePositive(c, h, addr);
    forall a
      ensures Cover(list, a) == Bit(c.InHeap(a)) && Cover(h2.free, a) == Bit(c.InHeap(a))
    {
      LastCover(c, h, addr, a);
    }
    if |h2.free| == 1 {
      OneEntry(c, h2.free);
    }
    if c.coalesce {
      MergeToOne(list[0], list[1..]);
      assert [list[0]] + list[1..] == list;
      TouchingIsSorted(c, list);
    }
  }

  /** With one block allocated, the list with that block put back covers the heap. */
  lemma LastCover(c: Config, h: Heap, addr: int, a: int)
    requires Partition(c, h) && h.sizes.Keys == {addr}
    ensures Cover(PutBack(c.order, h.free, Block(addr, h.sizes[addr])), a) == Bit(c.InHeap(a))
    ensures Cover(Release(c, h, addr).free, a) == Bit(c.InHeap(a))
  {
    assert Once(c, h, a);
    HoldersDrop(h.sizes, addr, a);
    assert Holders(h.sizes - {addr}, a) == {};
    PutBackCover(c.order, h.free, Block(addr, h.sizes[addr]), a);
    ReleaseOnce(c, h, addr, a);
  }

  /** So it is after any calls, in every order and with or without coalescing. */
  lemma RestoredExactly(c: Config, ops: seq<Op>, h: Heap, addr: int, last: Heap)
    requires c.Ok() && Run(c, Init(c), ops, h) && h.sizes.Keys == {addr} && Step(c, h, Free(addr), last)
    ensures last == Init(c) <==>
            || h.free == []
            || (c.coalesce && SortedBy(ADDRSORT, PutBack(c.order, h.free, Block(addr, h.sizes[addr]))))
  {
    InvInit(c);
    RunKeeps(c, Init(c), ops, h);
    LastFreeExactly(c, h, addr);
    assert h.sizes - {addr} == map[];
  }

  // ---------- Which modes always restore the list ----------

  /** In this mode, freeing everything restores the list of every heap after all calls. */
  ghost predicate ModeRestores(o: Order, coalesce: bool) {
    forall c: Config, ops: seq<Op>, last: Heap ::
      c.Ok() && c.order == o && c.coalesce == coalesce && Run(c, Init(c), ops, last) && last.sizes == map[] ==>
          last == Init(c)
  }

  function Small(o: Order, coalesce: bool): Config { Config(2, 0, 0, FIRST, o, coalesce, -1) }

  lemma SmallTake(o: Order, coalesce: bool)
    ensures var c := Small(o, coalesce);
            && Step(c, Init(c), Alloc(1), Heap([Block(1, 1)], map[0 := 1]))
            && Step(c, Heap([Block(1, 1)], map[0 := 1]), Alloc(1), Heap([], map[0 := 1, 1 := 1]))
  {
    var c := Small(o, coalesce);
    var h0, h1 := Init(c), Heap([Block(1, 1)], map[0 := 1]);
    assert Fits(h0.free, 1, 0) && Chosen(FIRST, h0.free, 1, 0) && Take(h0, 0, 1) == h1;
    assert Fits(h1.free, 1, 0) && Chosen(FIRST, h1.free, 1, 0) && Take(h1, 0, 1) == Heap([], map[0 := 1, 1 := 1]);
  }

  /** A block freed in front of one that was free before it: after two calls and their frees two pieces stay. */
  lemma PiecesStayInFront(coalesce: bool) returns (ops: seq<Op>, last: Heap)
    ensures var c := Small(INSERTFRONT, coalesce); Run(c, Init(c), ops, last) && last.sizes == map[] && last != Init(c)
  {
    var c := Small(INSERTFRONT, coalesce);
    var h1, h2, h3 := Heap([Block(1, 1)], map[0 := 1]), Heap([], map[0 := 1, 1 := 1]), Heap([Block(0, 1)], map[1 := 1]);
    SmallTake(INSERTFRONT, coalesce);
    assert Step(c, h2, Free(0), h3) by {
      assert h2.sizes - {0} == h3.sizes && Coalesced([Block(0, 1)]) == [Block(0, 1)];
    }
    last := Release(c, h3, 1);
    ops := [Alloc(1), Alloc(1), Free(0)];
    RunOf3(c, Init(c), ops, h1, h2, h3);
    BackwardPair(INSERTFRONT, [Block(0, 1)], Block(1, 1));
    RestoredExactly(c, ops, h3, 1, last);
    RunExtend(c, Init(c), ops, h3, Free(1), last);
    ops := ops + [Free(1)];
  }

  /** Two calls that leave two pieces, in every mode but address order with coalescing: the block freed last goes
      on the wrong side of a free one, or the two are not joined. */
  lemma PiecesStay(o: Order, coalesce: bool) returns (ops: seq<Op>, last: Heap)
    requires !(o == ADDRSORT && coalesce)
    ensures Run(Small(o, coalesce), Init(Small(o, coalesce)), ops, last) && last.sizes == map[]
            && last != Init(Small(o, coalesce))
  {
    if o == INSERTFRONT {
      ops, last := PiecesStayInFront(coalesce);
      return;
    }
    var c := Small(o, coalesce);
    var h1 := Heap([Block(1, 1)], map[0 := 1]);
    SmallTake(o, coalesce);
    last := Release(c, h1, 0);
    ops := [Alloc(1)];
    assert ops[1..] == [] && Run(c, h1, [], h1);
    if o != ADDRSORT {
      BackwardPair(o, [Block(1, 1)], Block(0, 1));
    }
    RestoredExactly(c, ops, h1, 0, last);
    RunExtend(c, Init(c), ops, h1, Free(0), last);
    ops := ops + [Free(0)];
  }

  /** Where the freed one of two blocks of one size goes. */
  lemma BackwardPair(o: Order, s: seq<Block>, b: Block)
    requires |s| == 1 && s[0].size == b.size
    requires o != ADDRSORT && if o == INSERTFRONT then s[0].addr < b.addr else b.addr < s[0].addr
    ensures !SortedBy(ADDRSORT, PutBack(o, s, b))
  {
    var t := PutBack(o, s, b);
    assert (s + [b])[1..] == [b] && [b][1..] == [];
    assert o != INSERTFRONT && o != INSERTBACK ==> StableSort(o, [b]) == [b] && t == [s[0]] + [b];
    assert t[0].addr > t[1].addr;
    assert Key(ADDRSORT, t[0]) > Key(ADDRSORT, t[1]);
  }

  lemma {:induction false} RunExtend(c: Config, h: Heap, ops: seq<Op>, h2: Heap, op: Op, last: Heap)
    requires c.Ok() && Run(c, h, ops, h2) && GoodOp(c, op) && Step(c, h2, op, last)
    ensures Run(c, h, ops + [op], last)
    decreases |ops|
  {
    if ops == [] {
      assert [op][1..] == [] && ops + [op] == [op];
      assert Run(c, last, [], last);
    } else {
      var next :| Step(c, h, ops[0], next) && Run(c, next, ops[1..], h2);
      RunExtend(c, next, ops[1..], h2, op, last);
      assert (ops + [op])[1..] == ops[1..] + [op];
    }
  }

  lemma RunOf3(c: Config, h: Heap, ops: seq<Op>, h1: Heap, h2: Heap, h3: Heap)
    requires c.Ok() && |ops| == 3 && forall k :: 0 <= k < 3 ==> GoodOp(c, ops[k])
    requires Step(c, h, ops[0], h1) && Step(c, h1, ops[1], h2) && Step(c, h2, ops[2], h3)
    ensures Run(c, h, ops, h3)
  {
    assert Run(c, h, [], h);
    RunExtend(c, h, [], h, ops[0], h1);
    RunExtend(c, h, [] + [ops[0]], h1, ops[1], h2);
    RunExtend(c, h, [] + [ops[0]] + [ops[1]], h2, ops[2], h3);
    assert [] + [ops[0]] + [ops[1]] + [ops[2]] == ops;
  }

  /** Freeing everything restores every heap exactly in address order with coalescing. */
  lemma ModeRestoresExactly(o: Order, coalesce: bool)
    ensures ModeRestores(o, coalesce) <==> o == ADDRSORT && coalesce
  {
    if o == ADDRSORT && coalesce {
      forall c: Config, ops: seq<Op>, last: Heap
        | c.Ok() && c.order == o && c.coalesce == coalesce && Run(c, Init(c), ops, last) && last.sizes == map[]
        ensures last == Init(c)
      {
        FreeingAllRestores(c, ops, last);
      }
    } else {
      var ops, last := PiecesStay(o, coalesce);
      assert Small(o, coalesce).order == o && Small(o, coalesce).coalesce == coalesce;
    }
  }

  // ---------- The allocator object ----------

  class Allocator {
    const c: Config
    var freelist: seq<Block>
    var sizemap: map<int, int>

    ghost function H(): Heap
      reads this
    {
      Heap(freelist, sizemap)
    }

    constructor (c: Config)
      requires c.Ok()
      ensures this.c == c && H() == Init(c) && Inv(c, H())
    {
      this.c := c;
      freelist := [Block(c.start, c.size)];
      sizemap := map[];
      InvInit(c);
    }

    /** The index of the entry to take, or -1, and how many entries were looked at. */
    method Search(size: int) returns (bestIdx: int, count: nat)
      requires Inv(c, H())
      ensures bestIdx == -1 <==> NoneFits(freelist, size)
      ensures bestIdx != -1 ==> Chosen(c.policy, freelist, size, bestIdx)
      ensures count == if c.policy == FIRST && bestIdx != -1 then bestIdx + 1 else |freelist|
    {
      var bestSize := if c.policy == BEST then c.size + 1 else -1;
      bestIdx, count := -1, 0;
      for i := 0 to |freelist|
        invariant count == i
        invariant bestIdx == -1 ==>
                    NoneFits(freelist[..i], size) && bestSize == if c.policy == BEST then c.size + 1 else -1
        invariant bestIdx != -1 ==> c.policy != FIRST && 0 <= bestIdx < i && bestSize == freelist[bestIdx].size
                                    && Chosen(c.policy, freelist[..i], size, bestIdx)
      {
        EntryInHeap(c, H(), i);
        var esize := freelist[i].size;
        count := count + 1;
        assert freelist[..i + 1] == freelist[..i] + [freelist[i]];
        if esize >= size && ((c.policy == BEST && esize < bestSize) || (c.policy == WORST && esize > bestSize)
                             || c.policy == FIRST) {
          NowChosen(c.policy, freelist, size, i, bestIdx);
          bestSize := esize;
          bestIdx := i;
          if c.policy == FIRST {
            return;
          }
        } else {
          NotChosen(c.policy, freelist, size, i, bestIdx);
        }
      }
      assert freelist[..|freelist|] == freelist;
    }

    /** Returns the address of a block of the size needed, or -1 when no free entry is large enough. */
    method Malloc(request: int) returns (addr: int, count: nat)
      requires Inv(c, H()) && Need(c, request) > 0
      modifies this
      ensures Inv(c, H()) && Step(c, old(H()), Alloc(request), H())
      ensures addr == -1 <==> NoneFits(old(freelist), Need(c, request))
      ensures addr == -1 ==> H() == old(H())
      ensures addr != -1 ==> addr !in old(sizemap) && sizemap == old(sizemap)[addr := Need(c, request)]
    {
      var size := request;
      if c.align != -1 {
        var left := size % c.align;
        var diff := if left != 0 then c.align - left else 0;
        size := size + diff;
      }
      size := size + c.headerSize;
      assert size == Need(c, request);
      var bestIdx;
      bestIdx, count := Search(size);
      if bestIdx == -1 {
        addr := -1;
        return;
      }
      TakeKeeps(c, H(), bestIdx, size);
      FreshAddress(c, H(), bestIdx);
      EntryInHeap(c, H(), bestIdx);
      assert Fits(freelist, size, bestIdx);
      var best := freelist[bestIdx];
      if best.size > size {
        freelist := freelist[bestIdx := Block(best.addr + size, best.size - size)];
      } else {
        freelist := freelist[..bestIdx] + freelist[bestIdx + 1..];
      }
      sizemap := sizemap[best.addr := size];
      addr := best.addr;
    }

    method CoalesceList()
      requires freelist != []
      modifies this`freelist
      ensures freelist == Coalesced(old(freelist))
    {
      var newlist, curr := [], freelist[0];
      for i := 1 to |freelist|
        invariant freelist == old(freelist)
        invariant newlist + Merge(curr, freelist[i..]) == Coalesced(freelist)
      {
        var e := freelist[i];
        assert freelist[i..][0] == e && freelist[i..][1..] == freelist[i + 1..];
        MergeStep(newlist, curr, freelist[i..]);
        if e.addr == curr.addr + curr.size {
          curr := Block(curr.addr, curr.size + e.size);
        } else {
          newlist := newlist + [curr];
          curr := e;
        }
      }
      newlist := newlist + [curr];
      freelist := newlist;
    }

    /** Gives a block back; -1 when the address was not handed out. */
    method FreeBlock(addr: int) returns (rc: int)
      requires Inv(c, H())
      modifies this
      ensures Inv(c, H()) && Step(c, old(H()), Free(addr), H())
      ensures rc == if addr in old(sizemap) then 0 else -1
      ensures sizemap == old(sizemap) - {addr}
    {
      if addr !in sizemap {
        rc := -1;
        return;
      }
      ReleaseKeeps(c, H(), addr);
      freelist := PutBack(c.order, freelist, Block(addr, sizemap[addr]));
      if c.coalesce {
        CoalesceList();
      }
      sizemap := sizemap - {addr};
      rc := 0;
    }
  }

  lemma EntryInHeap(c: Config, h: Heap, k: nat)
    requires Partition(c, h) && k < |h.free|
    ensures c.start <= h.free[k].addr && 0 < h.free[k].size <= c.size
  {
    var b := h.free[k];
    assert Once(c, h, b.addr) && Once(c, h, b.End() - 1);
    CoverAround(h.free, k, b.addr);
    CoverAround(h.free, k, b.End() - 1);
  }

  /** The entry at i is now the best of those seen. */
  lemma NowChosen(p: Policy, s: seq<Block>, need: int, i: nat, best: int)
    requires i < |s| && s[i].size >= need
    requires best == -1 ==> NoneFits(s[..i], need)
    requires best != -1 ==> p != FIRST && 0 <= best < i && Chosen(p, s[..i], need, best)
                            && if p == BEST then s[i].size < s[best].size else s[i].size > s[best].size
    ensures Chosen(p, s[..i + 1], need, i)
    ensures p == FIRST ==> Chosen(p, s, need, i)
  {
    var t := s[..i + 1];
    forall j | Fits(t, need, j)
      ensures Preferred(p, t, i, j)
    {
      if j < i {
        assert Fits(s[..i], need, j);
        assert best != -1;
        assert Preferred(p, s[..i], best, j);
      }
    }
    if p == FIRST {
      forall j | Fits(s, need, j)
        ensures Preferred(p, s, i, j)
      {
        if j < i {
          assert Fits(s[..i], need, j);
        }
      }
    }
  }

  /** The entry at i does not beat the best of those seen. */
  lemma NotChosen(p: Policy, s: seq<Block>, need: int, i: nat, best: int)
    requires i < |s|
    requires best == -1 ==> NoneFits(s[..i], need) && s[i].size < need
    requires best != -1 ==> p != FIRST && 0 <= best < i && Chosen(p, s[..i], need, best)
    requires best != -1 ==>
               s[i].size < need || if p == BEST then s[i].size >= s[best].size else s[i].size <= s[best].size
    ensures best == -1 ==> NoneFits(s[..i + 1], need)
    ensures best != -1 ==> Chosen(p, s[..i + 1], need, best)
  {
    var t := s[..i + 1];
    if best == -1 {
      forall j | 0 <= j < |t|
        ensures !Fits(t, need, j)
      {
        assert j < i ==> !Fits(s[..i], need, j);
      }
    } else {
      assert Fits(s[..i], need, best);
      forall j | Fits(t, need, j)
        ensures Preferred(p, t, best, j)
      {
        if j < i {
          assert Fits(s[..i], need, j);
          assert Preferred(p, s[..i], best, j);
        }
      }
    }
  }
}
