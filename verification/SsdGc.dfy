/** Garbage collection of ssd.py: one block, one pass, and when a pass can lose data. */
module FlashGc {
  import opened Bitmaps
  import opened Sums
  import opened Collections
  import opened FlashDevice

  /** The live pages of a block. */
  function LiveIn(g: Geo, d: Dev, b: nat): (r: seq<nat>)
    requires Sizes(g, d) && Ranges(g, d) && b < g.N
    ensures |r| <= g.P
  {
    BlockBounds(g, b);
    LivePages(g, d, g.First(b), g.First(b) + g.P)
  }

  /** The collector leaves alone the block being written, erased blocks, and blocks that are all live. */
  predicate Collectable(g: Geo, d: Dev, b: nat)
    requires Sizes(g, d) && Ranges(g, d) && b < g.N
  {
    BlockBounds(g, b);
    b != d.curBlock && d.state[g.First(b)] != ERASED && |LiveIn(g, d, b)| != g.P
  }

  /** Copying pages to the log, one logged write each; a refused write is not noticed. */
  function Relocate(g: Geo, d: Dev, pages: seq<nat>): (r: Dev)
    requires Base(g, d) && OnDevice(g, pages)
    ensures Base(g, r)
    decreases |pages|
  {
    if pages == [] then d else Relocate(g, MovePage(g, d, pages[0]), pages[1..])
  }

  predicate OnDevice(g: Geo, pages: seq<nat>) {
    forall i :: 0 <= i < |pages| ==> pages[i] < g.NumPages()
  }

  /** Rewriting one page under the logical name the reverse map gives it. */
  function MovePage(g: Geo, d: Dev, p: nat): (r: Dev)
    requires Base(g, d) && p < g.NumPages()
    ensures Base(g, r)
  {
    if d.rev[p] == -1 then d
    else
      LogWriteIsUpdate(g, d, d.rev[p], d.data[p]);
      LogWrite(g, d, d.rev[p], d.data[p])
  }

  function Collect(g: Geo, d: Dev, b: nat): Dev
    requires Base(g, d) && b < g.N && Collectable(g, d, b)
  {
    LiveInExactly(g, d, b);
    var live := LiveIn(g, d, b);
    Erase(g, Relocate(g, d, live), b)
  }

  lemma LiveInExactly(g: Geo, d: Dev, b: nat)
    requires Sizes(g, d) && Ranges(g, d) && b < g.N
    ensures var r := LiveIn(g, d, b);
            && OnDevice(g, r)
            && (forall i :: 0 <= i < |r| ==> InBlock(g, b, r[i]) && Live(g, d, r[i]))
            && (forall p: nat :: InBlock(g, b, p) && p < g.NumPages() && Live(g, d, p) ==> p in r)
            && Unique(r)
            && (|r| == g.P <==> AllLive(g, d, b))
            && ((forall p :: InBlock(g, b, p) && 0 <= p < g.NumPages() ==> !Live(g, d, p)) ==> r == [])
  {
    BlockBounds(g, b);
    LivePagesAreLive(g, d, g.First(b), g.First(b) + g.P);
    LivePagesDistinct(g, d, g.First(b), g.First(b) + g.P);
    LivePagesAreAll(g, d, g.First(b), g.First(b) + g.P);
    var r := LiveIn(g, d, b);
    forall i | 0 <= i < |r|
      ensures InBlock(g, b, r[i]) && r[i] < g.NumPages() && Live(g, d, r[i])
    {
      assert r[i] in r;
    }
  }

  predicate AllLive(g: Geo, d: Dev, b: nat)
    requires Sizes(g, d) && Ranges(g, d) && b < g.N
  {
    BlockBounds(g, b);
    forall p :: g.First(b) <= p < g.First(b) + g.P ==> Live(g, d, p)
  }

  /** Some live pages of a block that is in use and not being written to. */
  ghost predicate Victims(g: Geo, d: Dev, b: nat, pages: seq<nat>)
    requires Base(g, d)
  {
    && b < g.N && b != d.curBlock && d.used[b] == 1
    && Unique(pages)
    && OnDevice(g, pages)
    && (forall i :: 0 <= i < |pages| ==> InBlock(g, b, pages[i]) && Live(g, d, pages[i]))
  }

  /** What one successful relocation does to the rest of the block and to the device. */
  lemma RelocateOne(g: Geo, d: Dev, b: nat, pages: seq<nat>)
    requires Base(g, d) && Agree(g, d) && pages != [] && Victims(g, d, b, pages) && FreeSlots(g, d) > 0
    ensures var d' := MovePage(g, d, pages[0]);
            && Agree(g, d') && View(g, d') == View(g, d)
            && FreeSlots(g, d') == FreeSlots(g, d) - 1 && d'.fails == d.fails
            && Victims(g, d', b, pages[1..])
            && (forall p :: 0 <= p < g.NumPages() && InBlock(g, b, p) ==>
                              (Live(g, d', p) <==> Live(g, d, p) && p != pages[0]))
  {
    var p0 := pages[0];
    var a, x := d.rev[p0], d.data[p0];
    var d' := LogWrite(g, d, a, x);
    LogWriteIsUpdate(g, d, a, x);
    LogWriteLiveness(g, d, a, x);
    NextCursorKeeps(g, d);
    assert View(g, d)[a := x] == View(g, d);
    assert d'.used[b] == 1 && d'.curBlock != b;
    forall p | 0 <= p < g.NumPages() && InBlock(g, b, p)
      ensures Live(g, d', p) <==> Live(g, d, p) && p != p0
    {
      var q := NextCursor(g, d).curPage;
      if p == q {
        BlocksApart(g, b, d'.curBlock, p);
      }
    }
  }

  /** With room for all of them, relocation moves the pages, fails no write, and shows nothing. */
  lemma {:induction false} RelocateAll(g: Geo, d: Dev, b: nat, pages: seq<nat>)
    requires Base(g, d) && Agree(g, d) && Victims(g, d, b, pages) && |pages| <= FreeSlots(g, d)
    ensures var d' := Relocate(g, d, pages);
            && Agree(g, d') && View(g, d') == View(g, d)
            && FreeSlots(g, d') == FreeSlots(g, d) - |pages| && d'.fails == d.fails
            && Victims(g, d', b, [])
            && (forall p: nat :: p < g.NumPages() && InBlock(g, b, p) ==>
                              (Live(g, d', p) <==> Live(g, d, p) && p !in pages))
    decreases |pages|
  {
    if pages != [] {
      RelocateOne(g, d, b, pages);
      RelocateAll(g, MovePage(g, d, pages[0]), b, pages[1..]);
      assert forall p: nat :: p in pages <==> p == pages[0] || p in pages[1..];
    }
  }

  /** Without room, the last page stays where it was. */
  lemma {:induction false} RelocateLeaves(g: Geo, d: Dev, b: nat, pages: seq<nat>)
    requires Base(g, d) && Agree(g, d) && Victims(g, d, b, pages) && |pages| > FreeSlots(g, d)
    requires pages != []
    ensures var d' := Relocate(g, d, pages);
            && b < g.N && b != d'.curBlock
            && Live(g, d', pages[|pages| - 1])
    decreases |pages|
  {
    FullExactly(g, d);
    if FreeSlots(g, d) > 0 {
      RelocateOne(g, d, b, pages);
      RelocateLeaves(g, MovePage(g, d, pages[0]), b, pages[1..]);
    } else {
      RelocateFull(g, d, pages);
    }
  }

  /** On a full device relocation only counts failures. */
  lemma {:induction false} RelocateFull(g: Geo, d: Dev, pages: seq<nat>)
    requires Base(g, d) && FreeSlots(g, d) == 0 && OnDevice(g, pages)
    ensures exists n: nat :: Relocate(g, d, pages) == d.(fails := n)
    decreases |pages|
  {
    if pages == [] {
      assert d == d.(fails := d.fails);
    } else {
      if d.rev[pages[0]] != -1 {
        LogWriteIsUpdate(g, d, d.rev[pages[0]], d.data[pages[0]]);
      }
      RelocateFull(g, MovePage(g, d, pages[0]), pages[1..]);
    }
  }

  /** A collectable block is in use, or was never touched and holds nothing live. */
  lemma CollectableVictims(g: Geo, d: Dev, b: nat)
    requires Base(g, d) && Agree(g, d) && b < g.N && Collectable(g, d, b)
    ensures d.used[b] == 1 ==> Victims(g, d, b, LiveIn(g, d, b))
    ensures d.used[b] == 0 ==> LiveIn(g, d, b) == []
    ensures d.used[b] == 0 || d.used[b] == 1
  {
    LiveInExactly(g, d, b);
    BaseBits(g, d);
    if d.used[b] == 0 {
      UnusedIsUnmapped(g, d, b);
    }
  }

  /** Collecting a block whose live pages fit keeps every mapping, fails no write, and never lowers the free count. */
  lemma CollectKeeps(g: Geo, d: Dev, b: nat)
    requires Base(g, d) && Agree(g, d) && b < g.N && Collectable(g, d, b)
    requires |LiveIn(g, d, b)| <= FreeSlots(g, d)
    ensures var d' := Collect(g, d, b);
            && Base(g, d') && Agree(g, d') && View(g, d') == View(g, d) && d'.fails == d.fails
            && d'.used[b] == 0
            && FreeSlots(g, d') == FreeSlots(g, d) - |LiveIn(g, d, b)| + g.P * d.used[b]
            && FreeSlots(g, d') >= FreeSlots(g, d)
  {
    CollectableVictims(g, d, b);
    LiveInExactly(g, d, b);
    var live := LiveIn(g, d, b);
    var d1 := Relocate(g, d, live);
    if d.used[b] == 1 {
      RelocateAll(g, d, b, live);
      forall a | 0 <= a < g.L
        ensures !InBlock(g, b, d1.fwd[a])
      {
        var p := d1.fwd[a];
        BlockBounds(g, b);
        assert p >= 0 ==> Live(g, d1, p);
      }
      assert d1.used[b] == 1;
    } else {
      UnusedIsUnmapped(g, d, b);
    }
    EraseKeepsBase(g, d1, b);
    EraseUnmapped(g, d1, b);
  }

  /** Collecting a block whose live pages do not fit leaves a logical page mapped to an erased page. */
  lemma CollectLoses(g: Geo, d: Dev, b: nat)
    requires Base(g, d) && Agree(g, d) && b < g.N && Collectable(g, d, b)
    requires |LiveIn(g, d, b)| > FreeSlots(g, d)
    ensures var d' := Collect(g, d, b); Base(g, d') && Dangling(g, d', b)
  {
    CollectableVictims(g, d, b);
    FullExactly(g, d);
    var live := LiveIn(g, d, b);
    var d1 := Relocate(g, d, live);
    RelocateLeaves(g, d, b, live);
    EraseKeepsBase(g, d1, b);
    var p := live[|live| - 1];
    var d' := Collect(g, d, b);
    assert d'.fwd[d'.rev[p]] == p && d'.state[p] == ERASED;
  }

  /** Some logical page is mapped into block `b` where it no longer is. */
  ghost predicate Dangling(g: Geo, d: Dev, b: nat)
    requires Sizes(g, d) && Ranges(g, d)
  {
    exists a :: 0 <= a < g.L && InBlock(g, b, d.fwd[a]) && IsLost(g, d, a)
  }

  predicate IsLost(g: Geo, d: Dev, a: nat)
    requires Sizes(g, d) && Ranges(g, d) && a < g.L
  {
    d.fwd[a] != -1 && (d.state[d.fwd[a]] != VALID || d.rev[d.fwd[a]] != a)
  }

  // ---------- One pass ----------

  /** The device after a pass, and the block at which the next pass will start. */
  datatype Pass = Pass(d: Dev, next: nat)

  /** The rest of a pass that started at block `start`, from scan position `i` on. */
  function GcPass(g: Geo, d: Dev, start: nat, i: nat, low: int): (r: Pass)
    requires Base(g, d) && start < g.N && i <= g.N
    ensures Base(g, r.d) && r.next < g.N
    decreases g.N - i
  {
    if i == g.N then Pass(d, start)
    else
      var b := Rot(g, start, i);
      if !Collectable(g, d, b) then GcPass(g, d, start, i + 1, low)
      else
        var d' := Collect(g, d, b);
        CollectKeepsBase(g, d, b);
        if Ones(d'.used) <= low then Pass(d', b) else GcPass(g, d', start, i + 1, low)
  }

  lemma GcPassStep(g: Geo, d: Dev, start: nat, i: nat, low: int)
    requires Base(g, d) && start < g.N && i < g.N
    ensures var b, r := Rot(g, start, i), GcPass(g, d, start, i, low);
            if !Collectable(g, d, b) then r == GcPass(g, d, start, i + 1, low)
            else
              var d' := Collect(g, d, b);
              Base(g, d') && r == if Ones(d'.used) <= low then Pass(d', b) else GcPass(g, d', start, i + 1, low)
  {
    if Collectable(g, d, Rot(g, start, i)) {
      CollectKeepsBase(g, d, Rot(g, start, i));
    }
  }

  lemma CollectKeepsBase(g: Geo, d: Dev, b: nat)
    requires Base(g, d) && b < g.N && Collectable(g, d, b)
    ensures Base(g, Collect(g, d, b))
  {
    LiveInExactly(g, d, b);
    CollectableInUse(g, d, b);
    if d.used[b] == 1 {
      RelocateAvoids(g, d, b, LiveIn(g, d, b));
    }
    EraseKeepsBase(g, Relocate(g, d, LiveIn(g, d, b)), b);
  }

  /** A collectable block is in use or holds nothing live; this needs no agreement of the maps. */
  lemma CollectableInUse(g: Geo, d: Dev, b: nat)
    requires Base(g, d) && b < g.N && Collectable(g, d, b)
    ensures d.used[b] == 1 || (d.used[b] == 0 && LiveIn(g, d, b) == [])
  {
    BlockBounds(g, b);
    assert Shape(g, d, b);
    LiveInExactly(g, d, b);
    assert InBlock(g, b, g.First(b));
  }

  /** Relocation never writes into, nor starts writing to, a block already in use. */
  lemma {:induction false} RelocateAvoids(g: Geo, d: Dev, b: nat, pages: seq<nat>)
    requires Base(g, d) && b < g.N && b != d.curBlock && d.used[b] == 1 && OnDevice(g, pages)
    ensures var d' := Relocate(g, d, pages); d'.curBlock != b && d'.used[b] == 1
    decreases |pages|
  {
    if pages != [] {
      NextCursorKeeps(g, d);
      RelocateAvoids(g, MovePage(g, d, pages[0]), b, pages[1..]);
    }
  }

  /** The first collectable block at or after scan position `i`, or N. */
  function FirstCollectable(g: Geo, d: Dev, start: nat, i: nat): (k: nat)
    requires Sizes(g, d) && Ranges(g, d) && start < g.N && i <= g.N
    ensures i <= k <= g.N
    ensures k < g.N ==> Collectable(g, d, Rot(g, start, k))
    decreases g.N - i
  {
    if i == g.N || Collectable(g, d, Rot(g, start, i)) then i else FirstCollectable(g, d, start, i + 1)
  }

  /** The live pages of the first block the pass will collect fit into the free slots there are. */
  predicate FirstFits(g: Geo, d: Dev, start: nat, i: nat)
    requires Sizes(g, d) && Ranges(g, d) && start < g.N && i <= g.N
  {
    var k := FirstCollectable(g, d, start, i);
    k < g.N ==> |LiveIn(g, d, Rot(g, start, k))| <= FreeSlots(g, d)
  }

  /** With a block to spare every block fits. */
  lemma SpareBlockFits(g: Geo, d: Dev, start: nat, i: nat)
    requires Base(g, d) && start < g.N && i <= g.N
    requires Ones(d.used) < g.N
    ensures FirstFits(g, d, start, i)
  {
    FullExactly(g, d);
  }

  /** Cleaning a block that fits leaves room for the next one. */
  lemma GcKeepsStep(g: Geo, d: Dev, start: nat, i: nat)
    requires Base(g, d) && Agree(g, d) && start < g.N && i < g.N && FirstFits(g, d, start, i)
    requires Collectable(g, d, Rot(g, start, i))
    ensures var d' := Collect(g, d, Rot(g, start, i));
            && Base(g, d') && Agree(g, d') && View(g, d') == View(g, d) && d'.fails == d.fails
            && FreeSlots(g, d') >= FreeSlots(g, d) && FirstFits(g, d', start, i + 1)
  {
    var b := Rot(g, start, i);
    CollectKeeps(g, d, b);
    HasSpare(g, Collect(g, d, b), b);
    SpareBlockFits(g, Collect(g, d, b), start, i + 1);
  }

  predicate SeemsUntouched(g: Geo, d: Dev, e: Dev)
    requires Base(g, d) && Base(g, e)
  {
    Agree(g, e) && View(g, e) == View(g, d) && e.fails == d.fails && FreeSlots(g, e) >= FreeSlots(g, d)
  }

  /** A pass whose first block fits keeps every mapping, fails no write, and never lowers the free count. */
  lemma {:induction false} GcKeeps(g: Geo, d: Dev, start: nat, i: nat, low: int)
    requires Base(g, d) && Agree(g, d) && start < g.N && i <= g.N && FirstFits(g, d, start, i)
    ensures SeemsUntouched(g, d, GcPass(g, d, start, i, low).d)
    decreases g.N - i
  {
    if i < g.N {
      var b := Rot(g, start, i);
      if Collectable(g, d, b) {
        GcKeepsStep(g, d, start, i);
        var d' := Collect(g, d, b);
        if Ones(d'.used) > low {
          GcKeeps(g, d', start, i + 1, low);
        }
      } else {
        GcKeeps(g, d, start, i + 1, low);
      }
    }
  }

  lemma HasSpare(g: Geo, d: Dev, b: nat)
    requires Base(g, d) && b < g.N && d.used[b] == 0
    ensures Ones(d.used) < g.N
  {
    BaseBits(g, d);
    BitsCount(d.used);
  }

  /** A lost page stays lost while other blocks are relocated. */
  lemma {:induction false} LostWhileRelocating(g: Geo, d: Dev, c: nat, pages: seq<nat>, a: nat)
    requires Base(g, d) && c < g.N && c != d.curBlock && d.used[c] == 1 && OnDevice(g, pages)
    requires forall i :: 0 <= i < |pages| ==> InBlock(g, c, pages[i]) && d.rev[pages[i]] != a
    requires a < g.L && IsLost(g, d, a)
    ensures var d' := Relocate(g, d, pages); IsLost(g, d', a) && d'.fwd[a] == d.fwd[a]
    decreases |pages|
  {
    if pages != [] {
      var d1 := MovePage(g, d, pages[0]);
      LostAcrossMove(g, d, c, pages[0], a);
      forall i | 0 <= i < |pages|
        ensures d1.rev[pages[i]] == d.rev[pages[i]]
      {
        RevAcrossMove(g, d, c, pages[0], pages[i]);
      }
      LostWhileRelocating(g, d1, c, pages[1..], a);
    }
  }

  lemma RevAcrossMove(g: Geo, d: Dev, c: nat, p: nat, q: nat)
    requires Base(g, d) && c < g.N && c != d.curBlock && d.used[c] == 1
    requires p < g.NumPages() && q < g.NumPages() && InBlock(g, c, q)
    ensures MovePage(g, d, p).rev[q] == d.rev[q]
  {
    NextCursorKeeps(g, d);
    FullExactly(g, d);
    if d.rev[p] != -1 && FreeSlots(g, d) > 0 {
      LogWriteLiveness(g, d, d.rev[p], d.data[p]);
      BlocksApart(g, c, MovePage(g, d, p).curBlock, q);
    }
  }

  lemma LostAcrossMove(g: Geo, d: Dev, c: nat, p: nat, a: nat)
    requires Base(g, d) && c < g.N && c != d.curBlock && d.used[c] == 1
    requires p < g.NumPages() && d.rev[p] != a
    requires a < g.L && IsLost(g, d, a)
    ensures var d' := MovePage(g, d, p);
            IsLost(g, d', a) && d'.fwd[a] == d.fwd[a] && d'.curBlock != c && d'.used[c] == 1
  {
    NextCursorKeeps(g, d);
    NextCursorProgramsNothing(g, d);
    FullExactly(g, d);
    if d.rev[p] != -1 && FreeSlots(g, d) > 0 {
      LogWriteLiveness(g, d, d.rev[p], d.data[p]);
    }
  }

  lemma NextCursorProgramsNothing(g: Geo, d: Dev)
    requires Base(g, d)
    ensures forall p :: 0 <= p < g.NumPages() && d.state[p] != VALID ==> NextCursor(g, d).state[p] != VALID
  {
  }

  lemma LostAcrossCollect(g: Geo, d: Dev, c: nat, a: nat)
    requires Base(g, d) && c < g.N && Collectable(g, d, c)
    requires a < g.L && IsLost(g, d, a) && !InBlock(g, c, d.fwd[a])
    ensures Base(g, Collect(g, d, c)) && IsLost(g, Collect(g, d, c), a) && Collect(g, d, c).fwd[a] == d.fwd[a]
  {
    CollectKeepsBase(g, d, c);
    CollectableInUse(g, d, c);
    LiveInExactly(g, d, c);
    var live := LiveIn(g, d, c);
    if d.used[c] == 1 {
      LostWhileRelocating(g, d, c, live, a);
    }
    LostAcrossErase(g, Relocate(g, d, live), c, a);
  }

  lemma DanglingAcrossCollect(g: Geo, d: Dev, c: nat, b: nat)
    requires Base(g, d) && b < g.N && c < g.N && b != c && Collectable(g, d, c) && Dangling(g, d, b)
    ensures Base(g, Collect(g, d, c)) && Dangling(g, Collect(g, d, c), b)
  {
    var a :| 0 <= a < g.L && InBlock(g, b, d.fwd[a]) && IsLost(g, d, a);
    BlocksApart(g, b, c, d.fwd[a]);
    LostAcrossCollect(g, d, c, a);
  }

  lemma LostAcrossErase(g: Geo, d: Dev, c: nat, a: nat)
    requires Base(g, d) && c < g.N && Base(g, Erase(g, d, c))
    requires a < g.L && IsLost(g, d, a)
    ensures IsLost(g, Erase(g, d, c), a)
  {
  }

  lemma {:induction false} DanglingStays(g: Geo, d: Dev, start: nat, i: nat, low: int, j: nat)
    requires Base(g, d) && start < g.N && j < i <= g.N && Dangling(g, d, Rot(g, start, j))
    ensures Dangling(g, GcPass(g, d, start, i, low).d, Rot(g, start, j))
    decreases g.N - i
  {
    if i < g.N {
      var b := Rot(g, start, i);
      if Collectable(g, d, b) {
        DanglingAcrossCollect(g, d, b, Rot(g, start, j));
        var d' := Collect(g, d, b);
        if Ones(d'.used) > low {
          DanglingStays(g, d', start, i + 1, low, j);
        }
      } else {
        DanglingStays(g, d, start, i + 1, low, j);
      }
    }
  }

  lemma {:induction false} GcLoses(g: Geo, d: Dev, start: nat, i: nat, low: int)
    requires Base(g, d) && Agree(g, d) && start < g.N && i <= g.N && !FirstFits(g, d, start, i)
    ensures !Agree(g, GcPass(g, d, start, i, low).d)
    decreases g.N - i
  {
    if i < g.N {
      var b := Rot(g, start, i);
      if Collectable(g, d, b) {
        CollectLoses(g, d, b);
        var d' := Collect(g, d, b);
        if Ones(d'.used) > low {
          DanglingStays(g, d', start, i + 1, low, i);
        }
      } else {
        GcLoses(g, d, start, i + 1, low);
      }
    }
  }

  /**
   A pass keeps the maps in agreement exactly when the live pages of the first block it collects
   fit into the free slots it starts with.
   */
  lemma GcExactly(g: Geo, d: Dev, start: nat, low: int)
    requires Base(g, d) && Agree(g, d) && start < g.N
    ensures Agree(g, GcPass(g, d, start, 0, low).d) <==> FirstFits(g, d, start, 0)
  {
    if FirstFits(g, d, start, 0) {
      GcKeeps(g, d, start, 0, low);
    } else {
      GcLoses(g, d, start, 0, low);
    }
  }

  // ---------- How much room a pass makes ----------

  /** `b` is free, wholly live, the block written to when the pass began, or the one written to now. */
  predicate Settled(g: Geo, d: Dev, first: nat, b: nat)
    requires Sizes(g, d) && Ranges(g, d) && b < g.N
  {
    d.used[b] == 0 || AllLive(g, d, b) || b == first || b == d.curBlock
  }

  /** Everything written to the current block during the pass is live. */
  ghost predicate LogLive(g: Geo, d: Dev, first: nat)
    requires Sizes(g, d) && Ranges(g, d) && d.curBlock < g.N
  {
    d.curBlock != first ==>
      (BlockBounds(g, d.curBlock);
       forall p :: InBlock(g, d.curBlock, p) && p < Fill(g, d, d.curBlock) ==> Live(g, d, p))
  }

  predicate Victim(g: Geo, d: Dev, c: nat, p: nat)
    requires Sizes(g, d) && Ranges(g, d)
  {
    && c < g.N && c != d.curBlock && d.used[c] == 1
    && p < g.NumPages() && InBlock(g, c, p) && Live(g, d, p)
  }

  lemma MoveKeepsLive(g: Geo, d: Dev, c: nat, p: nat, q: nat)
    requires Base(g, d) && Agree(g, d) && FreeSlots(g, d) > 0
    requires Victim(g, d, c, p) && q < g.NumPages() && !InBlock(g, c, q)
    requires Live(g, d, q)
    ensures Live(g, MovePage(g, d, p), q)
  {
    LogWriteLiveness(g, d, d.rev[p], d.data[p]);
  }

  lemma MoveKeepsAllLive(g: Geo, d: Dev, c: nat, p: nat, x: nat)
    requires Base(g, d) && Agree(g, d) && FreeSlots(g, d) > 0
    requires Victim(g, d, c, p) && x < g.N && x != c && AllLive(g, d, x)
    ensures AllLive(g, MovePage(g, d, p), x)
  {
    BlockBounds(g, x);
    forall q | g.First(x) <= q < g.First(x) + g.P
      ensures Live(g, MovePage(g, d, p), q)
    {
      BlocksApart(g, x, c, q);
      MoveKeepsLive(g, d, c, p, q);
    }
  }

  /** When the current block is spent and the log moves on, it was written by this pass or before it. */
  lemma SpentBlock(g: Geo, d: Dev, first: nat)
    requires Base(g, d) && LogLive(g, d, first) && d.curPage == -1 && d.curBlock != first
    ensures AllLive(g, d, d.curBlock)
  {
  }

  lemma MoveKeepsSettled(g: Geo, d: Dev, c: nat, p: nat, first: nat, x: nat)
    requires Base(g, d) && Agree(g, d) && FreeSlots(g, d) > 0 && LogLive(g, d, first)
    requires Victim(g, d, c, p) && x < g.N && x != c && Settled(g, d, first, x)
    ensures Settled(g, MovePage(g, d, p), first, x)
  {
    NextCursorKeeps(g, d);
    var d' := MovePage(g, d, p);
    if x != first && d'.curBlock != x && d.used[x] != 0 {
      if d.curBlock == x {
        SpentBlock(g, d, first);
      }
      MoveKeepsAllLive(g, d, c, p, x);
    }
  }

  lemma MoveKeepsLogLive(g: Geo, d: Dev, c: nat, p: nat, first: nat)
    requires Base(g, d) && Agree(g, d) && FreeSlots(g, d) > 0 && LogLive(g, d, first)
    requires Victim(g, d, c, p)
    ensures LogLive(g, MovePage(g, d, p), first)
  {
    var d' := MovePage(g, d, p);
    var e := NextCursor(g, d);
    NextCursorKeeps(g, d);
    FullExactly(g, d);
    LogWriteLiveness(g, d, d.rev[p], d.data[p]);
    BlockBounds(g, d'.curBlock);
    AdvanceExactly(g, e.curBlock, e.curPage);
    if d'.curBlock != first {
      forall q | InBlock(g, d'.curBlock, q) && q < Fill(g, d', d'.curBlock)
        ensures Live(g, d', q)
      {
        if q != e.curPage {
          BlocksApart(g, d'.curBlock, c, q);
          CursorStart(g, d);
          MoveKeepsLive(g, d, c, p, q);
        }
      }
    }
  }

  /** The log moves to a new block only at that block's first page. */
  lemma CursorStart(g: Geo, d: Dev)
    requires Base(g, d) && FreeSlots(g, d) > 0
    ensures var e := NextCursor(g, d); if d.curPage == -1 then e.curPage == g.First(e.curBlock) else e == d
  {
    NextCursorKeeps(g, d);
    FullExactly(g, d);
  }

  lemma {:induction false} RelocateSettles(g: Geo, d: Dev, c: nat, pages: seq<nat>, first: nat, x: nat)
    requires Base(g, d) && Agree(g, d) && Victims(g, d, c, pages) && |pages| <= FreeSlots(g, d)
    requires LogLive(g, d, first) && x < g.N && x != c && Settled(g, d, first, x)
    ensures var d' := Relocate(g, d, pages); LogLive(g, d', first) && Settled(g, d', first, x)
    decreases |pages|
  {
    if pages != [] {
      RelocateOne(g, d, c, pages);
      VictimsHead(g, d, c, pages);
      MoveKeepsSettled(g, d, c, pages[0], first, x);
      MoveKeepsLogLive(g, d, c, pages[0], first);
      RelocateSettles(g, MovePage(g, d, pages[0]), c, pages[1..], first, x);
    }
  }

  lemma VictimsHead(g: Geo, d: Dev, c: nat, pages: seq<nat>)
    requires Base(g, d) && pages != [] && Victims(g, d, c, pages)
    ensures Victim(g, d, c, pages[0])
  {
  }

  lemma CollectSettles(g: Geo, d: Dev, c: nat, first: nat, x: nat)
    requires Base(g, d) && Agree(g, d) && c < g.N && Collectable(g, d, c)
    requires |LiveIn(g, d, c)| <= FreeSlots(g, d)
    requires LogLive(g, d, first) && x < g.N && (x != c ==> Settled(g, d, first, x))
    ensures var d' := Collect(g, d, c); Base(g, d') && LogLive(g, d', first) && Settled(g, d', first, x)
  {
    CollectKeeps(g, d, c);
    CollectableVictims(g, d, c);
    var live := LiveIn(g, d, c);
    var y := if x == c then d.curBlock else x;
    if live != [] {
      RelocateSettles(g, d, c, live, first, y);
    }
    EraseSettles(g, Relocate(g, d, live), c, first, x);
  }

  lemma EraseSettles(g: Geo, d: Dev, c: nat, first: nat, x: nat)
    requires Base(g, d) && c < g.N && Base(g, Erase(g, d, c))
    requires LogLive(g, d, first) && x < g.N && (x != c ==> Settled(g, d, first, x))
    ensures LogLive(g, Erase(g, d, c), first) && Settled(g, Erase(g, d, c), first, x)
  {
    var d' := Erase(g, d, c);
    assert d'.fwd == d.fwd && d'.rev == d.rev && d'.curBlock == d.curBlock && d'.curPage == d.curPage;
    LiveByMaps(g, d, d');
  }

  lemma LiveByMaps(g: Geo, d: Dev, d': Dev)
    requires Sizes(g, d) && Ranges(g, d) && Sizes(g, d') && Ranges(g, d')
    requires d'.fwd == d.fwd && d'.rev == d.rev
    ensures forall p :: 0 <= p < g.NumPages() ==> Live(g, d', p) == Live(g, d, p)
    ensures forall b: nat :: b < g.N ==> AllLive(g, d', b) == AllLive(g, d, b)
  {
    forall p | 0 <= p < g.NumPages()
      ensures Live(g, d', p) == Live(g, d, p)
    {
    }
    forall b: nat | b < g.N
      ensures AllLive(g, d', b) == AllLive(g, d, b)
    {
      BlockBounds(g, b);
    }
  }

  /** A block the collector skips is settled. */
  lemma SkippedIsSettled(g: Geo, d: Dev, first: nat, b: nat)
    requires Base(g, d) && b < g.N && !Collectable(g, d, b)
    ensures Settled(g, d, first, b)
  {
    BlockBounds(g, b);
    LiveInExactly(g, d, b);
    assert Shape(g, d, b);
    assert InBlock(g, b, g.First(b));
  }

  /** After a pass that did not reach the mark, every block is settled. */
  lemma {:induction false} GcSettles(g: Geo, d: Dev, start: nat, i: nat, low: int, first: nat, x: nat)
    requires Base(g, d) && Agree(g, d) && start < g.N && i <= g.N && FirstFits(g, d, start, i)
    requires LogLive(g, d, first) && x < g.N && (x < i ==> Settled(g, d, first, Rot(g, start, x)))
    ensures var r := GcPass(g, d, start, i, low); Ones(r.d.used) <= low || Settled(g, r.d, first, Rot(g, start, x))
    decreases g.N - i
  {
    if i < g.N {
      var b := Rot(g, start, i);
      if Collectable(g, d, b) {
        GcSettlesStep(g, d, start, i, low, first, x);
        var d' := Collect(g, d, b);
        if Ones(d'.used) > low {
          GcSettles(g, d', start, i + 1, low, first, x);
        }
      } else {
        SkippedIsSettled(g, d, first, b);
        GcSettles(g, d, start, i + 1, low, first, x);
      }
    }
  }

  lemma GcSettlesStep(g: Geo, d: Dev, start: nat, i: nat, low: int, first: nat, x: nat)
    requires Base(g, d) && Agree(g, d) && start < g.N && i < g.N && Collectable(g, d, Rot(g, start, i))
    requires FirstFits(g, d, start, i)
    requires LogLive(g, d, first) && x < g.N && (x < i ==> Settled(g, d, first, Rot(g, start, x)))
    ensures var d' := Collect(g, d, Rot(g, start, i));
            && Base(g, d') && Agree(g, d') && FirstFits(g, d', start, i + 1)
            && LogLive(g, d', first) && (x <= i ==> Settled(g, d', first, Rot(g, start, x)))
  {
    var b := Rot(g, start, i);
    GcKeepsStep(g, d, start, i);
    CollectSettles(g, d, b, first, if x < i then Rot(g, start, x) else b);
  }

  // ---------- Counting ----------

  /** Logical pages mapped below physical page `m`. */
  ghost function MappedBelow(g: Geo, d: Dev, m: int): (r: set<nat>)
    requires Sizes(g, d)
  {
    set a: nat | a < g.L && 0 <= d.fwd[a] < m
  }

  /** A stretch of live pages holds that many logical pages. */
  lemma {:induction false} LiveStretch(g: Geo, d: Dev, m: nat, n: nat)
    requires Sizes(g, d) && Ranges(g, d) && m + n <= g.NumPages()
    requires forall p :: m <= p < m + n ==> Live(g, d, p)
    ensures |MappedBelow(g, d, m + n)| >= |MappedBelow(g, d, m)| + n
  {
    if n > 0 {
      LiveStretch(g, d, m, n - 1);
      var a := d.rev[m + n - 1];
      assert Live(g, d, m + n - 1);
      MappedGrows(g, d, m + n - 1, a);
    }
  }

  lemma MappedGrows(g: Geo, d: Dev, m: nat, a: nat)
    requires Sizes(g, d) && a < g.L && d.fwd[a] == m
    ensures |MappedBelow(g, d, m + 1)| >= |MappedBelow(g, d, m)| + 1
  {
    SubsetSize(MappedBelow(g, d, m) + {a}, MappedBelow(g, d, m + 1));
  }

  /** A settled block in use is full of mapped pages, or current, or the first to take the others' pages. */
  lemma BlockIsPaid(g: Geo, d: Dev, first: nat, b: nat)
    requires Base(g, d) && b < g.N && Settled(g, d, first, b)
    ensures 0 <= g.First(b) && g.First(b + 1) == g.First(b) + g.P <= g.NumPages()
    ensures d.used[b] == 0 || d.used[b] == 1
    ensures d.used[b] * g.P + |MappedBelow(g, d, g.First(b))|
         <= |MappedBelow(g, d, g.First(b + 1))| + (if first == b then g.P else 0) + (if d.curBlock == b then g.P else 0)
  {
    BlockBounds(g, b);
    SubsetSize(MappedBelow(g, d, g.First(b)), MappedBelow(g, d, g.First(b + 1)));
    BaseBits(g, d);
    if d.used[b] == 1 && AllLive(g, d, b) {
      LiveStretch(g, d, g.First(b), g.P);
    }
  }

  /** When every block is settled, the blocks in use are paid for by mapped pages, except at most two. */
  lemma {:induction false} UsedArePaid(g: Geo, d: Dev, first: nat, k: nat)
    requires Base(g, d) && k <= g.N
    requires forall b :: 0 <= b < g.N ==> Settled(g, d, first, b)
    ensures g.First(k) <= g.NumPages()
    ensures Ones(d.used[..k]) * g.P <= |MappedBelow(g, d, g.First(k))|
                                      + (if first < k then g.P else 0) + (if d.curBlock < k then g.P else 0)
  {
    if k > 0 {
      var b := k - 1;
      UsedArePaid(g, d, first, b);
      BlockBounds(g, b);
      assert d.used[..k] == d.used[..b] + [d.used[b]];
      SumAppend(d.used[..b], d.used[b], ID);
      BlockIsPaid(g, d, first, b);
      assert (Ones(d.used[..b]) + d.used[b]) * g.P == Ones(d.used[..b]) * g.P + d.used[b] * g.P;
    }
  }

  /**
   A pass that starts with a block to spare ends at the low-water mark, or with all but two of the
   blocks in use filled with mapped pages.
   */
  lemma GcMakesRoom(g: Geo, d: Dev, start: nat, low: int)
    requires Base(g, d) && Agree(g, d) && start < g.N && Ones(d.used) < g.N
    ensures var r := GcPass(g, d, start, 0, low);
            Ones(r.d.used) <= low || Ones(r.d.used) * g.P <= g.L + 2 * g.P
  {
    var d' := GcPass(g, d, start, 0, low).d;
    SpareBlockFits(g, d, start, 0);
    if Ones(d'.used) > low {
      forall b | 0 <= b < g.N
        ensures Settled(g, d', d.curBlock, b)
      {
        var x := RotHits(g, start, b);
        GcSettles(g, d, start, 0, low, d.curBlock, x);
      }
      UsedArePaid(g, d', d.curBlock, g.N);
      assert d'.used[..g.N] == d'.used;
      NatsBelow(g.L, MappedBelow(g, d', g.First(g.N)));
    }
  }
}
