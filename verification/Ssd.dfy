/**
 The flash translation layer of ssd.py.

 `Dev` is the device as a value; the class `Ssd` of module FlashDrive holds the same fields and
 changes them the way the source does. The lemmas about `Dev` are what its methods rely on.
 */
module FlashDevice {
  import opened Arith
  import opened Bitmaps
  import opened Sums
  import opened Collections

  type Data = char

  datatype PageState = INVALID | ERASED | VALID

  /** Logical pages, blocks and pages per block. */
  datatype Geo = Geo(L: nat, N: nat, P: nat) {
    predicate Ok() { N >= 1 && P >= 1 }

    function First(b: nat): nat { b * P }

    function NumPages(): nat { N * P }
  }

  /** `used` marks blocks in use, `fwd` and `rev` are the two maps, `fails` counts failed writes. */
  datatype Dev = Dev(state: seq<PageState>, data: seq<Data>, used: seq<int>,
                     fwd: seq<int>, rev: seq<int>, curPage: int, curBlock: nat, fails: nat)

  predicate InBlock(g: Geo, b: nat, p: int) {
    g.First(b) <= p < g.First(b) + g.P
  }

  lemma BlockBounds(g: Geo, b: nat)
    requires b < g.N
    ensures g.First(b) + g.P <= g.NumPages()
  {
    MulStep(b, g.N, g.P);
  }

  lemma BlocksApart(g: Geo, b: nat, c: nat, p: int)
    requires b != c && InBlock(g, b, p)
    ensures !InBlock(g, c, p)
  {
    if b < c {
      MulStep(b, c, g.P);
    } else {
      MulStep(c, b, g.P);
    }
  }

  // ---------- The invariant every run keeps ----------

  predicate Sizes(g: Geo, d: Dev) {
    && g.Ok()
    && |d.state| == |d.data| == |d.rev| == g.NumPages()
    && |d.used| == g.N
    && |d.fwd| == g.L
  }

  /** The first page of block `b` that is not programmed, when the block is in use. */
  function Fill(g: Geo, d: Dev, b: nat): int {
    if b == d.curBlock && d.curPage != -1 then d.curPage else g.First(b) + g.P
  }

  ghost predicate AllPages(g: Geo, d: Dev, b: nat, s: PageState)
    requires Sizes(g, d) && b < g.N
  {
    BlockBounds(g, b);
    forall p :: InBlock(g, b, p) ==> d.state[p] == s
  }

  ghost predicate Filled(g: Geo, d: Dev, b: nat)
    requires Sizes(g, d) && b < g.N
  {
    BlockBounds(g, b);
    forall p :: InBlock(g, b, p) ==> d.state[p] == if p < Fill(g, d, b) then VALID else ERASED
  }

  ghost predicate Unnamed(g: Geo, d: Dev, b: nat)
    requires Sizes(g, d) && b < g.N
  {
    BlockBounds(g, b);
    forall p :: InBlock(g, b, p) ==> d.rev[p] == -1
  }

  /** A block not in use is wholly untouched or wholly erased; one in use is programmed from the front. */
  ghost predicate Shape(g: Geo, d: Dev, b: nat)
    requires Sizes(g, d) && b < g.N
  {
    || (d.used[b] == 0 && ((AllPages(g, d, b, INVALID) && Unnamed(g, d, b)) || AllPages(g, d, b, ERASED)))
    || (d.used[b] == 1 && Filled(g, d, b))
  }

  predicate CursorOk(g: Geo, d: Dev)
    requires Sizes(g, d)
  {
    && d.curBlock < g.N
    && (d.curPage != -1 ==> InBlock(g, d.curBlock, d.curPage) && d.used[d.curBlock] == 1)
  }

  predicate Ranges(g: Geo, d: Dev)
    requires Sizes(g, d)
  {
    && (forall a :: 0 <= a < g.L ==> -1 <= d.fwd[a] < g.NumPages())
    && (forall p :: 0 <= p < g.NumPages() ==> -1 <= d.rev[p] < g.L)
  }

  ghost predicate Base(g: Geo, d: Dev) {
    && Sizes(g, d)
    && Ranges(g, d)
    && CursorOk(g, d)
    && forall b :: 0 <= b < g.N ==> Shape(g, d, b)
  }

  /** Forward and reverse map agree: a mapped logical page sits on a programmed page that names it. */
  predicate Agree(g: Geo, d: Dev)
    requires Sizes(g, d) && Ranges(g, d)
  {
    forall a :: 0 <= a < g.L && d.fwd[a] != -1 ==> d.state[d.fwd[a]] == VALID && d.rev[d.fwd[a]] == a
  }

  /** The device as its users see it: a map from logical page to data. */
  function View(g: Geo, d: Dev): map<int, Data>
    requires Sizes(g, d) && Ranges(g, d)
  {
    map a | 0 <= a < g.L && d.fwd[a] != -1 :: d.data[d.fwd[a]]
  }

  /** Pages that can still be programmed before a block has to be erased. */
  function FreeSlots(g: Geo, d: Dev): int {
    g.P * (g.N - Ones(d.used)) + if d.curPage == -1 then 0 else g.First(d.curBlock) + g.P - d.curPage
  }

  lemma BaseBits(g: Geo, d: Dev)
    requires Base(g, d)
    ensures Bits(d.used)
  {
    forall b | 0 <= b < g.N
      ensures d.used[b] == 0 || d.used[b] == 1
    {
      assert Shape(g, d, b);
    }
  }

  /** The device is full exactly when the cursor is spent and every block is in use. */
  lemma FullExactly(g: Geo, d: Dev)
    requires Base(g, d)
    ensures FreeSlots(g, d) >= 0
    ensures FreeSlots(g, d) == 0 <==> d.curPage == -1 && forall b :: 0 <= b < g.N ==> d.used[b] == 1
    ensures Ones(d.used) < g.N ==> FreeSlots(g, d) >= g.P
  {
    BaseBits(g, d);
    BitsCount(d.used);
    if Ones(d.used) < g.N {
      assert g.P * (g.N - Ones(d.used)) >= g.P by {
        MulAtLeast(g.P, g.N - Ones(d.used));
      }
    } else {
      assert g.P * (g.N - Ones(d.used)) == 0;
    }
  }

  lemma MulAtLeast(a: nat, b: int)
    requires b >= 1
    ensures a * b >= a
  {
    assert a * b == a * (b - 1) + a;
  }

  // ---------- Erase ----------

  function Erase(g: Geo, d: Dev, b: nat): Dev
    requires Sizes(g, d) && b < g.N
  {
    d.(state := seq(|d.state|, p requires 0 <= p < |d.state| => if InBlock(g, b, p) then ERASED else d.state[p]),
       data := seq(|d.data|, p requires 0 <= p < |d.data| => if InBlock(g, b, p) then ' ' else d.data[p]),
       used := d.used[b := 0])
  }

  lemma ShapeElsewhere(g: Geo, d: Dev, d': Dev, b: nat, c: nat)
    requires Sizes(g, d) && Sizes(g, d') && b < g.N && c < g.N && b != c
    requires Shape(g, d, c) && d'.used[c] == d.used[c]
    requires d.used[c] == 1 ==> Fill(g, d', c) == Fill(g, d, c)
    requires forall p :: 0 <= p < g.NumPages() && !InBlock(g, b, p) ==>
               d'.state[p] == d.state[p] && d'.rev[p] == d.rev[p]
    ensures Shape(g, d', c)
  {
    BlockBounds(g, c);
    forall p | InBlock(g, c, p)
      ensures d'.state[p] == d.state[p] && d'.rev[p] == d.rev[p]
    {
      BlocksApart(g, c, b, p);
    }
  }

  lemma EraseKeepsBase(g: Geo, d: Dev, b: nat)
    requires Base(g, d) && b < g.N && (b == d.curBlock ==> d.curPage == -1)
    ensures Base(g, Erase(g, d, b))
    ensures FreeSlots(g, Erase(g, d, b)) == FreeSlots(g, d) + g.P * d.used[b]
    ensures AllPages(g, Erase(g, d, b), b, ERASED)
  {
    var d' := Erase(g, d, b);
    BlockBounds(g, b);
    forall c | 0 <= c < g.N
      ensures Shape(g, d', c)
    {
      if c != b {
        assert Shape(g, d, c);
        ShapeElsewhere(g, d, d', b, c);
      }
    }
    SumUpdate(d.used, b, 0, ID);
    assert g.P * (g.N - Ones(d.used) + d.used[b]) == g.P * (g.N - Ones(d.used)) + g.P * d.used[b];
  }

  /** Erasing a block nothing is mapped to changes nothing a user can see. */
  lemma EraseUnmapped(g: Geo, d: Dev, b: nat)
    requires Sizes(g, d) && Ranges(g, d) && b < g.N
    requires forall a :: 0 <= a < g.L ==> !InBlock(g, b, d.fwd[a])
    ensures View(g, Erase(g, d, b)) == View(g, d)
    ensures Agree(g, d) ==> Agree(g, Erase(g, d, b))
  {
  }

  /** No logical page maps into a block that is not in use. */
  lemma UnusedIsUnmapped(g: Geo, d: Dev, b: nat)
    requires Base(g, d) && Agree(g, d) && b < g.N && d.used[b] == 0
    ensures forall a :: 0 <= a < g.L ==> !InBlock(g, b, d.fwd[a])
  {
    BlockBounds(g, b);
    assert Shape(g, d, b);
  }

  // ---------- Claiming a block for the log ----------

  function Claim(g: Geo, d: Dev, b: nat): Dev
    requires Sizes(g, d) && b < g.N
  {
    BlockBounds(g, b);
    var d' := if d.state[g.First(b)] == INVALID then Erase(g, d, b) else d;
    d'.(curBlock := b, curPage := g.First(b), used := d'.used[b := 1])
  }

  lemma ClaimKeepsBase(g: Geo, d: Dev, b: nat)
    requires Base(g, d) && d.curPage == -1 && b < g.N && d.used[b] == 0
    ensures Base(g, Claim(g, d, b))
    ensures FreeSlots(g, Claim(g, d, b)) == FreeSlots(g, d)
  {
    BlockBounds(g, b);
    assert Shape(g, d, b);
    assert InBlock(g, b, g.First(b));
    var e := if d.state[g.First(b)] == INVALID then Erase(g, d, b) else d;
    if d.state[g.First(b)] == INVALID {
      EraseKeepsBase(g, d, b);
    }
    assert Base(g, e) && AllPages(g, e, b, ERASED) && e.used == d.used;
    var d' := Claim(g, d, b);
    forall c | 0 <= c < g.N
      ensures Shape(g, d', c)
    {
      if c != b {
        assert Shape(g, e, c);
        ShapeElsewhere(g, e, d', b, c);
      }
    }
    SumUpdate(d.used, b, 1, ID);
    assert g.P * (g.N - Ones(d.used) - 1) == g.P * (g.N - Ones(d.used)) - g.P;
  }

  lemma ClaimIsInvisible(g: Geo, d: Dev, b: nat)
    requires Base(g, d) && Agree(g, d) && b < g.N && d.used[b] == 0
    ensures View(g, Claim(g, d, b)) == View(g, d)
    ensures Agree(g, Claim(g, d, b))
  {
    UnusedIsUnmapped(g, d, b);
    EraseUnmapped(g, d, b);
  }

  // ---------- Programming the page under the cursor ----------

  function Advance(g: Geo, page: int): int
    requires g.Ok()
  {
    if (page + 1) % g.P == 0 then -1 else page + 1
  }

  function Put(g: Geo, d: Dev, a: nat, x: Data): Dev
    requires Sizes(g, d) && a < g.L && 0 <= d.curPage < g.NumPages()
  {
    var q := d.curPage;
    d.(state := d.state[q := VALID], data := d.data[q := x], fwd := d.fwd[a := q], rev := d.rev[q := a],
       curPage := Advance(g, q))
  }

  lemma AdvanceExactly(g: Geo, b: nat, page: int)
    requires g.Ok() && InBlock(g, b, page)
    ensures Advance(g, page) == if page + 1 == g.First(b) + g.P then -1 else page + 1
  {
    var k := page + 1 - g.First(b);
    assert page + 1 == b * g.P + k;
    if k == g.P {
      assert page + 1 == (b + 1) * g.P;
      DivModUnique(page + 1, b + 1, g.P, 0);
    } else {
      DivModUnique(page + 1, b, g.P, k);
    }
  }

  lemma PutKeepsBase(g: Geo, d: Dev, a: nat, x: Data)
    requires Base(g, d) && d.curPage != -1 && a < g.L
    ensures 0 <= d.curPage < g.NumPages() && d.state[d.curPage] == ERASED
    ensures Base(g, Put(g, d, a, x))
    ensures FreeSlots(g, Put(g, d, a, x)) == FreeSlots(g, d) - 1
  {
    var b, q := d.curBlock, d.curPage;
    BlockBounds(g, b);
    assert Shape(g, d, b);
    var d' := Put(g, d, a, x);
    AdvanceExactly(g, b, q);
    forall c | 0 <= c < g.N
      ensures Shape(g, d', c)
    {
      assert Shape(g, d, c);
      if c != b {
        ShapeElsewhere(g, d, d', b, c);
      }
    }
  }

  lemma PutIsUpdate(g: Geo, d: Dev, a: nat, x: Data)
    requires Base(g, d) && Agree(g, d) && d.curPage != -1 && a < g.L
    requires 0 <= d.curPage < g.NumPages() && d.state[d.curPage] == ERASED
    requires Base(g, Put(g, d, a, x))
    ensures Agree(g, Put(g, d, a, x))
    ensures View(g, Put(g, d, a, x)) == View(g, d)[a := x]
  {
    var d' := Put(g, d, a, x);
    forall c | 0 <= c < g.L && c != a && d.fwd[c] != -1
      ensures d'.data[d'.fwd[c]] == d.data[d.fwd[c]] && d'.state[d'.fwd[c]] == VALID && d'.rev[d'.fwd[c]] == c
    {
      assert d.fwd[c] != d.curPage;
    }
  }

  // ---------- A logged write ----------

  /** Block number `k` in the scan order that starts at `start` and wraps around. */
  function Rot(g: Geo, start: nat, k: nat): (b: nat)
    requires start < g.N && k < g.N
    ensures b < g.N
  {
    if start + k < g.N then start + k else start + k - g.N
  }

  lemma RotHits(g: Geo, start: nat, b: nat) returns (k: nat)
    requires start < g.N && b < g.N
    ensures k < g.N && Rot(g, start, k) == b
  {
    k := if b >= start then b - start else b + g.N - start;
  }

  /** The first position at or after `k` in scan order whose block is free, or N. */
  function Scan(g: Geo, d: Dev, k: nat): (r: nat)
    requires d.curBlock < g.N && |d.used| == g.N && k <= g.N
    ensures k <= r <= g.N
    decreases g.N - k
  {
    if k == g.N || d.used[Rot(g, d.curBlock, k)] == 0 then k else Scan(g, d, k + 1)
  }

  lemma {:induction false} ScanFinds(g: Geo, d: Dev, k: nat)
    requires d.curBlock < g.N && |d.used| == g.N && k <= g.N
    ensures var r := Scan(g, d, k); r < g.N ==> d.used[Rot(g, d.curBlock, r)] == 0
    ensures forall j :: k <= j < Scan(g, d, k) ==> d.used[Rot(g, d.curBlock, j)] != 0
    decreases g.N - k
  {
    if k < g.N && d.used[Rot(g, d.curBlock, k)] != 0 {
      ScanFinds(g, d, k + 1);
    }
  }

  /** The scan comes up empty exactly when the device is full. */
  lemma ScanEmptyIffFull(g: Geo, d: Dev)
    requires Base(g, d) && d.curPage == -1
    ensures Scan(g, d, 0) == g.N <==> FreeSlots(g, d) == 0
  {
    FullExactly(g, d);
    BaseBits(g, d);
    ScanFinds(g, d, 0);
    if Scan(g, d, 0) == g.N {
      forall b | 0 <= b < g.N
        ensures d.used[b] == 1
      {
        var k := RotHits(g, d.curBlock, b);
      }
    }
  }

  /** The device with its cursor on a page that can be programmed. */
  function NextCursor(g: Geo, d: Dev): Dev
    requires Sizes(g, d) && d.curBlock < g.N
  {
    var k := Scan(g, d, 0);
    if d.curPage != -1 || k == g.N then d else Claim(g, d, Rot(g, d.curBlock, k))
  }

  lemma ClaimLeaves(g: Geo, d: Dev, b: nat)
    requires Base(g, d) && b < g.N && d.used[b] == 0
    ensures var e := Claim(g, d, b);
            && e.fwd == d.fwd && e.rev == d.rev && e.fails == d.fails && e.curBlock == b && e.curPage != -1
            && |e.used| == |d.used| && |e.state| == |d.state|
            && (forall c :: 0 <= c < g.N && c != b ==> e.used[c] == d.used[c])
            && (forall p :: 0 <= p < g.NumPages() && d.state[p] == VALID ==> e.state[p] == VALID)
  {
    UnusedNotValid(g, d, b);
    MulMono(0, b, g.P);
  }

  lemma NextCursorKeeps(g: Geo, d: Dev)
    requires Base(g, d)
    ensures var e := NextCursor(g, d);
            && Base(g, e) && FreeSlots(g, e) == FreeSlots(g, d)
            && (e.curPage == -1 <==> FreeSlots(g, d) == 0)
            && e.fwd == d.fwd && e.rev == d.rev && e.fails == d.fails
            && (FreeSlots(g, d) == 0 ==> e == d)
            && (Agree(g, d) ==> Agree(g, e) && View(g, e) == View(g, d))
            && (e.curBlock != d.curBlock ==> d.curPage == -1 && d.used[e.curBlock] == 0)
            && (forall b :: 0 <= b < g.N && b != e.curBlock ==> e.used[b] == d.used[b])
            && (forall p :: 0 <= p < g.NumPages() && d.state[p] == VALID ==> e.state[p] == VALID)
  {
    ScanFinds(g, d, 0);
    FullExactly(g, d);
    if d.curPage == -1 {
      ScanEmptyIffFull(g, d);
      if FreeSlots(g, d) > 0 {
        var b := Rot(g, d.curBlock, Scan(g, d, 0));
        ClaimKeepsBase(g, d, b);
        ClaimLeaves(g, d, b);
        if Agree(g, d) {
          ClaimIsInvisible(g, d, b);
        }
      }
    } else {
      assert g.P * (g.N - Ones(d.used)) >= 0 by { BaseBits(g, d); BitsCount(d.used); }
    }
  }

  lemma UnusedNotValid(g: Geo, d: Dev, b: nat)
    requires Base(g, d) && b < g.N && d.used[b] == 0
    ensures forall p :: InBlock(g, b, p) ==> 0 <= p < g.NumPages() && d.state[p] != VALID
  {
    BlockBounds(g, b);
    assert Shape(g, d, b);
  }

  /** A logged write of an in-range page: appended at the cursor, or refused when the device is full. */
  function LogWrite(g: Geo, d: Dev, a: nat, x: Data): Dev
    requires Base(g, d) && a < g.L
  {
    NextCursorKeeps(g, d);
    var e := NextCursor(g, d);
    if e.curPage == -1 then d.(fails := d.fails + 1)
    else
      BlockBounds(g, e.curBlock);
      Put(g, e, a, x)
  }

  /** The logged write succeeds exactly when there is a free slot, and then is a map update. */
  lemma LogWriteIsUpdate(g: Geo, d: Dev, a: nat, x: Data)
    requires Base(g, d) && a < g.L
    ensures var d' := LogWrite(g, d, a, x);
            && Base(g, d')
            && (FreeSlots(g, d) == 0 ==> d' == d.(fails := d.fails + 1))
            && (FreeSlots(g, d) > 0 ==> FreeSlots(g, d') == FreeSlots(g, d) - 1 && d'.fails == d.fails)
            && (FreeSlots(g, d) > 0 && Agree(g, d) ==> Agree(g, d') && View(g, d') == View(g, d)[a := x])
  {
    NextCursorKeeps(g, d);
    FullExactly(g, d);
    var e := NextCursor(g, d);
    if e.curPage != -1 {
      PutKeepsBase(g, e, a, x);
      if Agree(g, d) {
        PutIsUpdate(g, e, a, x);
      }
    } else {
      ShapesIgnoreFails(g, d);
    }
  }

  lemma ShapesIgnoreFails(g: Geo, d: Dev)
    requires Base(g, d)
    ensures Base(g, d.(fails := d.fails + 1))
  {
    var d' := d.(fails := d.fails + 1);
    forall c | 0 <= c < g.N
      ensures Shape(g, d', c)
    {
      assert Shape(g, d, c);
    }
  }

  // ---------- Live pages ----------

  /** A physical page is live when the two maps point at each other through it. */
  predicate Live(g: Geo, d: Dev, p: int)
    requires Sizes(g, d) && Ranges(g, d) && 0 <= p < g.NumPages()
  {
    d.rev[p] != -1 && d.fwd[d.rev[p]] == p
  }

  /** The live pages in [p, end), in order. */
  function LivePages(g: Geo, d: Dev, p: nat, end: nat): (r: seq<nat>)
    requires Sizes(g, d) && Ranges(g, d) && p <= end <= g.NumPages()
    ensures |r| <= end - p
    decreases end - p
  {
    if p == end then [] else (if Live(g, d, p) then [p] else []) + LivePages(g, d, p + 1, end)
  }

  lemma {:induction false} LivePagesAreLive(g: Geo, d: Dev, p: nat, end: nat)
    requires Sizes(g, d) && Ranges(g, d) && p <= end <= g.NumPages()
    ensures forall q :: q in LivePages(g, d, p, end) ==> p <= q < end && Live(g, d, q)
    decreases end - p
  {
    if p < end {
      LivePagesAreLive(g, d, p + 1, end);
    }
  }

  lemma PrependFresh(x: nat, s: seq<nat>)
    requires x !in s && Unique(s)
    ensures Unique([x] + s)
  {
  }

  lemma {:induction false} LivePagesDistinct(g: Geo, d: Dev, p: nat, end: nat)
    requires Sizes(g, d) && Ranges(g, d) && p <= end <= g.NumPages()
    ensures Unique(LivePages(g, d, p, end))
    decreases end - p
  {
    if p < end {
      LivePagesDistinct(g, d, p + 1, end);
      LivePagesAreLive(g, d, p + 1, end);
      PrependFresh(p, LivePages(g, d, p + 1, end));
    }
  }

  lemma {:induction false} LivePagesAreAll(g: Geo, d: Dev, p: nat, end: nat)
    requires Sizes(g, d) && Ranges(g, d) && p <= end <= g.NumPages()
    ensures forall q: nat :: p <= q < end && Live(g, d, q) ==> q in LivePages(g, d, p, end)
    ensures |LivePages(g, d, p, end)| == end - p <==> forall q :: p <= q < end ==> Live(g, d, q)
    ensures (forall q :: p <= q < end ==> !Live(g, d, q)) ==> LivePages(g, d, p, end) == []
    decreases end - p
  {
    if p < end {
      LivePagesAreAll(g, d, p + 1, end);
    }
  }

  /** A logged write makes its page live, the page that held the same logical page dead, and no other difference. */
  lemma LogWriteLiveness(g: Geo, d: Dev, a: nat, x: Data)
    requires Base(g, d) && a < g.L && FreeSlots(g, d) > 0
    ensures var d', q := LogWrite(g, d, a, x), NextCursor(g, d).curPage;
            && 0 <= q < g.NumPages()
            && d'.fwd == d.fwd[a := q] && d'.rev == d.rev[q := a]
            && Base(g, d')
            && d.state[q] != VALID
            && InBlock(g, d'.curBlock, q)
            && Live(g, d', q)
            && (forall p :: 0 <= p < g.NumPages() && p != q ==> (Live(g, d', p) <==> Live(g, d, p) && d.rev[p] != a))
  {
    NextCursorKeeps(g, d);
    FullExactly(g, d);
    LogWriteIsUpdate(g, d, a, x);
    var e := NextCursor(g, d);
    PutKeepsBase(g, e, a, x);
  }
}
