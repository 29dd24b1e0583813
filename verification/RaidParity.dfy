/**
 What the plans of Raid.dfy do to the contents of the disks: the words read are enough to compute the
 new parity, and a whole write changes the blocks it names, nothing else, and leaves every row with
 parity equal to the exclusive or of its data.
 */
module RaidParity {
  import opened Arith
  import opened Raid

  /** The word at each disk and offset. */
  type Store = (nat, nat) -> Word

  /** New contents, block by block. */
  type Data = nat -> Word

  function Xor(f: nat -> Word, n: nat): Word {
    if n == 0 then 0 else Xor(f, n - 1) ^ f(n - 1)
  }

  lemma {:induction false} XorSame(f: nat -> Word, g: nat -> Word, n: nat)
    requires forall i :: 0 <= i < n ==> f(i) == g(i)
    ensures Xor(f, n) == Xor(g, n)
  {
    if n > 0 {
      XorSame(f, g, n - 1);
    }
  }

  lemma XorSwap(a: Word, b: Word, c: Word, d: Word)
    ensures (a ^ b) ^ (c ^ d) == (a ^ c) ^ (b ^ d)
  {
  }

  lemma XorBack(a: Word, b: Word)
    ensures a ^ (a ^ b) == b && a ^ 0 == a
  {
  }

  /** Old parity and the changes of the written chunks give the parity of the new row. */
  lemma {:induction false} XorDelta(f: nat -> Word, delta: nat -> Word, g: nat -> Word, n: nat)
    requires forall i :: 0 <= i < n ==> f(i) ^ delta(i) == g(i)
    ensures Xor(f, n) ^ Xor(delta, n) == Xor(g, n)
  {
    if n > 0 {
      XorDelta(f, delta, g, n - 1);
      XorSwap(Xor(f, n - 1), f(n - 1), Xor(delta, n - 1), delta(n - 1));
    } else {
      XorBack(0, 0);
    }
  }

  // ---------- Contents ----------

  function Block(r: Raid, s: Store, b: nat): Word
    requires r.Ok()
  {
    s(Bmap(r, b).0, Bmap(r, b).1)
  }

  /** A row of a stripe: the words of its data chunks, and its parity word. */
  function Cells(r: Raid, s: Store, stripe: nat, row: nat): nat -> Word
    requires r.Ok()
  {
    (i: nat) => Block(r, s, BlockAt(r, stripe, i, row))
  }

  function OffsetOf(r: Raid, stripe: nat, row: nat): (off: nat)
    requires r.Ok()
    ensures off == stripe * r.chunk + row
  {
    MulMono(0, stripe, r.chunk);
    stripe * r.chunk + row
  }

  function Parity(r: Raid, s: Store, stripe: nat, row: nat): Word
    requires r.Ok()
  {
    s(Pmap(r, stripe), OffsetOf(r, stripe, row))
  }

  predicate RowOk(r: Raid, s: Store, stripe: nat, row: nat)
    requires r.Ok()
  {
    Parity(r, s, stripe, row) == Xor(Cells(r, s, stripe, row), r.disks - 1)
  }

  /** Every row's parity is the exclusive or of its data. */
  ghost predicate Consistent(r: Raid, s: Store)
    requires r.Ok()
  {
    forall stripe: nat, row: nat :: row < r.chunk ==> RowOk(r, s, stripe, row)
  }

  // ---------- What the plan reads and writes ----------

  predicate In(b: nat, begin: nat, end: nat) {
    begin <= b < end
  }

  lemma BmapInjective(r: Raid, a: nat, b: nat)
    requires r.Ok() && Bmap(r, a) == Bmap(r, b)
    ensures a == b
  {
    BmapThenUnmap(r, a);
    BmapThenUnmap(r, b);
  }

  lemma {:induction false} ReadsBlock(r: Raid, begin: nat, end: nat, b: nat)
    requires r.Ok() && begin <= end
    ensures Read(Bmap(r, b).0, Bmap(r, b).1) in DataReads(r, begin, end) <==> In(b, begin, end)
    decreases end - begin
  {
    if begin < end {
      ReadsBlock(r, begin, end - 1, b);
      if Bmap(r, b) == Bmap(r, end - 1) {
        BmapInjective(r, b, end - 1);
      }
    }
  }

  lemma {:induction false} WritesBlock(r: Raid, begin: nat, end: nat, b: nat)
    requires r.Ok() && begin <= end
    ensures Write(Bmap(r, b).0, Bmap(r, b).1) in DataWrites(r, begin, end) <==> In(b, begin, end)
    decreases end - begin
  {
    if begin < end {
      WritesBlock(r, begin, end - 1, b);
      if Bmap(r, b) == Bmap(r, end - 1) {
        BmapInjective(r, b, end - 1);
      }
    }
  }

  lemma {:induction false} WritesNoParity(r: Raid, begin: nat, end: nat, off: nat)
    requires r.Ok() && begin <= end
    ensures Write(Pmap(r, off / r.chunk), off) !in DataWrites(r, begin, end)
    decreases end - begin
  {
    if begin < end {
      WritesNoParity(r, begin, end - 1, off);
      BmapThenUnmap(r, end - 1);
    }
  }

  predicate Hits(r: Raid, b: nat, begin: nat, end: nat, off: nat)
    requires r.Ok()
  {
    begin <= b < end && Bmap(r, b).1 == off
  }

  lemma {:induction false} OffsetsAre(r: Raid, begin: nat, end: nat, off: nat)
    requires r.Ok() && begin <= end
    ensures off in Offsets(r, begin, end) <==> exists b: nat :: Hits(r, b, begin, end, off)
    decreases end - begin
  {
    if begin < end {
      OffsetsAre(r, begin, end - 1, off);
      if b: nat :| Hits(r, b, begin, end, off) {
        if b < end - 1 {
          assert Hits(r, b, begin, end - 1, off);
        }
      }
      if off in Offsets(r, begin, end) {
        if off in Offsets(r, begin, end - 1) {
          var b: nat :| Hits(r, b, begin, end - 1, off);
          assert Hits(r, b, begin, end, off);
        } else {
          assert Hits(r, end - 1, begin, end, off);
        }
      }
    }
  }

  /** The parity of a row is written at most once. */
  lemma {:induction false} OffsetsDistinct(r: Raid, begin: nat, end: nat, j: nat, k: nat)
    requires r.Ok() && begin <= end && j < k < |Offsets(r, begin, end)|
    ensures Offsets(r, begin, end)[j] != Offsets(r, begin, end)[k]
    decreases end - begin
  {
    if k < |Offsets(r, begin, end - 1)| {
      OffsetsDistinct(r, begin, end - 1, j, k);
    } else {
      assert Offsets(r, begin, end)[j] in Offsets(r, begin, end - 1);
    }
  }

  lemma ParityReadsAre(p: nat, offs: seq<nat>, d: nat, off: nat)
    ensures Read(d, off) in ParityReads(p, offs) <==> d == p && off in offs
  {
    if Read(d, off) in ParityReads(p, offs) {
      var k :| 0 <= k < |offs| && ParityReads(p, offs)[k] == Read(d, off);
    }
    if off in offs {
      var k :| 0 <= k < |offs| && offs[k] == off;
      assert ParityReads(p, offs)[k] == Read(p, off);
    }
  }

  lemma ParityWritesAre(p: nat, offs: seq<nat>, d: nat, off: nat)
    ensures Write(d, off) in ParityWrites(p, offs) <==> d == p && off in offs
  {
    if Write(d, off) in ParityWrites(p, offs) {
      var k :| 0 <= k < |offs| && ParityWrites(p, offs)[k] == Write(d, off);
    }
    if off in offs {
      var k :| 0 <= k < |offs| && offs[k] == off;
      assert ParityWrites(p, offs)[k] == Write(p, off);
    }
  }

  // ---------- A piece ----------

  /** Row `row` of the piece's stripe has a block in the piece. */
  predicate Touched(r: Raid, p: Piece, row: nat)
    requires r.Ok()
  {
    exists i: nat :: i < r.disks - 1 && Written(r, p, row, i)
  }

  predicate Written(r: Raid, p: Piece, row: nat, i: nat)
    requires r.Ok()
  {
    In(BlockAt(r, p.stripe, i, row), p.begin, p.end)
  }

  /** The change a written chunk makes to the parity. */
  function Change(r: Raid, p: Piece, s: Store, data: Data, row: nat): nat -> Word
    requires r.Ok()
  {
    (i: nat) =>
      if Written(r, p, row, i) then Block(r, s, BlockAt(r, p.stripe, i, row)) ^ data(BlockAt(r, p.stripe, i, row))
      else 0
  }

  /** The row after the write. */
  function NewCells(r: Raid, p: Piece, s: Store, data: Data, row: nat): nat -> Word
    requires r.Ok()
  {
    (i: nat) =>
      if Written(r, p, row, i) then data(BlockAt(r, p.stripe, i, row)) else Block(r, s, BlockAt(r, p.stripe, i, row))
  }

  /** The parity word written: from old data and parity, or from the rest of the row. */
  function NewParity(r: Raid, p: Piece, s: Store, data: Data, row: nat): Word
    requires r.Ok() && p.begin <= p.end
  {
    if Subtractive(r, p) then Parity(r, s, p.stripe, row) ^ Xor(Change(r, p, s, data, row), r.disks - 1)
    else Xor(NewCells(r, p, s, data, row), r.disks - 1)
  }

  lemma ChangedCell(r: Raid, p: Piece, s: Store, data: Data, row: nat, i: nat)
    requires r.Ok()
    ensures Cells(r, s, p.stripe, row)(i) ^ Change(r, p, s, data, row)(i) == NewCells(r, p, s, data, row)(i)
  {
    XorBack(Block(r, s, BlockAt(r, p.stripe, i, row)), data(BlockAt(r, p.stripe, i, row)));
  }

  /** Both ways give the parity of the new row. */
  lemma NewParityIsRight(r: Raid, p: Piece, s: Store, data: Data, row: nat)
    requires r.Ok() && InStripe(r, p) && row < r.chunk && RowOk(r, s, p.stripe, row)
    ensures NewParity(r, p, s, data, row) == Xor(NewCells(r, p, s, data, row), r.disks - 1)
  {
    if Subtractive(r, p) {
      var f, delta, g := Cells(r, s, p.stripe, row), Change(r, p, s, data, row), NewCells(r, p, s, data, row);
      forall i: nat | i < r.disks - 1
        ensures f(i) ^ delta(i) == g(i)
      {
        ChangedCell(r, p, s, data, row, i);
      }
      XorDelta(f, delta, g, r.disks - 1);
    }
  }

  /** Two stores hold the same words at the places read. */
  ghost predicate AgreeOn(ios: seq<IO>, s: Store, t: Store) {
    forall d: nat, off: nat :: Read(d, off) in ios ==> s(d, off) == t(d, off)
  }

  lemma RowOfPiece(r: Raid, p: Piece, i: nat, row: nat)
    requires r.Ok() && InStripe(r, p) && i < r.disks - 1 && row < r.chunk
    ensures var b, first := BlockAt(r, p.stripe, i, row), Times(p.stripe, r.blocksInStripe);
            && first <= b < first + r.blocksInStripe
            && Bmap(r, b) == (DataDisk(r, p.stripe, i), OffsetOf(r, p.stripe, row))
  {
    BlockParts(r, p.stripe, i, row);
    StripeBounds(r, p.stripe, i, row);
    TimesIs(p.stripe, r.blocksInStripe);
  }

  /** The words the piece reads are all that the new parity depends on. */
  lemma ReadsSuffice(r: Raid, p: Piece, s: Store, t: Store, data: Data, row: nat)
    requires r.Ok() && InStripe(r, p) && row < r.chunk && Touched(r, p, row)
    requires AgreeOn(PlanReads(r, p), s, t)
    ensures NewParity(r, p, s, data, row) == NewParity(r, p, t, data, row)
  {
    var n := r.disks - 1;
    if Subtractive(r, p) {
      ParityIsRead(r, p, row);
      forall i: nat | i < n
        ensures Change(r, p, s, data, row)(i) == Change(r, p, t, data, row)(i)
      {
        SameChange(r, p, s, t, data, row, i);
      }
      XorSame(Change(r, p, s, data, row), Change(r, p, t, data, row), n);
    } else {
      forall i: nat | i < n
        ensures NewCells(r, p, s, data, row)(i) == NewCells(r, p, t, data, row)(i)
      {
        SameCell(r, p, s, t, data, row, i);
      }
      XorSame(NewCells(r, p, s, data, row), NewCells(r, p, t, data, row), n);
    }
  }

  lemma SameBlock(r: Raid, ios: seq<IO>, s: Store, t: Store, b: nat)
    requires r.Ok() && AgreeOn(ios, s, t) && Read(Bmap(r, b).0, Bmap(r, b).1) in ios
    ensures Block(r, s, b) == Block(r, t, b)
  {
  }

  lemma SameChange(r: Raid, p: Piece, s: Store, t: Store, data: Data, row: nat, i: nat)
    requires r.Ok() && InStripe(r, p) && row < r.chunk && i < r.disks - 1 && Subtractive(r, p)
    requires AgreeOn(PlanReads(r, p), s, t)
    ensures Change(r, p, s, data, row)(i) == Change(r, p, t, data, row)(i)
  {
    if Written(r, p, row, i) {
      OldIsRead(r, p, i, row);
      SameBlock(r, PlanReads(r, p), s, t, BlockAt(r, p.stripe, i, row));
    }
  }

  lemma SameCell(r: Raid, p: Piece, s: Store, t: Store, data: Data, row: nat, i: nat)
    requires r.Ok() && InStripe(r, p) && row < r.chunk && i < r.disks - 1 && !Subtractive(r, p)
    requires AgreeOn(PlanReads(r, p), s, t)
    ensures NewCells(r, p, s, data, row)(i) == NewCells(r, p, t, data, row)(i)
  {
    if !Written(r, p, row, i) {
      RestIsRead(r, p, i, row);
      SameBlock(r, PlanReads(r, p), s, t, BlockAt(r, p.stripe, i, row));
    }
  }

  lemma OldIsRead(r: Raid, p: Piece, i: nat, row: nat)
    requires r.Ok() && InStripe(r, p) && i < r.disks - 1 && Subtractive(r, p) && Written(r, p, row, i)
    ensures var (d, off) := Bmap(r, BlockAt(r, p.stripe, i, row)); Read(d, off) in PlanReads(r, p)
  {
    ReadsBlock(r, p.begin, p.end, BlockAt(r, p.stripe, i, row));
  }

  lemma RestIsRead(r: Raid, p: Piece, i: nat, row: nat)
    requires r.Ok() && InStripe(r, p) && i < r.disks - 1 && row < r.chunk && !Subtractive(r, p)
             && !Written(r, p, row, i)
    ensures var (d, off) := Bmap(r, BlockAt(r, p.stripe, i, row)); Read(d, off) in PlanReads(r, p)
  {
    var b, first := BlockAt(r, p.stripe, i, row), Times(p.stripe, r.blocksInStripe);
    RowOfPiece(r, p, i, row);
    if b < p.begin {
      ReadsBlock(r, first, p.begin, b);
    } else {
      ReadsBlock(r, p.end, first + r.blocksInStripe, b);
    }
  }

  lemma ParityIsRead(r: Raid, p: Piece, row: nat)
    requires r.Ok() && InStripe(r, p) && row < r.chunk && Subtractive(r, p) && Touched(r, p, row)
    ensures Read(Pmap(r, p.stripe), OffsetOf(r, p.stripe, row)) in PlanReads(r, p)
  {
    TouchedOffset(r, p, row);
    ParityReadsAre(Pmap(r, p.stripe), Offsets(r, p.begin, p.end), Pmap(r, p.stripe), OffsetOf(r, p.stripe, row));
  }

  lemma TouchedOffset(r: Raid, p: Piece, row: nat)
    requires r.Ok() && InStripe(r, p) && row < r.chunk
    ensures Touched(r, p, row) <==> OffsetOf(r, p.stripe, row) in Offsets(r, p.begin, p.end)
  {
    var off := OffsetOf(r, p.stripe, row);
    OffsetsAre(r, p.begin, p.end, off);
    if i: nat :| i < r.disks - 1 && Written(r, p, row, i) {
      RowOfPiece(r, p, i, row);
      assert Hits(r, BlockAt(r, p.stripe, i, row), p.begin, p.end, off);
    }
    if b: nat :| Hits(r, b, p.begin, p.end, off) {
      var i := HitIsRow(r, p, b, row);
      assert Written(r, p, row, i);
    }
  }

  /** A block of the piece at the row's offset belongs to the row. */
  lemma HitIsRow(r: Raid, p: Piece, b: nat, row: nat) returns (i: nat)
    requires r.Ok() && InStripe(r, p) && row < r.chunk && Hits(r, b, p.begin, p.end, OffsetOf(r, p.stripe, row))
    ensures i < r.disks - 1 && b == BlockAt(r, p.stripe, i, row)
  {
    var stripe, row2;
    stripe, i, row2 := BlockSplit(r, b);
    BlockParts(r, stripe, i, row2);
    OffsetParts(r, p.stripe, row);
    OffsetParts(r, stripe, row2);
  }

  /** The blocks of a piece are in its stripe. */
  lemma PieceStripe(r: Raid, p: Piece, b: nat)
    requires r.Ok() && InStripe(r, p) && In(b, p.begin, p.end)
    ensures r.blocksInStripe > 0 && b / r.blocksInStripe == p.stripe && Bmap(r, b).1 / r.chunk == p.stripe
  {
    StripeNotEmpty(r);
    TimesIs(p.stripe, r.blocksInStripe);
    DivModUnique(b, p.stripe, r.blocksInStripe, b - p.stripe * r.blocksInStripe);
    ParityOfStripe(r, b);
  }

  // ---------- The store after a piece ----------

  /** The disks after the piece's writes: a data place gets its new word, a parity place the new parity. */
  function After(r: Raid, p: Piece, s: Store, data: Data): Store
    requires r.Ok() && InStripe(r, p)
  {
    (d: nat, off: nat) =>
      if Write(d, off) !in PlanWrites(r, p) then s(d, off)
      else if d == Pmap(r, p.stripe) then NewParity(r, p, s, data, off % r.chunk)
      else if d < r.disks then data(Unmap(r, d, off))
      else s(d, off)
  }

  lemma AfterBlock(r: Raid, p: Piece, s: Store, data: Data, b: nat)
    requires r.Ok() && InStripe(r, p)
    ensures Block(r, After(r, p, s, data), b) == if In(b, p.begin, p.end) then data(b) else Block(r, s, b)
  {
    var (d, off) := Bmap(r, b);
    BmapThenUnmap(r, b);
    WritesBlock(r, p.begin, p.end, b);
    ParityWritesAre(Pmap(r, p.stripe), Offsets(r, p.begin, p.end), d, off);
    OffsetsAre(r, p.begin, p.end, off);
    if a: nat :| Hits(r, a, p.begin, p.end, off) {
      PieceStripe(r, p, a);
    }
    if In(b, p.begin, p.end) {
      PieceStripe(r, p, b);
    }
  }

  /** The parity places the piece writes. */
  lemma ParityPlaces(r: Raid, p: Piece, stripe: nat, row: nat)
    requires r.Ok() && InStripe(r, p) && row < r.chunk
    ensures Write(Pmap(r, stripe), OffsetOf(r, stripe, row)) in PlanWrites(r, p)
       <==> stripe == p.stripe && Touched(r, p, row)
  {
    var d, off := Pmap(r, stripe), OffsetOf(r, stripe, row);
    OffsetParts(r, stripe, row);
    WritesNoParity(r, p.begin, p.end, off);
    ParityWritesAre(Pmap(r, p.stripe), Offsets(r, p.begin, p.end), d, off);
    if stripe == p.stripe {
      TouchedOffset(r, p, row);
    } else if off in Offsets(r, p.begin, p.end) {
      OffsetsAre(r, p.begin, p.end, off);
      var b: nat :| Hits(r, b, p.begin, p.end, off);
      PieceStripe(r, p, b);
    }
  }

  lemma AfterParity(r: Raid, p: Piece, s: Store, data: Data, stripe: nat, row: nat)
    requires r.Ok() && InStripe(r, p) && row < r.chunk
    ensures Parity(r, After(r, p, s, data), stripe, row) ==
            if stripe == p.stripe && Touched(r, p, row) then NewParity(r, p, s, data, row)
            else Parity(r, s, stripe, row)
  {
    ParityPlaces(r, p, stripe, row);
    OffsetParts(r, stripe, row);
  }

  lemma AfterRow(r: Raid, p: Piece, s: Store, data: Data, stripe: nat, row: nat)
    requires r.Ok() && InStripe(r, p) && row < r.chunk && RowOk(r, s, stripe, row)
    ensures RowOk(r, After(r, p, s, data), stripe, row)
  {
    var t, n := After(r, p, s, data), r.disks - 1;
    AfterParity(r, p, s, data, stripe, row);
    if stripe == p.stripe && Touched(r, p, row) {
      NewParityIsRight(r, p, s, data, row);
      forall i: nat | i < n
        ensures Cells(r, t, stripe, row)(i) == NewCells(r, p, s, data, row)(i)
      {
        AfterBlock(r, p, s, data, BlockAt(r, stripe, i, row));
      }
      XorSame(Cells(r, t, stripe, row), NewCells(r, p, s, data, row), n);
    } else {
      forall i: nat | i < n
        ensures Cells(r, t, stripe, row)(i) == Cells(r, s, stripe, row)(i)
      {
        Untouched(r, p, stripe, row, i);
        AfterBlock(r, p, s, data, BlockAt(r, stripe, i, row));
      }
      XorSame(Cells(r, t, stripe, row), Cells(r, s, stripe, row), n);
    }
  }

  lemma Untouched(r: Raid, p: Piece, stripe: nat, row: nat, i: nat)
    requires r.Ok() && InStripe(r, p) && row < r.chunk && i < r.disks - 1
    requires stripe != p.stripe || !Touched(r, p, row)
    ensures !In(BlockAt(r, stripe, i, row), p.begin, p.end)
  {
    var b := BlockAt(r, stripe, i, row);
    if In(b, p.begin, p.end) {
      PieceStripe(r, p, b);
      BlockParts(r, stripe, i, row);
      OffsetParts(r, stripe, row);
      assert Written(r, p, row, i);
    }
  }

  /** A piece keeps every row's parity right. */
  lemma PieceKeepsParity(r: Raid, p: Piece, s: Store, data: Data)
    requires r.Ok() && InStripe(r, p) && Consistent(r, s)
    ensures Consistent(r, After(r, p, s, data))
  {
    forall stripe: nat, row: nat | row < r.chunk
      ensures RowOk(r, After(r, p, s, data), stripe, row)
    {
      assert RowOk(r, s, stripe, row);
      AfterRow(r, p, s, data, stripe, row);
    }
  }

  // ---------- A whole write ----------

  function AfterAll(r: Raid, ps: seq<Piece>, s: Store, data: Data): Store
    requires r.Ok()
    decreases |ps|
  {
    if ps == [] || !InStripe(r, ps[0]) then s else AfterAll(r, ps[1..], After(r, ps[0], s, data), data)
  }

  lemma {:induction false} TilesKeepParity(r: Raid, ps: seq<Piece>, begin: nat, limit: nat, s: Store, data: Data)
    requires r.Ok() && Tiles(r, ps, begin, limit) && Consistent(r, s)
    ensures Consistent(r, AfterAll(r, ps, s, data))
    decreases |ps|
  {
    if ps != [] {
      PieceKeepsParity(r, ps[0], s, data);
      TilesKeepParity(r, ps[1..], ps[0].end, limit, After(r, ps[0], s, data), data);
    }
  }

  lemma {:induction false} TilesWriteData(r: Raid, ps: seq<Piece>, begin: nat, limit: nat, s: Store, data: Data, b: nat)
    requires r.Ok() && Tiles(r, ps, begin, limit)
    ensures Block(r, AfterAll(r, ps, s, data), b) == if In(b, begin, limit) then data(b) else Block(r, s, b)
    decreases |ps|
  {
    if ps != [] {
      AfterBlock(r, ps[0], s, data, b);
      TilesWriteData(r, ps[1..], ps[0].end, limit, After(r, ps[0], s, data), data, b);
      TilesStartAfter(r, ps[1..], ps[0].end, limit);
    }
  }

  /** The disks after a logical write. */
  function AfterWrite(r: Raid, addr: nat, size: nat, s: Store, data: Data): Store
    requires r.Ok() && size >= 1
  {
    AfterAll(r, RequestPieces(r, addr, size), s, data)
  }

  /** A logical write puts the new words in its blocks, changes no other block, and keeps the parity of every row. */
  lemma WriteIsRight(r: Raid, addr: nat, size: nat, s: Store, data: Data)
    requires r.Ok() && size >= 1 && Consistent(r, s)
    ensures Consistent(r, AfterWrite(r, addr, size, s, data))
    ensures forall b: nat :: Block(r, AfterWrite(r, addr, size, s, data), b)
                          == if addr <= b < addr + size then data(b) else Block(r, s, b)
  {
    var ps := RequestPieces(r, addr, size);
    TilesKeepParity(r, ps, addr, addr + size, s, data);
    forall b: nat
      ensures Block(r, AfterAll(r, ps, s, data), b) == if addr <= b < addr + size then data(b) else Block(r, s, b)
    {
      TilesWriteData(r, ps, addr, addr + size, s, data, b);
    }
  }

  function Without(f: nat -> Word, lost: nat): nat -> Word {
    (i: nat) => if i == lost then 0 else f(i)
  }

  function Only(f: nat -> Word, lost: nat): nat -> Word {
    (i: nat) => if i == lost then f(i) else 0
  }

  lemma XorLost(f: nat -> Word, lost: nat, n: nat)
    requires lost < n
    ensures Xor(f, n) ^ Xor(Without(f, lost), n) == f(lost)
  {
    forall i: nat | i < n
      ensures f(i) ^ Without(f, lost)(i) == Only(f, lost)(i)
    {
      XorBack(f(i), 0);
    }
    XorDelta(f, Without(f, lost), Only(f, lost), n);
    XorOnly(Only(f, lost), lost, n);
  }

  /** Right parity recovers any lost data word from the others of its row: what the parity is for. */
  lemma LostWordRecovered(r: Raid, s: Store, stripe: nat, row: nat, lost: nat)
    requires r.Ok() && row < r.chunk && lost < r.disks - 1 && RowOk(r, s, stripe, row)
    ensures Parity(r, s, stripe, row) ^ Xor(Without(Cells(r, s, stripe, row), lost), r.disks - 1)
         == Block(r, s, BlockAt(r, stripe, lost, row))
  {
    XorLost(Cells(r, s, stripe, row), lost, r.disks - 1);
  }

  lemma {:induction false} XorOnly(f: nat -> Word, k: nat, n: nat)
    requires forall i :: 0 <= i < n && i != k ==> f(i) == 0
    ensures Xor(f, n) == if k < n then f(k) else 0
  {
    if n > 0 {
      XorOnly(f, k, n - 1);
    }
  }
}
