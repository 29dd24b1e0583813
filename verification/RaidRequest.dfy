/**
 Whole requests of raid.py: which operations a read and a write issue, how many a piece reads, and what the disks hold
 after the operations of a write were performed one after the other.
 */
module RaidRequest {
  import opened Arith
  import opened Raid
  import opened RaidParity

  // ---------- The layouts ----------

  /** RAID 4 keeps parity on the last disk; in RAID 5 it starts there and moves one disk to the left each stripe. */
  lemma ParityMovesLeft(r: Raid, stripe: nat)
    requires r.Ok()
    ensures r.layout == RAID4 ==> Pmap(r, stripe) == r.disks - 1
    ensures Pmap(r, 0) == r.disks - 1
    ensures r.layout != RAID4 ==>
              Pmap(r, stripe + 1) == if Pmap(r, stripe) == 0 then r.disks - 1 else Pmap(r, stripe) - 1
  {
    NextRemainder(stripe, r.disks);
  }

  lemma NextRemainder(n: nat, d: nat)
    requires d > 0
    ensures (n + 1) % d == if n % d == d - 1 then 0 else n % d + 1
    ensures (n + 1) / d == if n % d == d - 1 then n / d + 1 else n / d
  {
    Euclid(n, d);
    if n % d == d - 1 {
      DivModUnique(n + 1, n / d + 1, d, 0);
    } else {
      DivModUnique(n + 1, n / d, d, n % d + 1);
    }
  }

  /** In RAID 4 and the asymmetric layout the data of a stripe lies on the disks from left to right. */
  lemma LeftToRight(r: Raid, stripe: nat, i: nat, j: nat)
    requires r.Ok() && r.layout != LS && i < j < r.disks - 1
    ensures DataDisk(r, stripe, i) < DataDisk(r, stripe, j)
  {
  }

  /** The next disk, from the last one back to the first. */
  function NextDisk(d: nat, n: nat): nat { if d + 1 == n then 0 else d + 1 }

  /** Within a stripe the next chunk is on the next disk. */
  lemma NextInStripe(i: nat, col: nat, n: nat)
    requires i + 2 < n && col < n
    ensures (i + 1 - col) % n == NextDisk((i - col) % n, n)
  {
    ModSmall(i - col, n);
    ModSmall(i + 1 - col, n);
  }

  /** So is the first chunk of the next stripe. */
  lemma NextStripe(col: nat, n: nat)
    requires 2 <= n && col < n
    ensures (0 - NextDisk(col, n)) % n == NextDisk((n - 2 - col) % n, n)
  {
    ModSmall(n - 2 - col, n);
    ModSmall(0 - NextDisk(col, n), n);
  }

  /** In the symmetric layout each chunk lies on the disk after that of the chunk before, also from stripe to stripe. */
  lemma RoundAndRound(r: Raid, c: nat)
    requires r.Ok() && r.layout == LS
    ensures ChunkDisk(r, c + 1) == NextDisk(ChunkDisk(r, c), r.disks)
    ensures ChunkDisk(r, 0) == 0
  {
    var n := r.disks - 1;
    var i, stripe := c % n, c / n;
    NextRemainder(c, n);
    NextRemainder(stripe, r.disks);
    if i + 1 < n {
      NextInStripe(i, stripe % r.disks, r.disks);
    } else {
      NextStripe(stripe % r.disks, r.disks);
    }
    ModSmall(0, r.disks);
  }

  /** The disk of the c-th chunk of the array. */
  function ChunkDisk(r: Raid, c: nat): nat
    requires r.Ok()
  {
    DataDisk(r, c / (r.disks - 1), c % (r.disks - 1))
  }

  lemma {:induction false} RoundAfter(r: Raid, c: nat, k: nat)
    requires r.Ok() && r.layout == LS && k < r.disks
    ensures ChunkDisk(r, c + k)
         == if ChunkDisk(r, c) + k < r.disks then ChunkDisk(r, c) + k else ChunkDisk(r, c) + k - r.disks
  {
    if k > 0 {
      RoundAfter(r, c, k - 1);
      RoundAndRound(r, c + (k - 1));
    }
  }

  /** So it puts blocks on different disks when their chunks are fewer than r.disks apart. */
  lemma SpreadOut(r: Raid, a: nat, b: nat)
    requires r.Ok() && r.layout == LS && a / r.chunk < b / r.chunk < a / r.chunk + r.disks
    ensures Bmap(r, a).0 != Bmap(r, b).0
  {
    RoundAfter(r, a / r.chunk, b / r.chunk - a / r.chunk);
    assert Bmap(r, a).0 == ChunkDisk(r, a / r.chunk) && Bmap(r, b).0 == ChunkDisk(r, b / r.chunk);
  }

  // ---------- Reads ----------

  lemma {:induction false} ReadsInOrder(r: Raid, begin: nat, end: nat, k: nat)
    requires r.Ok() && begin <= end
    ensures |DataReads(r, begin, end)| == end - begin
    ensures k < end - begin ==> DataReads(r, begin, end)[k] == Read(Bmap(r, begin + k).0, Bmap(r, begin + k).1)
    decreases end - begin
  {
    if begin < end {
      ReadsInOrder(r, begin, end - 1, k);
    }
  }

  /** A read request issues one read for each of its blocks, in order, at the place that holds the block. */
  lemma ReadRequestIs(r: Raid, addr: nat, size: nat, k: nat)
    requires r.Ok() && size >= 1 && k < size
    ensures |Request(r, addr, size, false)| == size
    ensures var io := Request(r, addr, size, false)[k];
            && io.Read? && io.disk < r.disks && io.disk != Pmap(r, io.off / r.chunk)
            && Unmap(r, io.disk, io.off) == addr + k
  {
    ReadsInOrder(r, addr, addr + size, k);
    BmapThenUnmap(r, addr + k);
  }

  // ---------- The places a write writes ----------

  /** The place of a block of the range. */
  predicate DataPlace(r: Raid, begin: nat, limit: nat, d: nat, off: nat)
    requires r.Ok()
  {
    d < r.disks && d != Pmap(r, off / r.chunk) && In(Unmap(r, d, off), begin, limit)
  }

  ghost predicate HasHit(r: Raid, begin: nat, end: nat, off: nat)
    requires r.Ok()
  {
    exists b: nat :: Hits(r, b, begin, end, off)
  }

  /** The place of the parity of a row with a block of the range. */
  ghost predicate ParityPlace(r: Raid, begin: nat, limit: nat, d: nat, off: nat)
    requires r.Ok()
  {
    d == Pmap(r, off / r.chunk) && HasHit(r, begin, limit, off)
  }

  lemma {:induction false} DataWritesAre(r: Raid, begin: nat, end: nat, d: nat, off: nat)
    requires r.Ok() && begin <= end
    ensures Write(d, off) in DataWrites(r, begin, end) <==> DataPlace(r, begin, end, d, off)
    decreases end - begin
  {
    if begin < end {
      DataWritesAre(r, begin, end - 1, d, off);
      BmapThenUnmap(r, end - 1);
      if d < r.disks && d != Pmap(r, off / r.chunk) {
        UnmapThenBmap(r, d, off);
      }
    }
  }

  lemma {:induction false} NoWriteRead(r: Raid, begin: nat, end: nat, d: nat, off: nat)
    requires r.Ok() && begin <= end
    ensures Write(d, off) !in DataReads(r, begin, end)
    decreases end - begin
  {
    if begin < end {
      NoWriteRead(r, begin, end - 1, d, off);
    }
  }

  lemma PlanWritesAre(r: Raid, p: Piece, d: nat, off: nat)
    requires r.Ok() && InStripe(r, p)
    ensures Write(d, off) in Plan(r, p) <==>
              DataPlace(r, p.begin, p.end, d, off) || ParityPlace(r, p.begin, p.end, d, off)
  {
    var first := Times(p.stripe, r.blocksInStripe);
    NoWriteRead(r, p.begin, p.end, d, off);
    NoWriteRead(r, first, p.begin, d, off);
    NoWriteRead(r, p.end, first + r.blocksInStripe, d, off);
    assert Write(d, off) !in PlanReads(r, p);
    DataWritesAre(r, p.begin, p.end, d, off);
    ParityWritesAre(Pmap(r, p.stripe), Offsets(r, p.begin, p.end), d, off);
    OffsetsAre(r, p.begin, p.end, off);
    if b: nat :| Hits(r, b, p.begin, p.end, off) {
      PieceStripe(r, p, b);
    }
  }

  lemma {:induction false} TilesWrite(r: Raid, ps: seq<Piece>, begin: nat, limit: nat, d: nat, off: nat)
    requires r.Ok() && Tiles(r, ps, begin, limit)
    ensures Write(d, off) in PlanAll(r, ps) <==>
              DataPlace(r, begin, limit, d, off) || ParityPlace(r, begin, limit, d, off)
    decreases |ps|
  {
    if ps != [] {
      var end := ps[0].end;
      TilesWrite(r, ps[1..], end, limit, d, off);
      TilesStartAfter(r, ps[1..], end, limit);
      PlanWritesAre(r, ps[0], d, off);
      HitsSplit(r, begin, end, limit, off);
    }
  }

  lemma HitsSplit(r: Raid, begin: nat, mid: nat, limit: nat, off: nat)
    requires r.Ok() && begin <= mid <= limit
    ensures HasHit(r, begin, limit, off) <==> HasHit(r, begin, mid, off) || HasHit(r, mid, limit, off)
  {
    if b: nat :| Hits(r, b, begin, limit, off) {
      assert Hits(r, b, begin, mid, off) || Hits(r, b, mid, limit, off);
    }
    if b: nat :| Hits(r, b, begin, mid, off) {
      assert Hits(r, b, begin, limit, off);
    }
    if b: nat :| Hits(r, b, mid, limit, off) {
      assert Hits(r, b, begin, limit, off);
    }
  }

  /** A write request writes the places of its blocks and of the parity of their rows, and no other place. */
  lemma WriteRequestIs(r: Raid, addr: nat, size: nat, d: nat, off: nat)
    requires r.Ok() && size >= 1
    ensures Write(d, off) in Request(r, addr, size, true)
       <==> DataPlace(r, addr, addr + size, d, off) || ParityPlace(r, addr, addr + size, d, off)
  {
    TilesWrite(r, RequestPieces(r, addr, size), addr, addr + size, d, off);
  }

  // ---------- Performing the operations ----------

  /** The disks after a list of operations, each write putting the word meant for its place. */
  function Perform(ios: seq<IO>, s: Store, word: Store): Store {
    if ios == [] then s
    else
      var t, io := Perform(ios[..|ios| - 1], s, word), ios[|ios| - 1];
      if io.Read? then t
      else (d: nat, off: nat) => if d == io.disk && off == io.off then word(d, off) else t(d, off)
  }

  lemma {:induction false} PerformIs(ios: seq<IO>, s: Store, word: Store, d: nat, off: nat)
    ensures Perform(ios, s, word)(d, off) == if Write(d, off) in ios then word(d, off) else s(d, off)
  {
    if ios != [] {
      var n := |ios| - 1;
      PerformIs(ios[..n], s, word, d, off);
      assert ios == ios[..n] + [ios[n]];
    }
  }

  /** The row with the request's blocks replaced. */
  function Renewed(r: Raid, addr: nat, size: nat, s: Store, data: Data, stripe: nat, row: nat): nat -> Word
    requires r.Ok()
  {
    (i: nat) =>
      var b := BlockAt(r, stripe, i, row);
      if In(b, addr, addr + size) then data(b) else Block(r, s, b)
  }

  /** The word a write request means for a place: new data, or the exclusive or of the renewed row. */
  function Meant(r: Raid, addr: nat, size: nat, s: Store, data: Data): Store
    requires r.Ok()
  {
    (d: nat, off: nat) =>
      if d >= r.disks then 0
      else if d == Pmap(r, off / r.chunk) then
        Xor(Renewed(r, addr, size, s, data, off / r.chunk, off % r.chunk), r.disks - 1)
      else data(Unmap(r, d, off))
  }

  lemma PerformedBlock(r: Raid, addr: nat, size: nat, s: Store, data: Data, b: nat)
    requires r.Ok() && size >= 1
    ensures Block(r, Perform(Request(r, addr, size, true), s, Meant(r, addr, size, s, data)), b)
         == if In(b, addr, addr + size) then data(b) else Block(r, s, b)
  {
    var (d, off) := Bmap(r, b);
    BmapThenUnmap(r, b);
    PerformIs(Request(r, addr, size, true), s, Meant(r, addr, size, s, data), d, off);
    WriteRequestIs(r, addr, size, d, off);
  }

  /** A block of the request in a row is a block at the row's offset. */
  lemma RowIsHit(r: Raid, addr: nat, size: nat, stripe: nat, row: nat, i: nat)
    requires r.Ok() && row < r.chunk && i < r.disks - 1
    ensures In(BlockAt(r, stripe, i, row), addr, addr + size) ==> HasHit(r, addr, addr + size, OffsetOf(r, stripe, row))
  {
    var b, off := BlockAt(r, stripe, i, row), OffsetOf(r, stripe, row);
    BlockParts(r, stripe, i, row);
    assert In(b, addr, addr + size) == Hits(r, b, addr, addr + size, off);
  }

  /** The data of a row after the operations. */
  lemma PerformedCells(r: Raid, addr: nat, size: nat, s: Store, data: Data, stripe: nat, row: nat)
    requires r.Ok() && size >= 1
    ensures var t := Perform(Request(r, addr, size, true), s, Meant(r, addr, size, s, data));
            Xor(Cells(r, t, stripe, row), r.disks - 1) == Xor(Renewed(r, addr, size, s, data, stripe, row), r.disks - 1)
  {
    var t := Perform(Request(r, addr, size, true), s, Meant(r, addr, size, s, data));
    var renewed := Renewed(r, addr, size, s, data, stripe, row);
    forall i: nat | i < r.disks - 1
      ensures Cells(r, t, stripe, row)(i) == renewed(i)
    {
      PerformedBlock(r, addr, size, s, data, BlockAt(r, stripe, i, row));
    }
    XorSame(Cells(r, t, stripe, row), renewed, r.disks - 1);
  }

  lemma SameRow(r: Raid, addr: nat, size: nat, s: Store, data: Data, stripe: nat, row: nat)
    requires r.Ok() && row < r.chunk && !HasHit(r, addr, addr + size, OffsetOf(r, stripe, row))
    ensures Xor(Renewed(r, addr, size, s, data, stripe, row), r.disks - 1) == Xor(Cells(r, s, stripe, row), r.disks - 1)
  {
    var renewed := Renewed(r, addr, size, s, data, stripe, row);
    forall i: nat | i < r.disks - 1
      ensures renewed(i) == Cells(r, s, stripe, row)(i)
    {
      RowIsHit(r, addr, size, stripe, row, i);
    }
    XorSame(renewed, Cells(r, s, stripe, row), r.disks - 1);
  }

  /** The parity of a row after the operations. */
  lemma PerformedParity(r: Raid, addr: nat, size: nat, s: Store, data: Data, stripe: nat, row: nat)
    requires r.Ok() && size >= 1 && row < r.chunk
    ensures Parity(r, Perform(Request(r, addr, size, true), s, Meant(r, addr, size, s, data)), stripe, row)
         == if HasHit(r, addr, addr + size, OffsetOf(r, stripe, row)) then
              Xor(Renewed(r, addr, size, s, data, stripe, row), r.disks - 1)
            else Parity(r, s, stripe, row)
  {
    var d, off := Pmap(r, stripe), OffsetOf(r, stripe, row);
    OffsetParts(r, stripe, row);
    PerformIs(Request(r, addr, size, true), s, Meant(r, addr, size, s, data), d, off);
    WriteRequestIs(r, addr, size, d, off);
  }

  lemma PerformedRow(r: Raid, addr: nat, size: nat, s: Store, data: Data, stripe: nat, row: nat)
    requires r.Ok() && size >= 1 && row < r.chunk && RowOk(r, s, stripe, row)
    ensures RowOk(r, Perform(Request(r, addr, size, true), s, Meant(r, addr, size, s, data)), stripe, row)
  {
    PerformedParity(r, addr, size, s, data, stripe, row);
    PerformedCells(r, addr, size, s, data, stripe, row);
    if !HasHit(r, addr, addr + size, OffsetOf(r, stripe, row)) {
      SameRow(r, addr, size, s, data, stripe, row);
    }
  }

  /** The operations of a write request, performed one after the other, store its data, change no other block, and keep
      the parity of every row. */
  lemma PerformedIsRight(r: Raid, addr: nat, size: nat, s: Store, data: Data)
    requires r.Ok() && size >= 1 && Consistent(r, s)
    ensures var t := Perform(Request(r, addr, size, true), s, Meant(r, addr, size, s, data));
            && Consistent(r, t)
            && forall b: nat :: Block(r, t, b) == if addr <= b < addr + size then data(b) else Block(r, s, b)
  {
    var t := Perform(Request(r, addr, size, true), s, Meant(r, addr, size, s, data));
    forall stripe: nat, row: nat | row < r.chunk
      ensures RowOk(r, t, stripe, row)
    {
      assert RowOk(r, s, stripe, row);
      PerformedRow(r, addr, size, s, data, stripe, row);
    }
    forall b: nat
      ensures Block(r, t, b) == if addr <= b < addr + size then data(b) else Block(r, s, b)
    {
      PerformedBlock(r, addr, size, s, data, b);
    }
  }

  /** Stores with the same blocks and right parity are the same on the disks. */
  lemma SameStore(r: Raid, s: Store, t: Store, d: nat, off: nat)
    requires r.Ok() && Consistent(r, s) && Consistent(r, t) && d < r.disks
    requires forall b: nat :: Block(r, s, b) == Block(r, t, b)
    ensures s(d, off) == t(d, off)
  {
    var stripe, row := off / r.chunk, off % r.chunk;
    Euclid(off, r.chunk);
    if d == Pmap(r, stripe) {
      assert RowOk(r, s, stripe, row) && RowOk(r, t, stripe, row);
      XorSame(Cells(r, s, stripe, row), Cells(r, t, stripe, row), r.disks - 1);
    } else {
      UnmapThenBmap(r, d, off);
      assert Block(r, s, Unmap(r, d, off)) == Block(r, t, Unmap(r, d, off));
    }
  }

  /** The store that the pieces leave, each computing its parity from what it read, is the one the operations leave. */
  lemma PiecesPerform(r: Raid, addr: nat, size: nat, s: Store, data: Data, d: nat, off: nat)
    requires r.Ok() && size >= 1 && Consistent(r, s) && d < r.disks
    ensures AfterWrite(r, addr, size, s, data)(d, off)
         == Perform(Request(r, addr, size, true), s, Meant(r, addr, size, s, data))(d, off)
  {
    WriteIsRight(r, addr, size, s, data);
    PerformedIsRight(r, addr, size, s, data);
    SameStore(r, AfterWrite(r, addr, size, s, data),
              Perform(Request(r, addr, size, true), s, Meant(r, addr, size, s, data)), d, off);
  }

  // ---------- How much a piece reads ----------

  function Min(a: int, b: int): int { if a <= b then a else b }

  /** The offsets of a run of blocks in a stripe: as many as there are blocks, until the chunk's rows are used up. */
  lemma {:induction false} OffsetsCount(r: Raid, p: Piece, end: nat)
    requires r.Ok() && InStripe(r, p) && p.begin <= end <= p.end
    ensures |Offsets(r, p.begin, end)| == Min(end - p.begin, r.chunk)
    decreases end
  {
    if p.begin < end {
      OffsetsCount(r, p, end - 1);
      OffsetSeen(r, p, end - 1);
    }
  }

  lemma OffsetInPiece(r: Raid, p: Piece, b: nat)
    requires r.Ok() && InStripe(r, p) && In(b, p.begin, p.end)
    ensures Bmap(r, b).1 == p.stripe * r.chunk + b % r.chunk
  {
    PieceStripe(r, p, b);
    ParityOfStripe(r, b);
  }

  /** The offset of a block was seen before exactly when a whole chunk of blocks came before it. */
  lemma OffsetSeen(r: Raid, p: Piece, b: nat)
    requires r.Ok() && InStripe(r, p) && In(b, p.begin, p.end)
    ensures Bmap(r, b).1 in Offsets(r, p.begin, b) <==> b - p.begin >= r.chunk
  {
    OffsetsAre(r, p.begin, b, Bmap(r, b).1);
    if b - p.begin >= r.chunk {
      SeenBefore(r, p, b);
    } else {
      NotSeenBefore(r, p, b);
    }
  }

  lemma SeenBefore(r: Raid, p: Piece, b: nat)
    requires r.Ok() && InStripe(r, p) && In(b, p.begin, p.end) && b - p.begin >= r.chunk
    ensures Hits(r, b - r.chunk, p.begin, b, Bmap(r, b).1)
  {
    OffsetInPiece(r, p, b);
    OffsetInPiece(r, p, b - r.chunk);
    OneChunkBack(b, r.chunk);
  }

  lemma NotSeenBefore(r: Raid, p: Piece, b: nat)
    requires r.Ok() && InStripe(r, p) && In(b, p.begin, p.end) && b - p.begin < r.chunk
    ensures forall a: nat :: !Hits(r, a, p.begin, b, Bmap(r, b).1)
  {
    OffsetInPiece(r, p, b);
    forall a: nat | p.begin <= a < b
      ensures Bmap(r, a).1 != Bmap(r, b).1
    {
      OffsetInPiece(r, p, a);
      CloseApart(a, b, r.chunk);
    }
  }

  lemma OneChunkBack(b: nat, c: nat)
    requires 0 < c <= b
    ensures (b - c) % c == b % c
  {
    Euclid(b, c);
    DivModUnique(b - c, b / c - 1, c, b % c);
  }

  lemma CloseApart(a: nat, b: nat, c: nat)
    requires a < b < a + c
    ensures a % c != b % c
  {
    Euclid(a, c);
    if a % c == b % c {
      Euclid(b, c);
      assert (b / c - a / c) * c == b - a;
      if b / c > a / c {
        MulStep(0, b / c - a / c, c);
      } else {
        MulMono(0, a / c - b / c, c);
      }
    }
  }

  /** A piece of n blocks reads the old blocks and parities, or the rest of its stripe: with chunks of one block,
      whichever is less. */
  lemma PieceReads(r: Raid, p: Piece)
    requires r.Ok() && InStripe(r, p)
    ensures var n, rest := p.end - p.begin, r.blocksInStripe - (p.end - p.begin);
            && |PlanReads(r, p)| == (if n + 1 <= rest then n + Min(n, r.chunk) else rest)
            && (r.chunk == 1 ==> |PlanReads(r, p)| == Min(n + 1, rest))
            && |PlanWrites(r, p)| == n + Min(n, r.chunk)
  {
    RestCount(r, p);
    ReadsInOrder(r, p.begin, p.end, 0);
    OffsetsCount(r, p, p.end);
    WritesInOrder(r, p.begin, p.end);
  }

  lemma RestCount(r: Raid, p: Piece)
    requires r.Ok() && InStripe(r, p)
    ensures var first := Times(p.stripe, r.blocksInStripe);
            var rest := DataReads(r, first, p.begin) + DataReads(r, p.end, first + r.blocksInStripe);
            |rest| == r.blocksInStripe - (p.end - p.begin)
  {
    var first := Times(p.stripe, r.blocksInStripe);
    ReadsInOrder(r, first, p.begin, 0);
    ReadsInOrder(r, p.end, first + r.blocksInStripe, 0);
  }

  lemma {:induction false} WritesInOrder(r: Raid, begin: nat, end: nat)
    requires r.Ok() && begin <= end
    ensures |DataWrites(r, begin, end)| == end - begin
    decreases end - begin
  {
    if begin < end {
      WritesInOrder(r, begin, end - 1);
    }
  }
}
