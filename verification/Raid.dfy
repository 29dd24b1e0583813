/**
 RAID 4 and RAID 5 of raid.py: the block maps, the split of a write into stripes, and the reads and
 writes each piece issues. Blocks are words; parity is their exclusive or.
 */
module Raid {
  import opened Arith

  type Word = bv8

  /** RAID 4, RAID 5 left-asymmetric, RAID 5 left-symmetric. */
  datatype Layout = RAID4 | LA | LS

  datatype Raid = Raid(layout: Layout, disks: nat, chunk: nat, blocksInStripe: nat) {
    predicate Ok() { disks >= 2 && chunk >= 1 && blocksInStripe == Times(disks - 1, chunk) }
  }

  // ---------- The block maps ----------

  /** The parity disk of a stripe. */
  function Pmap(r: Raid, stripe: nat): (p: nat)
    requires r.Ok()
    ensures p < r.disks
  {
    if r.layout == RAID4 then r.disks - 1 else (r.disks - 1) - stripe % r.disks
  }

  /** The disk of the i-th data chunk of a stripe. */
  function DataDisk(r: Raid, stripe: nat, i: nat): (d: nat)
    requires r.Ok() && i < r.disks - 1
    ensures d < r.disks
  {
    match r.layout
    case RAID4 => i
    case LA => if i >= Pmap(r, stripe) then i + 1 else i
    case LS => (i - stripe % r.disks) % r.disks
  }

  /** Where a logical block lives: disk and offset. */
  function Bmap(r: Raid, b: nat): (nat, nat)
    requires r.Ok()
  {
    var cnum, coff := b / r.chunk, b % r.chunk;
    var ddsk := cnum / (r.disks - 1);
    (DataDisk(r, ddsk, cnum % (r.disks - 1)), ddsk * r.chunk + coff)
  }

  /** The data chunk of a stripe that a disk holds. */
  function ChunkOn(r: Raid, stripe: nat, d: nat): nat
    requires r.Ok() && d < r.disks
  {
    match r.layout
    case RAID4 => d
    case LA => if d > Pmap(r, stripe) then d - 1 else d
    case LS => (d + stripe % r.disks) % r.disks
  }

  /** The block at a stripe, data chunk and row of the chunk. */
  function BlockAt(r: Raid, stripe: nat, i: nat, row: nat): (b: nat)
    requires r.Ok()
  {
    MulMono(0, stripe, r.disks - 1);
    MulMono(0, stripe * (r.disks - 1) + i, r.chunk);
    (stripe * (r.disks - 1) + i) * r.chunk + row
  }

  /** The logical block at a place. */
  function Unmap(r: Raid, d: nat, off: nat): nat
    requires r.Ok() && d < r.disks
  {
    BlockAt(r, off / r.chunk, ChunkOn(r, off / r.chunk, d), off % r.chunk)
  }

  lemma ModSmall(x: int, n: nat)
    requires -(n as int) <= x < 2 * n && n > 0
    ensures x % n == if x < 0 then x + n else if x < n then x else x - n
  {
    if x < 0 {
      DivModUnique(x, -1, n, x + n);
    } else if x < n {
      DivModUnique(x, 0, n, x);
    } else {
      DivModUnique(x, 1, n, x - n);
    }
  }

  /** Data chunks avoid the parity disk and each has a disk of its own. */
  lemma DataDiskInverse(r: Raid, stripe: nat, i: nat)
    requires r.Ok() && i < r.disks - 1
    ensures DataDisk(r, stripe, i) != Pmap(r, stripe)
    ensures ChunkOn(r, stripe, DataDisk(r, stripe, i)) == i
  {
    if r.layout == LS {
      var col := stripe % r.disks;
      ModSmall(i - col, r.disks);
      ModSmall(DataDisk(r, stripe, i) + col, r.disks);
    }
  }

  /** Every disk but the parity disk holds a data chunk. */
  lemma ChunkOnInverse(r: Raid, stripe: nat, d: nat)
    requires r.Ok() && d < r.disks && d != Pmap(r, stripe)
    ensures ChunkOn(r, stripe, d) < r.disks - 1
    ensures DataDisk(r, stripe, ChunkOn(r, stripe, d)) == d
  {
    if r.layout == LS {
      var col := stripe % r.disks;
      ModSmall(d + col, r.disks);
      ModSmall(ChunkOn(r, stripe, d) - col, r.disks);
    }
  }

  lemma BlockParts(r: Raid, stripe: nat, i: nat, row: nat)
    requires r.Ok() && i < r.disks - 1 && row < r.chunk
    ensures var b := BlockAt(r, stripe, i, row);
            && b / r.chunk == stripe * (r.disks - 1) + i && b % r.chunk == row
            && b / r.chunk / (r.disks - 1) == stripe && b / r.chunk % (r.disks - 1) == i
            && Bmap(r, b) == (DataDisk(r, stripe, i), stripe * r.chunk + row)
  {
    var c := stripe * (r.disks - 1) + i;
    DivModUnique(c * r.chunk + row, c, r.chunk, row);
    DivModUnique(c, stripe, r.disks - 1, i);
  }

  lemma BlockSplit(r: Raid, b: nat) returns (stripe: nat, i: nat, row: nat)
    requires r.Ok()
    ensures i < r.disks - 1 && row < r.chunk && b == BlockAt(r, stripe, i, row)
  {
    var c := b / r.chunk;
    stripe, i, row := c / (r.disks - 1), c % (r.disks - 1), b % r.chunk;
    Euclid(b, r.chunk);
    Euclid(c, r.disks - 1);
  }

  lemma OffsetParts(r: Raid, stripe: nat, row: nat)
    requires r.Ok() && row < r.chunk
    ensures (stripe * r.chunk + row) / r.chunk == stripe && (stripe * r.chunk + row) % r.chunk == row
  {
    DivModUnique(stripe * r.chunk + row, stripe, r.chunk, row);
  }

  /** Blocks go to places off the parity disk, and the place gives the block back. */
  lemma BmapThenUnmap(r: Raid, b: nat)
    requires r.Ok()
    ensures var (d, off) := Bmap(r, b); d < r.disks && d != Pmap(r, off / r.chunk) && Unmap(r, d, off) == b
  {
    var stripe, i, row := BlockSplit(r, b);
    BlockParts(r, stripe, i, row);
    OffsetParts(r, stripe, row);
    DataDiskInverse(r, stripe, i);
  }

  /** Every place off the parity disk holds a block: with the previous lemma the map is a bijection. */
  lemma UnmapThenBmap(r: Raid, d: nat, off: nat)
    requires r.Ok() && d < r.disks && d != Pmap(r, off / r.chunk)
    ensures Bmap(r, Unmap(r, d, off)) == (d, off)
  {
    var stripe, row := off / r.chunk, off % r.chunk;
    ChunkOnInverse(r, stripe, d);
    BlockParts(r, stripe, ChunkOn(r, stripe, d), row);
    Euclid(off, r.chunk);
  }

  lemma StripeBounds(r: Raid, stripe: nat, i: nat, row: nat)
    requires r.Ok() && i < r.disks - 1 && row < r.chunk
    ensures BlockAt(r, stripe, i, row) == stripe * r.blocksInStripe + i * r.chunk + row
    ensures 0 <= i * r.chunk + row < r.blocksInStripe
  {
    TimesIs(r.disks - 1, r.chunk);
    MulStep(i, r.disks - 1, r.chunk);
    MulMono(0, i, r.chunk);
    var n, c := r.disks - 1, r.chunk;
    assert (stripe * n + i) * c == stripe * n * c + i * c;
    assert stripe * n * c == stripe * (n * c);
  }

  /** pmap5 asks for the parity disk of the stripe's first block: it is the parity disk of every block of it. */
  lemma ParityOfStripe(r: Raid, b: nat)
    requires r.Ok()
    ensures r.blocksInStripe > 0
    ensures b / r.blocksInStripe == b / r.chunk / (r.disks - 1)
    ensures Bmap(r, b).1 / r.chunk == b / r.blocksInStripe
  {
    var stripe, i, row := BlockSplit(r, b);
    BlockParts(r, stripe, i, row);
    OffsetParts(r, stripe, row);
    StripeBounds(r, stripe, i, row);
    DivModUnique(b, stripe, r.blocksInStripe, i * r.chunk + row);
  }

  // ---------- Splitting a write into stripes ----------

  datatype Piece = Piece(stripe: nat, begin: nat, end: nat)

  predicate InStripe(r: Raid, p: Piece)
    requires r.Ok()
  {
    Times(p.stripe, r.blocksInStripe) <= p.begin < p.end <= Times(p.stripe, r.blocksInStripe) + r.blocksInStripe
  }

  /** The end of the piece of [begin, limit) that lies in a stripe, as the loop computes it. */
  function PieceEnd(bis: nat, stripe: nat, begin: nat, limit: nat): nat
    requires begin <= limit
  {
    var left := limit - begin;
    var end := if left >= bis then begin + bis else begin + left;
    var endOfStripe := Times(stripe, bis) + bis;
    if end >= endOfStripe then endOfStripe else end
  }

  /** The range begins in this stripe, or is empty. */
  predicate StartsIn(bis: nat, stripe: nat, begin: nat, limit: nat) {
    begin <= limit && (begin < limit ==> Times(stripe, bis) <= begin < Times(stripe, bis) + bis)
  }

  lemma PieceEndIs(bis: nat, stripe: nat, begin: nat, limit: nat)
    requires StartsIn(bis, stripe, begin, limit) && begin < limit
    ensures var end := PieceEnd(bis, stripe, begin, limit);
            begin < end <= limit && end <= Times(stripe, bis) + bis && StartsIn(bis, stripe + 1, end, limit)
  {
  }

  /** The pieces of [begin, limit), one a stripe, the first in `stripe`. */
  function Pieces(bis: nat, stripe: nat, begin: nat, limit: nat): seq<Piece>
    requires StartsIn(bis, stripe, begin, limit)
    decreases limit - begin
  {
    if begin == limit then []
    else
      PieceEndIs(bis, stripe, begin, limit);
      var end := PieceEnd(bis, stripe, begin, limit);
      [Piece(stripe, begin, end)] + Pieces(bis, stripe + 1, end, limit)
  }

  /** Every range begins in the stripe its first block number gives. */
  lemma FirstStripe(bis: nat, begin: nat, limit: nat)
    requires bis > 0 && begin <= limit
    ensures StartsIn(bis, begin / bis, begin, limit)
  {
    Euclid(begin, bis);
    TimesIs(begin / bis, bis);
  }

  /** The loop runs to the stripe of the last block, and no further. */
  lemma LastStripe(bis: nat, stripe: nat, begin: nat, limit: nat)
    requires bis > 0 && StartsIn(bis, stripe, begin, limit) && begin < limit
    ensures var last := (limit - 1) / bis;
            stripe <= last && (PieceEnd(bis, stripe, begin, limit) == limit <==> stripe == last)
  {
    var last := (limit - 1) / bis;
    Euclid(limit - 1, bis);
    TimesIs(stripe, bis);
    if last < stripe {
      MulStep(last, stripe, bis);
    } else if stripe < last {
      MulStep(stripe, last, bis);
    }
  }

  /** Pieces one after the other from `from` to `to`, each in a single stripe and not empty. */
  predicate Tiles(r: Raid, ps: seq<Piece>, from: nat, limit: nat)
    requires r.Ok()
  {
    if ps == [] then from == limit
    else ps[0].begin == from && InStripe(r, ps[0]) && Tiles(r, ps[1..], ps[0].end, limit)
  }

  lemma StripeNotEmpty(r: Raid)
    requires r.Ok()
    ensures r.blocksInStripe > 0
  {
    TimesIs(r.disks - 1, r.chunk);
    MulMono(1, r.disks - 1, r.chunk);
  }

  lemma {:induction false} PiecesTile(r: Raid, stripe: nat, begin: nat, limit: nat)
    requires r.Ok() && StartsIn(r.blocksInStripe, stripe, begin, limit)
    ensures Tiles(r, Pieces(r.blocksInStripe, stripe, begin, limit), begin, limit)
    decreases limit - begin
  {
    if begin < limit {
      var bis := r.blocksInStripe;
      PieceEndIs(bis, stripe, begin, limit);
      var end := PieceEnd(bis, stripe, begin, limit);
      PiecesTile(r, stripe + 1, end, limit);
      assert Pieces(bis, stripe, begin, limit)[1..] == Pieces(bis, stripe + 1, end, limit);
    }
  }

  /** Every block of the range lies in exactly one piece. */
  lemma {:induction false} TilesCoverOnce(r: Raid, ps: seq<Piece>, from: nat, limit: nat, b: nat)
    requires r.Ok() && Tiles(r, ps, from, limit) && from <= b < limit
    ensures exists k :: 0 <= k < |ps| && ps[k].begin <= b < ps[k].end
    ensures forall j, k ::
              0 <= j < |ps| && 0 <= k < |ps| && ps[j].begin <= b < ps[j].end && ps[k].begin <= b < ps[k].end ==> j == k
  {
    if b < ps[0].end {
      TilesStartAfter(r, ps[1..], ps[0].end, limit);
    } else {
      TilesCoverOnce(r, ps[1..], ps[0].end, limit, b);
      var k :| 0 <= k < |ps[1..]| && ps[1..][k].begin <= b < ps[1..][k].end;
      assert ps[k + 1] == ps[1..][k];
    }
    forall j | 0 < j < |ps|
      ensures ps[j] == ps[1..][j - 1]
    {
    }
  }

  lemma {:induction false} TilesStartAfter(r: Raid, ps: seq<Piece>, from: nat, limit: nat)
    requires r.Ok() && Tiles(r, ps, from, limit)
    ensures from <= limit
    ensures forall k :: 0 <= k < |ps| ==> from <= ps[k].begin && ps[k].end <= limit
  {
    if ps != [] {
      TilesStartAfter(r, ps[1..], ps[0].end, limit);
      forall k | 0 < k < |ps|
        ensures ps[k] == ps[1..][k - 1]
      {
      }
    }
  }

  // ---------- Physical operations ----------

  datatype IO = Read(disk: nat, off: nat) | Write(disk: nat, off: nat)

  /** Blocks [begin, end) as reads, and as writes. */
  function DataReads(r: Raid, begin: nat, end: nat): seq<IO>
    requires r.Ok() && begin <= end
    decreases end - begin
  {
    if begin == end then [] else DataReads(r, begin, end - 1) + [Read(Bmap(r, end - 1).0, Bmap(r, end - 1).1)]
  }

  function DataWrites(r: Raid, begin: nat, end: nat): seq<IO>
    requires r.Ok() && begin <= end
    decreases end - begin
  {
    if begin == end then [] else DataWrites(r, begin, end - 1) + [Write(Bmap(r, end - 1).0, Bmap(r, end - 1).1)]
  }

  /** The offsets of blocks [begin, end), each once, in order of appearance. */
  function Offsets(r: Raid, begin: nat, end: nat): seq<nat>
    requires r.Ok() && begin <= end
    decreases end - begin
  {
    if begin == end then []
    else
      var rest, off := Offsets(r, begin, end - 1), Bmap(r, end - 1).1;
      if off in rest then rest else rest + [off]
  }

  function ParityReads(p: nat, offs: seq<nat>): (ios: seq<IO>)
    ensures |ios| == |offs|
    ensures forall k :: 0 <= k < |offs| ==> ios[k] == Read(p, offs[k])
  {
    if offs == [] then [] else ParityReads(p, offs[..|offs| - 1]) + [Read(p, offs[|offs| - 1])]
  }

  function ParityWrites(p: nat, offs: seq<nat>): (ios: seq<IO>)
    ensures |ios| == |offs|
    ensures forall k :: 0 <= k < |offs| ==> ios[k] == Write(p, offs[k])
  {
    if offs == [] then [] else ParityWrites(p, offs[..|offs| - 1]) + [Write(p, offs[|offs| - 1])]
  }

  /** Whether old data and old parity are read, rather than the rest of the stripe. */
  predicate Subtractive(r: Raid, p: Piece)
    requires r.Ok() && p.begin <= p.end
  {
    (p.end - p.begin) + 1 <= r.blocksInStripe - (p.end - p.begin)
  }

  /** What doPartialWrite reads, what it writes, and in this order. */
  function PlanReads(r: Raid, p: Piece): seq<IO>
    requires r.Ok() && InStripe(r, p)
  {
    var first := Times(p.stripe, r.blocksInStripe);
    if Subtractive(r, p) then
      DataReads(r, p.begin, p.end) + ParityReads(Pmap(r, p.stripe), Offsets(r, p.begin, p.end))
    else
      DataReads(r, first, p.begin) + DataReads(r, p.end, first + r.blocksInStripe)
  }

  function PlanWrites(r: Raid, p: Piece): seq<IO>
    requires r.Ok() && InStripe(r, p)
  {
    DataWrites(r, p.begin, p.end) + ParityWrites(Pmap(r, p.stripe), Offsets(r, p.begin, p.end))
  }

  function Plan(r: Raid, p: Piece): seq<IO>
    requires r.Ok() && InStripe(r, p)
  {
    PlanReads(r, p) + PlanWrites(r, p)
  }

  class RaidDriver {
    const r: Raid
    /** Physical operations in the order they were issued. */
    var ios: seq<IO>

    constructor (r: Raid)
      requires r.Ok()
      ensures this.r == r && ios == []
    {
      this.r := r;
      ios := [];
    }

    method DoSingleRead(disk: nat, off: nat)
      modifies this
      ensures ios == old(ios) + [Read(disk, off)]
    {
      ios := ios + [Read(disk, off)];
    }

    method DoSingleWrite(disk: nat, off: nat)
      modifies this
      ensures ios == old(ios) + [Write(disk, off)]
    {
      ios := ios + [Write(disk, off)];
    }

    method ReadBlocks(begin: nat, end: nat) returns (offList: seq<nat>)
      requires r.Ok() && begin <= end
      modifies this
      ensures ios == old(ios) + DataReads(r, begin, end) && offList == Offsets(r, begin, end)
    {
      offList := [];
      for voff := begin to end
        invariant ios == old(ios) + DataReads(r, begin, voff) && offList == Offsets(r, begin, voff)
      {
        var (disk, off) := Bmap(r, voff);
        DoSingleRead(disk, off);
        if off !in offList {
          offList := offList + [off];
        }
      }
    }

    method WriteBlocks(begin: nat, end: nat) returns (offList: seq<nat>)
      requires r.Ok() && begin <= end
      modifies this
      ensures ios == old(ios) + DataWrites(r, begin, end) && offList == Offsets(r, begin, end)
    {
      offList := [];
      for voff := begin to end
        invariant ios == old(ios) + DataWrites(r, begin, voff) && offList == Offsets(r, begin, voff)
      {
        var (disk, off) := Bmap(r, voff);
        DoSingleWrite(disk, off);
        if off !in offList {
          offList := offList + [off];
        }
      }
    }

    method ReadParity(pdisk: nat, offList: seq<nat>)
      modifies this
      ensures ios == old(ios) + ParityReads(pdisk, offList)
    {
      for i := 0 to |offList|
        invariant ios == old(ios) + ParityReads(pdisk, offList[..i])
      {
        assert offList[..i + 1][..i] == offList[..i];
        DoSingleRead(pdisk, offList[i]);
      }
      assert offList[..|offList|] == offList;
    }

    method WriteParity(pdisk: nat, offList: seq<nat>)
      modifies this
      ensures ios == old(ios) + ParityWrites(pdisk, offList)
    {
      for i := 0 to |offList|
        invariant ios == old(ios) + ParityWrites(pdisk, offList[..i])
      {
        assert offList[..i + 1][..i] == offList[..i];
        DoSingleWrite(pdisk, offList[i]);
      }
      assert offList[..|offList|] == offList;
    }

    /** Old data and old parity of the piece. */
    method ReadSubtractive(begin: nat, end: nat, pdisk: nat)
      requires r.Ok() && begin <= end
      modifies this
      ensures ios == old(ios) + (DataReads(r, begin, end) + ParityReads(pdisk, Offsets(r, begin, end)))
    {
      var offList := ReadBlocks(begin, end);
      ReadParity(pdisk, offList);
    }

    /** The rest of the stripe. */
    method ReadAdditive(stripeBegin: nat, begin: nat, end: nat, stripeEnd: nat)
      requires r.Ok() && stripeBegin <= begin && end <= stripeEnd
      modifies this
      ensures ios == old(ios) + (DataReads(r, stripeBegin, begin) + DataReads(r, end, stripeEnd))
    {
      var offList := ReadBlocks(stripeBegin, begin);
      offList := ReadBlocks(end, stripeEnd);
    }

    method WriteData(begin: nat, end: nat, pdisk: nat)
      requires r.Ok() && begin <= end
      modifies this
      ensures ios == old(ios) + (DataWrites(r, begin, end) + ParityWrites(pdisk, Offsets(r, begin, end)))
    {
      var offList := WriteBlocks(begin, end);
      WriteParity(pdisk, offList);
    }

    method DoPartialWrite(p: Piece)
      requires r.Ok() && InStripe(r, p)
      modifies this
      ensures ios == old(ios) + Plan(r, p)
    {
      var numWrites := p.end - p.begin;
      var pdisk := Pmap(r, p.stripe);
      if numWrites + 1 <= r.blocksInStripe - numWrites {
        ReadSubtractive(p.begin, p.end, pdisk);
      } else {
        var stripeBegin := Times(p.stripe, r.blocksInStripe);
        ReadAdditive(stripeBegin, p.begin, p.end, stripeBegin + r.blocksInStripe);
      }
      assert ios == old(ios) + PlanReads(r, p);
      WriteData(p.begin, p.end, pdisk);
      Append3(old(ios), PlanReads(r, p), PlanWrites(r, p));
    }

    /** A logical request of at least one block. */
    method Enqueue45(addr: nat, size: nat, isWrite: bool)
      requires r.Ok() && size >= 1
      modifies this
      ensures ios == old(ios) + Request(r, addr, size, isWrite)
    {
      StripeNotEmpty(r);
      FirstStripe(r.blocksInStripe, addr, addr + size);
      if isWrite {
        EnqueueWrite(addr, size);
      } else {
        var offs := ReadBlocks(addr, addr + size);
      }
    }

    method EnqueueWrite(addr: nat, size: nat)
      requires r.Ok() && size >= 1 && r.blocksInStripe > 0
      requires StartsIn(r.blocksInStripe, addr / r.blocksInStripe, addr, addr + size)
      modifies this
      ensures ios == old(ios) + Rest(r, addr / r.blocksInStripe, addr, addr + size)
    {
      var bis, limit := r.blocksInStripe, addr + size;
      var initStripe, finalStripe := addr / bis, (limit - 1) / bis;
      LastStripe(bis, initStripe, addr, limit);
      var left: int := size;
      var begin: nat := addr;
      for stripe := initStripe to finalStripe + 1
        invariant left == limit - begin && StartsIn(bis, stripe, begin, limit)
        invariant begin < limit <==> stripe <= finalStripe
        invariant ios + Rest(r, stripe, begin, limit) == old(ios) + Rest(r, initStripe, addr, limit)
      {
        var end := EnqueuePiece(stripe, begin, limit);
        LastStep(bis, stripe, begin, limit);
        left := left - (end - begin);
        begin := end;
      }
    }

    /** One turn of the loop over stripes. */
    method EnqueuePiece(stripe: nat, begin: nat, limit: nat) returns (end: nat)
      requires r.Ok() && StartsIn(r.blocksInStripe, stripe, begin, limit) && begin < limit
      modifies this
      ensures end == PieceEnd(r.blocksInStripe, stripe, begin, limit)
      ensures StartsIn(r.blocksInStripe, stripe + 1, end, limit)
      ensures ios + Rest(r, stripe + 1, end, limit) == old(ios) + Rest(r, stripe, begin, limit)
    {
      end := EndOfPiece(r.blocksInStripe, stripe, begin, limit - begin);
      RestStep(r, stripe, begin, limit);
      ghost var rest := Rest(r, stripe + 1, end, limit);
      var piece := Piece(stripe, begin, end);
      DoPartialWrite(piece);
      Append3(old(ios), Plan(r, piece), rest);
    }

    static method EndOfPiece(bis: nat, stripe: nat, begin: nat, left: nat) returns (end: nat)
      ensures end == PieceEnd(bis, stripe, begin, begin + left)
    {
      var endOfStripe := Times(stripe, bis) + bis;
      end := if left >= bis then begin + bis else begin + left;
      if end >= endOfStripe {
        end := endOfStripe;
      }
    }
  }

  lemma Append3<T>(a: seq<T>, b: seq<T>, c: seq<T>)
    ensures (a + b) + c == a + (b + c)
  {
  }

  /** The operations of all pieces in turn. */
  function PlanAll(r: Raid, ps: seq<Piece>): seq<IO>
    requires r.Ok()
  {
    if ps == [] || !InStripe(r, ps[0]) then [] else Plan(r, ps[0]) + PlanAll(r, ps[1..])
  }

  /** The operations of what is left of a write. */
  function Rest(r: Raid, stripe: nat, begin: nat, limit: nat): seq<IO>
    requires r.Ok() && StartsIn(r.blocksInStripe, stripe, begin, limit)
  {
    PlanAll(r, Pieces(r.blocksInStripe, stripe, begin, limit))
  }

  lemma RestStep(r: Raid, stripe: nat, begin: nat, limit: nat)
    requires r.Ok() && StartsIn(r.blocksInStripe, stripe, begin, limit) && begin < limit
    ensures var end := PieceEnd(r.blocksInStripe, stripe, begin, limit);
            && InStripe(r, Piece(stripe, begin, end)) && StartsIn(r.blocksInStripe, stripe + 1, end, limit)
            && Rest(r, stripe, begin, limit) == Plan(r, Piece(stripe, begin, end)) + Rest(r, stripe + 1, end, limit)
  {
    var bis := r.blocksInStripe;
    PieceEndIs(bis, stripe, begin, limit);
    var end := PieceEnd(bis, stripe, begin, limit);
    assert Pieces(bis, stripe, begin, limit)[1..] == Pieces(bis, stripe + 1, end, limit);
  }

  /** Blocks are left after a turn of the loop exactly when the loop has turns left. */
  lemma LastStep(bis: nat, stripe: nat, begin: nat, limit: nat)
    requires bis > 0 && StartsIn(bis, stripe, begin, limit) && begin < limit
    ensures var end, last := PieceEnd(bis, stripe, begin, limit), (limit - 1) / bis;
            end < limit <==> stripe + 1 <= last
  {
    PieceEndIs(bis, stripe, begin, limit);
    LastStripe(bis, stripe, begin, limit);
  }

  /** The pieces of a request, the first in the stripe of its first block. */
  function RequestPieces(r: Raid, addr: nat, size: nat): (ps: seq<Piece>)
    requires r.Ok() && size >= 1
    ensures Tiles(r, ps, addr, addr + size)
  {
    StripeNotEmpty(r);
    FirstStripe(r.blocksInStripe, addr, addr + size);
    PiecesTile(r, addr / r.blocksInStripe, addr, addr + size);
    Pieces(r.blocksInStripe, addr / r.blocksInStripe, addr, addr + size)
  }

  /** What a logical request turns into. */
  function Request(r: Raid, addr: nat, size: nat, isWrite: bool): seq<IO>
    requires r.Ok() && size >= 1
  {
    if isWrite then PlanAll(r, RequestPieces(r, addr, size)) else DataReads(r, addr, addr + size)
  }
}
