/** Whole runs of the log-structured device: commands with upkeep after each one, against a plain map. */
module FlashRun {
  import opened Arith
  import opened Bitmaps
  import opened Sums
  import opened FlashDevice
  import opened FlashGc

  datatype Cmd = Read(a: int) | Write(a: int, x: Data) | Trim(a: int)

  datatype Reply = Success | DeviceFull | IllegalAddress | Uninitialized | Contents(x: Data)

  /** The marks at which collection starts and stops. */
  datatype Marks = Marks(high: int, low: int)

  function Exec(g: Geo, d: Dev, c: Cmd): (r: (Dev, Reply))
    requires Base(g, d)
    ensures Base(g, r.0)
  {
    match c
    case Read(a) =>
      (d, if !(0 <= a < g.L) then IllegalAddress
          else if d.fwd[a] == -1 then Uninitialized
          else Contents(d.data[d.fwd[a]]))
    case Write(a, x) =>
      ShapesIgnoreFails(g, d);
      if !(0 <= a < g.L) then (d.(fails := d.fails + 1), IllegalAddress)
      else
        LogWriteIsUpdate(g, d, a, x);
        (LogWrite(g, d, a, x), if FreeSlots(g, d) == 0 then DeviceFull else Success)
    case Trim(a) =>
      if !(0 <= a < g.L) then (d, IllegalAddress)
      else if d.fwd[a] == -1 then (d, Uninitialized)
      else
        TrimKeepsBase(g, d, a);
        (d.(fwd := d.fwd[a := -1]), Success)
  }

  lemma TrimKeepsBase(g: Geo, d: Dev, a: nat)
    requires Base(g, d) && a < g.L
    ensures Base(g, d.(fwd := d.fwd[a := -1]))
  {
    var d' := d.(fwd := d.fwd[a := -1]);
    forall c | 0 <= c < g.N
      ensures Shape(g, d', c)
    {
      assert Shape(g, d, c);
    }
  }

  function Upkeep(g: Geo, w: Marks, d: Dev, next: nat): (r: Pass)
    requires Base(g, d) && next < g.N
    ensures Base(g, r.d) && r.next < g.N
  {
    if Ones(d.used) >= w.high then GcPass(g, d, next, 0, w.low) else Pass(d, next)
  }

  /** One command and the upkeep after it. */
  function Turn(g: Geo, w: Marks, d: Dev, next: nat, c: Cmd): (r: Pass)
    requires Base(g, d) && next < g.N
    ensures Base(g, r.d) && r.next < g.N
  {
    Upkeep(g, w, Exec(g, d, c).0, next)
  }

  function Run(g: Geo, w: Marks, d: Dev, next: nat, cmds: seq<Cmd>): seq<Reply>
    requires Base(g, d) && next < g.N
    decreases |cmds|
  {
    if cmds == [] then []
    else
      var p := Turn(g, w, d, next, cmds[0]);
      [Exec(g, d, cmds[0]).1] + Run(g, w, p.d, p.next, cmds[1..])
  }

  /** The device at the end of a run. */
  function AfterRun(g: Geo, w: Marks, d: Dev, next: nat, cmds: seq<Cmd>): Dev
    requires Base(g, d) && next < g.N
    decreases |cmds|
  {
    if cmds == [] then d
    else
      var p := Turn(g, w, d, next, cmds[0]);
      AfterRun(g, w, p.d, p.next, cmds[1..])
  }

  /** Every collection of the run starts while some block is free. */
  predicate SpareAtEachGc(g: Geo, w: Marks, d: Dev, next: nat, cmds: seq<Cmd>)
    requires Base(g, d) && next < g.N
    decreases |cmds|
  {
    cmds != [] ==>
      var used := Ones(Exec(g, d, cmds[0]).0.used);
      var p := Turn(g, w, d, next, cmds[0]);
      (used >= w.high ==> used < g.N) && SpareAtEachGc(g, w, p.d, p.next, cmds[1..])
  }

  /** A collection, if one starts, has room for the live pages of the first block it cleans. */
  predicate FitsAtGc(g: Geo, w: Marks, d: Dev, next: nat)
    requires Base(g, d) && next < g.N
  {
    Ones(d.used) >= w.high ==> FirstFits(g, d, next, 0)
  }

  predicate FitsAtEachGc(g: Geo, w: Marks, d: Dev, next: nat, cmds: seq<Cmd>)
    requires Base(g, d) && next < g.N
    decreases |cmds|
  {
    cmds != [] ==>
      var p := Turn(g, w, d, next, cmds[0]);
      FitsAtGc(g, w, Exec(g, d, cmds[0]).0, next) && FitsAtEachGc(g, w, p.d, p.next, cmds[1..])
  }

  /** The forward and reverse maps agree at the end of every turn. */
  predicate AgreesThroughout(g: Geo, w: Marks, d: Dev, next: nat, cmds: seq<Cmd>)
    requires Base(g, d) && next < g.N
    decreases |cmds|
  {
    cmds != [] ==>
      var p := Turn(g, w, d, next, cmds[0]);
      Agree(g, p.d) && AgreesThroughout(g, w, p.d, p.next, cmds[1..])
  }

  /** The replies a plain map with L keys may give to a command: a write alone may be refused. */
  predicate ReplyFits(L: nat, m: map<int, Data>, c: Cmd, r: Reply) {
    if !(0 <= c.a < L) then r == IllegalAddress
    else
      match c
      case Read(a) => r == if a in m then Contents(m[a]) else Uninitialized
      case Write(a, x) => r == Success || r == DeviceFull
      case Trim(a) => r == if a in m then Success else Uninitialized
  }

  /** What one command does to the map: a refused write does nothing. */
  function MapAfter(m: map<int, Data>, c: Cmd, r: Reply): map<int, Data> {
    match c
    case Read(a) => m
    case Write(a, x) => if r == Success then m[a := x] else m
    case Trim(a) => m - {a}
  }

  /** The replies are those of a plain map. */
  predicate Explained(L: nat, m: map<int, Data>, cmds: seq<Cmd>, replies: seq<Reply>)
    decreases |cmds|
  {
    && |replies| == |cmds|
    && (cmds != [] ==>
          && ReplyFits(L, m, cmds[0], replies[0])
          && Explained(L, MapAfter(m, cmds[0], replies[0]), cmds[1..], replies[1..]))
  }

  lemma TrimIsRemoval(g: Geo, d: Dev, a: nat)
    requires Sizes(g, d) && Ranges(g, d) && a < g.L
    ensures var d' := d.(fwd := d.fwd[a := -1]); Ranges(g, d') && View(g, d') == View(g, d) - {a}
  {
  }

  lemma ExecIsMapStep(g: Geo, d: Dev, c: Cmd)
    requires Base(g, d) && Agree(g, d)
    ensures var (d1, r) := Exec(g, d, c);
            && Agree(g, d1) && View(g, d1) == MapAfter(View(g, d), c, r)
            && ReplyFits(g.L, View(g, d), c, r)
            && (r == DeviceFull ==> FreeSlots(g, d) == 0)
  {
    match c
    case Read(a) =>
    case Write(a, x) =>
      if 0 <= a < g.L {
        FullExactly(g, d);
        LogWriteIsUpdate(g, d, a, x);
      }
    case Trim(a) =>
      if 0 <= a < g.L {
        TrimIsRemoval(g, d, a);
      }
      assert a !in View(g, d) ==> View(g, d) - {a} == View(g, d);
  }

  lemma UpkeepIsInvisible(g: Geo, w: Marks, d: Dev, next: nat)
    requires Base(g, d) && Agree(g, d) && next < g.N
    requires FitsAtGc(g, w, d, next)
    ensures var p := Upkeep(g, w, d, next);
            && Agree(g, p.d) && View(g, p.d) == View(g, d) && p.d.fails == d.fails
            && FreeSlots(g, p.d) >= FreeSlots(g, d)
  {
    if Ones(d.used) >= w.high {
      GcKeeps(g, d, next, 0, w.low);
    }
  }

  lemma TurnIsMapStep(g: Geo, w: Marks, d: Dev, next: nat, c: Cmd)
    requires Base(g, d) && Agree(g, d) && next < g.N
    requires FitsAtGc(g, w, Exec(g, d, c).0, next)
    ensures var d' := Turn(g, w, d, next, c).d; Agree(g, d') && View(g, d') == MapAfter(View(g, d), c, Exec(g, d, c).1)
    ensures ReplyFits(g.L, View(g, d), c, Exec(g, d, c).1)
  {
    ExecIsMapStep(g, d, c);
    UpkeepIsInvisible(g, w, Exec(g, d, c).0, next);
  }

  /** A block to spare always leaves room for the first block a collection cleans. */
  lemma {:induction false} SpareFits(g: Geo, w: Marks, d: Dev, next: nat, cmds: seq<Cmd>)
    requires Base(g, d) && next < g.N && SpareAtEachGc(g, w, d, next, cmds)
    ensures FitsAtEachGc(g, w, d, next, cmds)
    decreases |cmds|
  {
    if cmds != [] {
      var d1, p := Exec(g, d, cmds[0]).0, Turn(g, w, d, next, cmds[0]);
      if Ones(d1.used) >= w.high {
        SpareBlockFits(g, d1, next, 0);
      }
      SpareFits(g, w, p.d, p.next, cmds[1..]);
    }
  }

  /** The maps agree at the end of a turn exactly when the collection of the turn, if there is one, has room. */
  lemma TurnAgreesExactly(g: Geo, w: Marks, d: Dev, next: nat, c: Cmd)
    requires Base(g, d) && Agree(g, d) && next < g.N
    ensures Agree(g, Turn(g, w, d, next, c).d) <==> FitsAtGc(g, w, Exec(g, d, c).0, next)
  {
    ExecIsMapStep(g, d, c);
    if Ones(Exec(g, d, c).0.used) >= w.high {
      GcExactly(g, Exec(g, d, c).0, next, w.low);
    }
  }

  /** The maps agree throughout a run exactly when every collection has room for the first block it cleans. */
  lemma {:induction false} RunAgreesExactly(g: Geo, w: Marks, d: Dev, next: nat, cmds: seq<Cmd>)
    requires Base(g, d) && Agree(g, d) && next < g.N
    ensures AgreesThroughout(g, w, d, next, cmds) <==> FitsAtEachGc(g, w, d, next, cmds)
    decreases |cmds|
  {
    if cmds != [] {
      TurnAgreesExactly(g, w, d, next, cmds[0]);
      var p := Turn(g, w, d, next, cmds[0]);
      if Agree(g, p.d) {
        RunAgreesExactly(g, w, p.d, p.next, cmds[1..]);
      }
    }
  }

  /** With such room at each collection, the device is a plain map underneath its relocations. */
  lemma {:induction false} RunIsExplained(g: Geo, w: Marks, d: Dev, next: nat, cmds: seq<Cmd>)
    requires Base(g, d) && Agree(g, d) && next < g.N
    requires FitsAtEachGc(g, w, d, next, cmds)
    ensures Explained(g.L, View(g, d), cmds, Run(g, w, d, next, cmds))
    decreases |cmds|
  {
    if cmds != [] {
      TurnIsMapStep(g, w, d, next, cmds[0]);
      var p := Turn(g, w, d, next, cmds[0]);
      RunIsExplained(g, w, p.d, p.next, cmds[1..]);
      assert Run(g, w, d, next, cmds)[1..] == Run(g, w, p.d, p.next, cmds[1..]);
    }
  }

  predicate Refuses(c: Cmd, r: Reply) { c.Write? && r != Success }

  function Refusals(cmds: seq<Cmd>, replies: seq<Reply>): nat
    requires |cmds| == |replies|
  {
    if cmds == [] then 0 else Bit(Refuses(cmds[0], replies[0])) + Refusals(cmds[1..], replies[1..])
  }

  lemma ExecCounts(g: Geo, d: Dev, c: Cmd)
    requires Base(g, d)
    ensures var (d1, r) := Exec(g, d, c); d1.fails == d.fails + Bit(Refuses(c, r))
  {
    if c.Write? && 0 <= c.a < g.L {
      FullExactly(g, d);
      LogWriteIsUpdate(g, d, c.a, c.x);
    }
  }

  /** Then the failures counted over a run are the writes refused in it, and no others. */
  lemma {:induction false} FailuresAreRefusals(g: Geo, w: Marks, d: Dev, next: nat, cmds: seq<Cmd>)
    requires Base(g, d) && Agree(g, d) && next < g.N && FitsAtEachGc(g, w, d, next, cmds)
    ensures var replies := Run(g, w, d, next, cmds);
            |replies| == |cmds| && AfterRun(g, w, d, next, cmds).fails == d.fails + Refusals(cmds, replies)
    decreases |cmds|
  {
    if cmds != [] {
      ExecCounts(g, d, cmds[0]);
      ExecIsMapStep(g, d, cmds[0]);
      UpkeepIsInvisible(g, w, Exec(g, d, cmds[0]).0, next);
      var p := Turn(g, w, d, next, cmds[0]);
      FailuresAreRefusals(g, w, p.d, p.next, cmds[1..]);
      assert Run(g, w, d, next, cmds)[1..] == Run(g, w, p.d, p.next, cmds[1..]);
    }
  }

  // ---------- A configuration in which nothing is ever refused ----------

  /** Four blocks more than the logical pages fill, and marks that leave room to work. */
  predicate Provisioned(g: Geo, w: Marks) {
    && g.Ok()
    && g.L + 4 * g.P <= g.NumPages()
    && w.high <= g.N - 1
    && w.low <= g.N - 2
  }

  lemma ExecUsesOneBlock(g: Geo, d: Dev, c: Cmd)
    requires Base(g, d)
    ensures Ones(Exec(g, d, c).0.used) <= Ones(d.used) + 1
  {
    if c.Write? && 0 <= c.a < g.L {
      var e := NextCursor(g, d);
      NextCursorKeeps(g, d);
      ScanFinds(g, d, 0);
      if e.curBlock != d.curBlock || e.used != d.used {
        assert e == Claim(g, d, Rot(g, d.curBlock, Scan(g, d, 0)));
        var b := Rot(g, d.curBlock, Scan(g, d, 0));
        assert d.used[b] == 0;
        assert e.used == d.used[b := 1];
        SumUpdate(d.used, b, 1, ID);
      }
    }
  }

  lemma PaidBlocks(g: Geo, u: int)
    requires g.Ok() && g.L + 4 * g.P <= g.NumPages()
    ensures u * g.P <= g.L + 2 * g.P ==> u <= g.N - 2
  {
    if u > g.N - 2 {
      MulStep(g.N - 2, u, g.P);
      assert (g.N - 2) * g.P == g.N * g.P - 2 * g.P;
    }
  }

  lemma UpkeepLeavesTwo(g: Geo, w: Marks, d: Dev, next: nat)
    requires Base(g, d) && Agree(g, d) && next < g.N && Provisioned(g, w) && Ones(d.used) <= g.N - 1
    ensures Ones(Upkeep(g, w, d, next).d.used) <= g.N - 2
  {
    if Ones(d.used) >= w.high {
      GcMakesRoom(g, d, next, w.low);
      PaidBlocks(g, Ones(Upkeep(g, w, d, next).d.used));
    }
  }

  lemma ProvisionedTurn(g: Geo, w: Marks, d: Dev, next: nat, c: Cmd)
    requires Base(g, d) && Agree(g, d) && next < g.N && Provisioned(g, w) && Ones(d.used) <= g.N - 2
    ensures Ones(Exec(g, d, c).0.used) < g.N && Exec(g, d, c).1 != DeviceFull
    ensures var d' := Turn(g, w, d, next, c).d; Agree(g, d') && Ones(d'.used) <= g.N - 2
  {
    ExecIsMapStep(g, d, c);
    ExecUsesOneBlock(g, d, c);
    FullExactly(g, d);
    SpareBlockFits(g, Exec(g, d, c).0, next, 0);
    TurnIsMapStep(g, w, d, next, c);
    UpkeepLeavesTwo(g, w, Exec(g, d, c).0, next);
  }

  /** A provisioned device always has a block to spare when it collects, and refuses no write. */
  lemma {:induction false} ProvisionedNeverFull(g: Geo, w: Marks, d: Dev, next: nat, cmds: seq<Cmd>)
    requires Base(g, d) && Agree(g, d) && next < g.N && Provisioned(g, w) && Ones(d.used) <= g.N - 2
    ensures SpareAtEachGc(g, w, d, next, cmds)
    ensures DeviceFull !in Run(g, w, d, next, cmds)
    decreases |cmds|
  {
    if cmds != [] {
      ProvisionedTurn(g, w, d, next, cmds[0]);
      var p := Turn(g, w, d, next, cmds[0]);
      ProvisionedNeverFull(g, w, p.d, p.next, cmds[1..]);
    }
  }

  // ---------- The factory state ----------

  function Fresh(g: Geo): Dev {
    Dev(seq(g.NumPages(), _ => INVALID), seq(g.NumPages(), _ => ' '), seq(g.N, _ => 0),
        seq(g.L, _ => -1), seq(g.NumPages(), _ => -1), -1, 0, 0)
  }

  lemma FreshIsEmpty(g: Geo)
    requires g.Ok()
    ensures Base(g, Fresh(g)) && Agree(g, Fresh(g)) && View(g, Fresh(g)) == map[] && Ones(Fresh(g).used) == 0
  {
    var d := Fresh(g);
    forall b | 0 <= b < g.N
      ensures Shape(g, d, b)
    {
      BlockBounds(g, b);
    }
    SumZero(Fresh(g).used, ID);
  }

  /** From the factory, a provisioned device answers any command list exactly as a plain map does. */
  lemma ProvisionedDeviceIsAMap(g: Geo, w: Marks, cmds: seq<Cmd>)
    requires Provisioned(g, w)
    ensures Base(g, Fresh(g))
    ensures var replies := Run(g, w, Fresh(g), 0, cmds);
            Explained(g.L, map[], cmds, replies) && DeviceFull !in replies
  {
    FreshIsEmpty(g);
    if g.N < 4 {
      MulMono(g.N, 3, g.P);
    }
    ProvisionedNeverFull(g, w, Fresh(g), 0, cmds);
    SpareFits(g, w, Fresh(g), 0, cmds);
    RunIsExplained(g, w, Fresh(g), 0, cmds);
  }
}
