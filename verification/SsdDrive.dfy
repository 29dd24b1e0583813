/** The ssd class of ssd.py: its fields, and methods that change them step by step. */
module FlashDrive {
  import opened Arith
  import opened Bitmaps
  import opened Sums
  import opened FlashDevice
  import opened FlashGc
  import opened FlashRun

  datatype Kind = DIRECT | LOGGING | IDEAL

  /** In direct and ideal mode a logical page is mapped to the physical page of the same number or not at all. */
  ghost predicate InPlace(g: Geo, d: Dev) {
    && Sizes(g, d) && Ranges(g, d)
    && g.L <= g.NumPages()
    && (forall a :: 0 <= a < g.L && d.fwd[a] != -1 ==> d.fwd[a] == a && d.state[a] == VALID)
    && d.used == seq(g.N, _ => 0)
  }

  class Ssd {
    const kind: Kind
    const g: Geo
    const w: Marks

    var state: seq<PageState>
    var data: seq<Data>
    var currentPage: int
    var currentBlock: nat
    var gcCurrentBlock: nat
    var gcUsedBlocks: seq<int>
    var forwardMap: seq<int>
    var reverseMap: seq<int>
    var logicalWriteFailSum: nat

    /** The fields as a value. */
    ghost function D(): Dev
      reads this
    {
      Dev(state, data, gcUsedBlocks, forwardMap, reverseMap, currentPage, currentBlock, logicalWriteFailSum)
    }

    ghost predicate Valid()
      reads this
    {
      gcCurrentBlock < g.N && if kind == LOGGING then Base(g, D()) else InPlace(g, D()) && w.high > 0
    }

    /** What users see. */
    ghost function Pages(): map<int, Data>
      reads this
      requires Sizes(g, D()) && Ranges(g, D())
    {
      View(g, D())
    }

    constructor (kind: Kind, g: Geo, w: Marks)
      requires g.Ok() && (kind != LOGGING ==> g.L <= g.NumPages() && w.high > 0)
      ensures this.kind == kind && this.g == g && this.w == w
      ensures D() == Fresh(g) && gcCurrentBlock == 0
      ensures Valid() && Agree(g, D()) && Pages() == map[]
    {
      this.kind, this.g, this.w := kind, g, w;
      state := seq(g.NumPages(), _ => INVALID);
      data := seq(g.NumPages(), _ => ' ');
      currentPage, currentBlock, gcCurrentBlock := -1, 0, 0;
      gcUsedBlocks := seq(g.N, _ => 0);
      forwardMap := seq(g.L, _ => -1);
      reverseMap := seq(g.NumPages(), _ => -1);
      logicalWriteFailSum := 0;
      new;
      FreshIsEmpty(g);
    }

    method BlocksInUse() returns (used: int)
      requires |gcUsedBlocks| == g.N
      ensures used == Ones(gcUsedBlocks)
    {
      used := 0;
      for i := 0 to g.N
        invariant used == Ones(gcUsedBlocks[..i])
      {
        assert gcUsedBlocks[..i + 1] == gcUsedBlocks[..i] + [gcUsedBlocks[i]];
        SumAppend(gcUsedBlocks[..i], gcUsedBlocks[i], ID);
        used := used + gcUsedBlocks[i];
      }
      assert gcUsedBlocks[..g.N] == gcUsedBlocks;
    }

    method PhysicalErase(block: nat)
      requires Sizes(g, D()) && block < g.N
      modifies this`state, this`data, this`gcUsedBlocks
      ensures D() == Erase(g, old(D()), block)
    {
      BlockBounds(g, block);
      var begin := g.First(block);
      for page := begin to begin + g.P
        invariant |state| == |data| == g.NumPages() && gcUsedBlocks == old(gcUsedBlocks)
        invariant forall p :: 0 <= p < g.NumPages() ==> state[p] == if begin <= p < page then ERASED else old(state)[p]
        invariant forall p :: 0 <= p < g.NumPages() ==> data[p] == if begin <= p < page then ' ' else old(data)[p]
      {
        data := data[page := ' '];
        state := state[page := ERASED];
      }
      gcUsedBlocks := gcUsedBlocks[block := 0];
      assert state == Erase(g, old(D()), block).state;
      assert data == Erase(g, old(D()), block).data;
    }

    method PhysicalProgram(page: nat, x: Data)
      requires Sizes(g, D()) && page < g.NumPages()
      modifies this`state, this`data
      ensures state == old(state)[page := VALID] && data == old(data)[page := x]
    {
      data := data[page := x];
      state := state[page := VALID];
    }

    method PhysicalRead(page: nat) returns (x: Data)
      requires page < |data|
      ensures x == data[page]
    {
      x := data[page];
    }

    // ---------- The log ----------

    method IsBlockFree(block: nat) returns (free: bool)
      requires Base(g, D()) && currentPage == -1 && block < g.N
      modifies this`state, this`data, this`gcUsedBlocks, this`currentBlock, this`currentPage
      ensures free <==> old(gcUsedBlocks[block]) == 0
      ensures D() == if free then Claim(g, old(D()), block) else old(D())
    {
      FreeByState(g, D(), block);
      var firstPage := g.First(block);
      if state[firstPage] == INVALID || state[firstPage] == ERASED {
        if state[firstPage] == INVALID {
          PhysicalErase(block);
        }
        currentBlock := block;
        currentPage := firstPage;
        gcUsedBlocks := gcUsedBlocks[block := 1];
        return true;
      }
      return false;
    }

    method GetCursor() returns (rc: int)
      requires Base(g, D())
      modifies this`state, this`data, this`gcUsedBlocks, this`currentBlock, this`currentPage
      ensures D() == NextCursor(g, old(D()))
      ensures rc == if D().curPage == -1 then -1 else 0
    {
      if currentPage == -1 {
        ghost var d := D();
        var start := currentBlock;
        for block := start to g.N
          invariant D() == d && Scan(g, d, 0) == Scan(g, d, block - start)
        {
          assert Rot(g, start, block - start) == block;
          var free := IsBlockFree(block);
          if free {
            return 0;
          }
        }
        for block := 0 to start
          invariant D() == d && Scan(g, d, 0) == Scan(g, d, g.N - start + block)
        {
          assert Rot(g, start, g.N - start + block) == block;
          var free := IsBlockFree(block);
          if free {
            return 0;
          }
        }
        return -1;
      }
      return 0;
    }

    method UpdateCursor()
      requires g.Ok()
      modifies this`currentPage
      ensures currentPage == Advance(g, old(currentPage))
    {
      currentPage := currentPage + 1;
      if currentPage % g.P == 0 {
        currentPage := -1;
      }
    }

    method WriteLogging(address: nat, x: Data) returns (rc: Reply)
      requires Base(g, D()) && address < g.L
      modifies this
      ensures D() == LogWrite(g, old(D()), address, x) && gcCurrentBlock == old(gcCurrentBlock)
      ensures rc == if FreeSlots(g, old(D())) == 0 then DeviceFull else Success
    {
      NextCursorKeeps(g, D());
      var cursor := GetCursor();
      if cursor == -1 {
        logicalWriteFailSum := logicalWriteFailSum + 1;
        return DeviceFull;
      }
      PutKeepsBase(g, D(), address, x);
      assert state[currentPage] == ERASED;
      PhysicalProgram(currentPage, x);
      forwardMap := forwardMap[address := currentPage];
      reverseMap := reverseMap[currentPage := address];
      UpdateCursor();
      return Success;
    }

    // ---------- Garbage collection ----------

    /** The scan of one block for live pages. */
    method LivePagesOf(block: nat) returns (livePages: seq<nat>)
      requires Sizes(g, D()) && Ranges(g, D()) && block < g.N
      ensures livePages == LiveIn(g, D(), block)
    {
      BlockBounds(g, block);
      var first, end := g.First(block), g.First(block) + g.P;
      livePages := [];
      for page := first to end
        invariant livePages + LivePages(g, D(), page, end) == LivePages(g, D(), first, end)
      {
        var logicalPage := reverseMap[page];
        if logicalPage != -1 && forwardMap[logicalPage] == page {
          livePages := livePages + [page];
        }
      }
    }

    method RelocatePage(page: nat)
      requires kind == LOGGING && Valid() && page < g.NumPages()
      modifies this
      ensures Valid() && gcCurrentBlock == old(gcCurrentBlock)
      ensures D() == MovePage(g, old(D()), page)
    {
      var x := PhysicalRead(page);
      if reverseMap[page] != -1 {
        var rc := Write(reverseMap[page], x);
      }
    }

    method RelocatePages(livePages: seq<nat>)
      requires kind == LOGGING && Valid() && OnDevice(g, livePages)
      modifies this
      ensures Valid() && gcCurrentBlock == old(gcCurrentBlock)
      ensures D() == Relocate(g, old(D()), livePages)
    {
      ghost var d := D();
      for i := 0 to |livePages|
        invariant Valid() && gcCurrentBlock == old(gcCurrentBlock)
        invariant Relocate(g, D(), livePages[i..]) == Relocate(g, d, livePages)
      {
        assert livePages[i..][0] == livePages[i] && livePages[i..][1..] == livePages[i + 1..];
        RelocatePage(livePages[i]);
      }
    }

    /** The body of the pass for one block: skip it, or move its live pages and erase it. */
    method CollectBlock(block: nat) returns (cleaned: bool)
      requires kind == LOGGING && Valid() && block < g.N
      modifies this
      ensures Valid() && gcCurrentBlock == old(gcCurrentBlock)
      ensures cleaned <==> Collectable(g, old(D()), block)
      ensures D() == if cleaned then Collect(g, old(D()), block) else old(D())
    {
      BlockBounds(g, block);
      if block == currentBlock || state[g.First(block)] == ERASED {
        return false;
      }
      var livePages := LivePagesOf(block);
      if |livePages| == g.P {
        return false;
      }
      LiveInExactly(g, D(), block);
      CollectKeepsBase(g, D(), block);
      RelocatePages(livePages);
      PhysicalErase(block);
      return true;
    }

    /** One turn of the pass that began at `start`; `done` says that it reached the low-water mark. */
    method VisitBlock(start: nat, i: nat) returns (done: bool)
      requires kind == LOGGING && Valid() && start < g.N && i < g.N
      modifies this
      ensures Valid()
      ensures done ==> Pass(D(), gcCurrentBlock) == GcPass(g, old(D()), start, i, w.low)
      ensures !done ==> gcCurrentBlock == old(gcCurrentBlock)
      ensures !done ==> GcPass(g, D(), start, i + 1, w.low) == GcPass(g, old(D()), start, i, w.low)
    {
      var block := if start + i < g.N then start + i else start + i - g.N;
      GcPassStep(g, D(), start, i, w.low);
      var cleaned := CollectBlock(block);
      done := false;
      if cleaned {
        var used := BlocksInUse();
        if used <= w.low {
          gcCurrentBlock := block;
          done := true;
        }
      }
    }

    method GarbageCollect()
      requires kind == LOGGING && Valid()
      modifies this
      ensures Valid()
      ensures Pass(D(), gcCurrentBlock) == GcPass(g, old(D()), old(gcCurrentBlock), 0, w.low)
    {
      var start := gcCurrentBlock;
      for i := 0 to g.N
        invariant Valid() && gcCurrentBlock == start
        invariant GcPass(g, D(), start, i, w.low) == GcPass(g, old(D()), start, 0, w.low)
      {
        var done := VisitBlock(start, i);
        if done {
          return;
        }
      }
    }

    /**
     Between commands. It shows nothing to users when a block is free or the first block
     collected fits; GcExactly says that otherwise it breaks the maps.
     */
    method Upkeep()
      requires Valid()
      modifies this
      ensures Valid()
      ensures kind == LOGGING ==> Pass(D(), gcCurrentBlock) == FlashRun.Upkeep(g, w, old(D()), old(gcCurrentBlock))
      ensures kind == LOGGING && old(Agree(g, D()))
              && (old(Ones(gcUsedBlocks)) >= w.high ==> old(FirstFits(g, D(), gcCurrentBlock, 0))) ==>
                Agree(g, D()) && Pages() == old(Pages()) && logicalWriteFailSum == old(logicalWriteFailSum)
      ensures kind != LOGGING ==> D() == old(D())
    {
      var used := BlocksInUse();
      if kind != LOGGING {
        SumZero(gcUsedBlocks, ID);
      } else if old(Agree(g, D())) && (used >= w.high ==> FirstFits(g, D(), gcCurrentBlock, 0)) {
        UpkeepIsInvisible(g, w, D(), gcCurrentBlock);
      }
      if used >= w.high {
        GarbageCollect();
      }
    }

    // ---------- Update in place ----------

    method SaveBlock(block: nat) returns (oldList: seq<(nat, Data)>)
      requires Sizes(g, D()) && block < g.N
      ensures Backup(oldList, g.First(block), g.First(block) + g.P, state, data)
    {
      BlockBounds(g, block);
      var begin := g.First(block);
      oldList := [];
      for oldPage := begin to begin + g.P
        invariant oldPage <= g.NumPages()
        invariant Backup(oldList, begin, oldPage, state, data)
      {
        if state[oldPage] == VALID {
          BackupExtend(oldList, begin, oldPage, state, data);
          var oldData := PhysicalRead(oldPage);
          oldList := oldList + [(oldPage, oldData)];
        }
      }
    }

    method RestoreBlock(oldList: seq<(nat, Data)>, page: nat, begin: nat, end: nat,
                        ghost state0: seq<PageState>, ghost data0: seq<Data>)
      requires |state| == |data| == |state0|
      requires Backup(oldList, begin, end, state0, data0)
      modifies this`state, this`data
      ensures |state| == |data| == |state0|
      ensures forall p :: begin <= p < end && p != page && state0[p] == VALID ==>
                state[p] == VALID && data[p] == data0[p]
      ensures forall p :: 0 <= p < |state| && !(begin <= p < end) ==>
                state[p] == old(state)[p] && data[p] == old(data)[p]
    {
      for i := 0 to |oldList|
        invariant |state| == |data| == |state0|
        invariant forall k :: 0 <= k < i && oldList[k].0 != page ==>
            state[oldList[k].0] == VALID && data[oldList[k].0] == data0[oldList[k].0]
        invariant forall p :: 0 <= p < |state| && !(begin <= p < end) ==>
            state[p] == old(state)[p] && data[p] == old(data)[p]
      {
        var (oldPage, oldData) := oldList[i];
        if oldPage != page {
          data := data[oldPage := oldData];
          state := state[oldPage := VALID];
        }
      }
    }

    /** Rewriting a page in place: its block is saved, erased and programmed again around it. */
    method WriteDirect(page: nat, x: Data) returns (rc: Reply)
      requires InPlace(g, D()) && page < g.L
      modifies this
      ensures InPlace(g, D()) && rc == Success && Pages() == old(Pages())[page := x]
      ensures gcCurrentBlock == old(gcCurrentBlock)
    {
      var block := page / g.P;
      BlockOf(g, page);
      BlockBounds(g, block);
      ghost var state0, data0 := state, data;
      var oldList := SaveBlock(block);
      PhysicalErase(block);
      assert gcUsedBlocks == old(gcUsedBlocks);
      RestoreBlock(oldList, page, g.First(block), g.First(block) + g.P, state0, data0);
      PhysicalProgram(page, x);
      forwardMap := forwardMap[page := page];
      reverseMap := reverseMap[page := page];
      InPlaceUpdate(g, old(D()), D(), page, x);
      return Success;
    }

    method WriteIdeal(page: nat, x: Data) returns (rc: Reply)
      requires InPlace(g, D()) && page < g.L
      modifies this
      ensures InPlace(g, D()) && rc == Success && Pages() == old(Pages())[page := x]
      ensures gcCurrentBlock == old(gcCurrentBlock)
    {
      PhysicalProgram(page, x);
      forwardMap := forwardMap[page := page];
      reverseMap := reverseMap[page := page];
      return Success;
    }

    // ---------- The interface ----------

    /**
     An accepted write is a map update in every mode: here for the two that update in place,
     in ExecIsMapStep for the log, which alone may refuse one.
     */
    method Write(address: int, x: Data) returns (rc: Reply)
      requires Valid()
      modifies this
      ensures Valid() && gcCurrentBlock == old(gcCurrentBlock)
      ensures kind == LOGGING ==> (D(), rc) == Exec(g, old(D()), Cmd.Write(address, x))
      ensures kind != LOGGING ==> rc == if 0 <= address < g.L then Success else IllegalAddress
      ensures kind != LOGGING ==> Pages() == if rc == Success then old(Pages())[address := x] else old(Pages())
    {
      if address < 0 || address >= g.L {
        logicalWriteFailSum := logicalWriteFailSum + 1;
        rc := IllegalAddress;
        if kind == LOGGING {
          ShapesIgnoreFails(g, old(D()));
        }
      } else if kind == DIRECT {
        rc := WriteDirect(address, x);
      } else if kind == IDEAL {
        rc := WriteIdeal(address, x);
      } else {
        LogWriteIsUpdate(g, D(), address, x);
        rc := WriteLogging(address, x);
      }
    }

    method Read(address: int) returns (rc: Reply)
      requires Valid()
      ensures kind == LOGGING ==> (D(), rc) == Exec(g, D(), Cmd.Read(address))
      ensures ReplyFits(g.L, Pages(), Cmd.Read(address), rc)
    {
      if address < 0 || address >= g.L {
        return IllegalAddress;
      }
      if forwardMap[address] == -1 {
        return Uninitialized;
      }
      var x := PhysicalRead(forwardMap[address]);
      return Contents(x);
    }

    method Trim(address: int) returns (rc: Reply)
      requires Valid()
      modifies this`forwardMap
      ensures Valid()
      ensures kind == LOGGING ==> (D(), rc) == Exec(g, old(D()), Cmd.Trim(address))
      ensures ReplyFits(g.L, old(Pages()), Cmd.Trim(address), rc)
      ensures Pages() == old(Pages()) - {address}
    {
      if address < 0 || address >= g.L {
        return IllegalAddress;
      }
      if forwardMap[address] == -1 {
        return Uninitialized;
      }
      if kind == LOGGING {
        TrimKeepsBase(g, D(), address);
      }
      TrimIsRemoval(g, D(), address);
      forwardMap := forwardMap[address := -1];
      return Success;
    }

    method Do(c: Cmd) returns (rc: Reply)
      requires Valid()
      modifies this
      ensures Valid() && gcCurrentBlock == old(gcCurrentBlock)
      ensures kind == LOGGING ==> (D(), rc) == Exec(g, old(D()), c)
      ensures kind != LOGGING ==>
                ReplyFits(g.L, old(Pages()), c, rc) && rc != DeviceFull && Pages() == MapAfter(old(Pages()), c, rc)
    {
      match c
      case Read(a) => rc := Read(a);
      case Write(a, x) => rc := Write(a, x);
      case Trim(a) => rc := Trim(a);
    }

    /** The body of the main loop: every command is followed by upkeep. */
    method Turn(c: Cmd) returns (rc: Reply)
      requires Valid()
      modifies this
      ensures Valid()
      ensures kind == LOGGING ==>
                && rc == Exec(g, old(D()), c).1
                && Pass(D(), gcCurrentBlock) == FlashRun.Turn(g, w, old(D()), old(gcCurrentBlock), c)
      ensures kind != LOGGING ==>
                ReplyFits(g.L, old(Pages()), c, rc) && rc != DeviceFull && Pages() == MapAfter(old(Pages()), c, rc)
    {
      rc := Do(c);
      Upkeep();
    }

    /** The main loop. A log-structured device replies as the specified run, of which RunIsExplained speaks; the
        others reply as a map does and are never full. */
    method RunCommands(cmds: seq<Cmd>) returns (replies: seq<Reply>)
      requires Valid()
      modifies this
      ensures Valid()
      ensures kind == LOGGING ==> replies == Run(g, w, old(D()), old(gcCurrentBlock), cmds)
      ensures kind == LOGGING ==> D() == AfterRun(g, w, old(D()), old(gcCurrentBlock), cmds)
      ensures kind != LOGGING ==> Explained(g.L, old(Pages()), cmds, replies) && DeviceFull !in replies
    {
      ghost var d, next, m := D(), gcCurrentBlock, Pages();
      replies := [];
      assert cmds[0..] == cmds;
      LeadsAtStart(g.L, m, cmds);
      for i := 0 to |cmds|
        invariant Valid()
        invariant kind == LOGGING ==> RunLeads(g, w, d, next, cmds, replies, D(), gcCurrentBlock, cmds[i..])
        invariant kind != LOGGING ==> MapLeads(g.L, m, cmds, replies, Pages(), cmds[i..])
      {
        ghost var d0, n0, m0, rest := D(), gcCurrentBlock, Pages(), cmds[i..];
        assert rest[0] == cmds[i] && rest[1..] == cmds[i + 1..];
        var rc := Turn(cmds[i]);
        if kind == LOGGING {
          RunLeadsOn(g, w, d, next, cmds, replies, d0, n0, rest);
        } else {
          MapLeadsOn(g.L, m, cmds, replies, m0, rest, rc);
        }
        replies := replies + [rc];
      }
      if kind == LOGGING {
        RunLeadsToEnd(g, w, d, next, cmds, replies, D(), gcCurrentBlock);
      } else {
        MapLeadsToEnd(g.L, m, cmds, replies, Pages());
      }
    }
  }

  /** The replies so far begin those of a whole run, and the rest of the run gives the others. */
  ghost predicate RunLeads(g: Geo, w: Marks, d: Dev, next: nat, cmds: seq<Cmd>, replies: seq<Reply>, d1: Dev,
                           next1: nat, rest: seq<Cmd>)
    requires Base(g, d) && next < g.N && Base(g, d1) && next1 < g.N
  {
    && replies + Run(g, w, d1, next1, rest) == Run(g, w, d, next, cmds)
    && AfterRun(g, w, d1, next1, rest) == AfterRun(g, w, d, next, cmds)
  }

  lemma RunLeadsOn(g: Geo, w: Marks, d: Dev, next: nat, cmds: seq<Cmd>, replies: seq<Reply>, d1: Dev, next1: nat,
                   rest: seq<Cmd>)
    requires Base(g, d) && next < g.N && Base(g, d1) && next1 < g.N && rest != []
    requires RunLeads(g, w, d, next, cmds, replies, d1, next1, rest)
    ensures var p := FlashRun.Turn(g, w, d1, next1, rest[0]);
            RunLeads(g, w, d, next, cmds, replies + [Exec(g, d1, rest[0]).1], p.d, p.next, rest[1..])
  {
    var p, rc := FlashRun.Turn(g, w, d1, next1, rest[0]), Exec(g, d1, rest[0]).1;
    var others := Run(g, w, p.d, p.next, rest[1..]);
    assert replies + ([rc] + others) == replies + [rc] + others;
  }

  lemma RunLeadsToEnd(g: Geo, w: Marks, d: Dev, next: nat, cmds: seq<Cmd>, replies: seq<Reply>, d1: Dev, next1: nat)
    requires Base(g, d) && next < g.N && Base(g, d1) && next1 < g.N
    requires RunLeads(g, w, d, next, cmds, replies, d1, next1, [])
    ensures replies == Run(g, w, d, next, cmds) && d1 == AfterRun(g, w, d, next, cmds)
  {
  }

  /** Replies a map explains after those so far are explained with them; none is a refusal of a full device. */
  ghost predicate MapLeads(L: nat, m: map<int, Data>, cmds: seq<Cmd>, replies: seq<Reply>, m1: map<int, Data>,
                           rest: seq<Cmd>) {
    && DeviceFull !in replies
    && forall others :: Explained(L, m1, rest, others) ==> Explained(L, m, cmds, replies + others)
  }

  lemma LeadsAtStart(L: nat, m: map<int, Data>, cmds: seq<Cmd>)
    ensures MapLeads(L, m, cmds, [], m, cmds)
  {
    forall others | Explained(L, m, cmds, others)
      ensures Explained(L, m, cmds, [] + others)
    {
      assert [] + others == others;
    }
  }

  lemma MapLeadsToEnd(L: nat, m: map<int, Data>, cmds: seq<Cmd>, replies: seq<Reply>, m1: map<int, Data>)
    requires MapLeads(L, m, cmds, replies, m1, [])
    ensures Explained(L, m, cmds, replies) && DeviceFull !in replies
  {
    assert Explained(L, m1, [], []) && replies + [] == replies;
  }

  lemma MapLeadsOn(L: nat, m: map<int, Data>, cmds: seq<Cmd>, replies: seq<Reply>, m1: map<int, Data>, rest: seq<Cmd>,
                   rc: Reply)
    requires rest != [] && ReplyFits(L, m1, rest[0], rc) && rc != DeviceFull && MapLeads(L, m, cmds, replies, m1, rest)
    ensures MapLeads(L, m, cmds, replies + [rc], MapAfter(m1, rest[0], rc), rest[1..])
  {
    forall others | Explained(L, MapAfter(m1, rest[0], rc), rest[1..], others)
      ensures Explained(L, m, cmds, replies + [rc] + others)
    {
      assert ([rc] + others)[1..] == others;
      assert Explained(L, m1, rest, [rc] + others);
      assert replies + ([rc] + others) == replies + [rc] + others;
    }
  }

  /** A write that leaves every other programmed page alone is a map update. */
  lemma InPlaceUpdate(g: Geo, d: Dev, d': Dev, page: nat, x: Data)
    requires InPlace(g, d) && Sizes(g, d') && page < g.L
    requires d'.used == d.used && d'.fwd == d.fwd[page := page] && d'.rev == d.rev[page := page]
    requires d'.state[page] == VALID && d'.data[page] == x
    requires forall p :: 0 <= p < g.NumPages() && p != page && d.state[p] == VALID ==>
        d'.state[p] == VALID && d'.data[p] == d.data[p]
    ensures InPlace(g, d') && View(g, d') == View(g, d)[page := x]
  {
  }

  /** The saved pages are exactly the programmed pages in [begin, end) with their data. */
  ghost predicate Backup(saved: seq<(nat, Data)>, begin: nat, end: nat, state: seq<PageState>, data: seq<Data>)
  {
    && begin <= end <= |state| == |data|
    && (forall k :: 0 <= k < |saved| ==>
          begin <= saved[k].0 < end && state[saved[k].0] == VALID && saved[k].1 == data[saved[k].0])
    && (forall p :: begin <= p < end && state[p] == VALID ==> exists k :: 0 <= k < |saved| && saved[k].0 == p)
  }

  lemma BackupExtend(saved: seq<(nat, Data)>, begin: nat, page: nat, state: seq<PageState>, data: seq<Data>)
    requires Backup(saved, begin, page, state, data)
    requires page < |state| && state[page] == VALID
    ensures Backup(saved + [(page, data[page])], begin, page + 1, state, data)
  {
    var saved' := saved + [(page, data[page])];
    forall p | begin <= p < page + 1 && state[p] == VALID
      ensures exists k :: 0 <= k < |saved'| && saved'[k].0 == p
    {
      if p == page {
        assert saved'[|saved|].0 == p;
      } else {
        var k :| 0 <= k < |saved| && saved[k].0 == p;
        assert saved'[k].0 == p;
      }
    }
  }

  lemma BlockOf(g: Geo, page: nat)
    requires g.Ok() && page < g.NumPages()
    ensures page / g.P < g.N && InBlock(g, page / g.P, page)
  {
    Euclid(page, g.P);
    if page / g.P >= g.N {
      MulMono(g.N, page / g.P, g.P);
    }
  }

  /** When no block is half written, the first page tells whether a block is free. */
  lemma FreeByState(g: Geo, d: Dev, b: nat)
    requires Base(g, d) && d.curPage == -1 && b < g.N
    ensures g.First(b) < g.NumPages()
    ensures d.used[b] == 0 <==> d.state[g.First(b)] != VALID
  {
    BlockBounds(g, b);
    assert Shape(g, d, b);
    assert InBlock(g, b, g.First(b));
  }
}
