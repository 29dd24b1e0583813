/** The OS class of paging-multilevel-translate.py: allocation writes frames and tables in place. */
module PageTableOs {
  import opened Bitmaps
  import opened Sums
  import opened Collections
  import opened PageTable

  /** The two table indices of a virtual page. */
  function Pde(vp: bv16): (r: nat)
    ensures r < PAGE_SIZE
  {
    PdeBits(vp << 5)
  }

  function Pte(vp: bv16): (r: nat)
    ensures r < PAGE_SIZE
  {
    PteBits(vp << 5)
  }

  /** The directory slots a list of virtual pages needs. */
  ghost function TablesFor(vps: seq<bv16>): set<nat> {
    set vp | vp in vps :: Pde(vp)
  }

  /** Some page of the list has these indices. */
  ghost predicate Lists(vps: seq<bv16>, d: nat, i: nat) {
    exists vp :: vp in vps && d == Pde(vp) && i == Pte(vp)
  }

  ghost predicate GoodVps(vps: seq<bv16>) {
    && (forall j :: 0 <= j < |vps| ==> vps[j] < 1024)
    && (forall j, k :: 0 <= j < k < |vps| ==> vps[j] != vps[k])
  }

  // ---------- Operations on the system as a value ----------

  /** The used-page list is determined by the frames' roles. */
  function UsedOf(role: seq<Role>): (r: seq<int>)
    ensures |r| == |role| && Bits(r)
  {
    seq(|role|, f requires 0 <= f < |role| => if role[f] == Free then 0 else 1)
  }

  lemma UsedAfterReserve(role: seq<Role>, f: nat, r: Role)
    requires f < |role| && role[f] == Free && r != Free
    ensures UsedOf(role[f := r]) == UsedOf(role)[f := 1]
    ensures Ones(UsedOf(role[f := r])) == Ones(UsedOf(role)) + 1
  {
    assert UsedOf(role[f := r]) == UsedOf(role)[f := 1];
    SumUpdate(UsedOf(role), f, 1, ID);
  }

  /** Every data frame outside `touched` keeps its role and contents. */
  ghost predicate OthersKept(s: Sys, s': Sys, touched: set<nat>) {
    forall g: nat :: g !in touched ==> FrameKept(s, s', g)
  }

  /** If `g` is a data frame it still is that one, with the same contents. */
  ghost predicate FrameKept(s: Sys, s': Sys, g: nat) {
    && Sized(s) && Sized(s')
    && (g < PHYS_PAGES && s.role[g].Data? ==>
          s'.role[g] == s.role[g] && forall i: nat :: i < PAGE_SIZE ==> Slot(s'.memory, g, i) == Slot(s.memory, g, i))
  }

  /** Data frames of processes other than `pid` keep their role and contents. */
  ghost predicate KeptFor(s: Sys, s': Sys, pid: int) {
    && Sized(s) && Sized(s')
    && forall g: nat :: g < PHYS_PAGES && s.role[g].Data? && s.role[g].pid != pid ==> FrameKept(s, s', g)
  }

  lemma NewDirKeepsOthers(s: Sys, pid: int, f: nat)
    requires Inv(s) && IsFree(s, f)
    ensures KeptFor(s, NewDir(s, pid, f), pid)
  {
    SlotAfterInit(s.memory, f);
  }

  lemma NewDirCounts(s: Sys, pid: int, f: nat)
    requires Sized(s) && IsFree(s, f)
    ensures UsedOf(NewDir(s, pid, f).role) == UsedOf(s.role)[f := 1]
    ensures Ones(UsedOf(NewDir(s, pid, f).role)) == Ones(UsedOf(s.role)) + 1
  {
    assert UsedOf(NewDir(s, pid, f).role) == UsedOf(s.role)[f := 1];
    SumUpdate(UsedOf(s.role), f, 1, ID);
  }

  /** The system with a table page for slot `d`, in frame `pt` if it had none. */
  function WithTable(s: Sys, pid: int, d: nat, pt: nat): Sys
    requires Sized(s) && pid in s.pdbr && s.pdbr[pid] < PHYS_PAGES && d < PAGE_SIZE
  {
    if (pid, d) in s.tables || !IsFree(s, pt) then s else NewTable(s, pid, d, pt)
  }

  /** Reserving frame `pp`, finding a table page, entering the translation and filling the frame. */
  ghost predicate OnePage(s: Sys, s': Sys, pid: int, d: nat, i: nat) {
    && Inv(s) && Inv(s')
    && s'.pdbr == s.pdbr
    && s'.pages.Keys == s.pages.Keys + {(pid, d, i)}
    && (forall k :: k in s.pages && k != (pid, d, i) ==> k in s'.pages && s'.pages[k] == s.pages[k])
    && s'.tables.Keys == s.tables.Keys + {(pid, d)}
    && OthersKept(s, s', {})
    && Ones(UsedOf(s'.role)) == Ones(UsedOf(s.role)) + if (pid, d) in s.tables then 1 else 2
  }

  lemma WithTableFacts(s: Sys, pid: int, d: nat, pt: nat)
    requires Inv(s) && pid in s.pdbr && d < PAGE_SIZE && ((pid, d) in s.tables || IsFree(s, pt))
    ensures s.pdbr[pid] < PHYS_PAGES
    ensures var s' := WithTable(s, pid, d, pt);
            && Inv(s') && s'.pdbr == s.pdbr && s'.pages == s.pages
            && (pid, d) in s'.tables && s'.tables.Keys == s.tables.Keys + {(pid, d)}
            && OthersKept(s, s', {})
            && Ones(UsedOf(s'.role)) == Ones(UsedOf(s.role)) + if (pid, d) in s.tables then 0 else 1
  {
    assert PidOk(s, pid);
    if (pid, d) !in s.tables {
      NewTableKeeps(s, pid, d, pt);
      UsedAfterReserve(s.role, pt, Table(pid, d));
      forall g: nat
        ensures FrameKept(s, NewTable(s, pid, d, pt), g)
      {
        if g < PHYS_PAGES && s.role[g].Data? {
          forall i: nat | i < PAGE_SIZE
            ensures Slot(NewTable(s, pid, d, pt).memory, g, i) == Slot(s.memory, g, i)
          {
            NewTableSlots(s, pid, d, pt, g, i);
          }
        }
      }
    }
  }

  lemma NewPageKeepsOthers(s: Sys, pid: int, d: nat, i: nat, f: nat)
    requires Inv(s) && f < PHYS_PAGES && (pid, d) in s.tables && i < PAGE_SIZE
    ensures s.tables[(pid, d)] < PHYS_PAGES
    ensures OthersKept(s, NewPage(s, pid, d, i, f), {})
  {
    assert TableOk(s, pid, d);
    SlotAfterPut(s.memory, s.tables[(pid, d)], i, MakeEntry(f));
  }

  lemma ReserveKeepsOthers(s: Sys, f: nat, r: Role)
    requires Inv(s) && IsFree(s, f)
    ensures OthersKept(s, s.(role := s.role[f := r]), {})
  {
  }

  lemma KeptChain(s0: Sys, s1: Sys, s2: Sys, s3: Sys, s4: Sys, f: nat)
    requires OthersKept(s0, s1, {}) && OthersKept(s1, s2, {}) && OthersKept(s2, s3, {}) && OthersKept(s3, s4, {f})
    requires Sized(s0) && Sized(s4) && f < PHYS_PAGES && !s0.role[f].Data?
    ensures OthersKept(s0, s4, {})
  {
    forall g: nat
      ensures FrameKept(s0, s4, g)
    {
      assert FrameKept(s0, s1, g) && FrameKept(s1, s2, g) && FrameKept(s2, s3, g);
      assert g != f ==> FrameKept(s3, s4, g);
    }
  }

  /** The steps of one allocation, put together. */
  lemma OnePageFacts(s: Sys, pid: int, d: nat, i: nat, pp: nat, pt: nat, s': Sys)
    requires Inv(s) && pid in s.pdbr && s.pdbr[pid] < PHYS_PAGES && d < PAGE_SIZE && i < PAGE_SIZE
    requires (pid, d, i) !in s.pages && IsFree(s, pp)
    requires Inv(s.(role := s.role[pp := Data(pid, d, i)]))
    requires var s1 := s.(role := s.role[pp := Data(pid, d, i)]);
             && ((pid, d) in s.tables || IsFree(s1, pt))
             && var s2 := WithTable(s1, pid, d, pt);
                && Inv(s2) && (pid, d) in s2.tables && s2.tables[(pid, d)] < PHYS_PAGES
                && s2.role[pp] == Data(pid, d, i)
                && s' == NewPage(s2, pid, d, i, pp).(memory := s'.memory)
                && Inv(s') && OthersKept(NewPage(s2, pid, d, i, pp), s', {pp})
    ensures OnePage(s, s', pid, d, i)
  {
    var s1 := s.(role := s.role[pp := Data(pid, d, i)]);
    ReserveKeepsOthers(s, pp, Data(pid, d, i));
    UsedAfterReserve(s.role, pp, Data(pid, d, i));
    WithTableFacts(s1, pid, d, pt);
    var s2 := WithTable(s1, pid, d, pt);
    NewPageKeepsOthers(s2, pid, d, i, pp);
    KeptChain(s, s1, s2, NewPage(s2, pid, d, i, pp), s', pp);
  }

  class OS {
    var memory: seq<Byte>
    var usedPages: seq<int>
    var usedPagesCount: int
    var pdbr: map<int, nat>
    ghost var role: seq<Role>
    ghost var tables: map<(int, nat), nat>
    ghost var pages: map<(int, nat, nat), nat>

    ghost function S(): Sys
      reads this
    {
      Sys(memory, role, pdbr, tables, pages)
    }

    ghost predicate Valid()
      reads this
    {
      && Inv(S())
      && usedPages == UsedOf(role)
      && usedPagesCount == Ones(usedPages)
    }

    constructor ()
      ensures Valid()
      ensures usedPagesCount == 0 && pdbr == map[] && pages == map[] && tables == map[]
    {
      memory := seq(PAGE_SIZE * PHYS_PAGES, _ => 0);
      usedPages := seq(PHYS_PAGES, _ => 0);
      usedPagesCount := 0;
      pdbr := map[];
      role := seq(PHYS_PAGES, _ => Free);
      tables := map[];
      pages := map[];
      new;
      assert usedPages == UsedOf(role);
      SumZero(usedPages, ID);
    }

    /** A free frame, or failure of the assert when there is none. */
    method FindFree(ghost r: Role) returns (ok: bool, look: nat)
      requires Valid() && r != Free
      modifies this`usedPages, this`usedPagesCount, this`role
      ensures Valid()
      ensures ok <==> old(usedPagesCount) < PHYS_PAGES
      ensures ok ==> look < PHYS_PAGES && old(role)[look] == Free && role == old(role)[look := r]
      ensures ok ==> usedPagesCount == old(usedPagesCount) + 1
      ensures !ok ==> S() == old(S()) && usedPagesCount == old(usedPagesCount)
    {
      if !(usedPagesCount < PHYS_PAGES) {
        return false, 0;
      }
      BitsCount(usedPages);
      look :| 0 <= look < PHYS_PAGES && usedPages[look] == 0;
      UsedAfterReserve(role, look, r);
      ReserveKeeps(S(), look, r);
      usedPagesCount := usedPagesCount + 1;
      usedPages := usedPages[look := 1];
      role := role[look := r];
      ok := true;
    }

    method InitPageDir(whichPage: nat)
      requires |memory| == PAGE_SIZE * PHYS_PAGES && whichPage < PHYS_PAGES
      modifies this`memory
      ensures memory == InitFrame(old(memory), whichPage)
    {
      var whichByte := PAGE_SIZE * whichPage;
      for i := whichByte to whichByte + PAGE_SIZE
        invariant |memory| == PAGE_SIZE * PHYS_PAGES
        invariant forall j :: 0 <= j < |memory| ==>
                    memory[j] == if whichByte <= j < i then INVALID_ENTRY else old(memory)[j]
      {
        memory := memory[i := INVALID_ENTRY];
      }
    }

    method GetPageDirEntry(pid: int, pdeBits: nat) returns (valid: nat, ptPtr: nat, pdeAddr: nat)
      requires |memory| == PAGE_SIZE * PHYS_PAGES && pid in pdbr && pdbr[pid] < PHYS_PAGES && pdeBits < PAGE_SIZE
      ensures pdeAddr == PAGE_SIZE * pdbr[pid] + pdeBits
      ensures valid == ValidBit(Slot(memory, pdbr[pid], pdeBits))
      ensures ptPtr == Pfn(Slot(memory, pdbr[pid], pdeBits))
    {
      pdeAddr := Join(pdbr[pid], pdeBits);
      var pde := memory[pdeAddr];
      valid, ptPtr := ValidBit(pde), Pfn(pde);
    }

    method GetPageTableEntry(pteBits: nat, ptePage: nat) returns (valid: nat, pfn: nat, pteAddr: nat)
      requires |memory| == PAGE_SIZE * PHYS_PAGES && ptePage < PHYS_PAGES && pteBits < PAGE_SIZE
      ensures pteAddr == PAGE_SIZE * ptePage + pteBits
      ensures valid == ValidBit(Slot(memory, ptePage, pteBits))
      ensures pfn == Pfn(Slot(memory, ptePage, pteBits))
    {
      pteAddr := Join(ptePage, pteBits);
      var pte := memory[pteAddr];
      valid, pfn := ValidBit(pte), Pfn(pte);
    }

    /** Translation of any address of a process, found by the two reads. */
    method Translation(pid: int, virtualAddr: bv16) returns (paddr: int)
      requires Valid() && pid in pdbr
      ensures pdbr[pid] < PHYS_PAGES && paddr == Translate(S(), pid, virtualAddr)
    {
      var pdeBits, pteBits, offset := PdeBits(virtualAddr), PteBits(virtualAddr), OffsetBits(virtualAddr);
      DirEntry(S(), pid, pdeBits);
      var valid, ptPtr, pdeAddr := GetPageDirEntry(pid, pdeBits);
      if valid == 1 {
        var pteValid, pfn, pteAddr := GetPageTableEntry(pteBits, ptPtr);
        if pteValid == 1 {
          return Join(pfn, offset);
        }
        return -2;
      }
      return -1;
    }

    /** A new page-table page for an empty directory slot: the entry first, then the page. */
    method NewTablePage(pid: int, ghost d: nat, pdeAddr: nat) returns (ok: bool, ptePage: nat)
      requires Valid() && pid in pdbr && d < PAGE_SIZE && (pid, d) !in tables && pdeAddr == PAGE_SIZE * pdbr[pid] + d
      modifies this`memory, this`usedPages, this`usedPagesCount, this`role, this`tables
      ensures Valid() && pdbr[pid] < PHYS_PAGES
      ensures ok <==> old(usedPagesCount) < PHYS_PAGES
      ensures ok ==> IsFree(old(S()), ptePage) && S() == NewTable(old(S()), pid, d, ptePage)
      ensures !ok ==> S() == old(S())
    {
      ghost var s0 := S();
      assert PidOk(s0, pid);
      ok, ptePage := FindFree(Table(pid, d));
      if ok {
        NewTableKeeps(s0, pid, d, ptePage);
        memory := memory[pdeAddr := MakeEntry(ptePage)];
        InitPageDir(ptePage);
        tables := tables[(pid, d) := ptePage];
        assert S() == NewTable(s0, pid, d, ptePage);
      }
    }

    /** The page-table page of a directory slot, new if the slot is empty. */
    method TablePage(pid: int, d: nat) returns (ok: bool, ptePage: nat)
      requires Valid() && pid in pdbr && d < PAGE_SIZE
      modifies this`memory, this`usedPages, this`usedPagesCount, this`role, this`tables
      ensures Valid() && pdbr[pid] < PHYS_PAGES
      ensures ok <==> (pid, d) in old(tables) || old(usedPagesCount) < PHYS_PAGES
      ensures ok ==> (pid, d) in old(tables) || IsFree(old(S()), ptePage)
      ensures ok ==> S() == WithTable(old(S()), pid, d, ptePage)
      ensures ok ==> (pid, d) in tables && tables[(pid, d)] == ptePage < PHYS_PAGES
      ensures !ok ==> S() == old(S())
    {
      DirEntry(S(), pid, d);
      var valid, ptPtr, pdeAddr := GetPageDirEntry(pid, d);
      if valid != 0 {
        return true, ptPtr;
      }
      assert ptPtr == 127;
      ok, ptePage := NewTablePage(pid, d, pdeAddr);
    }

    /** Enters a translation into its table slot; fails only when it needs a table page and no frame is free. */
    method EnterPage(pid: int, d: nat, i: nat, physicalPage: nat) returns (ok: bool, ghost pt: nat)
      requires Valid() && pid in pdbr && d < PAGE_SIZE && i < PAGE_SIZE
      requires physicalPage < PHYS_PAGES && role[physicalPage] == Data(pid, d, i) && (pid, d, i) !in pages
      modifies this`memory, this`usedPages, this`usedPagesCount, this`role, this`tables, this`pages
      ensures Valid() && pdbr[pid] < PHYS_PAGES
      ensures ok <==> (pid, d) in old(tables) || old(usedPagesCount) < PHYS_PAGES
      ensures ok ==> (pid, d) in old(tables) || IsFree(old(S()), pt)
      ensures ok ==>
                var s2 := WithTable(old(S()), pid, d, pt);
                && Inv(s2) && (pid, d) in s2.tables && s2.tables[(pid, d)] < PHYS_PAGES
                && s2.role[physicalPage] == Data(pid, d, i)
                && S() == NewPage(s2, pid, d, i, physicalPage)
    {
      var ptePage;
      ok, ptePage := TablePage(pid, d);
      pt := ptePage;
      if ok {
        ghost var s2 := S();
        TableEntry(s2, pid, d, i);
        NewPageKeeps(s2, pid, d, i, physicalPage);
        var valid, pfn, pteAddr := GetPageTableEntry(i, ptePage);
        assert valid == 0 && pfn == 127;
        memory := memory[pteAddr := MakeEntry(physicalPage)];
        pages := pages[(pid, d, i) := physicalPage];
        assert S() == NewPage(s2, pid, d, i, physicalPage);
      }
    }

    /** Maps a virtual page to a frame set aside for it. */
    method AllocVirtualPage(pid: int, vp: bv16, physicalPage: nat) returns (ok: bool, ghost pt: nat)
      requires Valid() && pid in pdbr && vp < 1024
      requires physicalPage < PHYS_PAGES && role[physicalPage] == Data(pid, Pde(vp), Pte(vp))
      requires (pid, Pde(vp), Pte(vp)) !in pages
      modifies this`memory, this`usedPages, this`usedPagesCount, this`role, this`tables, this`pages
      ensures Valid() && pdbr[pid] < PHYS_PAGES
      ensures ok <==> (pid, Pde(vp)) in old(tables) || old(usedPagesCount) < PHYS_PAGES
      ensures ok ==> (pid, Pde(vp)) in old(tables) || IsFree(old(S()), pt)
      ensures ok ==>
                var s2 := WithTable(old(S()), pid, Pde(vp), pt);
                && Inv(s2) && (pid, Pde(vp)) in s2.tables && s2.tables[(pid, Pde(vp))] < PHYS_PAGES
                && s2.role[physicalPage] == Data(pid, Pde(vp), Pte(vp))
                && S() == NewPage(s2, pid, Pde(vp), Pte(vp), physicalPage)
    {
      var virtualAddr := vp << 5;
      ok, pt := EnterPage(pid, PdeBits(virtualAddr), PteBits(virtualAddr), physicalPage);
    }

    /** Fills a data frame with arbitrary values. */
    method FillPage(whichPage: nat)
      requires Valid() && whichPage < PHYS_PAGES && role[whichPage].Data?
      modifies this`memory
      ensures Valid()
      ensures OthersKept(old(S()), S(), {whichPage})
    {
      for j := 0 to PAGE_SIZE
        invariant Valid()
        invariant OthersKept(old(S()), S(), {whichPage})
      {
        var b: Byte :| b < 31;
        DataWriteKeeps(S(), whichPage, j, b);
        SlotAfterPut(memory, whichPage, j, b);
        memory := memory[PAGE_SIZE * whichPage + j := b];
      }
    }

    /** One turn of the allocation loop: it needs one frame, or two when the page starts a new table. */
    method AllocOne(pid: int, vp: bv16) returns (ok: bool)
      requires Valid() && pid in pdbr && vp < 1024 && (pid, Pde(vp), Pte(vp)) !in pages
      modifies this`memory, this`usedPages, this`usedPagesCount, this`role, this`tables, this`pages
      ensures Valid()
      ensures ok <==> old(usedPagesCount) + (if (pid, Pde(vp)) in old(tables) then 1 else 2) <= PHYS_PAGES
      ensures ok ==> OnePage(old(S()), S(), pid, Pde(vp), Pte(vp))
    {
      ghost var s0, d, i := S(), Pde(vp), Pte(vp);
      var pp;
      ok, pp := FindFree(Data(pid, d, i));
      if !ok {
        return;
      }
      ghost var pt;
      ok, pt := AllocVirtualPage(pid, vp, pp);
      if ok {
        ghost var s3 := S();
        FillPage(pp);
        OnePageFacts(s0, pid, d, i, pp, pt, S());
      }
    }

    /** A fresh directory for `pid`. */
    method AllocDir(pid: int) returns (ok: bool, ghost f: nat)
      requires Valid()
      modifies this
      ensures Valid()
      ensures ok <==> old(usedPagesCount) < PHYS_PAGES
      ensures ok ==> IsFree(old(S()), f) && S() == NewDir(old(S()), pid, f)
      ensures !ok ==> S() == old(S())
    {
      ghost var s0 := S();
      var pageDir;
      ok, pageDir := FindFree(Dir(pid));
      f := pageDir;
      if ok {
        NewDirKeeps(s0, pid, pageDir);
        NewDirCounts(s0, pid, pageDir);
        UsedAfterReserve(s0.role, pageDir, Dir(pid));
        pdbr := pdbr[pid := pageDir];
        InitPageDir(pageDir);
        ghost var s1 := NewDir(s0, pid, pageDir);
        role, tables, pages := s1.role, s1.tables, s1.pages;
        assert S() == NewDir(s0, pid, pageDir);
      }
    }

    /**
     A process with the given virtual pages, on frames chosen at will. It needs a frame for the
     directory, one a page, and one for each directory slot used, and succeeds exactly when they exist.
     */
    method ProcAlloc(pid: int, vps: seq<bv16>) returns (ok: bool)
      requires Valid() && GoodVps(vps)
      modifies this
      ensures Valid()
      ensures ok <==> old(usedPagesCount) + 1 + |vps| + |TablesFor(vps)| <= PHYS_PAGES
      ensures ok ==> Allocated(old(S()), S(), pid, vps)
    {
      ghost var s0 := S();
      ghost var f;
      ok, f := AllocDir(pid);
      if !ok {
        return;
      }
      AllocatedStart(s0, pid, f);
      for j := 0 to |vps|
        invariant ok && Valid()
        invariant Allocated(s0, S(), pid, vps[..j])
      {
        NotYetMapped(s0, S(), pid, vps, j);
        TablesForNext(vps, j);
        ghost var s1 := S();
        ok := AllocOne(pid, vps[j]);
        if !ok {
          return;
        }
        AllocatedNext(s0, s1, S(), pid, vps, j);
      }
      assert vps[..|vps|] == vps;
      BitsCount(usedPages);
    }
  }

  /**
   From `s0` to `s`: process `pid` has exactly the pages `vps` and the tables they need; every other
   process has the pages it had, on the same frames with the same contents.
   */
  ghost predicate Allocated(s0: Sys, s: Sys, pid: int, vps: seq<bv16>) {
    && Inv(s0) && Inv(s)
    && s.pdbr.Keys == s0.pdbr.Keys + {pid}
    && (forall q :: q in s0.pdbr && q != pid ==> s.pdbr[q] == s0.pdbr[q])
    && (forall q, d: nat :: TableFor(s0, s, pid, vps, q, d))
    && (forall q, d: nat, i: nat :: PageFor(s0, s, pid, vps, q, d, i))
    && KeptFor(s0, s, pid)
    && Ones(UsedOf(s.role)) == Ones(UsedOf(s0.role)) + 1 + |vps| + |TablesFor(vps)|
  }

  ghost predicate TableFor(s0: Sys, s: Sys, pid: int, vps: seq<bv16>, q: int, d: nat) {
    (q, d) in s.tables <==> if q == pid then d in TablesFor(vps) else (q, d) in s0.tables
  }

  ghost predicate PageFor(s0: Sys, s: Sys, pid: int, vps: seq<bv16>, q: int, d: nat, i: nat) {
    && ((q, d, i) in s.pages <==> if q == pid then Lists(vps, d, i) else (q, d, i) in s0.pages)
    && (q != pid && (q, d, i) in s.pages ==> (q, d, i) in s0.pages && s.pages[(q, d, i)] == s0.pages[(q, d, i)])
  }

  lemma AllocatedStart(s0: Sys, pid: int, f: nat)
    requires Inv(s0) && IsFree(s0, f)
    ensures Allocated(s0, NewDir(s0, pid, f), pid, [])
  {
    NewDirKeeps(s0, pid, f);
    NewDirKeepsOthers(s0, pid, f);
    NewDirCounts(s0, pid, f);
    assert TablesFor([]) == {};
  }

  lemma PageForNext(s0: Sys, s: Sys, s': Sys, pid: int, vps: seq<bv16>, vp: bv16, q: int, d: nat, i: nat)
    requires PageFor(s0, s, pid, vps, q, d, i) && (pid, Pde(vp), Pte(vp)) !in s.pages
    requires OnePage(s, s', pid, Pde(vp), Pte(vp))
    ensures PageFor(s0, s', pid, vps + [vp], q, d, i)
  {
    ListsNext(vps, vp, d, i);
  }

  lemma ListsNext(vps: seq<bv16>, vp: bv16, d: nat, i: nat)
    ensures Lists(vps + [vp], d, i) <==> Lists(vps, d, i) || (d == Pde(vp) && i == Pte(vp))
  {
    assert vp in vps + [vp];
    if Lists(vps, d, i) {
      var v :| v in vps && d == Pde(v) && i == Pte(v);
      assert v in vps + [vp];
    }
  }

  lemma TableForNext(s0: Sys, s: Sys, s': Sys, pid: int, vps: seq<bv16>, vp: bv16, q: int, d: nat)
    requires TableFor(s0, s, pid, vps, q, d) && OnePage(s, s', pid, Pde(vp), Pte(vp))
    requires TablesFor(vps + [vp]) == TablesFor(vps) + {Pde(vp)}
    ensures TableFor(s0, s', pid, vps + [vp], q, d)
  {
  }

  lemma AllocatedNext(s0: Sys, s: Sys, s': Sys, pid: int, vps: seq<bv16>, j: nat)
    requires j < |vps| && Allocated(s0, s, pid, vps[..j])
    requires (pid, Pde(vps[j]), Pte(vps[j])) !in s.pages
    requires OnePage(s, s', pid, Pde(vps[j]), Pte(vps[j]))
    ensures Allocated(s0, s', pid, vps[..j + 1])
  {
    var vp, so, now := vps[j], vps[..j], vps[..j + 1];
    TablesForNext(vps, j);
    assert now == so + [vp];
    KeptTrans(s0, s, s', pid);
    forall q, d: nat
      ensures TableFor(s0, s', pid, now, q, d)
    {
      TableForNext(s0, s, s', pid, so, vp, q, d);
    }
    forall q, d: nat, i: nat
      ensures PageFor(s0, s', pid, now, q, d, i)
    {
      PageForNext(s0, s, s', pid, so, vp, q, d, i);
    }
    assert TableFor(s0, s, pid, so, pid, Pde(vp));
  }

  lemma KeptTrans(s: Sys, s1: Sys, s2: Sys, pid: int)
    requires KeptFor(s, s1, pid) && OthersKept(s1, s2, {})
    ensures KeptFor(s, s2, pid)
  {
    assert FrameKept(s1, s2, 0);
    forall g: nat | g < PHYS_PAGES && s.role[g].Data? && s.role[g].pid != pid
      ensures FrameKept(s, s2, g)
    {
      assert FrameKept(s, s1, g) && FrameKept(s1, s2, g);
    }
  }

  lemma NotYetMapped(s0: Sys, s: Sys, pid: int, vps: seq<bv16>, j: nat)
    requires j < |vps| && GoodVps(vps) && Allocated(s0, s, pid, vps[..j])
    ensures (pid, Pde(vps[j]), Pte(vps[j])) !in s.pages
    ensures (pid, Pde(vps[j])) in s.tables <==> Pde(vps[j]) in TablesFor(vps[..j])
  {
    assert PageFor(s0, s, pid, vps[..j], pid, Pde(vps[j]), Pte(vps[j]));
    assert TableFor(s0, s, pid, vps[..j], pid, Pde(vps[j]));
    forall vp | vp in vps[..j]
      ensures Pde(vp) != Pde(vps[j]) || Pte(vp) != Pte(vps[j])
    {
      if Pde(vp) == Pde(vps[j]) && Pte(vp) == Pte(vps[j]) {
        VpnIsIndices(vp, vps[j]);
      }
    }
  }

  lemma TablesForNext(vps: seq<bv16>, j: nat)
    requires j < |vps|
    ensures TablesFor(vps[..j + 1]) == TablesFor(vps[..j]) + {Pde(vps[j])}
    ensures |TablesFor(vps[..j + 1])| == |TablesFor(vps[..j])| + if Pde(vps[j]) in TablesFor(vps[..j]) then 0 else 1
    ensures |TablesFor(vps[..j + 1])| <= |TablesFor(vps)|
    ensures |TablesFor(vps[..j])| <= |TablesFor(vps)|
  {
    assert vps[..j + 1] == vps[..j] + [vps[j]];
    SubsetSize(TablesFor(vps[..j + 1]), TablesFor(vps));
    SubsetSize(TablesFor(vps[..j]), TablesFor(vps));
    AddOne(TablesFor(vps[..j]), Pde(vps[j]));
  }

  lemma AddOne(s: set<nat>, x: nat)
    ensures |s + {x}| == |s| + if x in s then 0 else 1
  {
    if x in s {
      assert s + {x} == s;
    }
  }

  /** Allocating for one process changes no translation of another, nor what is stored there. */
  lemma SlotsSurvive(s0: Sys, s: Sys, pid: int, vps: seq<bv16>, q: int, d: nat, i: nat, offset: nat)
    requires Allocated(s0, s, pid, vps) && q in s0.pdbr && q != pid
    requires d < PAGE_SIZE && i < PAGE_SIZE && offset < PAGE_SIZE
    ensures q in s.pdbr && s.pdbr[q] < PHYS_PAGES && s0.pdbr[q] < PHYS_PAGES
    ensures TranslateAt(s, q, d, i, offset) == TranslateAt(s0, q, d, i, offset)
    ensures var pa := TranslateAt(s0, q, d, i, offset);
            pa >= 0 ==> pa < PAGE_SIZE * PHYS_PAGES && s.memory[pa] == s0.memory[pa]
  {
    TranslateIsMap(s0, q, d, i, offset);
    TranslateIsMap(s, q, d, i, offset);
    assert TableFor(s0, s, pid, vps, q, d) && PageFor(s0, s, pid, vps, q, d, i) && PageOk(s0, q, d, i);
    if (q, d, i) in s0.pages {
      var g := s0.pages[(q, d, i)];
      assert FrameKept(s0, s, g);
      assert Slot(s.memory, g, offset) == Slot(s0.memory, g, offset);
    }
  }

  lemma TranslationsSurvive(s0: Sys, s: Sys, pid: int, vps: seq<bv16>, q: int, va: bv16)
    requires Allocated(s0, s, pid, vps) && q in s0.pdbr && q != pid
    ensures q in s.pdbr && s.pdbr[q] < PHYS_PAGES && s0.pdbr[q] < PHYS_PAGES
    ensures Translate(s, q, va) == Translate(s0, q, va)
    ensures var pa := Translate(s0, q, va); pa >= 0 ==> pa < PAGE_SIZE * PHYS_PAGES && s.memory[pa] == s0.memory[pa]
  {
    SlotsSurvive(s0, s, pid, vps, q, PdeBits(va), PteBits(va), OffsetBits(va));
  }

  /** An address and a page number have the same indices exactly when the address lies in the page. */
  lemma SameIndices(vp: bv16, va: bv16)
    requires vp < 1024 && va < 0x8000
    ensures va >> 5 < 1024
    ensures PdeBits(va) == Pde(vp) && PteBits(va) == Pte(vp) <==> vp == va >> 5
  {
    AddressInPage(va);
    if PdeBits(va) == Pde(vp) && PteBits(va) == Pte(vp) {
      VpnIsIndices(vp, va >> 5);
    }
  }

  /** The address lies in one of the listed pages when one of them has its indices. */
  lemma InListedPage(vps: seq<bv16>, va: bv16, d: nat, i: nat)
    requires GoodVps(vps) && va < 0x8000 && d == PdeBits(va) && i == PteBits(va)
    ensures (va >> 5) in vps <==> Lists(vps, d, i)
  {
    if Lists(vps, d, i) {
      var vp :| vp in vps && d == Pde(vp) && i == Pte(vp);
      SameIndices(vp, va);
    }
    if (va >> 5) in vps {
      SameIndices(va >> 5, va);
    }
  }

  lemma NewEntries(s0: Sys, s: Sys, pid: int, vps: seq<bv16>, d: nat, i: nat)
    requires Allocated(s0, s, pid, vps)
    ensures (pid, d) in s.tables <==> d in TablesFor(vps)
    ensures (pid, d, i) in s.pages <==> Lists(vps, d, i)
    ensures (pid, d, i) in s.pages ==> (pid, d) in s.tables
  {
    assert TableFor(s0, s, pid, vps, pid, d);
    assert PageFor(s0, s, pid, vps, pid, d, i);
    assert PageOk(s, pid, d, i);
  }

  lemma NewSlots(s0: Sys, s: Sys, pid: int, vps: seq<bv16>, d: nat, i: nat, offset: nat)
    requires Allocated(s0, s, pid, vps) && d < PAGE_SIZE && i < PAGE_SIZE && offset < PAGE_SIZE
    ensures pid in s.pdbr && s.pdbr[pid] < PHYS_PAGES
    ensures var pa := TranslateAt(s, pid, d, i, offset);
            && (pa >= 0 <==> Lists(vps, d, i))
            && (pa == -1 <==> d !in TablesFor(vps))
            && (pa == -2 <==> d in TablesFor(vps) && !Lists(vps, d, i))
            && (pa >= 0 ==> pa % PAGE_SIZE == offset)
  {
    TranslateIsMap(s, pid, d, i, offset);
    NewEntries(s0, s, pid, vps, d, i);
  }

  /** The new process translates exactly the addresses of its pages, each to its own offset; of the others, -1 tells
      that no page shares the address's table, -2 that one does. */
  lemma NewTranslations(s0: Sys, s: Sys, pid: int, vps: seq<bv16>, va: bv16)
    requires Allocated(s0, s, pid, vps) && GoodVps(vps) && va < 0x8000
    ensures pid in s.pdbr && s.pdbr[pid] < PHYS_PAGES
    ensures Translate(s, pid, va) >= 0 <==> (va >> 5) in vps
    ensures Translate(s, pid, va) == -1 <==> PdeBits(va) !in TablesFor(vps)
    ensures Translate(s, pid, va) == -2 <==> PdeBits(va) in TablesFor(vps) && (va >> 5) !in vps
    ensures (va >> 5) in vps ==> Translate(s, pid, va) % PAGE_SIZE == va as int % PAGE_SIZE
  {
    FieldsAreDigits(va);
    NewSlots(s0, s, pid, vps, PdeBits(va), PteBits(va), OffsetBits(va));
    InListedPage(vps, va, PdeBits(va), PteBits(va));
  }

  /** Whether a listed page shares the table of an address, in numbers: they agree but for the last ten bits. */
  lemma SharesTable(vps: seq<bv16>, va: bv16)
    requires GoodVps(vps) && va < 0x8000
    ensures PdeBits(va) in TablesFor(vps) <==> exists vp :: vp in vps && vp as int / 32 == va as int / 1024
  {
    FieldsAreDigits(va);
    forall vp | vp in vps
      ensures Pde(vp) == vp as int / 32
    {
      assert vp < 1024;
      PageDigits(vp);
    }
    if exists vp :: vp in vps && vp as int / 32 == va as int / 1024 {
      var vp :| vp in vps && vp as int / 32 == va as int / 1024;
      assert Pde(vp) in TablesFor(vps);
    }
  }

  lemma PageDigits(vp: bv16)
    requires vp < 1024
    ensures Pde(vp) == vp as int / 32 && Pte(vp) == vp as int % 32
  {
    ShiftBack(vp);
    FieldsAreDigits(vp << 5);
    var va, page := (vp << 5) as int, vp as int;
    assert Pde(vp) as int == va / 1024 && Pte(vp) as int == va / 32 % 32;
    TwoDigits(va, page);
  }

  lemma TwoDigits(va: nat, page: nat)
    requires va / 32 == page
    ensures va / 1024 == page / 32 && va / 32 % 32 == page % 32
  {
  }

  lemma ShiftBack(vp: bv16)
    requires vp < 1024
    ensures vp << 5 < 0x8000 && (vp << 5) >> 5 == vp
  {
  }

  /** Different addresses, of one process or of two, never translate to the same byte of memory. */
  lemma AddressesApart(s: Sys, pid: int, va: bv16, qid: int, vb: bv16)
    requires Inv(s) && pid in s.pdbr && qid in s.pdbr && va < 0x8000 && vb < 0x8000 && (pid != qid || va != vb)
    ensures s.pdbr[pid] < PHYS_PAGES && s.pdbr[qid] < PHYS_PAGES
    ensures Translate(s, pid, va) >= 0 ==> Translate(s, pid, va) != Translate(s, qid, vb)
  {
    TranslateIsMap(s, pid, PdeBits(va), PteBits(va), OffsetBits(va));
    TranslateIsMap(s, qid, PdeBits(vb), PteBits(vb), OffsetBits(vb));
    FieldsAreDigits(va);
    FieldsAreDigits(vb);
    var k, l := (pid, PdeBits(va), PteBits(va)), (qid, PdeBits(vb), PteBits(vb));
    if k in s.pages && l in s.pages {
      if k != l {
        NoSharing(s, k, l);
      } else if OffsetBits(va) == OffsetBits(vb) {
        SameDigits(va, vb);
      }
    }
  }

  lemma SameDigits(va: bv16, vb: bv16)
    requires va < 0x8000 && vb < 0x8000 && OffsetBits(va) == OffsetBits(vb)
    requires PteBits(va) == PteBits(vb) && PdeBits(va) == PdeBits(vb)
    ensures va == vb
  {
    assert (va & 0x1f) as int == (vb & 0x1f) as int;
    assert ((va & 0x03e0) >> 5) as int == ((vb & 0x03e0) >> 5) as int;
    assert ((va & 0x7c00) >> 10) as int == ((vb & 0x7c00) >> 10) as int;
    SameSmall(va & 0x1f, vb & 0x1f);
    SameSmall((va & 0x03e0) >> 5, (vb & 0x03e0) >> 5);
    SameSmall((va & 0x7c00) >> 10, (vb & 0x7c00) >> 10);
  }

  /** On a fresh machine, 95 pages always fit. */
  lemma NinetyFiveFit(vps: seq<bv16>)
    requires |vps| <= 95
    ensures 1 + |vps| + |TablesFor(vps)| <= PHYS_PAGES
  {
    NatsBelow(32, TablesFor(vps));
  }
}
