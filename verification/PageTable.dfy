/**
 The two-level page table of paging-multilevel-translate.py: page directories, page-table pages
 and data pages share one flat byte memory of 128 frames of 32 bytes.
 */
module PageTable {
  const PAGE_SIZE := 32
  const PHYS_PAGES := 128

  type Byte = bv8

  // ---------- Bit fields ----------

  /** The directory index of a virtual address. */
  function PdeBits(va: bv16): (r: nat)
    ensures r < PAGE_SIZE
  {
    assert (va & 0x7c00) >> 10 < 32;
    ((va & 0x7c00) >> 10) as nat
  }

  /** The table index of a virtual address. */
  function PteBits(va: bv16): (r: nat)
    ensures r < PAGE_SIZE
  {
    assert (va & 0x03e0) >> 5 < 32;
    ((va & 0x03e0) >> 5) as nat
  }

  function OffsetBits(va: bv16): (r: nat)
    ensures r < PAGE_SIZE
  {
    assert va & 0x1f < 32;
    (va & 0x1f) as nat
  }

  /** Shifting the upper part of an address up again and putting in the lower part gives the address. */
  lemma SplitFive(a: bv16)
    requires a < 0x8000
    ensures a >> 5 < 1024 && a & 0x1f < 32
    ensures a as int == 32 * ((a >> 5) as int) + (a & 0x1f) as int
  {
    assert a == ((a >> 5) << 5) | (a & 0x1f);
    assert a >> 5 < 1024 && a & 0x1f < 32;
    JoinFive(a >> 5, a & 0x1f);
  }

  lemma JoinFive(q: bv16, r: bv16)
    requires q < 1024 && r < 32
    ensures ((q << 5) | r) as int == 32 * (q as int) + r as int
  {
  }

  lemma FieldShifts(va: bv16)
    requires va < 0x8000
    ensures (va & 0x03e0) >> 5 == (va >> 5) & 0x1f
    ensures (va & 0x7c00) >> 10 == (va >> 5) >> 5
    ensures va >> 5 < 1024
  {
  }

  lemma Digits(n: int, p: int, o: int, d: int, i: int)
    requires n == 32 * p + o && p == 32 * d + i && 0 <= o < 32 && 0 <= i < 32
    ensures n % 32 == o && n / 32 == p && n / 32 % 32 == i && n / 1024 == d
  {
  }

  /** The three fields are the digits of an address to the base 32. */
  lemma FieldsAreDigits(va: bv16)
    requires va < 0x8000
    ensures OffsetBits(va) == va as int % 32
    ensures PteBits(va) == va as int / 32 % 32
    ensures PdeBits(va) == va as int / 1024
    ensures (va >> 5) as int == va as int / 32
  {
    FieldShifts(va);
    SplitFive(va);
    SplitFive(va >> 5);
    var d, i := ((va >> 5) >> 5) as int, ((va >> 5) & 0x1f) as int;
    assert PdeBits(va) == d && PteBits(va) == i;
    Digits(va as int, (va >> 5) as int, (va & 0x1f) as int, d, i);
  }

  lemma BitsSucc(p: bv16, q: bv8)
    ensures p < 127 ==> (p + 1) as nat == p as nat + 1
    ensures q < 127 ==> (q + 1) as nat == q as nat + 1
  {
  }

  /** A number below 128 in bits, wide and narrow. */
  function ToBits(n: nat): (b: bv16)
    requires n < 128
    ensures b as nat == n && b < 128
  {
    if n == 0 then 0
    else
      BitsSucc(ToBits(n - 1), 0);
      ToBits(n - 1) + 1
  }

  function ToBits8(n: nat): (b: bv8)
    requires n < 128
    ensures b as nat == n && b < 128
  {
    if n == 0 then 0
    else
      BitsSucc(0, ToBits8(n - 1));
      ToBits8(n - 1) + 1
  }

  lemma JoinIsSum(p: bv16, b: bv16)
    requires p < 128 && b < 32
    ensures ((p << 5) | b) as int == 32 * (p as int) + b as int
  {
  }

  /** A frame number and a position in it joined into an address. */
  function Join(page: nat, bits: nat): (r: nat)
    requires page < PHYS_PAGES && bits < PAGE_SIZE
    ensures r == PAGE_SIZE * page + bits
  {
    JoinIsSum(ToBits(page), ToBits(bits));
    ((ToBits(page) << 5) | ToBits(bits)) as nat
  }

  function ValidBit(e: Byte): nat {
    ((e & 0x80) >> 7) as nat
  }

  function Pfn(e: Byte): (r: nat)
    ensures r < PHYS_PAGES
  {
    (e & 0x7f) as nat
  }

  function MakeEntry(page: nat): Byte
    requires page < PHYS_PAGES
  {
    0x80 | ToBits8(page)
  }

  const INVALID_ENTRY: Byte := 0x7f

  lemma EntryRoundTrip(page: nat)
    requires page < PHYS_PAGES
    ensures ValidBit(MakeEntry(page)) == 1 && Pfn(MakeEntry(page)) == page
    ensures ValidBit(INVALID_ENTRY) == 0 && Pfn(INVALID_ENTRY) == 127
  {
    var b := ToBits8(page);
    assert (0x80 | b) & 0x7f == b;
    assert ((0x80 | b) & 0x80) >> 7 == 1;
  }

  /** In numbers: an entry is its frame, and 128 more when it is valid. */
  lemma EntryFields(e: Byte, page: nat)
    ensures ValidBit(e) == e as int / 128 && Pfn(e) == e as int % 128
    ensures page < PHYS_PAGES ==> MakeEntry(page) as int == 128 + page
    ensures INVALID_ENTRY as int == 127
  {
    if page < PHYS_PAGES {
      SetTopBit(ToBits8(page));
    }
  }

  lemma SetTopBit(b: Byte)
    requires b < 128
    ensures (0x80 | b) as int == 128 + b as int
  {
  }

  lemma SameSmall(x: bv16, y: bv16)
    requires x < 32 && y < 32 && x as nat == y as nat
    ensures x == y
  {
  }

  /** A virtual page number is its two indices: different pages have different slots. */
  lemma VpnIsIndices(a: bv16, b: bv16)
    requires a < 1024 && b < 1024
    requires PdeBits(a << 5) == PdeBits(b << 5) && PteBits(a << 5) == PteBits(b << 5)
    ensures a == b
  {
    SameSmall(((a << 5) & 0x7c00) >> 10, ((b << 5) & 0x7c00) >> 10);
    SameSmall(((a << 5) & 0x03e0) >> 5, ((b << 5) & 0x03e0) >> 5);
  }

  /** Every address lies in the page its upper bits number. */
  lemma AddressInPage(va: bv16)
    requires va < 0x8000
    ensures va >> 5 < 1024
    ensures PdeBits((va >> 5) << 5) == PdeBits(va) && PteBits((va >> 5) << 5) == PteBits(va)
  {
    assert ((va >> 5) << 5) & 0x7c00 == va & 0x7c00;
    assert ((va >> 5) << 5) & 0x03e0 == va & 0x03e0;
  }

  // ---------- The system as a value ----------

  /** What a frame is used for; `Lost` frames belonged to a process whose pid was allocated again. */
  datatype Role = Free | Dir(pid: int) | Table(pid: int, d: nat) | Data(pid: int, d: nat, i: nat) | Lost

  /** `tables` and `pages` are the maps the memory is supposed to hold. */
  datatype Sys = Sys(memory: seq<Byte>, role: seq<Role>, pdbr: map<int, nat>,
                     tables: map<(int, nat), nat>, pages: map<(int, nat, nat), nat>)

  predicate Sized(s: Sys) {
    |s.memory| == PAGE_SIZE * PHYS_PAGES && |s.role| == PHYS_PAGES
  }

  function Slot(memory: seq<Byte>, f: nat, i: nat): Byte
    requires |memory| == PAGE_SIZE * PHYS_PAGES && f < PHYS_PAGES && i < PAGE_SIZE
  {
    memory[PAGE_SIZE * f + i]
  }

  predicate PidOk(s: Sys, pid: int)
    requires Sized(s)
  {
    pid in s.pdbr ==> s.pdbr[pid] < PHYS_PAGES && s.role[s.pdbr[pid]] == Dir(pid)
  }

  predicate TableOk(s: Sys, pid: int, d: nat)
    requires Sized(s)
  {
    (pid, d) in s.tables ==>
      var f := s.tables[(pid, d)];
      pid in s.pdbr && d < PAGE_SIZE && f < PHYS_PAGES && s.role[f] == Table(pid, d)
  }

  predicate PageOk(s: Sys, pid: int, d: nat, i: nat)
    requires Sized(s)
  {
    (pid, d, i) in s.pages ==>
      var f := s.pages[(pid, d, i)];
      (pid, d) in s.tables && i < PAGE_SIZE && f < PHYS_PAGES && s.role[f] == Data(pid, d, i)
  }

  /** Directories, table pages and data pages live in frames of their own. */
  ghost predicate Roles(s: Sys)
    requires Sized(s)
  {
    && (forall pid :: PidOk(s, pid))
    && (forall pid, d: nat :: TableOk(s, pid, d))
    && (forall pid, d: nat, i: nat :: PageOk(s, pid, d, i))
  }

  ghost predicate DirSlotOk(s: Sys, pid: int, d: nat)
    requires Sized(s)
  {
    pid in s.pdbr && d < PAGE_SIZE && s.pdbr[pid] < PHYS_PAGES ==>
      if (pid, d) in s.tables then
        s.tables[(pid, d)] < PHYS_PAGES && Slot(s.memory, s.pdbr[pid], d) == MakeEntry(s.tables[(pid, d)])
      else
        Slot(s.memory, s.pdbr[pid], d) == INVALID_ENTRY
  }

  ghost predicate TableSlotOk(s: Sys, pid: int, d: nat, i: nat)
    requires Sized(s)
  {
    (pid, d) in s.tables && i < PAGE_SIZE && s.tables[(pid, d)] < PHYS_PAGES ==>
      if (pid, d, i) in s.pages then
        s.pages[(pid, d, i)] < PHYS_PAGES && Slot(s.memory, s.tables[(pid, d)], i) == MakeEntry(s.pages[(pid, d, i)])
      else
        Slot(s.memory, s.tables[(pid, d)], i) == INVALID_ENTRY
  }

  /** Roles are kept apart, and every directory and table holds what the maps say. */
  ghost predicate Inv(s: Sys) {
    && Sized(s)
    && Roles(s)
    && (forall pid, d: nat :: DirSlotOk(s, pid, d))
    && (forall pid, d: nat, i: nat :: TableSlotOk(s, pid, d, i))
  }

  /** Translation as the source computes it, from memory alone: directory index, table index, offset. */
  function TranslateAt(s: Sys, pid: int, d: nat, i: nat, offset: nat): int
    requires Sized(s) && pid in s.pdbr && s.pdbr[pid] < PHYS_PAGES && d < PAGE_SIZE && i < PAGE_SIZE
             && offset < PAGE_SIZE
  {
    var pde := Slot(s.memory, s.pdbr[pid], d);
    if ValidBit(pde) == 1 then
      var pte := Slot(s.memory, Pfn(pde), i);
      if ValidBit(pte) == 1 then Join(Pfn(pte), offset) else -2
    else -1
  }

  function Translate(s: Sys, pid: int, va: bv16): int
    requires Sized(s) && pid in s.pdbr && s.pdbr[pid] < PHYS_PAGES
  {
    TranslateAt(s, pid, PdeBits(va), PteBits(va), OffsetBits(va))
  }

  /** What a directory entry says. */
  lemma DirEntry(s: Sys, pid: int, d: nat)
    requires Inv(s) && pid in s.pdbr && d < PAGE_SIZE
    ensures s.pdbr[pid] < PHYS_PAGES
    ensures var e := Slot(s.memory, s.pdbr[pid], d);
            if (pid, d) in s.tables then ValidBit(e) == 1 && Pfn(e) == s.tables[(pid, d)]
            else ValidBit(e) == 0 && Pfn(e) == 127
  {
    assert PidOk(s, pid) && DirSlotOk(s, pid, d);
    EntryRoundTrip(if (pid, d) in s.tables then s.tables[(pid, d)] else 0);
  }

  /** What a table entry says. */
  lemma TableEntry(s: Sys, pid: int, d: nat, i: nat)
    requires Inv(s) && (pid, d) in s.tables && i < PAGE_SIZE
    ensures s.tables[(pid, d)] < PHYS_PAGES
    ensures var e := Slot(s.memory, s.tables[(pid, d)], i);
            if (pid, d, i) in s.pages then ValidBit(e) == 1 && Pfn(e) == s.pages[(pid, d, i)]
            else ValidBit(e) == 0 && Pfn(e) == 127
  {
    assert TableOk(s, pid, d) && TableSlotOk(s, pid, d, i);
    EntryRoundTrip(if (pid, d, i) in s.pages then s.pages[(pid, d, i)] else 0);
  }

  /** The memory refines the maps: mapped frame joined with the offset, -2 without a page, -1 without a table. */
  lemma TranslateIsMap(s: Sys, pid: int, d: nat, i: nat, offset: nat)
    requires Inv(s) && pid in s.pdbr && d < PAGE_SIZE && i < PAGE_SIZE && offset < PAGE_SIZE
    ensures s.pdbr[pid] < PHYS_PAGES
    ensures TranslateAt(s, pid, d, i, offset) ==
            if (pid, d) !in s.tables then -1
            else if (pid, d, i) !in s.pages then -2
            else PAGE_SIZE * s.pages[(pid, d, i)] + offset
  {
    DirEntry(s, pid, d);
    if (pid, d) in s.tables {
      TableEntry(s, pid, d, i);
    }
  }

  /** No frame has two owners. */
  lemma NoSharing(s: Sys, k: (int, nat, nat), l: (int, nat, nat))
    requires Inv(s) && k in s.pages && l in s.pages && k != l
    ensures s.pages[k] != s.pages[l]
    ensures forall t :: t in s.tables ==> s.tables[t] != s.pages[k]
    ensures forall pid :: pid in s.pdbr ==> s.pdbr[pid] != s.pages[k]
  {
    assert PageOk(s, k.0, k.1, k.2) && PageOk(s, l.0, l.1, l.2);
    forall t | t in s.tables
      ensures s.tables[t] != s.pages[k]
    {
      assert TableOk(s, t.0, t.1);
    }
    forall pid | pid in s.pdbr
      ensures s.pdbr[pid] != s.pages[k]
    {
      assert PidOk(s, pid);
    }
  }

  // ---------- Changes ----------

  function Put(memory: seq<Byte>, f: nat, i: nat, b: Byte): (r: seq<Byte>)
    requires |memory| == PAGE_SIZE * PHYS_PAGES && f < PHYS_PAGES && i < PAGE_SIZE
    ensures |r| == |memory|
  {
    memory[PAGE_SIZE * f + i := b]
  }

  function InitFrame(memory: seq<Byte>, f: nat): (r: seq<Byte>)
    requires |memory| == PAGE_SIZE * PHYS_PAGES && f < PHYS_PAGES
    ensures |r| == |memory|
  {
    seq(|memory|, j requires 0 <= j < |memory| =>
      if PAGE_SIZE * f <= j < PAGE_SIZE * f + PAGE_SIZE then INVALID_ENTRY else memory[j])
  }

  lemma SlotAfterPut(m: seq<Byte>, f: nat, i: nat, b: Byte)
    requires |m| == PAGE_SIZE * PHYS_PAGES && f < PHYS_PAGES && i < PAGE_SIZE
    ensures forall g: nat, j: nat :: g < PHYS_PAGES && j < PAGE_SIZE ==>
              Slot(Put(m, f, i, b), g, j) == if g == f && j == i then b else Slot(m, g, j)
  {
  }

  lemma SlotAfterInit(m: seq<Byte>, f: nat)
    requires |m| == PAGE_SIZE * PHYS_PAGES && f < PHYS_PAGES
    ensures forall g: nat, j: nat :: g < PHYS_PAGES && j < PAGE_SIZE ==>
              Slot(InitFrame(m, f), g, j) == if g == f then INVALID_ENTRY else Slot(m, g, j)
  {
  }

  predicate IsFree(s: Sys, f: nat)
    requires Sized(s)
  {
    f < PHYS_PAGES && s.role[f] == Free
  }

  predicate Owned(r: Role, pid: int) {
    (r.Dir? || r.Table? || r.Data?) && r.pid == pid
  }

  /** A new directory for `pid` in free frame `f`; whatever the pid mapped before is forgotten. */
  function NewDir(s: Sys, pid: int, f: nat): Sys
    requires Sized(s) && IsFree(s, f)
  {
    Sys(InitFrame(s.memory, f),
        seq(|s.role|, g requires 0 <= g < |s.role| =>
          if g == f then Dir(pid) else if Owned(s.role[g], pid) then Lost else s.role[g]),
        s.pdbr[pid := f],
        map k | k in s.tables && k.0 != pid :: s.tables[k],
        map k | k in s.pages && k.0 != pid :: s.pages[k])
  }

  lemma NewDirRoles(s: Sys, pid: int, f: nat)
    requires Inv(s) && IsFree(s, f)
    ensures Roles(NewDir(s, pid, f))
  {
    var s' := NewDir(s, pid, f);
    forall q
      ensures PidOk(s', q)
    {
      assert PidOk(s, q);
    }
    forall q, d: nat
      ensures TableOk(s', q, d)
    {
      assert TableOk(s, q, d);
    }
    forall q, d: nat, i: nat
      ensures PageOk(s', q, d, i)
    {
      assert PageOk(s, q, d, i);
      assert TableOk(s, q, d);
    }
  }

  lemma NewDirKeeps(s: Sys, pid: int, f: nat)
    requires Inv(s) && IsFree(s, f)
    ensures Inv(NewDir(s, pid, f))
  {
    NewDirRoles(s, pid, f);
    SlotAfterInit(s.memory, f);
    var s' := NewDir(s, pid, f);
    forall q, d: nat
      ensures DirSlotOk(s', q, d)
    {
      assert PidOk(s, q) && DirSlotOk(s, q, d);
    }
    forall q, d: nat, i: nat
      ensures TableSlotOk(s', q, d, i)
    {
      assert TableOk(s, q, d) && TableSlotOk(s, q, d, i);
    }
  }

  /** A table page for directory slot `d` in free frame `f`: entry first, then the page. */
  function NewTable(s: Sys, pid: int, d: nat, f: nat): Sys
    requires Sized(s) && IsFree(s, f) && pid in s.pdbr && s.pdbr[pid] < PHYS_PAGES && d < PAGE_SIZE
  {
    s.(memory := InitFrame(Put(s.memory, s.pdbr[pid], d, MakeEntry(f)), f),
       role := s.role[f := Table(pid, d)],
       tables := s.tables[(pid, d) := f])
  }

  lemma NewTableRoles(s: Sys, pid: int, d: nat, f: nat)
    requires Inv(s) && IsFree(s, f) && pid in s.pdbr && s.pdbr[pid] < PHYS_PAGES && d < PAGE_SIZE
             && (pid, d) !in s.tables
    ensures Roles(NewTable(s, pid, d, f))
  {
    var s' := NewTable(s, pid, d, f);
    forall q
      ensures PidOk(s', q)
    {
      assert PidOk(s, q);
    }
    forall q, e: nat
      ensures TableOk(s', q, e)
    {
      assert TableOk(s, q, e);
    }
    forall q, e: nat, i: nat
      ensures PageOk(s', q, e, i)
    {
      assert PageOk(s, q, e, i);
    }
  }

  lemma NewTableSlots(s: Sys, pid: int, d: nat, f: nat, g: nat, i: nat)
    requires Sized(s) && IsFree(s, f) && pid in s.pdbr && s.pdbr[pid] < PHYS_PAGES && d < PAGE_SIZE
    requires g < PHYS_PAGES && i < PAGE_SIZE
    ensures Slot(NewTable(s, pid, d, f).memory, g, i)
        == if g == f then INVALID_ENTRY
           else if g == s.pdbr[pid] && i == d then MakeEntry(f)
           else Slot(s.memory, g, i)
  {
    SlotAfterPut(s.memory, s.pdbr[pid], d, MakeEntry(f));
    SlotAfterInit(Put(s.memory, s.pdbr[pid], d, MakeEntry(f)), f);
  }

  lemma NewTableKeeps(s: Sys, pid: int, d: nat, f: nat)
    requires Inv(s) && IsFree(s, f) && pid in s.pdbr && d < PAGE_SIZE && (pid, d) !in s.tables
    ensures s.pdbr[pid] < PHYS_PAGES && Inv(NewTable(s, pid, d, f))
  {
    assert PidOk(s, pid);
    NewTableRoles(s, pid, d, f);
    var s' := NewTable(s, pid, d, f);
    forall q, e: nat
      ensures DirSlotOk(s', q, e)
    {
      assert PidOk(s, q) && DirSlotOk(s, q, e);
      if q in s.pdbr && e < PAGE_SIZE {
        NewTableSlots(s, pid, d, f, s.pdbr[q], e);
      }
    }
    forall q, e: nat, i: nat
      ensures TableSlotOk(s', q, e, i)
    {
      assert TableOk(s, q, e) && TableSlotOk(s, q, e, i) && PageOk(s, q, e, i);
      if (q, e) in s'.tables && i < PAGE_SIZE {
        NewTableSlots(s, pid, d, f, s'.tables[(q, e)], i);
      }
    }
  }

  /** Frame `f`, set aside for this page, becomes its data page. */
  function NewPage(s: Sys, pid: int, d: nat, i: nat, f: nat): Sys
    requires Sized(s) && f < PHYS_PAGES && (pid, d) in s.tables && s.tables[(pid, d)] < PHYS_PAGES && i < PAGE_SIZE
  {
    s.(memory := Put(s.memory, s.tables[(pid, d)], i, MakeEntry(f)), pages := s.pages[(pid, d, i) := f])
  }

  lemma NewPageKeeps(s: Sys, pid: int, d: nat, i: nat, f: nat)
    requires Inv(s) && f < PHYS_PAGES && s.role[f] == Data(pid, d, i) && (pid, d) in s.tables && i < PAGE_SIZE
    ensures s.tables[(pid, d)] < PHYS_PAGES && Inv(NewPage(s, pid, d, i, f))
  {
    assert TableOk(s, pid, d);
    SlotAfterPut(s.memory, s.tables[(pid, d)], i, MakeEntry(f));
    var s' := NewPage(s, pid, d, i, f);
    forall q
      ensures PidOk(s', q)
    {
      assert PidOk(s, q);
    }
    forall q, e: nat
      ensures TableOk(s', q, e) && DirSlotOk(s', q, e)
    {
      assert PidOk(s, q) && TableOk(s, q, e) && DirSlotOk(s, q, e);
    }
    forall q, e: nat, j: nat
      ensures PageOk(s', q, e, j) && TableSlotOk(s', q, e, j)
    {
      assert PageOk(s, q, e, j) && TableSlotOk(s, q, e, j) && TableOk(s, q, e);
    }
  }

  /** Two systems that agree outside free and data frames. */
  lemma SameTables(s: Sys, s': Sys)
    requires Inv(s) && Sized(s') && s'.pdbr == s.pdbr && s'.tables == s.tables && s'.pages == s.pages
    requires forall g: nat :: g < PHYS_PAGES && s.role[g] != Free ==> s'.role[g] == s.role[g]
    requires forall g: nat, i: nat :: g < PHYS_PAGES && i < PAGE_SIZE && (s.role[g].Dir? || s.role[g].Table?) ==>
        Slot(s'.memory, g, i) == Slot(s.memory, g, i)
    ensures Inv(s')
  {
    forall q
      ensures PidOk(s', q)
    {
      assert PidOk(s, q);
    }
    forall q, e: nat
      ensures TableOk(s', q, e) && DirSlotOk(s', q, e)
    {
      assert PidOk(s, q) && TableOk(s, q, e) && DirSlotOk(s, q, e);
    }
    forall q, e: nat, j: nat
      ensures PageOk(s', q, e, j) && TableSlotOk(s', q, e, j)
    {
      assert PageOk(s, q, e, j) && TableSlotOk(s, q, e, j) && TableOk(s, q, e);
    }
  }

  /** Giving a free frame a role disturbs no table. */
  lemma ReserveKeeps(s: Sys, f: nat, r: Role)
    requires Inv(s) && IsFree(s, f)
    ensures Inv(s.(role := s.role[f := r]))
  {
    SameTables(s, s.(role := s.role[f := r]));
  }

  /** Writing into a data frame disturbs no table. */
  lemma DataWriteKeeps(s: Sys, f: nat, i: nat, b: Byte)
    requires Inv(s) && f < PHYS_PAGES && s.role[f].Data? && i < PAGE_SIZE
    ensures Inv(s.(memory := Put(s.memory, f, i, b)))
  {
    SlotAfterPut(s.memory, f, i, b);
    SameTables(s, s.(memory := Put(s.memory, f, i, b)));
  }
}
