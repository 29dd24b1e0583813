/** A run of ssd.py that loses a page: a collection erases a block although its live page could not be copied. */
module FlashLoss {
  import opened Bitmaps
  import opened Sums
  import opened FlashDevice
  import opened FlashGc
  import opened FlashRun

  const GEO := Geo(3, 2, 2)
  const MARKS := Marks(2, 0)
  const CMDS := [Write(0, 'a'), Write(1, 'b'), Write(2, 'c'), Write(0, 'd'), Read(1)]

  // ---------- The states of the run ----------

  const D0 := Dev([INVALID, INVALID, INVALID, INVALID], "    ", [0, 0], [-1, -1, -1], [-1, -1, -1, -1], -1, 0, 0)
  const D1 := Dev([VALID, ERASED, INVALID, INVALID], "a   ", [1, 0], [0, -1, -1], [0, -1, -1, -1], 1, 0, 0)
  const D2 := Dev([VALID, VALID, INVALID, INVALID], "ab  ", [1, 0], [0, 1, -1], [0, 1, -1, -1], -1, 0, 0)
  const D3 := Dev([VALID, VALID, VALID, ERASED], "abc ", [1, 1], [0, 1, 2], [0, 1, 2, -1], 3, 1, 0)
  const D4 := Dev([VALID, VALID, VALID, VALID], "abcd", [1, 1], [3, 1, 2], [0, 1, 2, 0], -1, 1, 0)
  const D5 := Dev([ERASED, ERASED, VALID, VALID], "  cd", [0, 1], [3, 1, 2], [0, 1, 2, 0], -1, 1, 1)

  lemma OnesTwo(a: int, b: int)
    ensures Ones([a, b]) == a + b
  {
    assert [a, b][1..] == [b] && [b][1..] == [];
    assert Sum([b], ID) == b;
  }

  lemma FreshIs()
    ensures Base(GEO, D0) && Agree(GEO, D0) && D0 == Fresh(GEO)
  {
    FreshIsEmpty(GEO);
    assert D0 == Fresh(GEO);
  }

  /** The write of a page at an open cursor, with all it changes. */
  lemma Written(d: Dev, a: nat, x: Data, d2: Dev)
    requires Base(GEO, d) && a < GEO.L && FreeSlots(GEO, d) > 0
    requires var e := NextCursor(GEO, d);
             && 0 <= e.curPage < GEO.NumPages() && |e.state| == |e.data| == |e.rev| == GEO.NumPages()
             && |e.fwd| == GEO.L
             && d2.state == e.state[e.curPage := VALID] && d2.data == e.data[e.curPage := x] && d2.used == e.used
             && d2.fwd == e.fwd[a := e.curPage] && d2.rev == e.rev[e.curPage := a]
             && d2.curPage == Advance(GEO, e.curPage) && d2.curBlock == e.curBlock && d2.fails == e.fails
    ensures Exec(GEO, d, Write(a, x)) == (d2, Success)
  {
    NextCursorKeeps(GEO, d);
  }

  lemma FirstWrite()
    requires Base(GEO, D0)
    ensures Exec(GEO, D0, Write(0, 'a')) == (D1, Success)
  {
    OnesTwo(0, 0);
    assert Rot(GEO, 0, 0) == 0 && Scan(GEO, D0, 0) == 0;
    assert NextCursor(GEO, D0) == Dev([ERASED, ERASED, INVALID, INVALID], "    ", [1, 0], [-1, -1, -1],
                                      [-1, -1, -1, -1], 0, 0, 0);
    Written(D0, 0, 'a', D1);
  }

  lemma SecondWrite()
    requires Base(GEO, D1)
    ensures Exec(GEO, D1, Write(1, 'b')) == (D2, Success)
  {
    OnesTwo(1, 0);
    Written(D1, 1, 'b', D2);
  }

  lemma ThirdWrite()
    requires Base(GEO, D2)
    ensures Exec(GEO, D2, Write(2, 'c')) == (D3, Success)
  {
    OnesTwo(1, 0);
    assert Rot(GEO, 0, 0) == 0 && Rot(GEO, 0, 1) == 1 && Scan(GEO, D2, 1) == 1 && Scan(GEO, D2, 0) == 1;
    assert NextCursor(GEO, D2)
        == Dev([VALID, VALID, ERASED, ERASED], "ab  ", [1, 1], [0, 1, -1], [0, 1, -1, -1], 2, 1, 0);
    Written(D2, 2, 'c', D3);
  }

  lemma FourthWrite()
    requires Base(GEO, D3)
    ensures Exec(GEO, D3, Write(0, 'd')) == (D4, Success)
  {
    OnesTwo(1, 1);
    Written(D3, 0, 'd', D4);
  }

  // ---------- The collections ----------

  /** The first collection finds both pages of block 0 live and leaves it alone. */
  lemma NothingCollected()
    requires Base(GEO, D3)
    ensures GcPass(GEO, D3, 0, 0, 0) == Pass(D3, 0)
  {
    BlockBounds(GEO, 0);
    assert LivePages(GEO, D3, 2, 2) == [] && LivePages(GEO, D3, 1, 2) == [1] && LivePages(GEO, D3, 0, 2) == [0, 1];
    assert !Collectable(GEO, D3, 0);
    assert Rot(GEO, 0, 0) == 0 && Rot(GEO, 0, 1) == 1;
    assert GcPass(GEO, D3, 0, 2, 0) == Pass(D3, 0);
    GcPassStep(GEO, D3, 0, 1, 0);
    GcPassStep(GEO, D3, 0, 0, 0);
  }

  /** Page 1 is live and block 0 has a dead page. */
  lemma OnePageLive()
    requires Base(GEO, D4)
    ensures LiveIn(GEO, D4, 0) == [1] && Collectable(GEO, D4, 0)
  {
    BlockBounds(GEO, 0);
    assert LivePages(GEO, D4, 2, 2) == [] && LivePages(GEO, D4, 1, 2) == [1] && LivePages(GEO, D4, 0, 2) == [1];
  }

  /** There is nowhere to copy it. */
  lemma NotMoved()
    requires Base(GEO, D4)
    ensures Relocate(GEO, D4, [1]) == D4.(fails := 1)
  {
    OnesTwo(1, 1);
    assert FreeSlots(GEO, D4) == 0;
    LogWriteIsUpdate(GEO, D4, 1, 'b');
    assert MovePage(GEO, D4, 1) == D4.(fails := 1);
    assert [1][1..] == [];
  }

  lemma BlockErased()
    requires Base(GEO, D4)
    ensures Collectable(GEO, D4, 0) && Collect(GEO, D4, 0) == D5
  {
    OnePageLive();
    NotMoved();
    LiveInExactly(GEO, D4, 0);
  }

  /** So the second collection erases it with its block. */
  lemma PageErased()
    requires Base(GEO, D4)
    ensures GcPass(GEO, D4, 0, 0, 0) == Pass(D5, 0)
  {
    BlockErased();
    OnesTwo(0, 1);
    assert Rot(GEO, 0, 0) == 0 && Rot(GEO, 0, 1) == 1;
    GcPassStep(GEO, D4, 0, 0, 0);
    assert GcPass(GEO, D5, 0, 2, 0) == Pass(D5, 0);
    GcPassStep(GEO, D5, 0, 1, 0);
  }

  // ---------- The run ----------

  /** One command of a run, from a state to the next. */
  lemma RunStep(d: Dev, c: Cmd, rest: seq<Cmd>, d2: Dev, r: Reply)
    requires Base(GEO, d) && Base(GEO, d2) && Exec(GEO, d, c).1 == r && Turn(GEO, MARKS, d, 0, c) == Pass(d2, 0)
    ensures Run(GEO, MARKS, d, 0, [c] + rest) == [r] + Run(GEO, MARKS, d2, 0, rest)
  {
    assert ([c] + rest)[1..] == rest;
  }

  lemma ExplainedStep(m: map<int, Data>, c: Cmd, cs: seq<Cmd>, r: Reply, rs: seq<Reply>)
    ensures Explained(GEO.L, m, [c] + cs, [r] + rs) ==>
              ReplyFits(GEO.L, m, c, r) && Explained(GEO.L, MapAfter(m, c, r), cs, rs)
  {
    assert ([c] + cs)[1..] == cs && ([r] + rs)[1..] == rs;
  }

  /** The last two commands: the collection after the write erases page 1, and the read finds a blank. */
  lemma LastTwo()
    requires Base(GEO, D3) && Base(GEO, D4)
    ensures Run(GEO, MARKS, D3, 0, CMDS[3..]) == [Success, Contents(' ')]
  {
    FourthWrite();
    PageErased();
    OnesTwo(1, 1);
    assert Base(GEO, D5);
    assert CMDS[3..] == [CMDS[3]] + [CMDS[4]];
    RunStep(D3, CMDS[3], [CMDS[4]], D5, Success);
    assert [CMDS[4]][1..] == [];
    assert Run(GEO, MARKS, D5, 0, [CMDS[4]]) == [Contents(' ')];
  }

  lemma FirstTurn(rest: seq<Cmd>)
    ensures Base(GEO, D0) && D0 == Fresh(GEO) && Base(GEO, D1)
    ensures Run(GEO, MARKS, D0, 0, [CMDS[0]] + rest) == [Success] + Run(GEO, MARKS, D1, 0, rest)
  {
    FreshIs();
    FirstWrite();
    OnesTwo(1, 0);
    RunStep(D0, CMDS[0], rest, D1, Success);
  }

  lemma SecondTurn(rest: seq<Cmd>)
    requires Base(GEO, D1)
    ensures Base(GEO, D2)
    ensures Run(GEO, MARKS, D1, 0, [CMDS[1]] + rest) == [Success] + Run(GEO, MARKS, D2, 0, rest)
  {
    SecondWrite();
    OnesTwo(1, 0);
    RunStep(D1, CMDS[1], rest, D2, Success);
  }

  lemma ThirdTurn(rest: seq<Cmd>)
    requires Base(GEO, D2)
    ensures Base(GEO, D3) && Base(GEO, D4)
    ensures Run(GEO, MARKS, D2, 0, [CMDS[2]] + rest) == [Success] + Run(GEO, MARKS, D3, 0, rest)
  {
    ThirdWrite();
    assert Base(GEO, D3);
    NothingCollected();
    FourthWrite();
    OnesTwo(1, 1);
    RunStep(D2, CMDS[2], rest, D3, Success);
  }

  /** The first three commands, whatever the others. */
  lemma FirstThree(rest: seq<Cmd>)
    ensures Base(GEO, D0) && D0 == Fresh(GEO) && Base(GEO, D3) && Base(GEO, D4)
    ensures Run(GEO, MARKS, D0, 0, [CMDS[0]] + ([CMDS[1]] + ([CMDS[2]] + rest)))
         == [Success] + ([Success] + ([Success] + Run(GEO, MARKS, D3, 0, rest)))
  {
    FirstTurn([CMDS[1]] + ([CMDS[2]] + rest));
    SecondTurn([CMDS[2]] + rest);
    ThirdTurn(rest);
  }

  lemma CommandsAre()
    ensures CMDS == [CMDS[0]] + ([CMDS[1]] + ([CMDS[2]] + CMDS[3..]))
  {
  }

  /** A map that was written b at 1 does not answer a blank. */
  lemma NotExplained()
    ensures !Explained(GEO.L, map[], CMDS, [Success, Success, Success, Success, Contents(' ')])
  {
    var m1, m2, m3 := map[0 := 'a'], map[0 := 'a', 1 := 'b'], map[0 := 'a', 1 := 'b', 2 := 'c'];
    var last := [Success, Contents(' ')];
    assert CMDS == [CMDS[0]] + CMDS[1..] && CMDS[1..] == [CMDS[1]] + CMDS[2..] && CMDS[2..] == [CMDS[2]] + CMDS[3..];
    assert CMDS[3..] == [CMDS[3]] + [CMDS[4]] && last == [Success] + [Contents(' ')];
    Listed(last);
    ExplainedStep(map[], CMDS[0], CMDS[1..], Success, [Success] + ([Success] + last));
    ExplainedStep(m1, CMDS[1], CMDS[2..], Success, [Success] + last);
    ExplainedStep(m2, CMDS[2], CMDS[3..], Success, last);
    ExplainedStep(m3, CMDS[3], [CMDS[4]], Success, [Contents(' ')]);
    var m4 := m3[0 := 'd'];
    assert 1 in m4 && m4[1] == 'b' && MapAfter(m3, CMDS[3], Success) == m4;
    assert !Explained(GEO.L, m4, [CMDS[4]], [Contents(' ')]);
  }

  lemma Listed(last: seq<Reply>)
    ensures last == [Success, Contents(' ')] ==>
              [Success] + ([Success] + ([Success] + last)) == [Success, Success, Success, Success, Contents(' ')]
  {
  }

  /** All writes succeed, and then a read of page 1, written once with b, returns the blank of an erased page: the
      replies are not those of a map. So some collection started without room for its first block, and without a spare
      block. */
  lemma PageLost()
    ensures Base(GEO, Fresh(GEO))
    ensures Run(GEO, MARKS, Fresh(GEO), 0, CMDS) == [Success, Success, Success, Success, Contents(' ')]
    ensures !Explained(GEO.L, map[], CMDS, Run(GEO, MARKS, Fresh(GEO), 0, CMDS))
    ensures !FitsAtEachGc(GEO, MARKS, Fresh(GEO), 0, CMDS) && !SpareAtEachGc(GEO, MARKS, Fresh(GEO), 0, CMDS)
  {
    FirstThree(CMDS[3..]);
    CommandsAre();
    LastTwo();
    Listed(Run(GEO, MARKS, D3, 0, CMDS[3..]));
    NotExplained();
    FreshIsEmpty(GEO);
    if FitsAtEachGc(GEO, MARKS, Fresh(GEO), 0, CMDS) {
      RunIsExplained(GEO, MARKS, Fresh(GEO), 0, CMDS);
      assert false;
    }
    if SpareAtEachGc(GEO, MARKS, Fresh(GEO), 0, CMDS) {
      SpareFits(GEO, MARKS, Fresh(GEO), 0, CMDS);
      assert false;
    }
  }
}
