/**
 Files of afs.py that a client opens more than once at a time. The opens share one copy, its value and its count,
 until another client closes a new version; an open after that starts over with the new version and a count of one.
 Reads, writes and closes are those of opens the count knows of.
 */
module AfsShared {
  import opened Afs

  /** A file open at a client: its value, whether it was written, how often it is open, and whether the server has no
      version that is newer. */
  datatype Share = Share(value: int, wrote: bool, opens: nat, current: bool)

  datatype Sharing = Sharing(files: map<string, int>, open: seq<map<string, Share>>)

  /** Opens are free. */
  predicate Uses(p: Sharing, op: Op) {
    op.c < |p.open| && op.f in p.files && (op.Open? || op.f in p.open[op.c])
  }

  function OpenShare(p: Sharing, c: nat, f: string): Share
    requires c < |p.open| && f in p.files
  {
    if f in p.open[c] && p.open[c][f].current then p.open[c][f].(opens := p.open[c][f].opens + 1)
    else Share(p.files[f], false, 1, true)
  }

  function Outdated(m: map<string, Share>, f: string): map<string, Share> {
    if f in m then m[f := m[f].(current := false)] else m
  }

  /** The other clients' shares of a file that c puts. */
  function AfterPut(open: seq<map<string, Share>>, c: nat, f: string): (r: seq<map<string, Share>>)
    ensures |r| == |open|
    ensures forall i :: 0 <= i < |r| ==> r[i] == if i == c then open[i] else Outdated(open[i], f)
  {
    seq(|open|, i requires 0 <= i < |open| => if i == c then open[i] else Outdated(open[i], f))
  }

  /** What a close leaves to the client. */
  function CloseShare(m: map<string, Share>, f: string): map<string, Share>
    requires f in m
  {
    var x := m[f];
    if x.opens <= 1 then m - {f} else m[f := Share(x.value, false, x.opens - 1, x.current || x.wrote)]
  }

  function ShareStep(p: Sharing, op: Op): Sharing
    requires Uses(p, op)
  {
    match op
    case Open(c, f) => p.(open := p.open[c := p.open[c][f := OpenShare(p, c, f)]])
    case Read(c, f) => p
    case Write(c, f, v) => p.(open := p.open[c := p.open[c][f := p.open[c][f].(value := v, wrote := true)]])
    case Close(c, f) =>
      var x := p.open[c][f];
      Sharing(if x.wrote then p.files[f := x.value] else p.files,
              (if x.wrote then AfterPut(p.open, c, f) else p.open)[c := CloseShare(p.open[c], f)])
  }

  // ---------- The refinement ----------

  predicate Fits(s: State, e: Entry, x: Share, f: string)
    requires f in s.contents
  {
    && x.opens >= 1 && e == Entry(x.value, x.wrote, x.opens, x.current)
    && (x.current && !x.wrote ==> x.value == s.contents[f])
  }

  /** What a cache entry says of the share, the server and the callback list. */
  predicate EntryFits(s: State, p: Sharing, c: nat, f: string)
    requires c < |s.caches| && c < |p.open| && c < |s.lists|
  {
    if f !in s.caches[c] then f !in p.open[c]
    else
      var e := s.caches[c][f];
      && f in s.contents && f in s.lists[c]
      && if f in p.open[c] then Fits(s, e, p.open[c][f], f)
         else e.refcnt == 0 && !e.dirty && (e.valid ==> e.data == s.contents[f])
  }

  ghost predicate Shares(s: State, p: Sharing) {
    && |s.lists| == |s.caches| == |p.open| && s.contents == p.files
    && forall c: nat, f: string :: c < |s.caches| ==> EntryFits(s, p, c, f)
  }

  lemma OpenShares(s: State, p: Sharing, c: nat, f: string)
    requires Shares(s, p) && Uses(p, Open(c, f))
    ensures Shares(Opened(s, c, f), ShareStep(p, Open(c, f)))
  {
    var t, q := Opened(s, c, f), ShareStep(p, Open(c, f));
    assert EntryFits(s, p, c, f);
    forall i: nat, g: string | i < |t.caches|
      ensures EntryFits(t, q, i, g)
    {
      assert EntryFits(s, p, i, g);
    }
  }

  lemma WriteShares(s: State, p: Sharing, c: nat, f: string, v: int)
    requires Shares(s, p) && Uses(p, Write(c, f, v))
    ensures f in s.caches[c] && Shares(Step(s, Write(c, f, v)), ShareStep(p, Write(c, f, v)))
  {
    assert EntryFits(s, p, c, f);
    var t, q := Step(s, Write(c, f, v)), ShareStep(p, Write(c, f, v));
    forall i: nat, g: string | i < |t.caches|
      ensures EntryFits(t, q, i, g)
    {
      assert EntryFits(s, p, i, g);
    }
  }

  lemma CloseFits(s: State, p: Sharing, c: nat, f: string, i: nat, g: string)
    requires Shares(s, p) && Uses(p, Close(c, f)) && f in s.caches[c] && i < |s.caches|
    ensures EntryFits(Closed(s, c, f), ShareStep(p, Close(c, f)), i, g)
  {
    assert EntryFits(s, p, i, g) && EntryFits(s, p, c, f) && EntryFits(s, p, i, f);
  }

  lemma CloseShares(s: State, p: Sharing, c: nat, f: string)
    requires Shares(s, p) && Uses(p, Close(c, f))
    ensures f in s.caches[c] && Shares(Closed(s, c, f), ShareStep(p, Close(c, f)))
  {
    assert EntryFits(s, p, c, f);
    var t, q := Closed(s, c, f), ShareStep(p, Close(c, f));
    forall i: nat, g: string | i < |t.caches|
      ensures EntryFits(t, q, i, g)
    {
      CloseFits(s, p, c, f, i, g);
    }
  }

  /** Every action does to the caches and the server what it does to the shares, and a read sees the share. */
  lemma StepShares(s: State, p: Sharing, op: Op)
    requires Shares(s, p) && Uses(p, op)
    ensures Enabled(s, op) && Shares(Step(s, op), ShareStep(p, op))
    ensures op.Read? ==> s.caches[op.c][op.f].data == p.open[op.c][op.f].value
  {
    assert EntryFits(s, p, op.c, op.f);
    match op
    case Open(c, f) => OpenShares(s, p, c, f);
    case Read(c, f) =>
    case Write(c, f, v) => WriteShares(s, p, c, f, v);
    case Close(c, f) => CloseShares(s, p, c, f);
  }

  // ---------- Runs ----------

  predicate AllUses(p: Sharing, ops: seq<Op>)
    decreases |ops|
  {
    ops == [] || (Uses(p, ops[0]) && AllUses(ShareStep(p, ops[0]), ops[1..]))
  }

  function RunSharing(p: Sharing, ops: seq<Op>): Sharing
    requires AllUses(p, ops)
    decreases |ops|
  {
    if ops == [] then p else RunSharing(ShareStep(p, ops[0]), ops[1..])
  }

  function SeenShared(p: Sharing, ops: seq<Op>): seq<int>
    requires AllUses(p, ops)
    decreases |ops|
  {
    if ops == [] then []
    else (if ops[0].Read? then [p.open[ops[0].c][ops[0].f].value] else []) + SeenShared(ShareStep(p, ops[0]), ops[1..])
  }

  /** Under any interleaving, with files opened any number of times, no client assertion fails and reads and the server
      are those of shared copies. */
  lemma {:induction false} RunShares(s: State, p: Sharing, ops: seq<Op>)
    requires Shares(s, p) && AllUses(p, ops)
    ensures AllEnabled(s, ops)
    ensures Shares(Run(s, ops), RunSharing(p, ops)) && SeenCached(s, ops) == SeenShared(p, ops)
    decreases |ops|
  {
    if ops != [] {
      StepShares(s, p, ops[0]);
      RunShares(Step(s, ops[0]), ShareStep(p, ops[0]), ops[1..]);
    }
  }

  function NothingOpen(files: map<string, int>, clients: nat): Sharing {
    Sharing(files, seq(clients, _ => map[]))
  }

  lemma StartShares(files: map<string, int>, clients: nat)
    ensures Shares(Start(files, clients), NothingOpen(files, clients))
  {
    var s, p := Start(files, clients), NothingOpen(files, clients);
    forall c: nat, f: string | c < |s.caches|
      ensures EntryFits(s, p, c, f)
    {
    }
  }

  // ---------- What sharing means ----------

  /** Opens of the file by the client. */
  function Opens(ops: seq<Op>, c: nat, f: string): nat {
    if ops == [] then 0 else (if ops[0].Open? && Mine(ops[0], c, f) then 1 else 0) + Opens(ops[1..], c, f)
  }

  /** The client's own last write, if it wrote. */
  function OwnWrite(value: int, wrote: bool, ops: seq<Op>, c: nat, f: string): (int, bool)
    decreases |ops|
  {
    if ops == [] then (value, wrote)
    else if ops[0].Write? && Mine(ops[0], c, f) then OwnWrite(ops[0].v, true, ops[1..], c, f)
    else OwnWrite(value, wrote, ops[1..], c, f)
  }

  predicate Puts(p: Sharing, op: Op, f: string)
    requires Uses(p, op)
  {
    op.Close? && op.f == f && p.open[op.c][f].wrote
  }

  predicate PutIn(p: Sharing, ops: seq<Op>, f: string)
    requires AllUses(p, ops)
    decreases |ops|
  {
    ops != [] && (Puts(p, ops[0], f) || PutIn(ShareStep(p, ops[0]), ops[1..], f))
  }

  lemma SharedStep(p: Sharing, op: Op, c: nat, f: string)
    requires Uses(p, op) && c < |p.open| && f in p.open[c] && p.open[c][f].current
    requires !(op.Close? && Mine(op, c, f)) && !Puts(p, op, f)
    ensures var x, y, q := p.open[c][f], OwnWrite(p.open[c][f].value, p.open[c][f].wrote, [op], c, f), ShareStep(p, op);
            && c < |q.open| && f in q.open[c]
            && q.open[c][f] == Share(y.0, y.1, x.opens + Opens([op], c, f), true)
  {
    assert [op][1..] == [];
  }

  /** While the client closes nothing and no other client closes a new version, all its opens share the value at the
      first or the client's last write since, and all are counted. */
  lemma {:induction false} OpensShare(p: Sharing, ops: seq<Op>, c: nat, f: string)
    requires AllUses(p, ops) && c < |p.open| && f in p.open[c] && p.open[c][f].current && !PutIn(p, ops, f)
    requires forall k :: 0 <= k < |ops| ==> !(ops[k].Close? && Mine(ops[k], c, f))
    ensures var q := RunSharing(p, ops); c < |q.open| && f in q.open[c]
    ensures var x, y := p.open[c][f], OwnWrite(p.open[c][f].value, p.open[c][f].wrote, ops, c, f);
            RunSharing(p, ops).open[c][f] == Share(y.0, y.1, x.opens + Opens(ops, c, f), true)
    decreases |ops|
  {
    if ops != [] {
      SharedStep(p, ops[0], c, f);
      assert [ops[0]][1..] == [];
      OpensShare(ShareStep(p, ops[0]), ops[1..], c, f);
    }
  }

  // ---------- Files opened once at a time ----------

  ghost predicate Single(p: Sharing) {
    forall c: nat, f: string :: c < |p.open| && f in p.open[c] ==> p.open[c][f].opens == 1
  }

  /** The sessions of shares opened once. */
  function Forget(m: map<string, Share>): map<string, Session> {
    map f | f in m :: Session(m[f].value, m[f].wrote)
  }

  function AsSessions(p: Sharing): (q: Sessions)
    ensures q.files == p.files && |q.open| == |p.open| && forall i :: 0 <= i < |p.open| ==>
              q.open[i] == Forget(p.open[i])
  {
    Sessions(p.files, seq(|p.open|, i requires 0 <= i < |p.open| => Forget(p.open[i])))
  }

  /** With every file opened once at a time by each client, shares are sessions. */
  lemma SingleIsSession(p: Sharing, op: Op)
    requires Single(p) && Allowed(AsSessions(p), op)
    ensures Uses(p, op) && Single(ShareStep(p, op)) && AsSessions(ShareStep(p, op)) == SessionStep(AsSessions(p), op)
  {
    var q, r := AsSessions(ShareStep(p, op)), SessionStep(AsSessions(p), op);
    forall i | 0 <= i < |p.open|
      ensures q.open[i] == r.open[i]
    {
      if op.Close? && i != op.c {
        assert Forget(Outdated(p.open[i], op.f)) == Forget(p.open[i]);
      }
    }
  }

  /** So are whole runs: sharing adds nothing to sessions but the second opens. */
  lemma {:induction false} SingleRunsAreSessions(p: Sharing, ops: seq<Op>)
    requires Single(p) && AllAllowed(AsSessions(p), ops)
    ensures AllUses(p, ops) && SeenShared(p, ops) == Seen(AsSessions(p), ops)
    ensures AsSessions(RunSharing(p, ops)) == RunSessions(AsSessions(p), ops)
    decreases |ops|
  {
    if ops != [] {
      SingleIsSession(p, ops[0]);
      SingleRunsAreSessions(ShareStep(p, ops[0]), ops[1..]);
    }
  }
}
