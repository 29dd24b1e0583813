/**
 The client caches and callbacks of afs.py. Under any interleaving of clients, caching is invisible: reads
 and the server are those of a system where an open takes the server's version and a close with changes
 replaces it. File descriptors are taken as the names they were allocated for; traces are left out.
 */
module Afs {
  /** A cached file. */
  datatype Entry = Entry(data: int, dirty: bool, refcnt: int, valid: bool)

  type Cache = map<string, Entry>

  /** The server's files, its callback list for each client, and the clients' caches. */
  datatype State = State(contents: map<string, int>, lists: seq<seq<string>>, caches: seq<Cache>)

  datatype Op =
    | Open(c: nat, f: string)
    | Read(c: nat, f: string)
    | Write(c: nat, f: string, v: int)
    | Close(c: nat, f: string)

  // ---------- One action of a client ----------

  /** The server sends the file and remembers who has it. */
  function Remember(list: seq<string>, f: string): seq<string> {
    if f in list then list else list + [f]
  }

  function Invalidated(k: Cache, f: string): Cache {
    if f in k then k[f := k[f].(valid := false)] else k
  }

  /** A put invalidates the copies of the other clients on whose list the file is. */
  function Called(s: State, c: nat, f: string): (r: seq<Cache>)
    requires |s.lists| == |s.caches|
    ensures |r| == |s.caches|
    ensures forall i :: 0 <= i < |r| ==>
              r[i] == if f in s.lists[i] && i != c then Invalidated(s.caches[i], f) else s.caches[i]
  {
    seq(|s.caches|, i requires 0 <= i < |s.caches| =>
      if f in s.lists[i] && i != c then Invalidated(s.caches[i], f) else s.caches[i])
  }

  /** The sizes fit, and the client and the file exist. */
  predicate Known(s: State, c: nat, f: string) {
    |s.lists| == |s.caches| && c < |s.caches| && f in s.contents
  }

  function Fetched(s: State, c: nat, f: string): State
    requires Known(s, c, f)
  {
    var k := s.caches[c];
    if f in k && k[f].valid then s
    else State(s.contents, s.lists[c := Remember(s.lists[c], f)],
               s.caches[c := k[f := Entry(s.contents[f], false, 0, true)]])
  }

  function Stored(s: State, c: nat, f: string): State
    requires Known(s, c, f) && f in s.caches[c]
  {
    var k := s.caches[c];
    State(s.contents[f := k[f].data], s.lists, Called(s, c, f)[c := k[f := k[f].(dirty := false, valid := true)]])
  }

  /** A copy nobody has open and that was called back is dropped. */
  function Released(k: Cache, f: string): Cache
    requires f in k
  {
    var e := k[f].(refcnt := k[f].refcnt - 1);
    if !e.valid && e.refcnt == 0 then k - {f} else k[f := e]
  }

  function WithCache(s: State, c: nat, k: Cache): State
    requires c < |s.caches|
  {
    s.(caches := s.caches[c := k])
  }

  function Opened(s: State, c: nat, f: string): State
    requires Known(s, c, f)
  {
    var t := Fetched(s, c, f);
    var k := t.caches[c];
    WithCache(t, c, k[f := k[f].(refcnt := k[f].refcnt + 1)])
  }

  function Closed(s: State, c: nat, f: string): State
    requires Known(s, c, f) && f in s.caches[c]
  {
    var t := if s.caches[c][f].dirty then Stored(s, c, f) else s;
    WithCache(t, c, Released(t.caches[c], f))
  }

  /** Reads, writes and closes need the file in the cache: the client's assertions. */
  predicate Enabled(s: State, op: Op) {
    Known(s, op.c, op.f) && (op.Open? || op.f in s.caches[op.c])
  }

  function Step(s: State, op: Op): State
    requires Enabled(s, op)
  {
    match op
    case Open(c, f) => Opened(s, c, f)
    case Read(c, f) => s
    case Write(c, f, v) => WithCache(s, c, s.caches[c][f := s.caches[c][f].(data := v, dirty := true)])
    case Close(c, f) => Closed(s, c, f)
  }

  // ---------- Sessions without caches ----------

  /** What a client sees of a file it has open, and whether it wrote. */
  datatype Session = Session(value: int, wrote: bool)

  /** The closed versions, and the open sessions of each client. */
  datatype Sessions = Sessions(files: map<string, int>, open: seq<map<string, Session>>)

  /** A file is opened when not already open by the client, and used when open. */
  predicate Allowed(p: Sessions, op: Op) {
    && op.c < |p.open| && op.f in p.files
    && (if op.Open? then op.f !in p.open[op.c] else op.f in p.open[op.c])
  }

  function SessionStep(p: Sessions, op: Op): Sessions
    requires Allowed(p, op)
  {
    match op
    case Open(c, f) => p.(open := p.open[c := p.open[c][f := Session(p.files[f], false)]])
    case Read(c, f) => p
    case Write(c, f, v) => p.(open := p.open[c := p.open[c][f := Session(v, true)]])
    case Close(c, f) =>
      Sessions(if p.open[c][f].wrote then p.files[f := p.open[c][f].value] else p.files, p.open[c := p.open[c] - {f}])
  }

  // ---------- The refinement ----------

  /** What a cache entry says of the session, the server and the callback list. */
  predicate EntryOk(s: State, p: Sessions, c: nat, f: string)
    requires c < |s.caches| && c < |p.open| && c < |s.lists|
  {
    if f !in s.caches[c] then f !in p.open[c]
    else
      var e := s.caches[c][f];
      && f in s.contents && f in s.lists[c]
      && e.refcnt == (if f in p.open[c] then 1 else 0)
      && (f in p.open[c] ==> p.open[c][f] == Session(e.data, e.dirty))
      && (f !in p.open[c] ==> !e.dirty)
      && (e.valid && !e.dirty ==> e.data == s.contents[f])
  }

  ghost predicate Refines(s: State, p: Sessions) {
    && |s.lists| == |s.caches| == |p.open| && s.contents == p.files
    && forall c: nat, f: string :: c < |s.caches| ==> EntryOk(s, p, c, f)
  }

  lemma OpenRefines(s: State, p: Sessions, c: nat, f: string)
    requires Refines(s, p) && Allowed(p, Open(c, f))
    ensures Refines(Opened(s, c, f), SessionStep(p, Open(c, f)))
    ensures var e := Opened(s, c, f).caches[c][f]; e.valid && e.data == s.contents[f]
  {
    var t, q := Opened(s, c, f), SessionStep(p, Open(c, f));
    assert EntryOk(s, p, c, f);
    forall i: nat, g: string | i < |t.caches|
      ensures EntryOk(t, q, i, g)
    {
      assert EntryOk(s, p, i, g);
    }
  }

  lemma WriteRefines(s: State, p: Sessions, c: nat, f: string, v: int)
    requires Refines(s, p) && Allowed(p, Write(c, f, v))
    ensures f in s.caches[c] && Refines(Step(s, Write(c, f, v)), SessionStep(p, Write(c, f, v)))
  {
    assert EntryOk(s, p, c, f);
    var t, q := Step(s, Write(c, f, v)), SessionStep(p, Write(c, f, v));
    forall i: nat, g: string | i < |t.caches|
      ensures EntryOk(t, q, i, g)
    {
      assert EntryOk(s, p, i, g);
    }
  }

  /** After a put the callbacks have reached every other copy. */
  lemma CloseEntry(s: State, p: Sessions, c: nat, f: string, i: nat, g: string)
    requires Refines(s, p) && Allowed(p, Close(c, f)) && f in s.caches[c] && i < |s.caches|
    ensures EntryOk(Closed(s, c, f), SessionStep(p, Close(c, f)), i, g)
  {
    assert EntryOk(s, p, i, g) && EntryOk(s, p, c, f) && EntryOk(s, p, i, f);
  }

  lemma CloseRefines(s: State, p: Sessions, c: nat, f: string)
    requires Refines(s, p) && Allowed(p, Close(c, f))
    ensures f in s.caches[c] && Refines(Closed(s, c, f), SessionStep(p, Close(c, f)))
  {
    assert EntryOk(s, p, c, f);
    var t, q := Closed(s, c, f), SessionStep(p, Close(c, f));
    forall i: nat, g: string | i < |t.caches|
      ensures EntryOk(t, q, i, g)
    {
      CloseEntry(s, p, c, f, i, g);
    }
  }

  /** Every action does to the caches and the server what it does to the sessions, and a read sees the session. */
  lemma StepRefines(s: State, p: Sessions, op: Op)
    requires Refines(s, p) && Allowed(p, op)
    ensures Enabled(s, op) && Refines(Step(s, op), SessionStep(p, op))
    ensures op.Read? ==> s.caches[op.c][op.f].data == p.open[op.c][op.f].value
  {
    assert EntryOk(s, p, op.c, op.f);
    match op
    case Open(c, f) => OpenRefines(s, p, c, f);
    case Read(c, f) =>
    case Write(c, f, v) => WriteRefines(s, p, c, f, v);
    case Close(c, f) => CloseRefines(s, p, c, f);
  }

  // ---------- Runs ----------

  predicate AllAllowed(p: Sessions, ops: seq<Op>)
    decreases |ops|
  {
    ops == [] || (Allowed(p, ops[0]) && AllAllowed(SessionStep(p, ops[0]), ops[1..]))
  }

  function RunSessions(p: Sessions, ops: seq<Op>): Sessions
    requires AllAllowed(p, ops)
    decreases |ops|
  {
    if ops == [] then p else RunSessions(SessionStep(p, ops[0]), ops[1..])
  }

  /** The values the reads see. */
  function Seen(p: Sessions, ops: seq<Op>): seq<int>
    requires AllAllowed(p, ops)
    decreases |ops|
  {
    if ops == [] then []
    else (if ops[0].Read? then [p.open[ops[0].c][ops[0].f].value] else []) + Seen(SessionStep(p, ops[0]), ops[1..])
  }

  predicate AllEnabled(s: State, ops: seq<Op>)
    decreases |ops|
  {
    ops == [] || (Enabled(s, ops[0]) && AllEnabled(Step(s, ops[0]), ops[1..]))
  }

  function Run(s: State, ops: seq<Op>): State
    requires AllEnabled(s, ops)
    decreases |ops|
  {
    if ops == [] then s else Run(Step(s, ops[0]), ops[1..])
  }

  function SeenCached(s: State, ops: seq<Op>): seq<int>
    requires AllEnabled(s, ops)
    decreases |ops|
  {
    if ops == [] then []
    else (if ops[0].Read? then [s.caches[ops[0].c][ops[0].f].data] else []) + SeenCached(Step(s, ops[0]), ops[1..])
  }

  /** Under any interleaving no client assertion fails, and reads and the server are those of plain sessions. */
  lemma {:induction false} RunRefines(s: State, p: Sessions, ops: seq<Op>)
    requires Refines(s, p) && AllAllowed(p, ops)
    ensures AllEnabled(s, ops)
    ensures Refines(Run(s, ops), RunSessions(p, ops)) && SeenCached(s, ops) == Seen(p, ops)
    decreases |ops|
  {
    if ops != [] {
      StepRefines(s, p, ops[0]);
      RunRefines(Step(s, ops[0]), SessionStep(p, ops[0]), ops[1..]);
    }
  }

  lemma {:induction false} RunSize(s: State, ops: seq<Op>)
    requires AllEnabled(s, ops)
    ensures |Run(s, ops).caches| == |s.caches|
    decreases |ops|
  {
    if ops != [] {
      RunSize(Step(s, ops[0]), ops[1..]);
    }
  }

  /** A copy that is valid and unchanged is the server's version, in every reachable state. */
  lemma Coherent(s: State, p: Sessions, ops: seq<Op>, c: nat, f: string)
    requires Refines(s, p) && AllAllowed(p, ops) && c < |s.caches|
    ensures AllEnabled(s, ops) && c < |Run(s, ops).caches|
    ensures var t := Run(s, ops);
            f in t.caches[c] && t.caches[c][f].valid && !t.caches[c][f].dirty ==>
              f in t.contents && t.caches[c][f].data == t.contents[f]
  {
    RunRefines(s, p, ops);
    RunSize(s, ops);
    assert EntryOk(Run(s, ops), RunSessions(p, ops), c, f);
  }

  // ---------- What sessions mean ----------

  /** The actions of client c on file f. */
  predicate Mine(op: Op, c: nat, f: string) {
    op.c == c && op.f == f
  }

  /** Within a session: the value at the open, or the client's own last write. */
  function OwnValue(atOpen: Session, ops: seq<Op>, c: nat, f: string): Session {
    if ops == [] then atOpen
    else
      var n := |ops| - 1;
      if ops[n].Write? && Mine(ops[n], c, f) then Session(ops[n].v, true) else OwnValue(atOpen, ops[..n], c, f)
  }

  lemma {:induction false} RunSplit(p: Sessions, ops: seq<Op>)
    requires AllAllowed(p, ops) && ops != []
    ensures var n := |ops| - 1;
            && AllAllowed(p, ops[..n]) && Allowed(RunSessions(p, ops[..n]), ops[n])
            && RunSessions(p, ops) == SessionStep(RunSessions(p, ops[..n]), ops[n])
    decreases |ops|
  {
    var n := |ops| - 1;
    if n == 0 {
      assert ops[..0] == [] && ops[1..] == [];
    } else {
      RunSplit(SessionStep(p, ops[0]), ops[1..]);
      assert ops[..n][1..] == ops[1..][..n - 1] && ops[..n][0] == ops[0];
    }
  }

  /** As long as the client does not close the file, the others change nothing it sees. */
  lemma {:induction false} SessionsAreIsolated(p: Sessions, ops: seq<Op>, c: nat, f: string)
    requires AllAllowed(p, ops) && c < |p.open| && f in p.open[c]
    requires forall k :: 0 <= k < |ops| ==> !(ops[k].Close? && Mine(ops[k], c, f))
    ensures var q := RunSessions(p, ops);
            c < |q.open| && f in q.open[c] && q.open[c][f] == OwnValue(p.open[c][f], ops, c, f)
    decreases |ops|
  {
    if ops != [] {
      var n := |ops| - 1;
      RunSplit(p, ops);
      SessionsAreIsolated(p, ops[..n], c, f);
      assert !(ops[n].Close? && Mine(ops[n], c, f));
    }
  }

  /** The close that made the server's version: the last one of a session that wrote. */
  predicate Publishes(p: Sessions, op: Op, f: string)
    requires Allowed(p, op)
  {
    op.Close? && op.f == f && p.open[op.c][f].wrote
  }

  function LastClosed(p: Sessions, ops: seq<Op>, f: string): int
    requires AllAllowed(p, ops) && f in p.files
    decreases |ops|
  {
    if ops == [] then p.files[f]
    else
      var n := |ops| - 1;
      RunSplit(p, ops);
      var q := RunSessions(p, ops[..n]);
      if Publishes(q, ops[n], f) then q.open[ops[n].c][f].value else LastClosed(p, ops[..n], f)
  }

  lemma {:induction false} FilesAreLastClosed(p: Sessions, ops: seq<Op>, f: string)
    requires AllAllowed(p, ops) && f in p.files
    ensures f in RunSessions(p, ops).files && RunSessions(p, ops).files[f] == LastClosed(p, ops, f)
    decreases |ops|
  {
    if ops != [] {
      RunSplit(p, ops);
      FilesAreLastClosed(p, ops[..|ops| - 1], f);
    }
  }

  /** An open sees the version most recently closed with changes, by any client. */
  lemma OpenSeesLastClosed(s: State, p: Sessions, ops: seq<Op>, c: nat, f: string)
    requires Refines(s, p) && AllAllowed(p, ops) && f in p.files && Allowed(RunSessions(p, ops), Open(c, f))
    ensures AllEnabled(s, ops) && Enabled(Run(s, ops), Open(c, f))
    ensures var k := Opened(Run(s, ops), c, f).caches[c]; f in k && k[f].data == LastClosed(p, ops, f)
  {
    RunRefines(s, p, ops);
    FilesAreLastClosed(p, ops, f);
    OpenRefines(Run(s, ops), RunSessions(p, ops), c, f);
  }

  /** A read in a session sees the value at its open, or the client's own last write since. */
  lemma ReadSeesSession(s: State, p: Sessions, ops: seq<Op>, c: nat, f: string)
    requires Refines(s, p) && c < |p.open| && f in p.open[c] && AllAllowed(p, ops)
    requires forall k :: 0 <= k < |ops| ==> !(ops[k].Close? && Mine(ops[k], c, f))
    ensures AllEnabled(s, ops)
    ensures var t := Run(s, ops);
            c < |t.caches| && f in t.caches[c] && t.caches[c][f].data == OwnValue(p.open[c][f], ops, c, f).value
  {
    RunRefines(s, p, ops);
    SessionsAreIsolated(p, ops, c, f);
    assert EntryOk(Run(s, ops), RunSessions(p, ops), c, f);
  }

  // ---------- The start ----------

  function Start(files: map<string, int>, clients: nat): State {
    State(files, seq(clients, _ => []), seq(clients, _ => map[]))
  }

  function NoSessions(files: map<string, int>, clients: nat): Sessions {
    Sessions(files, seq(clients, _ => map[]))
  }

  lemma StartRefines(files: map<string, int>, clients: nat)
    ensures Refines(Start(files, clients), NoSessions(files, clients))
  {
    var s, p := Start(files, clients), NoSessions(files, clients);
    forall c: nat, f: string | c < |s.caches|
      ensures EntryOk(s, p, c, f)
    {
    }
  }

  // ---------- A second open by the same client ----------

  /** What a second open makes of the entry of a file in use: each promise has its own condition. */
  lemma SecondOpenExactly(s: State, c: nat, f: string)
    requires Known(s, c, f) && f in s.caches[c] && s.caches[c][f].refcnt >= 1
    ensures f in Opened(s, c, f).caches[c]
    ensures var e, t := s.caches[c][f], Opened(s, c, f).caches[c][f];
            && (t.data == s.contents[f] <==> !e.valid || e.data == s.contents[f])
            && (t.data == e.data <==> e.valid || s.contents[f] == e.data)
            && (t.dirty <==> e.valid && e.dirty)
            && (t.refcnt == e.refcnt + 1 <==> e.valid)
            && t.valid
  {
    var e, t := s.caches[c][f], Fetched(s, c, f);
    assert !e.valid ==> t.caches[c][f] == Entry(s.contents[f], false, 0, true);
  }

  /** The closes after it: the first puts the first session's write at the server exactly when the copy was valid,
      and after both nobody is counted exactly when it was. */
  lemma ClosesAfterSecondOpen(s: State, c: nat, f: string)
    requires Known(s, c, f) && f in s.caches[c] && s.caches[c][f].refcnt == 1
    ensures var e, t := s.caches[c][f], Opened(s, c, f);
            && Enabled(t, Close(c, f)) && Enabled(Closed(t, c, f), Close(c, f))
            && Closed(t, c, f).contents == (if e.valid && e.dirty then s.contents[f := e.data] else s.contents)
            && f in Closed(Closed(t, c, f), c, f).caches[c]
            && (Closed(Closed(t, c, f), c, f).caches[c][f].refcnt == 0 <==> e.valid)
  {
    var t := Opened(s, c, f);
    SecondOpenExactly(s, c, f);
    assert !s.caches[c][f].valid ==> t.caches[c][f] == Entry(s.contents[f], false, 1, true);
  }

  /** A close drops the entry exactly when it counts one use, was called back and holds no write. */
  lemma CloseDrops(s: State, c: nat, f: string)
    requires Known(s, c, f) && f in s.caches[c]
    ensures Known(Closed(s, c, f), c, f)
    ensures var e := s.caches[c][f];
            f !in Closed(s, c, f).caches[c] <==> e.refcnt == 1 && !e.valid && !e.dirty
  {
  }

  lemma OpenedIsValid(s: State, c: nat, f: string)
    requires Known(s, c, f)
    ensures f in Opened(s, c, f).caches[c] && Opened(s, c, f).caches[c][f].valid
  {
  }

  /** Some close of the run put a new version of the file at the server. */
  predicate PublishedIn(p: Sessions, ops: seq<Op>, f: string)
    requires AllAllowed(p, ops)
    decreases |ops|
  {
    ops != [] && (Publishes(p, ops[0], f) || PublishedIn(SessionStep(p, ops[0]), ops[1..], f))
  }

  lemma ValidStep(s: State, p: Sessions, op: Op, c: nat, f: string)
    requires Refines(s, p) && Allowed(p, op) && c < |p.open| && f in p.open[c] && !(op.Close? && Mine(op, c, f))
    ensures f in s.caches[c] && Enabled(s, op) && c < |Step(s, op).caches| && f in Step(s, op).caches[c]
    ensures f in SessionStep(p, op).open[c]
    ensures Step(s, op).caches[c][f].valid <==> s.caches[c][f].valid && !Publishes(p, op, f)
  {
    assert EntryOk(s, p, c, f) && EntryOk(s, p, op.c, op.f);
  }

  /** The copy of an open file stays valid exactly as long as no other client closes a new version. */
  lemma {:induction false} ValidUntilPublished(s: State, p: Sessions, ops: seq<Op>, c: nat, f: string)
    requires Refines(s, p) && AllAllowed(p, ops) && c < |p.open| && f in p.open[c]
    requires forall k :: 0 <= k < |ops| ==> !(ops[k].Close? && Mine(ops[k], c, f))
    ensures f in s.caches[c] && AllEnabled(s, ops) && c < |Run(s, ops).caches| && f in Run(s, ops).caches[c]
    ensures Run(s, ops).caches[c][f].valid <==> s.caches[c][f].valid && !PublishedIn(p, ops, f)
    decreases |ops|
  {
    if ops == [] {
      assert EntryOk(s, p, c, f);
    } else {
      ValidStep(s, p, ops[0], c, f);
      StepRefines(s, p, ops[0]);
      ValidUntilPublished(Step(s, ops[0]), SessionStep(p, ops[0]), ops[1..], c, f);
    }
  }

  /** In a session, a copy that was valid has one use, the session's own value and write, and is still valid exactly
      when no other client closed a new version. */
  lemma CopyInRun(s: State, p: Sessions, ops: seq<Op>, c: nat, f: string)
    requires Refines(s, p) && AllAllowed(p, ops) && c < |p.open| && f in p.open[c] && f in s.caches[c]
             && s.caches[c][f].valid
    requires forall k :: 0 <= k < |ops| ==> !(ops[k].Close? && Mine(ops[k], c, f))
    ensures AllEnabled(s, ops) && Known(Run(s, ops), c, f) && f in Run(s, ops).caches[c]
    ensures Run(s, ops).contents == RunSessions(p, ops).files
    ensures var own := OwnValue(p.open[c][f], ops, c, f);
            Run(s, ops).caches[c][f] == Entry(own.value, own.wrote, 1, !PublishedIn(p, ops, f))
  {
    RunRefines(s, p, ops);
    ValidUntilPublished(s, p, ops, c, f);
    SessionsAreIsolated(p, ops, c, f);
    assert EntryOk(Run(s, ops), RunSessions(p, ops), c, f);
  }

  /** After any run in a session, what a second open gets and does to the session. Whether another client closed a
      new version since decides: if not, the new open sees the session's own value, and both share it and are
      counted; if so, it sees the closed version, and the session loses its value, its unpublished write and its
      count. */
  lemma SecondOpenInRun(s: State, p: Sessions, ops: seq<Op>, c: nat, f: string)
    requires Refines(s, p) && Allowed(p, Open(c, f)) && AllAllowed(SessionStep(p, Open(c, f)), ops)
    requires forall k :: 0 <= k < |ops| ==> !(ops[k].Close? && Mine(ops[k], c, f))
    ensures Enabled(s, Open(c, f)) && AllEnabled(Opened(s, c, f), ops)
    ensures Enabled(Run(Opened(s, c, f), ops), Open(c, f))
    ensures var p1 := SessionStep(p, Open(c, f));
            var closed, lost := RunSessions(p1, ops).files, PublishedIn(p1, ops, f);
            var own := OwnValue(Session(p.files[f], false), ops, c, f);
            var t := Opened(Run(Opened(s, c, f), ops), c, f).caches[c];
            && f in closed && f in t
            && (t[f].data == closed[f] <==> lost || own.value == closed[f])
            && (t[f].data == own.value <==> !lost || own.value == closed[f])
            && (t[f].dirty <==> own.wrote && !lost)
            && (t[f].refcnt == 2 <==> !lost)
  {
    var s1, p1 := Opened(s, c, f), SessionStep(p, Open(c, f));
    OpenRefines(s, p, c, f);
    CopyInRun(s1, p1, ops, c, f);
    SecondOpenExactly(Run(s1, ops), c, f);
  }

  /** The client's session of the file taken by a new one. */
  function Replaced(p: Sessions, c: nat, f: string): Sessions
    requires c < |p.open| && f in p.files
  {
    p.(open := p.open[c := p.open[c][f := Session(p.files[f], false)]])
  }

  /** When the copy was called back, the second open makes one session of the two. */
  lemma SecondOpenReplaces(s: State, p: Sessions, c: nat, f: string)
    requires Refines(s, p) && c < |p.open| && f in p.open[c] && f in s.caches[c] && !s.caches[c][f].valid
    ensures Known(s, c, f) && Refines(Opened(s, c, f), Replaced(p, c, f))
  {
    assert EntryOk(s, p, c, f);
    var t, q := Opened(s, c, f), Replaced(p, c, f);
    forall i: nat, g: string | i < |t.caches|
      ensures EntryOk(t, q, i, g)
    {
      assert EntryOk(s, p, i, g);
    }
  }

  /** So the first of the two closes takes the file out of the cache under the session still open, exactly when
      another client has closed a new version since the second open and neither session wrote since. */
  lemma FirstCloseDrops(s: State, p: Sessions, ops: seq<Op>, c: nat, f: string)
    requires Refines(s, p) && c < |p.open| && f in p.open[c] && f in s.caches[c] && !s.caches[c][f].valid
             && f in p.files
    requires AllAllowed(Replaced(p, c, f), ops)
    requires forall k :: 0 <= k < |ops| ==> !(ops[k].Close? && Mine(ops[k], c, f))
    ensures Known(s, c, f) && AllEnabled(Opened(s, c, f), ops) && Enabled(Run(Opened(s, c, f), ops), Close(c, f))
    ensures var u := Closed(Run(Opened(s, c, f), ops), c, f);
            !Enabled(u, Read(c, f)) <==>
              PublishedIn(Replaced(p, c, f), ops, f) && !OwnValue(Session(p.files[f], false), ops, c, f).wrote
  {
    SecondOpenReplaces(s, p, c, f);
    OpenedIsValid(s, c, f);
    CopyInRun(Opened(s, c, f), Replaced(p, c, f), ops, c, f);
    CloseDrops(Run(Opened(s, c, f), ops), c, f);
  }

  // ---------- Runs in which a second open fails ----------

  lemma {:induction false} RunThen(s: State, ops: seq<Op>, op: Op)
    requires AllEnabled(s, ops) && Enabled(Run(s, ops), op)
    ensures AllEnabled(s, ops + [op]) && Run(s, ops + [op]) == Step(Run(s, ops), op)
    decreases |ops|
  {
    if ops == [] {
      assert ops + [op] == [op] && [op][1..] == [];
    } else {
      RunThen(Step(s, ops[0]), ops[1..], op);
      assert (ops + [op])[1..] == ops[1..] + [op];
    }
  }

  /** Two clients with file a, and what they hold of it. */
  function Pair(v: int, x: Entry, y: Entry): State {
    State(map["a" := v], [["a"], ["a"]], [map["a" := x], map["a" := y]])
  }

  lemma WithFirst(v: int, x: Entry, y: Entry, x2: Entry)
    ensures WithCache(Pair(v, x, y), 0, map["a" := x]["a" := x2]) == Pair(v, x2, y)
  {
    assert map["a" := x]["a" := x2] == map["a" := x2];
    assert [map["a" := x], map["a" := y]][0 := map["a" := x2]] == [map["a" := x2], map["a" := y]];
  }

  lemma WithSecond(v: int, x: Entry, y: Entry, y2: Entry)
    ensures WithCache(Pair(v, x, y), 1, map["a" := y]["a" := y2]) == Pair(v, x, y2)
  {
    assert map["a" := y]["a" := y2] == map["a" := y2];
    assert [map["a" := x], map["a" := y]][1 := map["a" := y2]] == [map["a" := x], map["a" := y2]];
  }

  function Reopened(v: int, x: Entry): Entry {
    if x.valid then x.(refcnt := x.refcnt + 1) else Entry(v, false, 1, true)
  }

  lemma FirstOpens(v: int, x: Entry, y: Entry)
    ensures Enabled(Pair(v, x, y), Open(0, "a")) && Step(Pair(v, x, y), Open(0, "a")) == Pair(v, Reopened(v, x), y)
  {
    var z := Entry(v, false, 0, true);
    assert [["a"], ["a"]][0 := Remember(["a"], "a")] == [["a"], ["a"]];
    WithFirst(v, x, y, z);
    assert Fetched(Pair(v, x, y), 0, "a") == if x.valid then Pair(v, x, y) else Pair(v, z, y);
    WithFirst(v, if x.valid then x else z, y, Reopened(v, x));
  }

  lemma SecondOpens(v: int, x: Entry, y: Entry)
    ensures Enabled(Pair(v, x, y), Open(1, "a")) && Step(Pair(v, x, y), Open(1, "a")) == Pair(v, x, Reopened(v, y))
  {
    var z := Entry(v, false, 0, true);
    assert [["a"], ["a"]][1 := Remember(["a"], "a")] == [["a"], ["a"]];
    WithSecond(v, x, y, z);
    assert Fetched(Pair(v, x, y), 1, "a") == if y.valid then Pair(v, x, y) else Pair(v, x, z);
    WithSecond(v, x, if y.valid then y else z, Reopened(v, y));
  }

  lemma SecondWrites(v: int, x: Entry, y: Entry, n: int)
    ensures Enabled(Pair(v, x, y), Write(1, "a", n))
    ensures Step(Pair(v, x, y), Write(1, "a", n)) == Pair(v, x, y.(data := n, dirty := true))
  {
    WithSecond(v, x, y, y.(data := n, dirty := true));
  }

  lemma FirstWrites(v: int, x: Entry, y: Entry, n: int)
    ensures Enabled(Pair(v, x, y), Write(0, "a", n))
    ensures Step(Pair(v, x, y), Write(0, "a", n)) == Pair(v, x.(data := n, dirty := true), y)
  {
    WithFirst(v, x, y, x.(data := n, dirty := true));
  }

  lemma SecondPublishes(v: int, x: Entry, y: Entry)
    requires y.dirty
    ensures Enabled(Pair(v, x, y), Close(1, "a"))
    ensures Step(Pair(v, x, y), Close(1, "a"))
         == Pair(y.data, x.(valid := false), Entry(y.data, false, y.refcnt - 1, true))
  {
    var s, z := Pair(v, x, y), y.(dirty := false, valid := true);
    assert map["a" := x]["a" := x.(valid := false)] == map["a" := x.(valid := false)];
    assert Called(s, 1, "a") == [map["a" := x.(valid := false)], map["a" := y]];
    assert map["a" := v]["a" := y.data] == map["a" := y.data];
    WithSecond(y.data, x.(valid := false), y, z);
    assert Stored(s, 1, "a") == Pair(y.data, x.(valid := false), z);
    WithSecond(y.data, x.(valid := false), z, z.(refcnt := y.refcnt - 1));
  }

  function First(): State { Start(map["a" := 0], 2) }

  /** What an open at the start leaves in the cache. */
  function Copy(): Entry { Entry(0, false, 1, true) }

  /** Both clients open the file. */
  lemma BothOpen() returns (ops: seq<Op>)
    ensures ops == [Open(0, "a"), Open(1, "a")]
    ensures AllEnabled(First(), ops) && Run(First(), ops) == Pair(0, Copy(), Copy())
  {
    var s0, none := First(), [];
    ops := none + [Open(0, "a")];
    RunThen(s0, none, Open(0, "a"));
    var s1 := Step(s0, Open(0, "a"));
    assert s1.lists[0] == ["a"] && s1.caches[0] == map["a" := Copy()] && s1.caches[1] == map[] && s1.lists[1] == [];
    RunThen(s0, ops, Open(1, "a"));
    ops := ops + [Open(1, "a")];
    var s2 := Step(s1, Open(1, "a"));
    assert s2.lists == [["a"], ["a"]] && s2.caches == [map["a" := Copy()], map["a" := Copy()]];
  }

  /** The next close by the other client, of a version n. */
  lemma OtherPublishes(ops: seq<Op>, v: int, x: Entry, y: Entry, n: int) returns (next: seq<Op>)
    requires AllEnabled(First(), ops) && Run(First(), ops) == Pair(v, x, y)
    ensures next == ops + [Write(1, "a", n), Close(1, "a")]
    ensures AllEnabled(First(), next)
    ensures Run(First(), next) == Pair(n, x.(valid := false), Entry(n, false, y.refcnt - 1, true))
  {
    SecondWrites(v, x, y, n);
    RunThen(First(), ops, Write(1, "a", n));
    next := ops + [Write(1, "a", n)];
    SecondPublishes(v, x, y.(data := n, dirty := true));
    RunThen(First(), next, Close(1, "a"));
    next := next + [Close(1, "a")];
  }

  /** With a file open twice by one client the promise fails: client 0 has it open and wrote nothing, and its
      second open, after client 1 changed the file, changes what the first session reads from 0 to 5. */
  lemma SecondOpenLeaks() returns (ops: seq<Op>)
    ensures ops == [Open(0, "a"), Open(1, "a"), Write(1, "a", 5), Close(1, "a")]
    ensures && AllEnabled(First(), ops) && Enabled(Run(First(), ops), Open(0, "a"))
            && "a" in Run(First(), ops).caches[0] && Run(First(), ops).caches[0]["a"].data == 0
            && Opened(Run(First(), ops), 0, "a").caches[0]["a"].data == 5
  {
    ops := BothOpen();
    ops := OtherPublishes(ops, 0, Copy(), Copy(), 5);
    FirstOpens(5, Copy().(valid := false), Entry(5, false, 0, true));
  }

  /** A second open does not see the last closed version: it sees the first session's 5, with 0 at the server. */
  lemma SecondOpenSeesWrite() returns (ops: seq<Op>)
    ensures ops == [Open(0, "a"), Open(1, "a"), Write(0, "a", 5)]
    ensures && AllEnabled(First(), ops) && Enabled(Run(First(), ops), Open(0, "a"))
            && Run(First(), ops).contents["a"] == 0
            && Opened(Run(First(), ops), 0, "a").caches[0]["a"].data == 5
  {
    ops := BothOpen();
    ops := FirstWritesNext(ops, 0, Copy(), Copy(), 5);
    FirstOpens(0, Entry(5, true, 1, true), Copy());
  }

  lemma FirstOpensNext(ops: seq<Op>, v: int, x: Entry, y: Entry) returns (next: seq<Op>)
    requires AllEnabled(First(), ops) && Run(First(), ops) == Pair(v, x, y)
    ensures next == ops + [Open(0, "a")]
    ensures AllEnabled(First(), next) && Run(First(), next) == Pair(v, Reopened(v, x), y)
  {
    FirstOpens(v, x, y);
    RunThen(First(), ops, Open(0, "a"));
    next := ops + [Open(0, "a")];
  }

  lemma SecondOpensNext(ops: seq<Op>, v: int, x: Entry, y: Entry) returns (next: seq<Op>)
    requires AllEnabled(First(), ops) && Run(First(), ops) == Pair(v, x, y)
    ensures next == ops + [Open(1, "a")]
    ensures AllEnabled(First(), next) && Run(First(), next) == Pair(v, x, Reopened(v, y))
  {
    SecondOpens(v, x, y);
    RunThen(First(), ops, Open(1, "a"));
    next := ops + [Open(1, "a")];
  }

  lemma FirstWritesNext(ops: seq<Op>, v: int, x: Entry, y: Entry, n: int) returns (next: seq<Op>)
    requires AllEnabled(First(), ops) && Run(First(), ops) == Pair(v, x, y)
    ensures next == ops + [Write(0, "a", n)]
    ensures AllEnabled(First(), next) && Run(First(), next) == Pair(v, x.(data := n, dirty := true), y)
  {
    FirstWrites(v, x, y, n);
    RunThen(First(), ops, Write(0, "a", n));
    next := ops + [Write(0, "a", n)];
  }

  /** A close without a write leaves the server as it is, and drops a copy called back. */
  lemma FirstClosesNext(ops: seq<Op>, v: int, x: Entry, y: Entry) returns (next: seq<Op>)
    requires AllEnabled(First(), ops) && Run(First(), ops) == Pair(v, x, y) && !x.dirty && x.refcnt == 1
    ensures next == ops + [Close(0, "a")]
    ensures AllEnabled(First(), next) && Run(First(), next).contents == map["a" := v]
    ensures !x.valid ==> !Enabled(Run(First(), next), Read(0, "a"))
  {
    CloseDrops(Pair(v, x, y), 0, "a");
    RunThen(First(), ops, Close(0, "a"));
    next := ops + [Close(0, "a")];
  }

  /** A write is lost: client 0 writes 7, opens the file again after client 1 closed version 5, and closes it; its
      close leaves 5. */
  lemma SecondOpenLosesWrite() returns (ops: seq<Op>)
    ensures ops == [Open(0, "a"), Open(1, "a"), Write(0, "a", 7), Write(1, "a", 5), Close(1, "a"), Open(0, "a"),
                    Close(0, "a")]
    ensures AllEnabled(First(), ops) && Run(First(), ops).contents == map["a" := 5]
  {
    ops := BothOpen();
    ops := FirstWritesNext(ops, 0, Copy(), Copy(), 7);
    ops := OtherPublishes(ops, 0, Entry(7, true, 1, true), Copy(), 5);
    ops := FirstOpensNext(ops, 5, Entry(7, true, 1, false), Entry(5, false, 0, true));
    ops := FirstClosesNext(ops, 5, Entry(5, false, 1, true), Entry(5, false, 0, true));
  }

  /** A session loses its file: client 0 opens it again after client 1 closed a version, client 1 closes another,
      and the first close of client 0 takes the file away from its other session, whose read fails. */
  lemma SecondOpenLosesFile() returns (ops: seq<Op>)
    ensures ops == [Open(0, "a"), Open(1, "a"), Write(1, "a", 5), Close(1, "a"), Open(0, "a"), Open(1, "a"),
                    Write(1, "a", 6), Close(1, "a"), Close(0, "a")]
    ensures AllEnabled(First(), ops) && !Enabled(Run(First(), ops), Read(0, "a"))
  {
    var x, y := Entry(5, false, 1, true), Entry(5, false, 0, true);
    ops := BothOpen();
    ops := OtherPublishes(ops, 0, Copy(), Copy(), 5);
    ops := FirstOpensNext(ops, 5, Copy().(valid := false), y);
    ops := SecondOpensNext(ops, 5, x, y);
    ops := OtherPublishes(ops, 5, x, x, 6);
    ops := FirstClosesNext(ops, 6, x.(valid := false), Entry(6, false, 0, true));
  }

  // ---------- The objects ----------

  /** A client's cache. */
  class ClientCache {
    var cache: Cache

    constructor ()
      ensures cache == map[]
    {
      cache := map[];
    }

    method Put(f: string, data: int, dirty: bool, refcnt: int)
      modifies this
      ensures cache == old(cache)[f := Entry(data, dirty, refcnt, true)]
    {
      cache := cache[f := Entry(data, dirty, refcnt, true)];
    }

    method Update(f: string, data: int)
      requires f in cache
      modifies this
      ensures cache == old(cache)[f := old(cache)[f].(data := data, dirty := true)]
    {
      cache := cache[f := Entry(data, true, cache[f].refcnt, cache[f].valid)];
    }

    method Invalidate(f: string)
      modifies this
      ensures cache == Invalidated(old(cache), f)
    {
      if f !in cache {
        return;
      }
      cache := cache[f := Entry(cache[f].data, cache[f].dirty, cache[f].refcnt, false)];
    }

    method CheckValid(f: string)
      requires f in cache
      modifies this
      ensures cache == if !old(cache)[f].valid && old(cache)[f].refcnt == 0 then old(cache) - {f} else old(cache)
    {
      if cache[f].valid == false && cache[f].refcnt == 0 {
        cache := cache - {f};
      }
    }

    method AddRef(f: string, n: int)
      requires f in cache
      modifies this
      ensures cache == old(cache)[f := old(cache)[f].(refcnt := old(cache)[f].refcnt + n)]
    {
      cache := cache[f := Entry(cache[f].data, cache[f].dirty, cache[f].refcnt + n, cache[f].valid)];
    }

    method SetCleanAndValid(f: string)
      requires f in cache
      modifies this
      ensures cache == old(cache)[f := old(cache)[f].(dirty := false, valid := true)]
    {
      cache := cache[f := Entry(cache[f].data, false, cache[f].refcnt, cache[f].valid)];
      cache := cache[f := Entry(cache[f].data, cache[f].dirty, cache[f].refcnt, true)];
    }
  }

  /** The server, with its clients. */
  class Server {
    var contents: map<string, int>
    var lists: seq<seq<string>>
    const clients: seq<ClientCache>

    predicate Valid()
      reads this
    {
      |lists| == |clients| && forall i, j :: 0 <= i < j < |clients| ==> clients[i] != clients[j]
    }

    ghost function Caches(): (r: seq<Cache>)
      reads clients
      ensures |r| == |clients| && forall i :: 0 <= i < |r| ==> r[i] == clients[i].cache
    {
      seq(|clients|, i requires 0 <= i < |clients| reads clients => clients[i].cache)
    }

    ghost function S(): State
      reads this, clients
    {
      State(contents, lists, Caches())
    }

    constructor (files: map<string, int>, clients: seq<ClientCache>)
      requires forall i, j :: 0 <= i < j < |clients| ==> clients[i] != clients[j]
      requires forall i :: 0 <= i < |clients| ==> clients[i].cache == map[]
      ensures Valid() && this.clients == clients && S() == Start(files, |clients|)
    {
      contents := files;
      lists := seq(|clients|, _ => []);
      this.clients := clients;
    }

    method Get(c: nat, f: string) returns (data: int)
      requires Valid() && c < |clients| && f in contents
      modifies this`lists
      ensures Valid() && data == contents[f] && lists == old(lists)[c := Remember(old(lists)[c], f)]
    {
      if f !in lists[c] {
        lists := lists[c := lists[c] + [f]];
      }
      data := contents[f];
    }

    /** A new version, and callbacks to the other clients that hold the file. */
    method Put(c: nat, f: string, value: int)
      requires Valid() && c < |clients| && f in contents
      modifies this`contents, clients
      ensures Valid() && contents == old(contents)[f := value] && Caches() == Called(old(S()), c, f)
    {
      contents := contents[f := value];
      for i := 0 to |clients|
        invariant contents == old(contents)[f := value]
        invariant forall k :: 0 <= k < i ==> clients[k].cache == Called(old(S()), c, f)[k]
        invariant forall k :: i <= k < |clients| ==> clients[k].cache == old(Caches())[k]
      {
        if f in lists[i] && i != c {
          clients[i].Invalidate(f);
        }
      }
    }

    /** The client's getfile. */
    method GetFile(c: nat, f: string)
      requires Valid() && c < |clients| && f in contents
      modifies this`lists, clients[c]
      ensures Valid() && S() == Opened(old(S()), c, f)
    {
      var k := clients[c];
      if !(f in k.cache && k.cache[f].valid) {
        var data := Get(c, f);
        k.Put(f, data, false, 0);
      }
      k.AddRef(f, 1);
      assert Caches() == old(Caches())[c := k.cache];
    }

    /** The client's putfile. */
    method PutFile(c: nat, f: string, value: int)
      requires Valid() && c < |clients| && f in contents && f in clients[c].cache && value == clients[c].cache[f].data
      modifies this`contents, clients
      ensures Valid() && S() == Stored(old(S()), c, f)
    {
      Put(c, f, value);
      assert clients[c].cache == old(Caches())[c];
      clients[c].SetCleanAndValid(f);
      assert Caches() == Called(old(S()), c, f)[c := clients[c].cache];
    }

    method CloseFile(c: nat, f: string)
      requires Valid() && c < |clients| && f in contents && f in clients[c].cache
      modifies this`contents, clients
      ensures Valid() && S() == Closed(old(S()), c, f)
    {
      var k := clients[c];
      if k.cache[f].dirty {
        PutFile(c, f, k.cache[f].data);
      }
      Release(c, f);
    }

    method Release(c: nat, f: string)
      requires Valid() && c < |clients| && f in clients[c].cache
      modifies clients[c]
      ensures Valid() && S() == WithCache(old(S()), c, Released(old(S()).caches[c], f))
    {
      var k := clients[c];
      ghost var e := k.cache[f].(refcnt := k.cache[f].refcnt - 1);
      assert k.cache[f := e] - {f} == k.cache - {f};
      k.AddRef(f, -1);
      k.CheckValid(f);
      assert Caches() == old(Caches())[c := k.cache];
    }

    /** One action of a client; a read returns what is cached. */
    method Act(op: Op) returns (value: int)
      requires Valid() && Enabled(S(), op)
      modifies this, clients
      ensures Valid() && S() == Step(old(S()), op)
      ensures op.Read? ==> value == old(S()).caches[op.c][op.f].data
    {
      value := 0;
      match op
      case Open(c, f) =>
        GetFile(c, f);
      case Read(c, f) =>
        value := clients[c].cache[f].data;
      case Write(c, f, v) =>
        clients[c].Update(f, v);
        assert Caches() == old(Caches())[c := clients[c].cache];
      case Close(c, f) =>
        CloseFile(c, f);
    }
  }
}
