/**
 The process tree of fork.py: forks, exits under both rules for orphans, the walk over a process and its
 descendants, and the supply of names. A process that has exited is taken out of the maps, where the
 program leaves -1. Printing and the choice of actions are left out.
 */
module Fork {
  import opened Arith
  import opened Collections

  const ROOT := "a"

  /** The processes in order, the children of each, and the parent of each but the root. */
  datatype State = State(procs: seq<string>, children: map<string, seq<string>>, parents: map<string, string>)

  // ---------- The invariant ----------

  predicate LinkOk(s: State, c: string) {
    c in s.parents ==> c in s.children && s.parents[c] in s.children && c in s.children[s.parents[c]]
  }

  predicate ChildOf(s: State, p: string, c: string) {
    c in s.parents && s.parents[c] == p
  }

  predicate KidsOk(s: State, p: string) {
    p in s.children ==>
      Unique(s.children[p]) && forall k :: 0 <= k < |s.children[p]| ==> ChildOf(s, p, s.children[p][k])
  }

  /** Parents come before children in some order: there is no cycle. */
  predicate RankOk(s: State, rank: string -> nat, bound: nat, c: string) {
    && (c in s.children ==> rank(c) <= bound)
    && (c in s.parents ==> rank(s.parents[c]) < rank(c))
  }

  predicate ListOk(s: State, c: string) {
    && (c in s.procs <==> c in s.children)
    && (c in s.parents <==> c in s.children && c != ROOT)
  }

  /** Parents and children mirror each other, without cycles, over exactly the processes listed. */
  ghost predicate Tree(s: State, rank: string -> nat, bound: nat) {
    && Unique(s.procs) && ROOT in s.children
    && (forall c :: ListOk(s, c)) && (forall c :: LinkOk(s, c)) && (forall p :: KidsOk(s, p))
    && (forall c :: RankOk(s, rank, bound, c))
  }

  // ---------- Descendants ----------

  /** A process and its descendants, parents first. */
  function Collect(s: State, p: string, ghost rank: string -> nat, ghost bound: nat): seq<string>
    requires Tree(s, rank, bound) && p in s.children
    decreases bound - rank(p), 1, 0
  {
    assert RankOk(s, rank, bound, p) && KidsOk(s, p);
    [p] + CollectAll(s, p, s.children[p], rank, bound)
  }

  function CollectAll(s: State, p: string, kids: seq<string>, ghost rank: string -> nat, ghost bound: nat): seq<string>
    requires Tree(s, rank, bound) && p in s.children && forall k :: 0 <= k < |kids| ==> ChildOf(s, p, kids[k])
    decreases bound - rank(p), 0, |kids|
  {
    if kids == [] then []
    else
      assert ChildOf(s, p, kids[0]) && LinkOk(s, kids[0]) && RankOk(s, rank, bound, kids[0])
             && RankOk(s, rank, bound, p);
      Collect(s, kids[0], rank, bound) + CollectAll(s, p, kids[1..], rank, bound)
  }

  /** c is p, or p is above it. */
  ghost predicate Under(s: State, c: string, p: string, rank: string -> nat, bound: nat)
    requires Tree(s, rank, bound)
    decreases rank(c)
  {
    assert RankOk(s, rank, bound, c);
    c == p || (c in s.parents && Under(s, s.parents[c], p, rank, bound))
  }

  lemma {:induction false} UnderRank(s: State, c: string, p: string, rank: string -> nat, bound: nat)
    requires Tree(s, rank, bound) && Under(s, c, p, rank, bound)
    ensures rank(p) <= rank(c) && (c != p ==> rank(p) < rank(c))
    ensures p in s.children ==> c in s.children
    decreases rank(c)
  {
    assert RankOk(s, rank, bound, c) && LinkOk(s, c);
    if c != p {
      UnderRank(s, s.parents[c], p, rank, bound);
    }
  }

  lemma {:induction false} UnderTrans(s: State, c: string, q: string, p: string, rank: string -> nat, bound: nat)
    requires Tree(s, rank, bound) && Under(s, c, q, rank, bound) && Under(s, q, p, rank, bound)
    ensures Under(s, c, p, rank, bound)
    decreases rank(c)
  {
    assert RankOk(s, rank, bound, c);
    if c != q {
      UnderTrans(s, s.parents[c], q, p, rank, bound);
    }
  }

  /** Two children of one process share no descendant. */
  lemma {:induction false} SiblingsApart(s: State, c: string, p: string, a: string, b: string, rank: string -> nat,
                                         bound: nat)
    requires Tree(s, rank, bound) && ChildOf(s, p, a) && ChildOf(s, p, b)
    requires Under(s, c, a, rank, bound) && Under(s, c, b, rank, bound)
    ensures a == b
    decreases rank(c)
  {
    assert RankOk(s, rank, bound, c) && RankOk(s, rank, bound, a) && RankOk(s, rank, bound, b);
    if a != b {
      if c == a {
        UnderRank(s, p, b, rank, bound);
      } else if c == b {
        UnderRank(s, p, a, rank, bound);
      } else {
        SiblingsApart(s, s.parents[c], p, a, b, rank, bound);
      }
    }
  }

  /** What is collected is under the process. */
  lemma {:induction false} CollectUnder(s: State, p: string, c: string, rank: string -> nat, bound: nat)
    requires Tree(s, rank, bound) && p in s.children && c in Collect(s, p, rank, bound)
    ensures c in s.children && Under(s, c, p, rank, bound)
    decreases bound - rank(p), 1, 0
  {
    assert RankOk(s, rank, bound, p) && KidsOk(s, p);
    if c != p {
      var kid := CollectAllUnder(s, p, s.children[p], c, rank, bound);
      UnderTrans(s, c, kid, p, rank, bound);
    }
  }

  lemma {:induction false} CollectAllUnder(s: State, p: string, kids: seq<string>, c: string, rank: string -> nat,
                                           bound: nat)
    returns (kid: string)
    requires Tree(s, rank, bound) && p in s.children && forall k :: 0 <= k < |kids| ==> ChildOf(s, p, kids[k])
    requires c in CollectAll(s, p, kids, rank, bound)
    ensures kid in kids && ChildOf(s, p, kid) && c in s.children && Under(s, c, kid, rank, bound)
            && Under(s, kid, p, rank, bound)
    decreases bound - rank(p), 0, |kids|
  {
    assert ChildOf(s, p, kids[0]) && LinkOk(s, kids[0]) && RankOk(s, rank, bound, kids[0]) && RankOk(s, rank, bound, p);
    if c in Collect(s, kids[0], rank, bound) {
      kid := kids[0];
      CollectUnder(s, kid, c, rank, bound);
    } else {
      kid := CollectAllUnder(s, p, kids[1..], c, rank, bound);
    }
  }

  /** With a process all its children are collected. */
  lemma {:induction false} CollectClosed(s: State, p: string, q: string, c: string, rank: string -> nat, bound: nat)
    requires Tree(s, rank, bound) && p in s.children && q in Collect(s, p, rank, bound) && ChildOf(s, q, c)
    ensures c in Collect(s, p, rank, bound)
    decreases bound - rank(p), 1, 0
  {
    assert RankOk(s, rank, bound, p) && KidsOk(s, p) && LinkOk(s, c);
    if q == p {
      CollectHasKid(s, p, s.children[p], c, rank, bound);
    } else {
      CollectAllClosed(s, p, s.children[p], q, c, rank, bound);
    }
  }

  lemma {:induction false} CollectHasKid(s: State, p: string, kids: seq<string>, c: string, rank: string -> nat,
                                         bound: nat)
    requires Tree(s, rank, bound) && p in s.children && forall k :: 0 <= k < |kids| ==> ChildOf(s, p, kids[k])
    requires c in kids
    ensures c in CollectAll(s, p, kids, rank, bound)
    decreases |kids|
  {
    assert ChildOf(s, p, kids[0]) && LinkOk(s, kids[0]) && RankOk(s, rank, bound, kids[0]) && RankOk(s, rank, bound, p);
    if c == kids[0] {
      assert Collect(s, c, rank, bound)[0] == c;
    } else {
      CollectHasKid(s, p, kids[1..], c, rank, bound);
    }
  }

  lemma {:induction false} CollectAllClosed(s: State, p: string, kids: seq<string>, q: string, c: string,
                                            rank: string -> nat, bound: nat)
    requires Tree(s, rank, bound) && p in s.children && forall k :: 0 <= k < |kids| ==> ChildOf(s, p, kids[k])
    requires q in CollectAll(s, p, kids, rank, bound) && ChildOf(s, q, c)
    ensures c in CollectAll(s, p, kids, rank, bound)
    decreases bound - rank(p), 0, |kids|
  {
    assert ChildOf(s, p, kids[0]) && LinkOk(s, kids[0]) && RankOk(s, rank, bound, kids[0]) && RankOk(s, rank, bound, p);
    if q in Collect(s, kids[0], rank, bound) {
      CollectClosed(s, kids[0], q, c, rank, bound);
    } else {
      CollectAllClosed(s, p, kids[1..], q, c, rank, bound);
    }
  }

  /** Everything under the process is collected. */
  lemma {:induction false} UnderCollect(s: State, p: string, c: string, rank: string -> nat, bound: nat)
    requires Tree(s, rank, bound) && p in s.children && Under(s, c, p, rank, bound)
    ensures c in Collect(s, p, rank, bound)
    decreases rank(c)
  {
    assert RankOk(s, rank, bound, c);
    if c == p {
      assert Collect(s, p, rank, bound)[0] == p;
    } else {
      UnderCollect(s, p, s.parents[c], rank, bound);
      CollectClosed(s, p, s.parents[c], c, rank, bound);
    }
  }

  lemma UniqueConcat(s: seq<string>, t: seq<string>)
    requires Unique(s) && Unique(t) && forall x :: !(x in s && x in t)
    ensures Unique(s + t)
  {
    forall i, j | 0 <= i < j < |s + t|
      ensures (s + t)[i] != (s + t)[j]
    {
      if i < |s| <= j {
        assert s[i] in s && t[j - |s|] in t;
      }
    }
  }

  /** Nobody is collected twice. */
  lemma {:induction false} CollectUnique(s: State, p: string, rank: string -> nat, bound: nat)
    requires Tree(s, rank, bound) && p in s.children
    ensures Unique(Collect(s, p, rank, bound))
    decreases bound - rank(p), 1, 0
  {
    assert RankOk(s, rank, bound, p) && KidsOk(s, p);
    CollectAllUnique(s, p, s.children[p], rank, bound);
    forall x | x in CollectAll(s, p, s.children[p], rank, bound)
      ensures x != p
    {
      var kid := CollectAllUnder(s, p, s.children[p], x, rank, bound);
      assert RankOk(s, rank, bound, kid);
      UnderRank(s, x, kid, rank, bound);
    }
    UniqueConcat([p], CollectAll(s, p, s.children[p], rank, bound));
  }

  lemma {:induction false} CollectAllUnique(s: State, p: string, kids: seq<string>, rank: string -> nat, bound: nat)
    requires Tree(s, rank, bound) && p in s.children && Unique(kids)
    requires forall k :: 0 <= k < |kids| ==> ChildOf(s, p, kids[k])
    ensures Unique(CollectAll(s, p, kids, rank, bound))
    decreases bound - rank(p), 0, |kids|
  {
    if kids != [] {
      assert ChildOf(s, p, kids[0]) && LinkOk(s, kids[0]) && RankOk(s, rank, bound, kids[0])
             && RankOk(s, rank, bound, p);
      CollectUnique(s, kids[0], rank, bound);
      CollectAllUnique(s, p, kids[1..], rank, bound);
      forall x | x in Collect(s, kids[0], rank, bound)
        ensures x !in CollectAll(s, p, kids[1..], rank, bound)
      {
        OtherKids(s, p, kids, x, rank, bound);
      }
      UniqueConcat(Collect(s, kids[0], rank, bound), CollectAll(s, p, kids[1..], rank, bound));
    }
  }

  lemma OtherKids(s: State, p: string, kids: seq<string>, x: string, rank: string -> nat, bound: nat)
    requires Tree(s, rank, bound) && p in s.children && Unique(kids)
    requires forall k :: 0 <= k < |kids| ==> ChildOf(s, p, kids[k])
    requires kids != [] && kids[0] in s.children && x in Collect(s, kids[0], rank, bound)
    ensures x !in CollectAll(s, p, kids[1..], rank, bound)
  {
    CollectUnder(s, kids[0], x, rank, bound);
    if x in CollectAll(s, p, kids[1..], rank, bound) {
      var kid := CollectAllUnder(s, p, kids[1..], x, rank, bound);
      assert ChildOf(s, p, kids[0]);
      SiblingsApart(s, x, p, kids[0], kid, rank, bound);
    }
  }

  /** Every process is under the root. */
  lemma {:induction false} AllUnderRoot(s: State, c: string, rank: string -> nat, bound: nat)
    requires Tree(s, rank, bound) && c in s.children
    ensures Under(s, c, ROOT, rank, bound)
    decreases rank(c)
  {
    assert ListOk(s, c) && LinkOk(s, c) && RankOk(s, rank, bound, c);
    if c != ROOT {
      AllUnderRoot(s, s.parents[c], rank, bound);
    }
  }

  lemma {:induction false} SameMembers(s: seq<string>, t: seq<string>)
    requires Unique(s) && Unique(t) && forall x :: x in s <==> x in t
    ensures multiset(s) == multiset(t)
  {
    if s == [] {
      forall x
        ensures multiset(t)[x] == 0
      {
        assert x in s <==> x in t;
      }
      assert multiset(t) == multiset{};
    } else {
      var x := s[0];
      assert x in s;
      RemoveUnique(s, x);
      RemoveUnique(t, x);
      SameMembers(Remove(s, x), Remove(t, x));
      RemoveMultiset(s, x);
      RemoveMultiset(t, x);
    }
  }

  /** The walk from the root meets every process, once. */
  lemma RootCollectsAll(s: State, rank: string -> nat, bound: nat)
    requires Tree(s, rank, bound)
    ensures multiset(Collect(s, ROOT, rank, bound)) == multiset(s.procs)
  {
    CollectUnique(s, ROOT, rank, bound);
    forall x
      ensures x in Collect(s, ROOT, rank, bound) <==> x in s.procs
    {
      assert ListOk(s, x);
      if x in s.procs {
        AllUnderRoot(s, x, rank, bound);
        UnderCollect(s, ROOT, x, rank, bound);
      }
      if x in Collect(s, ROOT, rank, bound) {
        CollectUnder(s, ROOT, x, rank, bound);
      }
    }
    SameMembers(Collect(s, ROOT, rank, bound), s.procs);
  }

  // ---------- Fork ----------

  function Forked(s: State, p: string, c: string): State
    requires p in s.children
  {
    var kids := s.children[c := []];
    State(s.procs + [c], kids[p := kids[p] + [c]], s.parents[c := p])
  }

  function RankAfterFork(rank: string -> nat, p: string, c: string): string -> nat {
    (x: string) => if x == c then rank(p) + 1 else rank(x)
  }

  /** The new process comes after its parent, the others where they were. */
  ghost predicate After(rank: string -> nat, rank2: string -> nat, p: string, c: string) {
    rank2(c) == rank(p) + 1 && forall x :: x != c ==> rank2(x) == rank(x)
  }

  lemma ForkLinks(s: State, p: string, c: string, rank: string -> nat, rank2: string -> nat, bound: nat, x: string)
    requires Tree(s, rank, bound) && p in s.children && c !in s.procs && After(rank, rank2, p, c)
    ensures var t := Forked(s, p, c); ListOk(t, x) && LinkOk(t, x) && KidsOk(t, x) && RankOk(t, rank2, bound + 1, x)
  {
    var t := Forked(s, p, c);
    assert ListOk(s, x) && LinkOk(s, x) && KidsOk(s, x) && RankOk(s, rank, bound, x);
    assert ListOk(s, c) && KidsOk(s, p) && RankOk(s, rank, bound, p) && ListOk(s, p);
    if x in s.parents {
      assert ListOk(s, s.parents[x]);
    }
    if x in t.children {
      forall k | 0 <= k < |t.children[x]|
        ensures ChildOf(t, x, t.children[x][k])
      {
        if x in s.children && k < |s.children[x]| {
          assert ChildOf(s, x, s.children[x][k]);
          assert ListOk(s, s.children[x][k]);
        }
      }
      KidsUnique(s, p, c, x);
    }
  }

  lemma KidsUnique(s: State, p: string, c: string, x: string)
    requires p in s.children && KidsOk(s, x) && c !in s.children && c !in s.parents && x in Forked(s, p, c).children
    ensures Unique(Forked(s, p, c).children[x])
  {
    if x in s.children && x == p {
      forall k | 0 <= k < |s.children[p]|
        ensures s.children[p][k] != c
      {
        assert ChildOf(s, p, s.children[p][k]);
      }
    }
  }

  /** A fork keeps the tree exactly when the new name is not in use. */
  lemma ForkKeeps(s: State, p: string, c: string, rank: string -> nat, rank2: string -> nat, bound: nat)
    requires Tree(s, rank, bound) && p in s.children && After(rank, rank2, p, c)
    ensures Tree(Forked(s, p, c), rank2, bound + 1) <==> c !in s.procs
    ensures c in s.procs ==> forall r: string -> nat, b: nat :: !Tree(Forked(s, p, c), r, b)
  {
    var t, bound2 := Forked(s, p, c), bound + 1;
    if c !in s.procs {
      forall x
        ensures ListOk(t, x) && LinkOk(t, x) && KidsOk(t, x) && RankOk(t, rank2, bound2, x)
      {
        ForkLinks(s, p, c, rank, rank2, bound, x);
      }
      UniqueConcat(s.procs, [c]);
    } else {
      ForkBreaks(s, p, c);
    }
  }

  lemma ForkBreaks(s: State, p: string, c: string)
    requires p in s.children && c in s.procs
    ensures forall r: string -> nat, b: nat :: !Tree(Forked(s, p, c), r, b)
  {
    var t := Forked(s, p, c);
    var k :| 0 <= k < |s.procs| && s.procs[k] == c;
    assert t.procs[k] == c && t.procs[|s.procs|] == c;
  }

  lemma ForkKeepsSomeOrder(s: State, p: string, c: string, rank: string -> nat, bound: nat)
      returns (rank2: string -> nat)
    requires Tree(s, rank, bound) && p in s.children && c !in s.procs
    ensures Tree(Forked(s, p, c), rank2, bound + 1)
  {
    rank2 := RankAfterFork(rank, p, c);
    ForkKeeps(s, p, c, rank, rank2, bound);
  }

  // ---------- Exit ----------

  /** Each of a list of processes gets a parent. */
  function Adopt(parents: map<string, string>, kids: seq<string>, p: string): (r: map<string, string>)
    ensures forall x :: x in r <==> x in parents || x in kids
    ensures forall x :: x in r ==> r[x] == if x in kids then p else parents[x]
  {
    if kids == [] then parents else Adopt(parents, kids[..|kids| - 1], p)[kids[|kids| - 1] := p]
  }

  /** Each of a list of processes loses its children. */
  function Clear(children: map<string, seq<string>>, ds: seq<string>): (r: map<string, seq<string>>)
    ensures forall x :: x in r <==> x in children || x in ds
    ensures forall x :: x in r ==> r[x] == if x in ds then [] else children[x]
  {
    if ds == [] then children else Clear(children, ds[..|ds| - 1])[ds[|ds| - 1] := []]
  }

  predicate CanExit(s: State, p: string) {
    p in s.parents && p in s.procs && p in s.children && s.parents[p] in s.children && p in s.children[s.parents[p]]
    && ROOT in s.children && ROOT != p && s.parents[p] != p
  }

  lemma ExitPossible(s: State, p: string, rank: string -> nat, bound: nat)
    requires Tree(s, rank, bound) && p in s.procs && p != ROOT
    ensures CanExit(s, p)
  {
    assert ListOk(s, p) && LinkOk(s, p) && RankOk(s, rank, bound, p);
  }

  /** The orphans go to the parent of the process. */
  function ExitedLocal(s: State, p: string): State
    requires CanExit(s, p)
  {
    var q := s.parents[p];
    State(Remove(s.procs, p),
          s.children[q := Remove(s.children[q] + s.children[p], p)] - {p},
          Adopt(s.parents, s.children[p], q) - {p})
  }

  /** All descendants `ds` go to the root. */
  function ExitedRoot(s: State, p: string, ds: seq<string>): State
    requires CanExit(s, p) && s.parents[p] !in ds && ROOT !in ds
  {
    var q := s.parents[p];
    var kids := Clear(s.children, ds);
    var kids2 := kids[ROOT := kids[ROOT] + ds];
    State(Remove(s.procs, p),
          kids2[q := Remove(kids2[q], p)] - {p},
          Adopt(s.parents, ds, ROOT) - {p})
  }

  lemma LocalKids(s: State, p: string, rank: string -> nat, bound: nat)
    requires Tree(s, rank, bound) && p in s.procs && p != ROOT
    ensures CanExit(s, p)
    ensures var q := s.parents[p];
            var l := Remove(s.children[q] + s.children[p], p);
            Unique(l) && forall y :: y in l <==> (ChildOf(s, q, y) && y != p) || ChildOf(s, p, y)
  {
    ExitPossible(s, p, rank, bound);
    var q := s.parents[p];
    assert KidsOk(s, q) && KidsOk(s, p) && RankOk(s, rank, bound, p);
    forall y
      ensures y in s.children[q] <==> ChildOf(s, q, y)
      ensures y in s.children[p] <==> ChildOf(s, p, y)
    {
      KidIff(s, q, y, rank, bound);
      KidIff(s, p, y, rank, bound);
    }
    UniqueConcat(s.children[q], s.children[p]);
    RemoveUnique(s.children[q] + s.children[p], p);
  }

  lemma KidIff(s: State, p: string, y: string, rank: string -> nat, bound: nat)
    requires Tree(s, rank, bound) && p in s.children
    ensures y in s.children[p] <==> ChildOf(s, p, y)
  {
    assert KidsOk(s, p) && LinkOk(s, y);
    if y in s.children[p] {
      var k :| 0 <= k < |s.children[p]| && s.children[p][k] == y;
      assert ChildOf(s, p, s.children[p][k]);
    }
  }

  lemma LocalLinks(s: State, p: string, rank: string -> nat, bound: nat, x: string)
    requires Tree(s, rank, bound) && p in s.procs && p != ROOT
    ensures CanExit(s, p)
    ensures var t := ExitedLocal(s, p); ListOk(t, x) && LinkOk(t, x) && KidsOk(t, x) && RankOk(t, rank, bound, x)
  {
    LocalKids(s, p, rank, bound);
    var t, q := ExitedLocal(s, p), s.parents[p];
    RemoveUnique(s.procs, p);
    assert ListOk(s, x) && LinkOk(s, x) && KidsOk(s, x) && RankOk(s, rank, bound, x) && RankOk(s, rank, bound, p);
    KidIff(s, p, x, rank, bound);
    KidIff(s, p, p, rank, bound);
    if x in t.children {
      forall k | 0 <= k < |t.children[x]|
        ensures ChildOf(t, x, t.children[x][k])
      {
        var y := t.children[x][k];
        assert y in t.children[x];
        KidIff(s, x, y, rank, bound);
        KidIff(s, p, y, rank, bound);
        assert RankOk(s, rank, bound, y);
      }
    }
  }

  /** With orphans going to the grandparent, the same order still puts parents first. */
  lemma LocalKeeps(s: State, p: string, rank: string -> nat, bound: nat)
    requires Tree(s, rank, bound) && p in s.procs && p != ROOT
    ensures CanExit(s, p) && Tree(ExitedLocal(s, p), rank, bound)
  {
    ExitPossible(s, p, rank, bound);
    RemoveUnique(s.procs, p);
    var t := ExitedLocal(s, p);
    forall x
      ensures ListOk(t, x) && LinkOk(t, x) && KidsOk(t, x) && RankOk(t, rank, bound, x)
    {
      LocalLinks(s, p, rank, bound, x);
    }
  }

  /** The descendants as the program gets them: the walk, without the process itself. */
  function Descendants(s: State, p: string, ghost rank: string -> nat, ghost bound: nat): seq<string>
    requires Tree(s, rank, bound) && p in s.children
  {
    var all := Collect(s, p, rank, bound);
    assert all[0] == p;
    Remove(all, p)
  }

  lemma DescendantsAre(s: State, p: string, rank: string -> nat, bound: nat)
    requires Tree(s, rank, bound) && p in s.children
    ensures Unique(Descendants(s, p, rank, bound))
    ensures forall y :: y in Descendants(s, p, rank, bound) <==>
              y != p && y in s.children && Under(s, y, p, rank, bound)
  {
    CollectUnique(s, p, rank, bound);
    var all := Collect(s, p, rank, bound);
    assert all[0] == p;
    RemoveUnique(all, p);
    forall y
      ensures y in all <==> y in s.children && Under(s, y, p, rank, bound)
    {
      if y in all {
        CollectUnder(s, p, y, rank, bound);
      }
      if y in s.children && Under(s, y, p, rank, bound) {
        UnderCollect(s, p, y, rank, bound);
      }
    }
  }

  /** Neither the parent of the process nor the root is a descendant. */
  lemma AboveNot(s: State, p: string, rank: string -> nat, bound: nat)
    requires Tree(s, rank, bound) && p in s.procs && p != ROOT
    ensures CanExit(s, p)
    ensures s.parents[p] !in Descendants(s, p, rank, bound) && ROOT !in Descendants(s, p, rank, bound)
  {
    ExitPossible(s, p, rank, bound);
    DescendantsAre(s, p, rank, bound);
    assert RankOk(s, rank, bound, p) && ListOk(s, ROOT);
    if Under(s, s.parents[p], p, rank, bound) {
      UnderRank(s, s.parents[p], p, rank, bound);
    }
  }

  /** A process's children before the process that exits is taken out. */
  function Regrouped(s: State, ds: seq<string>, x: string): seq<string>
    requires x in s.children
  {
    if x in ds then [] else if x == ROOT then s.children[ROOT] + ds else s.children[x]
  }

  lemma RegroupedKids(s: State, p: string, rank: string -> nat, bound: nat, x: string)
    requires Tree(s, rank, bound) && p in s.procs && p != ROOT && p in s.children && x in s.children && x != p
    ensures var ds := Descendants(s, p, rank, bound);
            && Unique(Regrouped(s, ds, x))
            && forall y :: y in Regrouped(s, ds, x) <==> if y in ds then x == ROOT else x !in ds && ChildOf(s, x, y)
  {
    AboveNot(s, p, rank, bound);
    DescendantsAre(s, p, rank, bound);
    var ds := Descendants(s, p, rank, bound);
    assert KidsOk(s, x);
    forall y
      ensures y in s.children[x] <==> ChildOf(s, x, y)
      ensures x !in ds && ChildOf(s, x, y) ==> y !in ds
    {
      KidIff(s, x, y, rank, bound);
      NotBelow(s, p, x, y, rank, bound);
    }
    if x == ROOT {
      UniqueConcat(s.children[ROOT], ds);
    }
  }

  /** The children after all descendants went to the root. */
  lemma RootKids(s: State, p: string, rank: string -> nat, bound: nat, x: string)
    requires Tree(s, rank, bound) && p in s.procs && p != ROOT
    ensures CanExit(s, p)
    ensures var ds := Descendants(s, p, rank, bound);
            && s.parents[p] !in ds && ROOT !in ds
            && var t := ExitedRoot(s, p, ds);
               && (x in t.children <==> x in s.children && x != p)
               && (x in t.children ==> Unique(t.children[x]))
               && (x in t.children ==> forall y :: y in t.children[x] <==>
                     y != p && if y in ds then x == ROOT else x !in ds && ChildOf(s, x, y))
  {
    AboveNot(s, p, rank, bound);
    DescendantsAre(s, p, rank, bound);
    var ds, q := Descendants(s, p, rank, bound), s.parents[p];
    var t := ExitedRoot(s, p, ds);
    assert forall y :: y in ds ==> y in s.children;
    if x in s.children && x != p {
      RegroupedKids(s, p, rank, bound, x);
      RegroupedKids(s, p, rank, bound, q);
      var before := Regrouped(s, ds, x);
      assert p in before <==> x == q;
      if x == q {
        RemoveUnique(before, p);
        assert t.children[x] == Remove(before, p);
      } else {
        assert t.children[x] == before;
      }
    }
  }

  /** A child of a process that is neither the process nor below it is not below it, unless it is the process. */
  lemma NotBelow(s: State, p: string, x: string, y: string, rank: string -> nat, bound: nat)
    requires Tree(s, rank, bound) && p in s.children && x != p && x in s.children
    ensures x !in Descendants(s, p, rank, bound) && ChildOf(s, x, y) ==> y !in Descendants(s, p, rank, bound)
  {
    DescendantsAre(s, p, rank, bound);
    assert RankOk(s, rank, bound, y);
  }

  lemma RootLinks(s: State, p: string, rank: string -> nat, bound: nat, x: string)
    requires Tree(s, rank, bound) && p in s.procs && p != ROOT
    ensures CanExit(s, p)
    ensures var ds := Descendants(s, p, rank, bound);
            && s.parents[p] !in ds && ROOT !in ds
            && var t := ExitedRoot(s, p, ds); ListOk(t, x) && LinkOk(t, x) && KidsOk(t, x) && RankOk(t, rank, bound, x)
  {
    RootKids(s, p, rank, bound, x);
    DescendantsAre(s, p, rank, bound);
    var ds := Descendants(s, p, rank, bound);
    var t := ExitedRoot(s, p, ds);
    RemoveUnique(s.procs, p);
    assert ListOk(s, x) && LinkOk(s, x) && RankOk(s, rank, bound, x);
    if x in t.parents {
      var q := t.parents[x];
      RootKids(s, p, rank, bound, q);
      if x !in ds {
        KidUnder(s, q, x, rank, bound);
        if q == p || q in ds {
          UnderTrans(s, x, q, p, rank, bound);
        }
      } else {
        RootIsLow(s, p, x, rank, bound);
      }
    }
    if x in t.children {
      forall k | 0 <= k < |t.children[x]|
        ensures ChildOf(t, x, t.children[x][k])
      {
        assert t.children[x][k] in t.children[x];
      }
    }
  }

  lemma KidUnder(s: State, p: string, x: string, rank: string -> nat, bound: nat)
    requires Tree(s, rank, bound) && ChildOf(s, p, x)
    ensures Under(s, x, p, rank, bound) && x != p
  {
    assert RankOk(s, rank, bound, x);
    assert Under(s, p, p, rank, bound);
  }

  /** The root is before every other process. */
  lemma RootIsLow(s: State, p: string, x: string, rank: string -> nat, bound: nat)
    requires Tree(s, rank, bound) && x in s.children && x != ROOT
    ensures rank(ROOT) < rank(x)
  {
    AllUnderRoot(s, x, rank, bound);
    UnderRank(s, x, ROOT, rank, bound);
  }

  /** With all descendants going to the root, the same order still puts parents first. */
  lemma RootKeeps(s: State, p: string, rank: string -> nat, bound: nat)
    requires Tree(s, rank, bound) && p in s.procs && p != ROOT
    ensures CanExit(s, p) && s.parents[p] !in Descendants(s, p, rank, bound) && ROOT !in Descendants(s, p, rank, bound)
    ensures Tree(ExitedRoot(s, p, Descendants(s, p, rank, bound)), rank, bound)
  {
    AboveNot(s, p, rank, bound);
    RemoveUnique(s.procs, p);
    var t := ExitedRoot(s, p, Descendants(s, p, rank, bound));
    forall x
      ensures ListOk(t, x) && LinkOk(t, x) && KidsOk(t, x) && RankOk(t, rank, bound, x)
    {
      RootLinks(s, p, rank, bound, x);
    }
    RootKids(s, p, rank, bound, ROOT);
  }

  // ---------- The start ----------

  function Start(): State {
    State([ROOT], map[ROOT := []], map[])
  }

  lemma StartTree()
    ensures Tree(Start(), x => 0, 0)
  {
    forall x
      ensures ListOk(Start(), x) && LinkOk(Start(), x) && KidsOk(Start(), x) && RankOk(Start(), x => 0, 0, x)
    {
    }
  }

  // ---------- Names ----------

  const LETTERS := 52

  /** The lower-case letters, then the upper-case ones. */
  function Letter(i: nat): char
    requires i < LETTERS
  {
    if i < 26 then ('a' as int + i) as char else ('A' as int + (i - 26)) as char
  }

  lemma LettersDiffer(i: nat, j: nat)
    requires i < LETTERS && j < LETTERS && Letter(i) == Letter(j)
    ensures i == j
  {
  }

  predicate IsLower(c: char) { 'a' <= c <= 'z' }

  predicate IsUpper(c: char) { 'A' <= c <= 'Z' }

  /** They are all the letters, lower case before upper case and each case in its order. */
  lemma LettersAre(c: char, i: nat, j: nat)
    ensures IsLower(c) || IsUpper(c) <==> exists k: nat :: k < LETTERS && Letter(k) == c
    ensures i < j < LETTERS ==> if IsUpper(Letter(i)) == IsUpper(Letter(j)) then Letter(i) < Letter(j)
                                else IsLower(Letter(i)) && IsUpper(Letter(j))
  {
    if IsLower(c) {
      assert Letter(c as int - 'a' as int) == c;
    }
    if IsUpper(c) {
      assert Letter(c as int - 'A' as int + 26) == c;
    }
  }

  function Base(): (r: seq<string>)
    ensures |r| == LETTERS && forall i :: 0 <= i < LETTERS ==> r[i] == [Letter(i)]
  {
    seq(LETTERS, i requires 0 <= i < LETTERS => [Letter(i)])
  }

  /** One name of the old list followed by each of the base. */
  function Extend(b: string, base: seq<string>): (r: seq<string>)
    ensures |r| == |base| && forall i :: 0 <= i < |r| ==> r[i] == b + base[i]
  {
    seq(|base|, i requires 0 <= i < |base| => b + base[i])
  }

  /** Every name of a list followed by each of the base. */
  function Grow(names: seq<string>, base: seq<string>): seq<string> {
    if names == [] then [] else Grow(names[..|names| - 1], base) + Extend(names[|names| - 1], base)
  }

  /** The names of each generation. */
  function Generation(g: nat): seq<string> {
    if g == 0 then Base() else Grow(Generation(g - 1), Base())
  }

  lemma {:induction false} GrowLength(names: seq<string>, base: seq<string>)
    ensures |Grow(names, base)| == |names| * |base|
  {
    if names != [] {
      GrowLength(names[..|names| - 1], base);
      assert |names| * |base| == (|names| - 1) * |base| + |base|;
    }
  }

  /** The i-th name and the j-th letter. */
  lemma {:induction false} GrowAt(names: seq<string>, base: seq<string>, i: nat, j: nat)
    requires i < |names| && j < |base|
    ensures 0 <= i * |base| + j < |Grow(names, base)| && Grow(names, base)[i * |base| + j] == names[i] + base[j]
  {
    var n := |names| - 1;
    GrowLength(names[..n], base);
    GrowLength(names, base);
    MulMono(0, i, |base|);
    if i < n {
      GrowAt(names[..n], base, i, j);
    }
  }

  /** The place in a generation of a name's parts. */
  lemma GenerationAt(g: nat, k: nat)
    requires g > 0 && k < |Generation(g)|
    ensures var i, j := k / LETTERS, k % LETTERS;
            i < |Generation(g - 1)| && Generation(g)[k] == Generation(g - 1)[i] + [Letter(j)]
  {
    var names, base, i, j := Generation(g - 1), Base(), k / LETTERS, k % LETTERS;
    GrowLength(names, base);
    Euclid(k, LETTERS);
    assert k < |names| * LETTERS;
    GrowAt(names, base, i, j);
  }

  lemma {:induction false} NameLength(g: nat, k: nat)
    requires k < |Generation(g)|
    ensures |Generation(g)[k]| == g + 1
  {
    if g > 0 {
      GenerationAt(g, k);
      NameLength(g - 1, k / LETTERS);
    }
  }

  lemma LastLetters(a: string, b: string, x: char, y: char)
    requires |a| == |b| && a + [x] == b + [y]
    ensures a == b && x == y
  {
    assert (a + [x])[..|a|] == a && (b + [y])[..|b|] == b;
    assert (a + [x])[|a|] == x && (b + [y])[|b|] == y;
  }

  lemma PartsEqual(g: nat, k: nat, l: nat)
    requires g > 0 && k < |Generation(g)| && l < |Generation(g)| && Generation(g)[k] == Generation(g)[l]
    ensures var i, j := k / LETTERS, l / LETTERS;
            i < |Generation(g - 1)| && j < |Generation(g - 1)| && Generation(g - 1)[i] == Generation(g - 1)[j]
    ensures k % LETTERS == l % LETTERS
  {
    GenerationAt(g, k);
    GenerationAt(g, l);
    NameLength(g - 1, k / LETTERS);
    NameLength(g - 1, l / LETTERS);
    LastLetters(Generation(g - 1)[k / LETTERS], Generation(g - 1)[l / LETTERS], Letter(k % LETTERS),
                Letter(l % LETTERS));
    LettersDiffer(k % LETTERS, l % LETTERS);
  }

  lemma {:induction false} NamesInGeneration(g: nat, k: nat, l: nat)
    requires k < |Generation(g)| && l < |Generation(g)| && Generation(g)[k] == Generation(g)[l]
    ensures k == l
    decreases g
  {
    if g == 0 {
      LettersDiffer(k, l);
    } else {
      PartsEqual(g, k, l);
      NamesInGeneration(g - 1, k / LETTERS, l / LETTERS);
      Euclid(k, LETTERS);
      Euclid(l, LETTERS);
    }
  }

  /** No name comes twice: not in one generation, and not in two. */
  lemma NamesDiffer(g: nat, k: nat, h: nat, l: nat)
    requires k < |Generation(g)| && l < |Generation(h)| && Generation(g)[k] == Generation(h)[l]
    ensures g == h && k == l
  {
    NameLength(g, k);
    NameLength(h, l);
    NamesInGeneration(g, k, l);
  }

  lemma {:induction false} GenerationNotEmpty(g: nat)
    ensures |Generation(g)| > 0
  {
    if g > 0 {
      GenerationNotEmpty(g - 1);
      GrowLength(Generation(g - 1), Base());
      MulMono(1, |Generation(g - 1)|, LETTERS);
    }
  }

  predicate IsName(name: string, g: nat, k: nat) {
    k < |Generation(g)| && Generation(g)[k] == name
  }

  /** The name comes before place k of generation g in the supply: it was handed out when that is the next place. */
  ghost predicate HandedOut(name: string, g: nat, k: nat) {
    exists h: nat, l: nat :: IsName(name, h, l) && (h < g || (h == g && l < k))
  }

  lemma StaysHandedOut(name: string, g: nat, k: nat, g2: nat, k2: nat)
    requires HandedOut(name, g, k) && (g < g2 || (g == g2 && k <= k2))
    ensures HandedOut(name, g2, k2)
  {
  }

  /** From one place in the supply on, a name at that place or a later one is new. */
  lemma NextIsNew(g: nat, k: nat, g2: nat, k2: nat)
    requires k2 < |Generation(g2)| && (g < g2 || (g == g2 && k <= k2))
    ensures !HandedOut(Generation(g2)[k2], g, k) && HandedOut(Generation(g2)[k2], g2, k2 + 1)
    ensures forall x :: HandedOut(x, g, k) ==> HandedOut(x, g2, k2 + 1)
  {
    forall x | HandedOut(x, g, k)
      ensures HandedOut(x, g2, k2 + 1) && x != Generation(g2)[k2]
    {
      StaysHandedOut(x, g, k, g2, k2 + 1);
      var h: nat, l: nat :| IsName(x, h, l) && (h < g || (h == g && l < k));
      if x == Generation(g2)[k2] {
        NamesDiffer(h, l, g2, k2);
      }
    }
    assert IsName(Generation(g2)[k2], g2, k2);
  }

  // ---------- The object ----------

  /** The children after some of the descendants were taken over by the root. */
  ghost predicate TakenOver(now: map<string, seq<string>>, before: map<string, seq<string>>, ds: seq<string>)
    requires ROOT in before && ROOT !in ds
  {
    && (forall x :: x in now <==> x in before || x in ds)
    && (forall x :: x in now ==> now[x] == if x in ds then [] else if x == ROOT then before[ROOT] + ds else before[x])
  }

  lemma TakenOverIs(now: map<string, seq<string>>, before: map<string, seq<string>>, ds: seq<string>)
    requires ROOT in before && ROOT !in ds && TakenOver(now, before, ds)
    ensures ROOT in Clear(before, ds) && now == Clear(before, ds)[ROOT := Clear(before, ds)[ROOT] + ds]
  {
  }

  class Forker {
    var procs: seq<string>
    var children: map<string, seq<string>>
    var parents: map<string, string>
    const localReparent: bool
    /** The names in stock, of a generation, and how many of them were handed out. */
    var currNames: seq<string>
    var currIndex: nat
    ghost var generation: nat
    ghost var rank: string -> nat
    ghost var bound: nat

    ghost function S(): State
      reads this
    {
      State(procs, children, parents)
    }

    ghost predicate Valid()
      reads this
    {
      Tree(S(), rank, bound) && currNames == Generation(generation) && currIndex <= |currNames|
    }

    /** The name came from the supply. */
    ghost predicate Known(name: string)
      reads this
    {
      HandedOut(name, generation, currIndex)
    }

    /** Every process has a name from the supply. */
    ghost predicate AllKnown()
      reads this
    {
      forall x :: x in procs ==> Known(x)
    }

    constructor (localReparent: bool)
      ensures Valid() && S() == Start() && this.localReparent == localReparent && generation == 0 && currIndex == 1
      ensures AllKnown()
    {
      this.localReparent := localReparent;
      procs, children, parents := [ROOT], map[ROOT := []], map[];
      currNames, currIndex, generation := Base(), 1, 0;
      rank, bound := x => 0, 0;
      new;
      StartTree();
      assert IsName(ROOT, 0, 0);
    }

    static method GrowList(names: seq<string>, base: seq<string>) returns (r: seq<string>)
      ensures r == Grow(names, base)
    {
      r := [];
      for i := 0 to |names|
        invariant r == Grow(names[..i], base)
      {
        assert names[..i + 1][..i] == names[..i];
        r := r + Extend(names[i], base);
      }
      assert names[..|names|] == names;
    }

    method GrowNames()
      requires currNames == Generation(generation)
      modifies this`currNames, this`currIndex, this`generation
      ensures currNames == Generation(generation) && generation == old(generation) + 1 && currIndex == 0
    {
      var names := GrowList(currNames, Base());
      currNames, currIndex, generation := names, 0, generation + 1;
    }

    /** The next name: its place is after that of every name before, so by NamesDiffer it is new; in particular no
        process has it when all have theirs from the supply. */
    method GetName() returns (name: string)
      requires Valid()
      modifies this`currNames, this`currIndex, this`generation
      ensures Valid() && currIndex > 0 && name == Generation(generation)[currIndex - 1]
      ensures (generation == old(generation) && currIndex == old(currIndex) + 1)
              || (generation == old(generation) + 1 && currIndex == 1)
      ensures !old(Known(name)) && Known(name) && forall x :: old(Known(x)) ==> Known(x)
      ensures old(AllKnown()) ==> AllKnown() && name !in procs
    {
      name := TakeName();
      NextIsNew(old(generation), old(currIndex), generation, currIndex - 1);
    }

    method TakeName() returns (name: string)
      requires currNames == Generation(generation) && currIndex <= |currNames|
      modifies this`currNames, this`currIndex, this`generation
      ensures currNames == Generation(generation) && 0 < currIndex <= |currNames| && name == currNames[currIndex - 1]
      ensures (generation == old(generation) && currIndex == old(currIndex) + 1)
              || (generation == old(generation) + 1 && currIndex == 1)
    {
      if currIndex == |currNames| {
        GrowNames();
        GenerationNotEmpty(generation);
      }
      name := currNames[currIndex];
      currIndex := currIndex + 1;
    }

    method DoFork(p: string, c: string)
      requires Valid() && p in children
      modifies this`procs, this`children, this`parents, this`rank, this`bound
      ensures S() == Forked(old(S()), p, c)
      ensures Valid() <==> c !in old(procs)
      ensures old(AllKnown()) && Known(c) ==> AllKnown()
    {
      ghost var s0, unused, rank2, bound2 := S(), c !in procs, rank, bound + 1;
      if unused {
        rank2 := ForkKeepsSomeOrder(s0, p, c, rank, bound);
      } else {
        ForkBreaks(s0, p, c);
      }
      procs := procs + [c];
      children := children[c := []];
      children := children[p := children[p] + [c]];
      parents := parents[c := p];
      rank, bound := rank2, bound2;
    }

    /** The orphans get the parent of the process. */
    method Reparent(p: string, q: string)
      requires p in children && q in children && p != q
      modifies this`children, this`parents
      ensures parents == Adopt(old(parents), old(children)[p], q)
      ensures children == old(children)[q := old(children)[q] + old(children)[p]]
    {
      var orphans := children[p];
      ghost var kids := children[q];
      assert kids + orphans[..0] == kids;
      assert children[q := kids] == children;
      for i := 0 to |orphans|
        invariant q in children && children[q] == kids + orphans[..i]
                  && children == old(children)[q := kids + orphans[..i]]
        invariant parents == Adopt(old(parents), orphans[..i], q)
      {
        assert orphans[..i + 1][..i] == orphans[..i];
        parents := parents[orphans[i] := q];
        children := children[q := children[q] + [orphans[i]]];
        assert kids + orphans[..i] + [orphans[i]] == kids + orphans[..i + 1];
      }
      assert orphans[..|orphans|] == orphans;
    }

    /** The descendants get the root. */
    method ReparentAll(ds: seq<string>)
      requires ROOT in children && ROOT !in ds
      modifies this`children, this`parents
      ensures parents == Adopt(old(parents), ds, ROOT)
      ensures ROOT in Clear(old(children), ds)
      ensures children == Clear(old(children), ds)[ROOT := Clear(old(children), ds)[ROOT] + ds]
    {
      ghost var before := children;
      for i := 0 to |ds|
        invariant parents == Adopt(old(parents), ds[..i], ROOT) && TakenOver(children, before, ds[..i])
      {
        assert ds[..i + 1][..i] == ds[..i] && ds[..i + 1] == ds[..i] + [ds[i]];
        assert ds[i] != ROOT;
        parents := parents[ds[i] := ROOT];
        TakeOver(before, ds[i], ds[..i]);
      }
      assert ds[..|ds|] == ds;
      TakenOverIs(children, before, ds);
    }

    method TakeOver(ghost before: map<string, seq<string>>, d: string, ghost taken: seq<string>)
      requires ROOT in before && ROOT !in taken && d != ROOT && TakenOver(children, before, taken)
      modifies this`children
      ensures TakenOver(children, before, taken + [d])
    {
      children := children[d := []];
      children := children[ROOT := children[ROOT] + [d]];
      assert before[ROOT] + taken + [d] == before[ROOT] + (taken + [d]);
    }

    method ExitToParent(p: string, q: string)
      requires CanExit(S(), p) && q == parents[p]
      modifies this`procs, this`children, this`parents
      ensures S() == ExitedLocal(old(S()), p)
    {
      Reparent(p, q);
      children := children[q := Remove(children[q], p)];
      procs := Remove(procs, p);
      children := children - {p};
      parents := parents - {p};
      assert S().children == ExitedLocal(old(S()), p).children;
    }

    method ExitToRoot(p: string, q: string, ds: seq<string>)
      requires CanExit(S(), p) && q == parents[p] && q !in ds && ROOT !in ds && p !in ds
      modifies this`procs, this`children, this`parents
      ensures S() == ExitedRoot(old(S()), p, ds)
    {
      ReparentAll(ds);
      children := children[q := Remove(children[q], p)];
      procs := Remove(procs, p);
      children := children - {p};
      parents := parents - {p};
    }

    /** A process other than the root exits. */
    method DoExit(p: string)
      requires Valid() && p in procs && p != ROOT
      modifies this`procs, this`children, this`parents
      ensures Valid() && CanExit(old(S()), p)
      ensures localReparent ==> S() == ExitedLocal(old(S()), p)
      ensures !localReparent ==> var ds := Descendants(old(S()), p, rank, bound);
                                 && old(parents)[p] !in ds && ROOT !in ds && S() == ExitedRoot(old(S()), p, ds)
      ensures old(AllKnown()) ==> AllKnown()
    {
      ghost var s := S();
      ExitPossible(s, p, rank, bound);
      RemoveUnique(procs, p);
      var q := parents[p];
      if localReparent {
        LocalKeeps(s, p, rank, bound);
        ExitToParent(p, q);
      } else {
        RootKeeps(s, p, rank, bound);
        DescendantsAre(s, p, rank, bound);
        var ds := Descendants(State(procs, children, parents), p, rank, bound);
        ExitToRoot(p, q, ds);
      }
    }
  }
}
