/**
 Runs of fork.py: lists of forks and exits under either rule for orphans, from the root alone. A run keeps the
 tree exactly as long as no fork names a process in use; names taken from the supply never do.
 */
module ForkRun {
  import opened Collections
  import opened Fork

  /** The program's options: who gets the orphans, and whether only processes without children may exit. */
  datatype Rules = Rules(localReparent: bool, leafOnly: bool)

  datatype Action = Forks(p: string, c: string) | Exits(p: string)

  ghost predicate IsTree(s: State) {
    exists rank: string -> nat, bound: nat :: Tree(s, rank, bound)
  }

  /** The exit of a process; under the second rule its descendants are those of the tree. */
  ghost predicate ExitsTo(s: State, p: string, rules: Rules, t: State) {
    && CanExit(s, p)
    && if rules.localReparent then t == ExitedLocal(s, p)
       else exists rank: string -> nat, bound: nat :: Tree(s, rank, bound) && LeftToRoot(s, p, rank, bound, t)
  }

  ghost predicate LeftToRoot(s: State, p: string, rank: string -> nat, bound: nat, t: State)
    requires CanExit(s, p) && Tree(s, rank, bound)
  {
    var ds := Descendants(s, p, rank, bound);
    s.parents[p] !in ds && ROOT !in ds && t == ExitedRoot(s, p, ds)
  }

  /** The exit is refused: the process has children, and only leaves may exit. */
  predicate Refused(s: State, p: string, rules: Rules) {
    rules.leafOnly && p in s.children && s.children[p] != []
  }

  /** Only a listed process forks or exits, and the root does not exit. */
  ghost predicate Does(s: State, a: Action, rules: Rules, t: State) {
    match a
    case Forks(p, c) => p in s.procs && p in s.children && t == Forked(s, p, c)
    case Exits(p) => p in s.procs && if Refused(s, p, rules) then t == s else ExitsTo(s, p, rules, t)
  }

  /** The states that a list of actions goes through. */
  ghost predicate IsRun(states: seq<State>, acts: seq<Action>, rules: Rules) {
    && |states| == |acts| + 1
    && forall i :: 0 <= i < |acts| ==> Does(states[i], acts[i], rules, states[i + 1])
  }

  predicate Reuses(s: State, a: Action) {
    a.Forks? && a.c in s.procs
  }

  // ---------- When a run keeps the tree ----------

  lemma DoesKeep(s: State, a: Action, rules: Rules, t: State)
    requires IsTree(s) && Does(s, a, rules, t)
    ensures IsTree(t) <==> !Reuses(s, a)
  {
    var rank: string -> nat, bound: nat :| Tree(s, rank, bound);
    match a
    case Forks(p, c) =>
      if c in s.procs {
        ForkBreaks(s, p, c);
      } else {
        var rank2 := ForkKeepsSomeOrder(s, p, c, rank, bound);
      }
    case Exits(p) =>
      if Refused(s, p, rules) {
        assert t == s;
      } else if rules.localReparent {
        LocalKeeps(s, p, rank, bound);
      } else {
        var rank2: string -> nat, bound2: nat :| Tree(s, rank2, bound2) && LeftToRoot(s, p, rank2, bound2, t);
        RootKeeps(s, p, rank2, bound2);
      }
  }

  /** Every state of a run is a tree if and only if no fork of the run names a process in use. */
  lemma RunKeepsExactly(states: seq<State>, acts: seq<Action>, rules: Rules)
    requires IsRun(states, acts, rules) && IsTree(states[0])
    ensures (forall i :: 0 <= i < |states| ==> IsTree(states[i])) <==>
            (forall i :: 0 <= i < |acts| ==> !Reuses(states[i], acts[i]))
  {
    if forall i :: 0 <= i < |acts| ==> !Reuses(states[i], acts[i]) {
      forall i | 0 <= i < |states|
        ensures IsTree(states[i])
      {
        TreeUpTo(states, acts, rules, i);
      }
    } else {
      var i :| 0 <= i < |acts| && Reuses(states[i], acts[i]);
      if IsTree(states[i]) {
        DoesKeep(states[i], acts[i], rules, states[i + 1]);
      }
    }
  }

  lemma {:induction false} TreeUpTo(states: seq<State>, acts: seq<Action>, rules: Rules, n: nat)
    requires IsRun(states, acts, rules) && IsTree(states[0]) && n <= |acts|
    requires forall i :: 0 <= i < n ==> !Reuses(states[i], acts[i])
    ensures IsTree(states[n])
  {
    if n > 0 {
      TreeUpTo(states, acts, rules, n - 1);
      DoesKeep(states[n - 1], acts[n - 1], rules, states[n]);
    }
  }

  // ---------- Names that were not used before ----------

  /** The names a list of actions gives to new processes. */
  function Born(acts: seq<Action>): seq<string> {
    if acts == [] then []
    else
      var n := |acts| - 1;
      Born(acts[..n]) + if acts[n].Forks? then [acts[n].c] else []
  }

  lemma {:induction false} RemoveFewer(s: seq<string>, x: string)
    requires x in s
    ensures forall y :: y in Remove(s, x) ==> y in s
  {
    if s[0] != x {
      RemoveFewer(s[1..], x);
    }
  }

  /** Each process is the root or one of the names. */
  predicate OnlyFrom(s: State, names: seq<string>) {
    forall x :: x in s.procs ==> x == ROOT || x in names
  }

  /** Only a fork lists a process, the one it names. */
  lemma DoesProcs(s: State, a: Action, rules: Rules, t: State, names: seq<string>)
    requires Does(s, a, rules, t) && OnlyFrom(s, names)
    ensures OnlyFrom(t, names + if a.Forks? then [a.c] else [])
  {
    if a.Exits? && !Refused(s, a.p, rules) {
      RemoveFewer(s.procs, a.p);
    }
  }

  lemma BornNext(acts: seq<Action>, n: nat)
    requires 0 < n <= |acts|
    ensures Born(acts[..n]) == Born(acts[..n - 1]) + if acts[n - 1].Forks? then [acts[n - 1].c] else []
  {
    assert acts[..n][..n - 1] == acts[..n - 1];
  }

  /** A process is the root or was born in the run. */
  lemma {:induction false} OnlyBorn(states: seq<State>, acts: seq<Action>, rules: Rules, n: nat)
    requires IsRun(states, acts, rules) && states[0] == Start() && n <= |acts|
    ensures OnlyFrom(states[n], Born(acts[..n]))
  {
    if n > 0 {
      OnlyBorn(states, acts, rules, n - 1);
      BornNext(acts, n);
      DoesProcs(states[n - 1], acts[n - 1], rules, states[n], Born(acts[..n - 1]));
    }
  }

  lemma {:induction false} BornPrefix(acts: seq<Action>, n: nat)
    requires n < |acts| && acts[n].Forks?
    ensures var k := |Born(acts[..n])|;
            k < |Born(acts)| && Born(acts)[..k] == Born(acts[..n]) && Born(acts)[k] == acts[n].c
  {
    var last := |acts| - 1;
    if n < last {
      BornPrefix(acts[..last], n);
      assert acts[..last][..n] == acts[..n];
    }
  }

  /** A run from the root keeps the tree when it gives no name twice, and never the root's. */
  lemma DistinctNamesKeep(states: seq<State>, acts: seq<Action>, rules: Rules)
    requires IsRun(states, acts, rules) && states[0] == Start()
    requires Unique(Born(acts)) && ROOT !in Born(acts)
    ensures forall i :: 0 <= i < |states| ==> IsTree(states[i])
  {
    StartTree();
    forall i | 0 <= i < |acts|
      ensures !Reuses(states[i], acts[i])
    {
      if acts[i].Forks? {
        BornPrefix(acts, i);
        OnlyBorn(states, acts, rules, i);
        NotBefore(Born(acts), |Born(acts[..i])|);
      }
    }
    RunKeepsExactly(states, acts, rules);
  }

  lemma NotBefore(names: seq<string>, k: nat)
    requires Unique(names) && k < |names|
    ensures names[k] !in names[..k] && names[k] in names
  {
  }

  /** Places in the supply of names: a generation, and a place in it. */
  datatype Place = Place(g: nat, k: nat)

  predicate Before(a: Place, b: Place) {
    a.g < b.g || (a.g == b.g && a.k < b.k)
  }

  /** Names from the supply, each from a later place than those before, and all after the root's. */
  ghost predicate Supplied(names: seq<string>, places: seq<Place>) {
    && |names| == |places|
    && (forall i :: 0 <= i < |names| ==> IsName(names[i], places[i].g, places[i].k) && Before(Place(0, 0), places[i]))
    && (forall i, j :: 0 <= i < j < |places| ==> Before(places[i], places[j]))
  }

  /** Forking with names from the supply, in order, keeps the tree. */
  lemma SuppliedNamesKeep(states: seq<State>, acts: seq<Action>, rules: Rules, places: seq<Place>)
    requires IsRun(states, acts, rules) && states[0] == Start()
    requires Supplied(Born(acts), places)
    ensures forall i :: 0 <= i < |states| ==> IsTree(states[i])
  {
    var names := Born(acts);
    forall i, j | 0 <= i < j < |names|
      ensures names[i] != names[j]
    {
      if names[i] == names[j] {
        NamesDiffer(places[i].g, places[i].k, places[j].g, places[j].k);
      }
    }
    forall i | 0 <= i < |names|
      ensures names[i] != ROOT
    {
      if names[i] == ROOT {
        NamesDiffer(places[i].g, places[i].k, 0, 0);
      }
    }
    DistinctNamesKeep(states, acts, rules);
  }

  /** A run that breaks the tree: the root forks a process of its own name. */
  lemma RootForksItself(rules: Rules) returns (states: seq<State>)
    ensures IsRun(states, [Forks(ROOT, ROOT)], rules) && states[0] == Start() && !IsTree(states[1])
  {
    states := [Start(), Forked(Start(), ROOT, ROOT)];
    ForkBreaks(Start(), ROOT, ROOT);
  }
}
