/** Facts about sets and lists that several models share. */
module Collections {
  lemma {:induction false} SubsetSize<T>(a: set<T>, b: set<T>)
    requires a <= b
    ensures |a| <= |b|
  {
    if a != {} {
      var x :| x in a;
      SubsetSize(a - {x}, b - {x});
    }
  }

  lemma {:induction false} NatsBelow(n: nat, s: set<nat>)
    requires forall a :: a in s ==> a < n
    ensures |s| <= n
  {
    if n > 0 {
      NatsBelow(n - 1, s - {n - 1});
    } else {
      assert s == {};
    }
  }

  /** What is in a list with the members of s and x is x or in s. */
  lemma Member<T>(t: seq<T>, s: seq<T>, x: T, i: nat)
    requires i < |t| && multiset(t) == multiset(s) + multiset{x}
    ensures t[i] == x || exists k :: 0 <= k < |s| && s[k] == t[i]
  {
    assert t[i] in multiset(t);
    assert t[i] != x ==> t[i] in multiset(s);
  }

  predicate Unique<T(==)>(s: seq<T>) {
    forall i, j :: 0 <= i < j < |s| ==> s[i] != s[j]
  }

  /** The list without its first x. */
  function Remove<T(==)>(s: seq<T>, x: T): seq<T>
    requires x in s
  {
    if s[0] == x then s[1..] else [s[0]] + Remove(s[1..], x)
  }

  lemma {:induction false} RemoveUnique<T>(s: seq<T>, x: T)
    requires x in s && Unique(s)
    ensures Unique(Remove(s, x)) && forall y :: y in Remove(s, x) <==> y in s && y != x
  {
    if s[0] == x {
      assert forall y :: y in s[1..] ==> y in s;
      assert forall y :: y in s && y != x ==> y in s[1..];
    } else {
      RemoveUnique(s[1..], x);
      assert forall y :: y in s <==> y == s[0] || y in s[1..];
      assert s[0] !in s[1..];
    }
  }

  lemma {:induction false} RemoveAt<T>(s: seq<T>, x: T, i: nat)
    requires i < |s| && s[i] == x && forall j :: 0 <= j < i ==> s[j] != x
    ensures Remove(s, x) == s[..i] + s[i + 1..]
  {
    if i > 0 {
      RemoveAt(s[1..], x, i - 1);
    }
  }

  lemma {:induction false} RemoveMultiset<T>(s: seq<T>, x: T)
    requires x in s
    ensures multiset(s) == multiset(Remove(s, x)) + multiset{x}
  {
    assert s == [s[0]] + s[1..];
    if s[0] != x {
      RemoveMultiset(s[1..], x);
    }
  }

  /** The list without any n. */
  function Del<T(==)>(m: seq<T>, n: T): seq<T> {
    if m == [] then [] else (if m[0] == n then [] else [m[0]]) + Del(m[1..], n)
  }

  lemma {:induction false} DelConcat<T>(a: seq<T>, b: seq<T>, n: T)
    ensures Del(a + b, n) == Del(a, n) + Del(b, n)
  {
    if a == [] {
      assert a + b == b;
    } else {
      assert (a + b)[1..] == a[1..] + b;
      DelConcat(a[1..], b, n);
    }
  }

  lemma {:induction false} DelAbsent<T>(m: seq<T>, n: T)
    requires n !in m
    ensures Del(m, n) == m
  {
    if m != [] {
      DelAbsent(m[1..], n);
    }
  }

  lemma {:induction false} DelMembers<T>(m: seq<T>, n: T)
    ensures forall p :: p in Del(m, n) <==> p in m && p != n
  {
    if m != [] {
      DelMembers(m[1..], n);
      assert m == [m[0]] + m[1..];
    }
  }
}
