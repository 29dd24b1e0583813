/**
 The shared buffer as the program keeps it: an array used as a ring, two indices and a count.

 Its contents are a queue: do_fill appends to it and do_get takes its head, or their check fires; and
 each changes the buffer as the step of the protocol of that name changes the state.
 */
module BufferDrive {
  import BB = BoundedBuffer

  class SharedBuffer {
    const slots: array<int>
    var fillPtr: nat
    var usePtr: nat
    var numFull: nat
    /** The items put and not yet taken, oldest first, and how many were taken before them. */
    ghost var contents: seq<int>
    ghost var taken: nat

    ghost predicate FullAt(n: nat)
      reads this, slots
    {
      slots.Length > 0 && taken <= n < taken + |contents| ==> slots[n % slots.Length] == contents[n - taken] != BB.EMPTY
    }

    predicate EmptyAt(n: nat)
      reads slots
    {
      slots.Length > 0 ==> slots[n % slots.Length] == BB.EMPTY
    }

    /** Item n of all items ever put sits in slot n modulo the size until it is taken; all other slots are marked. */
    ghost predicate Valid()
      reads this, slots
    {
      && slots.Length > 0 && numFull == |contents| <= slots.Length
      && usePtr == taken % slots.Length && fillPtr == (taken + numFull) % slots.Length
      && (forall n: nat :: FullAt(n))
      && (forall n: nat :: taken + numFull <= n < taken + slots.Length ==> EmptyAt(n))
    }

    /** The buffer is the one of this protocol state. */
    ghost predicate Mirrors(c: BB.Config, s: BB.State)
      reads this, slots
    {
      c.max > 0 && BB.Sized(c, s) && s.buffer == slots[..] && s.fillPtr == fillPtr && s.usePtr == usePtr
        && s.numFull == numFull
    }

    constructor (max: nat)
      requires max > 0
      ensures Valid() && fresh(slots) && slots.Length == max && contents == []
    {
      slots := new int[max](_ => BB.EMPTY);
      fillPtr, usePtr, numFull, contents, taken := 0, 0, 0, [], 0;
    }

    /** The producer's half: the check fires exactly when the ring is full. */
    method DoFill(value: int) returns (ok: bool)
      requires Valid() && value != BB.EMPTY
      modifies this, slots
      ensures Valid() && (ok <==> |old(contents)| < slots.Length)
      ensures contents == if ok then old(contents) + [value] else old(contents)
      ensures forall c, s, k: nat :: old(Mirrors(c, s)) && k <= c.P && value == BB.Value(c, k, s.iter[k]) ==>
                                       && Mirrors(c, BB.DoFill(c, s, k))
                                       && (BB.DoFill(c, s, k).failed <==> s.failed || !ok)
    {
      ghost var n := taken + numFull;
      assert FullAt(taken);
      BB.Wraps(taken, slots.Length);
      assert numFull < slots.Length ==> EmptyAt(n);
      if slots[fillPtr] != BB.EMPTY {
        return false;
      }
      BB.NextSlot(n, slots.Length);
      slots[fillPtr] := value;
      fillPtr := (fillPtr + 1) % slots.Length;
      numFull := numFull + 1;
      contents := contents + [value];
      forall m: nat
        ensures FullAt(m)
        ensures n + 1 <= m < taken + slots.Length ==> EmptyAt(m)
      {
        Apart(n, m);
        assert old(FullAt(m));
        assert n <= m < taken + slots.Length ==> old(EmptyAt(m));
      }
      return true;
    }

    /** The consumer's half: the check fires exactly when the ring is empty. */
    method DoGet() returns (ok: bool, tmp: int)
      requires Valid()
      modifies this, slots
      ensures Valid() && (ok <==> old(contents) != [])
      ensures ok ==> [tmp] + contents == old(contents)
      ensures !ok ==> contents == old(contents)
      ensures forall c, s, k: nat :: old(Mirrors(c, s)) && k < c.C ==>
                                       && Mirrors(c, BB.DoGet(c, s, k))
                                       && (BB.DoGet(c, s, k).failed <==> s.failed || !ok)
                                       && (ok ==> BB.DoGet(c, s, k).tmp[k] == tmp)
    {
      assert FullAt(taken);
      assert numFull == 0 ==> EmptyAt(taken);
      tmp := slots[usePtr];
      if tmp == BB.EMPTY {
        return false, tmp;
      }
      ghost var n := taken;
      BB.NextSlot(n, slots.Length);
      BB.Wraps(n, slots.Length);
      slots[usePtr] := BB.EMPTY;
      usePtr := (usePtr + 1) % slots.Length;
      numFull := numFull - 1;
      contents, taken := contents[1..], taken + 1;
      forall m: nat
        ensures FullAt(m)
        ensures taken + numFull <= m < taken + slots.Length ==> EmptyAt(m)
      {
        Apart(n, m);
        assert old(FullAt(m));
        assert n + numFull + 1 <= m < n + slots.Length ==> old(EmptyAt(m));
      }
      return true, tmp;
    }

    lemma Apart(n: nat, m: nat)
      requires slots.Length > 0
      ensures n - slots.Length < m < n + slots.Length && m != n ==> m % slots.Length != n % slots.Length
    {
      if n < m < n + slots.Length {
        BB.SlotsDiffer(n, m, slots.Length);
      } else if m < n < m + slots.Length {
        BB.SlotsDiffer(m, n, slots.Length);
      }
    }
  }
}
