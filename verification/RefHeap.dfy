/** Reference counts (cocos/base/Ref.cpp) and the laws of sharing them. */
module RefHeap {

  import opened Wrappers

  /** The address of an object. */
  type Obj = nat

  function CountIn(counts: map<Obj, nat>, o: Obj): nat {
    if o in counts then counts[o] else 0
  }

  /**
   * The counts changed by exactly what a holder's occurrences changed by: the shares of all other
   * holders are untouched.
   */
  ghost predicate Balanced(before: map<Obj, nat>, heldBefore: seq<Obj>, after: map<Obj, nat>, heldAfter: seq<Obj>) {
    forall o: Obj :: CountIn(after, o) - Times(heldAfter, o) == CountIn(before, o) - Times(heldBefore, o)
  }

  class Heap {
    var counts: map<Obj, nat>     // `_referenceCount` of the objects that exist
    var destroyed: seq<Obj>       // the others, in the order of their destruction
    var next: Obj                 // the address of the next object: none is used twice

    ghost predicate Valid()
      reads this
    {
      && (forall o: Obj :: o in counts ==> counts[o] > 0)
      && (forall o: Obj :: Times(destroyed, o) == if o < next && o !in counts then 1 else 0)
      && (forall o: Obj :: o in counts ==> o < next)
    }

    function Count(o: Obj): nat
      reads this
    {
      CountIn(counts, o)
    }

    constructor ()
      ensures Valid() && counts == map[] && destroyed == [] && next == 0
    {
      counts, destroyed, next := map[], [], 0;
      new;
      assert forall o: Obj :: Times(destroyed, o) == 0;
    }

    method New() returns (o: Obj)
      requires Valid()
      modifies this
      ensures Valid() && o == old(next) && next == o + 1
      ensures o !in old(counts) && o !in old(destroyed)
      ensures counts == old(counts)[o := 1] && destroyed == old(destroyed)
    {
      o := next;
      TimesPositive(destroyed, o);
      counts := counts[o := 1];
      next := next + 1;
    }

    method Retain(o: Obj)
      requires Valid() && o in counts
      modifies this`counts
      ensures Valid() && counts == old(counts)[o := old(counts)[o] + 1]
    {
      counts := counts[o := counts[o] + 1];
    }

    /** The last release destroys the object. */
    method Release(o: Obj)
      requires Valid() && o in counts
      modifies this`counts, this`destroyed
      ensures Valid()
      ensures old(counts)[o] > 1 ==> counts == old(counts)[o := old(counts)[o] - 1] && destroyed == old(destroyed)
      ensures old(counts)[o] == 1 ==> counts == old(counts) - {o} && destroyed == old(destroyed) + [o]
    {
      forall x: Obj ensures Times(destroyed + [o], x) == Times(destroyed, x) + (if o == x then 1 else 0) {
        TimesAppend(destroyed, o, x);
      }
      if counts[o] == 1 {
        counts := counts - {o};
        destroyed := destroyed + [o];
      } else {
        counts := counts[o := counts[o] - 1];
      }
    }

    method RetainEach(s: seq<Obj>)
      requires Valid() && forall o: Obj :: o in s ==> o in counts
      modifies this`counts
      ensures Valid() && Balanced(old(counts), [], counts, s)
      ensures forall o: Obj :: o in old(counts) ==> o in counts
    {
      assert s[0..] == s;
      for i := 0 to |s|
        invariant Valid() && Balanced(old(counts), s[i..], counts, s)
        invariant forall o: Obj :: o in old(counts) ==> o in counts
      {
        assert s[i..][0] == s[i] && s[i..][1..] == s[i + 1..];
        Retain(s[i]);
      }
      assert s[|s|..] == [];
    }

    method ReleaseEach(s: seq<Obj>)
      requires Valid() && forall o: Obj :: Times(s, o) <= Count(o)
      modifies this`counts, this`destroyed
      ensures Valid() && Balanced(old(counts), s, counts, [])
      ensures old(destroyed) <= destroyed
    {
      assert s[0..] == s;
      for i := 0 to |s|
        invariant Valid() && Balanced(old(counts), s, counts, s[i..])
        invariant forall o: Obj :: Times(s[i..], o) <= Count(o)
        invariant old(destroyed) <= destroyed
      {
        assert s[i..][0] == s[i] && s[i..][1..] == s[i + 1..];
        assert Times(s[i..], s[i]) > 0;
        Release(s[i]);
      }
      assert s[|s|..] == [];
    }
  }
}
