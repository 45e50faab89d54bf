/**
 * The containers that share objects: cocos/base/Vector.h, cocos/base/Map.h and the pool of
 * cocos/base/AutoreleasePool.cpp. Each operation keeps every other holder's share of each count.
 */
module RefContainers {

  import opened Wrappers
  import opened RefHeap

  /** The list without the first occurrence of `o`. */
  function WithoutFirst(s: seq<Obj>, o: Obj): seq<Obj> {
    if s == [] then [] else if s[0] == o then s[1..] else [s[0]] + WithoutFirst(s[1..], o)
  }

  lemma {:induction false} PurgedWithout(s: seq<Obj>, i: nat, o: Obj)
    requires i < |s| && s[i] == o
    ensures Purged<Obj>(Without(s, i), o) == Purged<Obj>(s, o)
  {
    if i == 0 {
      assert Without(s, 0) == s[1..];
    } else {
      assert Without(s, i)[0] == s[0] && Without(s, i)[1..] == Without(s[1..], i - 1);
      PurgedWithout(s[1..], i - 1, o);
    }
  }

  lemma {:induction false} WithoutFirstAt(s: seq<Obj>, i: nat, o: Obj)
    requires i < |s| && s[i] == o && o !in s[..i]
    ensures WithoutFirst(s, o) == Without(s, i)
  {
    if i == 0 {
      assert Without(s, 0) == s[1..];
    } else {
      assert s[0] in s[..i] && s[..i][1..] == s[1..][..i - 1];
      assert Without(s, i) == [s[0]] + Without(s[1..], i - 1);
      WithoutFirstAt(s[1..], i - 1, o);
    }
  }

  lemma {:induction false} PurgedNothing(s: seq<Obj>, o: Obj)
    requires o !in s
    ensures Purged<Obj>(s, o) == s && WithoutFirst(s, o) == s
  {
    if s != [] {
      PurgedNothing(s[1..], o);
    }
  }

  class Vector {
    var data: seq<Obj>

    constructor ()
      ensures data == []
    {
      data := [];
    }

    /** Each object's count accounts at least for its occurrences here. */
    ghost predicate Covered(heap: Heap)
      reads this, heap
    {
      heap.Valid() && forall o: Obj :: Times(data, o) <= heap.Count(o)
    }

    /** The other holders' shares are as they were, and nothing destroyed has come back. */
    twostate predicate Kept(heap: Heap)
      reads this, heap
    {
      && heap.Valid() && heap.next == old(heap.next) && old(heap.destroyed) <= heap.destroyed
      && Balanced(old(heap.counts), old(data), heap.counts, data)
    }

    lemma Alive(heap: Heap, i: nat)
      requires Covered(heap) && i < |data|
      ensures data[i] in heap.counts
    {
      TimesPositive(data, data[i]);
    }

    method PushBack(heap: Heap, o: Obj)
      requires Covered(heap) && o in heap.counts
      modifies this, heap`counts
      ensures data == old(data) + [o] && Kept(heap)
    {
      forall x: Obj ensures Times(data + [o], x) == Times(data, x) + (if o == x then 1 else 0) {
        TimesAppend(data, o, x);
      }
      data := data + [o];
      heap.Retain(o);
    }

    /** `pushBack` of another vector; on this one the source's loop would iterate what it extends. */
    method PushBackAll(heap: Heap, other: Vector)
      requires other != this && Covered(heap) && other.Covered(heap)
      modifies this, heap`counts
      ensures data == old(data) + other.data && Kept(heap)
    {
      assert data == data + other.data[..0];
      for i := 0 to |other.data|
        invariant data == old(data) + other.data[..i] && Kept(heap)
        invariant forall o: Obj :: o in old(heap.counts) ==> o in heap.counts
      {
        assert other.data[..i + 1] == other.data[..i] + [other.data[i]];
        ghost var was := data;
        forall x: Obj ensures Times(was + [other.data[i]], x) == Times(was, x) + (if other.data[i] == x then 1 else 0) {
          TimesAppend(was, other.data[i], x);
        }
        TimesPositive(other.data, other.data[i]);
        data := data + [other.data[i]];
        heap.Retain(other.data[i]);
      }
      assert other.data[..|other.data|] == other.data;
    }

    method Insert(heap: Heap, index: nat, o: Obj)
      requires Covered(heap) && index <= |data| && o in heap.counts
      modifies this, heap`counts
      ensures data == old(data)[..index] + [o] + old(data)[index..] && Kept(heap)
    {
      var longer := data[..index] + [o] + data[index..];
      assert Without(longer, index) == data;
      forall x: Obj ensures Times(longer, x) == Times(data, x) + (if o == x then 1 else 0) {
        TimesAt(longer, index, x);
      }
      data := longer;
      heap.Retain(o);
    }

    method EraseAt(heap: Heap, index: nat)
      requires Covered(heap) && index < |data|
      modifies this, heap`counts, heap`destroyed
      ensures data == Without(old(data), index) && Kept(heap) && Covered(heap)
    {
      Alive(heap, index);
      forall x: Obj ensures Times(data, x) == Times(Without(data, index), x) + (if data[index] == x then 1 else 0) {
        TimesAt(data, index, x);
      }
      heap.Release(data[index]);
      data := data[..index] + data[index + 1..];
    }

    method PopBack(heap: Heap)
      requires Covered(heap) && data != []
      modifies this, heap`counts, heap`destroyed
      ensures data == old(data)[..|old(data)| - 1] && Kept(heap)
    {
      assert Without(data, |data| - 1) == data[..|data| - 1];
      EraseAt(heap, |data| - 1);
    }

    method EraseRange(heap: Heap, first: nat, last: nat)
      requires Covered(heap) && first <= last <= |data|
      modifies this, heap`counts, heap`destroyed
      ensures data == old(data)[..first] + old(data)[last..] && Kept(heap)
    {
      ghost var a, b, c := data[..first], data[first..last], data[last..];
      assert data == a + b + c;
      forall x: Obj ensures Times(data, x) == Times(a + c, x) + Times(b, x) {
        TimesConcat(a + b, c, x);
        TimesConcat(a, b, x);
        TimesConcat(a, c, x);
      }
      heap.ReleaseEach(data[first..last]);
      data := data[..first] + data[last..];
    }

    method EraseObject(heap: Heap, o: Obj, removeAll: bool)
      requires Covered(heap)
      modifies this, heap`counts, heap`destroyed
      ensures data == (if removeAll then Purged<Obj>(old(data), o) else WithoutFirst(old(data), o)) && Kept(heap)
    {
      var i := 0;
      while i < |data|
        invariant i <= |data| && Covered(heap) && Kept(heap) && o !in data[..i]
        invariant !removeAll ==> data == old(data)
        invariant Purged<Obj>(data, o) == Purged<Obj>(old(data), o)
      {
        if data[i] == o {
          if removeAll {
            PurgedWithout(data, i, o);
          } else {
            WithoutFirstAt(data, i, o);
          }
          ghost var front := data[..i];
          EraseAt(heap, i);
          assert data[..i] == front;
          if !removeAll {
            return;
          }
        } else {
          i := i + 1;
        }
      }
      PurgedNothing(data, o);
    }

    method Clear(heap: Heap)
      requires Covered(heap)
      modifies this, heap`counts, heap`destroyed
      ensures data == [] && Kept(heap)
    {
      heap.ReleaseEach(data);
      data := [];
    }

    /**
     * `replace` releases the old object before it retains the new one. It goes wrong exactly if
     * both are the same object and nobody else holds it: that object is destroyed in between.
     */
    method Replace(heap: Heap, index: nat, o: Obj) returns (ok: bool)
      requires Covered(heap) && index < |data| && o in heap.counts
      modifies this, heap`counts, heap`destroyed
      ensures ok <==> !(old(data)[index] == o && old(heap.counts)[o] == 1)
      ensures ok ==> data == old(data)[index := o] && Kept(heap)
      ensures !ok ==> o !in heap.counts && o in heap.destroyed
    {
      Alive(heap, index);
      ghost var rest := Without(data, index);
      assert Without(data[index := o], index) == rest;
      forall x: Obj ensures Times(data, x) == Times(rest, x) + (if data[index] == x then 1 else 0)
      {
        TimesAt(data, index, x);
      }
      forall x: Obj ensures Times(data[index := o], x) == Times(rest, x) + (if o == x then 1 else 0)
      {
        TimesAt(data[index := o], index, x);
      }
      heap.Release(data[index]);
      data := data[index := o];
      ok := o in heap.counts;
      if ok {
        heap.Retain(o);
      }
    }

    /** Copy assignment, which keeps the other vector's objects alive only because that one holds them. */
    method CopyFrom(heap: Heap, other: Vector)
      requires heap.Valid() && forall o: Obj ::
        Times(data, o) + (if other == this then 0 else Times(other.data, o)) <= heap.Count(o)
      modifies this, heap`counts, heap`destroyed
      ensures data == old(other.data) && Kept(heap)
    {
      if other != this {
        Clear(heap);
        data := other.data;
        forall o: Obj | o in data ensures o in heap.counts {
          TimesPositive(data, o);
        }
        heap.RetainEach(data);
      }
    }

    /** Move assignment: the counts of what is moved do not change. */
    method MoveFrom(heap: Heap, other: Vector)
      requires Covered(heap)
      modifies this, other, heap`counts, heap`destroyed
      ensures other != this ==> data == old(other.data) && other.data == []
      ensures other == this ==> data == old(data)
      ensures heap.Valid() && heap.next == old(heap.next) && old(heap.destroyed) <= heap.destroyed
      ensures Balanced(old(heap.counts), if other == this then [] else old(data), heap.counts, [])
    {
      if other != this {
        Clear(heap);
        data := other.data;
        other.data := [];
      }
    }

    method Swap(heap: Heap, i: nat, j: nat)
      requires Covered(heap) && i < |data| && j < |data|
      modifies this
      ensures data == old(data)[i := old(data)[j]][j := old(data)[i]] && Kept(heap)
    {
      forall x: Obj ensures Times(data[i := data[j]][j := data[i]], x) == Times(data, x) {
        TimesUpdate(data, i, data[j], x);
        TimesUpdate(data[i := data[j]], j, data[i], x);
      }
      data := data[i := data[j]][j := data[i]];
    }
  }

  type Key = string

  /** The keys under which a map holds `o`. */
  function KeysOf(m: map<Key, Obj>, o: Obj): set<Key> {
    set k | k in m && m[k] == o
  }

  function Held(m: map<Key, Obj>, o: Obj): nat {
    |KeysOf(m, o)|
  }

  lemma HeldPositive(m: map<Key, Obj>, k: Key)
    requires k in m
    ensures Held(m, m[k]) > 0
  {
    assert k in KeysOf(m, m[k]);
  }

  lemma HeldWithout(m: map<Key, Obj>, k: Key, x: Obj)
    requires k in m
    ensures Held(m - {k}, x) == Held(m, x) - (if m[k] == x then 1 else 0)
  {
    if m[k] == x {
      assert KeysOf(m, x) == KeysOf(m - {k}, x) + {k};
    } else {
      assert KeysOf(m, x) == KeysOf(m - {k}, x);
    }
  }

  lemma HeldWith(m: map<Key, Obj>, k: Key, o: Obj, x: Obj)
    requires k !in m
    ensures Held(m[k := o], x) == Held(m, x) + (if o == x then 1 else 0)
  {
    var more := m[k := o];
    assert more - {k} == m;
    HeldWithout(more, k, x);
  }

  /** The counts changed by exactly what a map's shares changed by. */
  ghost predicate MapBalanced(before: map<Obj, nat>, heldBefore: map<Key, Obj>, after: map<Obj, nat>,
                              heldAfter: map<Key, Obj>) {
    forall o: Obj :: CountIn(after, o) - Held(heldAfter, o) == CountIn(before, o) - Held(heldBefore, o)
  }

  class RefMap {
    var data: map<Key, Obj>

    constructor ()
      ensures data == map[]
    {
      data := map[];
    }

    ghost predicate Covered(heap: Heap)
      reads this, heap
    {
      heap.Valid() && forall o: Obj :: Held(data, o) <= heap.Count(o)
    }

    twostate predicate Kept(heap: Heap)
      reads this, heap
    {
      && heap.Valid() && heap.next == old(heap.next) && old(heap.destroyed) <= heap.destroyed
      && MapBalanced(old(heap.counts), old(data), heap.counts, data)
    }

    lemma Alive(heap: Heap, k: Key)
      requires Covered(heap) && k in data
      ensures data[k] in heap.counts
    {
      HeldPositive(data, k);
    }

    method Erase(heap: Heap, key: Key) returns (erased: nat)
      requires Covered(heap)
      modifies this, heap`counts, heap`destroyed
      ensures erased == if key in old(data) then 1 else 0
      ensures data == old(data) - {key} && Kept(heap) && Covered(heap)
    {
      if key !in data {
        return 0;
      }
      Alive(heap, key);
      forall x: Obj ensures Held(data - {key}, x) == Held(data, x) - (if data[key] == x then 1 else 0) {
        HeldWithout(data, key, x);
      }
      heap.Release(data[key]);
      data := data - {key};
      return 1;
    }

    /** `insert` retains first, so that the object may be the one that it replaces. */
    method Insert(heap: Heap, key: Key, o: Obj)
      requires Covered(heap) && o in heap.counts
      modifies this, heap`counts, heap`destroyed
      ensures data == old(data)[key := o] && Kept(heap)
    {
      heap.Retain(o);
      var erased := Erase(heap, key);
      forall x: Obj ensures Held(data[key := o], x) == Held(data, x) + (if o == x then 1 else 0) {
        HeldWith(data, key, o, x);
      }
      data := data[key := o];
    }

    method EraseKeys(heap: Heap, keys: seq<Key>)
      requires Covered(heap)
      modifies this, heap`counts, heap`destroyed
      ensures data == old(data) - (set k | k in keys) && Kept(heap)
    {
      for i := 0 to |keys|
        invariant Covered(heap) && Kept(heap)
        invariant data == old(data) - (set k | k in keys[..i])
      {
        var erased := Erase(heap, keys[i]);
      }
      assert keys[..|keys|] == keys;
    }

    /** The order in which the source's loop meets the entries is not fixed. */
    method Clear(heap: Heap)
      requires Covered(heap)
      modifies this, heap`counts, heap`destroyed
      ensures data == map[] && Kept(heap)
    {
      while data.Keys != {}
        invariant Covered(heap) && Kept(heap)
        decreases |data|
      {
        var k :| k in data;
        var erased := Erase(heap, k);
      }
    }

    method Take(heap: Heap, k: Key, o: Obj)
      requires heap.Valid() && k !in data && o in heap.counts
      modifies this, heap`counts
      ensures data == old(data)[k := o] && Kept(heap)
      ensures forall x: Obj :: x in old(heap.counts) ==> x in heap.counts
    {
      forall x: Obj ensures Held(data[k := o], x) == Held(data, x) + (if o == x then 1 else 0) {
        HeldWith(data, k, o, x);
      }
      heap.Retain(o);
      data := data[k := o];
    }

    /** `_data = other._data` and `addRefForAllObjects`. */
    method RetainAll(heap: Heap, entries: map<Key, Obj>)
      requires heap.Valid() && data == map[]
      requires forall o: Obj :: Held(entries, o) <= heap.Count(o)
      modifies this, heap`counts
      ensures data == entries && Kept(heap)
    {
      var rest := entries.Keys;
      while rest != {}
        invariant Kept(heap) && rest <= entries.Keys && data == entries - rest
        invariant forall o: Obj :: o in old(heap.counts) ==> o in heap.counts
        decreases |rest|
      {
        var k :| k in rest;
        HeldPositive(entries, k);
        Take(heap, k, entries[k]);
        rest := rest - {k};
      }
    }

    method CopyFrom(heap: Heap, other: RefMap)
      requires heap.Valid() && forall o: Obj ::
        Held(data, o) + (if other == this then 0 else Held(other.data, o)) <= heap.Count(o)
      modifies this, heap`counts, heap`destroyed
      ensures data == old(other.data) && Kept(heap)
    {
      if other != this {
        Clear(heap);
        RetainAll(heap, other.data);
      }
    }

    /** Move assignment: the counts of what is moved do not change. */
    method MoveFrom(heap: Heap, other: RefMap)
      requires Covered(heap)
      modifies this, other, heap`counts, heap`destroyed
      ensures other != this ==> data == old(other.data) && other.data == map[]
      ensures other == this ==> data == old(data)
      ensures heap.Valid() && heap.next == old(heap.next) && old(heap.destroyed) <= heap.destroyed
      ensures MapBalanced(old(heap.counts), if other == this then map[] else old(data), heap.counts, map[])
    {
      if other != this {
        Clear(heap);
        data := other.data;
        other.data := map[];
      }
    }
  }

  class AutoreleasePool {
    var managed: seq<Obj>

    constructor ()
      ensures managed == []
    {
      managed := [];
    }

    /** `autorelease` hands a reference over to the pool: the count stays. */
    method AddObject(o: Obj)
      modifies this
      ensures managed == old(managed) + [o]
    {
      managed := managed + [o];
    }

    function Contains(o: Obj): (c: bool)
      reads this
      ensures c <==> Times(managed, o) > 0
    {
      TimesPositive(managed, o);
      o in managed
    }

    method Clear(heap: Heap)
      requires heap.Valid() && forall o: Obj :: Times(managed, o) <= heap.Count(o)
      modifies this, heap`counts, heap`destroyed
      ensures managed == []
      ensures heap.Valid() && heap.next == old(heap.next) && old(heap.destroyed) <= heap.destroyed
      ensures Balanced(old(heap.counts), old(managed), heap.counts, managed)
    {
      var releasings := managed;
      managed := [];
      heap.ReleaseEach(releasings);
    }
  }
}
