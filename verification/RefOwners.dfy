/**
 * Which references each operation on the containers gives, and which it takes: for every state in which the
 * source allows the operation, and with it by how much each object's count changes.
 */
module RefOwners {

  import opened Wrappers
  import opened RefHeap
  import opened RefContainers
  import opened RefWorld

  function One(b: bool): nat {
    if b then 1 else 0
  }

  lemma TimesSplit(l: seq<Obj>, i: nat, x: Obj)
    requires i <= |l|
    ensures Times(l, x) == Times(l[..i], x) + Times(l[i..], x)
  {
    assert l == l[..i] + l[i..];
    TimesConcat(l[..i], l[i..], x);
  }

  lemma TimesOne(o: Obj, x: Obj)
    ensures Times([o], x) == One(o == x)
  {
    assert [o][1..] == [];
  }

  // ---- The program's own references and the pool ----

  /** An object is made with one owner, and retained and released one by one. */
  lemma OutsideOwners(s: State, o: Obj, x: Obj)
    ensures CountIn(s.outside, s.next) == 0 ==> Owners(Step(New, s), x) == Owners(s, x) + One(x == s.next)
    ensures Owners(s, o) > 0 ==> Owners(Step(Retain(o), s), x) == Owners(s, x) + One(x == o)
    ensures CountIn(s.outside, o) > 0 ==> Owners(Step(Release(o), s), x) == Owners(s, x) - One(x == o)
  {
  }

  /** The pool takes a reference over, and gives back all that it holds when it is cleared. */
  lemma PoolOwners(s: State, o: Obj, x: Obj)
    ensures CountIn(s.outside, o) > 0 ==>
      Owners(Step(Autorelease(o), s), x) == Owners(s, x) && Step(Autorelease(o), s).pool == s.pool + [o]
    ensures Owners(Step(ClearPool, s), x) == Owners(s, x) - Times(s.pool, x) && Step(ClearPool, s).pool == []
  {
    TimesAppend(s.pool, o, x);
  }

  // ---- Vectors ----

  /** The owners change by what the vector holds more or less. */
  lemma VectorStep(op: Op, s: State, x: Obj)
    requires OnVector(op) && Allowed(op, s)
    ensures Owners(Step(op, s), x) == Owners(s, x) - Times(s.lists[op.v], x) + Times(DataAfter(op, s), x)
  {
    SumTimesUpdate(s.lists, op.v, DataAfter(op, s), x);
  }

  /** Each place that an object takes in a vector is a reference to it. */
  lemma AddingOwners(s: State, v: nat, i: nat, o: Obj, x: Obj)
    requires v < |s.lists| && i <= |s.lists[v]| && Owners(s, o) > 0
    ensures Owners(Step(PushBack(v, o), s), x) == Owners(s, x) + One(x == o)
    ensures Owners(Step(Insert(v, i, o), s), x) == Owners(s, x) + One(x == o)
  {
    var l := s.lists[v];
    TimesAppend(l, o, x);
    VectorStep(PushBack(v, o), s, x);
    TimesSplit(l, i, x);
    TimesConcat(l[..i], [o], x);
    TimesOne(o, x);
    TimesConcat(l[..i] + [o], l[i..], x);
    VectorStep(Insert(v, i, o), s, x);
  }

  lemma SharingOwners(s: State, v: nat, w: nat, x: Obj)
    requires v < |s.lists| && w < |s.lists|
    ensures v != w ==> Owners(Step(PushBackAll(v, w), s), x) == Owners(s, x) + Times(s.lists[w], x)
    ensures Owners(Step(CopyFrom(v, w), s), x) == Owners(s, x) - Times(s.lists[v], x) + Times(s.lists[w], x)
  {
    TimesConcat(s.lists[v], s.lists[w], x);
    if v != w { VectorStep(PushBackAll(v, w), s, x); }
    VectorStep(CopyFrom(v, w), s, x);
  }

  lemma TimesRange(l: seq<Obj>, i: nat, j: nat, x: Obj)
    requires i <= j <= |l|
    ensures Times(l[..i] + l[j..], x) == Times(l, x) - Times(l[i..j], x)
  {
    TimesSplit(l, j, x);
    TimesSplit(l[..j], i, x);
    assert l[..j][..i] == l[..i] && l[..j][i..] == l[i..j];
    TimesConcat(l[..i], l[j..], x);
  }

  lemma ErasingRangeOwners(s: State, v: nat, i: nat, j: nat, x: Obj)
    requires v < |s.lists| && i <= j <= |s.lists[v]|
    ensures Owners(Step(EraseRange(v, i, j), s), x) == Owners(s, x) - Times(s.lists[v][i..j], x)
    ensures Owners(Step(Clear(v), s), x) == Owners(s, x) - Times(s.lists[v], x)
  {
    TimesRange(s.lists[v], i, j, x);
    VectorStep(EraseRange(v, i, j), s, x);
    VectorStep(Clear(v), s, x);
  }

  lemma ErasingOwners(s: State, v: nat, i: nat, x: Obj)
    requires v < |s.lists| && i < |s.lists[v]|
    ensures Owners(Step(EraseAt(v, i), s), x) == Owners(s, x) - One(x == s.lists[v][i])
    ensures Owners(Step(PopBack(v), s), x) == Owners(s, x) - One(x == s.lists[v][|s.lists[v]| - 1])
  {
    var l := s.lists[v];
    TimesAt(l, i, x);
    VectorStep(EraseAt(v, i), s, x);
    assert l == l[..|l| - 1] + [l[|l| - 1]];
    TimesAppend(l[..|l| - 1], l[|l| - 1], x);
    VectorStep(PopBack(v), s, x);
  }

  lemma {:induction false} TimesWithoutFirst(l: seq<Obj>, o: Obj, x: Obj)
    ensures Times(WithoutFirst(l, o), x) == Times(l, x) - One(x == o && o in l)
  {
    if l != [] && l[0] != o {
      TimesWithoutFirst(l[1..], o, x);
      assert ([l[0]] + WithoutFirst(l[1..], o))[1..] == WithoutFirst(l[1..], o);
    }
  }

  lemma ErasingObjectOwners(s: State, v: nat, o: Obj, x: Obj)
    requires v < |s.lists|
    ensures Owners(Step(EraseObject(v, o, true), s), x) == Owners(s, x) - if x == o then Times(s.lists[v], o) else 0
    ensures Owners(Step(EraseObject(v, o, false), s), x) == Owners(s, x) - One(x == o && o in s.lists[v])
  {
    TimesPurged(s.lists[v], o, x);
    VectorStep(EraseObject(v, o, true), s, x);
    TimesWithoutFirst(s.lists[v], o, x);
    VectorStep(EraseObject(v, o, false), s, x);
  }

  lemma ReplacingOwners(s: State, v: nat, i: nat, o: Obj, x: Obj)
    requires v < |s.lists| && i < |s.lists[v]| && Owners(s, o) > (if s.lists[v][i] == o then 1 else 0)
    ensures Owners(Step(Replace(v, i, o), s), x) == Owners(s, x) + One(x == o) - One(x == s.lists[v][i])
  {
    TimesUpdate(s.lists[v], i, o, x);
    VectorStep(Replace(v, i, o), s, x);
  }

  lemma MovingOwners(s: State, v: nat, w: nat, x: Obj)
    requires v < |s.lists| && w < |s.lists|
    ensures Owners(Step(MoveFrom(v, w), s), x) == Owners(s, x) - if v == w then 0 else Times(s.lists[v], x)
  {
    if v != w {
      SumTimesUpdate(s.lists, v, s.lists[w], x);
      SumTimesUpdate(s.lists[v := s.lists[w]], w, [], x);
    }
  }

  // ---- Maps ----

  lemma MapStep(op: Op, s: State, x: Obj)
    requires OnMap(op) && Allowed(op, s)
    ensures Owners(Step(op, s), x) == Owners(s, x) - Held(s.maps[op.m], x) + Held(EntriesAfter(op, s), x)
  {
    SumHeldUpdate(s.maps, op.m, EntriesAfter(op, s), x);
  }

  /** Each key under which an object is bound is a reference to it. */
  lemma BindingOwners(s: State, m: nat, k: Key, o: Obj, x: Obj)
    requires m < |s.maps| && Owners(s, o) > 0
    ensures var d := s.maps[m];
      && Owners(Step(MapInsert(m, k, o), s), x) == Owners(s, x) + One(x == o) - One(k in d && d[k] == x)
      && Owners(Step(MapErase(m, k), s), x) == Owners(s, x) - One(k in d && d[k] == x)
  {
    var d := s.maps[m];
    if k in d {
      HeldWithout(d, k, x);
    } else {
      assert d - {k} == d;
    }
    assert d[k := o] == (d - {k})[k := o];
    HeldWith(d - {k}, k, o, x);
    MapStep(MapInsert(m, k, o), s, x);
    MapStep(MapErase(m, k), s, x);
  }

  lemma MapOwners(s: State, m: nat, n: nat, x: Obj)
    requires m < |s.maps| && n < |s.maps|
    ensures Owners(Step(MapClear(m), s), x) == Owners(s, x) - Held(s.maps[m], x)
    ensures Owners(Step(MapCopyFrom(m, n), s), x) == Owners(s, x) - Held(s.maps[m], x) + Held(s.maps[n], x)
  {
    MapStep(MapClear(m), s, x);
    MapStep(MapCopyFrom(m, n), s, x);
  }

  lemma MapMovingOwners(s: State, m: nat, n: nat, x: Obj)
    requires m < |s.maps| && n < |s.maps|
    ensures Owners(Step(MapMoveFrom(m, n), s), x) == Owners(s, x) - if m == n then 0 else Held(s.maps[m], x)
  {
    if m != n {
      SumHeldUpdate(s.maps, m, s.maps[n], x);
      SumHeldUpdate(s.maps[m := s.maps[n]], n, map[], x);
    }
  }

  // ---- Keeping an object alive ----

  lemma StepsAre(s: State, a: Op, b: Op, c: Op)
    ensures Steps([a, b, c], s) == Step(c, Step(b, Step(a, s)))
  {
    assert [a, b, c][..2] == [a, b] && [a, b][..1] == [a] && [a][..0] == [];
    assert Steps([a], s) == Step(a, Steps([], s));
  }

  /** An object that its maker puts into a vector and lets go of is kept by the vector alone. */
  lemma VectorKeepsAlive(s: State, v: nat)
    requires v < |s.lists| && Owners(s, s.next) == 0
    ensures Owners(Steps([New, PushBack(v, s.next), Release(s.next)], s), s.next) == 1
  {
    var o, s1 := s.next, Step(New, s);
    OutsideOwners(s, o, o);
    AddingOwners(s1, v, 0, o, o);
    OutsideOwners(Step(PushBack(v, o), s1), o, o);
    StepsAre(s, New, PushBack(v, o), Release(o));
  }

  lemma HandedOver(s: State, o: Obj)
    requires CountIn(s.outside, o) > 0
    ensures Owners(Step(ClearPool, Step(Autorelease(o), s)), o) == Owners(s, o) - Times(s.pool, o) - 1
  {
    PoolOwners(s, o, o);
    PoolOwners(Step(Autorelease(o), s), o, o);
    TimesAppend(s.pool, o, o);
  }

  /** One that its maker hands over to the pool goes with the pool's next clearing. */
  lemma PoolLetsGo(s: State)
    requires Owners(s, s.next) == 0
    ensures Owners(Steps([New, Autorelease(s.next), ClearPool], s), s.next) == 0
  {
    var o, s1 := s.next, Step(New, s);
    OutsideOwners(s, o, o);
    assert s1.pool == s.pool && CountIn(s1.outside, o) == 1;
    HandedOver(s1, o);
    StepsAre(s, New, Autorelease(o), ClearPool);
  }
}
