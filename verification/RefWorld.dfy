/**
 * Any number of vectors, maps and outside owners and one autorelease pool, sharing objects. Over
 * every sequence of operations, each object's count is the number of its owners, and it is
 * destroyed exactly when it has none.
 */
module RefWorld {

  import opened Wrappers
  import opened RefHeap
  import opened RefContainers

  datatype Op =
    | New
    | Retain(o: Obj)
    | Release(o: Obj)
    | Autorelease(o: Obj)
    | ClearPool
    | PushBack(v: nat, o: Obj)
    | PushBackAll(v: nat, w: nat)
    | Insert(v: nat, i: nat, o: Obj)
    | PopBack(v: nat)
    | EraseAt(v: nat, i: nat)
    | EraseRange(v: nat, i: nat, j: nat)
    | EraseObject(v: nat, o: Obj, removeAll: bool)
    | Clear(v: nat)
    | Replace(v: nat, i: nat, o: Obj)
    | CopyFrom(v: nat, w: nat)
    | MoveFrom(v: nat, w: nat)
    | Swap(v: nat, i: nat, j: nat)
    | MapInsert(m: nat, k: Key, o: Obj)
    | MapErase(m: nat, k: Key)
    | MapEraseKeys(m: nat, keys: seq<Key>)
    | MapClear(m: nat)
    | MapCopyFrom(m: nat, n: nat)
    | MapMoveFrom(m: nat, n: nat)

  predicate OnVector(op: Op) {
    op.PushBack? || op.PushBackAll? || op.Insert? || op.PopBack? || op.EraseAt? || op.EraseRange?
    || op.EraseObject? || op.Clear? || op.Replace? || op.CopyFrom? || op.Swap?
  }

  predicate OnMap(op: Op) {
    op.MapInsert? || op.MapErase? || op.MapEraseKeys? || op.MapClear? || op.MapCopyFrom?
  }

  // ---- What the operations do ----

  /** What everybody holds: vectors, maps, the pool and the rest of the program; and the next address. */
  datatype State = State(
    lists: seq<seq<Obj>>,
    maps: seq<map<Key, Obj>>,
    pool: seq<Obj>,
    outside: map<Obj, nat>,
    next: Obj)

  function SumTimes(lists: seq<seq<Obj>>, o: Obj): nat {
    if lists == [] then 0 else Times(lists[0], o) + SumTimes(lists[1..], o)
  }

  function SumHeld(maps: seq<map<Key, Obj>>, o: Obj): nat {
    if maps == [] then 0 else Held(maps[0], o) + SumHeld(maps[1..], o)
  }

  function Owners(s: State, o: Obj): nat {
    CountIn(s.outside, o) + SumTimes(s.lists, o) + SumHeld(s.maps, o) + Times(s.pool, o)
  }

  /** What the source demands of the caller, here by assertions or silently. */
  predicate Allowed(op: Op, s: State) {
    match op
    case New => true
    case Retain(o) => Owners(s, o) > 0
    case Release(o) => CountIn(s.outside, o) > 0
    case Autorelease(o) => CountIn(s.outside, o) > 0
    case ClearPool => true
    case PushBack(v, o) => v < |s.lists| && Owners(s, o) > 0
    case PushBackAll(v, w) => v < |s.lists| && w < |s.lists| && v != w
    case Insert(v, i, o) => v < |s.lists| && i <= |s.lists[v]| && Owners(s, o) > 0
    case PopBack(v) => v < |s.lists| && s.lists[v] != []
    case EraseAt(v, i) => v < |s.lists| && i < |s.lists[v]|
    case EraseRange(v, i, j) => v < |s.lists| && i <= j <= |s.lists[v]|
    case EraseObject(v, o, removeAll) => v < |s.lists|
    case Clear(v) => v < |s.lists|
    case Replace(v, i, o) =>
      && v < |s.lists| && i < |s.lists[v]| && Owners(s, o) > 0
      && !(s.lists[v][i] == o && Owners(s, o) == 1)
    case CopyFrom(v, w) => v < |s.lists| && w < |s.lists|
    case MoveFrom(v, w) => v < |s.lists| && w < |s.lists|
    case Swap(v, i, j) => v < |s.lists| && i < |s.lists[v]| && j < |s.lists[v]|
    case MapInsert(m, k, o) => m < |s.maps| && Owners(s, o) > 0
    case MapErase(m, k) => m < |s.maps|
    case MapEraseKeys(m, keys) => m < |s.maps|
    case MapClear(m) => m < |s.maps|
    case MapCopyFrom(m, n) => m < |s.maps| && n < |s.maps|
    case MapMoveFrom(m, n) => m < |s.maps| && n < |s.maps|
  }

  /** What the vector of an operation holds after it. */
  function DataAfter(op: Op, s: State): seq<Obj>
    requires OnVector(op) && Allowed(op, s)
  {
    var l := s.lists[op.v];
    match op
    case PushBack(_, o) => l + [o]
    case PushBackAll(_, w) => l + s.lists[w]
    case Insert(_, i, o) => l[..i] + [o] + l[i..]
    case PopBack(_) => l[..|l| - 1]
    case EraseAt(_, i) => Without(l, i)
    case EraseRange(_, i, j) => l[..i] + l[j..]
    case EraseObject(_, o, removeAll) => if removeAll then Purged<Obj>(l, o) else WithoutFirst(l, o)
    case Clear(_) => []
    case Replace(_, i, o) => l[i := o]
    case CopyFrom(_, w) => s.lists[w]
    case Swap(_, i, j) => l[i := l[j]][j := l[i]]
  }

  function EntriesAfter(op: Op, s: State): map<Key, Obj>
    requires OnMap(op) && Allowed(op, s)
  {
    var m := s.maps[op.m];
    match op
    case MapInsert(_, k, o) => m[k := o]
    case MapErase(_, k) => m - {k}
    case MapEraseKeys(_, keys) => m - (set k | k in keys)
    case MapClear(_) => map[]
    case MapCopyFrom(_, n) => s.maps[n]
  }

  /** What one list holds moves to another; a move of a list to itself does nothing. */
  function ListMoved(s: State, v: nat, w: nat): State
    requires v < |s.lists| && w < |s.lists|
  {
    if v == w then s else s.(lists := s.lists[v := s.lists[w]][w := []])
  }

  function MapMoved(s: State, m: nat, n: nat): State
    requires m < |s.maps| && n < |s.maps|
  {
    if m == n then s else s.(maps := s.maps[m := s.maps[n]][n := map[]])
  }

  /** The effect of an operation that the source allows. */
  function After(op: Op, s: State): State
    requires Allowed(op, s)
  {
    if OnVector(op) then s.(lists := s.lists[op.v := DataAfter(op, s)])
    else if OnMap(op) then s.(maps := s.maps[op.m := EntriesAfter(op, s)])
    else match op
      case New => s.(outside := s.outside[s.next := 1], next := s.next + 1)
      case Retain(o) => s.(outside := s.outside[o := CountIn(s.outside, o) + 1])
      case Release(o) => s.(outside := s.outside[o := s.outside[o] - 1])
      case Autorelease(o) => s.(outside := s.outside[o := s.outside[o] - 1], pool := s.pool + [o])
      case ClearPool => s.(pool := [])
      case MoveFrom(v, w) => ListMoved(s, v, w)
      case MapMoveFrom(m, n) => MapMoved(s, m, n)
  }

  /** One that it does not allow is not performed. */
  function Step(op: Op, s: State): State {
    if Allowed(op, s) then After(op, s) else s
  }

  function Steps(ops: seq<Op>, s: State): State {
    if ops == [] then s else Step(ops[|ops| - 1], Steps(ops[..|ops| - 1], s))
  }

  // ---- The books ----

  /** Each object's count is the number of its owners. */
  ghost predicate Books(s: State, counts: map<Obj, nat>) {
    forall o: Obj :: CountIn(counts, o) == Owners(s, o)
  }

  lemma {:induction false} SumTimesUpdate(lists: seq<seq<Obj>>, i: nat, s: seq<Obj>, o: Obj)
    requires i < |lists|
    ensures SumTimes(lists[i := s], o) == SumTimes(lists, o) - Times(lists[i], o) + Times(s, o)
  {
    if i == 0 {
      assert lists[0 := s][1..] == lists[1..];
    } else {
      assert lists[i := s][1..] == lists[1..][i - 1 := s];
      SumTimesUpdate(lists[1..], i - 1, s, o);
    }
  }

  lemma {:induction false} SumHeldUpdate(maps: seq<map<Key, Obj>>, i: nat, m: map<Key, Obj>, o: Obj)
    requires i < |maps|
    ensures SumHeld(maps[i := m], o) == SumHeld(maps, o) - Held(maps[i], o) + Held(m, o)
  {
    if i == 0 {
      assert maps[0 := m][1..] == maps[1..];
    } else {
      assert maps[i := m][1..] == maps[1..][i - 1 := m];
      SumHeldUpdate(maps[1..], i - 1, m, o);
    }
  }

  /** A list's share is within the sum, and so are those of two different lists together. */
  lemma {:induction false} SharesFit(lists: seq<seq<Obj>>, i: nat, j: nat, o: Obj)
    requires i < |lists| && j < |lists|
    ensures Times(lists[i], o) + (if i == j then 0 else Times(lists[j], o)) <= SumTimes(lists, o)
  {
    SumTimesUpdate(lists, i, [], o);
    SumTimesUpdate(lists[i := []], j, [], o);
  }

  lemma {:induction false} MapSharesFit(maps: seq<map<Key, Obj>>, i: nat, j: nat, o: Obj)
    requires i < |maps| && j < |maps|
    ensures Held(maps[i], o) + (if i == j then 0 else Held(maps[j], o)) <= SumHeld(maps, o)
  {
    SumHeldUpdate(maps, i, map[], o);
    SumHeldUpdate(maps[i := map[]], j, map[], o);
  }

  /** One list changes, and its share of the counts with it. */
  lemma ListBooks(s: State, i: nat, l: seq<Obj>, counts: map<Obj, nat>, counts': map<Obj, nat>)
    requires Books(s, counts) && i < |s.lists| && Balanced(counts, s.lists[i], counts', l)
    ensures Books(s.(lists := s.lists[i := l]), counts')
  {
    var t := s.(lists := s.lists[i := l]);
    forall o: Obj ensures CountIn(counts', o) == Owners(t, o) {
      SumTimesUpdate(s.lists, i, l, o);
      assert CountIn(counts, o) == Owners(s, o);
    }
  }

  lemma MapBooks(s: State, i: nat, m: map<Key, Obj>, counts: map<Obj, nat>, counts': map<Obj, nat>)
    requires Books(s, counts) && i < |s.maps| && MapBalanced(counts, s.maps[i], counts', m)
    ensures Books(s.(maps := s.maps[i := m]), counts')
  {
    var t := s.(maps := s.maps[i := m]);
    forall o: Obj ensures CountIn(counts', o) == Owners(t, o) {
      SumHeldUpdate(s.maps, i, m, o);
      assert CountIn(counts, o) == Owners(s, o);
    }
  }

  lemma Moved<T>(s: seq<T>, t: seq<T>, i: nat, j: nat, empty: T)
    requires |s| == |t| && i < |s| && j < |s| && i != j && t[i] == s[j] && t[j] == empty
    requires forall k :: 0 <= k < |s| && k != i && k != j ==> t[k] == s[k]
    ensures t == s[i := s[j]][j := empty]
  {
  }

  /** A list is moved to where another one was, whose share is given back. */
  lemma MoveBooks(s: State, v: nat, w: nat, counts: map<Obj, nat>, counts': map<Obj, nat>)
    requires Books(s, counts) && v < |s.lists| && w < |s.lists| && v != w && Balanced(counts, s.lists[v], counts', [])
    ensures Books(ListMoved(s, v, w), counts')
  {
    var t := ListMoved(s, v, w);
    forall o: Obj ensures CountIn(counts', o) == Owners(t, o) {
      SumTimesUpdate(s.lists, v, s.lists[w], o);
      SumTimesUpdate(s.lists[v := s.lists[w]], w, [], o);
      assert CountIn(counts, o) == Owners(s, o);
    }
  }

  lemma MapMoveBooks(s: State, m: nat, n: nat, counts: map<Obj, nat>, counts': map<Obj, nat>)
    requires Books(s, counts) && m < |s.maps| && n < |s.maps| && m != n
    requires MapBalanced(counts, s.maps[m], counts', map[])
    ensures Books(MapMoved(s, m, n), counts')
  {
    var t := MapMoved(s, m, n);
    forall o: Obj ensures CountIn(counts', o) == Owners(t, o) {
      SumHeldUpdate(s.maps, m, s.maps[n], o);
      SumHeldUpdate(s.maps[m := s.maps[n]], n, map[], o);
      assert CountIn(counts, o) == Owners(s, o);
    }
  }

  /** The counts change with what the program and the pool own. */
  lemma OutsideBooks(s: State, t: State, counts: map<Obj, nat>, counts': map<Obj, nat>)
    requires Books(s, counts) && t.lists == s.lists && t.maps == s.maps
    requires forall o: Obj :: CountIn(counts', o) - CountIn(t.outside, o) - Times(t.pool, o)
                           == CountIn(counts, o) - CountIn(s.outside, o) - Times(s.pool, o)
    ensures Books(t, counts')
  {
    forall o: Obj ensures CountIn(counts', o) == Owners(t, o) {
      assert CountIn(counts, o) == Owners(s, o);
    }
  }

  lemma {:induction false} EmptySums(lists: seq<seq<Obj>>, maps: seq<map<Key, Obj>>, o: Obj)
    requires forall k :: 0 <= k < |lists| ==> lists[k] == []
    requires forall k :: 0 <= k < |maps| ==> maps[k] == map[]
    ensures SumTimes(lists, o) == 0 && SumHeld(maps, o) == 0
  {
    if lists != [] {
      EmptySums(lists[1..], maps, o);
    } else if maps != [] {
      EmptySums(lists, maps[1..], o);
    }
  }

  function ListsOf(vs: seq<Vector>): (r: seq<seq<Obj>>)
    reads set v | v in vs
    ensures |r| == |vs| && forall k :: 0 <= k < |vs| ==> r[k] == vs[k].data
  {
    if vs == [] then [] else [vs[0].data] + ListsOf(vs[1..])
  }

  function MapsOf(ms: seq<RefMap>): (r: seq<map<Key, Obj>>)
    reads set m | m in ms
    ensures |r| == |ms| && forall k :: 0 <= k < |ms| ==> r[k] == ms[k].data
  {
    if ms == [] then [] else [ms[0].data] + MapsOf(ms[1..])
  }

  method NewVectors(n: nat) returns (vs: seq<Vector>)
    ensures |vs| == n && (forall k :: 0 <= k < n ==> fresh(vs[k]) && vs[k].data == [])
    ensures forall k, l :: 0 <= k < l < n ==> vs[k] != vs[l]
  {
    vs := [];
    for i := 0 to n
      invariant |vs| == i && (forall k :: 0 <= k < i ==> fresh(vs[k]) && vs[k].data == [])
      invariant forall k, l :: 0 <= k < l < i ==> vs[k] != vs[l]
    {
      var v := new Vector();
      vs := vs + [v];
    }
  }

  method NewMaps(n: nat) returns (ms: seq<RefMap>)
    ensures |ms| == n && (forall k :: 0 <= k < n ==> fresh(ms[k]) && ms[k].data == map[])
    ensures forall k, l :: 0 <= k < l < n ==> ms[k] != ms[l]
  {
    ms := [];
    for i := 0 to n
      invariant |ms| == i && (forall k :: 0 <= k < i ==> fresh(ms[k]) && ms[k].data == map[])
      invariant forall k, l :: 0 <= k < l < i ==> ms[k] != ms[l]
    {
      var m := new RefMap();
      ms := ms + [m];
    }
  }

  class World {
    const heap: Heap
    const pool: AutoreleasePool
    const vectors: seq<Vector>
    const maps: seq<RefMap>
    var outside: map<Obj, nat>     // references that the rest of the program owns

    ghost predicate Distinct() {
      && (forall i, j :: 0 <= i < j < |vectors| ==> vectors[i] != vectors[j])
      && (forall i, j :: 0 <= i < j < |maps| ==> maps[i] != maps[j])
    }

    function S(): State
      reads this, heap, pool, (set v | v in vectors), (set m | m in maps)
    {
      State(ListsOf(vectors), MapsOf(maps), pool.managed, outside, heap.next)
    }

    ghost predicate Valid()
      reads this, heap, pool, (set v | v in vectors), (set m | m in maps)
    {
      Distinct() && heap.Valid() && Books(S(), heap.counts)
    }

    constructor (v: nat, m: nat)
      ensures Valid() && |vectors| == v && |maps| == m && outside == map[] && pool.managed == []
    {
      var h := new Heap();
      var p := new AutoreleasePool();
      var vs := NewVectors(v);
      var ms := NewMaps(m);
      heap, pool, vectors, maps, outside := h, p, vs, ms, map[];
      new;
      forall o: Obj ensures CountIn(heap.counts, o) == Owners(S(), o) {
        EmptySums(S().lists, S().maps, o);
      }
    }

    lemma Exists(o: Obj)
      requires Valid()
      ensures o in heap.counts <==> Owners(S(), o) > 0
    {
      assert CountIn(heap.counts, o) == Owners(S(), o);
    }

    lemma VectorsCovered(i: nat, j: nat)
      requires Valid() && i < |vectors| && j < |vectors|
      ensures forall o: Obj ::
        Times(vectors[i].data, o) + (if vectors[j] == vectors[i] then 0 else Times(vectors[j].data, o)) <= heap.Count(o)
    {
      forall o: Obj
        ensures Times(vectors[i].data, o) + (if vectors[j] == vectors[i] then 0 else Times(vectors[j].data, o))
             <= heap.Count(o)
      {
        assert CountIn(heap.counts, o) == Owners(S(), o);
        SharesFit(S().lists, i, j, o);
      }
    }

    lemma VectorCovered(i: nat)
      requires Valid() && i < |vectors|
      ensures vectors[i].Covered(heap)
    {
      VectorsCovered(i, i);
    }

    lemma MapsCovered(i: nat, j: nat)
      requires Valid() && i < |maps| && j < |maps|
      ensures maps[i].Covered(heap)
      ensures forall o: Obj ::
        Held(maps[i].data, o) + (if maps[j] == maps[i] then 0 else Held(maps[j].data, o)) <= heap.Count(o)
    {
      forall o: Obj
        ensures Held(maps[i].data, o) + (if maps[j] == maps[i] then 0 else Held(maps[j].data, o)) <= heap.Count(o)
      {
        assert CountIn(heap.counts, o) == Owners(S(), o);
        MapSharesFit(S().maps, i, j, o);
      }
    }

    lemma PoolCovered()
      requires Valid()
      ensures forall o: Obj :: Times(pool.managed, o) <= heap.Count(o)
      ensures forall o: Obj :: CountIn(outside, o) <= heap.Count(o)
    {
      forall o: Obj ensures Times(pool.managed, o) <= heap.Count(o) && CountIn(outside, o) <= heap.Count(o) {
        assert CountIn(heap.counts, o) == Owners(S(), o);
      }
    }

    /** An operation of one vector that keeps the shares of all others keeps the world's books. */
    twostate lemma VectorKeeps(i: nat)
      requires old(Valid()) && i < |vectors| && vectors[i].Kept(heap)
      requires outside == old(outside) && pool.managed == old(pool.managed)
      requires forall k :: 0 <= k < |vectors| && k != i ==> vectors[k].data == old(vectors[k].data)
      requires forall k :: 0 <= k < |maps| ==> maps[k].data == old(maps[k].data)
      ensures Valid() && S() == old(S()).(lists := old(S()).lists[i := vectors[i].data])
    {
      assert S().lists == old(S()).lists[i := vectors[i].data];
      assert S().maps == old(S()).maps;
      ListBooks(old(S()), i, vectors[i].data, old(heap.counts), heap.counts);
    }

    twostate lemma MapKeeps(i: nat)
      requires old(Valid()) && i < |maps| && maps[i].Kept(heap)
      requires outside == old(outside) && pool.managed == old(pool.managed)
      requires forall k :: 0 <= k < |vectors| ==> vectors[k].data == old(vectors[k].data)
      requires forall k :: 0 <= k < |maps| && k != i ==> maps[k].data == old(maps[k].data)
      ensures Valid() && S() == old(S()).(maps := old(S()).maps[i := maps[i].data])
    {
      assert S().maps == old(S()).maps[i := maps[i].data];
      assert S().lists == old(S()).lists;
      MapBooks(old(S()), i, maps[i].data, old(heap.counts), heap.counts);
    }

    twostate lemma OutsideKeeps()
      requires old(Valid()) && heap.Valid()
      requires forall k :: 0 <= k < |vectors| ==> vectors[k].data == old(vectors[k].data)
      requires forall k :: 0 <= k < |maps| ==> maps[k].data == old(maps[k].data)
      requires forall o: Obj ::
        CountIn(heap.counts, o) - CountIn(outside, o) - Times(pool.managed, o)
        == CountIn(old(heap.counts), o) - CountIn(old(outside), o) - Times(old(pool.managed), o)
      ensures Valid() && S() == old(S()).(outside := outside, pool := pool.managed, next := heap.next)
    {
      assert S().lists == old(S()).lists && S().maps == old(S()).maps;
      OutsideBooks(old(S()), S(), old(heap.counts), heap.counts);
    }

    method New() returns (made: Obj)
      requires Valid()
      modifies this, heap
      ensures Valid() && S() == After(Op.New, old(S())) && heap.destroyed == old(heap.destroyed)
      ensures made == old(heap.next)
    {
      PoolCovered();
      made := heap.New();
      outside := outside[made := 1];
      OutsideKeeps();
    }

    method Retain(o: Obj)
      requires Valid() && o in heap.counts
      modifies this, heap
      ensures Valid() && S() == old(S()).(outside := old(outside)[o := CountIn(old(outside), o) + 1])
      ensures heap.destroyed == old(heap.destroyed)
    {
      heap.Retain(o);
      outside := outside[o := CountIn(outside, o) + 1];
      OutsideKeeps();
    }

    method Release(o: Obj)
      requires Valid() && CountIn(outside, o) > 0
      modifies this, heap
      ensures Valid() && S() == After(Op.Release(o), old(S())) && old(heap.destroyed) <= heap.destroyed
    {
      PoolCovered();
      assert CountIn(outside, o) <= heap.Count(o);
      heap.Release(o);
      outside := outside[o := outside[o] - 1];
      OutsideKeeps();
    }

    /** A reference is handed over to the pool: the counts stay. */
    method Autorelease(o: Obj)
      requires Valid() && CountIn(outside, o) > 0
      modifies this, pool
      ensures Valid() && S() == After(Op.Autorelease(o), old(S()))
    {
      forall x: Obj ensures Times(pool.managed + [o], x) == Times(pool.managed, x) + (if o == x then 1 else 0) {
        TimesAppend(pool.managed, o, x);
      }
      pool.AddObject(o);
      outside := outside[o := outside[o] - 1];
      OutsideKeeps();
    }

    method ClearPool()
      requires Valid()
      modifies heap, pool
      ensures Valid() && S() == After(Op.ClearPool, old(S())) && old(heap.destroyed) <= heap.destroyed
    {
      PoolCovered();
      pool.Clear(heap);
      OutsideKeeps();
    }

    method PerformAdding(op: Op)
      requires Valid() && Allowed(op, S())
      requires op.PushBack? || op.Insert?
      modifies heap, set v | v in vectors
      ensures Valid() && S() == After(op, old(S())) && old(heap.destroyed) <= heap.destroyed
    {
      var v := vectors[op.v];
      VectorCovered(op.v);
      Exists(op.o);
      match op {
        case PushBack(_, o) => v.PushBack(heap, o);
        case Insert(_, i, o) => v.Insert(heap, i, o);
      }
      VectorKeeps(op.v);
    }

    method PerformSharing(op: Op)
      requires Valid() && Allowed(op, S())
      requires op.PushBackAll? || op.CopyFrom?
      modifies heap, set v | v in vectors
      ensures Valid() && S() == After(op, old(S())) && old(heap.destroyed) <= heap.destroyed
    {
      var v := vectors[op.v];
      VectorCovered(op.v);
      VectorCovered(op.w);
      VectorsCovered(op.v, op.w);
      match op {
        case PushBackAll(_, w) => v.PushBackAll(heap, vectors[w]);
        case CopyFrom(_, w) => v.CopyFrom(heap, vectors[w]);
      }
      VectorKeeps(op.v);
    }

    method PerformErasing(op: Op)
      requires Valid() && Allowed(op, S())
      requires op.EraseAt? || op.EraseRange? || op.EraseObject?
      modifies heap, set v | v in vectors
      ensures Valid() && S() == After(op, old(S())) && old(heap.destroyed) <= heap.destroyed
    {
      var v := vectors[op.v];
      VectorCovered(op.v);
      match op {
        case EraseAt(_, i) => v.EraseAt(heap, i);
        case EraseRange(_, i, j) => v.EraseRange(heap, i, j);
        case EraseObject(_, o, removeAll) => v.EraseObject(heap, o, removeAll);
      }
      VectorKeeps(op.v);
    }

    method PerformDropping(op: Op)
      requires Valid() && Allowed(op, S())
      requires op.PopBack? || op.Clear?
      modifies heap, set v | v in vectors
      ensures Valid() && S() == After(op, old(S())) && old(heap.destroyed) <= heap.destroyed
    {
      var v := vectors[op.v];
      VectorCovered(op.v);
      match op {
        case PopBack(_) => v.PopBack(heap);
        case Clear(_) => v.Clear(heap);
      }
      VectorKeeps(op.v);
    }

    method PerformExchanging(op: Op)
      requires Valid() && Allowed(op, S())
      requires op.Replace? || op.Swap?
      modifies heap, set v | v in vectors
      ensures Valid() && S() == After(op, old(S())) && old(heap.destroyed) <= heap.destroyed
    {
      var v := vectors[op.v];
      VectorCovered(op.v);
      match op {
        case Replace(_, i, o) =>
          Exists(o);
          assert CountIn(heap.counts, o) == Owners(S(), o);
          var ok := v.Replace(heap, i, o);
        case Swap(_, i, j) => v.Swap(heap, i, j);
      }
      VectorKeeps(op.v);
    }

    method PerformOnVector(op: Op)
      requires Valid() && Allowed(op, S()) && OnVector(op)
      modifies heap, set v | v in vectors
      ensures Valid() && S() == After(op, old(S())) && old(heap.destroyed) <= heap.destroyed
    {
      if op.PushBack? || op.Insert? {
        PerformAdding(op);
      } else if op.PushBackAll? || op.CopyFrom? {
        PerformSharing(op);
      } else if op.Replace? || op.Swap? {
        PerformExchanging(op);
      } else if op.PopBack? || op.Clear? {
        PerformDropping(op);
      } else {
        PerformErasing(op);
      }
    }

    method PerformOnKeys(op: Op)
      requires Valid() && Allowed(op, S()) && (op.MapInsert? || op.MapErase? || op.MapEraseKeys?)
      modifies heap, set m | m in maps
      ensures Valid() && S() == After(op, old(S())) && old(heap.destroyed) <= heap.destroyed
    {
      var m := maps[op.m];
      MapsCovered(op.m, op.m);
      match op {
        case MapInsert(_, k, o) => Exists(o); m.Insert(heap, k, o);
        case MapErase(_, k) => var erased := m.Erase(heap, k);
        case MapEraseKeys(_, keys) => m.EraseKeys(heap, keys);
      }
      MapKeeps(op.m);
    }

    method PerformOnEntries(op: Op)
      requires Valid() && Allowed(op, S()) && (op.MapClear? || op.MapCopyFrom?)
      modifies heap, set m | m in maps
      ensures Valid() && S() == After(op, old(S())) && old(heap.destroyed) <= heap.destroyed
    {
      var m := maps[op.m];
      MapsCovered(op.m, op.m);
      match op {
        case MapClear(_) => m.Clear(heap);
        case MapCopyFrom(_, n) => MapsCovered(op.m, n); m.CopyFrom(heap, maps[n]);
      }
      MapKeeps(op.m);
    }

    method PerformOnMap(op: Op)
      requires Valid() && Allowed(op, S()) && OnMap(op)
      modifies heap, set m | m in maps
      ensures Valid() && S() == After(op, old(S())) && old(heap.destroyed) <= heap.destroyed
    {
      if op.MapInsert? || op.MapErase? || op.MapEraseKeys? {
        PerformOnKeys(op);
      } else {
        PerformOnEntries(op);
      }
    }

    /** What one vector held is released, and what another one holds moves to it. */
    method MoveList(i: nat, j: nat)
      requires Distinct() && i < |vectors| && j < |vectors| && i != j && vectors[i].Covered(heap)
      modifies heap, set v | v in vectors
      ensures S() == ListMoved(old(S()), i, j)
      ensures heap.Valid() && old(heap.destroyed) <= heap.destroyed
      ensures Balanced(old(heap.counts), old(S()).lists[i], heap.counts, [])
    {
      ghost var s := S();
      vectors[i].MoveFrom(heap, vectors[j]);
      assert S().maps == s.maps;
      Moved(s.lists, S().lists, i, j, []);
    }

    method PerformMove(i: nat, j: nat)
      requires Valid() && i < |vectors| && j < |vectors|
      modifies heap, set v | v in vectors
      ensures Valid() && S() == ListMoved(old(S()), i, j) && old(heap.destroyed) <= heap.destroyed
    {
      if i != j {
        ghost var s, counts := S(), heap.counts;
        VectorCovered(i);
        MoveList(i, j);
        MoveBooks(s, i, j, counts, heap.counts);
      }
    }

    /** The same for maps. */
    method MoveEntries(i: nat, j: nat)
      requires Distinct() && i < |maps| && j < |maps| && i != j && maps[i].Covered(heap)
      modifies heap, set m | m in maps
      ensures S() == MapMoved(old(S()), i, j)
      ensures heap.Valid() && old(heap.destroyed) <= heap.destroyed
      ensures MapBalanced(old(heap.counts), old(S()).maps[i], heap.counts, map[])
    {
      ghost var s := S();
      maps[i].MoveFrom(heap, maps[j]);
      assert S().lists == s.lists;
      Moved(s.maps, S().maps, i, j, map[]);
    }

    method PerformMapMove(i: nat, j: nat)
      requires Valid() && i < |maps| && j < |maps|
      modifies heap, set m | m in maps
      ensures Valid() && S() == MapMoved(old(S()), i, j) && old(heap.destroyed) <= heap.destroyed
    {
      if i != j {
        ghost var s, counts := S(), heap.counts;
        MapsCovered(i, i);
        MoveEntries(i, j);
        MapMoveBooks(s, i, j, counts, heap.counts);
      }
    }

    method PerformDirect(op: Op)
      requires Valid() && Allowed(op, S())
      requires op.New? || op.Retain? || op.Release? || op.Autorelease? || op.ClearPool?
      modifies this, heap, pool
      ensures Valid() && S() == After(op, old(S())) && old(heap.destroyed) <= heap.destroyed
    {
      match op
      case New => var made := New();
      case Retain(o) => Exists(o); Retain(o);
      case Release(o) => Release(o);
      case Autorelease(o) => Autorelease(o);
      case ClearPool => ClearPool();
    }

    /** Any operation that the source allows. */
    method PerformAllowed(op: Op)
      requires Valid() && Allowed(op, S())
      modifies this, heap, pool, (set v | v in vectors), (set m | m in maps)
      ensures Valid() && S() == After(op, old(S())) && old(heap.destroyed) <= heap.destroyed
    {
      if OnVector(op) {
        PerformOnVector(op);
      } else if OnMap(op) {
        PerformOnMap(op);
      } else if op.MoveFrom? {
        PerformMove(op.v, op.w);
      } else if op.MapMoveFrom? {
        PerformMapMove(op.m, op.n);
      } else {
        PerformDirect(op);
      }
    }

    /** One operation; one that the source does not allow is not performed, and changes nothing at all. */
    method Perform(op: Op)
      requires Valid()
      modifies this, heap, pool, (set v | v in vectors), (set m | m in maps)
      ensures Valid() && S() == Step(op, old(S())) && old(heap.destroyed) <= heap.destroyed
      ensures !Allowed(op, old(S())) ==> heap.counts == old(heap.counts) && heap.destroyed == old(heap.destroyed)
    {
      if Allowed(op, S()) {
        PerformAllowed(op);
      }
    }

    /**
     * After every run everybody holds what the operations one after another give them, each count is the
     * number of its object's owners, and what was destroyed stays so.
     */
    method Run(ops: seq<Op>)
      requires Valid()
      modifies this, heap, pool, (set v | v in vectors), (set m | m in maps)
      ensures Valid() && S() == Steps(ops, old(S())) && old(heap.destroyed) <= heap.destroyed
      ensures forall o: Obj :: heap.Count(o) == Owners(Steps(ops, old(S())), o)
    {
      for k := 0 to |ops|
        invariant Valid() && S() == Steps(ops[..k], old(S())) && old(heap.destroyed) <= heap.destroyed
      {
        assert ops[..k + 1][..k] == ops[..k];
        Perform(ops[k]);
      }
      assert ops[..|ops|] == ops;
    }

    /**
     * In every such state an object that has been created exists exactly as long as it has an owner,
     * its count is the number of its owners, and it has been destroyed once if it has none.
     */
    lemma DestroyedExactlyWhenUnowned(o: Obj)
      requires Valid() && o < heap.next
      ensures heap.Count(o) == Owners(S(), o)
      ensures Times(heap.destroyed, o) == if Owners(S(), o) == 0 then 1 else 0
      ensures o in heap.counts <==> Owners(S(), o) > 0
    {
      Exists(o);
    }

    /** Whatever a container or the pool holds exists. */
    lemma HeldObjectsExist(o: Obj)
      requires Valid()
      requires (exists k :: 0 <= k < |vectors| && o in vectors[k].data) || o in pool.managed
            || (exists k, key :: 0 <= k < |maps| && key in maps[k].data && maps[k].data[key] == o)
      ensures o in heap.counts && o !in heap.destroyed
    {
      TimesPositive(pool.managed, o);
      TimesPositive(heap.destroyed, o);
      if k :| 0 <= k < |vectors| && o in vectors[k].data {
        VectorCovered(k);
        TimesPositive(vectors[k].data, o);
      } else if k, key :| 0 <= k < |maps| && key in maps[k].data && maps[k].data[key] == o {
        MapsCovered(k, k);
        HeldPositive(maps[k].data, key);
      }
      Exists(o);
    }
  }
}
