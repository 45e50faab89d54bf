/** Value types and small facts shared by the other modules. */
module Wrappers {

  type Byte = x: nat | x < 256

  datatype Option<+T> = None | Some(value: T)

  function Zeros(n: nat): (z: seq<bool>)
    ensures |z| == n
  {
    seq(n, i => false)
  }

  /** The number of positions of `s` whose element satisfies `p`. */
  function Count<T>(s: seq<T>, p: T -> bool): nat {
    if s == [] then 0 else (if p(s[0]) then 1 else 0) + Count(s[1..], p)
  }

  lemma {:induction false} CountUpdate<T>(s: seq<T>, i: nat, x: T, p: T -> bool)
    requires i < |s|
    ensures Count(s[i := x], p) == Count(s, p) - (if p(s[i]) then 1 else 0) + (if p(x) then 1 else 0)
  {
    if i == 0 {
      assert s[0 := x][1..] == s[1..];
    } else {
      assert s[i := x][1..] == s[1..][i - 1 := x];
      CountUpdate(s[1..], i - 1, x, p);
    }
  }

  lemma {:induction false} CountBounds<T>(s: seq<T>, p: T -> bool)
    ensures Count(s, p) <= |s|
    ensures (exists i :: 0 <= i < |s| && p(s[i])) <==> Count(s, p) > 0
  {
    if s != [] {
      CountBounds(s[1..], p);
      assert forall i :: 1 <= i < |s| ==> s[i] == s[1..][i - 1];
    }
  }

  /** How often `x` occurs in `q`. */
  function Times<T(==)>(q: seq<T>, x: T): nat {
    if q == [] then 0 else (if q[0] == x then 1 else 0) + Times(q[1..], x)
  }

  lemma {:induction false} TimesAppend<T>(q: seq<T>, t: T, x: T)
    ensures Times(q + [t], x) == Times(q, x) + (if t == x then 1 else 0)
  {
    if q != [] {
      assert (q + [t])[1..] == q[1..] + [t];
      TimesAppend(q[1..], t, x);
    }
  }

  lemma {:induction false} TimesConcat<T>(q: seq<T>, r: seq<T>, x: T)
    ensures Times(q + r, x) == Times(q, x) + Times(r, x)
  {
    if q == [] {
      assert q + r == r;
    } else {
      assert (q + r)[1..] == q[1..] + r;
      TimesConcat(q[1..], r, x);
    }
  }

  lemma {:induction false} TimesPositive<T>(q: seq<T>, x: T)
    ensures Times(q, x) > 0 <==> x in q
  {
    if q != [] {
      TimesPositive(q[1..], x);
    }
  }

  /** What taking one element out, or putting one in, does to the occurrences. */
  lemma TimesAt<T>(q: seq<T>, i: nat, x: T)
    requires i < |q|
    ensures Times(q, x) == Times(q[..i] + q[i + 1..], x) + (if q[i] == x then 1 else 0)
  {
    assert q == q[..i] + ([q[i]] + q[i + 1..]);
    assert ([q[i]] + q[i + 1..])[1..] == q[i + 1..];
    TimesConcat(q[..i], [q[i]] + q[i + 1..], x);
    TimesConcat(q[..i], q[i + 1..], x);
  }

  lemma TimesUpdate<T>(q: seq<T>, i: nat, t: T, x: T)
    requires i < |q|
    ensures Times(q[i := t], x) == Times(q, x) - (if q[i] == x then 1 else 0) + (if t == x then 1 else 0)
  {
    TimesAt(q, i, x);
    TimesAt(q[i := t], i, x);
    assert q[i := t][..i] + q[i := t][i + 1..] == q[..i] + q[i + 1..];
  }

  /** `s` without its element at `i`. */
  function Without<T>(s: seq<T>, i: nat): seq<T>
    requires i < |s|
  {
    s[..i] + s[i + 1..]
  }

  /** `q` without any occurrence of `x`. */
  function Purged<T(==)>(q: seq<T>, x: T): seq<T> {
    if q == [] then [] else (if q[0] == x then [] else [q[0]]) + Purged(q[1..], x)
  }

  lemma {:induction false} TimesPurged<T>(q: seq<T>, t: T, x: T)
    ensures Times(Purged(q, t), x) == if x == t then 0 else Times(q, x)
  {
    if q != [] {
      TimesPurged(q[1..], t, x);
      var rest := Purged(q[1..], t);
      assert q[0] != t ==> ([q[0]] + rest)[1..] == rest;
      assert q[0] == t ==> [] + rest == rest;
    }
  }

  /** The next element in the order of some hash table. */
  method Pick<T>(s: set<T>) returns (x: T)
    requires s != {}
    ensures x in s
  {
    x :| x in s;
  }
}
