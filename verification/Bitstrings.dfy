/** Numbers of a fixed width as strings of bits, highest bit first, and back. */
module Bitstrings {

  function Power(w: nat): (p: nat)
    ensures p > 0
  {
    if w == 0 then 1 else 2 * Power(w - 1)
  }

  /** The lowest `w` bits of `n`. */
  function Bits(n: nat, w: nat): (r: seq<bool>)
    ensures |r| == w
  {
    if w == 0 then [] else Bits(n / 2, w - 1) + [n % 2 == 1]
  }

  function Number(bits: seq<bool>): (n: nat)
    ensures n < Power(|bits|)
  {
    if bits == [] then 0
    else 2 * Number(bits[..|bits| - 1]) + (if bits[|bits| - 1] then 1 else 0)
  }

  function AllBits(s: seq<nat>, w: nat): seq<bool> {
    if s == [] then [] else AllBits(s[..|s| - 1], w) + Bits(s[|s| - 1], w)
  }

  /** The numbers of width `w` that `bits` holds one after another; what does not fill one is dropped. */
  function Regroup(bits: seq<bool>, w: nat): (r: seq<nat>)
    requires w > 0
    ensures forall k :: 0 <= k < |r| ==> r[k] < Power(w)
    decreases |bits|
  {
    if |bits| < w then []
    else [Number(bits[..w])] + Regroup(bits[w..], w)
  }

  function Rest(bits: seq<bool>, w: nat): (r: seq<bool>)
    requires w > 0
    ensures |r| < w
    decreases |bits|
  {
    if |bits| < w then bits else Rest(bits[w..], w)
  }

  /** `n` is a multiple of `w`. */
  predicate Fills(n: nat, w: nat)
    requires w > 0
  {
    n == 0 || (n >= w && Fills(n - w, w))
  }

  lemma {:induction false} NumberOfBits(n: nat, w: nat)
    requires n < Power(w)
    ensures Number(Bits(n, w)) == n
  {
    if w > 0 {
      NumberOfBits(n / 2, w - 1);
      assert Bits(n, w)[..w - 1] == Bits(n / 2, w - 1);
    }
  }

  lemma {:induction false} BitsOfNumber(bits: seq<bool>)
    ensures Bits(Number(bits), |bits|) == bits
  {
    if bits != [] {
      BitsOfNumber(bits[..|bits| - 1]);
    }
  }

  lemma JoinThree<T>(a: seq<T>, b: seq<T>, c: seq<T>)
    ensures a + b + c == a + (b + c)
  {}

  lemma Halves(k: nat, n: nat)
    ensures (2 * k + n) / 2 == k + n / 2 && (2 * k + n) % 2 == n % 2
  {}

  lemma BitsOfDouble(k: nat, n: nat, w: nat)
    ensures Bits(2 * k + n, w + 1) == Bits(k + n / 2, w) + [n % 2 == 1]
  {
    Halves(k, n);
  }

  lemma Doubles(m: nat, q: nat)
    ensures m * (2 * q) == 2 * (m * q)
  {}

  lemma {:induction false} BitsConcat(m: nat, n: nat, v: nat, w: nat, p: nat)
    requires n < p == Power(w)
    ensures Bits(m * p + n, v + w) == Bits(m, v) + Bits(n, w)
  {
    if w == 0 {
      assert Bits(n, 0) == [] && Bits(m, v) + [] == Bits(m, v);
    } else {
      var q, last := Power(w - 1), [n % 2 == 1];
      Doubles(m, q);
      BitsOfDouble(m * q, n, v + w - 1);
      BitsConcat(m, n / 2, v, w - 1, q);
      JoinThree(Bits(m, v), Bits(n / 2, w - 1), last);
    }
  }

  lemma {:induction false} AllBitsConcat(s: seq<nat>, t: seq<nat>, w: nat)
    ensures AllBits(s + t, w) == AllBits(s, w) + AllBits(t, w)
  {
    if t == [] {
      assert s + t == s;
    } else {
      var u, last := t[..|t| - 1], t[|t| - 1];
      assert (s + t)[..|s + t| - 1] == s + u && (s + t)[|s + t| - 1] == last;
      AllBitsConcat(s, u, w);
      JoinThree(AllBits(s, w), AllBits(u, w), Bits(last, w));
    }
  }

  lemma {:induction false} RegroupConcat(a: seq<bool>, b: seq<bool>, w: nat)
    requires w > 0 && Fills(|a|, w)
    ensures Regroup(a + b, w) == Regroup(a, w) + Regroup(b, w)
    decreases |a|
  {
    if a == [] {
      assert a + b == b;
    } else {
      assert (a + b)[..w] == a[..w] && (a + b)[w..] == a[w..] + b;
      RegroupConcat(a[w..], b, w);
    }
  }

  lemma AllBitsCons(x: nat, t: seq<nat>, w: nat)
    ensures AllBits([x] + t, w) == Bits(x, w) + AllBits(t, w)
  {
    AllBitsConcat([x], t, w);
    assert [x][..0] == [] && AllBits([], w) == [];
    assert AllBits([x], w) == [] + Bits(x, w);
  }

  lemma RegroupCons(first: seq<bool>, others: seq<bool>, w: nat)
    requires |first| == w > 0
    ensures Regroup(first + others, w) == [Number(first)] + Regroup(others, w)
    ensures Rest(first + others, w) == Rest(others, w)
  {
    var all := first + others;
    assert all[..w] == first && all[w..] == others;
  }

  /** Numbers that fit their width come back, whatever incomplete rest follows them. */
  lemma {:induction false} RegroupAllBits(s: seq<nat>, w: nat, rest: seq<bool>)
    requires w > 0 && |rest| < w
    requires forall k :: 0 <= k < |s| ==> s[k] < Power(w)
    ensures Regroup(AllBits(s, w) + rest, w) == s
  {
    if s == [] {
      assert AllBits(s, w) + rest == rest;
    } else {
      var x, t := s[0], s[1..];
      assert s == [x] + t;
      AllBitsCons(x, t, w);
      NumberOfBits(x, w);
      RegroupAllBits(t, w, rest);
      RegroupCons(Bits(x, w), AllBits(t, w) + rest, w);
      JoinThree(Bits(x, w), AllBits(t, w), rest);
    }
  }

  /** Regrouping loses nothing but the incomplete rest. */
  lemma {:induction false} AllBitsRegroup(bits: seq<bool>, w: nat)
    requires w > 0
    ensures AllBits(Regroup(bits, w), w) + Rest(bits, w) == bits
    decreases |bits|
  {
    if |bits| < w {
      assert AllBits([], w) + bits == bits;
    } else {
      var first, others := bits[..w], bits[w..];
      assert bits == first + others;
      RegroupCons(first, others, w);
      AllBitsRegroup(others, w);
      BitsOfNumber(first);
      AllBitsCons(Number(first), Regroup(others, w), w);
      JoinThree(first, AllBits(Regroup(others, w), w), Rest(others, w));
    }
  }

  // ---- Lengths ----

  lemma {:induction false} AllBitsLength(s: seq<nat>, w: nat)
    ensures |AllBits(s, w)| == |s| * w
  {
    if s != [] {
      AllBitsLength(s[..|s| - 1], w);
      assert (|s| - 1) * w + w == |s| * w;
    }
  }

  lemma {:induction false} MultiplesFill(k: nat, w: nat)
    requires w > 0
    ensures k * w >= 0 && Fills(k * w, w)
  {
    if k > 0 {
      MultiplesFill(k - 1, w);
      assert k * w - w == (k - 1) * w;
    }
  }

  lemma {:induction false} FilledHasNoRest(bits: seq<bool>, w: nat)
    requires w > 0 && Fills(|bits|, w)
    ensures Rest(bits, w) == []
    decreases |bits|
  {
    if bits != [] {
      FilledHasNoRest(bits[w..], w);
    }
  }

  lemma {:induction false} RegroupLength(bits: seq<bool>, w: nat)
    requires w > 0
    ensures |Regroup(bits, w)| * w + |Rest(bits, w)| == |bits|
    decreases |bits|
  {
    if |bits| >= w {
      RegroupLength(bits[w..], w);
      assert |Regroup(bits, w)| * w == |Regroup(bits[w..], w)| * w + w;
    }
  }
}
