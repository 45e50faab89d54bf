/**
 * Schoolbook division of polynomials over the two-element field, on lists of coefficients with
 * the highest power first, and the shift register that computes the same remainder bit by bit.
 */
module PolynomialDivision {

  import opened Wrappers

  /** The sum of `s` and of `p`, whose highest power is aligned with that of `s`. */
  function AddAtFront(s: seq<bool>, p: seq<bool>): (r: seq<bool>)
    requires |p| <= |s|
    ensures |r| == |s|
  {
    seq(|s|, i requires 0 <= i < |s| => if i < |p| then s[i] != p[i] else s[i])
  }

  lemma AddedCons(x: bool, s: seq<bool>, y: bool, t: seq<bool>)
    requires |t| <= |s|
    ensures AddAtFront([x] + s, [y] + t) == [x != y] + AddAtFront(s, t)
  {}

  /**
   * The remainder of `dividend` by the polynomial x^|p| + p: while a power of at least |p| is
   * left, subtract the divisor under the leading coefficient if that is one, and drop it.
   */
  function LongDivision(dividend: seq<bool>, p: seq<bool>): (r: seq<bool>)
    ensures |dividend| >= |p| ==> |r| == |p|
    decreases |dividend|
  {
    if |dividend| <= |p| then dividend
    else if dividend[0] then LongDivision(AddAtFront(dividend[1..], p), p)
    else LongDivision(dividend[1..], p)
  }

  /** One bit of the message enters a register that holds |p| bits. */
  function Shift(register: seq<bool>, bit: bool, p: seq<bool>): (r: seq<bool>)
    requires |register| == |p| > 0
    ensures |r| == |p|
  {
    var moved := register[1..] + [false];
    if register[0] != bit then AddAtFront(moved, p) else moved
  }

  function ShiftAll(register: seq<bool>, message: seq<bool>, p: seq<bool>): (r: seq<bool>)
    requires |register| == |p| > 0
    ensures |r| == |p|
    decreases |message|
  {
    if message == [] then register else ShiftAll(Shift(register, message[0], p), message[1..], p)
  }

  lemma ZeroEnters(register: seq<bool>, n: nat, p: seq<bool>)
    requires |register| == |p| > 0 && n > 0
    ensures ShiftAll(register, Zeros(n), p) == ShiftAll(Shift(register, false, p), Zeros(n - 1), p)
  {
    assert Zeros(n)[1..] == Zeros(n - 1);
  }

  /**
   * The register ends with the remainder of the message followed by |p| zeros, the initial
   * register having been added to its highest powers.
   */
  lemma {:induction false} RegisterDivides(register: seq<bool>, message: seq<bool>, p: seq<bool>)
    requires |register| == |p| > 0
    ensures ShiftAll(register, message, p)
         == LongDivision(AddAtFront(message + Zeros(|p|), register), p)
    decreases |message|
  {
    var dividend := AddAtFront(message + Zeros(|p|), register);
    if message == [] {
      assert dividend == register;
    } else {
      var next := Shift(register, message[0], p);
      var rest := AddAtFront(message[1..] + Zeros(|p|), next);
      assert dividend[0] == (register[0] != message[0]);
      if dividend[0] {
        assert AddAtFront(dividend[1..], p) == rest;
      } else {
        assert dividend[1..] == rest;
      }
      RegisterDivides(next, message[1..], p);
    }
  }

  lemma {:induction false} ShiftAllConcat(register: seq<bool>, a: seq<bool>, b: seq<bool>, p: seq<bool>)
    requires |register| == |p| > 0
    ensures ShiftAll(register, a + b, p) == ShiftAll(ShiftAll(register, a, p), b, p)
    decreases |a|
  {
    if a == [] {
      assert a + b == b;
    } else {
      assert (a + b)[1..] == a[1..] + b;
      ShiftAllConcat(Shift(register, a[0], p), a[1..], b, p);
    }
  }

  // ---- Bits that enter while the register moves could have been added beforehand ----

  lemma {:induction false} Absorbed(register: seq<bool>, message: seq<bool>, p: seq<bool>)
    requires |message| <= |register| == |p| && |p| > 0
    ensures ShiftAll(register, message, p)
         == ShiftAll(AddAtFront(register, message), Zeros(|message|), p)
    decreases |message|
  {
    var sum := AddAtFront(register, message);
    if message == [] {
      assert sum == register;
    } else {
      var next := Shift(register, message[0], p);
      assert AddAtFront(next, message[1..]) == Shift(sum, false, p);
      assert Zeros(|message|)[1..] == Zeros(|message| - 1);
      Absorbed(next, message[1..], p);
    }
  }

  lemma PaddedEnters(register: seq<bool>, message: seq<bool>, p: seq<bool>)
    requires |message| <= |register| == |p| && |p| > 0
    ensures ShiftAll(AddAtFront(register, message + Zeros(|p| - |message|)), Zeros(|message|), p)
         == ShiftAll(register, message, p)
  {
    assert AddAtFront(register, message + Zeros(|p| - |message|)) == AddAtFront(register, message);
    Absorbed(register, message, p);
  }

  lemma {:induction false} ZerosAreLinear(a: seq<bool>, b: seq<bool>, n: nat, p: seq<bool>)
    requires |a| == |b| == |p| > 0
    ensures ShiftAll(AddAtFront(a, b), Zeros(n), p)
         == AddAtFront(ShiftAll(a, Zeros(n), p), ShiftAll(b, Zeros(n), p))
    decreases n
  {
    if n > 0 {
      assert Zeros(n)[1..] == Zeros(n - 1);
      var c, d := Shift(a, false, p), Shift(b, false, p);
      assert Shift(AddAtFront(a, b), false, p) == AddAtFront(c, d);
      ZerosAreLinear(c, d, n - 1, p);
    }
  }

  // ---- What a remainder detects, when the divisor's constant coefficient is one ----

  lemma ShiftIsInjective(a: seq<bool>, b: seq<bool>, bit: bool, p: seq<bool>)
    requires |a| == |b| == |p| > 0 && p[|p| - 1]
    requires Shift(a, bit, p) == Shift(b, bit, p)
    ensures a == b
  {
    var c, d := Shift(a, bit, p), Shift(b, bit, p);
    assert c[|p| - 1] == (a[0] != bit) && d[|p| - 1] == (b[0] != bit);
    forall i | 1 <= i < |a| ensures a[i] == b[i] {
      assert c[i - 1] == d[i - 1];
    }
  }

  lemma {:induction false} ShiftAllIsInjective(a: seq<bool>, b: seq<bool>, message: seq<bool>, p: seq<bool>)
    requires |a| == |b| == |p| > 0 && p[|p| - 1]
    ensures ShiftAll(a, message, p) == ShiftAll(b, message, p) <==> a == b
    decreases |message|
  {
    if message != [] {
      ShiftAllIsInjective(Shift(a, message[0], p), Shift(b, message[0], p), message[1..], p);
      if Shift(a, message[0], p) == Shift(b, message[0], p) {
        ShiftIsInjective(a, b, message[0], p);
      }
    }
  }

  lemma AddedIsInjective(r: seq<bool>, s: seq<bool>, t: seq<bool>)
    requires |s| == |t| <= |r| && AddAtFront(r, s) == AddAtFront(r, t)
    ensures s == t
  {
    var a, b := AddAtFront(r, s), AddAtFront(r, t);
    assert forall i :: 0 <= i < |s| ==> s[i] == (r[i] != a[i]) && t[i] == (r[i] != b[i]);
  }

  lemma WindowIsSeen(r: seq<bool>, s: seq<bool>, t: seq<bool>, p: seq<bool>)
    requires |s| == |t| <= |r| == |p| && |p| > 0 && p[|p| - 1]
    requires ShiftAll(r, s, p) == ShiftAll(r, t, p)
    ensures s == t
  {
    Absorbed(r, s, p);
    Absorbed(r, t, p);
    ShiftAllIsInjective(AddAtFront(r, s), AddAtFront(r, t), Zeros(|s|), p);
    AddedIsInjective(r, s, t);
  }

  /**
   * Two messages that differ only inside one window of at most |p| bits have the same remainder
   * only if they are equal.
   */
  lemma BurstsAreDetected(register: seq<bool>, head: seq<bool>, s: seq<bool>, t: seq<bool>,
                          tail: seq<bool>, p: seq<bool>)
    requires |s| == |t| <= |register| == |p| && |p| > 0 && p[|p| - 1]
    ensures ShiftAll(register, head + (s + tail), p) == ShiftAll(register, head + (t + tail), p) <==> s == t
  {
    var r := ShiftAll(register, head, p);
    ShiftAllConcat(register, head, s + tail, p);
    ShiftAllConcat(register, head, t + tail, p);
    ShiftAllConcat(r, s, tail, p);
    ShiftAllConcat(r, t, tail, p);
    ShiftAllIsInjective(ShiftAll(r, s, p), ShiftAll(r, t, p), tail, p);
    if ShiftAll(r, s, p) == ShiftAll(r, t, p) {
      WindowIsSeen(r, s, t, p);
    }
  }
}
