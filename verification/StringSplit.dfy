/** `StringUtil::split` of cocos/base/StringUtil.cpp against the maximal runs without a delimiter. */
module StringSplit {

  /** `size_t` and its largest value, which the searches answer when they find nothing. */
  const TWO_64: nat := 0x1_0000_0000_0000_0000
  const NPOS: nat := TWO_64 - 1
  const TWO_32: nat := 0x1_0000_0000

  /** `n + 1` in a type of `size` values. */
  function Wrapped(n: nat, size: nat): nat {
    if n + 1 == size then 0 else n + 1
  }

  /** The first position from `from` on whose character is, or is not, a delimiter; or the length. */
  function First(s: string, delims: string, from: nat, delimiter: bool): (i: nat)
    ensures from <= |s| ==> from <= i <= |s|
    ensures i < |s| ==> (s[i] in delims) == delimiter
    ensures forall k :: from <= k < i && k < |s| ==> (s[k] in delims) != delimiter
    decreases |s| - from
  {
    if from >= |s| then |s|
    else if (s[from] in delims) == delimiter then from
    else First(s, delims, from + 1, delimiter)
  }

  /** `find_first_of`, or `find_first_not_of`. */
  function Find(s: string, delims: string, from: nat, delimiter: bool): nat {
    var i := First(s, delims, from, delimiter);
    if i == |s| then NPOS else i
  }

  // ---- What splitting means ----

  /** Characters i..j are a run without delimiters that cannot be made longer. */
  predicate MaximalRun(s: string, delims: string, i: nat, j: nat) {
    && i < j <= |s|
    && (forall k :: i <= k < j ==> s[k] !in delims)
    && (i > 0 ==> s[i - 1] in delims)
    && (j < |s| ==> s[j] in delims)
  }

  /** The runs from a position on, from left to right. */
  function Runs(s: string, delims: string, from: nat): seq<(nat, nat)>
    requires from <= |s|
    decreases |s| - from
  {
    var i := First(s, delims, from, false);
    if i == |s| then [] else
      var j := First(s, delims, i, true);
      [(i, j)] + Runs(s, delims, j)
  }

  /** No run begins before and reaches beyond `from`. */
  predicate Between(s: string, delims: string, from: nat) {
    from == 0 || from >= |s| || s[from] in delims || s[from - 1] in delims
  }

  ghost predicate InOrder(runs: seq<(nat, nat)>) {
    forall k, m :: 0 <= k < m < |runs| ==> runs[k].1 < runs[m].0
  }

  lemma OneMoreInOrder(run: (nat, nat), rest: seq<(nat, nat)>)
    requires InOrder(rest) && forall k :: 0 <= k < |rest| ==> run.1 < rest[k].0
    ensures InOrder([run] + rest)
  {
    var all := [run] + rest;
    forall k, m | 0 <= k < m < |all| ensures all[k].1 < all[m].0 {
      assert all[m] == rest[m - 1];
      if k > 0 {
        assert all[k] == rest[k - 1];
      }
    }
  }

  /** The list has every maximal run, no other one, and has them in order. */
  lemma {:induction false} RunsAreMaximal(s: string, delims: string, from: nat)
    requires from <= |s| && Between(s, delims, from)
    ensures forall i: nat, j: nat :: (i, j) in Runs(s, delims, from) <==> MaximalRun(s, delims, i, j) && i >= from
    ensures InOrder(Runs(s, delims, from))
    decreases |s| - from
  {
    var i := First(s, delims, from, false);
    if i < |s| {
      var j := First(s, delims, i, true);
      var rest := Runs(s, delims, j);
      RunsAreMaximal(s, delims, j);
      assert MaximalRun(s, delims, i, j);
      forall a: nat, b: nat | MaximalRun(s, delims, a, b) && a >= from && (a, b) != (i, j)
        ensures (a, b) in rest
      {
        assert s[a] !in delims;
        assert a >= i;
        assert a > i ==> s[a - 1] in delims;
        assert a > i ==> a >= j;
        assert a == i ==> b == j;
      }
      forall k | 0 <= k < |rest| ensures j < rest[k].0 {
        var (a, b) := rest[k];
        assert (a, b) in rest;
        assert MaximalRun(s, delims, a, b) && a >= j;
        assert s[a] !in delims && a != j;
      }
      OneMoreInOrder((i, j), rest);
    } else {
      forall a: nat, b: nat | MaximalRun(s, delims, a, b) ensures a < from {
        assert s[a] !in delims;
      }
    }
  }

  function Pieces(s: string, runs: seq<(nat, nat)>): (r: seq<string>)
    requires forall k :: 0 <= k < |runs| ==> runs[k].0 <= runs[k].1 <= |s|
    ensures |r| == |runs|
  {
    seq(|runs|, k requires 0 <= k < |runs| => s[runs[k].0..runs[k].1])
  }

  lemma RunsAreInside(s: string, delims: string, from: nat)
    requires from <= |s|
    ensures forall k :: 0 <= k < |Runs(s, delims, from)| ==>
      var (i, j) := Runs(s, delims, from)[k]; from <= i < j <= |s|
    decreases |s| - from
  {
    var i := First(s, delims, from, false);
    if i < |s| {
      RunsAreInside(s, delims, First(s, delims, i, true));
    }
  }

  /** A delimiter at the very beginning counts as a split, although no piece comes of it. */
  function Limit(s: string, delims: string, maxSplits: nat): nat {
    if maxSplits > 0 && s != "" && s[0] in delims then maxSplits - 1 else maxSplits
  }

  /** All runs, or as many as the limit allows and then the rest of the string from the next one on. */
  function SplitInto(s: string, delims: string, maxSplits: nat): seq<string> {
    RunsAreInside(s, delims, 0);
    var runs := Runs(s, delims, 0);
    var limit := Limit(s, delims, maxSplits);
    if maxSplits == 0 || |runs| <= limit then Pieces(s, runs)
    else Pieces(s, runs[..limit]) + [s[runs[limit].0..]]
  }

  /** Without a limit the pieces are exactly the maximal runs, from left to right. */
  lemma NoLimitGivesAllRuns(s: string, delims: string)
    ensures var runs := Runs(s, delims, 0);
      && InOrder(runs)
      && (forall i: nat, j: nat :: (i, j) in runs <==> MaximalRun(s, delims, i, j))
      && |SplitInto(s, delims, 0)| == |runs|
      && (forall k :: 0 <= k < |runs| ==>
            runs[k].0 <= runs[k].1 <= |s| && SplitInto(s, delims, 0)[k] == s[runs[k].0..runs[k].1])
  {
    RunsAreMaximal(s, delims, 0);
    RunsAreInside(s, delims, 0);
  }

  /**
   * With a limit there is at most one piece more, one less than that if the string begins with a
   * delimiter; all are the pieces without a limit, but a last one that stands for the others runs on
   * to the end of the string.
   */
  lemma LimitedPieces(s: string, delims: string, maxSplits: nat)
    requires maxSplits > 0
    ensures var few, all := SplitInto(s, delims, maxSplits), SplitInto(s, delims, 0);
      var limit := Limit(s, delims, maxSplits);
      && |few| <= limit + 1 <= maxSplits + 1
      && (|all| <= limit ==> few == all)
      && (|all| > limit ==>
            && |few| == limit + 1 && few[..limit] == all[..limit] && all[limit] <= few[limit]
            && |few[limit]| <= |s| && few[limit] == s[|s| - |few[limit]|..])
  {
    RunsAreInside(s, delims, 0);
  }

  // ---- The loop ----

  /** Where the loop stands before a round: at the next run, or beyond the last one. */
  ghost predicate AtRun(s: string, delims: string, start: nat, rest: seq<(nat, nat)>) {
    if rest == [] then start == NPOS
    else start == rest[0].0 < |s| && Runs(s, delims, start) == rest
  }

  /** The runs from a position on are those from the first character that is no delimiter. */
  lemma RunsFromFirst(s: string, delims: string, from: nat)
    requires from <= |s| && |s| < NPOS
    ensures AtRun(s, delims, Find(s, delims, from, false), Runs(s, delims, from))
  {
    var i := First(s, delims, from, false);
    if i < |s| {
      assert First(s, delims, i, false) == i;
    }
  }

  lemma NextRun(s: string, delims: string, start: nat)
    requires start < |s| && s[start] !in delims && |s| < NPOS
    ensures var j := First(s, delims, start, true);
      && start < j <= |s|
      && Runs(s, delims, start)[0] == (start, j)
      && (j < |s| ==> AtRun(s, delims, Find(s, delims, j + 1, false), Runs(s, delims, start)[1..]))
      && (j == |s| ==> Runs(s, delims, start) == [(start, j)])
  {
    var j := First(s, delims, start, true);
    assert First(s, delims, start, false) == start;
    if j < |s| {
      assert First(s, delims, j, false) == First(s, delims, j + 1, false);
      RunsFromFirst(s, delims, j);
    }
  }

  lemma PiecesMore(s: string, runs: seq<(nat, nat)>, n: nat)
    requires n < |runs| && forall k :: 0 <= k < |runs| ==> runs[k].0 <= runs[k].1 <= |s|
    ensures Pieces(s, runs[..n + 1]) == Pieces(s, runs[..n]) + [s[runs[n].0..runs[n].1]]
  {}

  /** The rest of the string is the last piece: because no delimiter follows, or for the limit. */
  lemma RestIsLast(s: string, delims: string, maxSplits: nat, n: nat, start: nat)
    requires |s| < NPOS && start < |s| && s[start] !in delims
    requires n < |Runs(s, delims, 0)| && Runs(s, delims, start) == Runs(s, delims, 0)[n..]
    requires maxSplits > 0 ==> n <= Limit(s, delims, maxSplits)
    requires First(s, delims, start, true) == |s| || (maxSplits > 0 && n == Limit(s, delims, maxSplits))
    ensures forall k :: 0 <= k < |Runs(s, delims, 0)| ==> Runs(s, delims, 0)[k].0 <= Runs(s, delims, 0)[k].1 <= |s|
    ensures SplitInto(s, delims, maxSplits) == Pieces(s, Runs(s, delims, 0)[..n]) + [s[start..]]
  {
    var runs := Runs(s, delims, 0);
    NextRun(s, delims, start);
    RunsAreInside(s, delims, 0);
    assert runs[n..][0] == runs[n];
    if First(s, delims, start, true) == |s| {
      PiecesMore(s, runs, n);
      assert runs[..n + 1] == runs && s[start..|s|] == s[start..];
    }
  }

  lemma AllRunsFit(s: string, delims: string, maxSplits: nat)
    requires maxSplits > 0 ==> |Runs(s, delims, 0)| <= Limit(s, delims, maxSplits)
    ensures forall k :: 0 <= k < |Runs(s, delims, 0)| ==> Runs(s, delims, 0)[k].0 <= Runs(s, delims, 0)[k].1 <= |s|
    ensures SplitInto(s, delims, maxSplits) == Pieces(s, Runs(s, delims, 0))
  {
    RunsAreInside(s, delims, 0);
  }

  /** The pieces so far are the first `n` runs, and the counter has counted a leading delimiter, too. */
  ghost predicate Reached(s: string, delims: string, maxSplits: nat, first: bool, start: nat, numSplits: nat,
                          n: nat, strs: seq<string>)
  {
    RunsAreInside(s, delims, 0);
    var runs := Runs(s, delims, 0);
    && n <= |runs| && strs == Pieces(s, runs[..n])
    && (maxSplits > 0 ==> n <= Limit(s, delims, maxSplits))
    && (first ==> start == 0 && n == 0 && numSplits == 0)
    && (!first ==> AtRun(s, delims, start, runs[n..]))
    && (!first && maxSplits > 0 ==> maxSplits - numSplits == Limit(s, delims, maxSplits) - n)
    && numSplits < TWO_32
  }

  /** A round that finds a delimiter where it starts comes of a leading one, or is the last. */
  lemma EmptyRound(s: string, delims: string, maxSplits: nat, first: bool, start: nat, numSplits: nat,
                   n: nat, strs: seq<string>)
    requires s != "" && |s| < NPOS && maxSplits < TWO_32
    requires Reached(s, delims, maxSplits, first, start, numSplits, n, strs)
    requires Find(s, delims, start, true) == start
    ensures start == NPOS ==> strs == SplitInto(s, delims, maxSplits)
    ensures start != NPOS ==> first && numSplits == 0
    ensures start != NPOS ==>
      Reached(s, delims, maxSplits, false, Find(s, delims, start + 1, false), 1, n, strs)
  {
    var runs := Runs(s, delims, 0);
    if start == NPOS {
      assert !first && runs[n..] == [] && runs[..n] == runs;
      AllRunsFit(s, delims, maxSplits);
    } else {
      assert First(s, delims, 1, false) == First(s, delims, 0, false);
      RunsFromFirst(s, delims, 0);
      assert runs[0..] == runs;
    }
  }

  /** A round that finds something ends the loop, or comes to the next run. */
  lemma LastRound(s: string, delims: string, maxSplits: nat, first: bool, start: nat, numSplits: nat,
                  n: nat, strs: seq<string>)
    requires s != "" && |s| < NPOS && maxSplits < TWO_32
    requires Reached(s, delims, maxSplits, first, start, numSplits, n, strs)
    requires Find(s, delims, start, true) != start
    requires Find(s, delims, start, true) == NPOS || (maxSplits > 0 && numSplits == maxSplits)
    ensures start < |s| && strs + [s[start..]] == SplitInto(s, delims, maxSplits)
  {
    assert Runs(s, delims, 0)[n..] == Runs(s, delims, start);
    NextRun(s, delims, start);
    RestIsLast(s, delims, maxSplits, n, start);
  }

  /** The run that starts at `start` is the next one, and the one behind it comes then. */
  lemma RunTaken(s: string, delims: string, start: nat, n: nat)
    requires |s| < NPOS && start < |s| && s[start] !in delims && First(s, delims, start, true) < |s|
    requires n <= |Runs(s, delims, 0)| && Runs(s, delims, 0)[n..] == Runs(s, delims, start)
    ensures var runs, pos := Runs(s, delims, 0), First(s, delims, start, true);
      && n < |runs| && runs[n] == (start, pos)
      && AtRun(s, delims, Find(s, delims, pos + 1, false), runs[n + 1..])
  {
    var runs := Runs(s, delims, 0);
    NextRun(s, delims, start);
    assert runs[n..][0] == runs[n] && runs[n..][1..] == runs[n + 1..];
  }

  lemma FullRound(s: string, delims: string, maxSplits: nat, first: bool, start: nat, numSplits: nat,
                  n: nat, strs: seq<string>)
    requires s != "" && |s| < NPOS && maxSplits < TWO_32
    requires Reached(s, delims, maxSplits, first, start, numSplits, n, strs)
    requires Find(s, delims, start, true) != start
    requires Find(s, delims, start, true) != NPOS && !(maxSplits > 0 && numSplits == maxSplits)
    ensures var pos := Find(s, delims, start, true);
      && start <= pos < |s| && n < |Runs(s, delims, 0)|
      && Reached(s, delims, maxSplits, false, Find(s, delims, pos + 1, false),
                 Wrapped(numSplits, TWO_32), n + 1, strs + [s[start..pos]])
  {
    var runs := Runs(s, delims, 0);
    assert runs[n..] == Runs(s, delims, start);
    RunTaken(s, delims, start, n);
    RunsAreInside(s, delims, 0);
    PiecesMore(s, runs, n);
  }

  method Split(s: string, delims: string, maxSplits: nat) returns (strs: seq<string>)
    requires |s| < NPOS && maxSplits < TWO_32
    ensures strs == SplitInto(s, delims, maxSplits)
  {
    strs := [];
    if s == "" {
      return;
    }
    ghost var first, n: nat := true, 0;
    var numSplits: nat, start: nat, pos: nat, going := 0, 0, 0, true;
    while going
      invariant going ==> Reached(s, delims, maxSplits, first, start, numSplits, n, strs)
      invariant !going ==> strs == SplitInto(s, delims, maxSplits)
      decreases going, first, |Runs(s, delims, 0)| - n
    {
      pos := Find(s, delims, start, true);
      if pos == start {
        EmptyRound(s, delims, maxSplits, first, start, numSplits, n, strs);
        start := Wrapped(pos, TWO_64);      // from `npos` this comes to 0
      } else {
        if pos == NPOS || (maxSplits > 0 && numSplits == maxSplits) {
          LastRound(s, delims, maxSplits, first, start, numSplits, n, strs);
          strs := strs + [s[start..]];
          break;
        }
        FullRound(s, delims, maxSplits, first, start, numSplits, n, strs);
        strs := strs + [s[start..pos]];
        start := Wrapped(pos, TWO_64);
        n := n + 1;
      }
      start := Find(s, delims, start, false);
      numSplits := Wrapped(numSplits, TWO_32);
      first := false;
      going := pos != NPOS;
    }
  }
}
