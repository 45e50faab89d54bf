/** The update pass of cocos/editor-support/MiddlewareManager.cpp, whose callbacks add and remove editors. */
module Middleware {

  import opened Wrappers

  /** The address of an editor. */
  type Editor = nat

  /** What a callback may do. */
  datatype Op = Add(editor: Editor) | Remove(editor: Editor) | SetOrder(editor: Editor, order: nat)

  /** The lists of the manager, and the render orders of the editors. */
  datatype Lists = Lists(update: seq<Editor>, remove: seq<Editor>, orders: map<Editor, nat>)

  function OrderOf(orders: map<Editor, nat>, e: Editor): nat {
    if e in orders then orders[e] else 0
  }

  ghost predicate Distinct(s: seq<Editor>) {
    forall i, j :: 0 <= i < j < |s| ==> s[i] != s[j]
  }

  function IndexIn(s: seq<Editor>, e: Editor): (i: nat)
    ensures i <= |s| && e !in s[..i]
    ensures i < |s| ==> s[i] == e
    ensures i == |s| <==> e !in s
  {
    if s == [] then 0 else if s[0] == e then 0 else 1 + IndexIn(s[1..], e)
  }

  /** The first occurrence erased, if there is one. */
  function Erased(s: seq<Editor>, e: Editor): seq<Editor> {
    if IndexIn(s, e) == |s| then s else Without(s, IndexIn(s, e))
  }

  // ---- A pass over values ----

  /** An operation while the lists are being walked: a removal only waits. */
  function After(l: Lists, op: Op): Lists {
    match op
    case Add(e) => if e in l.update then l else l.(remove := Erased(l.remove, e), update := l.update + [e])
    case Remove(e) => l.(remove := l.remove + [e])
    case SetOrder(e, n) => l.(orders := l.orders[e := n])
  }

  function AfterAll(l: Lists, ops: seq<Op>): Lists
    decreases |ops|
  {
    if ops == [] then l else AfterAll(After(l, ops[0]), ops[1..])
  }

  /** The lists when the turn comes to position `i`; the i-th callback does `acts(i)`. */
  function At(l: Lists, acts: nat -> seq<Op>, i: nat): Lists
    requires i <= |l.update|
  {
    if i == 0 then l
    else
      var before := At(l, acts, i - 1);
      if l.update[i - 1] in before.remove then before else AfterAll(before, acts(i - 1))
  }

  /** Whether the editor at position `i` is updated. */
  predicate HasTurn(l: Lists, acts: nat -> seq<Op>, i: nat)
    requires i < |l.update|
  {
    l.update[i] !in At(l, acts, i).remove
  }

  function UpdatedBefore(l: Lists, acts: nat -> seq<Op>, i: nat): seq<Editor>
    requires i <= |l.update|
  {
    if i == 0 then []
    else UpdatedBefore(l, acts, i - 1) + if HasTurn(l, acts, i - 1) then [l.update[i - 1]] else []
  }

  /** The render order that the editor at position `i` shows when it has been updated. */
  function OrderSeen(l: Lists, acts: nat -> seq<Op>, i: nat): nat
    requires i < |l.update|
  {
    OrderOf(At(l, acts, i + 1).orders, l.update[i])
  }

  /** Some editor shows a smaller order than one updated before it. */
  ghost predicate OutOfOrder(l: Lists, acts: nat -> seq<Op>, i: nat)
    requires i <= |l.update|
  {
    exists j, k :: 0 <= j < k < i && HasTurn(l, acts, j) && HasTurn(l, acts, k)
      && OrderSeen(l, acts, j) > OrderSeen(l, acts, k)
  }

  function Cleared(update: seq<Editor>, remove: seq<Editor>): seq<Editor>
    decreases |remove|
  {
    if remove == [] then update else Cleared(Erased(update, remove[0]), remove[1..])
  }

  ghost predicate Sorted(s: seq<Editor>, orders: map<Editor, nat>) {
    forall i, j :: 0 <= i < j < |s| ==> OrderOf(orders, s[i]) <= OrderOf(orders, s[j])
  }

  ghost predicate Permutes(s: seq<Editor>, t: seq<Editor>) {
    forall e: Editor :: Times(s, e) == Times(t, e)
  }

  // ---- What a pass keeps ----

  /** The walked list only grows, and stays free of duplicates; what waits for removal keeps waiting. */
  ghost predicate Grows(l: Lists, m: Lists) {
    && l.update <= m.update
    && (Distinct(l.update) ==> Distinct(m.update))
    && (forall e: Editor :: e in l.update && e in l.remove ==> e in m.remove)
  }

  lemma AfterGrows(l: Lists, op: Op)
    ensures Grows(l, After(l, op))
  {
    if op.Add? && op.editor !in l.update {
      var i := IndexIn(l.remove, op.editor);
      forall e: Editor | e in l.update && e in l.remove ensures e in After(l, op).remove {
        var k :| 0 <= k < |l.remove| && l.remove[k] == e;
        if i < |l.remove| {
          assert Without(l.remove, i)[if k < i then k else k - 1] == e;
        }
      }
    }
  }

  lemma {:induction false} AfterAllGrows(l: Lists, ops: seq<Op>)
    ensures Grows(l, AfterAll(l, ops))
    decreases |ops|
  {
    if ops != [] {
      AfterGrows(l, ops[0]);
      AfterAllGrows(After(l, ops[0]), ops[1..]);
    }
  }

  lemma {:induction false} AtGrows(l: Lists, acts: nat -> seq<Op>, i: nat, j: nat)
    requires i <= j <= |l.update|
    ensures Grows(At(l, acts, i), At(l, acts, j))
    decreases j
  {
    if i < j {
      AtGrows(l, acts, i, j - 1);
      AfterAllGrows(At(l, acts, j - 1), acts(j - 1));
    }
  }

  ghost predicate HadTurn(l: Lists, acts: nat -> seq<Op>, i: nat, e: Editor)
    requires i <= |l.update|
  {
    exists k :: 0 <= k < i && l.update[k] == e && HasTurn(l, acts, k)
  }

  /**
   * Of the editors listed when the pass begins, each that does not wait for its removal at its turn
   * is updated once, and no other editor is.
   */
  lemma {:induction false} UpdatedOnce(l: Lists, acts: nat -> seq<Op>, i: nat, e: Editor)
    requires Distinct(l.update) && i <= |l.update|
    ensures Times(UpdatedBefore(l, acts, i), e) == if HadTurn(l, acts, i, e) then 1 else 0
  {
    if i > 0 {
      var before, x := UpdatedBefore(l, acts, i - 1), l.update[i - 1];
      UpdatedOnce(l, acts, i - 1, e);
      TimesAppend(before, x, e);
      assert before + [] == before;
      if HasTurn(l, acts, i - 1) && x == e {
        assert HadTurn(l, acts, i, e);
        assert !HadTurn(l, acts, i - 1, e);
      }
    }
  }

  // ---- The removal at the end ----

  lemma ErasedMembers(s: seq<Editor>, x: Editor, e: Editor)
    requires Distinct(s)
    ensures Distinct(Erased(s, x)) && (e in Erased(s, x) <==> e in s && e != x)
  {
    var i := IndexIn(s, x);
    if i < |s| {
      var r := Without(s, i);
      assert forall k :: 0 <= k < |r| ==> r[k] == if k < i then s[k] else s[k + 1];
      if e in s && e != x {
        var k :| 0 <= k < |s| && s[k] == e;
        assert r[if k < i then k else k - 1] == e;
      }
    }
  }

  /** `r` is `s` without the first `e`, the rest in its order; `s` itself, if there is none. */
  ghost predicate ErasedFrom(s: seq<Editor>, e: Editor, r: seq<Editor>) {
    && (e !in s ==> r == s)
    && (e in s ==> exists i :: 0 <= i < |s| && s[i] == e && e !in s[..i] && s[..i] + s[i + 1..] == r)
  }

  lemma ErasedIsErased(s: seq<Editor>, e: Editor)
    ensures ErasedFrom(s, e, Erased(s, e))
  {
    var i := IndexIn(s, e);
    if i < |s| {
      assert s[..i] + s[i + 1..] == Erased(s, e);
    }
  }

  /** One more removal of `e` waits, and nothing else has changed. */
  ghost predicate WaitsOnceMore(l: Lists, m: Lists, e: Editor) {
    && m.update == l.update && m.orders == l.orders && e in m.remove
    && forall x: Editor :: Times(m.remove, x) == Times(l.remove, x) + if x == e then 1 else 0
  }

  lemma OneMoreWaits(l: Lists, e: Editor)
    ensures WaitsOnceMore(l, l.(remove := l.remove + [e]), e)
  {
    forall x: Editor ensures Times(l.remove + [e], x) == Times(l.remove, x) + if x == e then 1 else 0 {
      TimesAppend(l.remove, e, x);
    }
    assert (l.remove + [e])[|l.remove|] == e;
  }

  /** What waits is gone, and nothing else is. */
  lemma {:induction false} ClearedMembers(update: seq<Editor>, remove: seq<Editor>, e: Editor)
    requires Distinct(update)
    ensures Distinct(Cleared(update, remove))
    ensures e in Cleared(update, remove) <==> e in update && e !in remove
    decreases |remove|
  {
    if remove != [] {
      ErasedMembers(update, remove[0], e);
      ClearedMembers(Erased(update, remove[0]), remove[1..], e);
    }
  }

  /** The removal keeps the order of the rest. */
  lemma {:induction false} ClearedSorted(update: seq<Editor>, remove: seq<Editor>, orders: map<Editor, nat>)
    requires Distinct(update)
    requires forall i, j :: 0 <= i < j < |update| && update[i] !in remove && update[j] !in remove ==>
      OrderOf(orders, update[i]) <= OrderOf(orders, update[j])
    ensures Sorted(Cleared(update, remove), orders)
    decreases |remove|
  {
    if remove != [] {
      var x, rest := remove[0], remove[1..];
      var fewer := Erased(update, x);
      ErasedMembers(update, x, x);
      var k := IndexIn(update, x);
      assert k < |update| ==> forall i :: 0 <= i < |fewer| ==> fewer[i] == update[if i < k then i else i + 1];
      forall i, j | 0 <= i < j < |fewer| && fewer[i] !in rest && fewer[j] !in rest
        ensures OrderOf(orders, fewer[i]) <= OrderOf(orders, fewer[j])
      {
        ErasedMembers(update, x, fewer[i]);
        ErasedMembers(update, x, fewer[j]);
        assert fewer[i] in fewer && fewer[j] in fewer;
        assert fewer[i] !in remove && fewer[j] !in remove;
      }
      ClearedSorted(fewer, rest, orders);
    }
  }

  /** An editor that is still listed at the end has had its turn. */
  lemma LeftHadTurn(l: Lists, acts: nat -> seq<Op>, i: nat)
    requires i < |l.update| && l.update[i] !in At(l, acts, |l.update|).remove
    ensures HasTurn(l, acts, i)
  {
    AtGrows(l, acts, 0, i);
    AtGrows(l, acts, i, |l.update|);
    assert l.update[i] == At(l, acts, i).update[i];
  }

  /**
   * The pass as a whole. The list stays free of duplicates; what is listed or has been added, and does
   * not wait for its removal at the end, is left, and nothing else; and whatever was listed from the
   * beginning and is left has been updated, once.
   */
  lemma DeferredRemovalPass(l: Lists, acts: nat -> seq<Op>, e: Editor)
    requires Distinct(l.update)
    ensures var end := At(l, acts, |l.update|); var left := Cleared(end.update, end.remove);
      && Distinct(left) && (e in left <==> e in end.update && e !in end.remove)
      && Times(UpdatedBefore(l, acts, |l.update|), e) == (if HadTurn(l, acts, |l.update|, e) then 1 else 0)
      && (e in l.update && e in left ==> HadTurn(l, acts, |l.update|, e))
  {
    var end := At(l, acts, |l.update|);
    AtGrows(l, acts, 0, |l.update|);
    ClearedMembers(end.update, end.remove, e);
    UpdatedOnce(l, acts, |l.update|, e);
    if e in l.update && e in Cleared(end.update, end.remove) {
      var k :| 0 <= k < |l.update| && l.update[k] == e;
      LeftHadTurn(l, acts, k);
    }
  }

  // ---- Adding again ----

  /** The calls are not about `e`; its order may be set. */
  ghost predicate NotAbout(ops: seq<Op>, e: Editor) {
    forall k :: 0 <= k < |ops| ==> ops[k].SetOrder? || ops[k].editor != e
  }

  /** The same editor listed or not, and as many removals of it waiting. */
  ghost predicate SameFor(l: Lists, m: Lists, e: Editor) {
    (e in l.update <==> e in m.update) && Times(l.remove, e) == Times(m.remove, e)
  }

  lemma TimesErased(s: seq<Editor>, x: Editor, e: Editor)
    ensures Times(Erased(s, x), e) == Times(s, e) - (if x == e && e in s then 1 else 0)
  {
    if IndexIn(s, x) < |s| {
      TimesAt(s, IndexIn(s, x), e);
    }
  }

  lemma {:induction false} NotAboutKeeps(l: Lists, ops: seq<Op>, e: Editor)
    requires NotAbout(ops, e)
    ensures SameFor(l, AfterAll(l, ops), e)
    decreases |ops|
  {
    if ops != [] {
      if ops[0].Add? {
        TimesErased(l.remove, ops[0].editor, e);
      } else if ops[0].Remove? {
        TimesAppend(l.remove, ops[0].editor, e);
      }
      assert forall k :: 0 <= k < |ops[1..]| ==> ops[1..][k] == ops[k + 1];
      NotAboutKeeps(After(l, ops[0]), ops[1..], e);
    }
  }

  lemma {:induction false} AtKeepsFor(l: Lists, acts: nat -> seq<Op>, i: nat, j: nat, e: Editor)
    requires i <= j <= |l.update| && (forall k :: i <= k < j && HasTurn(l, acts, k) ==> NotAbout(acts(k), e))
    ensures SameFor(At(l, acts, i), At(l, acts, j), e)
    decreases j
  {
    if i < j {
      AtKeepsFor(l, acts, i, j - 1, e);
      if HasTurn(l, acts, j - 1) {
        NotAboutKeeps(At(l, acts, j - 1), acts(j - 1), e);
      }
    }
  }

  lemma {:induction false} AfterAllConcat(l: Lists, ops: seq<Op>, more: seq<Op>)
    ensures AfterAll(l, ops + more) == AfterAll(AfterAll(l, ops), more)
    decreases |ops|
  {
    if ops == [] {
      assert ops + more == more;
    } else {
      assert (ops + more)[1..] == ops[1..] + more;
      AfterAllConcat(After(l, ops[0]), ops[1..], more);
    }
  }

  /** The last call of the pass about its editor is `op`, after the calls `pre` in the turn at position `i`. */
  ghost predicate LastCall(l: Lists, acts: nat -> seq<Op>, i: nat, pre: seq<Op>, op: Op) {
    && i < |l.update| && HasTurn(l, acts, i)
    && |pre| < |acts(i)| && acts(i)[..|pre|] == pre && acts(i)[|pre|] == op
    && NotAbout(acts(i)[|pre| + 1..], op.editor)
    && forall k :: i < k < |l.update| && HasTurn(l, acts, k) ==> NotAbout(acts(k), op.editor)
  }

  /** `addTimer` makes up for what waits: nothing, if the editor is listed, else one removal. */
  predicate AddingHelps(l: Lists, e: Editor) {
    if e in l.update then e !in l.remove else Times(l.remove, e) <= 1
  }

  lemma AddedMembers(l: Lists, e: Editor)
    ensures var m := After(l, Add(e)); e in m.update && (e !in m.remove <==> AddingHelps(l, e))
  {
    var m := After(l, Add(e));
    TimesErased(l.remove, e, e);
    TimesPositive(l.remove, e);
    TimesPositive(m.remove, e);
    if e !in l.update {
      assert m.update[|l.update|] == e;
    }
  }

  lemma LastCallStays(l: Lists, acts: nat -> seq<Op>, i: nat, pre: seq<Op>, op: Op, j: nat)
    requires LastCall(l, acts, i, pre, op) && i < j <= |l.update|
    ensures SameFor(After(AfterAll(At(l, acts, i), pre), op), At(l, acts, j), op.editor)
  {
    var called, post := After(AfterAll(At(l, acts, i), pre), op), acts(i)[|pre| + 1..];
    assert acts(i) == pre + ([op] + post);
    AfterAllConcat(At(l, acts, i), pre, [op] + post);
    assert ([op] + post)[1..] == post;
    NotAboutKeeps(called, post, op.editor);
    AtKeepsFor(l, acts, i + 1, j, op.editor);
  }

  /** An editor that is added last survives the pass exactly if the adding makes up for what waits by then. */
  lemma AddedLastSurvivesIff(l: Lists, acts: nat -> seq<Op>, i: nat, pre: seq<Op>, e: Editor)
    requires Distinct(l.update) && LastCall(l, acts, i, pre, Add(e))
    ensures e in At(l, acts, |l.update|).update
    ensures var end := At(l, acts, |l.update|);
      e in Cleared(end.update, end.remove) <==> AddingHelps(AfterAll(At(l, acts, i), pre), e)
  {
    var end, before := At(l, acts, |l.update|), AfterAll(At(l, acts, i), pre);
    AddedMembers(before, e);
    LastCallStays(l, acts, i, pre, Add(e), |l.update|);
    TimesPositive(After(before, Add(e)).remove, e);
    TimesPositive(end.remove, e);
    AtGrows(l, acts, 0, |l.update|);
    ClearedMembers(end.update, end.remove, e);
  }

  /**
   * An editor that is removed last is gone after the pass, whether it was listed or added before; and from
   * then on it has no turn, so that it is not updated at all if the removal comes before its turn.
   */
  lemma RemovedLastIsGone(l: Lists, acts: nat -> seq<Op>, i: nat, pre: seq<Op>, e: Editor)
    requires Distinct(l.update) && LastCall(l, acts, i, pre, Remove(e))
    ensures var end := At(l, acts, |l.update|); e !in Cleared(end.update, end.remove)
    ensures e !in l.update[..i + 1] ==> e !in UpdatedBefore(l, acts, |l.update|)
  {
    var n, removed := |l.update|, After(AfterAll(At(l, acts, i), pre), Remove(e));
    assert removed.remove[|removed.remove| - 1] == e;
    TimesPositive(removed.remove, e);
    forall j | i < j <= n ensures e in At(l, acts, j).remove {
      LastCallStays(l, acts, i, pre, Remove(e), j);
      TimesPositive(At(l, acts, j).remove, e);
    }
    AtGrows(l, acts, 0, n);
    ClearedMembers(At(l, acts, n).update, At(l, acts, n).remove, e);
    UpdatedOnce(l, acts, n, e);
    TimesPositive(UpdatedBefore(l, acts, n), e);
    assert forall k :: 0 <= k <= i ==> l.update[..i + 1][k] == l.update[k];
  }

  /** The editor is listed and waits for its removal: adding it does nothing. */
  lemma ListedIsLost(l: Lists, acts: nat -> seq<Op>, i: nat, pre: seq<Op>, e: Editor)
    requires Distinct(l.update) && LastCall(l, acts, i, pre, Add(e))
    requires var before := AfterAll(At(l, acts, i), pre); e in before.update && e in before.remove
    ensures var before := AfterAll(At(l, acts, i), pre); After(before, Add(e)) == before
    ensures var end := At(l, acts, |l.update|); e !in Cleared(end.update, end.remove)
  {
    AddedLastSurvivesIff(l, acts, i, pre, e);
  }

  /** An editor that is not listed, but was removed twice: adding it cancels one removal, and the other is left. */
  lemma RemovedTwiceIsLost(acts: nat -> seq<Op>)
    requires acts(0) == [Remove(2), Remove(2), Add(2)]
    ensures var end := At(Lists([1], [], map[]), acts, 1); 2 in end.update && 2 !in Cleared(end.update, end.remove)
  {
    var l, pre := Lists([1], [], map[]), [Remove(2), Remove(2)];
    var removed := After(After(l, Remove(2)), Remove(2));
    assert pre[1..] == [Remove(2)] && AfterAll(l, pre) == removed && removed.remove == [2, 2];
    assert [2, 2][1..] == [2];
    AddedLastSurvivesIff(l, acts, 0, pre, 2);
  }

  // ---- Orders that do not change once they have been shown ----

  ghost predicate SetsNot(ops: seq<Op>, e: Editor) {
    forall k :: 0 <= k < |ops| ==> !ops[k].SetOrder? || ops[k].editor != e
  }

  /** In its own turn an editor may set its order, but no later turn sets it. */
  ghost predicate Settled(l: Lists, acts: nat -> seq<Op>) {
    forall i: nat, j: nat :: i < j < |l.update| ==> SetsNot(acts(j), l.update[i])
  }

  ghost predicate NothingAdded(acts: nat -> seq<Op>) {
    forall i: nat, k: nat :: k < |acts(i)| ==> !acts(i)[k].Add?
  }

  lemma {:induction false} AfterAllKeeps(l: Lists, ops: seq<Op>, e: Editor)
    ensures SetsNot(ops, e) ==> OrderOf(AfterAll(l, ops).orders, e) == OrderOf(l.orders, e)
    ensures (forall k :: 0 <= k < |ops| ==> !ops[k].Add?) ==> AfterAll(l, ops).update == l.update
    decreases |ops|
  {
    if ops != [] {
      AfterAllKeeps(After(l, ops[0]), ops[1..], e);
      assert forall k :: 0 <= k < |ops[1..]| ==> ops[1..][k] == ops[k + 1];
    }
  }

  lemma {:induction false} AtKeeps(l: Lists, acts: nat -> seq<Op>, i: nat)
    requires i <= |l.update| && NothingAdded(acts)
    ensures At(l, acts, i).update == l.update
  {
    if i > 0 {
      AtKeeps(l, acts, i - 1);
      AfterAllKeeps(At(l, acts, i - 1), acts(i - 1), 0);
    }
  }

  lemma {:induction false} SeenIsSettled(l: Lists, acts: nat -> seq<Op>, i: nat, j: nat)
    requires i < j <= |l.update| && Settled(l, acts)
    ensures OrderOf(At(l, acts, j).orders, l.update[i]) == OrderSeen(l, acts, i)
    decreases j
  {
    if i + 1 < j {
      SeenIsSettled(l, acts, i, j - 1);
      AfterAllKeeps(At(l, acts, j - 1), acts(j - 1), l.update[i]);
    }
  }

  lemma LeftInOrder(l: Lists, acts: nat -> seq<Op>, i: nat, j: nat)
    requires i < j < |l.update| && Settled(l, acts) && !OutOfOrder(l, acts, |l.update|)
    requires var remove := At(l, acts, |l.update|).remove; l.update[i] !in remove && l.update[j] !in remove
    ensures var orders := At(l, acts, |l.update|).orders; OrderOf(orders, l.update[i]) <= OrderOf(orders, l.update[j])
  {
    LeftHadTurn(l, acts, i);
    LeftHadTurn(l, acts, j);
    SeenIsSettled(l, acts, i, |l.update|);
    SeenIsSettled(l, acts, j, |l.update|);
  }

  /**
   * If no order is set after its editor's turn, nothing was added and no smaller order followed a larger
   * one, what is left is sorted: the test for a pass that needs no sorting is sound.
   */
  lemma CleanPassIsSorted(l: Lists, acts: nat -> seq<Op>)
    requires Distinct(l.update) && Settled(l, acts) && NothingAdded(acts) && !OutOfOrder(l, acts, |l.update|)
    ensures var end := At(l, acts, |l.update|); Sorted(Cleared(end.update, end.remove), end.orders)
  {
    var end := At(l, acts, |l.update|);
    AtKeeps(l, acts, |l.update|);
    forall i, j | 0 <= i < j < |l.update| && l.update[i] !in end.remove && l.update[j] !in end.remove
      ensures OrderOf(end.orders, l.update[i]) <= OrderOf(end.orders, l.update[j])
    {
      LeftInOrder(l, acts, i, j);
    }
    ClearedSorted(end.update, end.remove, end.orders);
  }

  // ---- The order test of the loop ----

  /** `m` is the largest order shown before position `i`, or 0. */
  ghost predicate LargestSeen(l: Lists, acts: nat -> seq<Op>, i: nat, m: nat)
    requires i <= |l.update|
  {
    && (forall k :: 0 <= k < i && HasTurn(l, acts, k) ==> OrderSeen(l, acts, k) <= m)
    && (m == 0 || exists k :: 0 <= k < i && HasTurn(l, acts, k) && OrderSeen(l, acts, k) == m)
  }

  lemma LargestMore(l: Lists, acts: nat -> seq<Op>, i: nat, m: nat)
    requires i < |l.update| && LargestSeen(l, acts, i, m)
    ensures !HasTurn(l, acts, i) ==> LargestSeen(l, acts, i + 1, m)
    ensures HasTurn(l, acts, i) ==>
      var seen := OrderSeen(l, acts, i); LargestSeen(l, acts, i + 1, if seen < m then m else seen)
  {
    if m > 0 {
      var k :| 0 <= k < i && HasTurn(l, acts, k) && OrderSeen(l, acts, k) == m;
      assert k < i + 1;
    }
  }

  lemma StillOutOfOrder(l: Lists, acts: nat -> seq<Op>, i: nat)
    requires i < |l.update|
    ensures OutOfOrder(l, acts, i) ==> OutOfOrder(l, acts, i + 1)
  {
    if OutOfOrder(l, acts, i) {
      var j, k :| 0 <= j < k < i && HasTurn(l, acts, j) && HasTurn(l, acts, k)
        && OrderSeen(l, acts, j) > OrderSeen(l, acts, k);
      assert k < i + 1;
    }
  }

  lemma SameOrder(l: Lists, acts: nat -> seq<Op>, i: nat)
    requires i < |l.update| && !HasTurn(l, acts, i)
    ensures OutOfOrder(l, acts, i + 1) ==> OutOfOrder(l, acts, i)
  {
    if OutOfOrder(l, acts, i + 1) {
      var j, k :| 0 <= j < k < i + 1 && HasTurn(l, acts, j) && HasTurn(l, acts, k)
        && OrderSeen(l, acts, j) > OrderSeen(l, acts, k);
      assert k != i;
    }
  }

  lemma NewlyOutOfOrder(l: Lists, acts: nat -> seq<Op>, i: nat, m: nat)
    requires i < |l.update| && LargestSeen(l, acts, i, m) && HasTurn(l, acts, i)
    ensures OutOfOrder(l, acts, i + 1) ==> OutOfOrder(l, acts, i) || OrderSeen(l, acts, i) < m
    ensures OrderSeen(l, acts, i) < m ==> OutOfOrder(l, acts, i + 1)
  {
    if OutOfOrder(l, acts, i + 1) && !OutOfOrder(l, acts, i) {
      var j, k :| 0 <= j < k < i + 1 && HasTurn(l, acts, j) && HasTurn(l, acts, k)
        && OrderSeen(l, acts, j) > OrderSeen(l, acts, k);
      assert k == i;
    }
    if OrderSeen(l, acts, i) < m {
      var k :| 0 <= k < i && HasTurn(l, acts, k) && OrderSeen(l, acts, k) == m;
      assert OrderSeen(l, acts, k) > OrderSeen(l, acts, i);
    }
  }

  /** The test of the loop, where an editor without a turn counts as showing `m` itself. */
  lemma OneMoreSeen(l: Lists, acts: nat -> seq<Op>, i: nat, m: nat, shown: nat)
    requires i < |l.update| && LargestSeen(l, acts, i, m)
    requires shown == if HasTurn(l, acts, i) then OrderSeen(l, acts, i) else m
    ensures LargestSeen(l, acts, i + 1, if m > shown then m else shown)
    ensures OutOfOrder(l, acts, i + 1) <==> OutOfOrder(l, acts, i) || m > shown
  {
    LargestMore(l, acts, i, m);
    StillOutOfOrder(l, acts, i);
    if HasTurn(l, acts, i) {
      NewlyOutOfOrder(l, acts, i, m);
    } else {
      SameOrder(l, acts, i);
    }
  }

  /** What the loop knows when it comes to position `i`. */
  ghost predicate Tested(l: Lists, acts: nat -> seq<Op>, i: nat, updated: seq<Editor>, dirty: bool, m: nat)
    requires i <= |l.update|
  {
    updated == UpdatedBefore(l, acts, i) && (dirty <==> OutOfOrder(l, acts, i)) && LargestSeen(l, acts, i, m)
  }

  /** Where the loop stands when it comes to position `i`. */
  ghost predicate Stands(l: Lists, acts: nat -> seq<Op>, i: nat, now: Lists, updated: seq<Editor>, dirty: bool, m: nat)
  {
    i <= |l.update| && now == At(l, acts, i) && l.update <= now.update && Tested(l, acts, i, updated, dirty, m)
  }

  /** What the loop has done when it is over. */
  ghost predicate Passed(l: Lists, acts: nat -> seq<Op>, now: Lists, updated: seq<Editor>, dirty: bool) {
    && now == At(l, acts, |l.update|)
    && updated == UpdatedBefore(l, acts, |l.update|)
    && (dirty <==> OutOfOrder(l, acts, |l.update|))
  }

  lemma AllTested(l: Lists, acts: nat -> seq<Op>, now: Lists, updated: seq<Editor>, dirty: bool, m: nat)
    requires Stands(l, acts, |l.update|, now, updated, dirty, m)
    ensures Passed(l, acts, now, updated, dirty)
  {
  }

  lemma NothingTested(l: Lists, acts: nat -> seq<Op>)
    ensures Stands(l, acts, 0, l, [], false, 0)
  {
  }

  lemma OneMoreTested(l: Lists, acts: nat -> seq<Op>, i: nat, updated: seq<Editor>, dirty: bool, m: nat,
                      hadTurn: bool, shown: nat)
    requires i < |l.update| && Tested(l, acts, i, updated, dirty, m) && (hadTurn <==> HasTurn(l, acts, i))
    requires shown == if hadTurn then OrderSeen(l, acts, i) else m
    ensures Tested(l, acts, i + 1, updated + (if hadTurn then [l.update[i]] else []), dirty || m > shown,
                   if m > shown then m else shown)
  {
    OneMoreSeen(l, acts, i, m, shown);
  }

  // ---- Sorting ----

  function InsertByOrder(s: seq<Editor>, e: Editor, orders: map<Editor, nat>): seq<Editor> {
    if s == [] || OrderOf(orders, e) < OrderOf(orders, s[0]) then [e] + s
    else [s[0]] + InsertByOrder(s[1..], e, orders)
  }

  lemma {:induction false} InsertedSorted(s: seq<Editor>, e: Editor, orders: map<Editor, nat>)
    requires Sorted(s, orders)
    ensures Sorted(InsertByOrder(s, e, orders), orders)
    ensures forall x: Editor :: Times(InsertByOrder(s, e, orders), x) == Times(s, x) + (if x == e then 1 else 0)
    ensures forall x :: x in InsertByOrder(s, e, orders) <==> x in s || x == e
  {
    var r := InsertByOrder(s, e, orders);
    if s == [] || OrderOf(orders, e) < OrderOf(orders, s[0]) {
      assert r[1..] == s;
    } else {
      var t := InsertByOrder(s[1..], e, orders);
      InsertedSorted(s[1..], e, orders);
      assert r[1..] == t;
      forall j | 1 <= j < |r| ensures OrderOf(orders, s[0]) <= OrderOf(orders, r[j]) {
        assert t[j - 1] in t;
      }
    }
  }

  lemma {:induction false} AtMostOnce(s: seq<Editor>, x: Editor)
    requires Distinct(s)
    ensures Times(s, x) <= 1
  {
    if s != [] {
      AtMostOnce(s[1..], x);
      TimesPositive(s[1..], x);
    }
  }

  lemma {:induction false} OnceIsDistinct(s: seq<Editor>)
    requires forall x: Editor :: Times(s, x) <= 1
    ensures Distinct(s)
  {
    if s != [] {
      forall x: Editor ensures Times(s[1..], x) <= 1 {
        assert Times(s, x) <= 1;
      }
      OnceIsDistinct(s[1..]);
      TimesPositive(s[1..], s[0]);
      assert Times(s, s[0]) <= 1;
      forall i, j | 0 <= i < j < |s| ensures s[i] != s[j] {
        if i > 0 {
          assert s[1..][i - 1] != s[1..][j - 1];
        } else {
          assert s[j] == s[1..][j - 1];
        }
      }
    }
  }

  lemma PermutedDistinct(s: seq<Editor>, t: seq<Editor>)
    requires Permutes(t, s) && Distinct(s)
    ensures Distinct(t)
  {
    forall x: Editor ensures Times(t, x) <= 1 {
      AtMostOnce(s, x);
    }
    OnceIsDistinct(t);
  }

  /** `std::sort`, of which only this is promised. */
  method SortByOrder(s: seq<Editor>, orders: map<Editor, nat>) returns (r: seq<Editor>)
    ensures Sorted(r, orders) && Permutes(r, s) && (Distinct(s) ==> Distinct(r))
  {
    r := [];
    for i := 0 to |s|
      invariant Sorted(r, orders) && Permutes(r, s[..i])
    {
      InsertedSorted(r, s[i], orders);
      assert s[..i + 1] == s[..i] + [s[i]];
      forall x: Editor ensures Times(s[..i + 1], x) == Times(s[..i], x) + (if s[i] == x then 1 else 0) {
        TimesAppend(s[..i], s[i], x);
      }
      r := InsertByOrder(r, s[i], orders);
    }
    assert s[..|s|] == s;
    if Distinct(s) {
      PermutedDistinct(s, r);
    }
  }

  // ---- The manager ----

  class MiddlewareManager {
    var updateList: seq<Editor>
    var removeList: seq<Editor>
    var orders: map<Editor, nat>       // what `getRenderOrder` answers
    var isUpdating: bool
    var isRendering: bool

    ghost predicate Valid()
      reads this
    {
      Distinct(updateList) && (!isUpdating && !isRendering ==> removeList == [])
    }

    function W(): Lists
      reads this
    {
      Lists(updateList, removeList, orders)
    }

    constructor ()
      ensures Valid() && updateList == [] && !isUpdating && !isRendering
    {
      updateList, removeList, orders, isUpdating, isRendering := [], [], map[], false, false;
    }

    method AddTimer(e: Editor)
      requires Valid()
      modifies `updateList, `removeList
      ensures Valid() && W() == After(old(W()), Add(e))
      ensures old(e in updateList) ==> W() == old(W())
      ensures old(e !in updateList) ==>
        updateList == old(updateList) + [e] && ErasedFrom(old(removeList), e, removeList) && orders == old(orders)
    {
      AfterGrows(W(), Add(e));
      ErasedIsErased(removeList, e);
      if e in updateList {
        return;
      }
      var i := IndexIn(removeList, e);
      if i < |removeList| {
        removeList := removeList[..i] + removeList[i + 1..];
      }
      updateList := updateList + [e];
    }

    method RemoveTimer(e: Editor)
      requires Valid()
      modifies `updateList, `removeList
      ensures Valid()
      ensures old(isUpdating || isRendering) ==> W() == After(old(W()), Remove(e))
      ensures old(isUpdating || isRendering) ==> WaitsOnceMore(old(W()), W(), e)
      ensures !old(isUpdating || isRendering) ==> W() == old(W()).(update := Erased(old(updateList), e))
      ensures !old(isUpdating || isRendering) ==> e !in updateList && ErasedFrom(old(updateList), e, updateList)
    {
      ErasedIsErased(updateList, e);
      OneMoreWaits(W(), e);
      if isUpdating || isRendering {
        removeList := removeList + [e];
      } else {
        ErasedMembers(updateList, e, e);
        var i := IndexIn(updateList, e);
        if i < |updateList| {
          updateList := updateList[..i] + updateList[i + 1..];
        }
      }
    }

    /** What an editor answers when it is asked for its order changes. */
    method ChangeOrder(e: Editor, n: nat)
      requires Valid()
      modifies `orders
      ensures Valid() && W() == After(old(W()), SetOrder(e, n))
      ensures forall x: Editor :: OrderOf(orders, x) == if x == e then n else OrderOf(old(orders), x)
    {
      orders := orders[e := n];
    }

    method CallBack(ops: seq<Op>)
      requires Valid() && (isUpdating || isRendering)
      modifies `updateList, `removeList, `orders
      ensures Valid() && W() == AfterAll(old(W()), ops)
    {
      for i := 0 to |ops|
        invariant Valid() && AfterAll(W(), ops[i..]) == AfterAll(old(W()), ops)
      {
        assert ops[i..][0] == ops[i] && ops[i..][1..] == ops[i + 1..];
        match ops[i]
        case Add(e) => AddTimer(e);
        case Remove(e) => RemoveTimer(e);
        case SetOrder(e, n) => ChangeOrder(e, n);
      }
    }

    method ClearRemoveList()
      requires Distinct(updateList)
      modifies `updateList, `removeList
      ensures Valid() && updateList == Cleared(old(updateList), old(removeList)) && removeList == []
    {
      for i := 0 to |removeList|
        invariant Distinct(updateList) && removeList == old(removeList)
        invariant Cleared(updateList, removeList[i..]) == Cleared(old(updateList), removeList)
      {
        var e := removeList[i];
        assert removeList[i..][0] == e && removeList[i..][1..] == removeList[i + 1..];
        ErasedMembers(updateList, e, e);
        var it := IndexIn(updateList, e);
        if it < |updateList| {
          updateList := updateList[..it] + updateList[it + 1..];
        }
      }
      removeList := [];
    }

    /** The turn of the editor at position `i`: nothing, if its removal waits. */
    method Turn(acts: nat -> seq<Op>, i: nat, maxRenderOrder: nat, ghost l: Lists)
      returns (hadTurn: bool, renderOrder: nat)
      requires Valid() && (isUpdating || isRendering)
      requires i < |l.update| && W() == At(l, acts, i) && l.update <= updateList
      modifies `updateList, `removeList, `orders
      ensures Valid() && W() == At(l, acts, i + 1) && l.update <= updateList
      ensures hadTurn <==> HasTurn(l, acts, i)
      ensures renderOrder == if hadTurn then OrderSeen(l, acts, i) else maxRenderOrder
    {
      AtGrows(l, acts, 0, i + 1);
      var editor := updateList[i];
      renderOrder := maxRenderOrder;
      hadTurn := editor !in removeList;
      if hadTurn {
        CallBack(acts(i));
        renderOrder := OrderOf(orders, editor);
      }
    }

    /** One round of the loop. */
    method TurnAndTest(acts: nat -> seq<Op>, i: nat, updated: seq<Editor>, isOrderDirty: bool, maxRenderOrder: nat,
                       ghost l: Lists)
      returns (updated': seq<Editor>, isOrderDirty': bool, maxRenderOrder': nat)
      requires Valid() && (isUpdating || isRendering)
      requires i < |l.update| && Stands(l, acts, i, W(), updated, isOrderDirty, maxRenderOrder)
      modifies `updateList, `removeList, `orders
      ensures Valid() && Stands(l, acts, i + 1, W(), updated', isOrderDirty', maxRenderOrder')
    {
      var editor := updateList[i];
      assert editor == l.update[i];
      var hadTurn, renderOrder := Turn(acts, i, maxRenderOrder, l);
      OneMoreTested(l, acts, i, updated, isOrderDirty, maxRenderOrder, hadTurn, renderOrder);
      updated' := updated + if hadTurn then [editor] else [];
      isOrderDirty', maxRenderOrder' := isOrderDirty, maxRenderOrder;
      if maxRenderOrder > renderOrder {
        isOrderDirty' := true;
      } else {
        maxRenderOrder' := renderOrder;
      }
    }

    /** The loop over the editors that are listed when it begins, with the test for their order. */
    method Walk(acts: nat -> seq<Op>) returns (updated: seq<Editor>, isOrderDirty: bool)
      requires Valid() && (isUpdating || isRendering)
      modifies `updateList, `removeList, `orders
      ensures Valid() && Passed(old(W()), acts, W(), updated, isOrderDirty)
    {
      ghost var l := W();
      var maxRenderOrder := 0;
      updated, isOrderDirty := [], false;
      NothingTested(l, acts);
      for i := 0 to |updateList|
        invariant Distinct(updateList) && Stands(l, acts, i, W(), updated, isOrderDirty, maxRenderOrder)
      {
        updated, isOrderDirty, maxRenderOrder := TurnAndTest(acts, i, updated, isOrderDirty, maxRenderOrder, l);
      }
      AllTested(l, acts, W(), updated, isOrderDirty, maxRenderOrder);
    }

    method Update(acts: nat -> seq<Op>) returns (updated: seq<Editor>)
      requires Valid() && !isUpdating && !isRendering
      modifies this
      ensures Valid() && !isUpdating && !isRendering
      ensures var end := At(old(W()), acts, old(|updateList|)); var left := Cleared(end.update, end.remove);
        && updated == UpdatedBefore(old(W()), acts, old(|updateList|))
        && orders == end.orders && Permutes(updateList, left)
        && (OutOfOrder(old(W()), acts, old(|updateList|)) ==> Sorted(updateList, orders))
        && (!OutOfOrder(old(W()), acts, old(|updateList|)) ==> updateList == left)
      ensures Settled(old(W()), acts) && NothingAdded(acts) ==> Sorted(updateList, orders)
    {
      ghost var l := W();
      isUpdating := true;
      var isOrderDirty;
      updated, isOrderDirty := Walk(acts);
      isUpdating := false;
      ClearRemoveList();
      if isOrderDirty {
        updateList := SortByOrder(updateList, orders);
      } else if Settled(l, acts) && NothingAdded(acts) {
        CleanPassIsSorted(l, acts);
      }
    }

    /** `render` walks the list in the same way, but does not look at the orders. */
    method Render(acts: nat -> seq<Op>) returns (rendered: seq<Editor>)
      requires Valid() && !isUpdating && !isRendering
      modifies this
      ensures Valid() && !isUpdating && !isRendering
      ensures var end := At(old(W()), acts, old(|updateList|));
        && rendered == UpdatedBefore(old(W()), acts, old(|updateList|))
        && orders == end.orders && updateList == Cleared(end.update, end.remove)
    {
      isRendering := true;
      var ignored;
      rendered, ignored := Walk(acts);
      isRendering := false;
      ClearRemoveList();
    }
  }
}
