/** The state of the scheduler of cocos/base/Scheduler.cpp as a value, what each of its calls does to
    it, and what all of them keep even while a pass over a target's timers is under way.

    Timers live in a table of their own, so that a reference count can end one's life. */
module SchedulerWorld {
  import opened Wrappers
  import opened Timers

  type TimerId = nat

  /** `HashTimerEntry`, except for the target, which is its key in the table. */
  datatype Entry = Entry(
    timers: seq<TimerId>,
    timerIndex: int,
    currentTimer: Option<TimerId>,
    currentTimerSalvaged: bool,
    paused: bool)

  datatype Op =
    | Schedule(target: Target, key: string, interval: real, repeat: nat, delay: real, paused: bool)
    | Unschedule(key: string, target: Target)
    | UnscheduleTarget(target: Target)
    | UnscheduleAll
    | PauseTarget(target: Target)
    | ResumeTarget(target: Target)

  /** What the assertions of `schedule` demand of a caller. */
  predicate OpOk(op: Op) {
    op.Schedule? ==> op.target != NO_TARGET && op.key != ""
  }

  /** The position of the timer with key `key`, or the length of the list. */
  function KeyIndex(list: seq<TimerId>, timers: map<TimerId, Timer>, key: string): (i: nat)
    requires forall id :: id in list ==> id in timers
    ensures i <= |list|
    ensures i < |list| ==> timers[list[i]].key == key
    ensures forall j :: 0 <= j < i ==> timers[list[j]].key != key
  {
    if list == [] || timers[list[0]].key == key then 0 else 1 + KeyIndex(list[1..], timers, key)
  }

  /** Is `id` the running timer of the entry, kept alive only until its update returns? */
  predicate Salvaged(e: Entry, id: TimerId) {
    e.currentTimer == Some(id) && e.currentTimerSalvaged
  }

  function RefsIn(e: Entry, id: TimerId): nat {
    (if id in e.timers then 1 else 0) + (if Salvaged(e, id) then 1 else 0)
  }

  predicate Increasing(s: seq<TimerId>) {
    forall i, j :: 0 <= i < j < |s| ==> s[i] < s[j]
  }

  predicate KeysDistinct(list: seq<TimerId>, timers: map<TimerId, Timer>)
    requires forall id :: id in list ==> id in timers
  {
    forall x, y :: x in list && y in list && x != y ==> timers[x].key != timers[y].key
  }

  /** Timer `id` exists and belongs to target `g`. */
  predicate Belongs(id: TimerId, g: Target, timers: map<TimerId, Timer>) {
    id in timers && timers[id].target == g && timers[id].key != ""
  }

  /** The entry of target `g`: its own timers, in order of creation, with distinct keys. */
  predicate EntryOk(g: Target, e: Entry, timers: map<TimerId, Timer>) {
    && Increasing(e.timers)
    && (forall id :: id in e.timers ==> Belongs(id, g, timers))
    && KeysDistinct(e.timers, timers)
    && (e.currentTimer.Some? ==>
          && Belongs(e.currentTimer.value, g, timers)
          && (e.currentTimerSalvaged <==> e.currentTimer.value !in e.timers))
  }

  /** The scheduler's own state. */
  datatype World = World(
    entries: map<Target, Entry>,     // _hashForTimers
    timers: map<TimerId, Timer>,     // the timers that exist
    nextId: nat,
    current: Option<Target>,         // _currentTarget
    salvaged: bool)                  // _currentTargetSalvaged

  /** The history of a pass over one target's timers: those updated so far, those unscheduled before
      their turn, and those listed at its start, which are the ones numbered below `first`. */
  datatype Pass = Pass(turns: seq<TimerId>, dropped: set<TimerId>, listed: seq<TimerId>, first: nat)

  /** Each timer is filed under its target, and its count is its place in the list plus one if it is
      the salvaged running timer. */
  predicate Known(id: TimerId, w: World) {
    id in w.timers ==>
      && id < w.nextId
      && w.timers[id].target in w.entries
      && w.timers[id].refs == RefsIn(w.entries[w.timers[id].target], id) > 0
      && Tickable(w.timers[id])
  }

  /** Only the current target may be without timers, and only it has one running. */
  predicate Filed(g: Target, w: World) {
    g in w.entries ==>
      && g != NO_TARGET
      && EntryOk(g, w.entries[g], w.timers)
      && (w.entries[g].timers == [] ==> w.current == Some(g) && w.salvaged)
      && (w.entries[g].currentTimer.Some? ==> w.current == Some(g))
  }

  ghost predicate Table(w: World) {
    && (forall g :: Filed(g, w))
    && (forall id :: Known(id, w))
    && (w.current.Some? ==> w.current.value in w.entries)
  }

  /** Once position `i` of `list` is done, what is ahead is younger than every timer updated so far, and
      if younger than the pass, not yet through its first update; what is not ahead and older than the
      pass has had its turn. */
  predicate Positions(list: seq<TimerId>, i: int, timers: map<TimerId, Timer>, p: Pass) {
    && -1 <= i
    && (forall k :: 0 <= k < |list| && i < k ==> p.turns == [] || p.turns[|p.turns| - 1] < list[k])
    && (forall k :: 0 <= k < |list| && k <= i && list[k] < p.first ==> list[k] in p.turns)
    && (forall k :: 0 <= k < |list| && i < k && list[k] >= p.first ==>
          list[k] in timers && timers[list[k]].elapsed == -1.0)
  }

  /** Every timer listed at the start has had its turn, was dropped before it, or is still listed. */
  predicate Accounted(list: seq<TimerId>, p: Pass) {
    && (forall id :: id in p.listed ==> id in p.turns || id in p.dropped || id in list)
    && (forall id :: id in p.dropped ==> id !in p.turns && id !in list)
    && (forall id :: id in list && id < p.first ==> id in p.listed)
  }

  /** How far the pass over entry `e` has come once position `i` is done. */
  predicate PassAt(e: Entry, i: int, timers: map<TimerId, Timer>, p: Pass) {
    Positions(e.timers, i, timers, p) && Accounted(e.timers, p)
  }

  predicate Numbered(p: Pass, nextId: nat) {
    && Increasing(p.turns)
    && p.first <= nextId
    && (forall id :: id in p.turns ==> id < nextId)
    && (forall id :: id in p.dropped ==> id < nextId)
    && (forall id :: id in p.listed ==> id < p.first)
  }

  /** A timer is being updated. */
  predicate Running(w: World) {
    w.current.Some? && w.current.value in w.entries && w.entries[w.current.value].currentTimer.Some?
  }

  function RunningId(w: World): TimerId
    requires Running(w)
  {
    w.entries[w.current.value].currentTimer.value
  }

  predicate TurnOf(id: TimerId, p: Pass) {
    p.turns != [] && p.turns[|p.turns| - 1] == id
  }

  ghost predicate Good(w: World, p: Pass) {
    && Table(w)
    && Numbered(p, w.nextId)
    && (Running(w) ==>
          var e := w.entries[w.current.value];
          PassAt(e, e.timerIndex, w.timers, p) && TurnOf(RunningId(w), p))
  }

  // ---------------------------------------------------------------- what the calls do

  ghost function Scheduled(w: World, op: Op): World
    requires op.Schedule? && Table(w)
  {
    var t := Setup(op.target, op.key, op.interval, op.repeat, op.delay);
    if op.target !in w.entries then
      w.(entries := w.entries[op.target := Entry([w.nextId], 0, None, false, op.paused)],
         timers := w.timers[w.nextId := t], nextId := w.nextId + 1)
    else
      var e := w.entries[op.target];
      assert Filed(op.target, w);
      var k := KeyIndex(e.timers, w.timers, op.key);
      if k < |e.timers| then
        w.(timers := w.timers[e.timers[k] := w.timers[e.timers[k]].(interval := op.interval)])
      else
        w.(entries := w.entries[op.target := e.(timers := e.timers + [w.nextId])],
           timers := w.timers[w.nextId := t], nextId := w.nextId + 1)
  }

  /** The timers that lose their last reference when the entry drops `ids`. */
  function Freed(e: Entry, ids: set<TimerId>): set<TimerId> {
    set id | id in ids && !(e.currentTimer == Some(id) && !e.currentTimerSalvaged)
  }

  /** The entry without the timers in `ids`: the running one among them is salvaged. */
  function Dropping(w: World, g: Target, e': Entry, ids: set<TimerId>): World
    requires g in w.entries
  {
    var e := w.entries[g];
    var w' := w.(timers := w.timers - Freed(e, ids));
    if e'.timers != [] then w'.(entries := w.entries[g := e'])
    else if w.current == Some(g) then w'.(entries := w.entries[g := e'], salvaged := true)
    else w'.(entries := w.entries - {g})
  }

  /** The list loses position `i`, and a position of the pass at or behind it moves along. */
  function ErasedEntry(e: Entry, i: nat): Entry
    requires i < |e.timers|
  {
    e.(timers := Without(e.timers, i),
       timerIndex := if e.timerIndex >= i then e.timerIndex - 1 else e.timerIndex,
       currentTimerSalvaged := e.currentTimerSalvaged || e.currentTimer == Some(e.timers[i]))
  }

  function Erased(w: World, g: Target, i: nat): World
    requires g in w.entries && i < |w.entries[g].timers|
  {
    Dropping(w, g, ErasedEntry(w.entries[g], i), {w.entries[g].timers[i]})
  }

  function Listed(e: Entry): set<TimerId> {
    set id | id in e.timers
  }

  function ClearedEntry(e: Entry): Entry {
    e.(timers := [], currentTimerSalvaged := e.currentTimerSalvaged
                                             || (e.currentTimer.Some? && e.currentTimer.value in e.timers))
  }

  function Cleared(w: World, g: Target): World
    requires g in w.entries
  {
    Dropping(w, g, ClearedEntry(w.entries[g]), Listed(w.entries[g]))
  }

  /** What dropping `ids` from target `g` means for the pass. */
  function Noted(p: Pass, w: World, g: Target, ids: set<TimerId>): Pass {
    if w.current == Some(g) then p.(dropped := p.dropped + (set id | id in ids && id !in p.turns)) else p
  }

  /** The calls of the interface, on the state and on the pass. */
  ghost predicate Finds(w: World, key: string, g: Target)
    requires Table(w)
  {
    && g != NO_TARGET && key != "" && g in w.entries
    && (assert Filed(g, w); KeyIndex(w.entries[g].timers, w.timers, key) < |w.entries[g].timers|)
  }

  ghost function Found(w: World, key: string, g: Target): nat
    requires Table(w) && Finds(w, key, g)
  {
    assert Filed(g, w);
    KeyIndex(w.entries[g].timers, w.timers, key)
  }

  ghost function Unscheduled(w: World, key: string, g: Target): World
    requires Table(w)
  {
    if Finds(w, key, g) then Erased(w, g, Found(w, key, g)) else w
  }

  ghost function UnscheduledPass(w: World, p: Pass, key: string, g: Target): Pass
    requires Table(w)
  {
    if Finds(w, key, g) then Noted(p, w, g, {w.entries[g].timers[Found(w, key, g)]}) else p
  }

  /** The running timer's own update gives it new values. */
  function Advanced(w: World, t: Timer): World
    requires Running(w)
  {
    w.(timers := w.timers[RunningId(w) := t])
  }

  /** The timer at the pass position begins its update. */
  function TurnBegun(w: World): World
    requires w.current.Some? && w.current.value in w.entries
    requires var e := w.entries[w.current.value]; 0 <= e.timerIndex < |e.timers|
  {
    var e := w.entries[w.current.value];
    var running := e.(currentTimer := Some(e.timers[e.timerIndex]), currentTimerSalvaged := false);
    w.(entries := w.entries[w.current.value := running])
  }

  /** The update is over: a salvaged timer loses its last reference. */
  function TurnEnded(w: World): World
    requires Running(w)
  {
    var e := w.entries[w.current.value];
    w.(entries := w.entries[w.current.value := e.(currentTimer := None)],
       timers := if e.currentTimerSalvaged then w.timers - {RunningId(w)} else w.timers)
  }

  /** The walk over the current target is over. */
  function Left(w: World): World
    requires w.current.Some? && w.current.value in w.entries
  {
    w.(current := None,
       entries := if w.salvaged && w.entries[w.current.value].timers == [] then w.entries - {w.current.value}
                  else w.entries)
  }

  // ---------------------------------------------------------------- what they keep

  /** The timers an entry refers to still belong to its target. */
  predicate StillThere(e: Entry, g: Target, timers: map<TimerId, Timer>, timers': map<TimerId, Timer>) {
    && (forall id :: id in e.timers && id in timers ==> Belongs(id, g, timers') && timers'[id].key == timers[id].key)
    && (e.currentTimer.Some? ==> Belongs(e.currentTimer.value, g, timers'))
  }

  lemma EntryKept(g: Target, e: Entry, timers: map<TimerId, Timer>, timers': map<TimerId, Timer>)
    requires EntryOk(g, e, timers) && StillThere(e, g, timers, timers')
    ensures EntryOk(g, e, timers')
  {
    forall id | id in e.timers ensures Belongs(id, g, timers') && timers'[id].key == timers[id].key {
      assert Belongs(id, g, timers);
    }
  }

  lemma EntryAppended(g: Target, e: Entry, timers: map<TimerId, Timer>, id: TimerId, t: Timer)
    requires EntryOk(g, e, timers) && t.target == g && t.key != ""
    requires forall x :: x in e.timers ==> x < id && x in timers && timers[x].key != t.key
    requires e.currentTimer.Some? ==> e.currentTimer.value != id
    ensures EntryOk(g, e.(timers := e.timers + [id]), timers[id := t])
  {
    var l, timers' := e.timers + [id], timers[id := t];
    forall i | 0 <= i < |e.timers| ensures e.timers[i] < id { assert e.timers[i] in e.timers; }
    forall x | x in l ensures Belongs(x, g, timers') && (x in e.timers ==> timers'[x] == timers[x]) {
      assert x in e.timers || x == id;
      assert x in e.timers ==> Belongs(x, g, timers);
    }
    assert e.currentTimer.Some? ==> (e.currentTimer.value in l <==> e.currentTimer.value in e.timers);
  }

  lemma EntryShrunk(g: Target, e: Entry, e': Entry, timers: map<TimerId, Timer>, timers': map<TimerId, Timer>)
    requires EntryOk(g, e, timers)
    requires Increasing(e'.timers) && (forall id :: id in e'.timers ==> id in e.timers)
    requires StillThere(e', g, timers, timers')
    requires e'.currentTimer == e.currentTimer
    requires e'.currentTimer.Some? ==> (e'.currentTimerSalvaged <==> e'.currentTimer.value !in e'.timers)
    ensures EntryOk(g, e', timers')
  {
    forall id | id in e'.timers ensures Belongs(id, g, timers') && timers'[id].key == timers[id].key {
      assert Belongs(id, g, timers);
    }
    forall x, y | x in e'.timers && y in e'.timers && x != y ensures timers'[x].key != timers'[y].key {
      assert timers[x].key != timers[y].key;
    }
  }

  /** A listed timer is owned by the list alone. */
  lemma ListedFacts(w: World, g: Target)
    requires Table(w) && g in w.entries
    ensures forall id :: id in w.entries[g].timers ==> id in w.timers && w.timers[id].refs == 1
  {
    assert Filed(g, w);
    forall id | id in w.entries[g].timers ensures id in w.timers && w.timers[id].refs == 1 {
      assert Belongs(id, g, w.timers) && Known(id, w);
    }
  }

  // Scheduling

  lemma IntervalKeepsTable(w: World, id: TimerId, interval: real)
    requires Table(w) && id in w.timers
    ensures Table(w.(timers := w.timers[id := w.timers[id].(interval := interval)]))
  {
    var w' := w.(timers := w.timers[id := w.timers[id].(interval := interval)]);
    forall h ensures Filed(h, w') {
      assert Filed(h, w);
      if h in w.entries { EntryKept(h, w.entries[h], w.timers, w'.timers); }
    }
    forall x ensures Known(x, w') { assert Known(x, w); }
  }

  /** A timer with a new number is in no entry. */
  lemma NewIsNowhere(w: World, h: Target)
    requires Table(w) && h in w.entries
    ensures forall x :: x in w.entries[h].timers ==> x < w.nextId
    ensures w.entries[h].currentTimer != Some(w.nextId)
  {
    assert Filed(h, w);
    forall x | x in w.entries[h].timers ensures x < w.nextId {
      assert Belongs(x, h, w.timers);
      assert Known(x, w);
    }
    if w.entries[h].currentTimer.Some? { assert Known(w.entries[h].currentTimer.value, w); }
  }

  /** Filing a new timer under entry `e'` of its target. */
  lemma AddingKeepsTable(w: World, g: Target, e': Entry, t: Timer)
    requires Table(w) && g != NO_TARGET && t.target == g && t.refs == 1 && t.elapsed == -1.0 && Tickable(t)
    requires EntryOk(g, e', w.timers[w.nextId := t]) && e'.timers != []
    requires if g in w.entries then e' == w.entries[g].(timers := w.entries[g].timers + [w.nextId])
             else e'.timers == [w.nextId] && e'.currentTimer == None
    ensures Table(w.(entries := w.entries[g := e'], timers := w.timers[w.nextId := t], nextId := w.nextId + 1))
  {
    var w' := w.(entries := w.entries[g := e'], timers := w.timers[w.nextId := t], nextId := w.nextId + 1);
    forall h ensures Filed(h, w') {
      assert Filed(h, w);
      if h != g && h in w.entries {
        NewIsNowhere(w, h);
        EntryKept(h, w.entries[h], w.timers, w'.timers);
      }
    }
    forall x ensures Known(x, w') {
      if x == w.nextId {
        if g in w.entries { NewIsNowhere(w, g); }
      } else {
        assert Known(x, w);
      }
    }
  }

  lemma ScheduledKeepsTable(w: World, op: Op)
    requires op.Schedule? && OpOk(op) && Table(w)
    ensures Table(Scheduled(w, op))
  {
    var g, t := op.target, Setup(op.target, op.key, op.interval, op.repeat, op.delay);
    if g !in w.entries {
      AddingKeepsTable(w, g, Entry([w.nextId], 0, None, false, op.paused), t);
    } else {
      var e := w.entries[g];
      assert Filed(g, w);
      var k := KeyIndex(e.timers, w.timers, op.key);
      if k < |e.timers| {
        IntervalKeepsTable(w, e.timers[k], op.interval);
      } else {
        NewIsNowhere(w, g);
        EntryAppended(g, e, w.timers, w.nextId, t);
        AddingKeepsTable(w, g, e.(timers := e.timers + [w.nextId]), t);
      }
    }
  }

  /** The list may grow by a timer younger than the pass that has not been updated yet. */
  lemma PassAppended(e: Entry, i: int, timers: map<TimerId, Timer>, p: Pass, id: TimerId, t: Timer)
    requires PassAt(e, i, timers, p) && Numbered(p, id) && t.elapsed == -1.0
    requires forall x :: x in e.timers ==> x < id
    ensures PassAt(e.(timers := e.timers + [id]), i, timers[id := t], p)
  {
    var l := e.timers + [id];
    forall k | 0 <= k < |e.timers| ensures l[k] == e.timers[k] < id { assert e.timers[k] in e.timers; }
    if p.turns != [] { assert p.turns[|p.turns| - 1] in p.turns; }
    assert forall x :: x in l <==> x in e.timers || x == id;
  }

  lemma ScheduledKeepsPass(w: World, p: Pass, op: Op)
    requires op.Schedule? && OpOk(op) && Good(w, p)
    ensures Good(Scheduled(w, op), p)
  {
    ScheduledKeepsTable(w, op);
    var w' := Scheduled(w, op);
    if Running(w') {
      var g := w.current.value;
      var e, e' := w.entries[g], w'.entries[g];
      NewIsNowhere(w, g);
      if e' == e {
        assert Positions(e.timers, e.timerIndex, w'.timers, p);
      } else {
        assert e' == e.(timers := e.timers + [w.nextId]);
        PassAppended(e, e.timerIndex, w.timers, p, w.nextId, w'.timers[w.nextId]);
      }
    }
  }

  // Unscheduling

  lemma DroppingKeepsTable(w: World, g: Target, e': Entry, ids: set<TimerId>)
    requires Table(w) && g in w.entries
    requires var e := w.entries[g];
      && ids <= Listed(e) && Increasing(e'.timers)
      && (forall id :: id in e'.timers <==> id in e.timers && id !in ids)
      && e'.currentTimer == e.currentTimer
      && (e'.currentTimerSalvaged <==> e.currentTimerSalvaged || (e.currentTimer.Some? && e.currentTimer.value in ids))
    ensures Table(Dropping(w, g, e', ids))
  {
    var e, w' := w.entries[g], Dropping(w, g, e', ids);
    assert Filed(g, w);
    forall id | id in Freed(e, ids) ensures w.timers[id].target == g { assert Belongs(id, g, w.timers); }
    forall h ensures Filed(h, w') {
      assert Filed(h, w);
      if h == g && h in w'.entries {
        EntryShrunk(g, e, e', w.timers, w'.timers);
      } else if h != g && h in w.entries {
        forall id | id in w.entries[h].timers ensures Belongs(id, h, w'.timers) { assert Belongs(id, h, w.timers); }
        EntryKept(h, w.entries[h], w.timers, w'.timers);
      }
    }
    forall id ensures Known(id, w') { assert Known(id, w); }
  }

  lemma WithoutFacts(s: seq<TimerId>, i: nat)
    requires i < |s| && Increasing(s)
    ensures Increasing(Without(s, i))
    ensures forall x :: x in Without(s, i) <==> x in s && x != s[i]
  {
    var t := Without(s, i);
    assert forall k :: 0 <= k < |t| ==> t[k] == s[if k < i then k else k + 1];
    forall x | x in s && x != s[i] ensures x in t {
      var k :| 0 <= k < |s| && s[k] == x;
      assert t[if k < i then k else k - 1] == x;
    }
  }

  lemma PositionsErased(l: seq<TimerId>, i: int, j: nat, timers: map<TimerId, Timer>, timers': map<TimerId, Timer>,
                        p: Pass)
    requires j < |l| && Positions(l, i, timers, p)
    requires forall k :: 0 <= k < |l| && k != j && l[k] in timers ==>
               l[k] in timers' && timers'[l[k]].elapsed == timers[l[k]].elapsed
    ensures Positions(Without(l, j), if i >= j then i - 1 else i, timers', p)
  {
    var l' := Without(l, j);
    assert forall k :: 0 <= k < |l'| ==> l'[k] == l[if k < j then k else k + 1];
  }

  /** The list loses position `j`; the pass position follows it. */
  lemma PassErased(e: Entry, j: nat, timers: map<TimerId, Timer>, timers': map<TimerId, Timer>, p: Pass)
    requires j < |e.timers| && Increasing(e.timers) && PassAt(e, e.timerIndex, timers, p)
    requires forall id :: id in e.timers && id != e.timers[j] && id in timers ==>
               id in timers' && timers'[id].elapsed == timers[id].elapsed
    ensures var e' := ErasedEntry(e, j);
      PassAt(e', e'.timerIndex, timers', p.(dropped := p.dropped + (set id | id in {e.timers[j]} && id !in p.turns)))
  {
    WithoutFacts(e.timers, j);
    PositionsErased(e.timers, e.timerIndex, j, timers, timers', p);
  }

  lemma PassCleared(e: Entry, timers: map<TimerId, Timer>, timers': map<TimerId, Timer>, p: Pass)
    requires PassAt(e, e.timerIndex, timers, p)
    ensures PassAt(ClearedEntry(e), e.timerIndex, timers',
                   p.(dropped := p.dropped + (set id | id in Listed(e) && id !in p.turns)))
  {
  }

  /** Timers of other targets survive what is dropped from target `g`. */
  lemma OthersSurvive(w: World, g: Target, h: Target, ids: set<TimerId>)
    requires Table(w) && g in w.entries && h in w.entries && h != g && ids <= Listed(w.entries[g])
    ensures forall id :: id in w.entries[h].timers ==> id in w.timers && id !in ids
  {
    assert Filed(g, w) && Filed(h, w);
    forall id | id in w.entries[h].timers ensures id in w.timers && id !in ids {
      assert Belongs(id, h, w.timers);
      assert id in ids ==> Belongs(id, g, w.timers);
    }
  }

  /** The pass of the current target is not concerned by another target's entry. */
  lemma PassElsewhere(w: World, p: Pass, g: Target, e': Entry, ids: set<TimerId>)
    requires Good(w, p) && g in w.entries && w.current != Some(g) && ids <= Listed(w.entries[g])
    requires Table(Dropping(w, g, e', ids))
    ensures Good(Dropping(w, g, e', ids), Noted(p, w, g, ids))
  {
    if Running(w) { OthersSurvive(w, g, w.current.value, ids); }
  }

  lemma NotedIsNumbered(w: World, p: Pass, g: Target, ids: set<TimerId>)
    requires Table(w) && Numbered(p, w.nextId) && g in w.entries && ids <= Listed(w.entries[g])
    ensures Numbered(Noted(p, w, g, ids), w.nextId)
  {
    NewIsNowhere(w, g);
  }

  lemma ErasedKeepsTable(w: World, g: Target, i: nat)
    requires Table(w) && g in w.entries && i < |w.entries[g].timers|
    ensures Table(Erased(w, g, i))
  {
    var e := w.entries[g];
    assert Filed(g, w) && e.timers[i] in e.timers;
    WithoutFacts(e.timers, i);
    DroppingKeepsTable(w, g, ErasedEntry(e, i), {e.timers[i]});
  }

  /** The entry of the current target stays, whatever it loses. */
  lemma ErasedCurrent(w: World, g: Target, i: nat)
    requires g in w.entries && i < |w.entries[g].timers| && w.current == Some(g)
    ensures g in Erased(w, g, i).entries && Erased(w, g, i).entries[g] == ErasedEntry(w.entries[g], i)
    ensures forall id :: id in w.timers && id != w.entries[g].timers[i] ==>
              id in Erased(w, g, i).timers && Erased(w, g, i).timers[id] == w.timers[id]
  {
  }

  lemma ErasedKeepsPass(w: World, p: Pass, g: Target, i: nat)
    requires g in w.entries && i < |w.entries[g].timers| && w.current == Some(g) && Increasing(w.entries[g].timers)
    requires PassAt(w.entries[g], w.entries[g].timerIndex, w.timers, p)
    ensures g in Erased(w, g, i).entries
    ensures var e' := Erased(w, g, i).entries[g];
      PassAt(e', e'.timerIndex, Erased(w, g, i).timers, Noted(p, w, g, {w.entries[g].timers[i]}))
  {
    ErasedCurrent(w, g, i);
    PassErased(w.entries[g], i, w.timers, Erased(w, g, i).timers, p);
  }

  lemma ErasedKeeps(w: World, p: Pass, g: Target, i: nat)
    requires Good(w, p) && g in w.entries && i < |w.entries[g].timers|
    ensures Good(Erased(w, g, i), Noted(p, w, g, {w.entries[g].timers[i]}))
  {
    var id := w.entries[g].timers[i];
    assert id in w.entries[g].timers;
    ErasedKeepsTable(w, g, i);
    if w.current == Some(g) {
      NotedIsNumbered(w, p, g, {id});
      assert Filed(g, w);
      if Running(w) { ErasedKeepsPass(w, p, g, i); }
    } else {
      PassElsewhere(w, p, g, ErasedEntry(w.entries[g], i), {id});
    }
  }

  lemma ClearedKeeps(w: World, p: Pass, g: Target)
    requires Good(w, p) && g in w.entries
    ensures Good(Cleared(w, g), Noted(p, w, g, Listed(w.entries[g])))
  {
    var e := w.entries[g];
    assert Filed(g, w);
    DroppingKeepsTable(w, g, ClearedEntry(e), Listed(e));
    if w.current == Some(g) {
      NotedIsNumbered(w, p, g, Listed(e));
      if Running(w) { PassCleared(e, w.timers, Cleared(w, g).timers, p); }
    } else {
      PassElsewhere(w, p, g, ClearedEntry(e), Listed(e));
    }
  }

  // The running timer

  /** What callbacks may change in a timer: its interval and its count. */
  function Core(t: Timer): Timer {
    t.(interval := 0.0, refs := 0)
  }

  /** The running timer, if any, still exists and has not been touched otherwise. */
  predicate SameTurn(w: World, w': World) {
    && w'.current == w.current
    && (Running(w) ==>
          var c := w.current.value;
          && c in w'.entries && w'.entries[c].currentTimer == w.entries[c].currentTimer
          && var id := w.entries[c].currentTimer.value;
             id in w.timers && id in w'.timers && Core(w'.timers[id]) == Core(w.timers[id]))
  }

  lemma ScheduledSameTurn(w: World, op: Op)
    requires op.Schedule? && OpOk(op) && Table(w)
    ensures SameTurn(w, Scheduled(w, op))
  {
    if Running(w) {
      assert Filed(w.current.value, w);
      NewIsNowhere(w, w.current.value);
    }
  }

  lemma DroppingSameTurn(w: World, g: Target, e': Entry, ids: set<TimerId>)
    requires Table(w) && g in w.entries && ids <= Listed(w.entries[g]) && e'.currentTimer == w.entries[g].currentTimer
    ensures SameTurn(w, Dropping(w, g, e', ids))
  {
    if Running(w) {
      var c := w.current.value;
      assert Filed(c, w) && Filed(g, w);
      var id := w.entries[c].currentTimer.value;
      if id in ids { assert Belongs(id, g, w.timers); }
    }
  }

  lemma UnscheduledSameTurn(w: World, key: string, g: Target)
    requires Table(w)
    ensures SameTurn(w, Unscheduled(w, key, g))
  {
    if Finds(w, key, g) {
      var e, i := w.entries[g], Found(w, key, g);
      assert Filed(g, w) && e.timers[i] in e.timers;
      DroppingSameTurn(w, g, ErasedEntry(e, i), {e.timers[i]});
    } else if Running(w) {
      assert Filed(w.current.value, w);
    }
  }

  lemma SameTurnReflexive(w: World)
    requires Table(w)
    ensures SameTurn(w, w)
  {
    if Running(w) { assert Filed(w.current.value, w); }
  }

  lemma SameTurnTransitive(w: World, w1: World, w2: World)
    requires SameTurn(w, w1) && SameTurn(w1, w2)
    ensures SameTurn(w, w2)
  {
  }

  /** A callback may drop timers from the pass, but takes no turn. */
  predicate SamePass(p: Pass, p': Pass) {
    p'.turns == p.turns && p'.listed == p.listed && p'.first == p.first
  }

  function Paused(w: World, g: Target, paused: bool): World {
    if g in w.entries then w.(entries := w.entries[g := w.entries[g].(paused := paused)]) else w
  }

  lemma PausedKeeps(w: World, p: Pass, g: Target, paused: bool)
    requires Good(w, p)
    ensures Good(Paused(w, g, paused), p) && SameTurn(w, Paused(w, g, paused))
  {
    var w' := Paused(w, g, paused);
    SameTurnReflexive(w);
    forall h ensures Filed(h, w') { assert Filed(h, w); }
    forall x ensures Known(x, w') { assert Known(x, w); }
  }

  // The turns of a pass

  predicate SameOwner(t: Timer, t': Timer) {
    t'.target == t.target && t'.key == t.key && t'.refs == t.refs
  }

  /** The same timer is running, and exists. */
  predicate SameRun(w: World, w': World) {
    Running(w) && w'.current == w.current && Running(w') && RunningId(w') == RunningId(w) && RunningId(w) in w'.timers
  }

  lemma RunningExists(w: World)
    requires Table(w) && Running(w)
    ensures RunningId(w) in w.timers && w.timers[RunningId(w)].target == w.current.value
    ensures Known(RunningId(w), w)
  {
    assert Filed(w.current.value, w);
  }

  lemma AdvancedTwice(w: World, t: Timer, t': Timer)
    requires Running(w)
    ensures Advanced(Advanced(w, t), t') == Advanced(w, t')
  {
  }

  lemma AdvancedKeeps(w: World, p: Pass, t: Timer)
    requires Good(w, p) && Running(w) && RunningId(w) in w.timers
    requires SameOwner(w.timers[RunningId(w)], t) && Tickable(t)
    ensures Good(Advanced(w, t), p)
  {
    var w' := Advanced(w, t);
    forall h ensures Filed(h, w') {
      assert Filed(h, w);
      if h in w.entries { EntryKept(h, w.entries[h], w.timers, w'.timers); }
    }
    forall x ensures Known(x, w') { assert Known(x, w); }
  }

  lemma TurnAdded(e: Entry, timers: map<TimerId, Timer>, p: Pass)
    requires Increasing(e.timers) && Increasing(p.turns)
    requires 0 <= e.timerIndex < |e.timers| && PassAt(e, e.timerIndex - 1, timers, p)
    ensures var p' := p.(turns := p.turns + [e.timers[e.timerIndex]]);
      PassAt(e, e.timerIndex, timers, p') && Increasing(p'.turns)
  {
    var id := e.timers[e.timerIndex];
    assert id in e.timers;
    assert forall x :: x in p.turns + [id] <==> x in p.turns || x == id;
  }

  lemma TurnBegunKeeps(w: World, p: Pass)
    requires Table(w) && Numbered(p, w.nextId) && w.current.Some? && !Running(w)
    requires var e := w.entries[w.current.value];
      0 <= e.timerIndex < |e.timers| && PassAt(e, e.timerIndex - 1, w.timers, p)
    ensures var e := w.entries[w.current.value];
      Good(TurnBegun(w), p.(turns := p.turns + [e.timers[e.timerIndex]]))
  {
    var g := w.current.value;
    var e, w' := w.entries[g], TurnBegun(w);
    var id := e.timers[e.timerIndex];
    assert Filed(g, w) && id in e.timers;
    assert Belongs(id, g, w.timers);
    forall h ensures Filed(h, w') { assert Filed(h, w); }
    forall x ensures Known(x, w') { assert Known(x, w); }
    NewIsNowhere(w, g);
    TurnAdded(e, w.timers, p);
  }

  lemma TurnEndedKeeps(w: World, p: Pass)
    requires Good(w, p) && Running(w)
    ensures Table(TurnEnded(w)) && !Running(TurnEnded(w))
    ensures var e := w.entries[w.current.value]; PassAt(e, e.timerIndex, TurnEnded(w).timers, p)
  {
    var g, id := w.current.value, RunningId(w);
    var e, w' := w.entries[g], TurnEnded(w);
    assert Filed(g, w) && Known(id, w);
    forall h ensures Filed(h, w') {
      assert Filed(h, w);
      if h in w.entries && h != g {
        forall x | x in w.entries[h].timers ensures Belongs(x, h, w'.timers) { assert Belongs(x, h, w.timers); }
        EntryKept(h, w.entries[h], w.timers, w'.timers);
      }
    }
    forall x ensures Known(x, w') { assert Known(x, w); }
  }

  lemma LeftKeeps(w: World, p: Pass)
    requires Table(w) && Numbered(p, w.nextId) && w.current.Some? && !Running(w)
    ensures Good(Left(w), p)
  {
    var g, w' := w.current.value, Left(w);
    assert Filed(g, w);
    forall h ensures Filed(h, w') { assert Filed(h, w); }
    forall x ensures Known(x, w') { assert Known(x, w); }
  }

  lemma EnteredKeeps(w: World, g: Target)
    requires Table(w) && w.current == None && g in w.entries
    ensures Table(w.(current := Some(g), salvaged := false)) && !Running(w.(current := Some(g), salvaged := false))
  {
    var w' := w.(current := Some(g), salvaged := false);
    assert Filed(g, w);
    forall h ensures Filed(h, w') { assert Filed(h, w); }
    forall x ensures Known(x, w') { assert Known(x, w); }
  }

  /** Moving the pass position concerns nobody while no timer runs. */
  lemma IndexKeeps(w: World, g: Target, i: int)
    requires Table(w) && g in w.entries && !Running(w) && w.current == Some(g)
    ensures var w' := w.(entries := w.entries[g := w.entries[g].(timerIndex := i)]); Table(w') && !Running(w')
  {
    var w' := w.(entries := w.entries[g := w.entries[g].(timerIndex := i)]);
    forall h ensures Filed(h, w') { assert Filed(h, w); }
    forall x ensures Known(x, w') { assert Known(x, w); }
  }

  /** A walk starts with nothing done, and everything listed older than it. */
  lemma WalkStarts(w: World, g: Target)
    requires Table(w) && w.current == Some(g) && !Running(w) && g in w.entries
    ensures var e := w.entries[g]; var p := Pass([], {}, e.timers, w.nextId);
      var w' := w.(entries := w.entries[g := e.(timerIndex := 0)]);
      Good(w', p) && !Running(w') && PassAt(e.(timerIndex := 0), -1, w.timers, p)
  {
    IndexKeeps(w, g, 0);
    NewIsNowhere(w, g);
    var l := w.entries[g].timers;
    assert forall k :: 0 <= k < |l| ==> l[k] in l;
  }

  lemma TurnIsNew(e: Entry, timers: map<TimerId, Timer>, p: Pass)
    requires 0 <= e.timerIndex < |e.timers| && PassAt(e, e.timerIndex - 1, timers, p) && Increasing(p.turns)
    ensures var id := e.timers[e.timerIndex];
      id !in p.turns && (id !in p.listed ==> id in timers && timers[id].elapsed == -1.0)
  {
    assert e.timers[e.timerIndex] in e.timers;
  }

  /** A salvaged timer is kept by the salvage alone. */
  lemma SalvagedRefs(w: World)
    requires Table(w) && Running(w)
    ensures var id := RunningId(w); id in w.timers && w.timers[id].refs == 1
  {
    RunningExists(w);
    assert Filed(w.current.value, w);
  }

  /** What is true of a finished walk over the timers in `list`. */
  predicate WalkReport(p: Pass, list: seq<TimerId>) {
    && Increasing(p.turns)
    && forall id :: id in list ==> (id in p.turns <==> id !in p.dropped)
  }

  /** At the end of a walk each listed timer has had its turn or was dropped before it. */
  lemma WalkIsComplete(e: Entry, i: int, timers: map<TimerId, Timer>, p: Pass, nextId: nat)
    requires PassAt(e, i, timers, p) && Numbered(p, nextId) && i >= |e.timers| - 1
    ensures WalkReport(p, p.listed)
  {
    forall id | id in p.listed && id in e.timers ensures id in p.turns {
      var k :| 0 <= k < |e.timers| && e.timers[k] == id;
    }
  }

  /** The listed timers that have not had a turn. */
  function Waiting(p: Pass): set<TimerId> {
    (set x | x in p.listed) - (set x | x in p.turns)
  }

  /** The pass has gone on by a turn of timer `id`, which is its first. */
  predicate OneTurn(p: Pass, p': Pass, id: TimerId) {
    id !in p.turns && p'.turns == p.turns + [id] && p'.listed == p.listed && p'.first == p.first
  }

  lemma TurnLessens(p: Pass, p': Pass, id: TimerId)
    requires OneTurn(p, p', id)
    ensures if id in p.listed then Waiting(p') < Waiting(p) else Waiting(p') == Waiting(p)
  {
    assert forall x :: x in p'.turns <==> x in p.turns || x == id;
    if id in p.listed { assert id in Waiting(p) && id !in Waiting(p'); }
  }

  /** Between two calls from outside: every entry is filed under the target of its timers, with at least
      one timer and distinct keys, and every timer that exists is on the list of its target and owned by
      that list alone. */
  lemma BetweenCalls(w: World, p: Pass)
    requires Good(w, p) && w.current == None
    ensures forall g :: g in w.entries ==>
              && w.entries[g].timers != []
              && (forall id :: id in w.entries[g].timers ==> id in w.timers && w.timers[id].target == g)
              && KeysDistinct(w.entries[g].timers, w.timers)
    ensures forall id :: id in w.timers ==>
              && w.timers[id].target in w.entries
              && id in w.entries[w.timers[id].target].timers
              && w.timers[id].refs == 1
  {
    forall g | g in w.entries
      ensures w.entries[g].timers != [] && w.entries[g].currentTimer == None
      ensures forall id :: id in w.entries[g].timers ==> id in w.timers && w.timers[id].target == g
      ensures KeysDistinct(w.entries[g].timers, w.timers)
    {
      assert Filed(g, w);
      forall id | id in w.entries[g].timers ensures id in w.timers && w.timers[id].target == g {
        assert Belongs(id, g, w.timers);
      }
    }
    forall id | id in w.timers
      ensures w.timers[id].target in w.entries && id in w.entries[w.timers[id].target].timers && w.timers[id].refs == 1
    {
      assert Known(id, w);
    }
  }
}
