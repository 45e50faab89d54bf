/** The registry of playing sounds in cocos/audio/AudioEngine.cpp: three indexes that must agree. */
module Audio {

  import opened Wrappers

  const INVALID_AUDIO_ID: int := -1

  datatype AudioState = Error | Initializing | Playing | Paused

  /** Whose list a sound is counted in: the default profile's, or that of a profile with a name. */
  datatype Helper = Default | Named(name: string)

  datatype ProfileHelper = ProfileHelper(maxInstances: nat, audioIDs: seq<int>)

  datatype Info = Info(filePath: string, helper: Option<Helper>, loop: bool, volume: real, state: AudioState)

  type Infos = map<int, Info>
  type Lists = map<string, seq<int>>
  type Helpers = map<Helper, ProfileHelper>

  // ---- The agreement of the indexes ----

  /** A path's list names exactly the sounds of that path, each once. */
  ghost predicate PathAgrees(infos: Infos, ids: seq<int>, path: string) {
    forall id: int :: Times(ids, id) == if id in infos && infos[id].filePath == path then 1 else 0
  }

  ghost predicate HelperAgrees(infos: Infos, ids: seq<int>, h: Helper) {
    forall id: int :: Times(ids, id) == if id in infos && infos[id].helper == Some(h) then 1 else 0
  }

  ghost predicate Agree(infos: Infos, lists: Lists, helpers: Helpers) {
    && (forall id :: id in infos ==> infos[id].filePath in lists)
    && (forall id :: id in infos && infos[id].helper.Some? ==> infos[id].helper.value in helpers)
    && (forall path :: path in lists ==> PathAgrees(infos, lists[path], path))
    && (forall h :: h in helpers ==> HelperAgrees(infos, helpers[h].audioIDs, h))
  }

  // ---- What the operations do ----

  function Dropped(helpers: Helpers, helper: Option<Helper>, id: int): Helpers {
    if helper.Some? && helper.value in helpers
    then var h := helpers[helper.value];
      helpers[helper.value := h.(audioIDs := Purged(h.audioIDs, id))]
    else helpers
  }

  function Members(ids: seq<int>): set<int> {
    set id | id in ids
  }

  /** The states of the sounds in `ids` that are in state `before` become `after`. */
  function Switched(infos: Infos, ids: set<int>, before: AudioState, after: AudioState): Infos {
    map id | id in infos :: if id in ids && infos[id].state == before then infos[id].(state := after) else infos[id]
  }

  lemma SwitchedAgrees(infos: Infos, ids: set<int>, before: AudioState, after: AudioState, lists: Lists,
                       helpers: Helpers)
    requires Agree(infos, lists, helpers)
    ensures Agree(Switched(infos, ids, before, after), lists, helpers)
  {
    var more := Switched(infos, ids, before, after);
    forall path | path in lists ensures PathAgrees(more, lists[path], path) {
      assert PathAgrees(infos, lists[path], path);
    }
    forall h | h in helpers ensures HelperAgrees(more, helpers[h].audioIDs, h) {
      assert HelperAgrees(infos, helpers[h].audioIDs, h);
    }
  }

  lemma SwitchedMore(infos: Infos, done: set<int>, id: int, before: AudioState, after: AudioState)
    requires id in infos && id !in done
    ensures var was := Switched(infos, done, before, after);
      && was[id] == infos[id]
      && Switched(infos, done + {id}, before, after)
         == if infos[id].state == before then was[id := infos[id].(state := after)] else was
  {}

  /** A sound that is gone, or has been dealt with, is not touched again. */
  lemma SwitchedAgain(infos: Infos, done: set<int>, id: int, before: AudioState, after: AudioState)
    requires before != after
    ensures var was := Switched(infos, done, before, after);
      Switched(infos, done + {id}, before, after)
      == if id in was && was[id].state == before then was[id := was[id].(state := after)] else was
  {
    if id in infos && id !in done {
      SwitchedMore(infos, done, id, before, after);
    } else {
      assert Switched(infos, done + {id}, before, after) == Switched(infos, done, before, after);
    }
  }

  /** `ids` names exactly the sounds of `done` in that state, each once. */
  ghost predicate ListsThose(ids: seq<int>, infos: Infos, done: set<int>, state: AudioState) {
    forall id: int :: Times(ids, id) == if id in infos && id in done && infos[id].state == state then 1 else 0
  }

  /** How far a loop has come that switches sounds and lists them. */
  ghost predicate SwitchStands(infos: Infos, now: Infos, switched: seq<int>, done: set<int>, before: AudioState,
                               after: AudioState)
  {
    now == Switched(infos, done, before, after) && ListsThose(switched, infos, done, before)
  }

  lemma SwitchBegins(infos: Infos, before: AudioState, after: AudioState)
    ensures SwitchStands(infos, infos, [], {}, before, after)
  {
    assert Switched(infos, {}, before, after) == infos;
  }

  lemma ListedMore(ids: seq<int>, infos: Infos, done: set<int>, id: int, state: AudioState)
    requires id in infos && id !in done && ListsThose(ids, infos, done, state)
    ensures ListsThose(if infos[id].state == state then ids + [id] else ids, infos, done + {id}, state)
  {
    forall x: int ensures Times(ids + [id], x) == Times(ids, x) + (if id == x then 1 else 0) {
      TimesAppend(ids, id, x);
    }
  }

  lemma RemovedAgrees(infos: Infos, lists: Lists, helpers: Helpers, id: int)
    requires Agree(infos, lists, helpers) && id in infos
    ensures var path := infos[id].filePath;
      Agree(infos - {id}, lists[path := Purged(lists[path], id)], Dropped(helpers, infos[id].helper, id))
  {
    var own := infos[id].filePath;
    var fewer, shorter := infos - {id}, lists[own := Purged(lists[own], id)];
    var dropped := Dropped(helpers, infos[id].helper, id);
    forall path | path in shorter ensures PathAgrees(fewer, shorter[path], path) {
      assert PathAgrees(infos, lists[path], path);
      forall x: int ensures Times(Purged(lists[own], id), x) == if x == id then 0 else Times(lists[own], x) {
        TimesPurged(lists[own], id, x);
      }
    }
    forall h | h in dropped ensures HelperAgrees(fewer, dropped[h].audioIDs, h) {
      assert HelperAgrees(infos, helpers[h].audioIDs, h);
      var ids := helpers[h].audioIDs;
      forall x: int ensures Times(Purged(ids, id), x) == if x == id then 0 else Times(ids, x) {
        TimesPurged(helpers[h].audioIDs, id, x);
      }
    }
  }

  /** The sounds that are counted for a profile. */
  function SoundsOf(infos: Infos, h: Helper): set<int> {
    set id | id in infos && infos[id].helper == Some(h)
  }

  lemma {:induction false} ListSize(ids: seq<int>, those: set<int>)
    requires forall id: int :: Times(ids, id) == if id in those then 1 else 0
    ensures |ids| == |those|
  {
    if ids == [] {
      forall id: int ensures id !in those {
        assert Times(ids, id) == 0;
      }
      assert those == {};
    } else {
      var x := ids[0];
      assert Times(ids, x) == 1;
      forall id: int ensures Times(ids[1..], id) == if id in those - {x} then 1 else 0 {
        assert Times(ids, id) == if id in those then 1 else 0;
      }
      ListSize(ids[1..], those - {x});
      assert those == (those - {x}) + {x};
    }
  }

  /** The list of a profile is as long as it has sounds. */
  lemma HelperCounts(infos: Infos, ids: seq<int>, h: Helper)
    requires HelperAgrees(infos, ids, h)
    ensures |ids| == |SoundsOf(infos, h)|
  {
    forall id: int ensures Times(ids, id) == if id in SoundsOf(infos, h) then 1 else 0 {
    }
    ListSize(ids, SoundsOf(infos, h));
  }

  function Filed(lists: Lists, path: string, id: int): Lists {
    lists[path := (if path in lists then lists[path] else []) + [id]]
  }

  function Counted(helpers: Helpers, helper: Option<Helper>, id: int): Helpers {
    if helper.Some? && helper.value in helpers
    then var h := helpers[helper.value];
      helpers[helper.value := h.(audioIDs := h.audioIDs + [id])]
    else helpers
  }

  lemma FiledAgrees(infos: Infos, lists: Lists, id: int, info: Info, path: string)
    requires id !in infos && (forall x :: x in infos ==> infos[x].filePath in lists)
    requires path in lists ==> PathAgrees(infos, lists[path], path)
    requires path in Filed(lists, info.filePath, id)
    ensures PathAgrees(infos[id := info], Filed(lists, info.filePath, id)[path], path)
  {
    var was := if path in lists then lists[path] else [];
    forall x: int ensures Times(was + [id], x) == Times(was, x) + (if id == x then 1 else 0) {
      TimesAppend(was, id, x);
    }
  }

  lemma CountedAgrees(infos: Infos, helpers: Helpers, id: int, info: Info, h: Helper)
    requires id !in infos && h in helpers && HelperAgrees(infos, helpers[h].audioIDs, h)
    ensures HelperAgrees(infos[id := info], Counted(helpers, info.helper, id)[h].audioIDs, h)
  {
    var was := helpers[h].audioIDs;
    forall x: int ensures Times(was + [id], x) == Times(was, x) + (if id == x then 1 else 0) {
      TimesAppend(was, id, x);
    }
  }

  lemma AddedAgrees(infos: Infos, lists: Lists, helpers: Helpers, id: int, info: Info)
    requires Agree(infos, lists, helpers) && id !in infos
    requires info.helper.Some? ==> info.helper.value in helpers
    ensures Agree(infos[id := info], Filed(lists, info.filePath, id), Counted(helpers, info.helper, id))
  {
    var more, longer := infos[id := info], Filed(lists, info.filePath, id);
    var counted := Counted(helpers, info.helper, id);
    forall path | path in longer ensures PathAgrees(more, longer[path], path) {
      FiledAgrees(infos, lists, id, info, path);
    }
    forall h | h in counted ensures HelperAgrees(more, counted[h].audioIDs, h) {
      CountedAgrees(infos, helpers, id, info, h);
    }
  }

  /** What `uncache` leaves: neither the sounds of the path nor its list. */
  function Uncached(infos: Infos, path: string): Infos {
    map id | id in infos && infos[id].filePath != path :: infos[id]
  }

  // ---- Removal and sizes ----

  /**
   * When the engine comes back, it makes play exactly the paused sounds that were playing when it
   * left; so a sound that the program pauses meanwhile stays paused only if it was not playing then.
   */
  lemma ForegroundResumes(infos: Infos, breaks: seq<int>, later: Infos, id: int)
    requires ListsThose(breaks, infos, infos.Keys, Playing) && id in infos && id in later
    ensures var after := Switched(later, Members(breaks), Paused, Playing);
      && (after[id] != later[id] <==> later[id].state == Paused && infos[id].state == Playing)
      && (after[id] != later[id] ==> after[id] == later[id].(state := Playing))
  {
    TimesPositive(breaks, id);
  }

  lemma SwitchedAt(infos: Infos, ids: set<int>, before: AudioState, after: AudioState, id: int)
    requires id in infos
    ensures var switched := Switched(infos, ids, before, after);
      id in switched && switched[id].state == if id in ids && infos[id].state == before then after else infos[id].state
  {
  }

  lemma SameSize(a: Infos, b: Infos)
    requires a.Keys == b.Keys
    ensures |a| == |b|
  {
    assert |a| == |a.Keys| && |b| == |b.Keys|;
  }

  lemma SubsetSize(s: set<int>, t: set<int>)
    requires s <= t
    ensures |s| <= |t|
  {
    assert t == s + (t - s);
  }

  lemma Smaller(a: Infos, b: Infos)
    requires a.Keys <= b.Keys
    ensures |a| <= |b|
  {
    SubsetSize(a.Keys, b.Keys);
    assert |a| == |a.Keys| && |b| == |b.Keys|;
  }

  lemma ThosePath(infos: Infos, ids: seq<int>, path: string)
    requires PathAgrees(infos, ids, path)
    ensures forall id: int :: id in ids <==> id in infos && infos[id].filePath == path
  {
    forall id: int ensures id in ids <==> id in infos && infos[id].filePath == path {
      TimesPositive(ids, id);
    }
  }

  lemma AllUncached(infos: Infos, done: set<int>, ids: seq<int>, path: string)
    requires PathAgrees(infos, ids, path) && forall id: int :: id in done <==> id in ids
    ensures infos - done == Uncached(infos, path)
  {
    ThosePath(infos, ids, path);
    forall id: int ensures id in infos - done <==> id in Uncached(infos, path) {
      assert id in ids <==> id in infos && infos[id].filePath == path;
    }
  }

  lemma NothingUncached(infos: Infos, lists: Lists, path: string)
    requires path !in lists && forall id :: id in infos ==> infos[id].filePath in lists
    ensures Uncached(infos, path) == infos
  {
    forall id: int ensures id in infos <==> id in Uncached(infos, path) {
      assert id in infos ==> infos[id].filePath in lists;
    }
  }

  /** Agreement but for the list of one path. */
  ghost predicate AgreeBut(infos: Infos, lists: Lists, helpers: Helpers, path: string) {
    && (forall id :: id in infos ==> infos[id].filePath in lists)
    && (forall id :: id in infos && infos[id].helper.Some? ==> infos[id].helper.value in helpers)
    && (forall p :: p in lists && p != path ==> PathAgrees(infos, lists[p], p))
    && (forall h :: h in helpers ==> HelperAgrees(infos, helpers[h].audioIDs, h))
  }

  lemma DroppedAgrees(infos: Infos, helpers: Helpers, id: int)
    requires id in infos && (infos[id].helper.Some? ==> infos[id].helper.value in helpers)
    requires forall h :: h in helpers ==> HelperAgrees(infos, helpers[h].audioIDs, h)
    ensures var dropped := Dropped(helpers, infos[id].helper, id);
      && dropped.Keys == helpers.Keys
      && (forall h :: h in helpers ==> HelperAgrees(infos - {id}, dropped[h].audioIDs, h))
      && (forall h :: h in helpers ==> dropped[h].maxInstances == helpers[h].maxInstances)
  {
    var dropped := Dropped(helpers, infos[id].helper, id);
    forall h | h in helpers ensures HelperAgrees(infos - {id}, dropped[h].audioIDs, h) {
      assert HelperAgrees(infos, helpers[h].audioIDs, h);
      var ids := helpers[h].audioIDs;
      forall x: int ensures Times(Purged(ids, id), x) == if x == id then 0 else Times(ids, x) {
        TimesPurged(helpers[h].audioIDs, id, x);
      }
    }
  }

  lemma RemovedAgreesBut(infos: Infos, lists: Lists, helpers: Helpers, id: int, path: string, list: seq<int>)
    requires AgreeBut(infos, lists, helpers, path) && id in infos && infos[id].filePath == path
    ensures AgreeBut(infos - {id}, lists[path := list], Dropped(helpers, infos[id].helper, id), path)
  {
    DroppedAgrees(infos, helpers, id);
    forall p | p in lists && p != path ensures PathAgrees(infos - {id}, lists[p], p) {
      assert PathAgrees(infos, lists[p], p);
    }
  }

  // ---- Calls ----

  /** What can happen to the registry, with the answers of the backend. */
  datatype Call =
    | Play(path: string, loop: bool, volume: real, profile: Option<(string, nat)>,
           fileExists: bool, tooSoon: bool, backendID: int)
    | AskDefault
    | Began(id: int)
    | PauseOne(id: int)
    | ResumeOne(id: int)
    | PauseEvery
    | ResumeEvery
    | Background
    | Foreground
    | StopOne(id: int, removesAtOnce: bool)
    | Finished(id: int)
    | StopEvery(removedAtOnce: seq<int>)
    | UncachePath(path: string, removes: int -> bool)
    | SetMax(n: int)

  /** The call is about the sound `id` of the given path, or about all sounds. */
  predicate Touches(call: Call, id: int, path: string) {
    match call
    case Play(_, _, _, _, _, _, _) => false
    case AskDefault => false
    case Began(x) => x == id
    case PauseOne(x) => x == id
    case ResumeOne(x) => x == id
    case StopOne(x, _) => x == id
    case Finished(x) => x == id
    case UncachePath(p, _) => p == path
    case SetMax(_) => false
    case _ => true
  }

  /** What the call makes of a sound that there is; `breaks` were playing when the engine went to the background. */
  function Fate(call: Call, breaks: seq<int>, id: int, info: Info): Option<Info> {
    match call
    case Began(x) => Some(if x == id then info.(state := Playing) else info)
    case PauseOne(x) => Some(if x == id && info.state == Playing then info.(state := Paused) else info)
    case ResumeOne(x) => Some(if x == id && info.state == Paused then info.(state := Playing) else info)
    case PauseEvery => Some(if info.state == Playing then info.(state := Paused) else info)
    case Background => Some(if info.state == Playing then info.(state := Paused) else info)
    case ResumeEvery => Some(if info.state == Paused then info.(state := Playing) else info)
    case Foreground => Some(if id in breaks && info.state == Paused then info.(state := Playing) else info)
    case StopOne(x, _) => if x == id then None else Some(info)
    case Finished(x) => if x == id then None else Some(info)
    case StopEvery(_) => None
    case UncachePath(path, _) => if info.filePath == path then None else Some(info)
    case _ => Some(info)
  }

  /** A new sound stems from this call; a profile that was passed with a limit had a place left for it. */
  predicate IsNew(call: Call, infos: Infos, id: int, info: Info) {
    && call.Play? && id == call.backendID && info.filePath == call.path && info.state == Initializing
    && match call.profile
       case None => info.helper == None || info.helper == Some(Default)
       case Some((name, most)) =>
         info.helper == Some(Named(name)) && (most == 0 || |SoundsOf(infos, Named(name))| < most)
  }

  /** What the call makes of all sounds, and of the list of the interrupted ones. */
  ghost predicate Performed(call: Call, infos: Infos, breaks: seq<int>, infos': Infos, breaks': seq<int>) {
    && (forall id: int :: id in infos ==>
          match Fate(call, breaks, id, infos[id])
          case None => id !in infos'
          case Some(info) => id in infos' && infos'[id] == info)
    && (forall id: int :: id in infos' && id !in infos ==> IsNew(call, infos, id, infos'[id]))
    && (call.Background? ==>
          forall id: int :: id in breaks' <==> id in breaks || (id in infos && infos[id].state == Playing))
    && (call.Foreground? ==> breaks' == [])
    && (call.Background? || call.Foreground? || breaks' == breaks)
  }

  /** A sound that the call is not about is as it was. */
  ghost predicate Kept(infos: Infos, infos': Infos, call: Call) {
    forall id: int :: id in infos && !Touches(call, id, infos[id].filePath) ==> id in infos' && infos'[id] == infos[id]
  }

  // How the operations come to that.

  lemma OnePerformed(call: Call, infos: Infos, breaks: seq<int>)
    ensures call.PauseOne? ==> Performed(call, infos, breaks, Switched(infos, {call.id}, Playing, Paused), breaks)
    ensures call.ResumeOne? ==> Performed(call, infos, breaks, Switched(infos, {call.id}, Paused, Playing), breaks)
  {
  }

  lemma AllPerformed(call: Call, infos: Infos, breaks: seq<int>)
    ensures call.PauseEvery? ==> Performed(call, infos, breaks, Switched(infos, infos.Keys, Playing, Paused), breaks)
    ensures call.ResumeEvery? ==> Performed(call, infos, breaks, Switched(infos, infos.Keys, Paused, Playing), breaks)
  {
  }

  lemma LeavingPerformed(call: Call, infos: Infos, breaks: seq<int>, breaks': seq<int>)
    requires call.Background?
    requires forall id: int :: id in breaks' <==> id in breaks || (id in infos && infos[id].state == Playing)
    ensures Performed(call, infos, breaks, Switched(infos, infos.Keys, Playing, Paused), breaks')
  {
  }

  lemma ReturningPerformed(call: Call, infos: Infos, breaks: seq<int>)
    requires call.Foreground?
    ensures Performed(call, infos, breaks, Switched(infos, Members(breaks), Paused, Playing), [])
  {
  }

  lemma RemovalPerformed(call: Call, infos: Infos, breaks: seq<int>)
    requires call.StopOne? || call.Finished?
    ensures Performed(call, infos, breaks, infos - {call.id}, breaks)
  {
  }

  lemma RemovalsPerformed(call: Call, infos: Infos, breaks: seq<int>)
    ensures call.StopEvery? ==> Performed(call, infos, breaks, map[], breaks)
    ensures call.UncachePath? ==> Performed(call, infos, breaks, Uncached(infos, call.path), breaks)
  {
  }

  lemma PerformedKeeps(call: Call, infos: Infos, breaks: seq<int>, infos': Infos, breaks': seq<int>)
    requires Performed(call, infos, breaks, infos', breaks')
    ensures Kept(infos, infos', call)
  {
    forall id: int | id in infos && !Touches(call, id, infos[id].filePath)
      ensures Fate(call, breaks, id, infos[id]) == Some(infos[id])
    {
    }
  }

  /** The registry and the list of the interrupted sounds before each of the calls, and after the last one. */
  ghost predicate History(calls: seq<Call>, infos: seq<Infos>, breaks: seq<seq<int>>) {
    && |infos| == |breaks| == |calls| + 1
    && forall k :: 0 <= k < |calls| ==> Performed(calls[k], infos[k], breaks[k], infos[k + 1], breaks[k + 1])
  }

  lemma HistoryMore(calls: seq<Call>, infos: seq<Infos>, breaks: seq<seq<int>>, i: nat, now: Infos, nowBreaks: seq<int>)
    requires i < |calls| && History(calls[..i], infos, breaks)
    requires Performed(calls[i], infos[i], breaks[i], now, nowBreaks)
    ensures History(calls[..i + 1], infos + [now], breaks + [nowBreaks])
  {
    var infos', breaks', done := infos + [now], breaks + [nowBreaks], calls[..i + 1];
    forall k | 0 <= k < i + 1 ensures Performed(done[k], infos'[k], breaks'[k], infos'[k + 1], breaks'[k + 1]) {
      assert k < i ==> done[k] == calls[..i][k];
    }
  }

  lemma {:induction false} NotInterrupted(calls: seq<Call>, infos: seq<Infos>, breaks: seq<seq<int>>, n: nat)
    requires History(calls, infos, breaks) && n <= |calls|
    requires forall k :: 0 <= k < |calls| ==> !calls[k].Background? && !calls[k].Foreground?
    ensures breaks[n] == breaks[0]
  {
    if n > 0 {
      NotInterrupted(calls, infos, breaks, n - 1);
      assert Performed(calls[n - 1], infos[n - 1], breaks[n - 1], infos[n], breaks[n]);
    }
  }

  /** A profile that is always passed with a limit of at most `most`. */
  predicate Limited(calls: seq<Call>, name: string, most: nat) {
    forall k :: 0 <= k < |calls| && calls[k].Play? && calls[k].profile.Some? && calls[k].profile.value.0 == name ==>
      0 < calls[k].profile.value.1 <= most
  }

  lemma NoMoreThanLimit(call: Call, infos: Infos, breaks: seq<int>, infos': Infos, breaks': seq<int>, name: string,
                        most: nat)
    requires Performed(call, infos, breaks, infos', breaks') && Limited([call], name, most)
    requires |SoundsOf(infos, Named(name))| <= most
    ensures |SoundsOf(infos', Named(name))| <= most
  {
    var were, are := SoundsOf(infos, Named(name)), SoundsOf(infos', Named(name));
    assert [call][0] == call;
    forall id: int | id in are ensures id in were || IsNew(call, infos, id, infos'[id]) {
      if id in infos {
        assert Fate(call, breaks, id, infos[id]).value == infos'[id];
      }
    }
    if call.Play? && call.backendID in are && call.backendID !in were {
      assert IsNew(call, infos, call.backendID, infos'[call.backendID]);
      SubsetSize(are, were + {call.backendID});
    } else {
      SubsetSize(are, were);
    }
  }

  /** Over every run, such a profile has at most that many sounds. */
  lemma {:induction false} ProfileLimitHolds(calls: seq<Call>, infos: seq<Infos>, breaks: seq<seq<int>>, name: string,
                                             most: nat, k: nat)
    requires History(calls, infos, breaks) && Limited(calls, name, most) && k <= |calls|
    requires |SoundsOf(infos[0], Named(name))| <= most
    ensures |SoundsOf(infos[k], Named(name))| <= most
  {
    if k > 0 {
      ProfileLimitHolds(calls, infos, breaks, name, most, k - 1);
      NoMoreThanLimit(calls[k - 1], infos[k - 1], breaks[k - 1], infos[k], breaks[k], name, most);
    }
  }

  /** A sound that has been stopped or has finished is gone, until the backend answers with its id again. */
  lemma {:induction false} GoneIsGone(calls: seq<Call>, infos: seq<Infos>, breaks: seq<seq<int>>, id: int, k: nat,
                                      n: nat)
    requires History(calls, infos, breaks) && k < n <= |calls|
    requires (calls[k].StopOne? || calls[k].Finished?) && calls[k].id == id
    requires forall j :: k < j < n && calls[j].Play? ==> calls[j].backendID != id
    ensures id !in infos[n]
    decreases n
  {
    if k + 1 < n {
      GoneIsGone(calls, infos, breaks, id, k, n - 1);
    }
    assert Performed(calls[n - 1], infos[n - 1], breaks[n - 1], infos[n], breaks[n]);
  }

  /** None of the calls is about the sound `id` of the given path. */
  predicate Spares(calls: seq<Call>, id: int, path: string) {
    forall k :: 0 <= k < |calls| ==> !Touches(calls[k], id, path)
  }

  /** Every sound that none of the calls is about is as it was. */
  ghost predicate Untouched(infos: Infos, infos': Infos, calls: seq<Call>) {
    forall id: int :: id in infos && Spares(calls, id, infos[id].filePath) ==> id in infos' && infos'[id] == infos[id]
  }

  lemma UntouchedMore(infos: Infos, mid: Infos, after: Infos, calls: seq<Call>, i: nat)
    requires i < |calls| && Untouched(infos, mid, calls[..i]) && Kept(mid, after, calls[i])
    ensures Untouched(infos, after, calls[..i + 1])
  {
    forall id: int | id in infos && Spares(calls[..i + 1], id, infos[id].filePath)
      ensures id in after && after[id] == infos[id]
    {
      assert calls[..i + 1][i] == calls[i];
      assert forall k :: 0 <= k < i ==> calls[..i][k] == calls[..i + 1][k];
      assert Spares(calls[..i], id, infos[id].filePath);
    }
  }

  /** What the way to the background and back makes of the sounds that are left alone in between. */
  lemma BackAgain(infos: Infos, paused: Infos, later: Infos, after: Infos, ids: set<int>, calls: seq<Call>)
    requires paused == Switched(infos, infos.Keys, Playing, Paused) && Untouched(paused, later, calls)
    requires forall id: int :: id in ids <==> id in infos && infos[id].state == Playing
    requires after == Switched(later, ids, Paused, Playing)
    ensures Untouched(infos, after, calls)
  {
    forall id: int | id in infos && Spares(calls, id, infos[id].filePath)
      ensures id in after && after[id] == infos[id]
    {
      assert paused[id].filePath == infos[id].filePath;
      assert later[id] == paused[id];
    }
  }

  // ---- The limit ----

  /** The limit after a call. */
  function Limit(limit: nat, call: Call, maxPossible: nat): nat {
    if call.SetMax? && 0 < call.n <= maxPossible then call.n else limit
  }

  function LimitAfter(limit: nat, calls: seq<Call>, maxPossible: nat): nat {
    if calls == [] then limit
    else Limit(LimitAfter(limit, calls[..|calls| - 1], maxPossible), calls[|calls| - 1], maxPossible)
  }

  /** The highest limit there has been. */
  function HighestLimit(limit: nat, calls: seq<Call>, maxPossible: nat): nat {
    if calls == [] then limit
    else
      var now, before := LimitAfter(limit, calls, maxPossible), HighestLimit(limit, calls[..|calls| - 1], maxPossible);
      if now > before then now else before
  }

  /** Each limit that is accepted is not below the one it replaces. */
  ghost predicate NeverLowered(limit: nat, calls: seq<Call>, maxPossible: nat) {
    forall k :: 0 <= k < |calls| && calls[k].SetMax? && 0 < calls[k].n <= maxPossible ==>
      LimitAfter(limit, calls[..k], maxPossible) <= calls[k].n
  }

  lemma {:induction false} HighestIsLast(limit: nat, calls: seq<Call>, maxPossible: nat)
    requires NeverLowered(limit, calls, maxPossible)
    ensures HighestLimit(limit, calls, maxPossible) == LimitAfter(limit, calls, maxPossible)
  {
    if calls != [] {
      var most := calls[..|calls| - 1];
      assert forall k :: 0 <= k < |most| ==> most[k] == calls[k] && most[..k] == calls[..k];
      assert calls[..|calls| - 1] == most;
      HighestIsLast(limit, most, maxPossible);
    }
  }

  class AudioEngine {
    const maxPossible: nat                 // `MAX_AUDIOINSTANCES`, which depends on the platform
    var idInfo: Infos
    var pathIDs: Lists
    var helpers: Helpers
    var maxInstances: nat
    var breakIDs: seq<int>
    ghost var peak: nat                    // the highest limit so far

    /** The indexes agree, and there were never more sounds than the highest limit so far. */
    ghost predicate Valid()
      reads this
    {
      && Agree(idInfo, pathIDs, helpers)
      && 0 < maxInstances <= peak <= maxPossible && |idInfo| <= peak
    }

    constructor (maxPossible: nat)
      requires maxPossible > 0
      ensures Valid() && idInfo == map[] && breakIDs == [] && maxInstances == maxPossible
    {
      this.maxPossible := maxPossible;
      idInfo, pathIDs, helpers, maxInstances, breakIDs := map[], map[], map[], maxPossible, [];
      peak := maxPossible;
    }

    /** `getDefaultProfile` makes the default helper when it is first asked for. */
    method MakeDefaultHelper()
      requires Valid()
      modifies `helpers
      ensures Valid() && Default in helpers
      ensures forall h :: h in old(helpers) ==> h in helpers && helpers[h] == old(helpers)[h]
    {
      if Default !in helpers {
        helpers := helpers[Default := ProfileHelper(0, [])];
        assert forall id: int :: id in idInfo ==> idInfo[id].helper != Some(Default);
      }
    }

    /** `sAudioPathProfileHelperMap[name]` and the copy of the profile into it. */
    method ChooseHelper(profile: Option<(string, nat)>) returns (helper: Option<Helper>)
      requires Valid()
      modifies `helpers
      ensures Valid() && (helper.Some? ==> helper.value in helpers)
      ensures profile.Some? ==> helper == Some(Named(profile.value.0))
      ensures profile.Some? ==>
        helpers == old(helpers)[helper.value := ProfileHelper(profile.value.1,
                     if helper.value in old(helpers) then old(helpers)[helper.value].audioIDs else [])]
      ensures profile.None? ==> helpers == old(helpers) && helper == if Default in helpers then Some(Default) else None
    {
      match profile
      case None =>
        helper := if Default in helpers then Some(Default) else None;
      case Some(p) =>
        var h := Named(p.0);
        var ids := if h in helpers then helpers[h].audioIDs else [];
        assert HelperAgrees(idInfo, ids, h);
        helpers := helpers[h := ProfileHelper(p.1, ids)];
        helper := Some(h);
    }

    /** The backend plays the sound: it is entered in all three indexes. */
    method Register(id: int, info: Info)
      requires Valid() && id !in idInfo && |idInfo| < maxInstances
      requires info.helper.Some? ==> info.helper.value in helpers
      modifies `idInfo, `pathIDs, `helpers
      ensures Valid() && idInfo == old(idInfo)[id := info]
      ensures idInfo - {id} == old(idInfo) && |idInfo| == |old(idInfo)| + 1
      ensures pathIDs == Filed(old(pathIDs), info.filePath, id) && helpers == Counted(old(helpers), info.helper, id)
    {
      AddedAgrees(idInfo, pathIDs, helpers, id, info);
      pathIDs := Filed(pathIDs, info.filePath, id);
      idInfo := idInfo[id := info];
      helpers := Counted(helpers, info.helper, id);
      assert idInfo - {id} == old(idInfo);
    }

    /**
     * `play2d`, for a file that exists or does not, at a time that is too soon after the profile's
     * last sound or not. The backend answers with an id that is not in use, or refuses.
     */
    method Play2d(path: string, loop: bool, volume: real, profile: Option<(string, nat)>,
                  fileExists: bool, tooSoon: bool, backendID: int) returns (ret: int)
      requires Valid() && (backendID == INVALID_AUDIO_ID || backendID !in idInfo)
      modifies `idInfo, `pathIDs, `helpers
      ensures Valid()
      ensures ret == INVALID_AUDIO_ID || ret == backendID
      ensures ret == INVALID_AUDIO_ID ==> idInfo == old(idInfo) && pathIDs == old(pathIDs)
      ensures ret != INVALID_AUDIO_ID ==>
        && fileExists && |old(idInfo)| < maxInstances && |idInfo| == |old(idInfo)| + 1
        && ret in idInfo && idInfo - {ret} == old(idInfo)
        && idInfo[ret].filePath == path && idInfo[ret].loop == loop && idInfo[ret].state == Initializing
        && 0.0 <= idInfo[ret].volume <= 1.0 && (0.0 <= volume <= 1.0 ==> idInfo[ret].volume == volume)
        && idInfo[ret].helper == (if profile.Some? then Some(Named(profile.value.0))
                                  else if Default in old(helpers) then Some(Default) else None)
        && (idInfo[ret].helper.Some? ==>
              var h := helpers[idInfo[ret].helper.value];
              h.maxInstances == 0 || (|h.audioIDs| <= h.maxInstances && !tooSoon))
      ensures profile.Some? ==>
        var (name, most) := profile.value;
        ret == if fileExists && |old(idInfo)| < maxInstances && !tooSoon
                  && (most == 0 || |SoundsOf(old(idInfo), Named(name))| < most)
               then backendID else INVALID_AUDIO_ID
      ensures profile.None? && Default in old(helpers) ==>
        var most := old(helpers)[Default].maxInstances;
        ret == if fileExists && |old(idInfo)| < maxInstances && !tooSoon
                  && (most == 0 || |SoundsOf(old(idInfo), Default)| < most)
               then backendID else INVALID_AUDIO_ID
      ensures profile.None? && Default !in old(helpers) ==>
        ret == if fileExists && |old(idInfo)| < maxInstances then backendID else INVALID_AUDIO_ID
    {
      ret := INVALID_AUDIO_ID;
      if !fileExists {
        return;
      }
      var helper := ChooseHelper(profile);
      if |idInfo| >= maxInstances {
        return;
      }
      if helper.Some? {
        var h := helpers[helper.value];
        HelperCounts(idInfo, h.audioIDs, helper.value);
        if h.maxInstances != 0 && |h.audioIDs| >= h.maxInstances {
          return;
        }
        if tooSoon {
          return;
        }
      }
      var v := if volume < 0.0 then 0.0 else if volume > 1.0 then 1.0 else volume;
      ret := backendID;
      if ret != INVALID_AUDIO_ID {
        Register(ret, Info(path, helper, loop, v, Initializing));
      }
    }

    method SetState(id: int, state: AudioState)
      requires Valid() && id in idInfo
      modifies `idInfo
      ensures Valid() && idInfo == old(idInfo)[id := old(idInfo)[id].(state := state)]
    {
      SwitchedAgrees(idInfo, {id}, idInfo[id].state, state, pathIDs, helpers);
      assert idInfo[id := idInfo[id].(state := state)] == Switched(idInfo, {id}, idInfo[id].state, state);
      assert idInfo[id := idInfo[id].(state := state)].Keys == idInfo.Keys;
      SameSize(idInfo, idInfo[id := idInfo[id].(state := state)]);
      idInfo := idInfo[id := idInfo[id].(state := state)];
    }

    /** The backend tells that a sound has begun. */
    method Begin(id: int)
      requires Valid()
      modifies `idInfo
      ensures Valid()
      ensures idInfo == if id in old(idInfo) then old(idInfo)[id := old(idInfo)[id].(state := Playing)] else old(idInfo)
    {
      if id in idInfo {
        SetState(id, Playing);
      }
    }

    method Pause(id: int)
      requires Valid()
      modifies `idInfo
      ensures Valid() && idInfo == Switched(old(idInfo), {id}, Playing, Paused)
    {
      if id in idInfo && idInfo[id].state == Playing {
        SetState(id, Paused);
      }
    }

    method Resume(id: int)
      requires Valid()
      modifies `idInfo
      ensures Valid() && idInfo == Switched(old(idInfo), {id}, Paused, Playing)
    {
      if id in idInfo && idInfo[id].state == Paused {
        SetState(id, Playing);
      }
    }

    /** One sound of the loop, which began with the sounds `infos` and has dealt with those in `done`. */
    method SwitchOne(id: int, before: AudioState, after: AudioState, switched: seq<int>, ghost infos: Infos,
                     ghost done: set<int>) returns (more: seq<int>)
      requires Valid() && before != after && id in infos && id !in done
      requires SwitchStands(infos, idInfo, switched, done, before, after)
      modifies `idInfo
      ensures Valid() && SwitchStands(infos, idInfo, more, done + {id}, before, after)
    {
      SwitchedMore(infos, done, id, before, after);
      ListedMore(switched, infos, done, id, before);
      more := switched;
      if idInfo[id].state == before {
        SetState(id, after);
        more := switched + [id];
      }
    }

    /** The loop of `pauseAll`, of `resumeAll` and of `onEnterBackground`, in the order of the hash table. */
    method SwitchAll(before: AudioState, after: AudioState) returns (switched: seq<int>)
      requires Valid() && before != after
      modifies `idInfo
      ensures Valid() && idInfo == Switched(old(idInfo), old(idInfo).Keys, before, after)
      ensures ListsThose(switched, old(idInfo), old(idInfo).Keys, before)
    {
      var rest := idInfo.Keys;
      ghost var infos, done: set<int> := idInfo, {};
      switched := [];
      SwitchBegins(infos, before, after);
      while rest != {}
        invariant Valid() && rest !! done && rest + done == infos.Keys
        invariant SwitchStands(infos, idInfo, switched, done, before, after)
        decreases |rest|
      {
        var id: int := Pick(rest);
        switched := SwitchOne(id, before, after, switched, infos, done);
        rest, done := rest - {id}, done + {id};
      }
      assert done == infos.Keys;
    }

    method PauseAll()
      requires Valid()
      modifies `idInfo
      ensures Valid() && idInfo == Switched(old(idInfo), old(idInfo).Keys, Playing, Paused)
    {
      var paused := SwitchAll(Playing, Paused);
    }

    method ResumeAll()
      requires Valid()
      modifies `idInfo
      ensures Valid() && idInfo == Switched(old(idInfo), old(idInfo).Keys, Paused, Playing)
    {
      var resumed := SwitchAll(Paused, Playing);
    }

    method OnEnterBackground()
      requires Valid()
      modifies `idInfo, `breakIDs
      ensures Valid() && idInfo == Switched(old(idInfo), old(idInfo).Keys, Playing, Paused)
      ensures old(breakIDs) <= breakIDs
      ensures forall id: int :: id in breakIDs <==>
        id in old(breakIDs) || (id in old(idInfo) && old(idInfo)[id].state == Playing)
    {
      var paused := SwitchAll(Playing, Paused);
      forall id: int ensures id in paused <==> id in old(idInfo) && old(idInfo)[id].state == Playing {
        TimesPositive(paused, id);
      }
      breakIDs := breakIDs + paused;
    }

    method OnEnterForeground()
      requires Valid()
      modifies `idInfo, `breakIDs
      ensures Valid() && breakIDs == []
      ensures idInfo == Switched(old(idInfo), Members(old(breakIDs)), Paused, Playing)
    {
      ghost var infos, done: set<int> := idInfo, {};
      assert Switched(infos, done, Paused, Playing) == infos;
      for i := 0 to |breakIDs|
        invariant Valid() && breakIDs == old(breakIDs)
        invariant done == Members(breakIDs[..i])
        invariant idInfo == Switched(infos, done, Paused, Playing)
      {
        var id := breakIDs[i];
        SwitchedAgain(infos, done, id, Paused, Playing);
        if id in idInfo && idInfo[id].state == Paused {
          SetState(id, Playing);
        }
        assert breakIDs[..i + 1] == breakIDs[..i] + [id];
        done := done + {id};
      }
      assert breakIDs[..|breakIDs|] == breakIDs;
      breakIDs := [];
    }

    method Remove(id: int)
      requires id in idInfo ==> idInfo[id].filePath in pathIDs
      modifies `idInfo, `pathIDs, `helpers
      ensures idInfo == old(idInfo) - {id}
      ensures id !in old(idInfo) ==> pathIDs == old(pathIDs) && helpers == old(helpers)
      ensures id in old(idInfo) ==>
        var info := old(idInfo)[id];
        && pathIDs == old(pathIDs)[info.filePath := Purged(old(pathIDs)[info.filePath], id)]
        && helpers == Dropped(old(helpers), info.helper, id)
      ensures old(Valid()) ==> Valid()
    {
      if id in idInfo {
        var info := idInfo[id];
        ghost var infos, lists, were := idInfo, pathIDs, helpers;
        helpers := Dropped(helpers, info.helper, id);
        pathIDs := pathIDs[info.filePath := Purged(pathIDs[info.filePath], id)];
        idInfo := idInfo - {id};
        Smaller(idInfo, infos);
        if Agree(infos, lists, were) {
          RemovedAgrees(infos, lists, were, id);
        }
      } else {
        assert idInfo - {id} == idInfo;
      }
    }

    /** The backend may call `remove` while it stops the sound. */
    method Stop(id: int, removesAtOnce: bool)
      requires Valid()
      modifies `idInfo, `pathIDs, `helpers
      ensures Valid() && idInfo == old(idInfo) - {id} && pathIDs.Keys == old(pathIDs).Keys
    {
      if id in idInfo {
        if removesAtOnce {
          Remove(id);
        }
        Remove(id);
      }
    }

    /** `list::remove` for every sound of the table, in the order of the hash table. */
    method DropAll()
      requires forall id :: id in idInfo && idInfo[id].helper.Some? ==> idInfo[id].helper.value in helpers
      requires forall h :: h in helpers ==> HelperAgrees(idInfo, helpers[h].audioIDs, h)
      modifies `helpers
      ensures helpers.Keys == old(helpers).Keys
      ensures forall h :: h in helpers ==> helpers[h] == old(helpers)[h].(audioIDs := [])
    {
      var rest := idInfo;
      while rest.Keys != {}
        invariant helpers.Keys == old(helpers).Keys
        invariant forall id :: id in rest ==> id in idInfo && rest[id] == idInfo[id]
        invariant forall h :: h in helpers ==> HelperAgrees(rest, helpers[h].audioIDs, h)
        invariant forall h :: h in helpers ==> helpers[h].maxInstances == old(helpers)[h].maxInstances
        decreases |rest|
      {
        var id: int := Pick(rest.Keys);
        DroppedAgrees(rest, helpers, id);
        helpers := Dropped(helpers, rest[id].helper, id);
        rest := rest - {id};
      }
      forall h | h in helpers ensures helpers[h].audioIDs == [] {
        assert HelperAgrees(rest, helpers[h].audioIDs, h);
        if helpers[h].audioIDs != [] {
          TimesPositive(helpers[h].audioIDs, helpers[h].audioIDs[0]);
        }
      }
    }

    /** While the backend stops everything, it may call `remove` for some sounds. */
    method StopAll(removedAtOnce: seq<int>)
      requires Valid()
      modifies `idInfo, `pathIDs, `helpers
      ensures Valid() && idInfo == map[] && pathIDs == map[] && helpers.Keys == old(helpers).Keys
      ensures forall h :: h in helpers ==> helpers[h].audioIDs == []
    {
      for i := 0 to |removedAtOnce|
        invariant Valid() && helpers.Keys == old(helpers).Keys
      {
        Remove(removedAtOnce[i]);
      }
      DropAll();
      pathIDs := map[];
      idInfo := map[];
      assert forall h :: h in helpers ==> HelperAgrees(idInfo, helpers[h].audioIDs, h);
    }

    /** One round of the loop of `uncache`, which leaves the path's own list to be erased at the end. */
    method UncacheOne(id: int, path: string, removesAtOnce: bool)
      requires AgreeBut(idInfo, pathIDs, helpers, path) && path in pathIDs
      requires id in idInfo ==> idInfo[id].filePath == path
      modifies `idInfo, `pathIDs, `helpers
      ensures AgreeBut(idInfo, pathIDs, helpers, path)
      ensures idInfo == old(idInfo) - {id} && pathIDs.Keys == old(pathIDs).Keys
      ensures forall p :: p in pathIDs && p != path ==> pathIDs[p] == old(pathIDs)[p]
    {
      if id in idInfo {
        RemovedAgreesBut(idInfo, pathIDs, helpers, id, path,
                         if removesAtOnce then Purged(pathIDs[path], id) else pathIDs[path]);
        assert pathIDs[path := pathIDs[path]] == pathIDs;
      } else {
        assert idInfo - {id} == idInfo;
      }
      if removesAtOnce {
        Remove(id);
      }
      if id in idInfo {
        helpers := Dropped(helpers, idInfo[id].helper, id);
        idInfo := idInfo - {id};
      }
    }

    /** The loop of `uncache` works on a copy, as the backend may call `remove` while it stops a sound. */
    method UncacheEach(copied: seq<int>, path: string, removesAtOnce: int -> bool)
      requires AgreeBut(idInfo, pathIDs, helpers, path) && path in pathIDs
      requires forall id: int :: id in copied && id in idInfo ==> idInfo[id].filePath == path
      modifies `idInfo, `pathIDs, `helpers
      ensures AgreeBut(idInfo, pathIDs, helpers, path) && pathIDs.Keys == old(pathIDs).Keys
      ensures idInfo == old(idInfo) - Members(copied)
    {
      ghost var infos, done: set<int> := idInfo, {};
      assert infos - done == infos;
      for i := 0 to |copied|
        invariant AgreeBut(idInfo, pathIDs, helpers, path) && pathIDs.Keys == old(pathIDs).Keys
        invariant idInfo == infos - done && done == Members(copied[..i])
      {
        var id := copied[i];
        assert id in copied;
        assert copied[..i + 1] == copied[..i] + [id];
        UncacheOne(id, path, removesAtOnce(id));
        assert infos - done - {id} == infos - (done + {id});
        done := done + {id};
      }
      assert copied[..|copied|] == copied;
    }

    method Uncache(path: string, removesAtOnce: int -> bool)
      requires Valid()
      modifies `idInfo, `pathIDs, `helpers
      ensures Valid() && idInfo == Uncached(old(idInfo), path) && pathIDs.Keys == old(pathIDs).Keys - {path}
    {
      ghost var infos := idInfo;
      if path in pathIDs {
        var copied := pathIDs[path];
        ThosePath(infos, copied, path);
        AllUncached(infos, Members(copied), copied, path);
        UncacheEach(copied, path, removesAtOnce);
        pathIDs := pathIDs - {path};
      } else {
        NothingUncached(infos, pathIDs, path);
      }
      Smaller(idInfo, infos);
    }

    method SetMaxAudioInstance(n: int) returns (ok: bool)
      requires Valid()
      modifies `maxInstances, `peak
      ensures Valid() && (ok <==> 0 < n <= maxPossible)
      ensures maxInstances == if ok then n else old(maxInstances)
      ensures peak == if maxInstances > old(peak) then maxInstances else old(peak)
    {
      ok := 0 < n <= maxPossible;
      if ok {
        maxInstances := n;
        peak := if n > peak then n else peak;
      }
    }

    twostate predicate Did(call: Call)
      reads this
    {
      Performed(call, old(idInfo), old(breakIDs), idInfo, breakIDs)
    }

    method PerformOnOne(call: Call)
      requires Valid() && (call.Began? || call.PauseOne? || call.ResumeOne?)
      modifies `idInfo
      ensures Valid() && Did(call)
    {
      OnePerformed(call, idInfo, breakIDs);
      match call
      case Began(id) => Begin(id);
      case PauseOne(id) => Pause(id);
      case ResumeOne(id) => Resume(id);
    }

    method PerformOnAll(call: Call)
      requires Valid() && (call.PauseEvery? || call.ResumeEvery? || call.Background? || call.Foreground?)
      modifies `idInfo, `breakIDs
      ensures Valid() && Did(call)
    {
      ghost var infos, breaks := idInfo, breakIDs;
      AllPerformed(call, infos, breaks);
      match call
      case PauseEvery => PauseAll();
      case ResumeEvery => ResumeAll();
      case Background =>
        OnEnterBackground();
        LeavingPerformed(call, infos, breaks, breakIDs);
      case Foreground =>
        ReturningPerformed(call, infos, breaks);
        OnEnterForeground();
    }

    method PerformRemoval(call: Call)
      requires Valid() && (call.StopOne? || call.Finished?)
      modifies `idInfo, `pathIDs, `helpers
      ensures Valid() && Did(call)
    {
      RemovalPerformed(call, idInfo, breakIDs);
      match call
      case StopOne(id, removesAtOnce) => Stop(id, removesAtOnce);
      case Finished(id) => Remove(id);
    }

    method PerformRemovals(call: Call)
      requires Valid() && (call.StopEvery? || call.UncachePath?)
      modifies `idInfo, `pathIDs, `helpers
      ensures Valid() && Did(call)
    {
      RemovalsPerformed(call, idInfo, breakIDs);
      match call
      case StopEvery(removedAtOnce) => StopAll(removedAtOnce);
      case UncachePath(path, removesAtOnce) => Uncache(path, removesAtOnce);
    }

    method PerformPlay(call: Call)
      requires Valid() && call.Play?
      modifies `idInfo, `pathIDs, `helpers
      ensures Valid() && Did(call)
    {
      var answer := if call.backendID in idInfo then INVALID_AUDIO_ID else call.backendID;
      ghost var infos := idInfo;
      var ret := Play2d(call.path, call.loop, call.volume, call.profile, call.fileExists, call.tooSoon, answer);
      if ret != INVALID_AUDIO_ID {
        forall id: int | id in infos ensures id in idInfo && idInfo[id] == infos[id] {
          assert id in idInfo - {ret} && (idInfo - {ret})[id] == infos[id];
        }
      }
    }

    /** Any call, from the program or from the backend, does what it promises. The backend does not answer with an
        id that is in use. */
    method Perform(call: Call)
      requires Valid()
      modifies `idInfo, `pathIDs, `helpers, `maxInstances, `peak, `breakIDs
      ensures Valid() && Did(call)
      ensures maxInstances == Limit(old(maxInstances), call, maxPossible)
      ensures peak == if maxInstances > old(peak) then maxInstances else old(peak)
    {
      match call
      case Play(_, _, _, _, _, _, _) => PerformPlay(call);
      case AskDefault => MakeDefaultHelper();
      case SetMax(n) => var ok := SetMaxAudioInstance(n);
      case StopOne(_, _) => PerformRemoval(call);
      case Finished(_) => PerformRemoval(call);
      case StopEvery(_) => PerformRemovals(call);
      case UncachePath(_, _) => PerformRemovals(call);
      case Began(_) => PerformOnOne(call);
      case PauseOne(_) => PerformOnOne(call);
      case ResumeOne(_) => PerformOnOne(call);
      case _ => PerformOnAll(call);
    }

    /**
     * Over every run the indexes agree, there are never more sounds than the highest limit so far, and so
     * never more than the limit while it is not lowered; each call does what it promises, and a sound that no
     * call is about keeps its state.
     */
    method Run(calls: seq<Call>) returns (ghost infos: seq<Infos>, ghost breaks: seq<seq<int>>)
      requires Valid()
      modifies `idInfo, `pathIDs, `helpers, `maxInstances, `peak, `breakIDs
      ensures Valid() && maxInstances == LimitAfter(old(maxInstances), calls, maxPossible)
      ensures old(maxInstances) == old(peak) ==> |idInfo| <= HighestLimit(old(maxInstances), calls, maxPossible)
      ensures old(maxInstances) == old(peak) && NeverLowered(old(maxInstances), calls, maxPossible) ==>
        |idInfo| <= maxInstances
      ensures History(calls, infos, breaks)
      ensures infos[0] == old(idInfo) && infos[|calls|] == idInfo
      ensures breaks[0] == old(breakIDs) && breaks[|calls|] == breakIDs
      ensures Untouched(old(idInfo), idInfo, calls)
    {
      ghost var limit := maxInstances;
      infos, breaks := [idInfo], [breakIDs];
      for i := 0 to |calls|
        invariant Valid() && maxInstances == LimitAfter(limit, calls[..i], maxPossible)
        invariant limit == old(peak) ==> peak == HighestLimit(limit, calls[..i], maxPossible)
        invariant History(calls[..i], infos, breaks)
        invariant infos[0] == old(idInfo) && infos[i] == idInfo && breaks[0] == old(breakIDs) && breaks[i] == breakIDs
        invariant Untouched(old(idInfo), idInfo, calls[..i])
      {
        Perform(calls[i]);
        assert calls[..i + 1][..i] == calls[..i];
        PerformedKeeps(calls[i], infos[i], breaks[i], idInfo, breakIDs);
        UntouchedMore(old(idInfo), infos[i], idInfo, calls, i);
        HistoryMore(calls, infos, breaks, i, idInfo, breakIDs);
        infos, breaks := infos + [idInfo], breaks + [breakIDs];
      }
      assert calls[..|calls|] == calls;
      if NeverLowered(limit, calls, maxPossible) {
        HighestIsLast(limit, calls, maxPossible);
      }
    }

    /**
     * To the background and back, with anything in between: each sound that is left alone in between
     * is as it was before. In particular what the user had paused stays paused.
     */
    method Interrupt(calls: seq<Call>)
      requires Valid() && breakIDs == []
      requires forall k :: 0 <= k < |calls| ==> !calls[k].Background? && !calls[k].Foreground?
      modifies `idInfo, `pathIDs, `helpers, `maxInstances, `peak, `breakIDs
      ensures Valid() && breakIDs == []
      ensures Untouched(old(idInfo), idInfo, calls)
    {
      ghost var infos := idInfo;
      OnEnterBackground();
      ghost var paused, ids := idInfo, Members(breakIDs);
      ghost var between, breaks := Run(calls);
      NotInterrupted(calls, between, breaks, |calls|);
      ghost var later := idInfo;
      OnEnterForeground();
      BackAgain(infos, paused, later, idInfo, ids, calls);
    }

    /**
     * One that the program resumes and pauses again meanwhile is resumed all the same: the sound
     * stays in the list of the interrupted.
     */
    method PauseInBackgroundIsUndone(id: int)
      requires Valid() && breakIDs == [] && id in idInfo && idInfo[id].state == Playing
      modifies `idInfo, `breakIDs
      ensures Valid() && id in idInfo && idInfo[id].state == Playing
    {
      SwitchedAt(idInfo, idInfo.Keys, Playing, Paused, id);
      OnEnterBackground();
      SwitchedAt(idInfo, {id}, Paused, Playing, id);
      Resume(id);
      SwitchedAt(idInfo, {id}, Playing, Paused, id);
      Pause(id);
      SwitchedAt(idInfo, Members(breakIDs), Paused, Playing, id);
      OnEnterForeground();
    }
  }
}
