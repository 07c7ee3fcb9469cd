/**
 The hot-reload event pipeline (internal/server/server_hotreload_pipeline.go,
 server_hotreload_state.go, server_hotreload_dispatch.go).

 File events enter a bounded queue, at most one per busy key; an event for a busy
 key, or one that finds the queue full, leaves a dirty mark that is re-enqueued when
 an event has been handled.  Handling one watch event, one dequeue, and "finish and
 requeue" are the atomic steps.  How paths resolve, which paths are ignored and
 which module owns a path is given by an `Env` that does not change.
 */
module HotReload {
  import opened Wrappers

  type File = string
  type Key = string

  datatype Env = Env(resolve: File -> Option<File>, ignored: File -> bool, moduleOf: File -> string)

  // ---------------------------------------------------------------- event strings

  function Pack(file: File, moduleName: string): string {
    file + "|" + moduleName
  }

  /** Position of the last bar, or -1. */
  function LastBar(s: string): (i: int)
    ensures -1 <= i < |s|
    ensures i >= 0 ==> s[i] == '|'
    ensures forall j :: i < j < |s| ==> s[j] != '|'
  {
    if s == "" then -1
    else if s[|s| - 1] == '|' then |s| - 1
    else LastBar(s[..|s| - 1])
  }

  function Unpack(e: string): (File, string) {
    var i := LastBar(e);
    if i >= 0 then (e[..i], e[i + 1..]) else (e, "")
  }

  /** A queued event gives back the file and module it was packed from exactly when the module name has no bar. */
  lemma UnpackInvertsPack(file: File, moduleName: string)
    ensures Unpack(Pack(file, moduleName)) == (file, moduleName) <==> '|' !in moduleName
  {
    var e := Pack(file, moduleName);
    assert e[|file|] == '|';
    var i := LastBar(e);
    assert i >= |file|;
    if '|' !in moduleName {
      assert forall j :: |file| < j < |e| ==> e[j] == moduleName[j - |file| - 1];
      assert i == |file|;
      assert e[..i] == file && e[i + 1..] == moduleName;
    } else {
      var k :| 0 <= k < |moduleName| && moduleName[k] == '|';
      assert e[|file| + 1 + k] == '|';
      assert |e[..i]| > |file|;
    }
  }

  function BusyKey(moduleName: string, file: File): Key {
    if moduleName != "" then moduleName else file
  }

  function EventKey(e: string): Key {
    BusyKey(Unpack(e).1, Unpack(e).0)
  }

  /** Watch targets are stable: resolving twice changes nothing, paths are not empty, modules have no bar. */
  ghost predicate Stable(env: Env) {
    forall f :: env.resolve(f).Some? ==>
      var g := env.resolve(f).value;
      g != "" && env.resolve(g) == Some(g) && '|' !in env.moduleOf(g)
  }

  /** The busy key of an event that is neither unresolvable nor ignored. */
  function KeyOf(env: Env, file: File): Option<Key> {
    match env.resolve(file)
    case None => None
    case Some(g) => if env.ignored(g) then None else Some(BusyKey(env.moduleOf(g), g))
  }

  // ---------------------------------------------------------------- one step

  /**
   `unseen` is a history variable: the keys with an event newer than their last dequeue.
   */
  datatype State = State(queue: seq<string>, busy: set<Key>, dirty: map<Key, File>, inFlight: Option<Key>, unseen: set<Key>)

  const IDLE := State([], {}, map[], None, {})

  function MarkIfAbsent(dirty: map<Key, File>, key: Key, file: File): map<Key, File> {
    if key in dirty then dirty else dirty[key := file]
  }

  function Enqueue(env: Env, capacity: nat, s: State, file: File): State {
    if KeyOf(env, file).None? then s
    else
      var g := env.resolve(file).value;
      var key := KeyOf(env, file).value;
      if key in s.busy then s.(dirty := s.dirty[key := g])
      else if |s.queue| < capacity then s.(busy := s.busy + {key}, queue := s.queue + [Pack(g, env.moduleOf(g))])
      else s.(dirty := MarkIfAbsent(s.dirty, key, g))
  }

  function Requeue(env: Env, capacity: nat, s: State, key: Key, file: File): State {
    if env.ignored(file) then s
    else if key in s.busy then s.(dirty := MarkIfAbsent(s.dirty, key, file))
    else Enqueue(env, capacity, s, file)
  }

  /** Requeues the taken marks in the given order; Go iterates over its map in any order. */
  function RequeueAll(env: Env, capacity: nat, s: State, taken: map<Key, File>, order: seq<Key>): State
    requires forall k <- order :: k in taken
    decreases |order|
  {
    if order == [] then s
    else RequeueAll(env, capacity, Requeue(env, capacity, s, order[0], taken[order[0]]), taken, order[1..])
  }

  datatype Step = WatchEvent(file: File) | Dequeue | Finish(order: seq<Key>)

  ghost predicate Lists(order: seq<Key>, keys: set<Key>) {
    (forall k :: k in order <==> k in keys) && forall i, j :: 0 <= i < j < |order| ==> order[i] != order[j]
  }

  /** The handled key is free again and the dirty marks are taken. */
  function Released(s: State): State
    requires s.inFlight.Some?
  {
    s.(busy := s.busy - {s.inFlight.value}, inFlight := None, dirty := map[])
  }

  ghost function Next(env: Env, capacity: nat, s: State, step: Step): State {
    match step
    case WatchEvent(file) =>
      var t := Enqueue(env, capacity, s, file);
      if KeyOf(env, file).Some? then t.(unseen := s.unseen + {KeyOf(env, file).value}) else t
    case Dequeue =>
      if s.inFlight.Some? || s.queue == [] then s
      else
        var key := EventKey(s.queue[0]);
        s.(queue := s.queue[1..], inFlight := Some(key), unseen := s.unseen - {key})
    case Finish(order) =>
      if s.inFlight.None? || !Lists(order, s.dirty.Keys) then s
      else
        RequeueAll(env, capacity, Released(s), s.dirty, order)
  }

  ghost function Run(env: Env, capacity: nat, s: State, steps: seq<Step>): State
    decreases |steps|
  {
    if steps == [] then s else Run(env, capacity, Next(env, capacity, s, steps[0]), steps[1..])
  }

  // ---------------------------------------------------------------- invariant

  function QueuedKeys(queue: seq<string>): set<Key> {
    set e | e in queue :: EventKey(e)
  }

  predicate DistinctKeys(queue: seq<string>) {
    forall i, j :: 0 <= i < j < |queue| ==> EventKey(queue[i]) != EventKey(queue[j])
  }

  /** A dirty mark holds a path that will be accepted again under its own key. */
  predicate MarkOk(env: Env, key: Key, file: File) {
    env.resolve(file) == Some(file) && KeyOf(env, file) == Some(key) && !env.ignored(file)
  }

  /** Everything but the two claims about marks that hold only between whole steps. */
  predicate Consistent(env: Env, capacity: nat, s: State) {
    && |s.queue| <= capacity
    && DistinctKeys(s.queue)
    && (s.inFlight.Some? ==> s.inFlight.value !in QueuedKeys(s.queue))
    && s.busy == QueuedKeys(s.queue) + (if s.inFlight.Some? then {s.inFlight.value} else {})
    && forall k | k in s.dirty :: MarkOk(env, k, s.dirty[k])
  }

  /** No event is lost: an unseen key is queued or dirty, and a dirty mark has somebody to requeue it. */
  predicate Inv(env: Env, capacity: nat, s: State) {
    && Consistent(env, capacity, s)
    && s.unseen <= QueuedKeys(s.queue) + s.dirty.Keys
    && (s.dirty.Keys != {} ==> s.busy != {})
  }

  lemma QueuedKeysAppend(queue: seq<string>, e: string)
    ensures QueuedKeys(queue + [e]) == QueuedKeys(queue) + {EventKey(e)}
  {
    assert forall x :: x in queue + [e] <==> x in queue || x == e;
  }

  lemma DistinctKeysTail(queue: seq<string>)
    requires queue != [] && DistinctKeys(queue)
    ensures DistinctKeys(queue[1..]) && forall e <- queue[1..] :: EventKey(e) != EventKey(queue[0])
  {
    forall i, j | 0 <= i < j < |queue[1..]|
      ensures EventKey(queue[1..][i]) != EventKey(queue[1..][j])
    {
      assert EventKey(queue[i + 1]) != EventKey(queue[j + 1]);
    }
  }

  lemma QueuedKeysHead(e: string, rest: seq<string>)
    ensures QueuedKeys([e] + rest) == {EventKey(e)} + QueuedKeys(rest)
  {
    assert forall x :: x in [e] + rest <==> x == e || x in rest;
  }

  lemma QueuedKeysTail(queue: seq<string>)
    requires queue != [] && DistinctKeys(queue)
    ensures QueuedKeys(queue[1..]) == QueuedKeys(queue) - {EventKey(queue[0])} && DistinctKeys(queue[1..])
  {
    DistinctKeysTail(queue);
    QueuedKeysHead(queue[0], queue[1..]);
    assert queue == [queue[0]] + queue[1..];
    assert EventKey(queue[0]) !in QueuedKeys(queue[1..]);
  }

  lemma EnqueueKeeps(env: Env, capacity: nat, s: State, file: File)
    requires Stable(env) && Consistent(env, capacity, s) && capacity > 0
    ensures var t := Enqueue(env, capacity, s, file);
            && Consistent(env, capacity, t)
            && s.queue <= t.queue && t.inFlight == s.inFlight && t.unseen == s.unseen
            && s.busy <= t.busy
            && s.dirty.Keys <= t.dirty.Keys
            && (KeyOf(env, file).None? ==> t == s)
            && (KeyOf(env, file).Some? ==>
                  var key := KeyOf(env, file).value;
                  && t.dirty.Keys <= s.dirty.Keys + {key}
                  && key in QueuedKeys(t.queue) + t.dirty.Keys
                  && t.busy != {}
                  && (|t.queue| > |s.queue| ==> t.dirty == s.dirty && |t.queue| == |s.queue| + 1)
                  && (t.queue == s.queue ==> key in t.dirty && t.busy == s.busy && (key in s.busy || |s.queue| == capacity)))
  {
    if KeyOf(env, file).Some? {
      var g := env.resolve(file).value;
      var key := KeyOf(env, file).value;
      assert env.resolve(g) == Some(g);
      UnpackInvertsPack(g, env.moduleOf(g));
      QueuedKeysAppend(s.queue, Pack(g, env.moduleOf(g)));
      if key !in s.busy && |s.queue| >= capacity {
        assert EventKey(s.queue[0]) in QueuedKeys(s.queue);
      }
    }
  }

  /** What requeueing adds to a state: it keeps the queue's front and every mark, and somebody stays busy. */
  predicate Grows(s: State, t: State) {
    && s.queue <= t.queue && t.inFlight == s.inFlight && t.unseen == s.unseen
    && QueuedKeys(s.queue) <= QueuedKeys(t.queue)
    && s.dirty.Keys <= t.dirty.Keys
    && (t.dirty.Keys != {} ==> t.busy != {})
  }

  predicate MarksOk(env: Env, marks: map<Key, File>) {
    forall k | k in marks :: MarkOk(env, k, marks[k])
  }

  lemma RequeueKeeps(env: Env, capacity: nat, s: State, key: Key, file: File)
    requires Stable(env) && Consistent(env, capacity, s) && capacity > 0 && MarkOk(env, key, file)
    requires s.dirty.Keys != {} ==> s.busy != {}
    ensures var t := Requeue(env, capacity, s, key, file);
            && Consistent(env, capacity, t)
            && Grows(s, t)
            && key in QueuedKeys(t.queue) + t.dirty.Keys
            && |t.queue| + |t.dirty| <= |s.queue| + |s.dirty| + 1
  {
    if key !in s.busy {
      EnqueueKeeps(env, capacity, s, file);
      QueuedKeysPrefix(s.queue, Enqueue(env, capacity, s, file).queue);
    }
  }

  /** Whatever the order, requeueing keeps the state consistent and counts nothing twice. */
  lemma {:induction false} RequeueAllKeeps(env: Env, capacity: nat, s: State, taken: map<Key, File>, order: seq<Key>)
    requires Stable(env) && Consistent(env, capacity, s) && capacity > 0 && MarksOk(env, taken)
    requires forall k <- order :: k in taken
    requires s.dirty.Keys != {} ==> s.busy != {}
    ensures var t := RequeueAll(env, capacity, s, taken, order);
            && Consistent(env, capacity, t)
            && Grows(s, t)
            && |t.queue| + |t.dirty| <= |s.queue| + |s.dirty| + |order|
    decreases |order|
  {
    if order != [] {
      RequeueKeeps(env, capacity, s, order[0], taken[order[0]]);
      RequeueAllKeeps(env, capacity, Requeue(env, capacity, s, order[0], taken[order[0]]), taken, order[1..]);
    }
  }

  /** Every taken mark is queued or dirty again. */
  lemma {:induction false} RequeueAllCovers(env: Env, capacity: nat, s: State, taken: map<Key, File>, order: seq<Key>,
          key: Key)
    requires Stable(env) && Consistent(env, capacity, s) && capacity > 0 && MarksOk(env, taken)
    requires forall k <- order :: k in taken
    requires s.dirty.Keys != {} ==> s.busy != {}
    requires key in order
    ensures var t := RequeueAll(env, capacity, s, taken, order);
            key in QueuedKeys(t.queue) + t.dirty.Keys
    decreases |order|
  {
    var u := Requeue(env, capacity, s, order[0], taken[order[0]]);
    RequeueKeeps(env, capacity, s, order[0], taken[order[0]]);
    if key == order[0] {
      RequeueAllKeeps(env, capacity, u, taken, order[1..]);
    } else {
      RequeueAllCovers(env, capacity, u, taken, order[1..], key);
    }
  }

  lemma QueuedKeysPrefix(a: seq<string>, b: seq<string>)
    requires a <= b
    ensures QueuedKeys(a) <= QueuedKeys(b)
  {
    forall e | e in a
      ensures e in b
    {
      var i :| 0 <= i < |a| && a[i] == e;
      assert b[i] == e;
    }
  }

  lemma {:induction false} ListsSize(order: seq<Key>, keys: set<Key>)
    requires Lists(order, keys)
    ensures |order| == |keys|
    decreases |order|
  {
    if order == [] {
      assert keys == {};
    } else {
      var rest := keys - {order[0]};
      assert forall k :: k in order[1..] <==> k in rest;
      ListsSize(order[1..], rest);
    }
  }

  lemma ReleasedIsConsistent(env: Env, capacity: nat, s: State)
    requires Inv(env, capacity, s) && s.inFlight.Some?
    ensures Consistent(env, capacity, Released(s)) && MarksOk(env, s.dirty)
  {
    assert Released(s).busy == QueuedKeys(s.queue);
  }

  lemma UnseenStaysCovered(env: Env, capacity: nat, s: State, order: seq<Key>, key: Key)
    requires Stable(env) && capacity > 0 && Inv(env, capacity, s)
    requires s.inFlight.Some? && Lists(order, s.dirty.Keys) && key in s.unseen
    ensures var t := RequeueAll(env, capacity, Released(s), s.dirty, order);
            key in QueuedKeys(t.queue) + t.dirty.Keys
  {
    ReleasedIsConsistent(env, capacity, s);
    if key in s.dirty {
      RequeueAllCovers(env, capacity, Released(s), s.dirty, order, key);
    } else {
      RequeueAllKeeps(env, capacity, Released(s), s.dirty, order);
    }
  }

  /** "Finish and requeue" keeps the invariant, and moves each dirty mark at most once. */
  lemma FinishKeeps(env: Env, capacity: nat, s: State, order: seq<Key>)
    requires Stable(env) && capacity > 0 && Inv(env, capacity, s)
    requires s.inFlight.Some? && Lists(order, s.dirty.Keys)
    ensures var t := RequeueAll(env, capacity, Released(s), s.dirty, order);
            && Inv(env, capacity, t) && t.inFlight.None? && t.unseen == s.unseen
            && |t.queue| + |t.dirty| <= |s.queue| + |s.dirty|
  {
    ReleasedIsConsistent(env, capacity, s);
    RequeueAllKeeps(env, capacity, Released(s), s.dirty, order);
    ListsSize(order, s.dirty.Keys);
    forall key | key in s.unseen
      ensures var t := RequeueAll(env, capacity, Released(s), s.dirty, order);
              key in QueuedKeys(t.queue) + t.dirty.Keys
    {
      UnseenStaysCovered(env, capacity, s, order, key);
    }
  }

  lemma WatchEventKeeps(env: Env, capacity: nat, s: State, file: File)
    requires Stable(env) && capacity > 0 && Inv(env, capacity, s)
    ensures Inv(env, capacity, Next(env, capacity, s, WatchEvent(file)))
  {
    EnqueueKeeps(env, capacity, s, file);
    QueuedKeysPrefix(s.queue, Enqueue(env, capacity, s, file).queue);
  }

  lemma DequeueKeeps(env: Env, capacity: nat, s: State)
    requires Inv(env, capacity, s)
    ensures Inv(env, capacity, Next(env, capacity, s, Dequeue))
  {
    if s.inFlight.None? && s.queue != [] {
      QueuedKeysTail(s.queue);
      assert s.queue[0] in s.queue;
    }
  }

  lemma NextKeepsInv(env: Env, capacity: nat, s: State, step: Step)
    requires Stable(env) && capacity > 0 && Inv(env, capacity, s)
    ensures Inv(env, capacity, Next(env, capacity, s, step))
  {
    match step
    case WatchEvent(file) => WatchEventKeeps(env, capacity, s, file);
    case Dequeue => DequeueKeeps(env, capacity, s);
    case Finish(order) =>
      if s.inFlight.Some? && Lists(order, s.dirty.Keys) {
        FinishKeeps(env, capacity, s, order);
      }
  }

  /**
   No watch event is lost: in every run, a key with an event newer than its last
   dequeue is queued or dirty, queued and in-flight keys are distinct and are the
   busy set, and a dirty mark always has something busy that will requeue it.
   */
  lemma {:induction false} NoEventIsLost(env: Env, capacity: nat, s: State, steps: seq<Step>)
    requires Stable(env) && capacity > 0 && Inv(env, capacity, s)
    ensures Inv(env, capacity, Run(env, capacity, s, steps))
    decreases |steps|
  {
    if steps != [] {
      NextKeepsInv(env, capacity, s, steps[0]);
      NoEventIsLost(env, capacity, Next(env, capacity, s, steps[0]), steps[1..]);
    }
  }

  // ---------------------------------------------------------------- one slot per module

  /** What a queued string says: a module, or, without one, a file. */
  predicate IsOfModule(e: string, m: string) {
    Unpack(e).1 == m != ""
  }

  predicate IsOfFile(e: string, file: File) {
    Unpack(e) == (file, "")
  }

  /** In every run no module has two places in the queue, nor one there while its event is in flight. */
  lemma OneSlotPerModule(env: Env, capacity: nat, s: State, steps: seq<Step>)
    requires Stable(env) && capacity > 0 && Inv(env, capacity, s)
    ensures var t := Run(env, capacity, s, steps);
            && (forall i, j, m :: 0 <= i < j < |t.queue| && IsOfModule(t.queue[i], m) ==> !IsOfModule(t.queue[j], m))
            && (forall e, m :: e in t.queue && IsOfModule(e, m) ==> t.inFlight != Some(m))
  {
    NoEventIsLost(env, capacity, s, steps);
    var t := Run(env, capacity, s, steps);
    forall e, m | e in t.queue && IsOfModule(e, m)
      ensures t.inFlight != Some(m)
    {
      assert EventKey(e) == m && EventKey(e) in QueuedKeys(t.queue);
    }
  }

  /** The event taken from the queue is its head, and it is in flight under its module, or its file if it has none. */
  lemma DequeueTakesHead(env: Env, capacity: nat, s: State)
    requires s.inFlight.None? && s.queue != []
    ensures var t := Next(env, capacity, s, Dequeue);
            && s.queue == [s.queue[0]] + t.queue
            && (forall m :: IsOfModule(s.queue[0], m) ==> t.inFlight == Some(m))
            && (forall file :: IsOfFile(s.queue[0], file) ==> t.inFlight == Some(file))
            && t.dirty == s.dirty
  {
  }

  /** A file that does not resolve, or resolves to an ignored path, is no event. */
  lemma IgnoredIsNoEvent(env: Env, capacity: nat, s: State, file: File)
    requires env.resolve(file).None? || env.ignored(env.resolve(file).value)
    ensures Next(env, capacity, s, WatchEvent(file)) == s
  {
  }

  /**
   An event of a file in a module that is queued or in flight leaves the queue alone and
   marks the module with the resolved path.
   */
  lemma BusyModuleIsMarked(env: Env, capacity: nat, s: State, file: File, g: File, m: string)
    requires Stable(env) && Inv(env, capacity, s)
    requires env.resolve(file) == Some(g) && !env.ignored(g) && env.moduleOf(g) == m != ""
    requires s.inFlight == Some(m) || exists e <- s.queue :: IsOfModule(e, m)
    ensures var t := Next(env, capacity, s, WatchEvent(file));
            t.queue == s.queue && t.inFlight == s.inFlight && t.busy == s.busy && t.dirty == s.dirty[m := g]
  {
    IsBusy(env, capacity, s, m);
  }

  /** An event of a file in a module that is neither is put last in the queue, if there is room. */
  lemma FreeModuleIsQueued(env: Env, capacity: nat, s: State, file: File, g: File, m: string)
    requires Stable(env) && Inv(env, capacity, s)
    requires env.resolve(file) == Some(g) && !env.ignored(g) && env.moduleOf(g) == m != ""
    requires s.inFlight != Some(m) && (forall e <- s.queue :: !IsOfModule(e, m) && !IsOfFile(e, m))
    ensures var t := Next(env, capacity, s, WatchEvent(file));
            if |s.queue| < capacity then t.queue == s.queue + [g + "|" + m] && t.dirty == s.dirty
            else t.queue == s.queue && t.dirty == if m in s.dirty then s.dirty else s.dirty[m := g]
  {
    NotBusy(env, capacity, s, m);
  }

  lemma IsBusy(env: Env, capacity: nat, s: State, key: Key)
    requires Consistent(env, capacity, s) && key != ""
    requires s.inFlight == Some(key) || exists e <- s.queue :: IsOfModule(e, key) || IsOfFile(e, key)
    ensures key in s.busy
  {
    QueuedIff(s.queue, key);
  }

  lemma NotBusy(env: Env, capacity: nat, s: State, key: Key)
    requires Consistent(env, capacity, s) && key != ""
    requires s.inFlight != Some(key) && (forall e <- s.queue :: !IsOfModule(e, key) && !IsOfFile(e, key))
    ensures key !in s.busy
  {
    forall e <- s.queue
      ensures EventKey(e) != key
    {
      assert !IsOfModule(e, key) && !IsOfFile(e, key);
    }
  }

  /** Files without a module have a place each: only an event of that very file stands in the way of one. */
  lemma FreeFileIsQueued(env: Env, capacity: nat, s: State, file: File, g: File)
    requires Stable(env) && Inv(env, capacity, s)
    requires env.resolve(file) == Some(g) && !env.ignored(g) && env.moduleOf(g) == ""
    requires s.inFlight != Some(g) && (forall e <- s.queue :: !IsOfFile(e, g) && !IsOfModule(e, g))
    ensures var t := Next(env, capacity, s, WatchEvent(file));
            if |s.queue| < capacity then t.queue == s.queue + [g + "|"] && t.dirty == s.dirty
            else t.queue == s.queue && t.dirty == if g in s.dirty then s.dirty else s.dirty[g := g]
  {
    NotBusy(env, capacity, s, g);
    assert g + "|" + "" == g + "|";
  }

  lemma BusyFileIsMarked(env: Env, capacity: nat, s: State, file: File, g: File)
    requires Stable(env) && Inv(env, capacity, s)
    requires env.resolve(file) == Some(g) && !env.ignored(g) && env.moduleOf(g) == ""
    requires s.inFlight == Some(g) || exists e <- s.queue :: IsOfFile(e, g)
    ensures var t := Next(env, capacity, s, WatchEvent(file));
            t.queue == s.queue && t.inFlight == s.inFlight && t.busy == s.busy && t.dirty == s.dirty[g := g]
  {
    IsBusy(env, capacity, s, g);
  }

  /** Requeueing one mark: back into the queue if its key is free, and else it stays a mark. */
  lemma RequeueOneMark(env: Env, capacity: nat, s: State, key: Key, file: File)
    requires MarkOk(env, key, file) && |s.queue| < capacity && key !in s.dirty
    ensures var t := Requeue(env, capacity, s, key, file);
            if key in s.busy then t == s.(dirty := s.dirty[key := file])
            else t == s.(queue := s.queue + [file + "|" + env.moduleOf(file)], busy := s.busy + {key})
  {
  }

  lemma {:induction false} RequeueAllMarks(env: Env, capacity: nat, s: State, taken: map<Key, File>, order: seq<Key>,
          key: Key)
    requires MarksOk(env, taken) && |s.queue| + |order| <= capacity
    requires forall k <- order :: k in taken && k !in s.dirty
    requires forall i, j :: 0 <= i < j < |order| ==> order[i] != order[j]
    requires key in taken
    ensures var t := RequeueAll(env, capacity, s, taken, order);
            && s.queue <= t.queue
            && (key !in order && key !in s.dirty ==> key !in t.dirty)
            && (key !in order && key in s.dirty ==> key in t.dirty && t.dirty[key] == s.dirty[key])
            && (key in order && key in s.busy ==> key in t.dirty && t.dirty[key] == taken[key])
            && (key in order && key !in s.busy ==>
                  key !in t.dirty && taken[key] + "|" + env.moduleOf(taken[key]) in t.queue)
    decreases |order|
  {
    if order != [] {
      var k := order[0];
      var u := Requeue(env, capacity, s, k, taken[k]);
      assert k in taken && k !in s.dirty;
      RequeueOneMark(env, capacity, s, k, taken[k]);
      RequeueAllMarks(env, capacity, u, taken, order[1..], key);
      if key == k && key !in s.busy {
        var e := taken[key] + "|" + env.moduleOf(taken[key]);
        assert u.queue[|s.queue|] == e;
        assert RequeueAll(env, capacity, u, taken, order[1..]).queue[|s.queue|] == e;
      }
    }
  }

  /**
   When an event has been handled, each mark becomes an event of the path it holds, if there
   is room; a mark of a module that is queued already stays as it is.
   */
  lemma FinishRequeuesMarks(env: Env, capacity: nat, s: State, order: seq<Key>, m: string, g: File)
    requires Stable(env) && Inv(env, capacity, s) && s.inFlight.Some? && Lists(order, s.dirty.Keys)
    requires m in s.dirty && s.dirty[m] == g && |s.queue| + |s.dirty| <= capacity
    ensures var t := Next(env, capacity, s, Finish(order));
            && t.inFlight == None && s.queue <= t.queue
            && if exists e <- s.queue :: IsOfModule(e, m) || IsOfFile(e, m) then m in t.dirty && t.dirty[m] == g
               else m !in t.dirty && g + "|" + env.moduleOf(g) in t.queue
  {
    assert MarkOk(env, m, g) && m != "";
    QueuedIff(s.queue, m);
    FinishRequeuesUnlessQueued(env, capacity, s, order, m);
  }

  lemma FinishRequeuesUnlessQueued(env: Env, capacity: nat, s: State, order: seq<Key>, m: string)
    requires Inv(env, capacity, s) && s.inFlight.Some? && Lists(order, s.dirty.Keys)
    requires m in s.dirty && |s.queue| + |s.dirty| <= capacity
    ensures var t := Next(env, capacity, s, Finish(order));
            && t.inFlight == None && s.queue <= t.queue
            && if m in QueuedKeys(s.queue) then m in t.dirty && t.dirty[m] == s.dirty[m]
               else m !in t.dirty && s.dirty[m] + "|" + env.moduleOf(s.dirty[m]) in t.queue
  {
    ReleasedIsConsistent(env, capacity, s);
    ListsSize(order, s.dirty.Keys);
    RequeueAllMarks(env, capacity, Released(s), s.dirty, order, m);
    RequeueAllKeepsFlight(env, capacity, Released(s), s.dirty, order);
    FinishIsNext(env, capacity, s, order);
  }

  lemma QueuedIff(queue: seq<string>, m: string)
    requires m != ""
    ensures (exists e <- queue :: IsOfModule(e, m) || IsOfFile(e, m)) <==> m in QueuedKeys(queue)
  {
    forall e <- queue | IsOfModule(e, m) || IsOfFile(e, m)
      ensures m in QueuedKeys(queue)
    {
      assert EventKey(e) == m;
    }
    if m in QueuedKeys(queue) {
      var e :| e in queue && EventKey(e) == m;
      assert IsOfModule(e, m) || IsOfFile(e, m);
    }
  }

  lemma {:induction false} RequeueAllKeepsFlight(env: Env, capacity: nat, s: State, taken: map<Key, File>,
                                                 order: seq<Key>)
    requires forall k <- order :: k in taken
    ensures RequeueAll(env, capacity, s, taken, order).inFlight == s.inFlight
    decreases |order|
  {
    if order != [] {
      RequeueAllKeepsFlight(env, capacity, Requeue(env, capacity, s, order[0], taken[order[0]]), taken, order[1..]);
    }
  }

  // ---------------------------------------------------------------- draining

  /**
   The server handles events, and no new ones arrive: at each turn it takes an event, unless
   one is in flight, and finishes it; each order lists the marks found at that finish.
   */
  ghost predicate Quiet(env: Env, capacity: nat, s: State, orders: seq<seq<Key>>)
    decreases |orders|
  {
    orders != [] ==>
      var d := Next(env, capacity, s, Dequeue);
      Lists(orders[0], d.dirty.Keys) && Quiet(env, capacity, Next(env, capacity, d, Finish(orders[0])), orders[1..])
  }

  ghost function Drained(env: Env, capacity: nat, s: State, orders: seq<seq<Key>>): State
    decreases |orders|
  {
    if orders == [] then s
    else Drained(env, capacity, Next(env, capacity, Next(env, capacity, s, Dequeue), Finish(orders[0])), orders[1..])
  }

  /** Queued events, dirty marks, and the event in flight. */
  function Load(s: State): nat {
    |s.queue| + |s.dirty| + if s.inFlight.Some? then 1 else 0
  }

  /** With nothing in flight, a state without load is idle: no mark and no unseen event is left behind. */
  lemma NoLoadIsIdle(env: Env, capacity: nat, s: State)
    requires Inv(env, capacity, s) && s.inFlight.None? && s.queue == []
    ensures s == IDLE
  {
    assert QueuedKeys([]) == {};
    assert s.dirty.Keys == {};
  }

  lemma DequeueTakesOne(env: Env, capacity: nat, s: State)
    requires s.inFlight.Some? || s.queue != []
    ensures var d := Next(env, capacity, s, Dequeue);
            d.inFlight.Some? && d.dirty == s.dirty && Load(d) == Load(s)
  {
  }

  lemma HandlingShrinksLoad(env: Env, capacity: nat, s: State, order: seq<Key>)
    requires Stable(env) && capacity > 0 && Inv(env, capacity, s) && (s.inFlight.Some? || s.queue != [])
    requires Lists(order, s.dirty.Keys)
    ensures var t := Next(env, capacity, Next(env, capacity, s, Dequeue), Finish(order));
            Inv(env, capacity, t) && t.inFlight.None? && Load(t) < Load(s)
  {
    DequeueKeeps(env, capacity, s);
    DequeueTakesOne(env, capacity, s);
    FinishShrinks(env, capacity, Next(env, capacity, s, Dequeue), order);
  }

  lemma FinishShrinks(env: Env, capacity: nat, d: State, order: seq<Key>)
    requires Stable(env) && capacity > 0 && Inv(env, capacity, d) && d.inFlight.Some?
    requires Lists(order, d.dirty.Keys)
    ensures var t := Next(env, capacity, d, Finish(order));
            Inv(env, capacity, t) && t.inFlight.None? && Load(t) < Load(d)
  {
    FinishKeeps(env, capacity, d, order);
  }

  /**
   Once events stop, everything is handled: after as many turns as there are queued,
   in-flight and dirty keys, whatever the iteration orders, nothing is queued, dirty,
   busy or unseen.
   */
  lemma {:induction false} QuietServerDrains(env: Env, capacity: nat, s: State, orders: seq<seq<Key>>)
    requires Stable(env) && capacity > 0 && Inv(env, capacity, s)
    requires Quiet(env, capacity, s, orders)
    ensures |orders| >= Load(s) ==> Drained(env, capacity, s, orders) == IDLE
    decreases |orders|
  {
    if s.inFlight.None? && s.queue == [] {
      NoLoadIsIdle(env, capacity, s);
      IdleStaysIdle(env, capacity, orders);
    } else if orders != [] {
      DequeueTakesOne(env, capacity, s);
      HandlingShrinksLoad(env, capacity, s, orders[0]);
      QuietServerDrains(env, capacity, Next(env, capacity, Next(env, capacity, s, Dequeue), Finish(orders[0])),
        orders[1..]);
    }
  }

  lemma {:induction false} IdleStaysIdle(env: Env, capacity: nat, orders: seq<seq<Key>>)
    ensures Drained(env, capacity, IDLE, orders) == IDLE
    decreases |orders|
  {
    if orders != [] {
      assert Next(env, capacity, Next(env, capacity, IDLE, Dequeue), Finish(orders[0])) == IDLE;
      IdleStaysIdle(env, capacity, orders[1..]);
    }
  }

  // ---------------------------------------------------------------- capacity

  lemma {:induction false} DistinctKeysSize(queue: seq<string>)
    requires DistinctKeys(queue)
    ensures |QueuedKeys(queue)| == |queue|
    decreases |queue|
  {
    if queue == [] {
      assert QueuedKeys(queue) == {};
    } else {
      QueuedKeysTail(queue);
      DistinctKeysSize(queue[1..]);
      assert queue[0] in queue;
    }
  }

  /** All keys in use belong to `keys`, and no mark was left by a full queue: only busy keys are dirty. */
  predicate Fits(s: State, keys: set<Key>) {
    s.dirty.Keys <= s.busy <= keys
  }

  lemma EnqueueFits(env: Env, capacity: nat, s: State, file: File, keys: set<Key>)
    requires Consistent(env, capacity, s) && Fits(s, keys) && |keys| <= capacity
    requires KeyOf(env, file).Some? ==> KeyOf(env, file).value in keys
    ensures Fits(Enqueue(env, capacity, s, file), keys)
  {
    if KeyOf(env, file).Some? && KeyOf(env, file).value !in s.busy {
      DistinctKeysSize(s.queue);
      SubsetSize(QueuedKeys(s.queue), keys - {KeyOf(env, file).value});
    }
  }

  lemma {:induction false} RequeueAllFits(env: Env, capacity: nat, s: State, taken: map<Key, File>, order: seq<Key>,
          keys: set<Key>)
    requires Stable(env) && Consistent(env, capacity, s) && capacity > 0 && MarksOk(env, taken)
    requires forall k <- order :: k in taken
    requires Fits(s, keys) && taken.Keys <= keys && |keys| <= capacity
    ensures Fits(RequeueAll(env, capacity, s, taken, order), keys)
    decreases |order|
  {
    if order != [] {
      EnqueueFits(env, capacity, s, taken[order[0]], keys);
      RequeueKeeps(env, capacity, s, order[0], taken[order[0]]);
      RequeueAllFits(env, capacity, Requeue(env, capacity, s, order[0], taken[order[0]]), taken, order[1..], keys);
    }
  }

  predicate EventsIn(env: Env, steps: seq<Step>, keys: set<Key>) {
    forall step <- steps :: step.WatchEvent? && KeyOf(env, step.file).Some? ==> KeyOf(env, step.file).value in keys
  }

  /** With at least as many slots as distinct busy keys, no event of any run meets a full queue. */
  lemma {:induction false} QueueNeverOverflows(env: Env, capacity: nat, s: State, steps: seq<Step>, keys: set<Key>)
    requires Stable(env) && capacity > 0 && Inv(env, capacity, s) && Fits(s, keys)
    requires EventsIn(env, steps, keys) && |keys| <= capacity
    ensures Fits(Run(env, capacity, s, steps), keys)
    decreases |steps|
  {
    if steps != [] {
      assert steps[0] in steps;
      match steps[0] {
        case WatchEvent(file) => EnqueueFits(env, capacity, s, file, keys);
        case Dequeue =>
        case Finish(order) =>
          if s.inFlight.Some? && Lists(order, s.dirty.Keys) {
            ReleasedIsConsistent(env, capacity, s);
            RequeueAllFits(env, capacity, Released(s), s.dirty, order, keys);
          }
      }
      NextKeepsInv(env, capacity, s, steps[0]);
      QueueNeverOverflows(env, capacity, Next(env, capacity, s, steps[0]), steps[1..], keys);
    }
  }

  // ---------------------------------------------------------------- the finer interleaving

  /** The second half of a coalesced watch event, when other steps ran after its busy check. */
  function LateMark(env: Env, s: State, file: File): State
    requires KeyOf(env, file).Some?
  {
    var key := KeyOf(env, file).value;
    s.(dirty := s.dirty[key := env.resolve(file).value], unseen := s.unseen + {key})
  }

  /**
   If the busy check and the dirty mark of one event are split, the event is still
   not lost, but the mark is stranded until the next watch event, dirty with nobody left
   to requeue it, exactly when nothing is busy at the moment it lands.
   */
  lemma LateMarkStrandedIffIdle(env: Env, capacity: nat, s: State, file: File)
    requires Stable(env) && Inv(env, capacity, s) && KeyOf(env, file).Some?
    ensures var t := LateMark(env, s, file);
            && t.unseen <= QueuedKeys(t.queue) + t.dirty.Keys
            && (!Inv(env, capacity, t) <==> s.busy == {})
            && (s.busy == {} ==>
                  && Next(env, capacity, t, Dequeue) == t
                  && forall order :: Next(env, capacity, t, Finish(order)) == t)
  {
    var t := LateMark(env, s, file);
    assert KeyOf(env, file).value in t.dirty.Keys;
    NoKeysNoQueue(s.queue);
  }

  /** A stranded mark stays where it is in every run without a watch event that is taken. */
  lemma {:induction false} StrandedUntilWatchEvent(env: Env, capacity: nat, s: State, file: File, steps: seq<Step>)
    requires Stable(env) && Inv(env, capacity, s) && KeyOf(env, file).Some? && s.busy == {}
    requires forall step <- steps :: step.WatchEvent? ==> KeyOf(env, step.file).None?
    ensures Run(env, capacity, LateMark(env, s, file), steps) == LateMark(env, s, file)
    decreases |steps|
  {
    if steps != [] {
      assert steps[0] in steps;
      LateMarkStrandedIffIdle(env, capacity, s, file);
      StrandedUntilWatchEvent(env, capacity, s, file, steps[1..]);
    }
  }

  /** The next one that is taken, for whichever key, brings the invariant back, and with it the requeueing. */
  lemma WatchEventRevives(env: Env, capacity: nat, s: State, file: File, next: File)
    requires Stable(env) && capacity > 0 && Inv(env, capacity, s) && s.busy == {}
    requires KeyOf(env, file).Some? && KeyOf(env, next).Some?
    ensures Inv(env, capacity, Next(env, capacity, LateMark(env, s, file), WatchEvent(next)))
  {
    var t := LateMark(env, s, file);
    NoKeysNoQueue(s.queue);
    EnqueueKeeps(env, capacity, t, next);
    QueuedKeysPrefix(t.queue, Enqueue(env, capacity, t, next).queue);
  }

  lemma NoKeysNoQueue(queue: seq<string>)
    ensures QueuedKeys(queue) == {} <==> queue == []
  {
    if queue != [] {
      assert queue[0] in queue;
      assert EventKey(queue[0]) in QueuedKeys(queue);
    }
  }

  /** And that moment can be reached: the key's own event finishes between the check and the mark. */
  lemma LateMarkCanBeStranded(env: Env, capacity: nat, file: File)
    requires Stable(env) && capacity > 0 && KeyOf(env, file).Some?
    ensures var atCheck := Run(env, capacity, IDLE, [WatchEvent(file), Dequeue]);
            && KeyOf(env, file).value in atCheck.busy
            && Next(env, capacity, atCheck, Finish([])) == IDLE
            && !Inv(env, capacity, LateMark(env, IDLE, file))
  {
    var g := env.resolve(file).value;
    UnpackInvertsPack(g, env.moduleOf(g));
    var s1 := Next(env, capacity, IDLE, WatchEvent(file));
    var s2 := Next(env, capacity, s1, Dequeue);
    assert [WatchEvent(file), Dequeue][1..] == [Dequeue] && [Dequeue][1..] == [];
    assert Run(env, capacity, s1, [Dequeue]) == Run(env, capacity, s2, []) == s2;
    assert s1.queue == [Pack(g, env.moduleOf(g))] && s1.queue[1..] == [];
    assert QueuedKeys([]) == {};
    assert s2.unseen == {} && s2.busy == {KeyOf(env, file).value};
    LateMarkStrandedIffIdle(env, capacity, IDLE, file);
  }

  // ---------------------------------------------------------------- the hot-reload state

  class HotreloadState {
    const env: Env
    const capacity: nat
    var queue: seq<string>
    var busyModules: set<Key>
    var dirtyModules: map<Key, File>
    var inFlight: Option<Key>
    ghost var unseen: set<Key>

    ghost function View(): State
      reads this
    {
      State(queue, busyModules, dirtyModules, inFlight, unseen)
    }

    ghost predicate Valid()
      reads this
    {
      Stable(env) && capacity > 0 && Inv(env, capacity, View())
    }

    constructor (env: Env, capacity: nat)
      requires Stable(env) && capacity > 0
      ensures this.env == env && this.capacity == capacity && View() == IDLE && Valid()
    {
      this.env, this.capacity := env, capacity;
      queue, busyModules, dirtyModules, inFlight, unseen := [], {}, map[], None, {};
    }

    method BeginModuleEvent(key: Key) returns (ok: bool)
      modifies this`busyModules
      ensures ok <==> key !in old(busyModules)
      ensures busyModules == old(busyModules) + {key}
    {
      if key in busyModules {
        return false;
      }
      busyModules := busyModules + {key};
      return true;
    }

    method FinishModuleEvent(key: Key)
      modifies this`busyModules
      ensures busyModules == old(busyModules) - {key}
    {
      busyModules := busyModules - {key};
    }

    method MarkDirtyModule(key: Key, file: File)
      requires key != "" && file != ""
      modifies this`dirtyModules
      ensures dirtyModules == old(dirtyModules)[key := file]
    {
      dirtyModules := dirtyModules[key := file];
    }

    method MarkDirtyModuleIfAbsent(key: Key, file: File)
      requires key != "" && file != ""
      modifies this`dirtyModules
      ensures dirtyModules == if key in old(dirtyModules) then old(dirtyModules) else old(dirtyModules)[key := file]
    {
      if key !in dirtyModules {
        dirtyModules := dirtyModules[key := file];
      }
    }

    method TakeDirtyModules() returns (taken: map<Key, File>)
      modifies this`dirtyModules
      ensures taken == old(dirtyModules) && dirtyModules == map[]
    {
      taken := dirtyModules;
      dirtyModules := map[];
    }

    method EnqueueWatchEvent(file: File) returns (queued: bool)
      requires Stable(env)
      modifies this`queue, this`busyModules, this`dirtyModules
      ensures View() == Enqueue(env, capacity, old(View()), file)
      ensures queued <==> |queue| > |old(queue)|
    {
      var resolved := env.resolve(file);
      if resolved.None? || env.ignored(resolved.value) {
        return false;
      }
      var moduleName := env.moduleOf(resolved.value);
      var key := BusyKey(moduleName, resolved.value);
      var begun := BeginModuleEvent(key);
      if !begun {
        assert old(busyModules) + {key} == old(busyModules);
        MarkDirtyModule(key, resolved.value);
        return false;
      }
      if |queue| < capacity {
        queue := queue + [Pack(resolved.value, moduleName)];
        return true;
      }
      FinishModuleEvent(key);
      assert busyModules == old(busyModules);
      MarkDirtyModuleIfAbsent(key, resolved.value);
      return false;
    }

    /** A file system event arrives. */
    method OnWatchEvent(file: File)
      requires Valid()
      modifies this
      ensures Valid() && View() == Next(env, capacity, old(View()), WatchEvent(file))
    {
      WatchEventKeeps(env, capacity, View(), file);
      var _ := EnqueueWatchEvent(file);
      if KeyOf(env, file).Some? {
        unseen := unseen + {KeyOf(env, file).value};
      }
    }

    /** The serve loop takes the next event. */
    method TakeEvent() returns (file: File)
      requires Valid() && inFlight.None? && queue != []
      modifies this
      ensures Valid() && View() == Next(env, capacity, old(View()), Dequeue)
      ensures inFlight == Some(EventKey(old(queue)[0])) && file == Unpack(old(queue)[0]).0
    {
      DequeueKeeps(env, capacity, View());
      var e := queue[0];
      queue := queue[1..];
      file := Unpack(e).0;
      inFlight := Some(EventKey(e));
      unseen := unseen - {EventKey(e)};
    }

    /** One iteration of requeueDirtyWatchModules. */
    method RequeueOne(key: Key, file: File) returns (queued: bool)
      requires Stable(env) && MarkOk(env, key, file)
      modifies this`queue, this`busyModules, this`dirtyModules
      ensures View() == Requeue(env, capacity, old(View()), key, file)
      ensures queued <==> |queue| > |old(queue)|
    {
      if env.ignored(file) {
        return false;
      }
      if key in busyModules {
        MarkDirtyModuleIfAbsent(key, file);
        return false;
      }
      queued := EnqueueWatchEvent(file);
    }

    /** Go iterates over the taken map in an order of its own; `order` records it. */
    method RequeueDirtyWatchModules(taken: map<Key, File>) returns (ghost order: seq<Key>)
      requires Stable(env) && MarksOk(env, taken)
      modifies this`queue, this`busyModules, this`dirtyModules
      ensures Lists(order, taken.Keys)
      ensures View() == RequeueAll(env, capacity, old(View()), taken, order)
    {
      var keys := taken.Keys;
      order := [];
      while keys != {}
        invariant keys <= taken.Keys && Lists(order, taken.Keys - keys)
        invariant View() == RequeueAll(env, capacity, old(View()), taken, order)
        decreases keys
      {
        var key :| key in keys;
        RequeueAllSnoc(env, capacity, old(View()), taken, order, key);
        var _ := RequeueOne(key, taken[key]);
        ListsNext(order, taken.Keys, keys, key);
        keys := keys - {key};
        order := order + [key];
      }
      assert taken.Keys - keys == taken.Keys;
    }

    method ReleaseAndTake() returns (taken: map<Key, File>)
      requires inFlight.Some?
      modifies this`busyModules, this`inFlight, this`dirtyModules
      ensures View() == Released(old(View())) && taken == old(dirtyModules)
    {
      FinishModuleEvent(inFlight.value);
      inFlight := None;
      taken := TakeDirtyModules();
    }

    /** What handleQueuedWatchEvent defers: release the key, then requeue the dirty modules. */
    method FinishAndRequeue() returns (ghost order: seq<Key>)
      requires Valid() && inFlight.Some?
      modifies this
      ensures Valid() && Lists(order, old(dirtyModules).Keys)
      ensures View() == Next(env, capacity, old(View()), Finish(order))
    {
      ghost var before := View();
      var taken := ReleaseAndTake();
      order := RequeueDirtyWatchModules(taken);
      FinishIsNext(env, capacity, before, order);
      NextKeepsInv(env, capacity, before, Finish(order));
    }
  }

  lemma FinishIsNext(env: Env, capacity: nat, s: State, order: seq<Key>)
    requires s.inFlight.Some? && Lists(order, s.dirty.Keys)
    ensures Next(env, capacity, s, Finish(order)) == RequeueAll(env, capacity, Released(s), s.dirty, order)
  {
  }

  lemma ListsSnoc(order: seq<Key>, keys: set<Key>, key: Key)
    requires Lists(order, keys) && key !in keys
    ensures Lists(order + [key], keys + {key})
  {
    forall k
      ensures k in order + [key] <==> k in keys + {key}
    {
      assert k in order + [key] <==> k in order || k == key;
    }
  }

  lemma ListsNext(order: seq<Key>, all: set<Key>, rest: set<Key>, key: Key)
    requires Lists(order, all - rest) && key in rest && rest <= all
    ensures Lists(order + [key], all - (rest - {key}))
  {
    ListsSnoc(order, all - rest, key);
    assert all - (rest - {key}) == all - rest + {key};
  }

  lemma {:induction false} RequeueAllSnoc(env: Env, capacity: nat, s: State, taken: map<Key, File>, order: seq<Key>,
          key: Key)
    requires key in taken && forall k <- order :: k in taken
    ensures forall k <- order + [key] :: k in taken
    ensures RequeueAll(env, capacity, s, taken, order + [key])
            == Requeue(env, capacity, RequeueAll(env, capacity, s, taken, order), key, taken[key])
    decreases |order|
  {
    if order == [] {
      assert [] + [key] == [key] && [key][1..] == [];
    } else {
      RequeueAllSnoc(env, capacity, Requeue(env, capacity, s, order[0], taken[order[0]]), taken, order[1..], key);
      assert (order + [key])[1..] == order[1..] + [key];
    }
  }
}
