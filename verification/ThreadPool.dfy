/**
 Thread accounting of the JavaScript executor pool (internal/defaultjsexecutor/pool.go).

 createThread and detachThread run in any number of goroutines at once.  Their
 atomic operations are the steps: additions to the 32-bit thread counter, stores to
 and deletes from the thread map, and loads and compare-and-swaps of the pointer to
 the copy-on-write id list.  States before `stop` only.
 */
module ThreadPool {

  import opened Wrappers

  /** A createThread call, and the id of the thread it creates. */
  type Id = nat

  const WORD: nat := 0x1_0000_0000

  /** Where a createThread call stands. */
  datatype Stage =
    | Begun
    | Counted(newCount: nat)
    | OverLimit
    | Starting
    | InitFailed
    | Ready
    | Stored
    | Adding(seen: nat, list: seq<Id>)
    | Created
    | Failed

  /** Where the one detachThread call stands that found the thread in the map. */
  datatype Removal =
    | NotRemoved
    | Deleted
    | Removing(seen: nat, list: seq<Id>)
    | OffList
    | Detached

  /** `early` is history: the id was taken off the list before it had been put on it. */
  datatype Thread = Thread(stage: Stage, removal: Removal, early: bool)

  /** `version` stands for the identity of the list pointer. */
  datatype State = State(count: nat, threads: set<Id>, ids: seq<Id>, version: nat, calls: map<Id, Thread>)

  const COLD := State(0, {}, [], 0, map[])

  datatype Step =
    | Call(id: Id)
    | Create(id: Id, initOk: bool)
    | Detach(id: Id)

  // ---------------------------------------------------------------- one step

  function Plus(count: nat): nat {
    (count + 1) % WORD
  }

  function Minus(count: nat): nat {
    (count + (WORD - 1)) % WORD
  }

  function Without(ids: seq<Id>, id: Id): seq<Id> {
    if ids == [] then []
    else (if ids[0] == id then [] else [ids[0]]) + Without(ids[1..], id)
  }

  function Next(max: nat, s: State, step: Step): State {
    var id := step.id;
    if id !in s.calls then
      if step.Call? then s.(calls := s.calls[id := Thread(Begun, NotRemoved, false)]) else s
    else
      match step
      case Call(_) => s
      case Create(_, initOk) => AdvanceCreate(max, s, id, initOk)
      case Detach(_) => AdvanceDetach(s, id)
  }

  function ToStage(s: State, id: Id, stage: Stage): State
    requires id in s.calls
  {
    s.(calls := s.calls[id := s.calls[id].(stage := stage)])
  }

  function ToRemoval(s: State, id: Id, removal: Removal): State
    requires id in s.calls
  {
    s.(calls := s.calls[id := s.calls[id].(removal := removal)])
  }

  /** createThread and addThreadToList. */
  function AdvanceCreate(max: nat, s: State, id: Id, initOk: bool): State
    requires id in s.calls
  {
    match s.calls[id].stage
    case Begun => ToStage(s.(count := Plus(s.count)), id, Counted(Plus(s.count)))
    case Counted(n) => ToStage(s, id, if n > max then OverLimit else Starting)
    case OverLimit => ToStage(s.(count := Minus(s.count)), id, Failed)
    case Starting => ToStage(s, id, if initOk then Ready else InitFailed)
    case InitFailed => ToStage(s.(count := Minus(s.count)), id, Failed)
    case Ready => ToStage(s.(threads := s.threads + {id}), id, Stored)
    case Stored => ToStage(s, id, Adding(s.version, s.ids))
    case Adding(seen, list) =>
      if seen == s.version then ToStage(s.(ids := list + [id], version := s.version + 1), id, Created)
      else ToStage(s, id, Stored)
    case Created => s
    case Failed => s
  }

  /** detachThread and removeThreadFromList; the rollback of a warm-up does the same. */
  function AdvanceDetach(s: State, id: Id): State
    requires id in s.calls
  {
    match s.calls[id].removal
    case NotRemoved => if id in s.threads then ToRemoval(s.(threads := s.threads - {id}), id, Deleted) else s
    case Deleted => ToRemoval(s, id, Removing(s.version, s.ids))
    case Removing(seen, list) =>
      if seen == s.version then
        ToRemoval(s.(ids := Without(list, id), version := s.version + 1,
                     calls := s.calls[id := s.calls[id].(early := id !in list)]), id, OffList)
      else ToRemoval(s, id, Deleted)
    case OffList => ToRemoval(s.(count := Minus(s.count)), id, Detached)
    case Detached => s
  }

  function Run(max: nat, s: State, steps: seq<Step>): State
    decreases |steps|
  {
    if steps == [] then s else Run(max, Next(max, s, steps[0]), steps[1..])
  }

  // ---------------------------------------------------------------- map and list

  /** The thread has been stored in the map at some time. */
  predicate Registered(t: Thread) {
    t.stage.Stored? || t.stage.Adding? || t.stage.Created?
  }

  predicate TakenOff(t: Thread) {
    t.removal.OffList? || t.removal.Detached?
  }

  predicate SnapshotOk(s: State, seen: nat, list: seq<Id>) {
    seen <= s.version && (seen == s.version ==> list == s.ids)
  }

  predicate ThreadOk(s: State, id: Id)
    requires id in s.calls
  {
    var t := s.calls[id];
    && (id in s.threads <==> Registered(t) && t.removal.NotRemoved?)
    && (!t.removal.NotRemoved? ==> Registered(t))
    && (id in s.ids <==> t.stage.Created? && (TakenOff(t) ==> t.early))
    && (t.early ==> TakenOff(t))
    && (TakenOff(t) && !t.stage.Created? ==> t.early)
    && (t.stage.Adding? ==> SnapshotOk(s, t.stage.seen, t.stage.list))
    && (t.removal.Removing? ==> SnapshotOk(s, t.removal.seen, t.removal.list))
  }

  predicate ListInv(s: State) {
    && (forall id | id in s.calls :: ThreadOk(s, id))
    && (forall id | id in s.threads :: id in s.calls)
    && (forall id | id in s.ids :: id in s.calls)
    && NoDuplicates(s.ids)
  }

  lemma {:induction false} WithoutContents(ids: seq<Id>, id: Id)
    ensures forall x :: x in Without(ids, id) <==> x in ids && x != id
    ensures id !in ids ==> Without(ids, id) == ids
  {
    if ids != [] {
      WithoutContents(ids[1..], id);
      assert ids == [ids[0]] + ids[1..];
    }
  }

  lemma {:induction false} WithoutNoDuplicates(ids: seq<Id>, id: Id)
    requires NoDuplicates(ids)
    ensures NoDuplicates(Without(ids, id))
  {
    if ids != [] {
      WithoutNoDuplicates(ids[1..], id);
      WithoutContents(ids[1..], id);
      forall x | x in ids[1..]
        ensures x != ids[0]
      {
        var i :| 0 <= i < |ids[1..]| && ids[1..][i] == x;
        assert ids[i + 1] == x;
      }
      var w := Without(ids[1..], id);
      assert forall i :: 0 <= i < |w| ==> w[i] in w;
    }
  }

  lemma CreateKeepsOwnThread(max: nat, s: State, id: Id, initOk: bool)
    requires id in s.calls && ThreadOk(s, id)
    ensures ThreadOk(AdvanceCreate(max, s, id, initOk), id)
  {
  }

  lemma CreateKeepsOtherThread(max: nat, s: State, a: Id, initOk: bool, id: Id)
    requires a in s.calls && id in s.calls && a != id && ThreadOk(s, a) && ThreadOk(s, id)
    ensures ThreadOk(AdvanceCreate(max, s, a, initOk), id)
  {
  }

  lemma CreateKeepsThread(max: nat, s: State, a: Id, initOk: bool, id: Id)
    requires ListInv(s) && a in s.calls && id in s.calls
    ensures ThreadOk(AdvanceCreate(max, s, a, initOk), id)
  {
    assert ThreadOk(s, a) && ThreadOk(s, id);
    if a == id {
      CreateKeepsOwnThread(max, s, id, initOk);
    } else {
      CreateKeepsOtherThread(max, s, a, initOk, id);
    }
  }

  lemma DetachKeepsThread(s: State, a: Id, id: Id)
    requires ListInv(s) && a in s.calls && id in s.calls
    ensures ThreadOk(AdvanceDetach(s, a), id)
  {
    assert ThreadOk(s, a) && ThreadOk(s, id);
    if s.calls[a].removal.Removing? {
      WithoutContents(s.calls[a].removal.list, a);
    }
  }

  lemma NextKeepsList(max: nat, s: State, step: Step)
    requires ListInv(s)
    ensures ListInv(Next(max, s, step))
  {
    var t := Next(max, s, step);
    forall id | id in t.calls
      ensures ThreadOk(t, id)
    {
      if id in s.calls {
        assert ThreadOk(s, id);
        if step.id in s.calls && step.Create? {
          CreateKeepsThread(max, s, step.id, step.initOk, id);
        } else if step.id in s.calls && step.Detach? {
          DetachKeepsThread(s, step.id, id);
        }
      }
    }
    if step.id in s.calls {
      assert ThreadOk(s, step.id);
      NextKeepsDistinct(max, s, step);
    }
  }

  lemma SnocKeepsDistinct(ids: seq<Id>, id: Id)
    requires NoDuplicates(ids) && id !in ids
    ensures NoDuplicates(ids + [id])
  {
  }

  lemma NextKeepsDistinct(max: nat, s: State, step: Step)
    requires ListInv(s) && step.id in s.calls
    ensures NoDuplicates(Next(max, s, step).ids)
    ensures forall id | id in Next(max, s, step).ids :: id in s.calls
  {
    var t := Next(max, s, step);
    assert ThreadOk(s, step.id);
    WithoutContents(s.ids, step.id);
    WithoutNoDuplicates(s.ids, step.id);
    if step.Create? && t.ids != s.ids {
      assert t.ids == s.ids + [step.id] && step.id !in s.ids;
      SnocKeepsDistinct(s.ids, step.id);
    } else if t.ids != s.ids {
      assert t.ids == Without(s.ids, step.id);
    }
  }

  // ---------------------------------------------------------------- slots

  /** The call accounts for one unit of the counter that no registered thread accounts for. */
  predicate Holds(t: Thread) {
    || t.stage.Counted? || t.stage.OverLimit? || t.stage.Starting? || t.stage.InitFailed? || t.stage.Ready?
    || t.removal.Deleted? || t.removal.Removing? || t.removal.OffList?
  }

  /** The call passes the limit check, and its thread is not registered yet. */
  predicate Admitted(max: nat, t: Thread) {
    (t.stage.Counted? && t.stage.newCount <= max) || t.stage.Starting? || t.stage.Ready?
  }

  function Holders(s: State): set<Id> {
    set id | id in s.calls && Holds(s.calls[id])
  }

  function AdmittedCalls(max: nat, s: State): set<Id> {
    set id | id in s.calls && Admitted(max, s.calls[id])
  }

  function Initialising(s: State): set<Id> {
    set id | id in s.calls && (s.calls[id].stage.Starting? || s.calls[id].stage.Ready?)
  }

  function Slots(s: State): nat {
    |s.threads| + |Holders(s)|
  }

  /** Fewer than 2^32 slots are in use at once, so the counter does not wrap around. */
  predicate Roomy(s: State) {
    Slots(s) + 1 < WORD
  }

  predicate RoomyRun(max: nat, s: State, steps: seq<Step>)
    decreases |steps|
  {
    Roomy(s) && (steps != [] ==> RoomyRun(max, Next(max, s, steps[0]), steps[1..]))
  }

  /** The counter is the number of slots; registered and admitted threads are within the limit. */
  predicate CountInv(max: nat, s: State) {
    s.count == Slots(s) && |s.threads| + |AdmittedCalls(max, s)| <= max
  }

  lemma HoldersAfter(s: State, t: State, id: Id)
    requires id in t.calls && t.calls == s.calls[id := t.calls[id]]
    ensures |Holders(t)|
            == |Holders(s)| - (if id in s.calls && Holds(s.calls[id]) then 1 else 0)
               + (if Holds(t.calls[id]) then 1 else 0)
  {
    var rest := Holders(s) - {id};
    assert Holders(t) == if Holds(t.calls[id]) then rest + {id} else rest;
    assert Holders(s) == if id in Holders(s) then rest + {id} else rest;
  }

  lemma AdmittedAfter(max: nat, s: State, t: State, id: Id)
    requires id in t.calls && t.calls == s.calls[id := t.calls[id]]
    ensures |AdmittedCalls(max, t)|
            == |AdmittedCalls(max, s)| - (if id in s.calls && Admitted(max, s.calls[id]) then 1 else 0)
               + (if Admitted(max, t.calls[id]) then 1 else 0)
  {
    var rest := AdmittedCalls(max, s) - {id};
    assert AdmittedCalls(max, t) == if Admitted(max, t.calls[id]) then rest + {id} else rest;
    assert AdmittedCalls(max, s) == if id in AdmittedCalls(max, s) then rest + {id} else rest;
  }

  lemma CreateKeepsCount(max: nat, s: State, id: Id, initOk: bool)
    requires CountInv(max, s) && Roomy(s) && id in s.calls && ThreadOk(s, id)
    ensures CountInv(max, AdvanceCreate(max, s, id, initOk))
  {
    var t := AdvanceCreate(max, s, id, initOk);
    HoldersAfter(s, t, id);
    AdmittedAfter(max, s, t, id);
    SubsetSize(AdmittedCalls(max, s), Holders(s));
    assert Holds(s.calls[id]) ==> id in Holders(s);
  }

  lemma DetachKeepsCount(max: nat, s: State, id: Id)
    requires CountInv(max, s) && Roomy(s) && id in s.calls && ThreadOk(s, id)
    ensures CountInv(max, AdvanceDetach(s, id))
  {
    var t := AdvanceDetach(s, id);
    HoldersAfter(s, t, id);
    AdmittedAfter(max, s, t, id);
    var r := s.calls[id].removal;
    assert Holds(s.calls[id]) ==> id in Holders(s);
    assert Admitted(max, t.calls[id]) == Admitted(max, s.calls[id]);
    if r == NotRemoved && id in s.threads {
      assert |t.threads| == |s.threads| - 1;
      assert !Holds(s.calls[id]) && Holds(t.calls[id]);
    } else if r == OffList {
      assert t.threads == s.threads;
      assert Holds(s.calls[id]) && !Holds(t.calls[id]);
      MinusOne(s.count);
    } else {
      assert t.threads == s.threads && t.count == s.count;
      assert Holds(s.calls[id]) == Holds(t.calls[id]);
    }
  }

  lemma MinusOne(count: nat)
    requires 0 < count < WORD
    ensures Minus(count) == count - 1
  {
  }

  lemma NextKeepsCount(max: nat, s: State, step: Step)
    requires ListInv(s) && CountInv(max, s) && Roomy(s)
    ensures CountInv(max, Next(max, s, step))
  {
    var id := step.id;
    if id in s.calls {
      if step.Create? {
        CreateKeepsCount(max, s, id, step.initOk);
      } else if step.Detach? {
        DetachKeepsCount(max, s, id);
      }
    } else if step.Call? {
      HoldersAfter(s, Next(max, s, step), id);
      AdmittedAfter(max, s, Next(max, s, step), id);
    }
  }

  /**
   In every interleaving, registered threads and threads being initialised never
   exceed the pool's maximum, although the raw counter does; and the id list never
   holds an id twice.
   */
  lemma {:induction false} PoolStaysWithinLimit(max: nat, s: State, steps: seq<Step>)
    requires ListInv(s) && CountInv(max, s) && RoomyRun(max, s, steps)
    ensures var t := Run(max, s, steps);
            && ListInv(t) && CountInv(max, t)
            && |t.threads| + |Initialising(t)| <= max
    decreases |steps|
  {
    if steps == [] {
      SubsetSize(Initialising(s), AdmittedCalls(max, s));
    } else {
      NextKeepsList(max, s, steps[0]);
      NextKeepsCount(max, s, steps[0]);
      PoolStaysWithinLimit(max, Next(max, s, steps[0]), steps[1..]);
    }
  }

  // ---------------------------------------------------------------- quiescent states

  /** No call is inside createThread or detachThread. */
  predicate Quiescent(s: State) {
    forall id | id in s.calls ::
      && (s.calls[id].stage.Begun? || s.calls[id].stage.Created? || s.calls[id].stage.Failed?)
      && (s.calls[id].removal.NotRemoved? || s.calls[id].removal.Detached?)
  }

  function EarlyIds(s: State): set<Id> {
    set id | id in s.calls && s.calls[id].early
  }

  function Elements(ids: seq<Id>): set<Id> {
    set id | id in ids
  }

  lemma QuiescentCount(max: nat, s: State)
    requires CountInv(max, s) && Quiescent(s)
    ensures s.count == |s.threads|
  {
    assert Holders(s) == {};
  }

  /**
   In a quiescent state the counter is the number of threads, and the list holds the
   threads together with the ids that were detached before they were published: so
   it agrees with the map exactly when there are none of those.
   */
  lemma QuiescentAgreement(max: nat, s: State)
    requires ListInv(s) && CountInv(max, s) && Quiescent(s)
    ensures s.count == |s.threads|
    ensures Elements(s.ids) == s.threads + EarlyIds(s)
    ensures Elements(s.ids) == s.threads <==> EarlyIds(s) == {}
  {
    assert forall id | id in s.calls :: ThreadOk(s, id);
    QuiescentCount(max, s);
    forall id
      ensures id in s.ids <==> id in s.threads || id in EarlyIds(s)
    {
      if id in s.calls {
        assert ThreadOk(s, id);
      }
    }
    assert EarlyIds(s) !! s.threads;
  }

  /** Every thread is published before it is detached. */
  predicate PublishedFirst(max: nat, s: State, steps: seq<Step>)
    decreases |steps|
  {
    steps != [] ==>
      && (steps[0].Detach? && steps[0].id in s.threads && steps[0].id in s.calls ==> s.calls[steps[0].id].stage.Created?)
      && PublishedFirst(max, Next(max, s, steps[0]), steps[1..])
  }

  predicate RemovedOnlyPublished(s: State) {
    forall id | id in s.calls :: !s.calls[id].removal.NotRemoved? ==> s.calls[id].stage.Created? && !s.calls[id].early
  }

  lemma NextRemovesOnlyPublished(max: nat, s: State, step: Step)
    requires ListInv(s) && RemovedOnlyPublished(s)
    requires step.Detach? && step.id in s.threads && step.id in s.calls ==> s.calls[step.id].stage.Created?
    ensures RemovedOnlyPublished(Next(max, s, step))
  {
    if step.id in s.calls {
      assert ThreadOk(s, step.id);
    }
  }

  lemma {:induction false} PublishedFirstHasNoEarlyIds(max: nat, s: State, steps: seq<Step>)
    requires ListInv(s) && RemovedOnlyPublished(s) && PublishedFirst(max, s, steps)
    ensures RemovedOnlyPublished(Run(max, s, steps)) && EarlyIds(Run(max, s, steps)) == {}
    decreases |steps|
  {
    if steps == [] {
      forall id | id in s.calls
        ensures !s.calls[id].early
      {
        assert ThreadOk(s, id);
      }
    } else {
      NextKeepsList(max, s, steps[0]);
      NextRemovesOnlyPublished(max, s, steps[0]);
      PublishedFirstHasNoEarlyIds(max, Next(max, s, steps[0]), steps[1..]);
    }
  }

  // ---------------------------------------------------------------- failed warm-up

  lemma WithoutKeepsPrefix(prefix: seq<Id>, ids: seq<Id>, id: Id)
    requires prefix <= ids && id !in prefix
    ensures prefix <= Without(ids, id)
    decreases |prefix|
  {
    if prefix != [] {
      assert ids[0] == prefix[0] && prefix[0] in prefix;
      assert prefix[1..] <= ids[1..];
      WithoutKeepsPrefix(prefix[1..], ids[1..], id);
    }
  }

  /** The steps are those of calls in `started`. */
  predicate StepsOf(steps: seq<Step>, started: set<Id>) {
    forall step <- steps :: step.id in started
  }

  /** Calls other than the started ones stand where they stood, and the old list is the beginning of the new. */
  predicate OldCallsKept(s: State, t: State, started: set<Id>) {
    && ListInv(t)
    && (forall id | id in s.calls :: id in t.calls && t.calls[id] == s.calls[id])
    && t.calls.Keys <= s.calls.Keys + started
    && s.ids <= t.ids
  }

  lemma StartedStepKeepsOld(max: nat, s: State, t: State, started: set<Id>, step: Step)
    requires ListInv(s) && OldCallsKept(s, t, started) && step.id in started && started !! s.calls.Keys
    ensures OldCallsKept(s, Next(max, t, step), started)
  {
    NextKeepsList(max, t, step);
    if step.id in t.calls {
      assert ThreadOk(t, step.id);
      WithoutKeepsPrefix(s.ids, t.ids, step.id);
    }
  }

  lemma {:induction false} StartedStepsKeepOld(max: nat, s: State, t: State, started: set<Id>, steps: seq<Step>)
    requires ListInv(s) && OldCallsKept(s, t, started) && StepsOf(steps, started) && started !! s.calls.Keys
    ensures OldCallsKept(s, Run(max, t, steps), started)
    decreases |steps|
  {
    if steps != [] {
      assert steps[0] in steps;
      StartedStepKeepsOld(max, s, t, started, steps[0]);
      StartedStepsKeepOld(max, s, Next(max, t, steps[0]), started, steps[1..]);
    }
  }

  /** While only the started calls move, they are the only slots added. */
  lemma SlotsBound(s: State, t: State, started: set<Id>)
    requires ListInv(s) && Quiescent(s) && OldCallsKept(s, t, started)
    ensures Slots(t) <= |s.threads| + |started|
  {
    forall id | id in t.threads
      ensures id in s.threads + started && id !in Holders(t)
    {
      assert ThreadOk(t, id);
      if id in s.calls {
        assert ThreadOk(s, id);
      }
    }
    assert Holders(t) <= started;
    var used := t.threads + Holders(t);
    assert |used| == |t.threads| + |Holders(t)|;
    SubsetSize(used, s.threads + started);
  }

  lemma {:induction false} StartedStepsKeepCount(max: nat, s: State, t: State, started: set<Id>, steps: seq<Step>)
    requires ListInv(s) && Quiescent(s) && OldCallsKept(s, t, started) && StepsOf(steps, started)
    requires started !! s.calls.Keys
    requires CountInv(max, t) && |s.threads| + |started| + 1 < WORD
    ensures CountInv(max, Run(max, t, steps))
    decreases |steps|
  {
    if steps != [] {
      assert steps[0] in steps;
      SlotsBound(s, t, started);
      NextKeepsCount(max, t, steps[0]);
      StartedStepKeepsOld(max, s, t, started, steps[0]);
      StartedStepsKeepCount(max, s, Next(max, t, steps[0]), started, steps[1..]);
    }
  }

  /** Nobody has begun to remove a started call's thread. */
  predicate Untouched(t: State, started: set<Id>) {
    forall id <- started :: id in t.calls ==> t.calls[id].removal == NotRemoved && !t.calls[id].early
  }

  lemma {:induction false} CreatingLeavesUntouched(max: nat, t: State, started: set<Id>, steps: seq<Step>)
    requires Untouched(t, started) && forall step <- steps :: !step.Detach?
    ensures Untouched(Run(max, t, steps), started)
    decreases |steps|
  {
    if steps != [] {
      assert steps[0] in steps;
      CreatingLeavesUntouched(max, Next(max, t, steps[0]), started, steps[1..]);
    }
  }

  /** LoadAndDelete, the list copied and swapped, and the counter: one created thread is rolled back. */
  function RollBackOne(id: Id): seq<Step> {
    [Detach(id), Detach(id), Detach(id), Detach(id)]
  }

  /** rollbackWarmupThreads. */
  function RollBack(order: seq<Id>): seq<Step> {
    if order == [] then [] else RollBackOne(order[0]) + RollBack(order[1..])
  }

  lemma {:induction false} RunConcat(max: nat, s: State, a: seq<Step>, b: seq<Step>)
    ensures Run(max, s, a + b) == Run(max, Run(max, s, a), b)
    decreases |a|
  {
    if a == [] {
      assert a + b == b;
    } else {
      assert (a + b)[0] == a[0] && (a + b)[1..] == a[1..] + b;
      RunConcat(max, Next(max, s, a[0]), a[1..], b);
    }
  }

  /** With nobody in between the compare-and-swap succeeds at once. */
  lemma RolledBackOne(max: nat, t: State, id: Id)
    requires ListInv(t) && id in t.calls && t.calls[id] == Thread(Created, NotRemoved, false)
    ensures Run(max, t, RollBackOne(id)).calls == t.calls[id := Thread(Created, Detached, false)]
  {
    assert ThreadOk(t, id);
    var e := RollBackOne(id);
    var t1 := Next(max, t, e[0]);
    var t2 := Next(max, t1, e[1]);
    var t3 := Next(max, t2, e[2]);
    var t4 := Next(max, t3, e[3]);
    assert t3.calls[id] == Thread(Created, OffList, false);
    assert t4.calls == t.calls[id := Thread(Created, Detached, false)];
    RunUnrolls(max, t, e);
    RunUnrolls(max, t1, e[1..]);
    RunUnrolls(max, t2, e[2..]);
    RunUnrolls(max, t3, e[3..]);
  }

  lemma {:induction false} RollBackSteps(order: seq<Id>, started: set<Id>)
    requires forall id <- order :: id in started
    ensures StepsOf(RollBack(order), started)
  {
    if order != [] {
      RollBackSteps(order[1..], started);
    }
  }

  /** All calls have returned: the threads in `left` are still there, the other created ones are gone. */
  predicate RollingBack(t: State, started: set<Id>, left: seq<Id>) {
    && NoDuplicates(left)
    && (forall id <- left :: id in started && id in t.calls && t.calls[id] == Thread(Created, NotRemoved, false))
    && forall id <- started :: id in t.calls && !t.calls[id].early
         && (if t.calls[id].stage.Created? then id in left || t.calls[id].removal.Detached?
             else t.calls[id].stage.Failed? && t.calls[id].removal.NotRemoved?)
  }

  lemma {:induction false} RollBackEnds(max: nat, s: State, t: State, started: set<Id>, left: seq<Id>)
    requires ListInv(s) && OldCallsKept(s, t, started) && started !! s.calls.Keys && RollingBack(t, started, left)
    ensures RollingBack(Run(max, t, RollBack(left)), started, [])
    decreases |left|
  {
    if left != [] {
      var id := left[0];
      var t' := Run(max, t, RollBackOne(id));
      assert left == [id] + left[1..];
      assert forall i :: 0 <= i < |left[1..]| ==> left[1..][i] == left[i + 1];
      RolledBackOne(max, t, id);
      StartedStepsKeepOld(max, s, t, started, RollBackOne(id));
      RollBackEnds(max, s, t', started, left[1..]);
      RunConcat(max, t, RollBackOne(id), RollBack(left[1..]));
    }
  }

  /** When all new threads are gone, map, list and counter are the old ones. */
  lemma NothingNewIsLeft(max: nat, s: State, t: State, started: set<Id>)
    requires ListInv(s) && CountInv(max, s) && Quiescent(s) && OldCallsKept(s, t, started) && CountInv(max, t)
    requires started !! s.calls.Keys && RollingBack(t, started, [])
    ensures Quiescent(t) && t.threads == s.threads && t.ids == s.ids && t.count == s.count
  {
    forall id
      ensures id in t.threads <==> id in s.threads
      ensures id in t.ids <==> id in s.ids
    {
      if id in t.calls {
        assert ThreadOk(t, id);
      }
      if id in s.calls {
        assert ThreadOk(s, id);
      }
    }
    assert t.threads == s.threads;
    QuiescentAgreement(max, s);
    QuiescentAgreement(max, t);
    if s.ids < t.ids {
      ShorterPrefixMissesElement(s.ids, t.ids);
    }
  }

  /**
   A failed warm-up leaves no trace.  From a quiescent pool, new createThread calls
   interleave in any way until each has returned; then the threads they created are
   rolled back one after the other, in the order their results arrived.  Map, list and
   counter are what they were.
   */
  lemma FailedWarmupRestoresPool(max: nat, s: State, started: set<Id>, creating: seq<Step>, order: seq<Id>)
    requires ListInv(s) && CountInv(max, s) && Quiescent(s)
    requires started !! s.calls.Keys && |s.threads| + |started| + 1 < WORD
    requires StepsOf(creating, started) && forall step <- creating :: !step.Detach?
    requires var t := Run(max, s, creating);
             && (forall id <- started :: id in t.calls && (t.calls[id].stage.Created? || t.calls[id].stage.Failed?))
             && NoDuplicates(order) && forall id :: id in order <==> id in started && t.calls[id].stage.Created?
    ensures var u := Run(max, s, creating + RollBack(order));
            Quiescent(u) && u.threads == s.threads && u.ids == s.ids && u.count == s.count
  {
    var t := Run(max, s, creating);
    StartedStepsKeepOld(max, s, s, started, creating);
    CreatingLeavesUntouched(max, s, started, creating);
    StartedStepsKeepCount(max, s, s, started, creating);
    assert RollingBack(t, started, order);
    RollBackSteps(order, started);
    RollBackEnds(max, s, t, started, order);
    StartedStepsKeepOld(max, s, t, started, RollBack(order));
    StartedStepsKeepCount(max, s, t, started, RollBack(order));
    NothingNewIsLeft(max, s, Run(max, t, RollBack(order)), started);
    RunConcat(max, s, creating, RollBack(order));
  }

  lemma ShorterPrefixMissesElement(a: seq<Id>, b: seq<Id>)
    requires a < b && NoDuplicates(b)
    ensures b[|a|] in Elements(b) && b[|a|] !in Elements(a)
  {
    assert forall i :: 0 <= i < |a| ==> a[i] == b[i];
  }

  // ---------------------------------------------------------------- what one call comes to

  /** The call's thread was not admitted, or did not start. */
  predicate DidNotStart(t: Thread) {
    t.stage.OverLimit? || t.stage.InitFailed? || t.stage.Failed?
  }

  /** The limit decides on admission, and the engine on the start. */
  lemma AdmissionAndStart(max: nat, s: State, id: Id, initOk: bool)
    requires id in s.calls
    ensures var t := Next(max, s, Create(id, initOk));
            && id in t.calls
            && (s.calls[id].stage.Counted? ==>
                  if s.calls[id].stage.newCount <= max then t.calls[id].stage.Starting? else DidNotStart(t.calls[id]))
            && (s.calls[id].stage.Starting? ==>
                  if initOk then t.calls[id].stage.Ready? else DidNotStart(t.calls[id]))
  {
  }

  /** A thread that did not start is in no run in the map or on the list. */
  lemma {:induction false} UnstartedIsNeverSeen(max: nat, s: State, steps: seq<Step>, id: Id)
    requires ListInv(s) && id in s.calls && DidNotStart(s.calls[id])
    ensures var t := Run(max, s, steps);
            id in t.calls && DidNotStart(t.calls[id]) && id !in t.threads && id !in t.ids
    decreases |steps|
  {
    assert ThreadOk(s, id);
    if steps != [] {
      NextKeepsList(max, s, steps[0]);
      UnstartedIsNeverSeen(max, Next(max, s, steps[0]), steps[1..], id);
    }
  }

  /** The moves of a createThread call with nobody in between. */
  function CreateAlone(id: Id, initOk: bool): seq<Step> {
    [Call(id), Create(id, initOk), Create(id, initOk), Create(id, initOk),
     Create(id, initOk), Create(id, initOk), Create(id, initOk)]
  }

  /** `s` with a counter of `count` and the call `id` at `stage`. */
  function With(s: State, count: nat, id: Id, stage: Stage): State {
    s.(count := count, calls := s.calls[id := Thread(stage, NotRemoved, false)])
  }

  lemma Moves(s: State, count: nat, id: Id, stage: Stage, next: Stage)
    ensures ToStage(With(s, count, id, stage), id, next) == With(s, count, id, next)
  {
    assert s.calls[id := Thread(stage, NotRemoved, false)][id := Thread(next, NotRemoved, false)]
        == s.calls[id := Thread(next, NotRemoved, false)];
  }

  lemma ThreeMoves(max: nat, s: State, e: seq<Step>)
    requires |e| >= 3
    ensures Run(max, s, e) == Run(max, Next(max, Next(max, Next(max, s, e[0]), e[1]), e[2]), e[3..])
  {
    RunUnrolls(max, s, e);
    RunUnrolls(max, Next(max, s, e[0]), e[1..]);
    RunUnrolls(max, Next(max, Next(max, s, e[0]), e[1]), e[2..]);
  }

  /** The call takes a place and compares the number it got with the limit. */
  lemma TakesPlace(max: nat, s: State, id: Id, initOk: bool)
    requires id !in s.calls
    ensures var n := Plus(s.count);
            Next(max, Next(max, Next(max, s, Call(id)), Create(id, initOk)), Create(id, initOk))
              == With(s, n, id, if n > max then OverLimit else Starting)
  {
    var n := Plus(s.count);
    assert Next(max, s, Call(id)) == With(s, s.count, id, Begun);
    var s2 := Next(max, With(s, s.count, id, Begun), Create(id, initOk));
    assert s2 == With(s, n, id, Counted(n)) by {
      assert s.calls[id := Thread(Begun, NotRemoved, false)][id := Thread(Counted(n), NotRemoved, false)]
          == s.calls[id := Thread(Counted(n), NotRemoved, false)];
    }
    Moves(s, n, id, Counted(n), if n > max then OverLimit else Starting);
  }

  /** An admitted call whose engine starts. */
  lemma StartsAndRegisters(max: nat, s: State, n: nat, id: Id)
    ensures var t := Next(max, Next(max, With(s, n, id, Starting), Create(id, true)), Create(id, true));
            t == With(s.(threads := s.threads + {id}), n, id, Stored)
  {
    Moves(s, n, id, Starting, Ready);
    Moves(s.(threads := s.threads + {id}), n, id, Ready, Stored);
  }

  lemma Publishes(max: nat, s: State, n: nat, id: Id)
    ensures var t := Next(max, Next(max, With(s, n, id, Stored), Create(id, true)), Create(id, true));
            t == With(s.(ids := s.ids + [id], version := s.version + 1), n, id, Created)
  {
    Moves(s, n, id, Stored, Adding(s.version, s.ids));
    Moves(s.(ids := s.ids + [id], version := s.version + 1), n, id, Adding(s.version, s.ids), Created);
  }

  /** A call that is over the limit gives its place back. */
  lemma GivesBack(max: nat, s: State, n: nat, id: Id, stage: Stage, initOk: bool)
    requires stage.OverLimit? || stage.InitFailed?
    ensures Next(max, With(s, n, id, stage), Create(id, initOk)) == With(s, Minus(n), id, Failed)
  {
    Moves(s, Minus(n), id, stage, Failed);
  }

  lemma FailedRests(max: nat, s: State, n: nat, id: Id, e: seq<Step>)
    requires forall i :: 0 <= i < |e| ==> e[i].Create? && e[i].id == id
    ensures Run(max, With(s, n, id, Failed), e) == With(s, n, id, Failed)
    decreases |e|
  {
    if e != [] {
      FailedRests(max, s, n, id, e[1..]);
    }
  }

  /**
   On its own a call adds its thread to map, list and counter exactly if there is room in
   the pool and the engine starts; otherwise it fails and leaves no trace.
   */
  lemma CreateAloneAddsOne(max: nat, s: State, id: Id, initOk: bool)
    requires ListInv(s) && CountInv(max, s) && Quiescent(s) && id !in s.calls && |s.threads| + 1 < WORD
    ensures var t := Run(max, s, CreateAlone(id, initOk));
            && id in t.calls
            && if |s.threads| < max && initOk then
                 && t.threads == s.threads + {id} && t.ids == s.ids + [id] && t.count == s.count + 1
                 && t.calls[id].stage == Created
               else
                 && t.threads == s.threads && t.ids == s.ids && t.count == s.count && t.calls[id].stage == Failed
  {
    QuiescentCount(max, s);
    MinusOne(s.count + 1);
    AloneEndsIn(max, s, id, initOk);
  }

  lemma AloneEndsIn(max: nat, s: State, id: Id, initOk: bool)
    requires id !in s.calls && Plus(s.count) == s.count + 1 && Minus(s.count + 1) == s.count
    ensures Run(max, s, CreateAlone(id, initOk))
         == if s.count < max && initOk then
              With(s.(threads := s.threads + {id}, ids := s.ids + [id], version := s.version + 1),
                   s.count + 1, id, Created)
            else With(s, s.count, id, Failed)
  {
    if s.count < max {
      AdmittedAlone(max, s, s.count + 1, id, initOk);
    } else {
      OverLimitAlone(max, s, id, initOk);
    }
  }

  lemma OverLimitAlone(max: nat, s: State, id: Id, initOk: bool)
    requires id !in s.calls && Plus(s.count) > max
    ensures Run(max, s, CreateAlone(id, initOk)) == With(s, Minus(Plus(s.count)), id, Failed)
  {
    var e := CreateAlone(id, initOk);
    var n := Plus(s.count);
    ThreeMoves(max, s, e);
    TakesPlace(max, s, id, initOk);
    RunUnrolls(max, With(s, n, id, OverLimit), e[3..]);
    GivesBack(max, s, n, id, OverLimit, initOk);
    FailedRests(max, s, Minus(n), id, e[4..]);
  }

  lemma AdmittedAlone(max: nat, s: State, n: nat, id: Id, initOk: bool)
    requires id !in s.calls && n == Plus(s.count) <= max
    ensures Run(max, s, CreateAlone(id, initOk))
         == if initOk then
              With(s.(threads := s.threads + {id}, ids := s.ids + [id], version := s.version + 1), n, id, Created)
            else With(s, Minus(n), id, Failed)
  {
    var e := CreateAlone(id, initOk);
    ThreeMoves(max, s, e);
    TakesPlace(max, s, id, initOk);
    if initOk {
      StartedAlone(max, s, n, id);
    } else {
      UnstartedAlone(max, s, n, id);
    }
  }

  lemma UnstartedAlone(max: nat, s: State, n: nat, id: Id)
    ensures Run(max, With(s, n, id, Starting), CreateAlone(id, false)[3..]) == With(s, Minus(n), id, Failed)
  {
    var e := CreateAlone(id, false)[3..];
    Moves(s, n, id, Starting, InitFailed);
    GivesBack(max, s, n, id, InitFailed, false);
    RunUnrolls(max, With(s, n, id, Starting), e);
    RunUnrolls(max, With(s, n, id, InitFailed), e[1..]);
    FailedRests(max, s, Minus(n), id, e[2..]);
  }

  lemma StartedAlone(max: nat, s: State, n: nat, id: Id)
    ensures Run(max, With(s, n, id, Starting), CreateAlone(id, true)[3..])
         == With(s.(threads := s.threads + {id}, ids := s.ids + [id], version := s.version + 1), n, id, Created)
  {
    var e := CreateAlone(id, true)[3..];
    StartsAndRegisters(max, s, n, id);
    var u := s.(threads := s.threads + {id});
    Publishes(max, u, n, id);
    ThreeMoves(max, With(s, n, id, Starting), e);
    RunUnrolls(max, Next(max, With(u, n, id, Stored), e[2]), e[3..]);
  }

  // ---------------------------------------------------------------- a stale list entry

  /** A cleanup that sees a thread between its map store and its list publication, from an idle pool. */
  function DetachInBetween(id: Id): seq<Step> {
    [Call(id), Create(id, true), Create(id, true), Create(id, true), Create(id, true),
     Detach(id), Detach(id), Detach(id), Detach(id), Create(id, true), Create(id, true)]
  }

  /** Then the list keeps the id of a thread that is gone. */
  lemma DetachBeforePublishLeavesStaleId(max: nat, id: Id)
    requires max > 0
    ensures var t := Run(max, COLD, DetachInBetween(id));
            Quiescent(t) && t.threads == {} && t.ids == [id] && t.count == 0
  {
    var e := DetachInBetween(id);
    var s1 := Next(max, COLD, e[0]);
    var s2 := Next(max, s1, e[1]);
    var s3 := Next(max, s2, e[2]);
    var s4 := Next(max, s3, e[3]);
    var s5 := Next(max, s4, e[4]);
    assert s5 == State(1, {id}, [], 0, map[id := Thread(Stored, NotRemoved, false)]);
    var s6 := Next(max, s5, e[5]);
    var s7 := Next(max, s6, e[6]);
    var s8 := Next(max, s7, e[7]);
    var s9 := Next(max, s8, e[8]);
    assert s9 == State(0, {}, [], 1, map[id := Thread(Stored, Detached, true)]);
    var s10 := Next(max, s9, e[9]);
    var s11 := Next(max, s10, e[10]);
    assert s11 == State(0, {}, [id], 2, map[id := Thread(Created, Detached, true)]);
    RunUnrolls(max, COLD, e);
    RunUnrolls(max, s1, e[1..]);
    RunUnrolls(max, s2, e[2..]);
    RunUnrolls(max, s3, e[3..]);
    RunUnrolls(max, s4, e[4..]);
    RunUnrolls(max, s5, e[5..]);
    RunUnrolls(max, s6, e[6..]);
    RunUnrolls(max, s7, e[7..]);
    RunUnrolls(max, s8, e[8..]);
    RunUnrolls(max, s9, e[9..]);
    RunUnrolls(max, s10, e[10..]);
  }

  lemma RunUnrolls(max: nat, s: State, steps: seq<Step>)
    requires steps != []
    ensures Run(max, s, steps) == Run(max, Next(max, s, steps[0]), steps[1..])
    ensures |steps| == 1 ==> Run(max, s, steps) == Next(max, s, steps[0])
    ensures |steps| > 1 ==> steps[1..][0] == steps[1]
  {
  }

  // ---------------------------------------------------------------- the pool

  class Pool {
    const max: nat
    var threadCount: nat
    var threads: set<Id>
    var threadIds: seq<Id>
    var listVersion: nat
    var calls: map<Id, Thread>

    ghost function View(): State
      reads this
    {
      State(threadCount, threads, threadIds, listVersion, calls)
    }

    constructor (max: nat)
      ensures this.max == max && View() == COLD
    {
      this.max := max;
      threadCount, threads, threadIds, listVersion, calls := 0, {}, [], 0, map[];
    }

    method AddToCount(delta: nat) returns (newCount: nat)
      modifies this`threadCount
      ensures threadCount == newCount == (old(threadCount) + delta) % WORD
    {
      threadCount := (threadCount + delta) % WORD;
      newCount := threadCount;
    }

    /** The compare-and-swap on the list pointer. */
    method CompareAndSwap(seen: nat, newIds: seq<Id>) returns (swapped: bool)
      modifies this`threadIds, this`listVersion
      ensures swapped <==> seen == old(listVersion)
      ensures threadIds == (if swapped then newIds else old(threadIds))
      ensures listVersion == (if swapped then old(listVersion) + 1 else old(listVersion))
    {
      swapped := seen == listVersion;
      if swapped {
        threadIds, listVersion := newIds, listVersion + 1;
      }
    }

    /** Copies all ids except one. */
    method CopyWithout(ids: seq<Id>, id: Id) returns (newIds: seq<Id>)
      ensures newIds == Without(ids, id)
    {
      newIds := [];
      var i := 0;
      while i < |ids|
        invariant 0 <= i <= |ids|
        invariant newIds + Without(ids[i..], id) == Without(ids, id)
      {
        assert ids[i..][0] == ids[i] && ids[i..][1..] == ids[i + 1..];
        if ids[i] != id {
          newIds := newIds + [ids[i]];
        }
        i := i + 1;
      }
    }

    method SetStage(id: Id, stage: Stage)
      requires id in calls
      modifies this`calls
      ensures calls == old(calls)[id := old(calls)[id].(stage := stage)]
    {
      calls := calls[id := calls[id].(stage := stage)];
    }

    /** The next atomic operation of createThread for this call. */
    method CreateStep(id: Id, initOk: bool)
      requires id in calls
      modifies this
      ensures View() == Next(max, old(View()), Create(id, initOk))
    {
      match calls[id].stage {
        case Begun =>
          var newCount := AddToCount(1);
          SetStage(id, Counted(newCount));
        case Counted(newCount) =>
          SetStage(id, if newCount > max then OverLimit else Starting);
        case OverLimit | InitFailed =>
          var _ := AddToCount(WORD - 1);
          SetStage(id, Failed);
        case Starting =>
          SetStage(id, if initOk then Ready else InitFailed);
        case Ready =>
          threads := threads + {id};
          SetStage(id, Stored);
        case Stored =>
          SetStage(id, Adding(listVersion, threadIds));
        case Adding(seen, oldIds) =>
          var swapped := CompareAndSwap(seen, oldIds + [id]);
          SetStage(id, if swapped then Created else Stored);
        case Created =>
        case Failed =>
      }
    }

    /** The next atomic operation of detachThread for this thread. */
    method DetachStep(id: Id)
      requires id in calls
      modifies this
      ensures View() == Next(max, old(View()), Detach(id))
    {
      var t := calls[id];
      match t.removal {
        case NotRemoved =>
          if id in threads {
            threads := threads - {id};
            calls := calls[id := t.(removal := Deleted)];
          }
        case Deleted =>
          calls := calls[id := t.(removal := Removing(listVersion, threadIds))];
        case Removing(seen, oldIds) =>
          var newIds := CopyWithout(oldIds, id);
          var swapped := CompareAndSwap(seen, newIds);
          if swapped {
            calls := calls[id := t.(removal := OffList, early := id !in oldIds)];
          } else {
            calls := calls[id := t.(removal := Deleted)];
          }
        case OffList =>
          var _ := AddToCount(WORD - 1);
          calls := calls[id := t.(removal := Detached)];
        case Detached =>
      }
    }
  }
}
