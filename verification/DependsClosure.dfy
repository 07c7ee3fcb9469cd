/**
 The closure of module dependencies (resolveTypeFetchDependsClosure in
 cmd/cmd_typefetch.go): a worklist over the modules directory, read at one moment.
 */
module DependsClosure {

  import opened Wrappers

  /** A module directory with a package file: its dependencies, or a file that cannot be read. */
  datatype Package = Readable(depends: seq<string>) | Unreadable

  /** Why a module directory has no package file to look at. */
  datatype Missing = Absent | BadName | NoAccess

  datatype Modules = Modules(existing: map<string, Package>, otherwise: string -> Missing)

  datatype Closure = Closure(modules: seq<string>, missing: set<string>) | Failed

  predicate IsReadable(ms: Modules, m: string) {
    m in ms.existing && ms.existing[m].Readable?
  }

  predicate IsAbsent(ms: Modules, m: string) {
    m !in ms.existing && ms.otherwise(m) == Absent
  }

  /** The module's package file names `d` among its dependencies. */
  predicate Names(ms: Modules, m: string, d: string) {
    IsReadable(ms, m) && d != "" && exists dep <- ms.existing[m].depends :: TrimSpace(dep) == d
  }

  predicate Chain(ms: Modules, p: seq<string>) {
    && p != []
    && (forall i :: 0 <= i < |p| ==> IsReadable(ms, p[i]))
    && forall i :: 0 < i < |p| ==> Names(ms, p[i - 1], p[i])
  }

  /** Some chain of readable modules, each naming the next, leads from the root to `m`. */
  ghost predicate Reachable(ms: Modules, root: string, m: string) {
    exists p :: Chain(ms, p) && p[0] == root && p[|p| - 1] == m
  }

  lemma ReachableNext(ms: Modules, root: string, m: string, d: string)
    requires Reachable(ms, root, m) && Names(ms, m, d) && IsReadable(ms, d)
    ensures Reachable(ms, root, d)
  {
    var p :| Chain(ms, p) && p[0] == root && p[|p| - 1] == m;
    var q := p + [d];
    assert Chain(ms, q) && q[0] == root && q[|q| - 1] == d;
  }

  /** Something the root needs can be neither read nor called missing. */
  ghost predicate Blocked(ms: Modules, root: string) {
    || root == ""
    || !IsReadable(ms, root)
    || exists m, d :: Reachable(ms, root, m) && Names(ms, m, d) && !IsReadable(ms, d) && !IsAbsent(ms, d)
  }

  /** What is in `s` has its dependencies in `s`, unless they are absent. */
  ghost predicate Closed(ms: Modules, s: seq<string>) {
    forall m, d :: m in s && Names(ms, m, d) ==> d in s || IsAbsent(ms, d)
  }

  lemma {:induction false} ChainStaysInside(ms: Modules, s: seq<string>, p: seq<string>, i: nat)
    requires Closed(ms, s) && Chain(ms, p) && p[0] in s && i < |p|
    ensures p[i] in s
    decreases i
  {
    if i > 0 {
      ChainStaysInside(ms, s, p, i - 1);
      assert Names(ms, p[i - 1], p[i]);
    }
  }

  /** A closed set of reachable modules that holds the root is the whole closure. */
  lemma ClosedIsWhole(ms: Modules, root: string, s: seq<string>, m: string)
    requires Closed(ms, s) && root in s && Reachable(ms, root, m)
    ensures m in s
  {
    var p :| Chain(ms, p) && p[0] == root && p[|p| - 1] == m;
    ChainStaysInside(ms, s, p, |p| - 1);
  }

  /** A queued name: the root, or an existing module that something reachable names. */
  ghost predicate Wanted(ms: Modules, root: string, d: string) {
    d == root || (d in ms.existing && exists m :: Reachable(ms, root, m) && Names(ms, m, d))
  }

  /** Every dependency of `m` among `deps` is closed over, queued or missing. */
  ghost predicate Settled(ms: Modules, deps: seq<string>, closure: seq<string>, queue: seq<string>,
          missing: set<string>)
  {
    forall dep <- deps :: var d := TrimSpace(dep);
      d == "" || d in closure || (d in queue && d in ms.existing) || (d in missing && IsAbsent(ms, d))
  }

  ghost predicate AllSettled(ms: Modules, done: seq<string>, closure: seq<string>, queue: seq<string>,
          missing: set<string>)
  {
    forall m <- done :: IsReadable(ms, m) && Settled(ms, ms.existing[m].depends, closure, queue, missing)
  }

  /** The missing names are the absent ones that a closure member names. */
  ghost predicate MissingIsNamed(ms: Modules, closure: seq<string>, missing: set<string>) {
    forall d <- missing :: IsAbsent(ms, d) && exists m <- closure :: Names(ms, m, d)
  }

  ghost predicate Sound(ms: Modules, root: string, closure: seq<string>, queue: seq<string>, missing: set<string>) {
    && NoDuplicates(closure)
    && (forall m <- closure :: Reachable(ms, root, m))
    && (forall q <- queue :: q != "" && TrimSpace(q) == q && Wanted(ms, root, q))
    && MissingIsNamed(ms, closure, missing)
    && (root in closure || root in queue)
  }

  lemma WantedIsReachable(ms: Modules, root: string, m: string)
    requires Wanted(ms, root, m) && IsReadable(ms, m)
    ensures Reachable(ms, root, m)
  {
    if m == root {
      assert Chain(ms, [m]);
    } else {
      var from :| Reachable(ms, root, from) && Names(ms, from, m);
      ReachableNext(ms, root, from, m);
    }
  }

  lemma WantedBlocks(ms: Modules, root: string, m: string)
    requires Wanted(ms, root, m) && !IsReadable(ms, m)
    ensures Blocked(ms, root)
  {
  }

  lemma FinishedIsExact(ms: Modules, root: string, closure: seq<string>, missing: set<string>)
    requires root != "" && Sound(ms, root, closure, [], missing) && AllSettled(ms, closure, closure, [], missing)
    ensures forall m :: m in closure <==> Reachable(ms, root, m)
    ensures forall d :: d in missing <==> IsAbsent(ms, d) && exists m <- closure :: Names(ms, m, d)
    ensures !Blocked(ms, root)
  {
    assert Closed(ms, closure);
    forall m | Reachable(ms, root, m)
      ensures m in closure
    {
      ClosedIsWhole(ms, root, closure, m);
    }
  }

  lemma SkipKeeps(ms: Modules, root: string, closure: seq<string>, queue: seq<string>, missing: set<string>)
    requires queue != [] && queue[0] in closure
    requires Sound(ms, root, closure, queue, missing) && AllSettled(ms, closure, closure, queue, missing)
    ensures Sound(ms, root, closure, queue[1..], missing) && AllSettled(ms, closure, closure, queue[1..], missing)
  {
    HeadOrRest(queue);
    forall m <- closure
      ensures IsReadable(ms, m) && Settled(ms, ms.existing[m].depends, closure, queue[1..], missing)
    {
    }
  }

  lemma HeadOrRest(queue: seq<string>)
    requires queue != []
    ensures forall q :: q in queue <==> q == queue[0] || q in queue[1..]
  {
    forall q
      ensures q in queue <==> q == queue[0] || q in queue[1..]
    {
      assert queue == [queue[0]] + queue[1..];
    }
  }

  lemma TakeKeeps(ms: Modules, root: string, closure: seq<string>, queue: seq<string>, missing: set<string>)
    requires queue != [] && queue[0] !in closure && IsReadable(ms, queue[0])
    requires Sound(ms, root, closure, queue, missing) && AllSettled(ms, closure, closure, queue, missing)
    ensures Sound(ms, root, closure + [queue[0]], queue[1..], missing)
    ensures AllSettled(ms, closure, closure + [queue[0]], queue[1..], missing)
  {
    WantedIsReachable(ms, root, queue[0]);
    assert queue == [queue[0]] + queue[1..];
  }

  lemma QueueKeeps(ms: Modules, root: string, closure: seq<string>, queue: seq<string>, missing: set<string>, m: string,
          d: string)
    requires Sound(ms, root, closure, queue, missing) && m in closure && Names(ms, m, d) && d in ms.existing
    requires TrimSpace(d) == d
    ensures Sound(ms, root, closure, queue + [d], missing)
  {
  }

  lemma MissKeeps(ms: Modules, root: string, closure: seq<string>, queue: seq<string>, missing: set<string>, m: string,
          d: string)
    requires Sound(ms, root, closure, queue, missing) && m in closure && Names(ms, m, d) && IsAbsent(ms, d)
    ensures Sound(ms, root, closure, queue, missing + {d})
  {
  }

  lemma SettledGrows(ms: Modules, done: seq<string>, deps: seq<string>, closure: seq<string>, queue: seq<string>,
          missing: set<string>, queue': seq<string>, missing': set<string>)
    requires AllSettled(ms, done, closure, queue, missing) && Settled(ms, deps, closure, queue, missing)
    requires (forall q <- queue :: q in queue') && missing <= missing'
    ensures AllSettled(ms, done, closure, queue', missing') && Settled(ms, deps, closure, queue', missing')
  {
    forall m <- done
      ensures IsReadable(ms, m) && Settled(ms, ms.existing[m].depends, closure, queue', missing')
    {
    }
  }

  lemma SettledNext(ms: Modules, deps: seq<string>, i: nat, closure: seq<string>, queue: seq<string>,
          missing: set<string>)
    requires i < |deps| && Settled(ms, deps[..i], closure, queue, missing)
    requires Settled(ms, [deps[i]], closure, queue, missing)
    ensures Settled(ms, deps[..i + 1], closure, queue, missing)
  {
    assert deps[..i + 1] == deps[..i] + [deps[i]];
  }

  lemma Shrinks(all: set<string>, seen: set<string>, m: string)
    requires m in all && m !in seen
    ensures |all - (seen + {m})| < |all - seen|
  {
    assert all - seen == (all - (seen + {m})) + {m};
  }

  /** The loop over the dependencies of one module. */
  method QueueDepends(ms: Modules, ghost root: string, seen: set<string>, closure: seq<string>, queue: seq<string>,
          missing: set<string>, ghost done: seq<string>, m: string)
    returns (queue': seq<string>, missing': set<string>, r: Closure)
    requires IsReadable(ms, m) && closure == done + [m] && forall x :: x in seen <==> x in closure
    requires Sound(ms, root, closure, queue, missing) && AllSettled(ms, done, closure, queue, missing)
    ensures r.Failed? ==> Blocked(ms, root)
    ensures r.Closure? ==> Sound(ms, root, closure, queue', missing') && AllSettled(ms, closure, closure, queue', missing')
  {
    queue', missing', r := queue, missing, Closure(closure, missing);
    var depends := ms.existing[m].depends;
    for i := 0 to |depends|
      invariant Sound(ms, root, closure, queue', missing')
      invariant AllSettled(ms, done, closure, queue', missing')
      invariant Settled(ms, depends[..i], closure, queue', missing')
    {
      var d := TrimSpace(depends[i]);
      TrimSpaceTwice(depends[i]);
      if d == "" || d in seen {
        SettledNext(ms, depends, i, closure, queue', missing');
        continue;
      }
      assert Names(ms, m, d);
      if d !in ms.existing {
        if ms.otherwise(d) == Absent {
          MissKeeps(ms, root, closure, queue', missing', m, d);
          SettledGrows(ms, done, depends[..i], closure, queue', missing', queue', missing' + {d});
          missing' := missing' + {d};
          SettledNext(ms, depends, i, closure, queue', missing');
          continue;
        }
        r := Failed;
        return;
      }
      QueueKeeps(ms, root, closure, queue', missing', m, d);
      SettledGrows(ms, done, depends[..i], closure, queue', missing', queue' + [d], missing');
      queue' := queue' + [d];
      SettledNext(ms, depends, i, closure, queue', missing');
    }
    assert depends[..|depends|] == depends;
  }

  /** What holds between two turns of the worklist. */
  ghost predicate Between(ms: Modules, root: string, seen: set<string>, closure: seq<string>, queue: seq<string>,
          missing: set<string>)
  {
    && root != "" && TrimSpace(root) == root
    && Sound(ms, root, closure, queue, missing)
    && AllSettled(ms, closure, closure, queue, missing)
    && seen <= ms.existing.Keys
    && forall m :: m in seen <==> m in closure
  }

  lemma HeadIsWanted(ms: Modules, root: string, seen: set<string>, closure: seq<string>, queue: seq<string>,
          missing: set<string>)
    requires Between(ms, root, seen, closure, queue, missing) && queue != []
    ensures TrimSpace(queue[0]) == queue[0] && (!IsReadable(ms, queue[0]) ==> Blocked(ms, root))
    ensures queue[0] in seen ==> Between(ms, root, seen, closure, queue[1..], missing)
  {
    assert Wanted(ms, root, queue[0]);
    if queue[0] in seen {
      SkipKeeps(ms, root, closure, queue, missing);
    }
    if !IsReadable(ms, queue[0]) {
      WantedBlocks(ms, root, queue[0]);
    }
  }

  lemma TurnEnds(ms: Modules, root: string, seen: set<string>, closure: seq<string>, m: string, queue: seq<string>,
          missing: set<string>)
    requires root != "" && TrimSpace(root) == root && m in ms.existing && m !in seen
    requires seen <= ms.existing.Keys && forall x :: x in seen <==> x in closure
    requires Sound(ms, root, closure + [m], queue, missing)
    requires AllSettled(ms, closure + [m], closure + [m], queue, missing)
    ensures Between(ms, root, seen + {m}, closure + [m], queue, missing)
    ensures |ms.existing.Keys - (seen + {m})| < |ms.existing.Keys - seen|
  {
    Shrinks(ms.existing.Keys, seen, m);
  }

  /** The result is the closure of the root, or the failure to find it. */
  ghost predicate IsClosure(ms: Modules, root: string, r: Closure) {
    match r
    case Failed => Blocked(ms, root)
    case Closure(modules, missing) =>
      && !Blocked(ms, root)
      && NoDuplicates(modules)
      && (forall m :: m in modules <==> Reachable(ms, root, m))
      && (forall d :: d in missing <==> IsAbsent(ms, d) && exists m <- modules :: Names(ms, m, d))
  }

  method ResolveTypeFetchDependsClosure(ms: Modules, rootModule: string) returns (r: Closure)
    ensures IsClosure(ms, TrimSpace(rootModule), r)
  {
    var root := TrimSpace(rootModule);
    TrimSpaceTwice(rootModule);
    if root == "" {
      return Failed;
    }
    var queue := [root];
    var closure: seq<string> := [];
    var seen: set<string> := {};
    var missing: set<string> := {};
    while queue != []
      invariant Between(ms, root, seen, closure, queue, missing)
      decreases |ms.existing.Keys - seen|, |queue|
    {
      HeadIsWanted(ms, root, seen, closure, queue, missing);
      ghost var before := queue;
      var m := TrimSpace(queue[0]);
      queue := queue[1..];
      if m in seen {
        continue;
      }
      if m !in ms.existing || ms.existing[m].Unreadable? {
        return Failed;
      }
      TakeKeeps(ms, root, closure, before, missing);
      ghost var done, seenBefore := closure, seen;
      seen := seen + {m};
      closure := closure + [m];
      queue, missing, r := QueueDepends(ms, root, seen, closure, queue, missing, done, m);
      if r.Failed? {
        return;
      }
      TurnEnds(ms, root, seenBefore, done, m, queue, missing);
    }
    FinishedIsExact(ms, root, closure, missing);
    r := Closure(closure, missing);
  }
}
