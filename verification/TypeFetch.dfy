/**
 The recursive type-definition fetch (internal/esmresolver/typefetch.go).

 fetchTypeRecursive claims a URL in a shared visited set, downloads it, starts one
 goroutine per import, and waits for them; a failed download gives the claim back and
 is retried.  All goroutines form a tree of tasks over the one visited set, and any
 task that can move may move next.  The cache is cold, URLs are normalised and have
 cache files of their own, and nobody cancels the fetch.
 */
module TypeFetch {

  import opened Wrappers

  type Url = string

  /** The import graph: every import of a node is a node, and no node has more than `fanout` imports. */
  datatype Graph = Graph(nodes: set<Url>, imports: Url -> seq<Url>, fanout: nat)

  predicate Finite(g: Graph) {
    forall u <- g.nodes :: |g.imports(u)| <= g.fanout && forall v <- g.imports(u) :: v in g.nodes
  }

  const TRANSITIVE_ATTEMPTS: nat := 2

  /**
   A fetchTypeRecursiveWithRetry call: about to start an attempt, holding the URL while
   it downloads, waiting for the imports it started, or returned with its results.
   */
  datatype Task =
    | Ready(url: Url, ancestors: set<Url>, attempts: nat)
    | Downloading(url: Url, ancestors: set<Url>, attempts: nat)
    | Waiting(url: Url, children: seq<Task>)
    | Done(results: seq<Url>)

  /** Which task moves next, and whether the download it ends has succeeded. */
  datatype Choice = Here(ok: bool) | Child(index: nat, choice: Choice)

  function StartChildren(imports: seq<Url>, ancestors: set<Url>): (ts: seq<Task>)
    ensures |ts| == |imports|
    ensures forall i :: 0 <= i < |ts| ==> ts[i] == Ready(imports[i], ancestors, TRANSITIVE_ATTEMPTS)
  {
    seq(|imports|, i requires 0 <= i < |imports| => Ready(imports[i], ancestors, TRANSITIVE_ATTEMPTS))
  }

  predicate AllDone(ts: seq<Task>) {
    forall t <- ts :: t.Done?
  }

  function Results(ts: seq<Task>): seq<Url>
    requires AllDone(ts)
  {
    if ts == [] then [] else ts[0].results + Results(ts[1..])
  }

  // ---------------------------------------------------------------- one step

  /** The task and the visited set after one move; a choice that does not apply changes nothing. */
  function Step(g: Graph, t: Task, visited: set<Url>, c: Choice): (Task, set<Url>) {
    match t
    case Ready(url, ancestors, attempts) =>
      if c.Child? then (t, visited)
      else if url in ancestors || url in visited then (Done([]), visited)
      else (Downloading(url, ancestors, attempts), visited + {url})
    case Downloading(url, ancestors, attempts) =>
      if c.Child? then (t, visited)
      else if c.ok then (Waiting(url, StartChildren(g.imports(url), ancestors + {url})), visited)
      else (if attempts > 1 then Ready(url, ancestors, attempts - 1) else Done([]), visited - {url})
    case Waiting(url, children) =>
      if c.Here? then
        if AllDone(children) then (Done([url] + Results(children)), visited) else (t, visited)
      else if c.index < |children| then
        var (child, v) := Step(g, children[c.index], visited, c.choice);
        (Waiting(url, children[c.index := child]), v)
      else (t, visited)
    case Done(_) => (t, visited)
  }

  function Run(g: Graph, t: Task, visited: set<Url>, choices: seq<Choice>): (Task, set<Url>)
    decreases |choices|
  {
    if choices == [] then (t, visited)
    else
      var (t', v') := Step(g, t, visited, choices[0]);
      Run(g, t', v', choices[1..])
  }

  /** The top-level fetch: one attempt, no ancestors. */
  function Root(url: Url): Task {
    Ready(url, {}, 1)
  }

  // ---------------------------------------------------------------- no URL twice

  function Occurrences(us: seq<Url>, u: Url): nat {
    if us == [] then 0 else (if us[0] == u then 1 else 0) + Occurrences(us[1..], u)
  }

  /** How often the tasks have claimed or reported a URL. */
  function Held(t: Task, u: Url): nat
    decreases t
  {
    match t
    case Ready(_, _, _) => 0
    case Downloading(url, _, _) => if url == u then 1 else 0
    case Waiting(url, children) => (if url == u then 1 else 0) + HeldAll(children, u)
    case Done(results) => Occurrences(results, u)
  }

  function HeldAll(ts: seq<Task>, u: Url): nat
    decreases ts
  {
    if ts == [] then 0 else Held(ts[0], u) + HeldAll(ts[1..], u)
  }

  lemma {:induction false} HeldAllUpdate(ts: seq<Task>, i: nat, t: Task, u: Url)
    requires i < |ts|
    ensures HeldAll(ts[i := t], u) + Held(ts[i], u) == HeldAll(ts, u) + Held(t, u)
    ensures Held(ts[i], u) <= HeldAll(ts, u)
    decreases i
  {
    if i == 0 {
      assert ts[0 := t][1..] == ts[1..];
    } else {
      HeldAllUpdate(ts[1..], i - 1, t, u);
      assert ts[i := t][1..] == ts[1..][i - 1 := t];
    }
  }

  lemma {:induction false} OccurrencesAppend(a: seq<Url>, b: seq<Url>, u: Url)
    ensures Occurrences(a + b, u) == Occurrences(a, u) + Occurrences(b, u)
  {
    if a == [] {
      assert a + b == b;
    } else {
      OccurrencesAppend(a[1..], b, u);
      assert (a + b)[1..] == a[1..] + b;
    }
  }

  lemma {:induction false} HeldAllDone(ts: seq<Task>, u: Url)
    requires AllDone(ts)
    ensures HeldAll(ts, u) == Occurrences(Results(ts), u)
  {
    if ts != [] {
      HeldAllDone(ts[1..], u);
      OccurrencesAppend(ts[0].results, Results(ts[1..]), u);
    }
  }

  lemma {:induction false} HeldAllReady(ts: seq<Task>, u: Url)
    requires forall t <- ts :: t.Ready?
    ensures HeldAll(ts, u) == 0
  {
    if ts != [] {
      HeldAllReady(ts[1..], u);
    }
  }

  function Once(s: set<Url>, u: Url): nat {
    if u in s then 1 else 0
  }

  /** Every move changes the visited set exactly as it changes what the tasks hold. */
  lemma {:induction false} StepConserves(g: Graph, t: Task, visited: set<Url>, c: Choice, u: Url)
    requires Held(t, u) <= Once(visited, u)
    ensures var (t', v') := Step(g, t, visited, c);
            Once(v', u) + Held(t, u) == Once(visited, u) + Held(t', u)
    decreases t
  {
    match t
    case Ready(_, _, _) =>
    case Downloading(url, ancestors, _) =>
      HeldAllReady(StartChildren(g.imports(url), ancestors + {url}), u);
    case Waiting(url, children) =>
      if c.Here? {
        if AllDone(children) {
          HeldAllDone(children, u);
          OccurrencesAppend([url], Results(children), u);
        }
      } else if c.index < |children| {
        HeldAllUpdate(children, c.index, Step(g, children[c.index], visited, c.choice).0, u);
        StepConserves(g, children[c.index], visited, c.choice, u);
      }
    case Done(_) =>
  }

  lemma {:induction false} RunConserves(g: Graph, t: Task, visited: set<Url>, choices: seq<Choice>, u: Url)
    requires Held(t, u) == Once(visited, u)
    ensures var (t', v') := Run(g, t, visited, choices);
            Held(t', u) == Once(v', u)
    decreases |choices|
  {
    if choices != [] {
      var (t', v') := Step(g, t, visited, choices[0]);
      StepConserves(g, t, visited, choices[0], u);
      RunConserves(g, t', v', choices[1..], u);
    }
  }

  lemma {:induction false} OccurrencesOfElement(us: seq<Url>, u: Url)
    ensures u in us <==> Occurrences(us, u) > 0
  {
    if us != [] {
      assert us == [us[0]] + us[1..];
      OccurrencesOfElement(us[1..], u);
    }
  }

  lemma {:induction false} AtMostOnceMeansDistinct(us: seq<Url>)
    requires forall u :: Occurrences(us, u) <= 1
    ensures NoDuplicates(us)
  {
    if us != [] {
      forall u
        ensures Occurrences(us[1..], u) <= 1
      {
        assert Occurrences(us, u) <= 1;
      }
      AtMostOnceMeansDistinct(us[1..]);
      assert Occurrences(us, us[0]) <= 1;
      OccurrencesOfElement(us[1..], us[0]);
      forall j | 0 < j < |us|
        ensures us[j] != us[0]
      {
        assert us[j] == us[1..][j - 1];
      }
      forall i, j | 0 < i < j < |us|
        ensures us[i] != us[j]
      {
        assert us[i] == us[1..][i - 1] && us[j] == us[1..][j - 1];
      }
    }
  }

  /** Whatever fails and however the goroutines interleave, the finished fetch reports no URL twice. */
  lemma ReportsNoUrlTwice(g: Graph, root: Url, choices: seq<Choice>)
    ensures var (t, v) := Run(g, Root(root), {}, choices);
            t.Done? ==> NoDuplicates(t.results) && forall u :: u in t.results <==> u in v
  {
    var (t, v) := Run(g, Root(root), {}, choices);
    forall u
      ensures Held(t, u) == Once(v, u)
    {
      RunConserves(g, Root(root), {}, choices, u);
    }
    if t.Done? {
      forall u
        ensures Occurrences(t.results, u) == Once(v, u)
      {
        assert Held(t, u) == Once(v, u);
      }
      AtMostOnceMeansDistinct(t.results);
      forall u
        ensures u in t.results <==> u in v
      {
        OccurrencesOfElement(t.results, u);
      }
    }
  }

  // ---------------------------------------------------------------- importers come first

  /** Each URL of the list is imported by `url` or by one that stands before it. */
  predicate From(g: Graph, url: Url, rs: seq<Url>) {
    forall k :: 0 <= k < |rs| ==> rs[k] in g.imports(url) || exists j :: 0 <= j < k && rs[k] in g.imports(rs[j])
  }

  /** A task that was started for an import of `url`. */
  predicate Grown(g: Graph, url: Url, t: Task)
    decreases t
  {
    match t
    case Ready(u, _, _) => u in g.imports(url)
    case Downloading(u, _, _) => u in g.imports(url)
    case Waiting(u, children) => u in g.imports(url) && forall child <- children :: Grown(g, u, child)
    case Done(rs) => From(g, url, rs)
  }

  lemma FromAppend(g: Graph, url: Url, a: seq<Url>, b: seq<Url>)
    requires From(g, url, a) && From(g, url, b)
    ensures From(g, url, a + b)
  {
    var rs := a + b;
    forall k | 0 <= k < |rs|
      ensures rs[k] in g.imports(url) || exists j :: 0 <= j < k && rs[k] in g.imports(rs[j])
    {
      if k < |a| {
        if rs[k] !in g.imports(url) {
          var j :| 0 <= j < k && a[k] in g.imports(a[j]);
          assert rs[j] == a[j];
        }
      } else if rs[k] !in g.imports(url) {
        var j :| 0 <= j < k - |a| && b[k - |a|] in g.imports(b[j]);
        assert rs[j + |a|] == b[j];
      }
    }
  }

  lemma {:induction false} ResultsFrom(g: Graph, url: Url, ts: seq<Task>)
    requires AllDone(ts) && forall t <- ts :: Grown(g, url, t)
    ensures From(g, url, Results(ts))
  {
    if ts != [] {
      assert Grown(g, url, ts[0]);
      ResultsFrom(g, url, ts[1..]);
      FromAppend(g, url, ts[0].results, Results(ts[1..]));
    }
  }

  lemma UnderFirst(g: Graph, url: Url, first: Url, rs: seq<Url>)
    requires From(g, first, rs) && first in g.imports(url)
    ensures From(g, url, [first] + rs)
  {
    var all := [first] + rs;
    forall k | 0 <= k < |all|
      ensures all[k] in g.imports(url) || exists j :: 0 <= j < k && all[k] in g.imports(all[j])
    {
      if k > 0 {
        if rs[k - 1] in g.imports(first) {
          assert all[0] == first;
        } else {
          var j :| 0 <= j < k - 1 && rs[k - 1] in g.imports(rs[j]);
          assert all[j + 1] == rs[j];
        }
      }
    }
  }

  lemma {:induction false} StepGrows(g: Graph, url: Url, t: Task, visited: set<Url>, c: Choice)
    requires Grown(g, url, t)
    ensures Grown(g, url, Step(g, t, visited, c).0)
    decreases t
  {
    match t
    case Ready(_, _, _) =>
    case Downloading(_, _, _) =>
    case Waiting(u, children) =>
      if c.Here? {
        if AllDone(children) {
          ResultsFrom(g, u, children);
          UnderFirst(g, url, u, Results(children));
        }
      } else if c.index < |children| {
        StepGrows(g, u, children[c.index], visited, c.choice);
      }
    case Done(_) =>
  }

  /** The task at the root. */
  predicate Rooted(g: Graph, root: Url, t: Task) {
    match t
    case Ready(u, _, _) => u == root
    case Downloading(u, _, _) => u == root
    case Waiting(u, children) => u == root && forall child <- children :: Grown(g, root, child)
    case Done(rs) => rs == [] || (rs[0] == root && From(g, root, rs[1..]))
  }

  lemma StepStaysRooted(g: Graph, root: Url, t: Task, visited: set<Url>, c: Choice)
    requires Rooted(g, root, t)
    ensures Rooted(g, root, Step(g, t, visited, c).0)
  {
    if t.Waiting? && c.Here? && AllDone(t.children) {
      ResultsFrom(g, root, t.children);
    } else if t.Waiting? && c.Child? && c.index < |t.children| {
      StepGrows(g, root, t.children[c.index], visited, c.choice);
    }
  }

  lemma {:induction false} RunStaysRooted(g: Graph, root: Url, t: Task, visited: set<Url>, choices: seq<Choice>)
    requires Rooted(g, root, t)
    ensures Rooted(g, root, Run(g, t, visited, choices).0)
    decreases |choices|
  {
    if choices != [] {
      StepStaysRooted(g, root, t, visited, choices[0]);
      var (t', v') := Step(g, t, visited, choices[0]);
      RunStaysRooted(g, root, t', v', choices[1..]);
    }
  }

  /** The root is reported first, and every other URL after one that imports it. */
  predicate ImportersFirst(g: Graph, root: Url, rs: seq<Url>) {
    && (rs != [] ==> rs[0] == root)
    && forall k :: 0 < k < |rs| ==> exists j :: 0 <= j < k && rs[k] in g.imports(rs[j])
  }

  /** However the goroutines interleave and whatever fails, importers are reported before what they import. */
  lemma ReportsImportersFirst(g: Graph, root: Url, choices: seq<Choice>)
    ensures var t := Run(g, Root(root), {}, choices).0;
            t.Done? ==> ImportersFirst(g, root, t.results)
  {
    RunStaysRooted(g, root, Root(root), {}, choices);
    var t := Run(g, Root(root), {}, choices).0;
    if t.Done? && t.results != [] {
      var rs := t.results;
      forall k | 0 < k < |rs|
        ensures exists j :: 0 <= j < k && rs[k] in g.imports(rs[j])
      {
        var rest := rs[1..];
        if rest[k - 1] in g.imports(root) {
          assert rs[k] in g.imports(rs[0]);
        } else {
          var j :| 0 <= j < k - 1 && rest[k - 1] in g.imports(rest[j]);
          assert rs[j + 1] == rest[j];
        }
      }
    }
  }

  // ---------------------------------------------------------------- which URLs are fetched

  /** Downloads of `good` URLs never fail at the last attempt of a task, and downloads of `bad` URLs always do. */
  predicate Allowed(t: Task, c: Choice, good: set<Url>, bad: set<Url>) {
    match t
    case Downloading(url, _, attempts) => c.Here? ==> if c.ok then url !in bad else attempts > 1 || url !in good
    case Waiting(_, children) => c.Child? && c.index < |children| ==> Allowed(children[c.index], c.choice, good, bad)
    case _ => true
  }

  predicate AllowedRun(g: Graph, t: Task, visited: set<Url>, choices: seq<Choice>, good: set<Url>, bad: set<Url>)
    decreases |choices|
  {
    choices != [] ==>
      var (t', v') := Step(g, t, visited, choices[0]);
      Allowed(t, choices[0], good, bad) && AllowedRun(g, t', v', choices[1..], good, bad)
  }

  /** A path of imports through URLs of `through` only. */
  predicate Path(g: Graph, p: seq<Url>, through: set<Url>) {
    && p != []
    && (forall i :: 0 <= i < |p| ==> p[i] in through)
    && forall i :: 0 < i < |p| ==> p[i] in g.imports(p[i - 1])
  }

  ghost predicate Reachable(g: Graph, root: Url, u: Url, through: set<Url>) {
    exists p :: Path(g, p, through) && p[0] == root && p[|p| - 1] == u
  }

  lemma ReachableStep(g: Graph, root: Url, u: Url, v: Url, through: set<Url>)
    requires Reachable(g, root, u, through) && v in g.imports(u) && v in through
    ensures Reachable(g, root, v, through)
  {
    var p :| Path(g, p, through) && p[0] == root && p[|p| - 1] == u;
    var q := p + [v];
    assert Path(g, q, through) && q[0] == root && q[|q| - 1] == v;
  }

  /** Whatever a task loads is in `s`, and whatever it is about to load is in `s` or bad. */
  predicate Inside(t: Task, s: set<Url>, bad: set<Url>)
    decreases t
  {
    match t
    case Ready(url, _, _) => url in s || url in bad
    case Downloading(url, _, _) => url in s || url in bad
    case Waiting(url, children) => url in s && forall child <- children :: Inside(child, s, bad)
    case Done(results) => forall u <- results :: u in s
  }

  predicate ClosedUnderImports(g: Graph, s: set<Url>, bad: set<Url>) {
    forall u <- s, v <- g.imports(u) :: v in s || v in bad
  }

  lemma {:induction false} ResultsInside(ts: seq<Task>, s: set<Url>, bad: set<Url>)
    requires AllDone(ts) && forall t <- ts :: Inside(t, s, bad)
    ensures forall u <- Results(ts) :: u in s
  {
    if ts != [] {
      assert Inside(ts[0], s, bad);
      ResultsInside(ts[1..], s, bad);
    }
  }

  lemma {:induction false} StepStaysInside(g: Graph, t: Task, visited: set<Url>, c: Choice, s: set<Url>, good: set<Url>,
          bad: set<Url>)
    requires ClosedUnderImports(g, s, bad) && Inside(t, s, bad) && Allowed(t, c, good, bad)
    ensures Inside(Step(g, t, visited, c).0, s, bad)
    decreases t
  {
    match t
    case Waiting(url, children) =>
      if c.Here? {
        if AllDone(children) {
          ResultsInside(children, s, bad);
        }
      } else if c.index < |children| {
        StepStaysInside(g, children[c.index], visited, c.choice, s, good, bad);
        var child := Step(g, children[c.index], visited, c.choice).0;
        assert forall x <- children[c.index := child] :: x == child || x in children;
      }
    case _ =>
  }

  lemma {:induction false} RunStaysInside(g: Graph, t: Task, visited: set<Url>, choices: seq<Choice>, s: set<Url>,
          good: set<Url>, bad: set<Url>)
    requires ClosedUnderImports(g, s, bad) && Inside(t, s, bad) && AllowedRun(g, t, visited, choices, good, bad)
    ensures Inside(Run(g, t, visited, choices).0, s, bad)
    decreases |choices|
  {
    if choices != [] {
      var (t', v') := Step(g, t, visited, choices[0]);
      StepStaysInside(g, t, visited, choices[0], s, good, bad);
      RunStaysInside(g, t', v', choices[1..], s, good, bad);
    }
  }

  /** The content of the URL has been downloaded by one of these tasks. */
  predicate Loaded(t: Task, u: Url)
    decreases t
  {
    match t
    case Waiting(url, children) => url == u || exists child <- children :: Loaded(child, u)
    case Done(results) => u in results
    case _ => false
  }

  /** One of these tasks is about to attempt the URL. */
  predicate Pending(t: Task, u: Url)
    decreases t
  {
    match t
    case Ready(url, _, _) => url == u
    case Waiting(_, children) => exists child <- children :: Pending(child, u)
    case _ => false
  }

  /** Each task's ancestors are the URLs of the tasks that wait for it. */
  predicate Scoped(t: Task, above: set<Url>)
    decreases t
  {
    match t
    case Ready(_, ancestors, _) => ancestors == above
    case Downloading(_, ancestors, _) => ancestors == above
    case Waiting(url, children) => forall child <- children :: Scoped(child, above + {url})
    case Done(_) => true
  }

  ghost predicate Claimed(t: Task, visited: set<Url>) {
    forall u :: Held(t, u) <= Once(visited, u)
  }

  lemma ChildClaimed(url: Url, children: seq<Task>, i: nat, visited: set<Url>)
    requires Claimed(Waiting(url, children), visited) && i < |children|
    ensures Claimed(children[i], visited) && url in visited
  {
    assert Held(Waiting(url, children), url) <= Once(visited, url);
    forall u
      ensures Held(children[i], u) <= Once(visited, u)
    {
      HeldAllUpdate(children, i, children[i], u);
      assert Held(Waiting(url, children), u) <= Once(visited, u);
    }
  }

  /** The ancestor cut and the skip of visited URLs lose nothing: a good URL that is due stays visited or due. */
  lemma {:induction false} StepKeepsDue(g: Graph, t: Task, visited: set<Url>, c: Choice, above: set<Url>,
          good: set<Url>, bad: set<Url>, v: Url)
    requires Scoped(t, above) && above <= visited && Claimed(t, visited) && Allowed(t, c, good, bad)
    ensures var (t', v') := Step(g, t, visited, c);
            && Scoped(t', above)
            && (v in good && (v in visited || Pending(t, v)) ==> v in v' || Pending(t', v))
    decreases t
  {
    match t
    case Waiting(url, children) =>
      if c.Child? && c.index < |children| {
        ChildClaimed(url, children, c.index, visited);
        StepKeepsDue(g, children[c.index], visited, c.choice, above + {url}, good, bad, v);
        var (child, v') := Step(g, children[c.index], visited, c.choice);
        var children' := children[c.index := child];
        assert forall x <- children' :: x == child || x in children;
        if Pending(t, v) {
          var i :| 0 <= i < |children| && Pending(children[i], v);
          assert i != c.index ==> children'[i] == children[i];
          assert children'[c.index] == child;
          assert v in good ==> v in v' || Pending(child, v) || Pending(children'[i], v);
        }
        assert Pending(child, v) ==> Pending(Waiting(url, children'), v) by {
          assert children'[c.index] == child;
        }
      } else if c.Here? && AllDone(children) {
        assert forall child <- children :: !Pending(child, v);
      }
    case _ =>
  }

  /** A URL that becomes loaded has all its imports due. */
  lemma {:induction false} NewlyLoadedImportsAreDue(g: Graph, t: Task, visited: set<Url>, c: Choice, u: Url, v: Url)
    requires Loaded(Step(g, t, visited, c).0, u) && !Loaded(t, u) && v in g.imports(u)
    ensures Pending(Step(g, t, visited, c).0, v)
    decreases t
  {
    match t
    case Downloading(url, ancestors, _) =>
      var children := StartChildren(g.imports(url), ancestors + {url});
      var i :| 0 <= i < |g.imports(url)| && g.imports(url)[i] == v;
      assert c.ok && u == url by {
        assert forall child <- children :: !Loaded(child, u);
      }
      assert Pending(children[i], v);
    case Waiting(url, children) =>
      if c.Here? {
        if AllDone(children) {
          LoadedResults(children, u);
        }
      } else if c.index < |children| {
        var child := Step(g, children[c.index], visited, c.choice).0;
        var children' := children[c.index := child];
        var x :| x in children' && Loaded(x, u);
        assert x == child;
        NewlyLoadedImportsAreDue(g, children[c.index], visited, c.choice, u, v);
        assert children'[c.index] == child;
      }
    case _ =>
  }

  lemma {:induction false} LoadedResults(ts: seq<Task>, u: Url)
    requires AllDone(ts)
    ensures u in Results(ts) <==> exists t <- ts :: Loaded(t, u)
  {
    if ts != [] {
      LoadedResults(ts[1..], u);
      assert forall t <- ts :: t == ts[0] || t in ts[1..];
      assert Loaded(ts[0], u) <==> u in ts[0].results;
    }
  }

  /** Every good import of a loaded URL is visited or due. */
  ghost predicate ImportsAreDue(g: Graph, t: Task, visited: set<Url>, good: set<Url>) {
    forall u, v :: Loaded(t, u) && v in g.imports(u) && v in good ==> v in visited || Pending(t, v)
  }

  lemma StepKeepsImportsDue(g: Graph, t: Task, visited: set<Url>, c: Choice, good: set<Url>, bad: set<Url>)
    requires Scoped(t, {}) && Claimed(t, visited) && Allowed(t, c, good, bad) && ImportsAreDue(g, t, visited, good)
    ensures var (t', v') := Step(g, t, visited, c);
            Scoped(t', {}) && ImportsAreDue(g, t', v', good)
  {
    var (t', v') := Step(g, t, visited, c);
    forall u, v | Loaded(t', u) && v in g.imports(u) && v in good
      ensures v in v' || Pending(t', v)
    {
      StepKeepsDue(g, t, visited, c, {}, good, bad, v);
      if !Loaded(t, u) {
        NewlyLoadedImportsAreDue(g, t, visited, c, u, v);
      }
    }
    StepKeepsDue(g, t, visited, c, {}, good, bad, "");
  }

  lemma {:induction false} RunKeepsImportsDue(g: Graph, t: Task, visited: set<Url>, choices: seq<Choice>,
          good: set<Url>, bad: set<Url>, root: Url)
    requires Scoped(t, {}) && (forall u :: Held(t, u) == Once(visited, u))
    requires AllowedRun(g, t, visited, choices, good, bad)
    requires ImportsAreDue(g, t, visited, good)
    requires root in good ==> root in visited || Pending(t, root)
    ensures var (t', v') := Run(g, t, visited, choices);
            ImportsAreDue(g, t', v', good) && (root in good ==> root in v' || Pending(t', root))
    decreases |choices|
  {
    if choices != [] {
      var (t', v') := Step(g, t, visited, choices[0]);
      StepKeepsImportsDue(g, t, visited, choices[0], good, bad);
      StepKeepsDue(g, t, visited, choices[0], {}, good, bad, root);
      forall u
        ensures Held(t', u) == Once(v', u)
      {
        StepConserves(g, t, visited, choices[0], u);
      }
      RunKeepsImportsDue(g, t', v', choices[1..], good, bad, root);
    }
  }

  lemma {:induction false} GoodPathIsLoaded(g: Graph, t: Task, visited: set<Url>, good: set<Url>, p: seq<Url>, i: nat)
    requires t.Done? && (forall u :: u in t.results <==> u in visited) && ImportsAreDue(g, t, visited, good)
    requires Path(g, p, good) && i < |p| && p[0] in visited
    ensures p[i] in t.results
    decreases i
  {
    if i > 0 {
      GoodPathIsLoaded(g, t, visited, good, p, i - 1);
    }
  }

  /**
   What a finished fetch reports, for every interleaving: every URL reachable from the
   root through URLs whose downloads do not fail for good, and only URLs reachable through
   URLs whose downloads can succeed.
   */
  lemma FetchesWhatIsReachable(g: Graph, root: Url, choices: seq<Choice>, good: set<Url>, bad: set<Url>, u: Url)
    requires Finite(g) && root in g.nodes && AllowedRun(g, Root(root), {}, choices, good, bad)
    requires Run(g, Root(root), {}, choices).0.Done?
    ensures var results := Run(g, Root(root), {}, choices).0.results;
            && (Reachable(g, root, u, good) ==> u in results)
            && (u in results ==> Reachable(g, root, u, g.nodes - bad))
  {
    var (t, v) := Run(g, Root(root), {}, choices);
    ReportsNoUrlTwice(g, root, choices);
    if Reachable(g, root, u, good) {
      RunKeepsImportsDue(g, Root(root), {}, choices, good, bad, root);
      var p :| Path(g, p, good) && p[0] == root && p[|p| - 1] == u;
      GoodPathIsLoaded(g, t, v, good, p, |p| - 1);
    }
    var s := set x | x in g.nodes && Reachable(g, root, x, g.nodes - bad);
    forall x <- s, y <- g.imports(x)
      ensures y in s || y in bad
    {
      if y !in bad {
        ReachableStep(g, root, x, y, g.nodes - bad);
      }
    }
    if root !in bad {
      assert Path(g, [root], g.nodes - bad);
      assert Reachable(g, root, root, g.nodes - bad);
    }
    RunStaysInside(g, Root(root), {}, choices, s, good, bad);
  }

  /** If no download fails for good, the fetch reports exactly the URLs reachable from the root, each once. */
  lemma FetchesExactlyTheReachable(g: Graph, root: Url, choices: seq<Choice>)
    requires Finite(g) && root in g.nodes && AllowedRun(g, Root(root), {}, choices, g.nodes, {})
    requires Run(g, Root(root), {}, choices).0.Done?
    ensures var results := Run(g, Root(root), {}, choices).0.results;
            NoDuplicates(results) && forall u :: u in results <==> Reachable(g, root, u, g.nodes)
  {
    ReportsNoUrlTwice(g, root, choices);
    assert g.nodes - {} == g.nodes;
    forall u
      ensures u in Run(g, Root(root), {}, choices).0.results <==> Reachable(g, root, u, g.nodes)
    {
      FetchesWhatIsReachable(g, root, choices, g.nodes, {}, u);
    }
  }

  // ---------------------------------------------------------------- one failure is made good

  /** The download that a move ends, if any, and how. */
  function Attempt(t: Task, c: Choice): Option<(Url, bool)> {
    match t
    case Downloading(url, _, _) => if c.Here? then Some((url, c.ok)) else None
    case Waiting(_, children) => if c.Child? && c.index < |children| then Attempt(children[c.index], c.choice) else None
    case _ => None
  }

  /** Downloads of the root do not fail, and downloads of any other URL fail once at most, counting those in `spent`. */
  predicate FailsOnce(g: Graph, t: Task, visited: set<Url>, choices: seq<Choice>, root: Url, spent: set<Url>)
    decreases |choices|
  {
    choices != [] ==>
      var (t', v') := Step(g, t, visited, choices[0]);
      match Attempt(t, choices[0])
      case Some((u, false)) =>
        u != root && u !in spent && FailsOnce(g, t', v', choices[1..], root, spent + {u})
      case _ => FailsOnce(g, t', v', choices[1..], root, spent)
  }

  /** A task at its last attempt is the root's, or has failed before. */
  predicate LastAfterFailure(t: Task, root: Url, spent: set<Url>)
    decreases t
  {
    match t
    case Ready(url, _, attempts) => attempts <= 1 ==> url == root || url in spent
    case Downloading(url, _, attempts) => attempts <= 1 ==> url == root || url in spent
    case Waiting(_, children) => forall child <- children :: LastAfterFailure(child, root, spent)
    case Done(_) => true
  }

  lemma {:induction false} MoreSpent(t: Task, root: Url, spent: set<Url>, more: set<Url>)
    requires LastAfterFailure(t, root, spent) && spent <= more
    ensures LastAfterFailure(t, root, more)
    decreases t
  {
    if t.Waiting? {
      forall child <- t.children
        ensures LastAfterFailure(child, root, more)
      {
        MoreSpent(child, root, spent, more);
      }
    }
  }

  /** A failure that is the first of its URL leaves an attempt over. */
  lemma {:induction false} FirstFailureIsAllowed(g: Graph, t: Task, visited: set<Url>, c: Choice, root: Url, spent: set<Url>)
    requires LastAfterFailure(t, root, spent)
    requires Attempt(t, c).Some? && !Attempt(t, c).value.1 ==>
               Attempt(t, c).value.0 != root && Attempt(t, c).value.0 !in spent
    ensures Allowed(t, c, g.nodes, {})
    ensures var failed := if Attempt(t, c).Some? && !Attempt(t, c).value.1 then {Attempt(t, c).value.0} else {};
            LastAfterFailure(Step(g, t, visited, c).0, root, spent + failed)
    decreases t
  {
    assert spent + {} == spent;
    if t.Downloading? && c == Here(true) {
      var children := StartChildren(g.imports(t.url), t.ancestors + {t.url});
      forall child <- children
        ensures LastAfterFailure(child, root, spent)
      {
        assert child.Ready? && child.attempts == 2;
      }
    } else if t.Waiting? && c.Child? && c.index < |t.children| {
      var failed := if Attempt(t, c).Some? && !Attempt(t, c).value.1 then {Attempt(t, c).value.0} else {};
      var child := Step(g, t.children[c.index], visited, c.choice).0;
      FirstFailureIsAllowed(g, t.children[c.index], visited, c.choice, root, spent);
      forall x <- t.children[c.index := child]
        ensures LastAfterFailure(x, root, spent + failed)
      {
        if x != child {
          assert x in t.children;
          MoreSpent(x, root, spent, spent + failed);
        }
      }
    }
  }

  lemma {:induction false} OneFailureIsAllowed(g: Graph, t: Task, visited: set<Url>, choices: seq<Choice>, root: Url,
          spent: set<Url>)
    requires LastAfterFailure(t, root, spent) && FailsOnce(g, t, visited, choices, root, spent)
    ensures AllowedRun(g, t, visited, choices, g.nodes, {})
    decreases |choices|
  {
    if choices != [] {
      var (t', v') := Step(g, t, visited, choices[0]);
      FirstFailureIsAllowed(g, t, visited, choices[0], root, spent);
      match Attempt(t, choices[0])
      case Some((u, false)) =>
        OneFailureIsAllowed(g, t', v', choices[1..], root, spent + {u});
      case _ =>
        assert spent + {} == spent;
        OneFailureIsAllowed(g, t', v', choices[1..], root, spent);
    }
  }

  /**
   The retry makes one failure good: if the root's download does not fail and that of any
   other URL fails once at most, the fetch reports exactly the URLs reachable from the root,
   each once, in every interleaving.
   */
  lemma OneFailureEachIsMadeGood(g: Graph, root: Url, choices: seq<Choice>)
    requires Finite(g) && root in g.nodes && FailsOnce(g, Root(root), {}, choices, root, {})
    requires Run(g, Root(root), {}, choices).0.Done?
    ensures var results := Run(g, Root(root), {}, choices).0.results;
            NoDuplicates(results) && forall u :: u in results <==> Reachable(g, root, u, g.nodes)
  {
    OneFailureIsAllowed(g, Root(root), {}, choices, root, {});
    FetchesExactlyTheReachable(g, root, choices);
  }

  // ---------------------------------------------------------------- termination

  function Free(g: Graph, ancestors: set<Url>): nat {
    |g.nodes - ancestors|
  }

  /** The moves one attempt can take while `free` nodes are not yet among the ancestors. */
  function AttemptWeight(g: Graph, free: nat): nat
    decreases free, 0
  {
    if free == 0 then 3 else 3 + g.fanout * ChildWeight(g, free - 1)
  }

  function ChildWeight(g: Graph, free: nat): nat
    decreases free, 1
  {
    TRANSITIVE_ATTEMPTS * AttemptWeight(g, free) + 1
  }

  /** A bound on the moves the task and its descendants can still make. */
  function Weight(g: Graph, t: Task): nat
    decreases t
  {
    match t
    case Ready(_, ancestors, attempts) => attempts * AttemptWeight(g, Free(g, ancestors)) + 1
    case Downloading(_, ancestors, attempts) => attempts * AttemptWeight(g, Free(g, ancestors))
    case Waiting(_, children) => 1 + WeightAll(g, children)
    case Done(_) => 0
  }

  function WeightAll(g: Graph, ts: seq<Task>): nat
    decreases ts
  {
    if ts == [] then 0 else Weight(g, ts[0]) + WeightAll(g, ts[1..])
  }

  predicate Sane(g: Graph, t: Task)
    decreases t
  {
    match t
    case Ready(url, _, attempts) => url in g.nodes && attempts >= 1
    case Downloading(url, ancestors, attempts) => url in g.nodes && url !in ancestors && attempts >= 1
    case Waiting(_, children) => forall child <- children :: Sane(g, child)
    case Done(_) => true
  }

  lemma {:induction false} WeightAllUpdate(g: Graph, ts: seq<Task>, i: nat, t: Task)
    requires i < |ts|
    ensures WeightAll(g, ts[i := t]) + Weight(g, ts[i]) == WeightAll(g, ts) + Weight(g, t)
    decreases i
  {
    if i == 0 {
      assert ts[0 := t][1..] == ts[1..];
    } else {
      WeightAllUpdate(g, ts[1..], i - 1, t);
      assert ts[i := t][1..] == ts[1..][i - 1 := t];
    }
  }

  lemma {:induction false} WeightAllBound(g: Graph, ts: seq<Task>, w: nat)
    requires forall t <- ts :: Weight(g, t) == w
    ensures WeightAll(g, ts) == |ts| * w
  {
    if ts != [] {
      assert forall t <- ts[1..] :: t in ts;
      WeightAllBound(g, ts[1..], w);
      OneMoreTime(|ts| - 1, w);
      assert Weight(g, ts[0]) == w;
    }
  }

  lemma OneMoreTime(n: nat, w: nat)
    ensures (n + 1) * w == n * w + w
  {
  }

  lemma MulMonotone(a: nat, b: nat, w: nat)
    requires a <= b
    ensures a * w <= b * w
  {
  }

  lemma StartingChildrenIsLighter(g: Graph, url: Url, ancestors: set<Url>)
    requires Finite(g) && url in g.nodes && url !in ancestors
    ensures var children := StartChildren(g.imports(url), ancestors + {url});
            && 1 + WeightAll(g, children) < AttemptWeight(g, Free(g, ancestors))
            && forall child <- children :: Sane(g, child)
  {
    var children := StartChildren(g.imports(url), ancestors + {url});
    var free := Free(g, ancestors);
    assert g.nodes - (ancestors + {url}) == (g.nodes - ancestors) - {url};
    assert Free(g, ancestors + {url}) == free - 1;
    WeightAllBound(g, children, ChildWeight(g, free - 1));
    MulMonotone(|children|, g.fanout, ChildWeight(g, free - 1));
  }

  lemma AttemptTakesMoves(g: Graph, attempts: nat, free: nat)
    requires attempts >= 1
    ensures attempts * AttemptWeight(g, free) == (attempts - 1) * AttemptWeight(g, free) + AttemptWeight(g, free)
    ensures AttemptWeight(g, free) >= 3
  {
  }

  predicate Lighter(g: Graph, t: Task, visited: set<Url>, t': Task, visited': set<Url>) {
    Sane(g, t') && if t' == t then visited' == visited else Weight(g, t') < Weight(g, t)
  }

  lemma DownloadIsLighter(g: Graph, t: Task, visited: set<Url>, c: Choice)
    requires Finite(g) && Sane(g, t) && t.Downloading?
    ensures var (t', v') := Step(g, t, visited, c); c.Here? ==> Sane(g, t') && Weight(g, t') < Weight(g, t)
  {
    var w := AttemptWeight(g, Free(g, t.ancestors));
    AttemptTakesMoves(g, t.attempts, Free(g, t.ancestors));
    assert Weight(g, t) == t.attempts * w;
    if c == Here(true) {
      StartingChildrenIsLighter(g, t.url, t.ancestors);
      MulMonotone(1, t.attempts, w);
    } else if c.Here? && t.attempts > 1 {
      assert Weight(g, Ready(t.url, t.ancestors, t.attempts - 1)) == (t.attempts - 1) * w + 1;
    }
  }

  lemma ReadyIsLighter(g: Graph, t: Task, visited: set<Url>, c: Choice)
    requires Sane(g, t) && t.Ready?
    ensures var (t', v') := Step(g, t, visited, c); c.Here? ==> Sane(g, t') && Weight(g, t') < Weight(g, t)
  {
    var w := AttemptWeight(g, Free(g, t.ancestors));
    assert Weight(g, t) == t.attempts * w + 1;
    if c.Here? && t.url !in t.ancestors && t.url !in visited {
      assert Weight(g, Downloading(t.url, t.ancestors, t.attempts)) == t.attempts * w;
    }
  }

  lemma ChildIsLighter(g: Graph, url: Url, children: seq<Task>, i: nat, visited: set<Url>, child: Task,
          visited': set<Url>)
    requires Sane(g, Waiting(url, children)) && i < |children| && Lighter(g, children[i], visited, child, visited')
    ensures Lighter(g, Waiting(url, children), visited, Waiting(url, children[i := child]), visited')
  {
    WeightAllUpdate(g, children, i, child);
    var children' := children[i := child];
    assert forall x <- children' :: x == child || x in children;
    if child == children[i] {
      assert children' == children;
    } else {
      assert children'[i] == child;
    }
  }

  /** Every move makes the task lighter. */
  lemma {:induction false} MoveIsLighter(g: Graph, t: Task, visited: set<Url>, c: Choice)
    requires Finite(g) && Sane(g, t)
    ensures var (t', v') := Step(g, t, visited, c); Lighter(g, t, visited, t', v')
    decreases t
  {
    match t
    case Ready(_, _, _) => ReadyIsLighter(g, t, visited, c);
    case Downloading(_, _, _) => DownloadIsLighter(g, t, visited, c);
    case Waiting(url, children) =>
      if c.Child? && c.index < |children| {
        var (child, v') := Step(g, children[c.index], visited, c.choice);
        MoveIsLighter(g, children[c.index], visited, c.choice);
        ChildIsLighter(g, url, children, c.index, visited, child, v');
      }
    case Done(_) =>
  }

  function Moves(g: Graph, t: Task, visited: set<Url>, choices: seq<Choice>): nat
    decreases |choices|
  {
    if choices == [] then 0
    else
      var (t', v') := Step(g, t, visited, choices[0]);
      (if t' == t then 0 else 1) + Moves(g, t', v', choices[1..])
  }

  /**
   On any finite graph, cycles and failing downloads included, every interleaving ends after
   a bounded number of moves.
   */
  lemma {:induction false} FetchTerminates(g: Graph, t: Task, visited: set<Url>, choices: seq<Choice>)
    requires Finite(g) && Sane(g, t)
    ensures Moves(g, t, visited, choices) <= Weight(g, t)
    decreases |choices|
  {
    if choices != [] {
      var (t', v') := Step(g, t, visited, choices[0]);
      MoveIsLighter(g, t, visited, choices[0]);
      FetchTerminates(g, t', v', choices[1..]);
    }
  }

  /** Some task that can move. */
  function Mover(t: Task): Choice
    decreases t
  {
    match t
    case Waiting(_, children) => if AllDone(children) then Here(true) else MoverAmong(children, 0)
    case _ => Here(true)
  }

  function MoverAmong(ts: seq<Task>, skipped: nat): Choice
    decreases ts
  {
    if ts == [] then Here(true)
    else if ts[0].Done? then MoverAmong(ts[1..], skipped + 1)
    else Child(skipped, Mover(ts[0]))
  }

  lemma {:induction false} MoverAmongPicks(ts: seq<Task>, skipped: nat)
    requires !AllDone(ts)
    ensures var c := MoverAmong(ts, skipped);
            && c.Child? && skipped <= c.index < skipped + |ts|
            && !ts[c.index - skipped].Done? && c.choice == Mover(ts[c.index - skipped])
    decreases |ts|
  {
    if ts[0].Done? {
      assert !AllDone(ts[1..]);
      MoverAmongPicks(ts[1..], skipped + 1);
    }
  }

  /** Nobody waits for ever: while the fetch has not returned, some task can move. */
  lemma {:induction false} UnfinishedCanMove(g: Graph, t: Task, visited: set<Url>)
    requires !t.Done?
    ensures Step(g, t, visited, Mover(t)).0 != t
    decreases t
  {
    if t.Waiting? && !AllDone(t.children) {
      MoverAmongPicks(t.children, 0);
      var c := Mover(t);
      UnfinishedCanMove(g, t.children[c.index], visited);
      var child := Step(g, t.children[c.index], visited, c.choice).0;
      assert t.children[c.index := child][c.index] == child;
    }
  }

  // ---------------------------------------------------------------- the code, one goroutine at a time

  /** Whether the n-th download of a run succeeds, by the URL it asks for. */
  type Network = (Url, nat) -> bool

  /** The number of downloads after the moves, if each has ended as the network says. */
  function Served(g: Graph, t: Task, visited: set<Url>, choices: seq<Choice>, net: Network, n: nat): Option<nat>
    decreases |choices|
  {
    if choices == [] then Some(n)
    else
      var (t', v') := Step(g, t, visited, choices[0]);
      match Attempt(t, choices[0])
      case None => Served(g, t', v', choices[1..], net, n)
      case Some((u, ok)) => if ok == net(u, n) then Served(g, t', v', choices[1..], net, n + 1) else None
  }

  /** A run from one task and visited set to another on a network, from its n-th download to its m-th. */
  predicate Follows(g: Graph, t: Task, visited: set<Url>, choices: seq<Choice>, t': Task, visited': set<Url>,
          net: Network, n: nat, m: nat)
  {
    Run(g, t, visited, choices) == (t', visited') && Served(g, t, visited, choices, net, n) == Some(m)
  }

  lemma {:induction false} FollowsAppend(g: Graph, t: Task, v: set<Url>, a: seq<Choice>, t1: Task, v1: set<Url>,
          b: seq<Choice>, t2: Task, v2: set<Url>, net: Network, n: nat, n1: nat, n2: nat)
    requires Follows(g, t, v, a, t1, v1, net, n, n1) && Follows(g, t1, v1, b, t2, v2, net, n1, n2)
    ensures Follows(g, t, v, a + b, t2, v2, net, n, n2)
    decreases |a|
  {
    if a == [] {
      assert a + b == b;
    } else {
      var (t', v') := Step(g, t, v, a[0]);
      var n' := if Attempt(t, a[0]).None? then n else n + 1;
      FollowsAppend(g, t', v', a[1..], t1, v1, b, t2, v2, net, n', n1, n2);
      assert (a + b)[1..] == a[1..] + b;
    }
  }

  lemma FollowsMove(g: Graph, t: Task, v: set<Url>, a: seq<Choice>, t1: Task, v1: set<Url>, c: Choice,
          net: Network, n: nat, n1: nat)
    requires Follows(g, t, v, a, t1, v1, net, n, n1)
    requires Attempt(t1, c).Some? ==> Attempt(t1, c).value.1 == net(Attempt(t1, c).value.0, n1)
    ensures var (t2, v2) := Step(g, t1, v1, c);
            Follows(g, t, v, a + [c], t2, v2, net, n, if Attempt(t1, c).Some? then n1 + 1 else n1)
  {
    var (t2, v2) := Step(g, t1, v1, c);
    var n2 := if Attempt(t1, c).Some? then n1 + 1 else n1;
    assert [c][1..] == [];
    assert Run(g, t2, v2, []) == (t2, v2) && Served(g, t2, v2, [], net, n2) == Some(n2);
    FollowsAppend(g, t, v, a, t1, v1, [c], t2, v2, net, n, n1, n2);
  }

  function AtChild(i: nat, choices: seq<Choice>): (r: seq<Choice>)
    ensures |r| == |choices|
  {
    if choices == [] then [] else [Child(i, choices[0])] + AtChild(i, choices[1..])
  }

  /** What a child does, it does below the task that waits for it. */
  lemma {:induction false} ChildFollows(g: Graph, url: Url, ts: seq<Task>, i: nat, v: set<Url>, choices: seq<Choice>,
          child: Task, v': set<Url>, net: Network, n: nat, m: nat)
    requires i < |ts| && Follows(g, ts[i], v, choices, child, v', net, n, m)
    ensures Follows(g, Waiting(url, ts), v, AtChild(i, choices), Waiting(url, ts[i := child]), v', net, n, m)
    decreases |choices|
  {
    if choices == [] {
      assert ts[i := child] == ts;
    } else {
      var (t1, v1) := Step(g, ts[i], v, choices[0]);
      var n1 := if Attempt(ts[i], choices[0]).None? then n else n + 1;
      ChildFollows(g, url, ts[i := t1], i, v1, choices[1..], child, v', net, n1, m);
      assert ts[i := t1][i := child] == ts[i := child];
      assert AtChild(i, choices)[1..] == AtChild(i, choices[1..]);
    }
  }

  lemma {:induction false} ResultsAppend(a: seq<Task>, b: seq<Task>)
    requires AllDone(a) && AllDone(b)
    ensures AllDone(a + b) && Results(a + b) == Results(a) + Results(b)
  {
    if a == [] {
      assert a + b == b;
    } else {
      ResultsAppend(a[1..], b);
      assert (a + b)[1..] == a[1..] + b;
    }
  }

  ghost predicate Serves(net: Network, good: set<Url>, bad: set<Url>) {
    (forall u, n :: u in good ==> net(u, n)) && forall u, n :: u in bad ==> !net(u, n)
  }

  /** No download of the root fails, and of any two downloads of another URL one succeeds. */
  ghost predicate FailsOnceAtMost(net: Network, root: Url) {
    && (forall n :: net(root, n))
    && forall u, m, n :: m < n ==> net(u, m) || net(u, n)
  }

  lemma {:induction false} ServedIsAllowed(g: Graph, t: Task, visited: set<Url>, choices: seq<Choice>, net: Network,
          n: nat, good: set<Url>, bad: set<Url>)
    requires Serves(net, good, bad) && Served(g, t, visited, choices, net, n).Some?
    ensures AllowedRun(g, t, visited, choices, good, bad)
    decreases |choices|
  {
    if choices != [] {
      var (t', v') := Step(g, t, visited, choices[0]);
      MoveIsAllowed(t, choices[0], good, bad);
      ServedIsAllowed(g, t', v', choices[1..], net, if Attempt(t, choices[0]).None? then n else n + 1, good, bad);
    }
  }

  lemma {:induction false} MoveIsAllowed(t: Task, c: Choice, good: set<Url>, bad: set<Url>)
    requires Attempt(t, c).Some? ==> var (u, ok) := Attempt(t, c).value; if ok then u !in bad else u !in good
    ensures Allowed(t, c, good, bad)
    decreases t
  {
    if t.Waiting? && c.Child? && c.index < |t.children| {
      MoveIsAllowed(t.children[c.index], c.choice, good, bad);
    }
  }

  lemma {:induction false} ServedFailsOnce(g: Graph, t: Task, visited: set<Url>, choices: seq<Choice>, net: Network,
          n: nat, root: Url, spent: set<Url>)
    requires FailsOnceAtMost(net, root) && Served(g, t, visited, choices, net, n).Some?
    requires forall u <- spent :: exists m: nat :: m < n && !net(u, m)
    ensures FailsOnce(g, t, visited, choices, root, spent)
    decreases |choices|
  {
    if choices != [] {
      var (t', v') := Step(g, t, visited, choices[0]);
      match Attempt(t, choices[0])
      case None =>
        ServedFailsOnce(g, t', v', choices[1..], net, n, root, spent);
      case Some((u, ok)) =>
        var spent' := if ok then spent else spent + {u};
        forall x <- spent'
          ensures exists m: nat :: m < n + 1 && !net(x, m)
        {
          if x in spent {
            var m: nat :| m < n && !net(x, m);
          } else {
            assert !net(x, n);
          }
        }
        ServedFailsOnce(g, t', v', choices[1..], net, n + 1, root, spent');
    }
  }

  /** How the task stands when one of its attempts has returned. */
  function AfterAttempt(url: Url, ancestors: set<Url>, attempts: nat, ok: bool, results: seq<Url>): Task {
    if ok then Done(results) else if attempts > 1 then Ready(url, ancestors, attempts - 1) else Done([])
  }

  /** typeFetchState, with the number of downloads so far. */
  class TypeFetchState {
    var visited: set<Url>
    var downloads: nat

    constructor ()
      ensures visited == {} && downloads == 0
    {
      visited := {};
      downloads := 0;
    }

    method AcquireVisit(url: Url) returns (shouldFetch: bool)
      modifies this`visited
      ensures shouldFetch == (url !in old(visited))
      ensures visited == old(visited) + {url}
    {
      shouldFetch := url !in visited;
      if shouldFetch {
        visited := visited + {url};
      }
    }

    method ReleaseVisit(url: Url, success: bool)
      modifies this`visited
      ensures visited == if success then old(visited) else old(visited) - {url}
    {
      if !success {
        visited := visited - {url};
      }
    }

    method FetchTypeRecursive(g: Graph, net: Network, url: Url, ancestors: set<Url>, ghost attempts: nat)
      returns (ok: bool, results: seq<Url>, ghost trace: seq<Choice>)
      requires Finite(g) && url in g.nodes && attempts >= 1
      modifies this
      ensures Follows(g, Ready(url, ancestors, attempts), old(visited), trace,
                      AfterAttempt(url, ancestors, attempts, ok, results), visited, net, old(downloads), downloads)
      ensures ok <==> url in ancestors || url in old(visited) || net(url, old(downloads))
      ensures !ok ==> results == [] && visited == old(visited) && downloads == old(downloads) + 1
      decreases |g.nodes - ancestors|, 0
    {
      ghost var start := Ready(url, ancestors, attempts);
      ghost var n := downloads;
      ok, results, trace := true, [], [];
      assert Follows(g, start, visited, [], start, visited, net, n, n);
      if url in ancestors {
        FollowsMove(g, start, visited, [], start, visited, Here(true), net, n, n);
        trace := [] + [Here(true)];
        return;
      }
      var shouldFetch := AcquireVisit(url);
      FollowsMove(g, start, old(visited), [], start, old(visited), Here(true), net, n, n);
      trace := [] + [Here(true)];
      if !shouldFetch {
        assert visited == old(visited);
        return;
      }
      ok := net(url, downloads);
      downloads := downloads + 1;
      FollowsMove(g, start, old(visited), trace, Downloading(url, ancestors, attempts), visited, Here(ok), net, n, n);
      trace := trace + [Here(ok)];
      if !ok {
        ReleaseVisit(url, false);
        return;
      }
      results, trace := FetchImports(g, net, url, ancestors, start, old(visited), trace, n);
    }

    method FetchImports(g: Graph, net: Network, url: Url, ancestors: set<Url>, ghost start: Task,
            ghost before: set<Url>, ghost moves: seq<Choice>, ghost n: nat)
      returns (results: seq<Url>, ghost trace: seq<Choice>)
      requires Finite(g) && url in g.nodes && url !in ancestors
      requires var waiting := Waiting(url, StartChildren(g.imports(url), ancestors + {url}));
               Follows(g, start, before, moves, waiting, visited, net, n, downloads)
      modifies this
      ensures Follows(g, start, before, trace, Done(results), visited, net, n, downloads)
      decreases |g.nodes - ancestors|, 0, 0
    {
      var imports := g.imports(url);
      var localAncestors := ancestors + {url};
      assert g.nodes - localAncestors < g.nodes - ancestors by {
        assert url in g.nodes - ancestors;
      }
      SubsetSize(g.nodes - localAncestors, g.nodes - ancestors);
      ghost var ts := StartChildren(imports, localAncestors);
      var transitive := [];
      trace := moves;
      assert ts[..0] == [];
      for i := 0 to |imports|
        invariant |ts| == |imports| && AllDone(ts[..i]) && transitive == Results(ts[..i])
        invariant forall j :: i <= j < |ts| ==> ts[j] == Ready(imports[j], localAncestors, TRANSITIVE_ATTEMPTS)
        invariant Follows(g, start, before, trace, Waiting(url, ts), visited, net, n, downloads)
      {
        ghost var was, asked := visited, downloads;
        var sub;
        ghost var steps;
        assert imports[i] in g.nodes;
        sub, steps := FetchTypeRecursiveWithRetry(g, net, imports[i], localAncestors, TRANSITIVE_ATTEMPTS);
        transitive := transitive + sub;
        ghost var ts' := ts[i := Done(sub)];
        ChildFollows(g, url, ts, i, was, steps, Done(sub), visited, net, asked, downloads);
        FollowsAppend(g, start, before, trace, Waiting(url, ts), was, AtChild(i, steps), Waiting(url, ts'), visited,
                      net, n, asked, downloads);
        trace := trace + AtChild(i, steps);
        ResultsAppend(ts[..i], [Done(sub)]);
        assert ts'[..i + 1] == ts[..i] + [Done(sub)];
        ts := ts';
      }
      assert ts[..|imports|] == ts;
      FollowsMove(g, start, before, trace, Waiting(url, ts), visited, Here(true), net, n, downloads);
      trace := trace + [Here(true)];
      results := [url] + transitive;
    }

    method FetchTypeRecursiveWithRetry(g: Graph, net: Network, url: Url, ancestors: set<Url>, attempts: nat)
      returns (results: seq<Url>, ghost trace: seq<Choice>)
      requires Finite(g) && url in g.nodes && attempts >= 1
      modifies this
      ensures Follows(g, Ready(url, ancestors, attempts), old(visited), trace, Done(results), visited,
                      net, old(downloads), downloads)
      decreases |g.nodes - ancestors|, 1
    {
      ghost var start := Ready(url, ancestors, attempts);
      ghost var n := downloads;
      trace := [];
      var left := attempts;
      assert Follows(g, start, visited, [], start, visited, net, n, n);
      while left > 0
        invariant 0 <= left <= attempts
        invariant Follows(g, start, old(visited), trace, if left > 0 then Ready(url, ancestors, left) else Done([]), visited,
                          net, n, downloads)
      {
        ghost var was, asked := visited, downloads;
        var ok;
        ghost var steps;
        ok, results, steps := FetchTypeRecursive(g, net, url, ancestors, left);
        FollowsAppend(g, start, old(visited), trace, Ready(url, ancestors, left), was, steps,
                      AfterAttempt(url, ancestors, left, ok, results), visited, net, n, asked, downloads);
        trace := trace + steps;
        if ok {
          return;
        }
        left := left - 1;
      }
      results := [];
    }
  }

  /**
   The fetch of one package: one attempt at the root; no URL twice, everything reachable
   past failures, nothing else; and exactly the reachable if each URL but the root fails
   once at most.
   */
  method FetchType(g: Graph, net: Network, root: Url, ghost good: set<Url>, ghost bad: set<Url>)
    returns (ok: bool, results: seq<Url>)
    requires Finite(g) && root in g.nodes && Serves(net, good, bad)
    ensures NoDuplicates(results) && ok == net(root, 0) && (!ok ==> results == [])
    ensures ImportersFirst(g, root, results)
    ensures forall u :: Reachable(g, root, u, good) ==> u in results
    ensures forall u :: u in results ==> Reachable(g, root, u, g.nodes - bad)
    ensures FailsOnceAtMost(net, root) ==> forall u :: u in results <==> Reachable(g, root, u, g.nodes)
  {
    var state := new TypeFetchState();
    ghost var trace;
    ok, results, trace := state.FetchTypeRecursive(g, net, root, {}, 1);
    ReportsNoUrlTwice(g, root, trace);
    ReportsImportersFirst(g, root, trace);
    ServedIsAllowed(g, Root(root), {}, trace, net, 0, good, bad);
    forall u
      ensures Reachable(g, root, u, good) ==> u in results
      ensures u in results ==> Reachable(g, root, u, g.nodes - bad)
    {
      FetchesWhatIsReachable(g, root, trace, good, bad, u);
    }
    if FailsOnceAtMost(net, root) {
      ServedFailsOnce(g, Root(root), {}, trace, net, 0, root, {});
      OneFailureEachIsMadeGood(g, root, trace);
    }
  }

  /** A URL is tried twice and not more: after two failures of its only import the root stands alone. */
  lemma TwoFailuresLoseUrl(g: Graph, root: Url, a: Url)
    requires a != root && g.imports(root) == [a]
    ensures var fails := [Child(0, Here(true)), Child(0, Here(false))];
            var choices := [Here(true), Here(true)] + (fails + (fails + [Here(true)]));
            Run(g, Root(root), {}, choices) == (Done([root]), {root})
  {
    var fails := [Child(0, Here(true)), Child(0, Here(false))];
    var rest := fails + (fails + [Here(true)]);
    var choices := [Here(true), Here(true)] + rest;
    var child := Ready(a, {root}, 2);
    var waiting := Waiting(root, [child]);
    RunTwo(g, Root(root), {}, Here(true), Here(true), rest);
    assert StartChildren([a], {root}) == [child];
    assert {} + {root} == {root};
    assert Step(g, Root(root), {}, Here(true)) == (Downloading(root, {}, 1), {root});
    assert Step(g, Downloading(root, {}, 1), {root}, Here(true)) == (waiting, {root});
    FailingChild(g, root, a, 2, fails + [Here(true)]);
    FailingChild(g, root, a, 1, [Here(true)]);
    var last := Waiting(root, [Done([])]);
    assert AllDone([Done([])]) && [Done([])][1..] == [];
    assert Results([Done([])]) == [] + Results([]) == [];
    assert [root] + Results([Done([])]) == [root];
    assert Step(g, last, {root}, Here(true)) == (Done([root]), {root});
    assert Run(g, last, {root}, [Here(true)]) == Run(g, Done([root]), {root}, []);
  }

  lemma RunTwo(g: Graph, t: Task, v: set<Url>, a: Choice, b: Choice, rest: seq<Choice>)
    ensures var (t1, v1) := Step(g, t, v, a);
            var (t2, v2) := Step(g, t1, v1, b);
            Run(g, t, v, [a, b] + rest) == Run(g, t2, v2, rest)
  {
    var choices := [a, b] + rest;
    assert choices[1..] == [b] + rest && choices[1..][1..] == rest;
  }

  lemma FailingChild(g: Graph, root: Url, a: Url, attempts: nat, rest: seq<Choice>)
    requires a != root && attempts >= 1
    ensures var next := if attempts > 1 then Ready(a, {root}, attempts - 1) else Done([]);
            Run(g, Waiting(root, [Ready(a, {root}, attempts)]), {root}, [Child(0, Here(true)), Child(0, Here(false))] + rest)
            == Run(g, Waiting(root, [next]), {root}, rest)
  {
    var t := Waiting(root, [Ready(a, {root}, attempts)]);
    RunTwo(g, t, {root}, Child(0, Here(true)), Child(0, Here(false)), rest);
    var busy := Downloading(a, {root}, attempts);
    assert t.children[0 := busy] == [busy];
    assert {root} + {a} - {a} == {root};
    var next := if attempts > 1 then Ready(a, {root}, attempts - 1) else Done([]);
    assert [busy][0 := next] == [next];
  }
}
