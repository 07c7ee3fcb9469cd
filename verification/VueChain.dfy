/**
 The inheritance chains of same-named Vue components (internal/parser/vueutil.go).

 Each component may extend another by path.  findVueChildrenWithSameName walks from
 every component up to the root of its chain and down again, and at every component
 follows only the first child.
 */
module VueChain {

  import opened Wrappers

  datatype VueComponent = VueComponent(name: string, extendsPath: string)

  datatype ParserResult = ParserResult(path: string, vue: Option<VueComponent>)

  predicate Named(r: ParserResult, name: string) {
    r.vue.Some? && r.vue.value.name == name
  }

  function SameName(rs: seq<ParserResult>, name: string): seq<ParserResult> {
    if rs == [] then []
    else SameName(rs[..|rs| - 1], name) + if Named(rs[|rs| - 1], name) then [rs[|rs| - 1]] else []
  }

  lemma {:induction false} InSameName(rs: seq<ParserResult>, name: string, r: ParserResult)
    ensures r in SameName(rs, name) <==> r in rs && Named(r, name)
  {
    if rs != [] {
      InSameName(rs[..|rs| - 1], name, r);
      assert rs == rs[..|rs| - 1] + [rs[|rs| - 1]];
    }
  }

  predicate Components(cs: seq<ParserResult>) {
    forall c <- cs :: c.vue.Some?
  }

  predicate UniquePaths(cs: seq<ParserResult>) {
    forall i, j :: 0 <= i < j < |cs| ==> cs[i].path != cs[j].path
  }

  // ---------------------------------------------------------------- parents and first children

  /** The component at a path; of two, the later. */
  function AtPath(cs: seq<ParserResult>, path: string): (r: Option<ParserResult>)
    ensures r.Some? ==> r.value in cs && r.value.path == path
    ensures r.None? ==> forall c <- cs :: c.path != path
  {
    if cs == [] then None
    else if cs[|cs| - 1].path == path then Some(cs[|cs| - 1])
    else
      var r := AtPath(cs[..|cs| - 1], path);
      assert cs == cs[..|cs| - 1] + [cs[|cs| - 1]];
      r
  }

  function Parent(cs: seq<ParserResult>, c: ParserResult): (r: Option<ParserResult>)
    requires c.vue.Some?
    ensures r.Some? ==> r.value in cs && r.value.path == c.vue.value.extendsPath
  {
    if c.vue.value.extendsPath == "" then None else AtPath(cs, c.vue.value.extendsPath)
  }

  predicate Extends(c: ParserResult, path: string) {
    c.vue.Some? && c.vue.value.extendsPath == path != ""
  }

  /** The first component that extends the one at a path. */
  function FirstChild(cs: seq<ParserResult>, path: string): (r: Option<ParserResult>)
    ensures r.Some? ==> r.value in cs && Extends(r.value, path)
    ensures r.None? ==> forall c <- cs :: !Extends(c, path)
  {
    if cs == [] then None
    else
      var r := FirstChild(cs[..|cs| - 1], path);
      assert cs == cs[..|cs| - 1] + [cs[|cs| - 1]];
      if r.Some? then r else if Extends(cs[|cs| - 1], path) then Some(cs[|cs| - 1]) else None
  }

  /** The child that is followed is the first in the given order that bears the name and extends the path. */
  lemma {:induction false} FollowedChildIsFirst(rs: seq<ParserResult>, name: string, path: string, k: nat)
    requires k < |rs| && Named(rs[k], name) && Extends(rs[k], path)
    requires forall j :: 0 <= j < k ==> !(Named(rs[j], name) && Extends(rs[j], path))
    ensures FirstChild(SameName(rs, name), path) == Some(rs[k])
  {
    var before := rs[..|rs| - 1];
    var cs := SameName(before, name);
    if k < |before| {
      FollowedChildIsFirst(before, name, path, k);
    } else {
      forall c <- cs
        ensures !Extends(c, path)
      {
        InSameName(before, name, c);
      }
    }
    if Named(rs[|rs| - 1], name) {
      assert (cs + [rs[|rs| - 1]])[..|cs|] == cs;
    } else {
      assert SameName(rs, name) == cs;
    }
  }

  lemma SamePathSameComponent(cs: seq<ParserResult>, c: ParserResult, d: ParserResult)
    requires UniquePaths(cs) && c in cs && d in cs && c.path == d.path
    ensures c == d
  {
    var i :| 0 <= i < |cs| && cs[i] == c;
    var j :| 0 <= j < |cs| && cs[j] == d;
  }

  /** A component is the parent of whatever extends it. */
  lemma ChildsParent(cs: seq<ParserResult>, p: ParserResult, c: ParserResult)
    requires UniquePaths(cs) && p in cs && Extends(c, p.path)
    ensures Parent(cs, c) == Some(p)
  {
    SamePathSameComponent(cs, AtPath(cs, p.path).value, p);
  }

  // ---------------------------------------------------------------- lineages

  /** A line of components, each the parent of the next. */
  ghost predicate Lineage(cs: seq<ParserResult>, p: seq<ParserResult>) {
    && p != []
    && (forall i :: 0 <= i < |p| ==> p[i] in cs && p[i].vue.Some?)
    && forall i, j :: 0 <= i < j < |p| && j == i + 1 ==> Parent(cs, p[j]) == Some(p[i])
  }

  ghost predicate Acyclic(cs: seq<ParserResult>) {
    forall p :: Lineage(cs, p) && |p| > 1 ==> p[0] != p[|p| - 1]
  }

  lemma LineageSlice(cs: seq<ParserResult>, p: seq<ParserResult>, i: nat, j: nat)
    requires Lineage(cs, p) && i < j <= |p|
    ensures Lineage(cs, p[i..j]) && p[i..j][0] == p[i] && p[i..j][j - i - 1] == p[j - 1]
  {
    var q := p[i..j];
    assert forall k :: 0 <= k < |q| ==> q[k] == p[i + k];
  }

  lemma LineageDoesNotReturn(cs: seq<ParserResult>, p: seq<ParserResult>, i: nat, j: nat)
    requires Lineage(cs, p) && Acyclic(cs) && i < j < |p|
    ensures p[i] != p[j]
  {
    LineageSlice(cs, p, i, j + 1);
    assert |p[i..j + 1]| == j - i + 1;
  }

  lemma LineageIsDistinct(cs: seq<ParserResult>, p: seq<ParserResult>)
    requires Lineage(cs, p) && Acyclic(cs)
    ensures NoDuplicates(p) && |p| <= |cs|
  {
    forall i, j | 0 <= i < j < |p|
      ensures p[i] != p[j]
    {
      LineageDoesNotReturn(cs, p, i, j);
    }
    DistinctFit(p, cs);
  }

  /** A list without duplicates is no longer than a list that has all its elements. */
  lemma {:induction false} DistinctFit<T>(a: seq<T>, b: seq<T>)
    requires NoDuplicates(a) && forall x <- a :: x in b
    ensures |a| <= |b|
    decreases |a|
  {
    if a != [] {
      var x := a[|a| - 1];
      var rest := a[..|a| - 1];
      assert x in b;
      var i :| 0 <= i < |b| && b[i] == x;
      var b' := b[..i] + b[i + 1..];
      forall y <- rest
        ensures y in b'
      {
        assert y in a && y in b;
        var j :| 0 <= j < |b| && b[j] == y;
        assert j != i;
        if j < i {
          assert b'[j] == y;
        } else {
          assert b'[j - 1] == y;
        }
      }
      DistinctFit(rest, b');
    }
  }

  ghost predicate FromRoot(cs: seq<ParserResult>, p: seq<ParserResult>) {
    Lineage(cs, p) && Parent(cs, p[0]) == None
  }

  /** A component has one lineage from a root. */
  lemma {:induction false} OneLineage(cs: seq<ParserResult>, p: seq<ParserResult>, q: seq<ParserResult>)
    requires FromRoot(cs, p) && FromRoot(cs, q) && p[|p| - 1] == q[|q| - 1]
    ensures p == q
    decreases |p|
  {
    var m, n := |p| - 1, |q| - 1;
    assert m > 0 ==> Parent(cs, p[m]) == Some(p[m - 1]);
    assert n > 0 ==> Parent(cs, q[n]) == Some(q[n - 1]);
    if m > 0 && n > 0 {
      LineageSlice(cs, p, 0, m);
      LineageSlice(cs, q, 0, n);
      OneLineage(cs, p[..|p| - 1], q[..|q| - 1]);
      assert p == p[..|p| - 1] + [p[|p| - 1]];
      assert q == q[..|q| - 1] + [q[|q| - 1]];
    }
  }

  /** Every link leads to the first child. */
  ghost predicate FollowsFirst(cs: seq<ParserResult>, p: seq<ParserResult>) {
    forall i, j :: 0 <= i < j < |p| && j == i + 1 ==> FirstChild(cs, p[i].path) == Some(p[j])
  }

  /** The component is reached from its root by first children alone. */
  ghost predicate OnFirstLine(cs: seq<ParserResult>, c: ParserResult) {
    exists p :: FromRoot(cs, p) && FollowsFirst(cs, p) && p[|p| - 1] == c
  }

  /** A line of first children from the same root is part of the line that goes to the end. */
  lemma {:induction false} FirstLineIsPrefix(cs: seq<ParserResult>, p: seq<ParserResult>, whole: seq<ParserResult>,
          i: nat)
    requires p != [] && whole != [] && FollowsFirst(cs, p) && FollowsFirst(cs, whole) && p[0] == whole[0]
    requires FirstChild(cs, whole[|whole| - 1].path) == None && i < |p|
    ensures i < |whole| && whole[i] == p[i]
  {
    if i > 0 {
      FirstLineIsPrefix(cs, p, whole, i - 1);
      assert FirstChild(cs, p[i - 1].path) == Some(p[i]);
      assert i < |whole| ==> FirstChild(cs, whole[i - 1].path) == Some(whole[i]);
    }
  }

  /** No component has two children. */
  predicate OneChildEach(cs: seq<ParserResult>) {
    Components(cs) && forall c <- cs, d <- cs :: Parent(cs, c).Some? && Parent(cs, c) == Parent(cs, d) ==> c == d
  }

  /** Without cycles every component has a root. */
  lemma {:induction false} HasRoot(cs: seq<ParserResult>, p: seq<ParserResult>) returns (q: seq<ParserResult>)
    requires Lineage(cs, p) && Components(cs) && Acyclic(cs)
    ensures FromRoot(cs, q) && q[|q| - 1] == p[|p| - 1]
    decreases |cs| - |p|
  {
    LineageIsDistinct(cs, p);
    match Parent(cs, p[0])
    case None => q := p;
    case Some(parent) =>
      ClimbOne(cs, p, parent);
      q := HasRoot(cs, [parent] + p);
  }

  /** All components are on first lines exactly when none has two children. */
  lemma AllOnFirstLineIff(cs: seq<ParserResult>)
    requires Components(cs) && UniquePaths(cs) && Acyclic(cs)
    ensures (forall c <- cs :: OnFirstLine(cs, c)) <==> OneChildEach(cs)
  {
    if OneChildEach(cs) {
      forall c <- cs
        ensures OnFirstLine(cs, c)
      {
        var p := HasRoot(cs, [c]);
        forall i, j | 0 <= i < j < |p| && j == i + 1
          ensures FirstChild(cs, p[i].path) == Some(p[j])
        {
          assert Extends(p[j], p[i].path);
          ChildsParent(cs, p[i], FirstChild(cs, p[i].path).value);
        }
      }
    }
    if forall c <- cs :: OnFirstLine(cs, c) {
      forall c <- cs, d <- cs | Parent(cs, c).Some? && Parent(cs, c) == Parent(cs, d)
        ensures c == d
      {
        FirstOfParent(cs, c);
        FirstOfParent(cs, d);
      }
    }
  }

  lemma FirstOfParent(cs: seq<ParserResult>, c: ParserResult)
    requires c.vue.Some? && OnFirstLine(cs, c) && Parent(cs, c).Some?
    ensures FirstChild(cs, Parent(cs, c).value.path) == Some(c)
  {
    var p: seq<ParserResult> :| FromRoot(cs, p) && FollowsFirst(cs, p) && p[|p| - 1] == c;
    var n: int := |p| - 1;
    assert n > 0 ==> Parent(cs, p[n]) == Some(p[n - 1]) && FirstChild(cs, p[n - 1].path) == Some(p[n]);
  }

  // ---------------------------------------------------------------- the walk

  /** Parents stand before their children. */
  predicate ParentsFirst(cs: seq<ParserResult>, sorted: seq<ParserResult>) {
    forall j :: 0 <= j < |sorted| && sorted[j].vue.Some? && Parent(cs, sorted[j]).Some? ==>
      Parent(cs, sorted[j]).value in sorted[..j]
  }

  /** What the walk has put in order so far. */
  ghost predicate Ordered(cs: seq<ParserResult>, sorted: seq<ParserResult>, visited: set<string>) {
    && NoDuplicates(sorted)
    && ParentsFirst(cs, sorted)
    && (forall c <- sorted :: c in cs && OnFirstLine(cs, c))
    && forall path :: path in visited <==> exists c <- sorted :: c.path == path
  }

  /** Every component visited so far has its first child visited, but for the one the walk stands at. */
  predicate WalkedDown(cs: seq<ParserResult>, sorted: seq<ParserResult>, but: Option<ParserResult>) {
    forall c <- sorted :: Some(c) == but || FirstChild(cs, c.path).None? || FirstChild(cs, c.path).value in sorted
  }

  lemma AppendKeepsParentsFirst(cs: seq<ParserResult>, sorted: seq<ParserResult>, c: ParserResult)
    requires ParentsFirst(cs, sorted) && (c.vue.Some? && Parent(cs, c).Some? ==> Parent(cs, c).value in sorted)
    ensures ParentsFirst(cs, sorted + [c])
  {
    var sorted' := sorted + [c];
    forall j | 0 <= j < |sorted'| && sorted'[j].vue.Some? && Parent(cs, sorted'[j]).Some?
      ensures Parent(cs, sorted'[j]).value in sorted'[..j]
    {
      if j < |sorted| {
        assert sorted'[..j] == sorted[..j];
      } else {
        assert sorted'[..j] == sorted;
      }
    }
  }

  lemma ParentIsOnTrail(cs: seq<ParserResult>, trail: seq<ParserResult>)
    requires FromRoot(cs, trail)
    ensures var c := trail[|trail| - 1]; Parent(cs, c).Some? ==> Parent(cs, c).value in trail[..|trail| - 1]
  {
    var n: int := |trail| - 1;
    assert n > 0 ==> Parent(cs, trail[n]) == Some(trail[n - 1]) && trail[..n][n - 1] == trail[n - 1];
  }

  lemma AppendKeepsOrder(cs: seq<ParserResult>, sorted: seq<ParserResult>, visited: set<string>,
          trail: seq<ParserResult>)
    requires Ordered(cs, sorted, visited)
    requires FromRoot(cs, trail) && FollowsFirst(cs, trail)
    requires forall t <- trail[..|trail| - 1] :: t in sorted
    requires trail[|trail| - 1].path !in visited
    ensures Ordered(cs, sorted + [trail[|trail| - 1]], visited + {trail[|trail| - 1].path})
  {
    var c := trail[|trail| - 1];
    ParentIsOnTrail(cs, trail);
    AppendKeepsParentsFirst(cs, sorted, c);
    assert OnFirstLine(cs, c);
    assert c !in sorted;
  }

  lemma ExtendTrail(cs: seq<ParserResult>, trail: seq<ParserResult>)
    requires UniquePaths(cs) && FromRoot(cs, trail) && FollowsFirst(cs, trail)
    requires FirstChild(cs, trail[|trail| - 1].path).Some?
    ensures var t := trail + [FirstChild(cs, trail[|trail| - 1].path).value]; FromRoot(cs, t) && FollowsFirst(cs, t)
  {
    ChildsParent(cs, trail[|trail| - 1], FirstChild(cs, trail[|trail| - 1].path).value);
  }

  /** A component on a first line is met on the way down from its own root. */
  lemma MetOnTheWay(cs: seq<ParserResult>, up: seq<ParserResult>, down: seq<ParserResult>)
    requires FromRoot(cs, up) && FromRoot(cs, down) && FollowsFirst(cs, down) && up[0] == down[0]
    requires FirstChild(cs, down[|down| - 1].path) == None
    ensures OnFirstLine(cs, up[|up| - 1]) ==> up[|up| - 1] in down
  {
    var c := up[|up| - 1];
    if OnFirstLine(cs, c) {
      var p: seq<ParserResult> :| FromRoot(cs, p) && FollowsFirst(cs, p) && p[|p| - 1] == c;
      OneLineage(cs, p, up);
      FirstLineIsPrefix(cs, p, down, |p| - 1);
    }
  }

  lemma ClimbOne(cs: seq<ParserResult>, trail: seq<ParserResult>, parent: ParserResult)
    requires Components(cs) && Acyclic(cs) && Lineage(cs, trail) && Parent(cs, trail[0]) == Some(parent)
    ensures Lineage(cs, [parent] + trail) && |trail| < |cs|
  {
    LineageIsDistinct(cs, [parent] + trail);
  }

  lemma TopIsRoot(cs: seq<ParserResult>, trail: seq<ParserResult>)
    requires Lineage(cs, trail) && Parent(cs, trail[0]) == None
    ensures FromRoot(cs, trail) && FromRoot(cs, [trail[0]])
  {
  }

  method ParentFromMap(cs: seq<ParserResult>, pathToComponent: map<string, ParserResult>, c: ParserResult)
    returns (parent: Option<ParserResult>)
    requires c.vue.Some? && c.vue.value.extendsPath != "" && Indexed(cs, pathToComponent)
    ensures parent == Parent(cs, c)
  {
    var path := c.vue.value.extendsPath;
    parent := if path in pathToComponent then Some(pathToComponent[path]) else None;
    assert AtPath(cs, path) == parent;
  }

  /** The first inner loop: up to the root. */
  method FindRoot(cs: seq<ParserResult>, pathToComponent: map<string, ParserResult>, r: ParserResult)
    returns (current: ParserResult, ghost trail: seq<ParserResult>)
    requires Components(cs) && Acyclic(cs) && r in cs && Indexed(cs, pathToComponent)
    ensures FromRoot(cs, trail) && FromRoot(cs, [current]) && trail[0] == current && trail[|trail| - 1] == r
  {
    current, trail := r, [r];
    while current.vue.value.extendsPath != ""
      invariant Lineage(cs, trail) && trail[0] == current && trail[|trail| - 1] == r
      decreases |cs| - |trail|
    {
      var parent := ParentFromMap(cs, pathToComponent, current);
      if parent.None? {
        break;
      }
      ClimbOne(cs, trail, parent.value);
      trail := [parent.value] + trail;
      current := parent.value;
    }
    TopIsRoot(cs, trail);
  }

  ghost predicate Indexed(cs: seq<ParserResult>, pathToComponent: map<string, ParserResult>) {
    forall path :: AtPath(cs, path) == if path in pathToComponent then Some(pathToComponent[path]) else None
  }

  function ChildrenOf(cs: seq<ParserResult>, path: string): (r: seq<ParserResult>)
    ensures FirstChild(cs, path) == if r == [] then None else Some(r[0])
  {
    if cs == [] then []
    else ChildrenOf(cs[..|cs| - 1], path) + if Extends(cs[|cs| - 1], path) then [cs[|cs| - 1]] else []
  }

  ghost predicate Grouped(cs: seq<ParserResult>, extendsToChildren: map<string, seq<ParserResult>>) {
    forall path :: ChildrenOf(cs, path) == if path in extendsToChildren then extendsToChildren[path] else []
  }

  lemma IndexedNext(cs: seq<ParserResult>, pathToComponent: map<string, ParserResult>, r: ParserResult)
    requires Indexed(cs, pathToComponent)
    ensures Indexed(cs + [r], pathToComponent[r.path := r])
  {
    assert (cs + [r])[..|cs|] == cs;
  }

  function Grown(extendsToChildren: map<string, seq<ParserResult>>, r: ParserResult): map<string, seq<ParserResult>>
    requires r.vue.Some?
  {
    var e := r.vue.value.extendsPath;
    if e == "" then extendsToChildren
    else extendsToChildren[e := (if e in extendsToChildren then extendsToChildren[e] else []) + [r]]
  }

  lemma GroupedNext(cs: seq<ParserResult>, extendsToChildren: map<string, seq<ParserResult>>, r: ParserResult)
    requires Grouped(cs, extendsToChildren) && r.vue.Some?
    ensures Grouped(cs + [r], Grown(extendsToChildren, r))
  {
    assert (cs + [r])[..|cs|] == cs;
    var grown := Grown(extendsToChildren, r);
    forall path
      ensures ChildrenOf(cs + [r], path) == if path in grown then grown[path] else []
    {
      assert ChildrenOf(cs, path) == if path in extendsToChildren then extendsToChildren[path] else [];
    }
  }

  /** The lookup maps of the first pass. */
  method Collect(rs: seq<ParserResult>, name: string)
    returns (cs: seq<ParserResult>, pathToComponent: map<string, ParserResult>, extendsToChildren: map<string, seq<ParserResult>>)
    ensures cs == SameName(rs, name) && Components(cs) && Indexed(cs, pathToComponent) && Grouped(cs, extendsToChildren)
  {
    cs, pathToComponent, extendsToChildren := [], map[], map[];
    for i := 0 to |rs|
      invariant cs == SameName(rs[..i], name) && Components(cs) && Indexed(cs, pathToComponent)
      invariant Grouped(cs, extendsToChildren)
    {
      var r := rs[i];
      assert rs[..i + 1][..i] == rs[..i];
      if r.vue.Some? && r.vue.value.name == name {
        IndexedNext(cs, pathToComponent, r);
        GroupedNext(cs, extendsToChildren, r);
        cs := cs + [r];
        pathToComponent := pathToComponent[r.path := r];
        var e := r.vue.value.extendsPath;
        if e != "" {
          var children := if e in extendsToChildren then extendsToChildren[e] else [];
          extendsToChildren := extendsToChildren[e := children + [r]];
        }
      }
    }
    assert rs[..|rs|] == rs;
  }

  /** The component before the last of a line. */
  function Before(trail: seq<ParserResult>): Option<ParserResult> {
    if |trail| > 1 then Some(trail[|trail| - 2]) else None
  }

  /** The walk stands at the end of a line of first children; all before it is visited. */
  ghost predicate Walking(cs: seq<ParserResult>, trail: seq<ParserResult>, sorted: seq<ParserResult>,
          visited: set<string>)
  {
    && UniquePaths(cs)
    && FromRoot(cs, trail) && FollowsFirst(cs, trail)
    && Ordered(cs, sorted, visited)
    && WalkedDown(cs, sorted, Before(trail))
    && forall t <- trail[..|trail| - 1] :: t in sorted
  }

  /** The same, with the end of the line visited too. */
  ghost predicate Arrived(cs: seq<ParserResult>, trail: seq<ParserResult>, sorted: seq<ParserResult>,
          visited: set<string>)
  {
    && UniquePaths(cs)
    && FromRoot(cs, trail) && FollowsFirst(cs, trail)
    && Ordered(cs, sorted, visited)
    && WalkedDown(cs, sorted, Some(trail[|trail| - 1]))
    && forall t <- trail :: t in sorted
  }

  lemma WalkedDownTo(cs: seq<ParserResult>, sorted: seq<ParserResult>, but: Option<ParserResult>, c: ParserResult,
          sorted': seq<ParserResult>)
    requires WalkedDown(cs, sorted, but) && (but.Some? ==> FirstChild(cs, but.value.path) == Some(c))
    requires sorted' == sorted || sorted' == sorted + [c]
    requires c in sorted'
    ensures WalkedDown(cs, sorted', Some(c))
  {
    forall d <- sorted'
      ensures d == c || FirstChild(cs, d.path).None? || FirstChild(cs, d.path).value in sorted'
    {
      if d != c {
        assert d in sorted;
      }
    }
  }

  lemma Arrive(cs: seq<ParserResult>, trail: seq<ParserResult>, c: ParserResult, sorted: seq<ParserResult>,
          visited: set<string>)
    requires Walking(cs, trail, sorted, visited) && c == trail[|trail| - 1] && c.path !in visited
    ensures Arrived(cs, trail, sorted + [c], visited + {c.path})
  {
    AppendKeepsOrder(cs, sorted, visited, trail);
    WalkedDownTo(cs, sorted, Before(trail), c, sorted + [c]);
    assert trail == trail[..|trail| - 1] + [c];
  }

  lemma ArriveAgain(cs: seq<ParserResult>, trail: seq<ParserResult>, c: ParserResult, sorted: seq<ParserResult>,
          visited: set<string>)
    requires Walking(cs, trail, sorted, visited) && c == trail[|trail| - 1] && c.path in visited
    ensures Arrived(cs, trail, sorted, visited)
  {
    var d :| d in sorted && d.path == c.path;
    SamePathSameComponent(cs, d, c);
    WalkedDownTo(cs, sorted, Before(trail), c, sorted);
    assert trail == trail[..|trail| - 1] + [c];
  }

  lemma GoOn(cs: seq<ParserResult>, trail: seq<ParserResult>, child: ParserResult, sorted: seq<ParserResult>,
          visited: set<string>)
    requires Arrived(cs, trail, sorted, visited) && FirstChild(cs, trail[|trail| - 1].path) == Some(child)
    requires Acyclic(cs)
    ensures Walking(cs, trail + [child], sorted, visited) && |trail| < |cs|
  {
    ExtendTrail(cs, trail);
    assert (trail + [child])[..|trail|] == trail;
    LineageIsDistinct(cs, trail + [child]);
  }

  method NextChild(cs: seq<ParserResult>, extendsToChildren: map<string, seq<ParserResult>>, path: string)
    returns (child: Option<ParserResult>)
    requires Grouped(cs, extendsToChildren)
    ensures child == FirstChild(cs, path)
  {
    var children := if path in extendsToChildren then extendsToChildren[path] else [];
    assert children == ChildrenOf(cs, path);
    child := if |children| == 0 then None else Some(children[0]);
  }

  /** The second inner loop: down the first children, taking what was not visited. */
  method WalkDown(cs: seq<ParserResult>, extendsToChildren: map<string, seq<ParserResult>>, root: ParserResult,
          sorted: seq<ParserResult>, visited: set<string>)
    returns (sorted': seq<ParserResult>, visited': set<string>, ghost trail: seq<ParserResult>)
    requires Components(cs) && Acyclic(cs) && Grouped(cs, extendsToChildren)
    requires Walking(cs, [root], sorted, visited)
    ensures Arrived(cs, trail, sorted', visited') && trail[0] == root && FirstChild(cs, trail[|trail| - 1].path) == None
    ensures sorted <= sorted'
  {
    sorted', visited' := sorted, visited;
    var current := root;
    trail := [root];
    while true
      invariant trail != [] && trail[0] == root && trail[|trail| - 1] == current
      invariant Walking(cs, trail, sorted', visited')
      invariant |trail| <= |cs|
      invariant sorted <= sorted'
      decreases |cs| - |trail|
    {
      if current.path in visited' {
        ArriveAgain(cs, trail, current, sorted', visited');
      } else {
        Arrive(cs, trail, current, sorted', visited');
        visited' := visited' + {current.path};
        sorted' := sorted' + [current];
      }
      var child := NextChild(cs, extendsToChildren, current.path);
      if child.None? {
        break;
      }
      GoOn(cs, trail, child.value, sorted', visited');
      trail := trail + [child.value];
      current := child.value;
    }
  }

  /** Whatever has been ordered when the walk is between two chains. */
  ghost predicate Settled(cs: seq<ParserResult>, sorted: seq<ParserResult>, visited: set<string>, i: nat)
    requires i <= |cs|
  {
    && Ordered(cs, sorted, visited)
    && WalkedDown(cs, sorted, None)
    && (forall c <- cs[..i] :: OnFirstLine(cs, c) ==> c in sorted)
    && (i > 0 ==> sorted != [])
  }

  lemma TakenStays(cs: seq<ParserResult>, i: nat, sorted: seq<ParserResult>, sorted': seq<ParserResult>)
    requires i < |cs| && (forall c <- cs[..i] :: OnFirstLine(cs, c) ==> c in sorted) && sorted <= sorted'
    requires OnFirstLine(cs, cs[i]) ==> cs[i] in sorted'
    ensures forall c <- cs[..i + 1] :: OnFirstLine(cs, c) ==> c in sorted'
  {
    assert cs[..i + 1] == cs[..i] + [cs[i]];
    assert forall c <- sorted :: c in sorted';
  }

  lemma ReachedTheEnd(cs: seq<ParserResult>, sorted: seq<ParserResult>, c: ParserResult)
    requires WalkedDown(cs, sorted, Some(c)) && FirstChild(cs, c.path) == None
    ensures WalkedDown(cs, sorted, None)
  {
  }

  lemma ChainSettles(cs: seq<ParserResult>, i: nat, up: seq<ParserResult>, down: seq<ParserResult>,
          sorted: seq<ParserResult>, sorted': seq<ParserResult>, visited: set<string>, visited': set<string>)
    requires i < |cs| && Settled(cs, sorted, visited, i) && sorted <= sorted'
    requires Arrived(cs, down, sorted', visited') && FirstChild(cs, down[|down| - 1].path) == None
    requires FromRoot(cs, up) && up[|up| - 1] == cs[i] && up[0] == down[0]
    ensures Settled(cs, sorted', visited', i + 1)
  {
    ReachedTheEnd(cs, sorted', down[|down| - 1]);
    MetOnTheWay(cs, up, down);
    assert down[0] in sorted';
    TakenStays(cs, i, sorted, sorted');
  }

  lemma SkipSettles(cs: seq<ParserResult>, i: nat, sorted: seq<ParserResult>, visited: set<string>)
    requires i < |cs| && UniquePaths(cs) && Settled(cs, sorted, visited, i) && cs[i].path in visited
    ensures Settled(cs, sorted, visited, i + 1)
  {
    var c :| c in sorted && c.path == cs[i].path;
    SamePathSameComponent(cs, c, cs[i]);
    TakenStays(cs, i, sorted, sorted);
  }

  lemma StartWalk(cs: seq<ParserResult>, root: ParserResult, sorted: seq<ParserResult>, visited: set<string>)
    requires UniquePaths(cs) && FromRoot(cs, [root]) && Ordered(cs, sorted, visited) && WalkedDown(cs, sorted, None)
    ensures Walking(cs, [root], sorted, visited)
  {
  }

  lemma AllSettled(cs: seq<ParserResult>, sorted: seq<ParserResult>, visited: set<string>)
    requires cs != [] && UniquePaths(cs) && Settled(cs, sorted, visited, |cs|)
    ensures ChainOrder(cs, sorted)
  {
    assert cs[..|cs|] == cs;
    LastIsLeaf(cs, sorted, visited);
  }

  /** The last component put in order has no children. */
  lemma LastIsLeaf(cs: seq<ParserResult>, sorted: seq<ParserResult>, visited: set<string>)
    requires UniquePaths(cs) && Ordered(cs, sorted, visited) && WalkedDown(cs, sorted, None) && sorted != []
    ensures FirstChild(cs, sorted[|sorted| - 1].path) == None
  {
    var last := sorted[|sorted| - 1];
    var child := FirstChild(cs, last.path);
    if child.Some? {
      ChildsParent(cs, last, child.value);
    }
  }

  /**
   The components of a name, each parent before its children and none twice: exactly
   those that are reached from their root by first children.  The last one is a leaf.
   */
  ghost predicate ChainOrder(cs: seq<ParserResult>, sorted: seq<ParserResult>) {
    && NoDuplicates(sorted)
    && ParentsFirst(cs, sorted)
    && (forall c :: c in sorted <==> c in cs && OnFirstLine(cs, c))
    && (cs != [] ==> sorted != [] && FirstChild(cs, sorted[|sorted| - 1].path) == None)
  }

  method FindVueChildrenWithSameName(rs: seq<ParserResult>, name: string) returns (sorted: seq<ParserResult>)
    requires UniquePaths(SameName(rs, name)) && Acyclic(SameName(rs, name))
    ensures ChainOrder(SameName(rs, name), sorted)
  {
    var cs, pathToComponent, extendsToChildren := Collect(rs, name);
    sorted := [];
    if |cs| == 0 {
      return;
    }
    var visited := {};
    for i := 0 to |cs|
      invariant Settled(cs, sorted, visited, i)
    {
      var r := cs[i];
      if r.path in visited {
        SkipSettles(cs, i, sorted, visited);
        continue;
      }
      var current;
      ghost var up, down, before, seen := [], [], sorted, visited;
      current, up := FindRoot(cs, pathToComponent, r);
      StartWalk(cs, current, sorted, visited);
      sorted, visited, down := WalkDown(cs, extendsToChildren, current, sorted, visited);
      ChainSettles(cs, i, up, down, before, sorted, seen, visited);
    }
    AllSettled(cs, sorted, visited);
  }

  /** The result holds every component of the name exactly when none of them has two children. */
  lemma IsPermutationIff(cs: seq<ParserResult>, sorted: seq<ParserResult>)
    requires Components(cs) && UniquePaths(cs) && Acyclic(cs) && ChainOrder(cs, sorted)
    ensures (forall c <- cs :: c in sorted) <==> OneChildEach(cs)
    ensures OneChildEach(cs) ==> |sorted| == |cs|
  {
    AllOnFirstLineIff(cs);
    DistinctFit(sorted, cs);
    if OneChildEach(cs) {
      assert NoDuplicates(cs);
      DistinctFit(cs, sorted);
    }
  }

  /** A single chain: one root, and no component with two children. */
  predicate SingleChain(cs: seq<ParserResult>) {
    && OneChildEach(cs)
    && forall c <- cs, d <- cs :: Parent(cs, c) == None && Parent(cs, d) == None ==> c == d
  }

  /** In a single chain the leaf is the last of the line that starts at the root, and it is the only one. */
  lemma LeafIsUnique(cs: seq<ParserResult>, c: ParserResult, d: ParserResult)
    requires UniquePaths(cs) && Acyclic(cs) && SingleChain(cs) && c in cs && d in cs
    requires FirstChild(cs, c.path) == None && FirstChild(cs, d.path) == None
    ensures c == d
  {
    AllOnFirstLineIff(cs);
    assert OnFirstLine(cs, c) && OnFirstLine(cs, d);
    var p: seq<ParserResult> :| FromRoot(cs, p) && FollowsFirst(cs, p) && p[|p| - 1] == c;
    var q: seq<ParserResult> :| FromRoot(cs, q) && FollowsFirst(cs, q) && q[|q| - 1] == d;
    FirstLineIsPrefix(cs, p, q, |p| - 1);
    FirstLineIsPrefix(cs, q, p, |q| - 1);
  }

  // ---------------------------------------------------------------- the final child

  function CleanVuePath(path: string): string {
    if path == "" then path
    else if path[0] == '?' then ""
    else [path[0]] + CleanVuePath(path[1..])
  }

  /** Everything from the first question mark on does not belong to the path. */
  lemma {:induction false} QueryIsCut(path: string, query: string)
    requires '?' !in path
    ensures CleanVuePath(path) == path && CleanVuePath(path + ("?" + query)) == path
  {
    if path == "" {
      assert path + ("?" + query) == "?" + query;
    } else {
      QueryIsCut(path[1..], query);
      assert (path + ("?" + query))[1..] == path[1..] + ("?" + query);
      assert path == [path[0]] + path[1..];
    }
  }

  /** The first component at a path. */
  function FirstAt(rs: seq<ParserResult>, path: string): (r: Option<ParserResult>)
    ensures r.Some? ==> r.value in rs && r.value.path == path && r.value.vue.Some?
    ensures r.None? ==> forall c <- rs :: c.path != path || c.vue.None?
  {
    if rs == [] then None
    else if rs[0].path == path && rs[0].vue.Some? then Some(rs[0])
    else FirstAt(rs[1..], path)
  }

  /** The importer is the imported component, or already extends it. */
  predicate KeepsImport(rs: seq<ParserResult>, componentPath: string, importPath: string) {
    var importer := FirstAt(rs, CleanVuePath(componentPath));
    var imported := CleanVuePath(importPath);
    importer.Some? && (imported == importer.value.vue.value.extendsPath || imported == importer.value.path)
  }

  method FirstComponentAt(rs: seq<ParserResult>, path: string) returns (r: Option<ParserResult>)
    ensures r == FirstAt(rs, path)
  {
    r := None;
    for i := 0 to |rs|
      invariant FirstAt(rs, path) == FirstAt(rs[i..], path)
    {
      if rs[i].path == path && rs[i].vue.Some? {
        return Some(rs[i]);
      }
      assert rs[i..][1..] == rs[i + 1..];
    }
  }

  /** An import that is not redirected: nothing to look at, or one of the two components says to keep it. */
  predicate NotRedirected(rs: seq<ParserResult>, componentPath: string, importPath: string) {
    componentPath == "" || KeepsImport(rs, componentPath, importPath) || FirstAt(rs, CleanVuePath(importPath)).None?
  }

  /** A path that a same-named import is redirected to: that of a leaf, of the only one in a single chain. */
  predicate FinalPath(cs: seq<ParserResult>, path: string) {
    && (exists c <- cs :: c.path == path && FirstChild(cs, c.path) == None)
    && (SingleChain(cs) ==> forall c <- cs :: FirstChild(cs, c.path) == None ==> c.path == path)
  }

  method FindVueComponentFinalChild(rs: seq<ParserResult>, componentPath: string, importPath: string)
    returns (path: string)
    requires !NotRedirected(rs, componentPath, importPath) ==>
               var cs := SameName(rs, FirstAt(rs, CleanVuePath(importPath)).value.vue.value.name);
               UniquePaths(cs) && Acyclic(cs)
    ensures NotRedirected(rs, componentPath, importPath) ==> path == ""
    ensures !NotRedirected(rs, componentPath, importPath) ==>
              FinalPath(SameName(rs, FirstAt(rs, CleanVuePath(importPath)).value.vue.value.name), path)
  {
    if componentPath == "" || |rs| == 0 {
      return "";
    }
    var importer := FirstComponentAt(rs, CleanVuePath(componentPath));
    if importer.Some? {
      var imported := CleanVuePath(importPath);
      if imported == importer.value.vue.value.extendsPath || imported == importer.value.path {
        return "";
      }
    }
    var original := FirstComponentAt(rs, CleanVuePath(importPath));
    if original.None? {
      return "";
    }
    var name := original.value.vue.value.name;
    var sorted := FindVueChildrenWithSameName(rs, name);
    InSameName(rs, name, original.value);
    path := "";
    if |sorted| > 0 {
      path := sorted[|sorted| - 1].path;
      LastIsFinal(SameName(rs, name), sorted);
    }
  }

  /** A query on either path changes nothing about which import is redirected, nor to where. */
  lemma QueriesDoNotMatter(rs: seq<ParserResult>, componentPath: string, importPath: string, c: string, i: string)
    requires '?' !in componentPath && '?' !in importPath && componentPath != ""
    ensures NotRedirected(rs, componentPath + ("?" + c), importPath + ("?" + i))
       <==> || (forall r <- rs :: r.path != importPath || r.vue.None?)
            || (exists k :: First(rs, k, componentPath)
                 && (importPath == rs[k].path || importPath == rs[k].vue.value.extendsPath))
    ensures NotRedirected(rs, componentPath, importPath)
       <==> NotRedirected(rs, componentPath + ("?" + c), importPath + ("?" + i))
    ensures FirstAt(rs, CleanVuePath(importPath + ("?" + i))) == FirstAt(rs, CleanVuePath(importPath))
    ensures forall k :: First(rs, k, importPath) ==> FirstAt(rs, CleanVuePath(importPath)) == Some(rs[k])
  {
    QueryIsCut(componentPath, c);
    QueryIsCut(importPath, i);
    FirstAtIs(rs, componentPath);
    FirstAtIs(rs, importPath);
  }

  /** The element at `k` is a component at this path, and none before it is. */
  predicate First(rs: seq<ParserResult>, k: int, path: string) {
    && 0 <= k < |rs| && rs[k].path == path && rs[k].vue.Some?
    && forall j :: 0 <= j < k ==> rs[j].path != path || rs[j].vue.None?
  }

  lemma {:induction false} FirstAtIs(rs: seq<ParserResult>, path: string)
    ensures forall k :: First(rs, k, path) ==> FirstAt(rs, path) == Some(rs[k])
    ensures FirstAt(rs, path).Some? ==> exists k :: First(rs, k, path)
  {
    if rs != [] && !(rs[0].path == path && rs[0].vue.Some?) {
      FirstAtIs(rs[1..], path);
      forall k | First(rs, k, path)
        ensures First(rs[1..], k - 1, path)
      {
        assert forall j :: 0 <= j < k - 1 ==> rs[1..][j] == rs[j + 1];
      }
      if FirstAt(rs, path).Some? {
        var k :| First(rs[1..], k, path);
        assert forall j :: 1 <= j < k + 1 ==> rs[j] == rs[1..][j - 1];
        assert First(rs, k + 1, path);
      }
    } else if rs != [] {
      assert First(rs, 0, path);
    }
  }

  lemma LastIsFinal(cs: seq<ParserResult>, sorted: seq<ParserResult>)
    requires UniquePaths(cs) && Acyclic(cs) && ChainOrder(cs, sorted) && cs != []
    ensures FinalPath(cs, sorted[|sorted| - 1].path)
  {
    var last := sorted[|sorted| - 1];
    if SingleChain(cs) {
      forall c <- cs | FirstChild(cs, c.path) == None
        ensures c == last
      {
        LeafIsUnique(cs, c, last);
      }
    }
  }

  // ---------------------------------------------------------------- cycles

  /** Where the first inner loop stands after `n` turns; it stops when there is no parent. */
  function Climbed(cs: seq<ParserResult>, c: ParserResult, n: nat): (r: ParserResult)
    requires Components(cs) && c in cs
    ensures r in cs
  {
    if n == 0 then c
    else
      var below := Climbed(cs, c, n - 1);
      if Parent(cs, below).Some? then Parent(cs, below).value else below
  }

  lemma {:induction false} ClimbsLineage(cs: seq<ParserResult>, p: seq<ParserResult>, n: nat)
    requires Components(cs) && Lineage(cs, p) && n < |p|
    ensures Climbed(cs, p[|p| - 1], n) == p[|p| - 1 - n]
  {
    if n > 0 {
      ClimbsLineage(cs, p, n - 1);
      assert Parent(cs, p[|p| - n]) == Some(p[|p| - n - 1]);
    }
  }

  lemma {:induction false} ClimbsOn(cs: seq<ParserResult>, c: ParserResult, m: nat, n: nat)
    requires Components(cs) && c in cs
    ensures Climbed(cs, Climbed(cs, c, m), n) == Climbed(cs, c, m + n)
    decreases n
  {
    if n > 0 {
      ClimbsOn(cs, c, m, n - 1);
    }
  }

  /** From a component that extends itself, directly or through others, the loop never stops. */
  lemma {:induction false} CycleNeverEnds(cs: seq<ParserResult>, p: seq<ParserResult>, n: nat)
    requires Components(cs) && Lineage(cs, p) && |p| > 1 && p[0] == p[|p| - 1]
    ensures Parent(cs, Climbed(cs, p[0], n)).Some?
    decreases n
  {
    var turn := |p| - 1;
    if n < turn {
      ClimbsLineage(cs, p, n);
      assert Parent(cs, p[turn - n]) == Some(p[turn - n - 1]);
    } else {
      ClimbsLineage(cs, p, turn);
      ClimbsOn(cs, p[0], turn, n - turn);
      CycleNeverEnds(cs, p, n - turn);
    }
  }

  ghost predicate ClimbEnds(cs: seq<ParserResult>, c: ParserResult)
    requires Components(cs) && c in cs
  {
    exists n :: Parent(cs, Climbed(cs, c, n)).None?
  }

  lemma ClimbEndsAtRoot(cs: seq<ParserResult>, c: ParserResult)
    requires Components(cs) && Acyclic(cs) && c in cs
    ensures ClimbEnds(cs, c)
  {
    var p := HasRoot(cs, [c]);
    ClimbsLineage(cs, p, |p| - 1);
    assert Parent(cs, Climbed(cs, c, |p| - 1)).None?;
  }

  lemma ClimbGoesRound(cs: seq<ParserResult>, p: seq<ParserResult>)
    requires Components(cs) && Lineage(cs, p) && |p| > 1 && p[0] == p[|p| - 1]
    ensures !ClimbEnds(cs, p[0])
  {
    forall n
      ensures Parent(cs, Climbed(cs, p[0], n)).Some?
    {
      CycleNeverEnds(cs, p, n);
    }
  }

  /** The upward loop ends from every component exactly when inheritance has no cycle. */
  lemma ClimbEndsIffAcyclic(cs: seq<ParserResult>)
    requires Components(cs)
    ensures Acyclic(cs) <==> forall c <- cs :: ClimbEnds(cs, c)
  {
    if Acyclic(cs) {
      forall c <- cs
        ensures ClimbEnds(cs, c)
      {
        ClimbEndsAtRoot(cs, c);
      }
    } else {
      var p: seq<ParserResult> :| Lineage(cs, p) && |p| > 1 && p[0] == p[|p| - 1];
      ClimbGoesRound(cs, p);
    }
  }
}
