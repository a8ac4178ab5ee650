/**
 The bounded breadth-first search from methods that call a source to methods that call a sink. When
 nothing was cut off, there is exactly one finding for every reachable sink, along a shortest path.
 */
module CallPaths {
  import opened Wrappers
  import opened Collections

  datatype Node = Node(invocations: seq<string>, sources: seq<string>, sinks: seq<string>)

  type Graph = map<string, Node>

  type Path = seq<string>

  datatype Finding = Finding(path: Path, sink: string)

  const MAX_OPERATIONS: nat := 10000
  const MAX_QUEUE: nat := 10000
  const MAX_FINDINGS: nat := 1000

  function Last(p: Path): string
    requires p != []
  {
    p[|p| - 1]
  }

  /** A chain of calls between parsed methods. */
  ghost predicate IsCallPath(g: Graph, p: Path) {
    && p != [] && (forall i :: 0 <= i < |p| ==> p[i] in g)
    && (forall i :: 0 <= i < |p| - 1 ==> p[i + 1] in g[p[i]].invocations)
  }

  ghost predicate PathTo(g: Graph, s: string, v: string, p: Path) {
    IsCallPath(g, p) && p[0] == s && Last(p) == v
  }

  /** Methods further away are not looked into; the start itself always is. */
  function Depth(maxDepth: nat): nat {
    if maxDepth == 0 then 1 else maxDepth
  }

  lemma PathPrefix(g: Graph, s: string, v: string, p: Path)
    requires PathTo(g, s, v, p) && |p| > 1
    ensures PathTo(g, s, p[|p| - 2], p[..|p| - 1]) && v in g[p[|p| - 2]].invocations
  {
    assert p[|p| - 2 + 1] in g[p[|p| - 2]].invocations;
  }

  lemma PathExtends(g: Graph, s: string, v: string, p: Path, n: string)
    requires PathTo(g, s, v, p) && n in g && n in g[v].invocations
    ensures PathTo(g, s, n, p + [n])
  {
  }

  // ----- the search from one start -----

  type Queue = seq<(string, Path)>

  ghost predicate InQueue(queue: Queue, v: string) {
    exists i :: 0 <= i < |queue| && queue[i].0 == v
  }

  /** Every discovered method has its own real path, and the queue carries those. */
  ghost predicate Discovered(g: Graph, s: string, paths: map<string, Path>, queue: Queue) {
    && s in paths && paths[s] == [s]
    && (forall v :: v in paths ==> PathTo(g, s, v, paths[v]))
    && (forall i :: 0 <= i < |queue| ==> queue[i].0 in paths && queue[i].1 == paths[queue[i].0])
  }

  /** The queue is ordered by distance and spans two levels at most. */
  ghost predicate Levelled(queue: Queue, level: nat) {
    && (forall i, j :: 0 <= i <= j < |queue| ==> |queue[i].1| <= |queue[j].1|)
    && (forall i :: 0 <= i < |queue| ==> level <= |queue[i].1| <= level + 1)
  }

  /** All callees of v have been discovered. */
  ghost predicate Expanded(g: Graph, paths: map<string, Path>, v: string) {
    v in g && forall n :: n in g[v].invocations && n in g ==> n in paths
  }

  /** What is neither waiting nor being looked at has been expanded, unless it is too deep. */
  ghost predicate Processed(g: Graph, paths: map<string, Path>, queue: Queue, current: Option<string>, maxDepth: nat) {
    forall v :: v in paths && !InQueue(queue, v) && current != Some(v) && |paths[v]| < maxDepth ==>
        Expanded(g, paths, v)
  }

  ghost predicate AllShortest(g: Graph, s: string, paths: map<string, Path>) {
    forall v, q :: v in paths && PathTo(g, s, v, q) ==> |paths[v]| <= |q|
  }

  /** Along a path that leaves the discovered methods there is a last one before it leaves. */
  lemma {:induction false} LeavesSomewhere(g: Graph, s: string, paths: map<string, Path>, q: Path, v: string)
    returns (u: string, n: string, k: nat)
    requires PathTo(g, s, v, q) && s in paths && v !in paths
    ensures u in paths && u in g && n in g && n !in paths && n in g[u].invocations
    ensures 1 <= k < |q| && PathTo(g, s, u, q[..k])
    decreases |q|
  {
    assert |q| > 1;
    PathPrefix(g, s, v, q);
    u := q[|q| - 2];
    if u in paths {
      n, k := v, |q| - 1;
    } else {
      var front := q[..|q| - 1];
      u, n, k := LeavesSomewhere(g, s, paths, front, u);
      assert front[..k] == q[..k];
    }
  }

  /** A method first met at this level has no shorter path. */
  lemma NewIsShortest(g: Graph, s: string, paths: map<string, Path>, queue: Queue, current: string, level: nat,
                      maxDepth: nat, v: string, q: Path)
    requires Discovered(g, s, paths, queue) && Levelled(queue, level) && AllShortest(g, s, paths)
    requires Processed(g, paths, queue, Some(current), maxDepth)
    requires current in paths && |paths[current]| == level < maxDepth
    requires v !in paths && PathTo(g, s, v, q)
    ensures |q| >= level + 1
  {
    if |q| <= level {
      var u, n, k := LeavesSomewhere(g, s, paths, q, v);
      WaitingIsDeep(g, s, paths, queue, level, u);
      assert false;
    }
  }

  lemma WaitingIsDeep(g: Graph, s: string, paths: map<string, Path>, queue: Queue, level: nat, u: string)
    requires Discovered(g, s, paths, queue) && Levelled(queue, level) && u in paths
    ensures InQueue(queue, u) ==> level <= |paths[u]|
  {
  }

  lemma StillWaiting(queue: Queue, x: (string, Path), v: string)
    ensures InQueue(queue + [x], v) <==> InQueue(queue, v) || v == x.0
  {
    if InQueue(queue, v) {
      var i :| 0 <= i < |queue| && queue[i].0 == v;
      assert (queue + [x])[i].0 == v;
    }
    assert (queue + [x])[|queue|].0 == x.0;
  }

  lemma Discover(g: Graph, s: string, paths: map<string, Path>, queue: Queue, current: string, level: nat,
                 maxDepth: nat, n: string)
    requires Discovered(g, s, paths, queue) && Levelled(queue, level) && AllShortest(g, s, paths)
    requires Processed(g, paths, queue, Some(current), maxDepth)
    requires current in paths && |paths[current]| == level < maxDepth
    requires n in g && n !in paths && n in g[current].invocations
    ensures var paths', queue' := paths[n := paths[current] + [n]], queue + [(n, paths[current] + [n])];
            && Discovered(g, s, paths', queue') && Levelled(queue', level) && AllShortest(g, s, paths')
            && Processed(g, paths', queue', Some(current), maxDepth)
  {
    var p := paths[current] + [n];
    DiscoverQueued(g, s, paths, queue, current, level, n);
    DiscoverShortest(g, s, paths, queue, current, level, maxDepth, n);
    DiscoverProcessed(g, paths, queue, current, maxDepth, n, p);
  }

  lemma DiscoverQueued(g: Graph, s: string, paths: map<string, Path>, queue: Queue, current: string, level: nat,
                       n: string)
    requires Discovered(g, s, paths, queue) && Levelled(queue, level)
    requires current in paths && |paths[current]| == level
    requires n in g && n !in paths && n in g[current].invocations
    ensures var p := paths[current] + [n];
            Discovered(g, s, paths[n := p], queue + [(n, p)]) && Levelled(queue + [(n, p)], level)
  {
    PathExtends(g, s, current, paths[current], n);
  }

  lemma DiscoverShortest(g: Graph, s: string, paths: map<string, Path>, queue: Queue, current: string, level: nat,
                         maxDepth: nat, n: string)
    requires Discovered(g, s, paths, queue) && Levelled(queue, level) && AllShortest(g, s, paths)
    requires Processed(g, paths, queue, Some(current), maxDepth)
    requires current in paths && |paths[current]| == level < maxDepth && n !in paths
    ensures AllShortest(g, s, paths[n := paths[current] + [n]])
  {
    var paths' := paths[n := paths[current] + [n]];
    forall v, q | v in paths' && PathTo(g, s, v, q) ensures |paths'[v]| <= |q| {
      if v == n {
        NewIsShortest(g, s, paths, queue, current, level, maxDepth, n, q);
      }
    }
  }

  lemma DiscoverProcessed(g: Graph, paths: map<string, Path>, queue: Queue, current: string, maxDepth: nat, n: string,
                          p: Path)
    requires Processed(g, paths, queue, Some(current), maxDepth) && n !in paths
    ensures Processed(g, paths[n := p], queue + [(n, p)], Some(current), maxDepth)
  {
    var paths', queue' := paths[n := p], queue + [(n, p)];
    forall v | v in paths' && !InQueue(queue', v) && v != current && |paths'[v]| < maxDepth
        ensures Expanded(g, paths', v) {
      StillWaiting(queue, (n, p), v);
      assert Expanded(g, paths, v);
    }
  }

  /** When the queue is empty, every method within the depth has been discovered. */
  lemma {:induction false} AllDiscovered(g: Graph, s: string, paths: map<string, Path>, maxDepth: nat, v: string,
                                         q: Path)
    requires Discovered(g, s, paths, []) && AllShortest(g, s, paths) && Processed(g, paths, [], None, maxDepth)
    requires PathTo(g, s, v, q) && |q| <= Depth(maxDepth)
    ensures v in paths
    decreases |q|
  {
    if |q| > 1 {
      PathPrefix(g, s, v, q);
      var u := q[|q| - 2];
      AllDiscovered(g, s, paths, maxDepth, u, q[..|q| - 1]);
      assert |paths[u]| <= |q| - 1;
      assert Expanded(g, paths, u);
    }
  }

  // ----- the loops -----

  /** The state of one walk while a method is looked at; nothing is promised once something was cut off. */
  ghost predicate Walking(g: Graph, s: string, paths: map<string, Path>, queue: Queue, current: string, maxDepth: nat,
                          truncated: bool) {
    && Discovered(g, s, paths, queue) && current in paths
    && Levelled(queue, |paths[current]|)
    && (!truncated ==> AllShortest(g, s, paths) && Processed(g, paths, queue, Some(current), maxDepth))
  }

  /** The state of one walk between two methods. */
  ghost predicate Resting(g: Graph, s: string, paths: map<string, Path>, queue: Queue, maxDepth: nat, truncated: bool) {
    && Discovered(g, s, paths, queue)
    && (queue != [] ==> Levelled(queue, |queue[0].1|))
    && (!truncated ==> AllShortest(g, s, paths) && Processed(g, paths, queue, None, maxDepth))
  }

  lemma StartRests(g: Graph, s: string, maxDepth: nat)
    requires s in g
    ensures Resting(g, s, map[s := [s]], [(s, [s])], maxDepth, false)
  {
    var queue: Queue := [(s, [s])];
    assert queue[0].0 == s;
    assert PathTo(g, s, s, [s]);
  }

  lemma StartWalking(g: Graph, s: string, paths: map<string, Path>, queue: Queue, maxDepth: nat, truncated: bool)
    requires Resting(g, s, paths, queue, maxDepth, truncated) && queue != []
    ensures queue[0].0 in paths && queue[0].1 == paths[queue[0].0]
    ensures Walking(g, s, paths, queue[1..], queue[0].0, maxDepth, truncated)
  {
    forall v {
      TailWaiting(queue, v);
    }
  }

  lemma TailWaiting(queue: Queue, v: string)
    requires queue != []
    ensures InQueue(queue, v) ==> v == queue[0].0 || InQueue(queue[1..], v)
  {
    if InQueue(queue, v) && v != queue[0].0 {
      var i :| 0 <= i < |queue| && queue[i].0 == v;
      assert queue[1..][i - 1].0 == v;
    }
  }

  lemma StopWalking(g: Graph, s: string, paths: map<string, Path>, queue: Queue, current: string, maxDepth: nat,
                    truncated: bool)
    requires Walking(g, s, paths, queue, current, maxDepth, truncated)
    requires truncated || |paths[current]| >= maxDepth || Expanded(g, paths, current)
    ensures Resting(g, s, paths, queue, maxDepth, truncated)
  {
  }

  /** Nothing discovered is forgotten, and whatever is new is waiting. */
  ghost predicate Grown(paths: map<string, Path>, queue: Queue, paths': map<string, Path>, queue': Queue) {
    && (forall v :: v in paths ==> v in paths' && paths'[v] == paths[v])
    && (forall v :: v in paths' && v !in paths ==> InQueue(queue', v))
    && (forall v :: InQueue(queue, v) ==> InQueue(queue', v))
  }

  lemma GrowsOn(paths: map<string, Path>, queue: Queue, paths': map<string, Path>, queue': Queue, n: string, p: Path)
    requires Grown(paths, queue, paths', queue') && n !in paths'
    ensures Grown(paths, queue, paths'[n := p], queue' + [(n, p)])
  {
    forall v {
      StillWaiting(queue', (n, p), v);
    }
  }

  /** The state of one expansion that began with paths and queue. */
  ghost predicate Expanding(g: Graph, s: string, paths: map<string, Path>, queue: Queue, paths': map<string, Path>,
                            queue': Queue, current: string, path: Path, maxDepth: nat, truncated: bool) {
    && Walking(g, s, paths', queue', current, maxDepth, truncated) && paths'[current] == path
    && Grown(paths, queue, paths', queue') && Within(paths', maxDepth)
  }

  lemma StepExpanding(g: Graph, s: string, paths: map<string, Path>, queue: Queue, paths': map<string, Path>,
                      queue': Queue, current: string, path: Path, maxDepth: nat, truncated: bool, n: string)
    requires Expanding(g, s, paths, queue, paths', queue', current, path, maxDepth, truncated) && |path| < maxDepth
    requires current in g && n in g && n !in paths' && n in g[current].invocations
    ensures Expanding(g, s, paths, queue, paths'[n := path + [n]], queue' + [(n, path + [n])], current, path,
                      maxDepth, truncated)
  {
    GrowsOn(paths, queue, paths', queue', n, path + [n]);
    StepWalking(g, s, paths', queue', current, maxDepth, truncated, n);
  }

  ghost function ExpandingFrom(g: Graph, s: string, paths: map<string, Path>, queue: Queue, current: string,
                               path: Path, maxDepth: nat):
    (map<string, Path>, Queue, bool) -> bool
  {
    (paths': map<string, Path>, queue': Queue, truncated: bool) =>
      Expanding(g, s, paths, queue, paths', queue', current, path, maxDepth, truncated)
  }

  lemma ExpandingMore(g: Graph, s: string, paths: map<string, Path>, queue: Queue, paths': map<string, Path>,
                      queue': Queue, current: string, path: Path, maxDepth: nat, truncated: bool, n: string)
    requires ExpandingFrom(g, s, paths, queue, current, path, maxDepth)(paths', queue', truncated) && |path| < maxDepth
    requires current in g && n in g && n !in paths' && n in g[current].invocations
    ensures ExpandingFrom(g, s, paths, queue, current, path, maxDepth)(paths'[n := path + [n]],
            queue' + [(n, path + [n])], truncated)
  {
    StepExpanding(g, s, paths, queue, paths', queue', current, path, maxDepth, truncated, n);
  }

  lemma ExpandingStops(g: Graph, s: string, paths: map<string, Path>, queue: Queue, paths': map<string, Path>,
                       queue': Queue, current: string, path: Path, maxDepth: nat, truncated: bool)
    requires ExpandingFrom(g, s, paths, queue, current, path, maxDepth)(paths', queue', truncated)
    ensures ExpandingFrom(g, s, paths, queue, current, path, maxDepth)(paths', queue', true)
  {
  }

  /** The first i callees that are parsed have been met. */
  ghost predicate LookedAt(g: Graph, current: string, i: nat, visited: set<string>)
    requires current in g
  {
    forall k :: 0 <= k < i && k < |g[current].invocations| && g[current].invocations[k] in g ==>
        g[current].invocations[k] in visited
  }

  lemma LookedAtMore(g: Graph, current: string, i: nat, visited: set<string>, next: string)
    requires current in g && i < |g[current].invocations| && next == g[current].invocations[i]
    requires LookedAt(g, current, i, visited)
    ensures LookedAt(g, current, i + 1, visited + {next})
    ensures next !in g || next in visited ==> LookedAt(g, current, i + 1, visited)
  {
  }

  lemma LookedAtAll(g: Graph, current: string, paths: map<string, Path>)
    requires current in g && LookedAt(g, current, |g[current].invocations|, paths.Keys)
    ensures Expanded(g, paths, current)
  {
    forall n | n in g[current].invocations && n in g ensures n in paths {
      var k :| 0 <= k < |g[current].invocations| && g[current].invocations[k] == n;
    }
  }

  /** Queues the callees that are parsed and new; the queue cap cuts the rest off. */
  method Expand(g: Graph, ghost s: string, current: string, path: Path, queue: Queue, visited: set<string>,
                ghost paths: map<string, Path>, maxDepth: nat, truncated: bool)
    returns (queue': Queue, visited': set<string>, ghost paths': map<string, Path>, truncated': bool)
    requires Walking(g, s, paths, queue, current, maxDepth, truncated) && current in g
    requires path == paths[current] && |path| < maxDepth && visited == paths.Keys && Within(paths, maxDepth)
    requires |queue| < |paths|
    ensures |paths'| - |queue'| == |paths| - |queue| && |paths'| >= |paths|
    ensures truncated' ==> truncated || |paths'| > MAX_QUEUE
    ensures ExpandingFrom(g, s, paths, queue, current, path, maxDepth)(paths', queue', truncated')
    ensures visited' == paths'.Keys && (truncated ==> truncated')
    ensures truncated' || Expanded(g, paths', current)
  {
    queue', visited', paths', truncated' := queue, visited, paths, truncated;
    var i := 0;
    while i < |g[current].invocations|
      invariant 0 <= i <= |g[current].invocations|
      invariant ExpandingFrom(g, s, paths, queue, current, path, maxDepth)(paths', queue', truncated')
      invariant visited' == paths'.Keys && truncated' == truncated
      invariant |paths'| - |queue'| == |paths| - |queue| && |paths'| >= |paths|
      invariant LookedAt(g, current, i, visited')
    {
      var next := g[current].invocations[i];
      LookedAtMore(g, current, i, visited', next);
      i := i + 1;
      if next in g && next !in visited' {
        ExpandingMore(g, s, paths, queue, paths', queue', current, path, maxDepth, truncated', next);
        visited' := visited' + {next};
        paths' := paths'[next := path + [next]];
        queue' := queue' + [(next, path + [next])];
        if |queue'| >= MAX_QUEUE {
          ExpandingStops(g, s, paths, queue, paths', queue', current, path, maxDepth, truncated');
          truncated' := true;
          return;
        }
      }
    }
    LookedAtAll(g, current, paths');
  }

  lemma StepWalking(g: Graph, s: string, paths: map<string, Path>, queue: Queue, current: string, maxDepth: nat,
                    truncated: bool, n: string)
    requires Walking(g, s, paths, queue, current, maxDepth, truncated) && |paths[current]| < maxDepth
    requires current in g && n in g && n !in paths && n in g[current].invocations
    ensures var p := paths[current] + [n];
            Walking(g, s, paths[n := p], queue + [(n, p)], current, maxDepth, truncated)
  {
    DiscoverQueued(g, s, paths, queue, current, |paths[current]|, n);
    if !truncated {
      Discover(g, s, paths, queue, current, |paths[current]|, maxDepth, n);
    }
  }

  // ----- findings -----

  /** The findings are the (path, sink) pairs seen, without repeats. */
  ghost predicate Kept(findings: seq<Finding>, seen: set<Finding>) {
    Elements(findings) == seen && Distinct(findings)
  }

  /** Lists the sinks of one method, each once. */
  method ReportSinks(node: Node, path: Path, findings: seq<Finding>, seen: set<Finding>)
    returns (findings': seq<Finding>, seen': set<Finding>)
    requires Kept(findings, seen)
    ensures Kept(findings', seen') && |findings| <= |findings'| <= |findings| + |node.sinks|
    ensures seen' == seen + set k | k in node.sinks :: Finding(path, k)
  {
    findings', seen' := findings, seen;
    var i := 0;
    while i < |node.sinks|
      invariant 0 <= i <= |node.sinks|
      invariant Kept(findings', seen') && |findings| <= |findings'| <= |findings| + i
      invariant seen' == seen + set k | k in node.sinks[..i] :: Finding(path, k)
    {
      var f := Finding(path, node.sinks[i]);
      OneMoreSink(node.sinks, i, path);
      if f !in seen' {
        ExtendElements(findings', f);
        seen' := seen' + {f};
        findings' := findings' + [f];
      }
      i := i + 1;
    }
    assert node.sinks[..i] == node.sinks;
  }

  lemma OneMoreSink(sinks: seq<string>, i: nat, path: Path)
    requires i < |sinks|
    ensures (set k | k in sinks[..i + 1] :: Finding(path, k))
            == (set k | k in sinks[..i] :: Finding(path, k)) + {Finding(path, sinks[i])}
  {
    assert sinks[..i + 1] == sinks[..i] + [sinks[i]];
    assert forall k :: k in sinks[..i + 1] <==> k in sinks[..i] || k == sinks[i];
  }

  /** What is neither waiting nor being looked at has had its sinks listed. */
  ghost predicate Listed(g: Graph, paths: map<string, Path>, queue: Queue, seen: set<Finding>) {
    forall v, k :: v in paths && v in g && !InQueue(queue, v) && k in g[v].sinks ==> Finding(paths[v], k) in seen
  }

  /** Every finding of this walk is a sink of a discovered method, along its path. */
  ghost predicate FromWalk(g: Graph, paths: map<string, Path>, before: set<Finding>, seen: set<Finding>) {
    && before <= seen
    && forall f :: f in seen && f !in before ==>
         exists v :: v in paths && v in g && f.path == paths[v] && f.sink in g[v].sinks
  }

  /** No discovered path is longer than the depth allows. */
  ghost predicate Within(paths: map<string, Path>, maxDepth: nat) {
    forall v :: v in paths ==> |paths[v]| <= Depth(maxDepth)
  }

  lemma {:induction false} ListedAfter(g: Graph, paths: map<string, Path>, queue: Queue, current: string, path: Path,
                                       paths': map<string, Path>, queue': Queue, seen: set<Finding>,
                                       seen': set<Finding>)
    requires queue != [] && queue[0].0 == current && current in paths && current in g && path == paths[current]
    requires Listed(g, paths, queue, seen) && Grown(paths, queue[1..], paths', queue')
    requires seen' == seen + set k | k in g[current].sinks :: Finding(path, k)
    ensures Listed(g, paths', queue', seen')
  {
    forall v, k | v in paths' && v in g && !InQueue(queue', v) && k in g[v].sinks
        ensures Finding(paths'[v], k) in seen' {
      TailWaiting(queue, v);
    }
  }

  lemma FromWalkAfter(g: Graph, paths: map<string, Path>, paths': map<string, Path>, queue: Queue, queue': Queue,
                      current: string, path: Path, before: set<Finding>, seen: set<Finding>, seen': set<Finding>)
    requires FromWalk(g, paths, before, seen) && current in paths && current in g && path == paths[current]
    requires Grown(paths, queue, paths', queue')
    requires seen' == seen + set k | k in g[current].sinks :: Finding(path, k)
    ensures FromWalk(g, paths', before, seen')
  {
    forall f | f in seen' && f !in before
      ensures exists v :: v in paths' && v in g && f.path == paths'[v] && f.sink in g[v].sinks
    {
      if f in seen {
        var v :| v in paths && v in g && f.path == paths[v] && f.sink in g[v].sinks;
        assert v in paths' && f.path == paths'[v];
      } else {
        assert current in paths' && f.path == paths'[current];
      }
    }
  }

  /** Everything a walk keeps between two methods. */
  ghost predicate WalkInvariant(g: Graph, s: string, paths: map<string, Path>, queue: Queue, maxDepth: nat,
                                truncated: bool, before: set<Finding>, seen: set<Finding>) {
    && Resting(g, s, paths, queue, maxDepth, truncated) && Within(paths, maxDepth)
    && FromWalk(g, paths, before, seen) && Listed(g, paths, queue, seen)
  }

  /** Looks at the first method in the queue: its sinks, then its callees. */
  method VisitNext(g: Graph, ghost s: string, queue: Queue, visited: set<string>, ghost paths: map<string, Path>,
                   maxDepth: nat, truncated: bool, findings: seq<Finding>, seen: set<Finding>,
                   ghost before: set<Finding>)
    returns (queue': Queue, visited': set<string>, ghost paths': map<string, Path>, truncated': bool,
             findings': seq<Finding>, seen': set<Finding>)
    requires queue != [] && visited == paths.Keys && Kept(findings, seen) && |queue| <= |paths|
    requires |findings| < MAX_FINDINGS
    requires WalkInvariant(g, s, paths, queue, maxDepth, truncated, before, seen)
    ensures WalkInvariant(g, s, paths', queue', maxDepth, truncated', before, seen')
    ensures visited' == paths'.Keys && Kept(findings', seen') && |findings| <= |findings'| && Overshoots(g, findings')
    ensures |paths'| - |queue'| == |paths| - |queue| + 1 && |paths'| >= |paths|
    ensures truncated' ==> truncated || |paths'| > MAX_QUEUE
  {
    StartWalking(g, s, paths, queue, maxDepth, truncated);
    var (current, path) := queue[0];
    assert current in g;
    queue', visited', paths', truncated' := queue[1..], visited, paths, truncated;
    findings', seen' := ReportSinks(g[current], path, findings, seen);
    assert forall w: nat :: SinksAtMost(g, w) ==> |g[current].sinks| <= w;
    if |path| < maxDepth {
      queue', visited', paths', truncated' := Expand(g, s, current, path, queue', visited', paths', maxDepth,
                                                     truncated');
    }
    StopWalking(g, s, paths', queue', current, maxDepth, truncated');
    ListedAfter(g, paths, queue, current, path, paths', queue', seen, seen');
    FromWalkAfter(g, paths, paths', queue[1..], queue', current, path, before, seen, seen');
  }

  /** No method calls more than w sinks. */
  ghost predicate SinksAtMost(g: Graph, w: nat) {
    forall v :: v in g ==> |g[v].sinks| <= w
  }

  /** The cap is looked at between methods only, so the sinks of one method may go beyond it. */
  ghost predicate Overshoots(g: Graph, findings: seq<Finding>) {
    forall w: nat :: SinksAtMost(g, w) ==> |findings| < MAX_FINDINGS + w
  }

  /** A walk looks at all methods it meets, or at as many as its budget of operations allows. */
  ghost predicate WorkedOff(paths: map<string, Path>, queue: Queue, overfull: bool) {
    if queue == [] then !overfull else |paths| >= MAX_OPERATIONS + |queue|
  }

  /** One walk, from one method that calls a source; overfull tells whether its queue was cut off. */
  method Walk(g: Graph, s: string, maxDepth: nat, findings: seq<Finding>, seen: set<Finding>)
    returns (findings': seq<Finding>, seen': set<Finding>, truncated: bool,
             ghost overfull: bool, ghost paths: map<string, Path>, ghost queue': Queue)
    requires s in g && Kept(findings, seen) && |findings| < MAX_FINDINGS
    ensures Kept(findings', seen') && |findings| <= |findings'|
    ensures |findings'| < MAX_FINDINGS || Overshoots(g, findings')
    ensures WalkInvariant(g, s, paths, queue', maxDepth, overfull, seen, seen')
    ensures overfull ==> truncated
    ensures truncated ==> |paths| > MAX_OPERATIONS
    ensures !truncated && |findings'| < MAX_FINDINGS ==> queue' == [] && |paths| <= MAX_OPERATIONS
    ensures |findings'| < MAX_FINDINGS ==> WorkedOff(paths, queue', overfull)
  {
    findings', seen', truncated := findings, seen, false;
    var queue: Queue := [(s, [s])];
    var visited := {s};
    paths := map[s := [s]];
    StartRests(g, s, maxDepth);
    assert queue[0].0 == s;
    var operations := 0;
    while queue != [] && operations < MAX_OPERATIONS && |findings'| < MAX_FINDINGS
      invariant operations <= MAX_OPERATIONS && operations + |queue| == |paths|
      invariant truncated ==> |paths| > MAX_QUEUE
      invariant visited == paths.Keys && Kept(findings', seen') && |findings| <= |findings'|
      invariant |findings'| < MAX_FINDINGS || Overshoots(g, findings')
      invariant WalkInvariant(g, s, paths, queue, maxDepth, truncated, seen, seen')
      decreases MAX_OPERATIONS - operations
    {
      operations := operations + 1;
      queue, visited, paths, truncated, findings', seen' :=
        VisitNext(g, s, queue, visited, paths, maxDepth, truncated, findings', seen', seen);
    }
    queue', overfull := queue, truncated;
    if queue != [] && operations >= MAX_OPERATIONS {
      truncated := true;
    }
  }

  // ----- the whole search -----

  ghost predicate IsStart(g: Graph, s: string) {
    s in g && g[s].sources != []
  }

  /** A finding is a real call path within the depth, from a method that calls a source to one that calls the sink. */
  ghost predicate Real(g: Graph, maxDepth: nat, f: Finding) {
    && f.path != [] && |f.path| <= Depth(maxDepth) && IsStart(g, f.path[0])
    && PathTo(g, f.path[0], Last(f.path), f.path) && f.sink in g[Last(f.path)].sinks
  }

  ghost predicate Shortest(g: Graph, f: Finding) {
    f.path != [] && forall q :: PathTo(g, f.path[0], Last(f.path), q) ==> |f.path| <= |q|
  }

  /** Some finding reports this sink of v for the start s. */
  ghost predicate ReportedFor(s: string, v: string, sink: string, seen: set<Finding>) {
    exists f :: f in seen && f.path != [] && f.path[0] == s && Last(f.path) == v && f.sink == sink
  }

  /** Nothing within the depth of s was missed. */
  ghost predicate CompleteFor(g: Graph, s: string, maxDepth: nat, seen: set<Finding>) {
    forall v, q, k :: PathTo(g, s, v, q) && |q| <= Depth(maxDepth) && k in g[v].sinks ==> ReportedFor(s, v, k, seen)
  }

  /** These methods are within the depth, as many as a walk may look at or all, and each sink of them is reported. */
  ghost predicate Covers(g: Graph, s: string, maxDepth: nat, methods: set<string>, seen: set<Finding>) {
    && methods <= Reach(g, s, maxDepth)
    && (|methods| >= MAX_OPERATIONS || methods == Reach(g, s, maxDepth))
    && forall v, k :: v in methods && k in g[v].sinks ==> ReportedFor(s, v, k, seen)
  }

  /** For every one of the starts, some ten thousand methods have been looked at, or all within the depth. */
  ghost predicate AllCovered(g: Graph, starts: set<string>, maxDepth: nat, seen: set<Finding>) {
    forall s :: s in starts && IsStart(g, s) ==> exists methods :: Covers(g, s, maxDepth, methods, seen)
  }

  /** For one start there is one path per method. */
  ghost predicate OnePathEach(seen: set<Finding>) {
    forall f, h :: f in seen && h in seen && f.path != [] && h.path != [] && f.path[0] == h.path[0]
        && Last(f.path) == Last(h.path)
      ==> f.path == h.path
  }

  // ----- what there is to find -----

  ghost predicate Near(g: Graph, s: string, v: string, maxDepth: nat) {
    exists q :: PathTo(g, s, v, q) && |q| <= Depth(maxDepth)
  }

  /** The methods within the depth of s. */
  ghost function Reach(g: Graph, s: string, maxDepth: nat): set<string> {
    set v | v in g && Near(g, s, v, maxDepth)
  }

  /** From no start are there more methods within the depth than one walk may look at. */
  ghost predicate Narrow(g: Graph, starts: set<string>, maxDepth: nat) {
    forall s :: s in starts && IsStart(g, s) ==> |Reach(g, s, maxDepth)| <= MAX_OPERATIONS
  }

  /** A start, a method within its depth, and a sink that method calls. */
  type Triple = (string, string, string)

  ghost function Triples(g: Graph, starts: set<string>, maxDepth: nat): set<Triple> {
    set s, v, k | s in starts && IsStart(g, s) && v in g && Near(g, s, v, maxDepth) && k in g[v].sinks :: (s, v, k)
  }

  /** The searches that are sure to find everything. */
  ghost predicate Fits(g: Graph, maxDepth: nat) {
    Narrow(g, g.Keys, maxDepth) && |Triples(g, g.Keys, maxDepth)| < MAX_FINDINGS
  }

  lemma MoreStarts(g: Graph, starts: set<string>, more: set<string>, maxDepth: nat)
    requires starts <= more
    ensures |Triples(g, starts, maxDepth)| <= |Triples(g, more, maxDepth)|
    ensures Narrow(g, more, maxDepth) ==> Narrow(g, starts, maxDepth)
  {
    SubsetSize(Triples(g, starts, maxDepth), Triples(g, more, maxDepth));
  }

  function TripleOf(f: Finding): Triple {
    if f.path == [] then ("", "", f.sink) else (f.path[0], Last(f.path), f.sink)
  }

  /** One finding at most for each triple. */
  lemma FindingsAreTriples(g: Graph, starts: set<string>, maxDepth: nat, seen: set<Finding>)
    requires OnePathEach(seen) && forall f :: f in seen ==> Real(g, maxDepth, f) && f.path[0] in starts
    ensures |seen| <= |Triples(g, starts, maxDepth)|
    ensures (forall s :: s in starts && IsStart(g, s) ==> CompleteFor(g, s, maxDepth, seen)) ==>
              |seen| == |Triples(g, starts, maxDepth)|
  {
    var image := set f | f in seen :: TripleOf(f);
    ImageSize(seen, TripleOf, image);
    forall f | f in seen ensures TripleOf(f) in Triples(g, starts, maxDepth) {
      assert Near(g, f.path[0], Last(f.path), maxDepth);
    }
    SubsetSize(image, Triples(g, starts, maxDepth));
    if forall s :: s in starts && IsStart(g, s) ==> CompleteFor(g, s, maxDepth, seen) {
      TriplesAreFound(g, starts, maxDepth, seen, image);
      SubsetSize(Triples(g, starts, maxDepth), image);
    }
  }

  lemma TriplesAreFound(g: Graph, starts: set<string>, maxDepth: nat, seen: set<Finding>, image: set<Triple>)
    requires image == set f | f in seen :: TripleOf(f)
    requires forall s :: s in starts && IsStart(g, s) ==> CompleteFor(g, s, maxDepth, seen)
    ensures Triples(g, starts, maxDepth) <= image
  {
    forall x | x in Triples(g, starts, maxDepth) ensures x in image {
      var q :| PathTo(g, x.0, x.1, q) && |q| <= Depth(maxDepth);
      assert ReportedFor(x.0, x.1, x.2, seen);
      var f :| f in seen && f.path != [] && f.path[0] == x.0 && Last(f.path) == x.1 && f.sink == x.2;
      assert TripleOf(f) == x;
    }
  }

  // ----- what a walk contributes -----

  lemma WalkIsComplete(g: Graph, s: string, paths: map<string, Path>, maxDepth: nat, before: set<Finding>,
                       seen: set<Finding>)
    requires WalkInvariant(g, s, paths, [], maxDepth, false, before, seen)
    ensures CompleteFor(g, s, maxDepth, seen)
  {
    forall v, q, k | PathTo(g, s, v, q) && |q| <= Depth(maxDepth) && k in g[v].sinks
        ensures ReportedFor(s, v, k, seen) {
      AllDiscovered(g, s, paths, maxDepth, v, q);
      assert !InQueue([], v);
      assert Finding(paths[v], k) in seen;
    }
  }

  lemma WalkMeets(g: Graph, s: string, paths: map<string, Path>, queue: Queue, maxDepth: nat, overfull: bool,
                  before: set<Finding>, seen: set<Finding>)
    requires WalkInvariant(g, s, paths, queue, maxDepth, overfull, before, seen)
    ensures paths.Keys <= Reach(g, s, maxDepth)
    ensures !overfull && queue == [] ==> paths.Keys == Reach(g, s, maxDepth)
  {
    forall v | v in paths ensures v in Reach(g, s, maxDepth) {
      assert PathTo(g, s, v, paths[v]);
    }
    if !overfull && queue == [] {
      forall v | v in Reach(g, s, maxDepth) ensures v in paths {
        var q :| PathTo(g, s, v, q) && |q| <= Depth(maxDepth);
        AllDiscovered(g, s, paths, maxDepth, v, q);
      }
    }
  }

  /** What a walk meets is within the depth, and a finished one has met all of it. */
  lemma WalkReaches(g: Graph, s: string, paths: map<string, Path>, queue: Queue, maxDepth: nat, overfull: bool,
                    before: set<Finding>, seen: set<Finding>)
    requires WalkInvariant(g, s, paths, queue, maxDepth, overfull, before, seen)
    ensures |paths| <= |Reach(g, s, maxDepth)|
    ensures !overfull && queue == [] ==> |paths| == |Reach(g, s, maxDepth)|
  {
    WalkMeets(g, s, paths, queue, maxDepth, overfull, before, seen);
    SubsetSize(paths.Keys, Reach(g, s, maxDepth));
    assert |paths| == |paths.Keys|;
  }

  lemma {:induction false} WaitingSize(queue: Queue, waiting: set<string>)
    requires forall v :: v in waiting ==> InQueue(queue, v)
    ensures |waiting| <= |queue|
  {
    if queue != [] {
      var rest := waiting - {queue[0].0};
      forall v | v in rest ensures InQueue(queue[1..], v) {
        TailWaiting(queue, v);
      }
      WaitingSize(queue[1..], rest);
      assert waiting <= rest + {queue[0].0};
    }
  }

  /** Also a walk that is cut off reports the sinks of many methods. */
  lemma WalkCovers(g: Graph, s: string, paths: map<string, Path>, queue: Queue, maxDepth: nat, overfull: bool,
                   before: set<Finding>, seen: set<Finding>)
    requires WalkInvariant(g, s, paths, queue, maxDepth, overfull, before, seen) && WorkedOff(paths, queue, overfull)
    ensures exists methods :: Covers(g, s, maxDepth, methods, seen)
  {
    var waiting := set v | v in paths && InQueue(queue, v);
    var methods := paths.Keys - waiting;
    WaitingSize(queue, waiting);
    WalkMeets(g, s, paths, queue, maxDepth, overfull, before, seen);
    assert |paths| == |paths.Keys|;
    forall v, k | v in methods && k in g[v].sinks ensures ReportedFor(s, v, k, seen) {
      assert PathTo(g, s, v, paths[v]);
      assert Finding(paths[v], k) in seen;
    }
    assert Covers(g, s, maxDepth, methods, seen);
  }

  /** Whatever was cut off, what a walk lists is real, and along a shortest path if its queue was not cut. */
  lemma WalkIsReal(g: Graph, s: string, paths: map<string, Path>, queue: Queue, maxDepth: nat, overfull: bool,
                   before: set<Finding>, seen: set<Finding>, f: Finding)
    requires WalkInvariant(g, s, paths, queue, maxDepth, overfull, before, seen) && f in seen && f !in before
             && IsStart(g, s)
    ensures Real(g, maxDepth, f) && f.path[0] == s && Last(f.path) in paths && f.path == paths[Last(f.path)]
    ensures !overfull ==> Shortest(g, f)
  {
    var v :| v in paths && v in g && f.path == paths[v] && f.sink in g[v].sinks;
    assert PathTo(g, s, v, paths[v]);
  }

  /** What the search promises about the starts handled so far. */
  ghost predicate SearchInvariant(g: Graph, starts: set<string>, maxDepth: nat, overfull: bool, cut: bool,
                                  seen: set<Finding>) {
    && OnePathEach(seen)
    && (forall f :: f in seen ==> Real(g, maxDepth, f) && f.path[0] in starts)
    && (!overfull ==> forall f :: f in seen ==> Shortest(g, f))
    && (!cut ==> forall s :: s in starts && IsStart(g, s) ==> CompleteFor(g, s, maxDepth, seen))
    && (!cut ==> Narrow(g, starts, maxDepth))
  }

  /** A walk adds paths from a new start, one for each method. */
  lemma OnePathStill(s: string, paths: map<string, Path>, before: set<Finding>, seen: set<Finding>)
    requires OnePathEach(before) && forall f :: f in before ==> f.path != [] && f.path[0] != s
    requires forall f :: f in seen && f !in before ==>
               f.path != [] && f.path[0] == s && Last(f.path) in paths && f.path == paths[Last(f.path)]
    ensures OnePathEach(seen)
  {
  }

  lemma OneMoreStart(g: Graph, s: string, starts: set<string>, maxDepth: nat, overfull: bool, cut: bool,
                     before: set<Finding>, seen: set<Finding>, paths: map<string, Path>, queue: Queue, more: bool,
                     cut': bool)
    requires SearchInvariant(g, starts, maxDepth, overfull, cut, before) && s !in starts && IsStart(g, s)
    requires WalkInvariant(g, s, paths, queue, maxDepth, more, before, seen)
    requires !cut' ==> !cut && !more && queue == [] && |paths| <= MAX_OPERATIONS
    ensures SearchInvariant(g, starts + {s}, maxDepth, overfull || more, cut', seen)
  {
    forall f | f in seen && f !in before
      ensures Real(g, maxDepth, f) && f.path[0] == s && Last(f.path) in paths && f.path == paths[Last(f.path)]
      ensures !more ==> Shortest(g, f)
    {
      WalkIsReal(g, s, paths, queue, maxDepth, more, before, seen, f);
    }
    OnePathStill(s, paths, before, seen);
    if !cut' {
      WalkIsComplete(g, s, paths, maxDepth, before, seen);
      WalkReaches(g, s, paths, queue, maxDepth, more, before, seen);
      StillComplete(g, starts, maxDepth, before, seen);
    }
  }

  lemma StillComplete(g: Graph, starts: set<string>, maxDepth: nat, before: set<Finding>, seen: set<Finding>)
    requires before <= seen
    ensures forall s :: s in starts && CompleteFor(g, s, maxDepth, before) ==> CompleteFor(g, s, maxDepth, seen)
  {
  }

  lemma StillCovered(g: Graph, starts: set<string>, s: string, maxDepth: nat, before: set<Finding>, seen: set<Finding>)
    requires before <= seen && AllCovered(g, starts, maxDepth, before)
    requires exists methods :: Covers(g, s, maxDepth, methods, seen)
    ensures AllCovered(g, starts + {s}, maxDepth, seen)
  {
    forall t | t in starts && IsStart(g, t) ensures exists methods :: Covers(g, t, maxDepth, methods, seen) {
      var methods :| Covers(g, t, maxDepth, methods, before);
      assert Covers(g, t, maxDepth, methods, seen);
    }
  }

  lemma NotAStart(g: Graph, s: string, starts: set<string>, maxDepth: nat, overfull: bool, cut: bool,
                  seen: set<Finding>)
    requires SearchInvariant(g, starts, maxDepth, overfull, cut, seen) && !IsStart(g, s)
    ensures SearchInvariant(g, starts + {s}, maxDepth, overfull, cut, seen)
  {
  }

  /** The methods before the last one of the order. */
  ghost function AllButLast(order: seq<string>): set<string> {
    if order == [] then {} else Elements(order[..|order| - 1])
  }

  /** How the flags of the search relate to what there is to find, after some of the order. */
  ghost predicate Flagged(g: Graph, starts: set<string>, earlier: set<string>, maxDepth: nat, truncated: bool,
                          overfull: bool, cut: bool, count: nat) {
    && (overfull ==> truncated)
    && (truncated ==> !Narrow(g, starts, maxDepth))
    && (!truncated && count < MAX_FINDINGS ==> !cut)
    && (!truncated ==> |Triples(g, earlier, maxDepth)| < MAX_FINDINGS)
  }

  /** The whole state of the search between two methods of the order. */
  ghost function Searched(g: Graph, order: seq<string>, maxDepth: nat, i: nat): (bool, bool, bool, seq<Finding>,
      set<Finding>) -> bool
    requires i <= |order|
  {
    (truncated, overfull, cut, findings, seen) =>
      && Kept(findings, seen) && Overshoots(g, findings)
      && SearchInvariant(g, Elements(order[..i]), maxDepth, overfull, cut, seen)
      && (|findings| < MAX_FINDINGS ==> AllCovered(g, Elements(order[..i]), maxDepth, seen))
      && Flagged(g, Elements(order[..i]), AllButLast(order[..i]), maxDepth, truncated, overfull, cut, |findings|)
  }

  lemma SearchStarts(g: Graph, order: seq<string>, maxDepth: nat)
    ensures Searched(g, order, maxDepth, 0)(false, false, false, [], {})
  {
    assert Triples(g, {}, maxDepth) == {};
    assert Elements<Finding>([]) == {};
    assert Elements(order[..0]) == {} == AllButLast(order[..0]);
    assert Overshoots(g, []);
    assert Kept([], {});
    assert SearchInvariant(g, Elements(order[..0]), maxDepth, false, false, {});
    assert AllCovered(g, Elements(order[..0]), maxDepth, {});
    assert Flagged(g, Elements(order[..0]), AllButLast(order[..0]), maxDepth, false, false, false, 0);
  }

  lemma OneMoreSearched(g: Graph, order: seq<string>, maxDepth: nat, i: nat, truncated: bool, overfull: bool,
                        cut: bool, findings: seq<Finding>, seen: set<Finding>)
    requires i < |order| && Distinct(order) && Kept(findings, seen)
    requires |findings| < MAX_FINDINGS || Overshoots(g, findings)
    requires SearchInvariant(g, Elements(order[..i]) + {order[i]}, maxDepth, overfull, cut, seen)
    requires |findings| < MAX_FINDINGS ==> AllCovered(g, Elements(order[..i]) + {order[i]}, maxDepth, seen)
    requires Flagged(g, Elements(order[..i]) + {order[i]}, Elements(order[..i]), maxDepth, truncated, overfull, cut,
                     |findings|)
    ensures Searched(g, order, maxDepth, i + 1)(truncated, overfull, cut, findings, seen)
  {
    TakeOneMore(order, i);
    assert order[..i + 1][..i] == order[..i];
    assert Overshoots(g, findings);
    assert SearchInvariant(g, Elements(order[..i + 1]), maxDepth, overfull, cut, seen);
    assert AllButLast(order[..i + 1]) == Elements(order[..i]);
  }

  /** As long as nothing was cut off and the cap is not reached, there were not too many triples so far. */
  lemma CountSoFar(g: Graph, starts: set<string>, maxDepth: nat, overfull: bool, cut: bool, findings: seq<Finding>,
                   seen: set<Finding>)
    requires Kept(findings, seen) && SearchInvariant(g, starts, maxDepth, overfull, cut, seen)
    ensures |findings| <= |Triples(g, starts, maxDepth)|
    ensures !cut ==> |findings| == |Triples(g, starts, maxDepth)|
  {
    DistinctBySize(findings);
    FindingsAreTriples(g, starts, maxDepth, seen);
  }

  lemma SearchSkips(g: Graph, order: seq<string>, maxDepth: nat, i: nat, truncated: bool, overfull: bool, cut: bool,
                    findings: seq<Finding>, seen: set<Finding>)
    requires i < |order| && Searched(g, order, maxDepth, i)(truncated, overfull, cut, findings, seen) && Distinct(order)
    requires |findings| < MAX_FINDINGS && !IsStart(g, order[i])
    ensures Searched(g, order, maxDepth, i + 1)(truncated, overfull, cut, findings, seen)
  {
    var starts := Elements(order[..i]);
    NotAStart(g, order[i], starts, maxDepth, overfull, cut, seen);
    CountSoFar(g, starts, maxDepth, overfull, cut, findings, seen);
    MoreStarts(g, starts, starts + {order[i]}, maxDepth);
    OneMoreSearched(g, order, maxDepth, i, truncated, overfull, cut, findings, seen);
  }

  lemma FlagsAfterWalk(g: Graph, s: string, starts: set<string>, earlier: set<string>, maxDepth: nat, truncated: bool,
                       overfull: bool, cut: bool, count: nat, walkTruncated: bool, more: bool, cut': bool, count': nat)
    requires Flagged(g, starts, earlier, maxDepth, truncated, overfull, cut, count) && IsStart(g, s)
    requires count <= count' && count < MAX_FINDINGS
    requires !truncated ==> |Triples(g, starts, maxDepth)| < MAX_FINDINGS
    requires more ==> walkTruncated
    requires walkTruncated ==> |Reach(g, s, maxDepth)| > MAX_OPERATIONS
    requires !cut && !walkTruncated && count' < MAX_FINDINGS ==> !cut'
    ensures Flagged(g, starts + {s}, starts, maxDepth, truncated || walkTruncated, overfull || more, cut', count')
  {
    MoreStarts(g, starts, starts + {s}, maxDepth);
    if walkTruncated {
      assert s in starts + {s};
    }
  }

  lemma SearchWalks(g: Graph, order: seq<string>, maxDepth: nat, i: nat, truncated: bool, overfull: bool, cut: bool,
                    findings: seq<Finding>, seen: set<Finding>, walkTruncated: bool, more: bool,
                    paths: map<string, Path>, queue: Queue, findings': seq<Finding>, seen': set<Finding>)
    requires i < |order| && Searched(g, order, maxDepth, i)(truncated, overfull, cut, findings, seen) && Distinct(order)
    requires |findings| < MAX_FINDINGS && IsStart(g, order[i])
    requires Kept(findings', seen') && |findings| <= |findings'|
    requires |findings'| < MAX_FINDINGS || Overshoots(g, findings')
    requires WalkInvariant(g, order[i], paths, queue, maxDepth, more, seen, seen')
    requires (more ==> walkTruncated) && (walkTruncated ==> |paths| > MAX_OPERATIONS)
    requires !walkTruncated && |findings'| < MAX_FINDINGS ==> queue == [] && |paths| <= MAX_OPERATIONS
    requires |findings'| < MAX_FINDINGS ==> WorkedOff(paths, queue, more)
    ensures var cut' := cut || walkTruncated || queue != [] || |paths| > MAX_OPERATIONS;
            Searched(g, order, maxDepth, i + 1)(truncated || walkTruncated, overfull || more, cut', findings', seen')
  {
    var starts, s := Elements(order[..i]), order[i];
    var cut' := cut || walkTruncated || queue != [] || |paths| > MAX_OPERATIONS;
    TakeOneMore(order, i);
    CountSoFar(g, starts, maxDepth, overfull, cut, findings, seen);
    OneMoreStart(g, s, starts, maxDepth, overfull, cut, seen, seen', paths, queue, more, cut');
    WalkReaches(g, s, paths, queue, maxDepth, more, seen, seen');
    FlagsAfterWalk(g, s, starts, AllButLast(order[..i]), maxDepth, truncated, overfull, cut, |findings|,
                   walkTruncated, more, cut', |findings'|);
    if |findings'| < MAX_FINDINGS {
      WalkCovers(g, s, paths, queue, maxDepth, more, seen, seen');
      StillCovered(g, starts, s, maxDepth, seen, seen');
    }
    OneMoreSearched(g, order, maxDepth, i, truncated || walkTruncated, overfull || more, cut', findings', seen');
  }

  /** What the search promises at its end. */
  ghost predicate Outcome(g: Graph, order: seq<string>, maxDepth: nat, truncated: bool, findings: seq<Finding>) {
    && Distinct(findings) && OnePathEach(Elements(findings)) && Overshoots(g, findings)
    && (forall f :: f in findings ==> Real(g, maxDepth, f))
    && (!truncated || Narrow(g, g.Keys, maxDepth) ==> forall f :: f in findings ==> Shortest(g, f))
    && (!truncated && |findings| < MAX_FINDINGS ==> forall s :: IsStart(g, s) ==>
        CompleteFor(g, s, maxDepth, Elements(findings)))
    && (!truncated && |findings| < MAX_FINDINGS <==> Fits(g, maxDepth))
    && (Narrow(g, g.Keys, maxDepth) ==> (truncated <==> |Triples(g, AllButLast(order), maxDepth)| >= MAX_FINDINGS))
    && (Narrow(g, g.Keys, maxDepth) && truncated ==> |findings| >= MAX_FINDINGS)
    && (|findings| < MAX_FINDINGS ==> AllCovered(g, g.Keys, maxDepth, Elements(findings)))
  }

  lemma SearchEnds(g: Graph, order: seq<string>, maxDepth: nat, truncated: bool, overfull: bool, cut: bool,
                   findings: seq<Finding>, seen: set<Finding>)
    requires Elements(order) == g.Keys && Searched(g, order, maxDepth, |order|)(truncated, overfull, cut, findings,
             seen)
    ensures Outcome(g, order, maxDepth, truncated, findings)
  {
    assert order[..|order|] == order;
    CountSoFar(g, g.Keys, maxDepth, overfull, cut, findings, seen);
  }

  /** The search stops before a method of the order because the cap is reached. */
  lemma SearchIsFull(g: Graph, order: seq<string>, maxDepth: nat, i: nat, truncated: bool, overfull: bool, cut: bool,
                     findings: seq<Finding>, seen: set<Finding>)
    requires Elements(order) == g.Keys && i < |order|
    requires Searched(g, order, maxDepth, i)(truncated, overfull, cut, findings, seen) && |findings| >= MAX_FINDINGS
    ensures Outcome(g, order, maxDepth, true, findings)
  {
    var starts := Elements(order[..i]);
    CountSoFar(g, starts, maxDepth, overfull, cut, findings, seen);
    assert forall s :: s in order[..i] ==> s in order[..|order| - 1];
    MoreStarts(g, starts, AllButLast(order), maxDepth);
    MoreStarts(g, starts, g.Keys, maxDepth);
  }

  lemma SearchKeeps(g: Graph, order: seq<string>, maxDepth: nat, i: nat, truncated: bool, overfull: bool, cut: bool,
                    findings: seq<Finding>, seen: set<Finding>)
    requires i <= |order| && Searched(g, order, maxDepth, i)(truncated, overfull, cut, findings, seen)
    ensures Kept(findings, seen)
  {
  }

  /** The walk from one method of the order, if it calls a source. */
  method SearchFrom(g: Graph, order: seq<string>, maxDepth: nat, i: nat, findings: seq<Finding>, seen: set<Finding>,
                    truncated: bool, ghost overfull: bool, ghost cut: bool)
    returns (findings': seq<Finding>, seen': set<Finding>, truncated': bool, ghost overfull': bool, ghost cut': bool)
    requires Distinct(order) && i < |order| && order[i] in g && |findings| < MAX_FINDINGS
    requires Searched(g, order, maxDepth, i)(truncated, overfull, cut, findings, seen)
    ensures Searched(g, order, maxDepth, i + 1)(truncated', overfull', cut', findings', seen')
  {
    var s := order[i];
    if g[s].sources == [] {
      SearchSkips(g, order, maxDepth, i, truncated, overfull, cut, findings, seen);
      return findings, seen, truncated, overfull, cut;
    }
    SearchKeeps(g, order, maxDepth, i, truncated, overfull, cut, findings, seen);
    ghost var more, paths, queue;
    var walkTruncated;
    findings', seen', walkTruncated, more, paths, queue := Walk(g, s, maxDepth, findings, seen);
    SearchWalks(g, order, maxDepth, i, truncated, overfull, cut, findings, seen,
                walkTruncated, more, paths, queue, findings', seen');
    overfull', cut' := overfull || more, cut || walkTruncated || queue != [] || |paths| > MAX_OPERATIONS;
    truncated' := truncated || walkTruncated;
  }

  /**
   The search over all methods in order.
   - Whatever was cut off, every finding is real, none is reported twice or along two paths.
   - Every path is a shortest one if the search was not truncated, or if every start is narrow.
   - Nothing within the depth is missing if it was neither truncated nor filled up, and that is so exactly
     when the search fits.
   - With narrow starts it is marked as truncated exactly when the methods before the last fill it up.
   - Also a search that is cut off is full, or reports for each start the sinks of ten thousand methods within
     the depth, or of all there are.
   */
  method FindSourceSinkPaths(g: Graph, order: seq<string>, maxDepth: nat)
      returns (findings: seq<Finding>, truncated: bool)
    requires Distinct(order) && Elements(order) == g.Keys
    ensures Distinct(findings) && OnePathEach(Elements(findings))
    ensures forall f :: f in findings ==> Real(g, maxDepth, f)
    ensures !truncated || Narrow(g, g.Keys, maxDepth) ==> forall f :: f in findings ==> Shortest(g, f)
    ensures !truncated && |findings| < MAX_FINDINGS ==>
              forall s :: IsStart(g, s) ==> CompleteFor(g, s, maxDepth, Elements(findings))
    ensures !truncated && |findings| < MAX_FINDINGS <==> Fits(g, maxDepth)
    ensures Narrow(g, g.Keys, maxDepth) ==>
              (truncated <==> |Triples(g, AllButLast(order), maxDepth)| >= MAX_FINDINGS)
    ensures Narrow(g, g.Keys, maxDepth) && truncated ==> |findings| >= MAX_FINDINGS
    ensures |findings| < MAX_FINDINGS ==> AllCovered(g, g.Keys, maxDepth, Elements(findings))
    ensures Overshoots(g, findings)
  {
    var seen: set<Finding> := {};
    findings, truncated := [], false;
    ghost var overfull, cut := false, false;
    var i := 0;
    SearchStarts(g, order, maxDepth);
    while i < |order|
      invariant 0 <= i <= |order|
      invariant Searched(g, order, maxDepth, i)(truncated, overfull, cut, findings, seen)
    {
      if |findings| >= MAX_FINDINGS {
        SearchIsFull(g, order, maxDepth, i, truncated, overfull, cut, findings, seen);
        truncated := true;
        return;
      }
      assert order[i] in Elements(order);
      findings, seen, truncated, overfull, cut :=
        SearchFrom(g, order, maxDepth, i, findings, seen, truncated, overfull, cut);
      i := i + 1;
    }
    SearchEnds(g, order, maxDepth, truncated, overfull, cut, findings, seen);
  }

  // ----- what is lost without a mark -----

  ghost predicate MissesNothing(g: Graph, maxDepth: nat, findings: seq<Finding>) {
    forall s :: IsStart(g, s) ==> CompleteFor(g, s, maxDepth, Elements(findings))
  }

  /** Nothing is missing exactly when there are as many findings as triples. */
  lemma MissesNothingByCount(g: Graph, maxDepth: nat, findings: seq<Finding>)
    requires Distinct(findings) && OnePathEach(Elements(findings)) && forall f :: f in findings ==> Real(g, maxDepth, f)
    ensures MissesNothing(g, maxDepth, findings) <==> |findings| == |Triples(g, g.Keys, maxDepth)|
    ensures |findings| <= |Triples(g, g.Keys, maxDepth)|
  {
    var seen := Elements(findings);
    DistinctBySize(findings);
    FindingsAreTriples(g, g.Keys, maxDepth, seen);
    if |findings| == |Triples(g, g.Keys, maxDepth)| {
      var image := set f | f in seen :: TripleOf(f);
      ImageSize(seen, TripleOf, image);
      forall f | f in seen ensures TripleOf(f) in Triples(g, g.Keys, maxDepth) {
        assert Near(g, f.path[0], Last(f.path), maxDepth);
      }
      SameSize(image, Triples(g, g.Keys, maxDepth));
      AllReported(g, maxDepth, seen, image);
    }
  }

  lemma AllReported(g: Graph, maxDepth: nat, seen: set<Finding>, image: set<Triple>)
    requires image == (set f | f in seen :: TripleOf(f)) && image == Triples(g, g.Keys, maxDepth)
    requires forall f :: f in seen ==> f.path != []
    ensures forall s :: IsStart(g, s) ==> CompleteFor(g, s, maxDepth, seen)
  {
    forall s, v, q, k | IsStart(g, s) && PathTo(g, s, v, q) && |q| <= Depth(maxDepth) && k in g[v].sinks
      ensures ReportedFor(s, v, k, seen)
    {
      assert Near(g, s, v, maxDepth);
      assert (s, v, k) in image;
      var f :| f in seen && TripleOf(f) == (s, v, k);
    }
  }

  /** A start with few enough methods within the depth is complete unless the search is full. */
  lemma NarrowStartIsComplete(g: Graph, order: seq<string>, maxDepth: nat, truncated: bool, findings: seq<Finding>,
                              s: string)
    requires Outcome(g, order, maxDepth, truncated, findings) && |findings| < MAX_FINDINGS
    requires IsStart(g, s) && |Reach(g, s, maxDepth)| <= MAX_OPERATIONS
    ensures CompleteFor(g, s, maxDepth, Elements(findings))
  {
    var methods :| Covers(g, s, maxDepth, methods, Elements(findings));
    if |methods| >= MAX_OPERATIONS {
      SubsetSize(methods, Reach(g, s, maxDepth));
      SameSize(methods, Reach(g, s, maxDepth));
    }
    forall v, q, k | PathTo(g, s, v, q) && |q| <= Depth(maxDepth) && k in g[v].sinks
      ensures ReportedFor(s, v, k, Elements(findings))
    {
      assert Near(g, s, v, maxDepth);
      assert v in methods;
    }
  }

  /**
   Where no method calls more than w sinks, a search that is not marked, or has narrow starts, misses nothing
   as long as there are no more triples than the cap, and misses something from w more on.
   */
  lemma MissesByCount(g: Graph, order: seq<string>, maxDepth: nat, truncated: bool, findings: seq<Finding>, w: nat)
    requires Outcome(g, order, maxDepth, truncated, findings) && SinksAtMost(g, w)
    requires !truncated || Narrow(g, g.Keys, maxDepth)
    ensures |Triples(g, g.Keys, maxDepth)| <= MAX_FINDINGS ==> MissesNothing(g, maxDepth, findings)
    ensures |Triples(g, g.Keys, maxDepth)| >= MAX_FINDINGS + w ==> !MissesNothing(g, maxDepth, findings)
  {
    MissesNothingByCount(g, maxDepth, findings);
  }

  /**
   Where no method calls more than one sink, a search that is not marked as truncated misses something exactly
   when all methods together would overfill it. With narrow starts it misses something without a mark
   exactly when moreover the methods before the last do not fill it up.
   */
  lemma LosesUnmarkedExactly(g: Graph, order: seq<string>, maxDepth: nat, truncated: bool, findings: seq<Finding>)
    requires Outcome(g, order, maxDepth, truncated, findings) && SinksAtMost(g, 1)
    ensures !truncated ==>
              (MissesNothing(g, maxDepth, findings) <==> |Triples(g, g.Keys, maxDepth)| <= MAX_FINDINGS)
    ensures Narrow(g, g.Keys, maxDepth) ==>
              (!truncated && !MissesNothing(g, maxDepth, findings) <==>
                 |Triples(g, AllButLast(order), maxDepth)| < MAX_FINDINGS < |Triples(g, g.Keys, maxDepth)|)
  {
    MissesNothingByCount(g, maxDepth, findings);
  }

  const FAN: nat := 1001

  function Leaf(i: nat): string {
    seq(i + 1, _ => 'm')
  }

  function Leaves(): (r: seq<string>)
    ensures |r| == FAN
  {
    seq(FAN, i requires 0 <= i < FAN => Leaf(i))
  }

  /** One method that calls a source and a thousand and one others, each of which calls a sink. */
  function Fan(): Graph {
    (map v | v in Leaves() :: Node([], [], ["exec"]))["r" := Node(Leaves(), ["getIntent"], [])]
  }

  lemma FanOrder()
    ensures Distinct(Leaves() + ["r"]) && Elements(Leaves() + ["r"]) == Fan().Keys
    ensures AllButLast(Leaves() + ["r"]) == Elements(Leaves())
  {
    var order := Leaves() + ["r"];
    forall i, j | 0 <= i < j < |order| ensures order[i] != order[j] {
      if j < FAN {
        assert |Leaf(i)| != |Leaf(j)|;
      } else {
        assert Leaf(i)[0] == 'm';
      }
    }
    assert order[..FAN] == Leaves();
  }

  lemma FanIsNarrow()
    ensures Narrow(Fan(), Fan().Keys, 2) && SinksAtMost(Fan(), 1)
  {
    var g, order := Fan(), Leaves() + ["r"];
    FanOrder();
    DistinctBySize(order);
    forall s | s in g ensures |Reach(g, s, 2)| <= MAX_OPERATIONS {
      SubsetSize(Reach(g, s, 2), g.Keys);
    }
  }

  /** The leaves are different methods, and none of them calls a source. */
  lemma FanLeaves()
    ensures Distinct(Leaves()) && "r" !in Elements(Leaves())
    ensures |Elements(Leaves())| == FAN
  {
    forall i, j | 0 <= i < j < FAN ensures Leaves()[i] != Leaves()[j] {
      assert |Leaf(i)| != |Leaf(j)|;
    }
    DistinctBySize(Leaves());
    assert forall i :: 0 <= i < FAN ==> Leaves()[i][0] == 'm';
  }

  lemma FanTriples()
    ensures |Triples(Fan(), Elements(Leaves()), 2)| == 0
    ensures |Triples(Fan(), Fan().Keys, 2)| >= FAN
  {
    var g, leaves := Fan(), Elements(Leaves());
    FanLeaves();
    assert Triples(g, leaves, 2) == {};
    var image := set v | v in leaves :: ("r", v, "exec");
    ImageSize(leaves, v => ("r", v, "exec"), image);
    forall v | v in leaves ensures ("r", v, "exec") in Triples(g, g.Keys, 2) {
      FanTriple(v);
    }
    SubsetSize(image, Triples(g, g.Keys, 2));
  }

  lemma FanTriple(v: string)
    requires v in Elements(Leaves())
    ensures ("r", v, "exec") in Triples(Fan(), Fan().Keys, 2)
  {
    FanLeaves();
    assert PathTo(Fan(), "r", v, ["r", v]);
    assert Near(Fan(), "r", v, 2);
  }

  /** A search that leaves out a sink one call away and does not say so. */
  method FanLosesUnmarked() returns (findings: seq<Finding>, truncated: bool)
    ensures !truncated && !MissesNothing(Fan(), 2, findings)
  {
    FanOrder();
    FanIsNarrow();
    FanTriples();
    findings, truncated := FindSourceSinkPaths(Fan(), Leaves() + ["r"], 2);
    LosesUnmarkedExactly(Fan(), Leaves() + ["r"], 2, truncated, findings);
  }
}
