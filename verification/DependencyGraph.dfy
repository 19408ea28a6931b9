/** The dependency check of the planner: Kahn's algorithm over the keys of a list of task
    drafts, and what its answer means for the graph. */
module DependencyGraph {
  import opened Text

  datatype TaskDraft = TaskDraft(
    clientKey: string,
    title: string,
    description: string,
    assignedAgentID: string,
    providerName: string,
    priority: int,
    dependsOn: seq<string>)

  // ----- The graph -----

  function Keys(drafts: seq<TaskDraft>): set<string> {
    set i | 0 <= i < |drafts| :: drafts[i].clientKey
  }

  /** Some draft with key `key` lists `dep` among its dependencies. */
  ghost predicate Needs(drafts: seq<TaskDraft>, key: string, dep: string) {
    exists i :: 0 <= i < |drafts| && drafts[i].clientKey == key && dep in drafts[i].dependsOn
  }

  /** Some dependency names no draft. */
  ghost predicate HasDangling(drafts: seq<TaskDraft>) {
    exists key, dep :: Needs(drafts, key, dep) && dep !in Keys(drafts)
  }

  /** Step i of the path goes from a dependency to a draft that needs it. */
  ghost predicate StepAt(drafts: seq<TaskDraft>, path: seq<string>, i: int) {
    0 <= i < |path| - 1 ==> Needs(drafts, path[i + 1], path[i])
  }

  ghost predicate IsPath(drafts: seq<TaskDraft>, path: seq<string>) {
    forall i :: StepAt(drafts, path, i)
  }

  ghost predicate IsCycle(drafts: seq<TaskDraft>, path: seq<string>) {
    |path| >= 2 && path[0] == path[|path| - 1] && IsPath(drafts, path)
  }

  ghost predicate HasCycle(drafts: seq<TaskDraft>) {
    exists path :: IsCycle(drafts, path)
  }

  /** The keys in an order in which the drafts can run, each after all it needs. */
  ghost predicate IsTopologicalOrder(drafts: seq<TaskDraft>, order: seq<string>) {
    && Distinct(order)
    && (forall k :: k in order <==> k in Keys(drafts))
    && NeedsEarlier(drafts, order)
  }

  ghost predicate NeedsEarlier(drafts: seq<TaskDraft>, order: seq<string>) {
    forall j, dep :: 0 <= j < |order| && Needs(drafts, order[j], dep) ==> dep in order[..j]
  }

  /** Along a path that ends in the order, the start comes strictly before the end. */
  lemma {:induction false} PathClimbs(drafts: seq<TaskDraft>, order: seq<string>, path: seq<string>, j: nat)
    requires NeedsEarlier(drafts, order) && IsPath(drafts, path)
    requires |path| >= 2 && j < |order| && path[|path| - 1] == order[j]
    ensures path[0] in order[..j]
    decreases |path|
  {
    hide Needs;
    var before := path[|path| - 2];
    assert StepAt(drafts, path, |path| - 2);
    assert before in order[..j];
    if |path| > 2 {
      var i :| 0 <= i < j && order[i] == before;
      var shorter := path[..|path| - 1];
      forall k
        ensures StepAt(drafts, shorter, k)
      {
        assert StepAt(drafts, path, k);
      }
      PathClimbs(drafts, order, shorter, i);
    }
  }

  /** A plan that can be ordered has no cycle and no dangling dependency. */
  lemma OrderedMeansAcyclic(drafts: seq<TaskDraft>, order: seq<string>)
    requires IsTopologicalOrder(drafts, order)
    ensures !HasCycle(drafts) && !HasDangling(drafts)
  {
    forall path | IsCycle(drafts, path)
      ensures false
    {
      var last := |path| - 1;
      assert StepAt(drafts, path, last - 1);
      assert path[last] in order;
      var j :| 0 <= j < |order| && order[j] == path[last];
      PathClimbs(drafts, order, path, j);
    }
    forall key, dep | Needs(drafts, key, dep)
      ensures dep in Keys(drafts)
    {
      assert key in order;
      var j :| 0 <= j < |order| && order[j] == key;
    }
  }

  // ----- A set without a way in holds a cycle -----

  /** Every member of `stuck` needs another member of `stuck`. */
  ghost predicate EachNeedsAnother(drafts: seq<TaskDraft>, stuck: set<string>) {
    forall v :: v in stuck ==> exists u :: u in stuck && Needs(drafts, v, u)
  }

  lemma NeededWithin(drafts: seq<TaskDraft>, stuck: set<string>, v: string) returns (u: string)
    requires EachNeedsAnother(drafts, stuck) && v in stuck
    ensures u in stuck && Needs(drafts, v, u)
  {
    hide Needs;
    u :| u in stuck && Needs(drafts, v, u);
  }

  /** So there are walks of any length inside it. */
  lemma {:induction false} WalkBack(drafts: seq<TaskDraft>, stuck: set<string>, end: string, length: nat)
    returns (path: seq<string>)
    requires EachNeedsAnother(drafts, stuck) && end in stuck
    ensures |path| == length + 1 && IsPath(drafts, path) && path[length] == end
    ensures forall i :: 0 <= i < |path| ==> path[i] in stuck
    decreases length
  {
    hide Needs, EachNeedsAnother;
    if length == 0 {
      path := [end];
    } else {
      var u := NeededWithin(drafts, stuck, end);
      var shorter := WalkBack(drafts, stuck, u, length - 1);
      path := shorter + [end];
      forall i
        ensures StepAt(drafts, path, i)
      {
        assert StepAt(drafts, shorter, i);
      }
    }
  }

  /** Pigeonhole: a sequence longer than the set it draws from repeats itself. */
  lemma {:induction false} Repeats(s: seq<string>, from: set<string>) returns (i: nat, j: nat)
    requires |s| > |from| && forall k :: 0 <= k < |s| ==> s[k] in from
    ensures i < j < |s| && s[i] == s[j]
    decreases |s|
  {
    var last := |s| - 1;
    if k: nat :| k < last && s[k] == s[last] {
      i, j := k, last;
    } else {
      i, j := Repeats(s[..last], from - {s[last]});
    }
  }

  lemma StuckMeansCycle(drafts: seq<TaskDraft>, stuck: set<string>)
    requires stuck != {} && EachNeedsAnother(drafts, stuck)
    ensures HasCycle(drafts)
  {
    hide Needs, EachNeedsAnother;
    var v :| v in stuck;
    var path := WalkBack(drafts, stuck, v, |stuck|);
    var i, j := Repeats(path, stuck);
    var cycle := path[i..j + 1];
    forall k
      ensures StepAt(drafts, cycle, k)
    {
      assert StepAt(drafts, path, i + k);
    }
    assert IsCycle(drafts, cycle);
  }

  // ----- Edges, as the algorithm counts them -----

  /** An edge from a dependency to a draft that needs it. */
  datatype Edge = Edge(dep: string, key: string)

  function DraftEdges(d: TaskDraft): seq<Edge> {
    seq(|d.dependsOn|, i requires 0 <= i < |d.dependsOn| => Edge(d.dependsOn[i], d.clientKey))
  }

  /** All edges, with repetitions, in the order in which the algorithm reads them. */
  function Edges(drafts: seq<TaskDraft>): seq<Edge> {
    if drafts == [] then [] else Edges(drafts[..|drafts| - 1]) + DraftEdges(drafts[|drafts| - 1])
  }

  lemma {:induction false} EdgesAreNeeds(drafts: seq<TaskDraft>, e: Edge)
    ensures e in Edges(drafts) <==> Needs(drafts, e.key, e.dep)
  {
    if drafts != [] {
      var earlier, last := drafts[..|drafts| - 1], drafts[|drafts| - 1];
      EdgesAreNeeds(earlier, e);
      if e in DraftEdges(last) {
        var i :| 0 <= i < |last.dependsOn| && DraftEdges(last)[i] == e;
        assert drafts[|drafts| - 1].clientKey == e.key;
      }
      if last.clientKey == e.key && e.dep in last.dependsOn {
        var i :| 0 <= i < |last.dependsOn| && last.dependsOn[i] == e.dep;
        assert DraftEdges(last)[i] == e;
      }
      if Needs(earlier, e.key, e.dep) {
        var i :| 0 <= i < |earlier| && earlier[i].clientKey == e.key && e.dep in earlier[i].dependsOn;
        assert drafts[i] == earlier[i];
      }
      if Needs(drafts, e.key, e.dep) {
        var i :| 0 <= i < |drafts| && drafts[i].clientKey == e.key && e.dep in drafts[i].dependsOn;
        if i < |earlier| {
          assert drafts[i] == earlier[i];
        }
      }
    }
  }

  /** The drafts that need `dep`, once for every edge. */
  function Targets(edges: seq<Edge>, dep: string): seq<string> {
    if edges == [] then []
    else
      var e := edges[|edges| - 1];
      Targets(edges[..|edges| - 1], dep) + if e.dep == dep then [e.key] else []
  }

  /** How many edges into `key` come from a dependency that is not done. */
  function Pending(edges: seq<Edge>, key: string, done: set<string>): nat {
    if edges == [] then 0
    else
      var e := edges[|edges| - 1];
      Pending(edges[..|edges| - 1], key, done) + if e.key == key && e.dep !in done then 1 else 0
  }

  lemma {:induction false} PendingWitness(edges: seq<Edge>, key: string, done: set<string>)
    ensures Pending(edges, key, done) > 0 <==> exists e :: e in edges && e.key == key && e.dep !in done
  {
    if edges != [] {
      var earlier, last := edges[..|edges| - 1], edges[|edges| - 1];
      PendingWitness(earlier, key, done);
      assert edges == earlier + [last];
    }
  }

  /** When `dep` is done, a key loses as many pending edges as it has among its targets. */
  lemma {:induction false} PendingAfter(edges: seq<Edge>, key: string, done: set<string>, dep: string)
    requires dep !in done
    ensures Pending(edges, key, done) == Pending(edges, key, done + {dep}) + multiset(Targets(edges, dep))[key]
  {
    if edges != [] {
      PendingAfter(edges[..|edges| - 1], key, done, dep);
    }
  }

  lemma {:induction false} TargetsAreKeys(edges: seq<Edge>, dep: string, keys: set<string>)
    requires forall e :: e in edges ==> e.key in keys
    ensures forall i :: 0 <= i < |Targets(edges, dep)| ==> Targets(edges, dep)[i] in keys
  {
    if edges != [] {
      TargetsAreKeys(edges[..|edges| - 1], dep, keys);
    }
  }

  // ----- The algorithm -----

  type Degrees = map<string, nat>
  type Adjacency = map<string, seq<string>>

  /** The maps record exactly the given edges. */
  ghost predicate Records(edges: seq<Edge>, keys: set<string>, indeg: Degrees, adj: Adjacency) {
    && indeg.Keys == keys
    && (forall v :: v in keys ==> indeg[v] == Pending(edges, v, {}))
    && (forall u :: (if u in adj then adj[u] else []) == Targets(edges, u))
  }

  lemma EdgeSnoc(edges: seq<Edge>, e: Edge)
    ensures forall v, done :: Pending(edges + [e], v, done)
                           == Pending(edges, v, done) + if e.key == v && e.dep !in done then 1 else 0
    ensures forall u :: Targets(edges + [e], u) == Targets(edges, u) + if e.dep == u then [e.key] else []
  {
    assert (edges + [e])[..|edges|] == edges;
  }

  /** The two counting loops of the check. */
  method BuildGraph(drafts: seq<TaskDraft>) returns (indeg: Degrees, adj: Adjacency)
    ensures Records(Edges(drafts), Keys(drafts), indeg, adj)
  {
    indeg := CollectKeys(drafts);
    adj := map[];
    hide *;
    for i := 0 to |drafts|
      invariant Records(Edges(drafts[..i]), Keys(drafts), indeg, adj)
    {
      KeyOf(drafts, i);
      indeg, adj := CountDraft(Edges(drafts[..i]), Keys(drafts), indeg, adj, drafts[i]);
      EdgesSnoc(drafts, i);
    }
    assert drafts[..|drafts|] == drafts;
  }

  method CollectKeys(drafts: seq<TaskDraft>) returns (indeg: Degrees)
    ensures Records(Edges(drafts[..0]), Keys(drafts), indeg, map[])
  {
    indeg := map[];
    for i := 0 to |drafts|
      invariant indeg.Keys == Keys(drafts[..i])
      invariant forall v :: v in indeg ==> indeg[v] == 0
    {
      hide Keys;
      KeysSnoc(drafts, i);
      if drafts[i].clientKey !in indeg {
        indeg := indeg[drafts[i].clientKey := 0];
      }
    }
    assert drafts[..|drafts|] == drafts;
  }

  method CountDraft(ghost edges: seq<Edge>, ghost keys: set<string>, indeg: Degrees, adj: Adjacency, d: TaskDraft)
    returns (indeg': Degrees, adj': Adjacency)
    requires Records(edges, keys, indeg, adj) && d.clientKey in keys
    ensures Records(edges + DraftEdges(d), keys, indeg', adj')
  {
    hide Records;
    indeg', adj' := indeg, adj;
    ghost var own := DraftEdges(d);
    assert edges + own[..0] == edges;
    for j := 0 to |d.dependsOn|
      invariant Records(edges + own[..j], keys, indeg', adj')
    {
      assert edges + own[..j] + [own[j]] == edges + own[..j + 1];
      indeg', adj' := CountEdge(edges + own[..j], keys, indeg', adj', d.dependsOn[j], d.clientKey);
    }
    assert own[..|d.dependsOn|] == own;
  }

  lemma KeyOf(drafts: seq<TaskDraft>, i: nat)
    requires i < |drafts|
    ensures drafts[i].clientKey in Keys(drafts)
  {
  }

  lemma EdgesSnoc(drafts: seq<TaskDraft>, i: nat)
    requires i < |drafts|
    ensures Edges(drafts[..i + 1]) == Edges(drafts[..i]) + DraftEdges(drafts[i])
  {
    hide DraftEdges;
    assert drafts[..i + 1][..i] == drafts[..i];
  }

  lemma KeysSnoc(drafts: seq<TaskDraft>, i: nat)
    requires i < |drafts|
    ensures Keys(drafts[..i + 1]) == Keys(drafts[..i]) + {drafts[i].clientKey}
  {
    var more, fewer := drafts[..i + 1], drafts[..i];
    forall k | k in Keys(more)
      ensures k in Keys(fewer) + {drafts[i].clientKey}
    {
      var j :| 0 <= j < |more| && more[j].clientKey == k;
      if j < i {
        assert fewer[j].clientKey == k;
      }
    }
    forall k | k in Keys(fewer)
      ensures k in Keys(more)
    {
      var j :| 0 <= j < |fewer| && fewer[j].clientKey == k;
      assert more[j].clientKey == k;
    }
    assert more[i].clientKey in Keys(more);
  }

  method CountEdge(ghost edges: seq<Edge>, ghost keys: set<string>, indeg: Degrees, adj: Adjacency,
                   dep: string, key: string)
    returns (indeg': Degrees, adj': Adjacency)
    requires Records(edges, keys, indeg, adj) && key in keys
    ensures Records(edges + [Edge(dep, key)], keys, indeg', adj')
  {
    EdgeSnoc(edges, Edge(dep, key));
    hide Pending, Targets;
    adj' := adj[dep := (if dep in adj then adj[dep] else []) + [key]];
    indeg' := indeg[key := indeg[key] + 1];
  }

  /** Between two iterations of the main loop: `order` has been dequeued, `queue` waits. */
  ghost predicate Progress(edges: seq<Edge>, indeg: Degrees, order: seq<string>, queue: seq<string>) {
    && Distinct(order + queue)
    && (forall v :: v in indeg ==> indeg[v] == Pending(edges, v, Elements(order)))
    && ReadyAreQueued(indeg, order + queue)
  }

  /** Exactly the keys with nothing pending have been queued. */
  ghost predicate ReadyAreQueued(indeg: Degrees, started: seq<string>) {
    && (forall v :: v in started ==> v in indeg)
    && (forall v :: v in indeg ==> (v in started <==> indeg[v] == 0))
  }

  function Elements(s: seq<string>): set<string> {
    set v | v in s
  }

  /** The first queue: the keys without dependencies, in whatever order the map yields them. */
  method InitialQueue(indeg: Degrees) returns (queue: seq<string>)
    ensures Distinct(queue) && ReadyAreQueued(indeg, queue)
  {
    queue := [];
    var rest := indeg.Keys;
    while rest != {}
      invariant rest <= indeg.Keys
      invariant Distinct(queue)
      invariant forall v :: v in queue ==> v in indeg && v !in rest
      invariant forall v :: v in indeg && v !in rest ==> (v in queue <==> indeg[v] == 0)
      decreases rest
    {
      var k :| k in rest;
      if indeg[k] == 0 {
        queue := queue + [k];
      }
      rest := rest - {k};
    }
  }

  /** What is left to subtract, one for every target. */
  ghost predicate Owed(indeg: Degrees, left: Degrees, targets: seq<string>) {
    && indeg.Keys == left.Keys
    && forall v :: v in indeg ==> indeg[v] == left[v] + multiset(targets)[v]
  }

  /** Releasing the targets of a dequeued key, one edge at a time. */
  method Release(ghost order: seq<string>, queue: seq<string>, indeg: Degrees, targets: seq<string>,
                 ghost left: Degrees)
    returns (queue': seq<string>, indeg': Degrees)
    requires Distinct(order + queue) && ReadyAreQueued(indeg, order + queue)
    requires Owed(indeg, left, targets)
    requires forall i :: 0 <= i < |targets| ==> targets[i] in indeg
    ensures indeg' == left
    ensures Distinct(order + queue') && ReadyAreQueued(indeg', order + queue')
  {
    hide Distinct, ReadyAreQueued, Owed;
    queue', indeg' := queue, indeg;
    assert targets[0..] == targets && targets[|targets|..] == [];
    for i := 0 to |targets|
      invariant Distinct(order + queue') && ReadyAreQueued(indeg', order + queue')
      invariant indeg'.Keys == indeg.Keys && Owed(indeg', left, targets[i..])
    {
      assert targets[i..] == [targets[i]] + targets[i + 1..];
      queue', indeg' := ReleaseOne(order, queue', indeg', targets[i], targets[i + 1..], left);
    }
    NothingOwed(indeg', left);
  }

  lemma IsOwed(indeg: Degrees, left: Degrees, targets: seq<string>)
    requires indeg.Keys == left.Keys && forall v :: v in indeg ==> indeg[v] == left[v] + multiset(targets)[v]
    ensures Owed(indeg, left, targets)
  {
  }

  lemma NothingOwed(indeg: Degrees, left: Degrees)
    requires Owed(indeg, left, [])
    ensures indeg == left
  {
  }

  method ReleaseOne(ghost order: seq<string>, queue: seq<string>, indeg: Degrees, m: string,
                    ghost rest: seq<string>, ghost left: Degrees)
    returns (queue': seq<string>, indeg': Degrees)
    requires Distinct(order + queue) && ReadyAreQueued(indeg, order + queue)
    requires m in indeg && Owed(indeg, left, [m] + rest)
    ensures Distinct(order + queue') && ReadyAreQueued(indeg', order + queue')
    ensures indeg'.Keys == indeg.Keys && Owed(indeg', left, rest)
  {
    assert multiset([m] + rest) == multiset{m} + multiset(rest);
    queue', indeg' := queue, indeg[m := indeg[m] - 1];
    if indeg'[m] == 0 {
      assert order + (queue + [m]) == order + queue + [m];
      queue' := queue + [m];
    }
  }

  /** Everything a dequeued key needs was dequeued before it. */
  ghost predicate EdgesEarlier(edges: seq<Edge>, order: seq<string>) {
    forall j, e :: 0 <= j < |order| && e in edges && e.key == order[j] ==> e.dep in order[..j]
  }

  lemma {:induction false} DistinctSize(s: seq<string>)
    requires Distinct(s)
    ensures |Elements(s)| == |s|
  {
    if s != [] {
      var init, last := s[..|s| - 1], s[|s| - 1];
      DistinctSize(init);
      assert s == init + [last];
      assert Elements(s) == Elements(init) + {last};
    }
  }

  lemma ElementsSnoc(s: seq<string>, v: string)
    ensures Elements(s + [v]) == Elements(s) + {v}
  {
  }

  /** A subset as large as its set is all of it. */
  lemma FullSubset(small: set<string>, large: set<string>)
    requires small <= large
    ensures |small| <= |large|
    ensures |small| == |large| ==> small == large
    ensures |large - small| == |large| - |small|
  {
    assert large == small + (large - small);
  }

  /** The head of the queue is new, has nothing pending, and frees its targets. */
  lemma Dequeue(edges: seq<Edge>, indeg: Degrees, order: seq<string>, queue: seq<string>)
    requires Progress(edges, indeg, order, queue) && |queue| > 0
    ensures var n := queue[0];
            && n in indeg && n !in order
            && order + [n] + queue[1..] == order + queue
            && |order| < |indeg|
            && Distinct(order + [n] + queue[1..]) && ReadyAreQueued(indeg, order + [n] + queue[1..])
            && (forall e :: e in edges && e.key == n ==> e.dep in order)
            && (forall v :: v in indeg ==>
                 indeg[v] == Pending(edges, v, Elements(order + [n])) + multiset(Targets(edges, n))[v])
  {
    hide *;
    var n := queue[0];
    HeadIsFree(edges, indeg, order, queue);
    HeadIsNew(order, queue, indeg);
    ElementsSnoc(order, n);
    forall v | v in indeg
      ensures indeg[v] == Pending(edges, v, Elements(order + [n])) + multiset(Targets(edges, n))[v]
    {
      PendingOf(edges, indeg, order, queue, v);
      PendingAfter(edges, v, Elements(order), n);
    }
  }

  lemma PendingOf(edges: seq<Edge>, indeg: Degrees, order: seq<string>, queue: seq<string>, v: string)
    requires Progress(edges, indeg, order, queue) && v in indeg
    ensures indeg[v] == Pending(edges, v, Elements(order))
  {
    hide Pending;
  }

  lemma HeadIsNew(order: seq<string>, queue: seq<string>, indeg: Degrees)
    requires Distinct(order + queue) && ReadyAreQueued(indeg, order + queue) && |queue| > 0
    ensures var n := queue[0];
            && n in indeg && n !in order && n !in Elements(order)
            && order + [n] + queue[1..] == order + queue
            && |order| < |indeg|
  {
    var n, started := queue[0], order + queue;
    assert started[|order|] == n;
    assert forall i :: 0 <= i < |order| ==> started[i] == order[i];
    var next := order + [n];
    assert next == started[..|order| + 1];
    assert order + [n] + queue[1..] == started;
    assert forall v :: v in next ==> v in started;
    DistinctSize(next);
    FullSubset(Elements(next), indeg.Keys);
  }

  lemma HeadIsFree(edges: seq<Edge>, indeg: Degrees, order: seq<string>, queue: seq<string>)
    requires Progress(edges, indeg, order, queue) && |queue| > 0
    ensures Distinct(order + queue) && ReadyAreQueued(indeg, order + queue)
    ensures forall e :: e in edges && e.key == queue[0] ==> e.dep in order
  {
    hide Pending;
    assert (order + queue)[|order|] == queue[0];
    PendingWitness(edges, queue[0], Elements(order));
  }

  lemma EarlierSnoc(edges: seq<Edge>, order: seq<string>, n: string)
    requires EdgesEarlier(edges, order) && forall e :: e in edges && e.key == n ==> e.dep in order
    ensures EdgesEarlier(edges, order + [n])
  {
    var next := order + [n];
    forall j, e | 0 <= j < |next| && e in edges && e.key == next[j]
      ensures e.dep in next[..j]
    {
      assert next[..j] == order[..j];
      assert order[..|order|] == order;
    }
  }

  lemma Released(edges: seq<Edge>, indeg: Degrees, order: seq<string>, queue: seq<string>)
    requires Distinct(order + queue) && ReadyAreQueued(indeg, order + queue)
    requires forall v :: v in indeg ==> indeg[v] == Pending(edges, v, Elements(order))
    ensures Progress(edges, indeg, order, queue)
  {
  }

  lemma Start(drafts: seq<TaskDraft>, indeg: Degrees, adj: Adjacency, queue: seq<string>)
    requires Records(Edges(drafts), Keys(drafts), indeg, adj)
    requires Distinct(queue) && ReadyAreQueued(indeg, queue)
    ensures indeg.Keys == Keys(drafts)
    ensures Progress(Edges(drafts), indeg, [], queue) && EdgesEarlier(Edges(drafts), [])
  {
    assert [] + queue == queue && Elements([]) == {};
  }

  lemma TargetsOf(drafts: seq<TaskDraft>, indeg: Degrees, adj: Adjacency, n: string)
    requires Records(Edges(drafts), Keys(drafts), indeg, adj)
    ensures var targets := if n in adj then adj[n] else [];
            && targets == Targets(Edges(drafts), n)
            && forall i :: 0 <= i < |targets| ==> targets[i] in Keys(drafts)
  {
    hide Targets, Pending, Edges;
    forall e | e in Edges(drafts)
      ensures e.key in Keys(drafts)
    {
      EdgesAreNeeds(drafts, e);
    }
    TargetsAreKeys(Edges(drafts), n, Keys(drafts));
  }

  lemma StuckTogether(drafts: seq<TaskDraft>, indeg: Degrees, order: seq<string>, stuck: set<string>)
    requires indeg.Keys == Keys(drafts) && Progress(Edges(drafts), indeg, order, []) && !HasDangling(drafts)
    requires stuck == Keys(drafts) - Elements(order)
    ensures EachNeedsAnother(drafts, stuck)
  {
    hide Pending, Edges, Needs, Keys;
    assert order + [] == order;
    forall v | v in stuck
      ensures exists u :: u in stuck && Needs(drafts, v, u)
    {
      PendingWitness(Edges(drafts), v, Elements(order));
      var e :| e in Edges(drafts) && e.key == v && e.dep !in Elements(order);
      EdgesAreNeeds(drafts, e);
      assert e.dep in stuck;
    }
  }

  /** When the queue runs dry, the keys that were never dequeued are stuck. */
  lemma Leftovers(drafts: seq<TaskDraft>, indeg: Degrees, order: seq<string>)
    requires indeg.Keys == Keys(drafts)
    requires Progress(Edges(drafts), indeg, order, []) && EdgesEarlier(Edges(drafts), order)
    ensures |order| == |indeg| ==> IsTopologicalOrder(drafts, order)
    ensures |order| != |indeg| ==> HasCycle(drafts) || HasDangling(drafts)
  {
    hide Pending, Edges, Needs, HasCycle, EachNeedsAnother;
    var edges, stuck := Edges(drafts), Keys(drafts) - Elements(order);
    assert order + [] == order;
    DistinctSize(order);
    FullSubset(Elements(order), indeg.Keys);
    if |order| == |indeg| {
      forall j, dep | 0 <= j < |order| && Needs(drafts, order[j], dep)
        ensures dep in order[..j]
      {
        EdgesAreNeeds(drafts, Edge(dep, order[j]));
      }
    } else if !HasDangling(drafts) {
      StuckTogether(drafts, indeg, order, stuck);
      StuckMeansCycle(drafts, stuck);
    }
  }

  /** hasDependencyCycle: true exactly when the drafts have a cyclic or a dangling
      dependency; when false, `order` is an order in which they can run. */
  method HasDependencyCycle(drafts: seq<TaskDraft>) returns (cyclic: bool, ghost order: seq<string>)
    ensures cyclic <==> HasCycle(drafts) || HasDangling(drafts)
    ensures !cyclic ==> IsTopologicalOrder(drafts, order)
  {
    hide *;
    ghost var edges, keys := Edges(drafts), Keys(drafts);
    var indeg, adj := BuildGraph(drafts);
    ghost var counted := indeg;
    var queue := InitialQueue(indeg);
    order := [];
    Start(drafts, indeg, adj, queue);
    var visited := 0;
    while |queue| > 0
      invariant indeg.Keys == keys && visited == |order|
      invariant Progress(edges, indeg, order, queue)
      invariant EdgesEarlier(edges, order)
      decreases |keys| - visited
    {
      Dequeue(edges, indeg, order, queue);
      var n := queue[0];
      queue := queue[1..];
      visited := visited + 1;
      TargetsOf(drafts, counted, adj, n);
      EarlierSnoc(edges, order, n);
      order := order + [n];
      ghost var left := map v | v in indeg :: Pending(edges, v, Elements(order));
      IsOwed(indeg, left, Targets(edges, n));
      queue, indeg := Release(order, queue, indeg, if n in adj then adj[n] else [], left);
      Released(edges, indeg, order, queue);
    }
    cyclic := visited != |indeg|;
    Leftovers(drafts, indeg, order);
    if !cyclic {
      OrderedMeansAcyclic(drafts, order);
    }
  }
}
