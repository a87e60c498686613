/** The Python SDK's DAG.topological_sort: Kahn's algorithm over a node dictionary and an edge list. */
module TopologicalSort {
  import opened Ordering

  datatype Edge = Edge(from: string, to: string)

  function Last<T>(s: seq<T>): T
    requires s != []
  {
    s[|s| - 1]
  }

  function Front<T>(s: seq<T>): seq<T>
    requires s != []
  {
    s[..|s| - 1]
  }

  /** The adjacency list of one node: a target per edge, repeated for parallel edges. */
  function Targets(edges: seq<Edge>, u: string): seq<string> {
    if edges == [] then [] else Targets(Front(edges), u) + (if Last(edges).from == u then [Last(edges).to] else [])
  }

  /** How many edges lead to `v` from nodes not yet done. */
  function Pending(edges: seq<Edge>, v: string, done: set<string>): nat {
    if edges == [] then 0
    else Pending(Front(edges), v, done) + (if Last(edges).to == v && Last(edges).from !in done then 1 else 0)
  }

  function Occurrences(s: seq<string>, v: string): nat {
    if s == [] then 0 else Occurrences(Front(s), v) + (if Last(s) == v then 1 else 0)
  }

  lemma OccurrencesAppend(s: seq<string>, x: string, v: string)
    ensures Occurrences(s + [x], v) == Occurrences(s, v) + (if x == v then 1 else 0)
  {
    assert Front(s + [x]) == s;
  }

  lemma {:induction false} OccurrencesPrefix(s: seq<string>, k: nat, v: string)
    requires k <= |s|
    ensures Occurrences(s[..k], v) <= Occurrences(s, v)
    ensures k < |s| && s[k] == v ==> Occurrences(s[..k], v) < Occurrences(s, v)
    decreases |s| - k
  {
    if k < |s| {
      OccurrencesPrefix(s, k + 1, v);
      assert s[..k + 1] == s[..k] + [s[k]];
      OccurrencesAppend(s[..k], s[k], v);
    } else {
      assert s[..k] == s;
    }
  }

  /** Finishing a node settles exactly the edges on its adjacency list. */
  lemma {:induction false} PendingDrops(edges: seq<Edge>, v: string, done: set<string>, u: string)
    requires u !in done
    ensures Pending(edges, v, done + {u}) + Occurrences(Targets(edges, u), v) == Pending(edges, v, done)
  {
    if edges != [] {
      PendingDrops(Front(edges), v, done, u);
      if Last(edges).from == u {
        OccurrencesAppend(Targets(Front(edges), u), Last(edges).to, v);
      } else {
        assert Targets(edges, u) == Targets(Front(edges), u);
      }
    }
  }

  lemma {:induction false} PendingZero(edges: seq<Edge>, v: string, done: set<string>)
    ensures Pending(edges, v, done) == 0 <==> forall i | 0 <= i < |edges| && edges[i].to == v :: edges[i].from in done
  {
    if edges != [] {
      PendingZero(Front(edges), v, done);
      assert forall i | 0 <= i < |edges| - 1 :: edges[i] == Front(edges)[i];
    }
  }

  function Degree(m: map<string, int>, v: string): int {
    if v in m then m[v] else 0
  }

  function Listed(m: map<string, seq<string>>, u: string): seq<string> {
    if u in m then m[u] else []
  }

  /** Adjacency lists and in-degree counts, one edge at a time. */
  method Build(edges: seq<Edge>) returns (adj: map<string, seq<string>>, inDegree: map<string, int>)
    ensures forall u :: Listed(adj, u) == Targets(edges, u)
    ensures forall v :: Degree(inDegree, v) == Pending(edges, v, {})
  {
    adj, inDegree := map[], map[];
    for i := 0 to |edges|
      invariant forall u :: Listed(adj, u) == Targets(edges[..i], u)
      invariant forall v :: Degree(inDegree, v) == Pending(edges[..i], v, {})
    {
      assert Front(edges[..i + 1]) == edges[..i];
      adj := adj[edges[i].from := Listed(adj, edges[i].from) + [edges[i].to]];
      inDegree := inDegree[edges[i].to := Degree(inDegree, edges[i].to) + 1];
    }
    assert edges[..|edges|] == edges;
  }

  ghost function Known(nodes: seq<string>, edges: seq<Edge>): set<string> {
    (set i | 0 <= i < |nodes| :: nodes[i]) + (set i | 0 <= i < |edges| :: edges[i].to)
  }

  ghost function Elements(s: seq<string>): set<string> {
    set i | 0 <= i < |s| :: s[i]
  }

  /** Every edge into an output node comes from a node output earlier. */
  ghost predicate SourcesFirst(edges: seq<Edge>, result: seq<string>) {
    forall i, k | 0 <= i < |result| && 0 <= k < |edges| && edges[k].to == result[i] :: edges[k].from in result[..i]
  }

  /** Between rounds: `out` is what has been output, `queue` what waits; `deg` counts what is still pending. */
  ghost predicate Sorting(nodes: seq<string>, edges: seq<Edge>, deg: map<string, int>, out: seq<string>, queue: seq<string>) {
    && NoDuplicates(out + queue)
    && (forall v :: Degree(deg, v) == Pending(edges, v, Elements(out)))
    && (forall v | v in out + queue :: Degree(deg, v) == 0 && v in Known(nodes, edges))
    && (forall i | 0 <= i < |nodes| && Degree(deg, nodes[i]) == 0 :: nodes[i] in out + queue)
    && SourcesFirst(edges, out)
  }

  /** In the middle of a round: the first `k` entries of the adjacency list of `u` have been settled. */
  ghost predicate Settling(nodes: seq<string>, edges: seq<Edge>, deg: map<string, int>, out: seq<string>, queue: seq<string>,
                           u: string, k: nat)
  {
    && u !in out && k <= |Targets(edges, u)|
    && NoDuplicates(out + [u] + queue)
    && (forall v :: Degree(deg, v) == Pending(edges, v, Elements(out)) - Occurrences(Targets(edges, u)[..k], v))
    && (forall v | v in out + [u] + queue :: Degree(deg, v) == 0 && v in Known(nodes, edges))
    && (forall i | 0 <= i < |nodes| && Degree(deg, nodes[i]) == 0 :: nodes[i] in out + [u] + queue)
    && SourcesFirst(edges, out + [u])
  }

  lemma RoundStarts(nodes: seq<string>, edges: seq<Edge>, deg: map<string, int>, out: seq<string>, queue: seq<string>)
    requires Sorting(nodes, edges, deg, out, queue) && queue != []
    ensures Settling(nodes, edges, deg, out, queue[1..], queue[0], 0)
  {
    var u, rest := queue[0], queue[1..];
    assert out + [u] + rest == out + queue;
    assert u in out + queue;
    assert (out + queue)[|out|] == u;
    assert forall i | 0 <= i < |out| :: (out + queue)[i] == out[i] != u;
    PendingZero(edges, u, Elements(out));
    var out' := out + [u];
    forall i, k | 0 <= i < |out'| && 0 <= k < |edges| && edges[k].to == out'[i] ensures edges[k].from in out'[..i] {
      if i < |out| {
        assert out'[..i] == out[..i];
      } else {
        assert out'[..i] == out;
      }
    }
  }

  lemma SettleDegrees(edges: seq<Edge>, deg: map<string, int>, done: set<string>, u: string, k: nat)
    requires u !in done && k < |Targets(edges, u)|
    requires forall v :: Degree(deg, v) == Pending(edges, v, done) - Occurrences(Targets(edges, u)[..k], v)
    ensures var w := Targets(edges, u)[k];
            && Degree(deg, w) > 0
            && forall v :: Degree(deg[w := Degree(deg, w) - 1], v)
                           == Pending(edges, v, done) - Occurrences(Targets(edges, u)[..k + 1], v)
  {
    var targets := Targets(edges, u);
    var w := targets[k];
    assert targets[..k + 1] == targets[..k] + [w];
    forall v ensures Occurrences(targets[..k + 1], v) == Occurrences(targets[..k], v) + (if w == v then 1 else 0) {
      OccurrencesAppend(targets[..k], w, v);
    }
    PendingDrops(edges, w, done, u);
    OccurrencesPrefix(targets, k, w);
  }

  lemma SettleOne(nodes: seq<string>, edges: seq<Edge>, deg: map<string, int>, out: seq<string>, queue: seq<string>,
                  u: string, k: nat)
    requires Settling(nodes, edges, deg, out, queue, u, k) && k < |Targets(edges, u)|
    ensures var w := Targets(edges, u)[k];
            var deg' := deg[w := Degree(deg, w) - 1];
            Settling(nodes, edges, deg', out, if Degree(deg', w) == 0 then queue + [w] else queue, u, k + 1)
  {
    var w := Targets(edges, u)[k];
    SettleDegrees(edges, deg, Elements(out), u, k);
    TargetKnown(edges, u, k);
    var seen := out + [u] + queue;
    assert w !in seen;
    assert out + [u] + (queue + [w]) == seen + [w];
    assert forall v :: v in seen + [w] <==> v in seen || v == w;
    assert forall v | v != w :: Degree(deg[w := Degree(deg, w) - 1], v) == Degree(deg, v);
  }

  lemma {:induction false} TargetKnown(edges: seq<Edge>, u: string, k: nat)
    requires k < |Targets(edges, u)|
    ensures exists i :: 0 <= i < |edges| && edges[i].to == Targets(edges, u)[k]
  {
    var n := |edges| - 1;
    if k < |Targets(Front(edges), u)| {
      TargetKnown(Front(edges), u, k);
      var i :| 0 <= i < n && Front(edges)[i].to == Targets(Front(edges), u)[k];
      assert edges[i].to == Targets(edges, u)[k];
    } else {
      assert edges[n].to == Targets(edges, u)[k];
    }
  }

  lemma RoundEnds(nodes: seq<string>, edges: seq<Edge>, deg: map<string, int>, out: seq<string>, queue: seq<string>, u: string)
    requires Settling(nodes, edges, deg, out, queue, u, |Targets(edges, u)|)
    ensures Sorting(nodes, edges, deg, out + [u], queue)
  {
    var targets := Targets(edges, u);
    assert targets[..|targets|] == targets;
    assert Elements(out + [u]) == Elements(out) + {u} by {
      var s := out + [u];
      assert forall i | 0 <= i < |out| :: s[i] == out[i];
      assert s[|out|] == u;
    }
    forall v ensures Degree(deg, v) == Pending(edges, v, Elements(out + [u])) {
      PendingDrops(edges, v, Elements(out), u);
    }
  }

  /** Nodes without incoming edges, in dictionary order. */
  method Sources(nodes: seq<string>, edges: seq<Edge>, inDegree: map<string, int>) returns (queue: seq<string>)
    requires NoDuplicates(nodes) && forall v :: Degree(inDegree, v) == Pending(edges, v, {})
    ensures Sorting(nodes, edges, inDegree, [], queue)
  {
    queue := [];
    for i := 0 to |nodes|
      invariant NoDuplicates(queue) && forall v | v in queue :: v in nodes[..i] && Degree(inDegree, v) == 0
      invariant forall j | 0 <= j < i && Degree(inDegree, nodes[j]) == 0 :: nodes[j] in queue
    {
      assert nodes[i] !in nodes[..i];
      if Degree(inDegree, nodes[i]) == 0 {
        queue := queue + [nodes[i]];
      }
    }
    assert [] + queue == queue;
    assert Elements([]) == {};
  }

  /**
   * No node twice, sources before targets, only known ids, and every node that could be output was:
   * a node is missing only if some edge into it comes from something that was not output.
   */
  method Sort(nodes: seq<string>, edges: seq<Edge>) returns (result: seq<string>)
    requires NoDuplicates(nodes)
    ensures IsOutput(nodes, edges, result)
    ensures EndpointsAreNodes(nodes, edges) ==> (multiset(result) == multiset(nodes) <==> Acyclic(edges))
  {
    var adj, inDegree := Build(edges);
    var queue := Sources(nodes, edges, inDegree);
    result := [];
    while queue != []
      invariant Sorting(nodes, edges, inDegree, result, queue)
      decreases Known(nodes, edges) - Elements(result)
    {
      var u := queue[0];
      ghost var before := result;
      RoundStarts(nodes, edges, inDegree, result, queue);
      queue := queue[1..];
      var targets := Listed(adj, u);
      for k := 0 to |targets|
        invariant Settling(nodes, edges, inDegree, result, queue, u, k)
      {
        SettleOne(nodes, edges, inDegree, result, queue, u, k);
        var w := targets[k];
        inDegree := inDegree[w := Degree(inDegree, w) - 1];
        if Degree(inDegree, w) == 0 {
          queue := queue + [w];
        }
      }
      RoundEnds(nodes, edges, inDegree, result, queue, u);
      result := result + [u];
      Progress(before, u);
      assert u in result + queue;
    }
    assert result + queue == result;
    forall v | v in nodes && v !in result ensures Blocked(edges, result, v) {
      PendingZero(edges, v, Elements(result));
    }
    if EndpointsAreNodes(nodes, edges) {
      PermutationIffAcyclic(nodes, edges, result);
    }
  }

  lemma Progress(out: seq<string>, u: string)
    requires u !in out
    ensures Elements(out + [u]) == Elements(out) + {u} && u !in Elements(out)
  {
    var s := out + [u];
    assert forall i | 0 <= i < |out| :: s[i] == out[i];
    assert s[|out|] == u;
  }

  /** A walk along edges. */
  ghost predicate IsWalk(edges: seq<Edge>, p: seq<string>) {
    forall i | 0 <= i < |p| - 1 :: Edge(p[i], p[i + 1]) in edges
  }

  ghost predicate IsCycle(edges: seq<Edge>, p: seq<string>) {
    |p| >= 2 && p[0] == p[|p| - 1] && IsWalk(edges, p)
  }

  ghost predicate Acyclic(edges: seq<Edge>) {
    forall p :: !IsCycle(edges, p)
  }

  ghost predicate EndpointsAreNodes(nodes: seq<string>, edges: seq<Edge>) {
    forall k | 0 <= k < |edges| :: edges[k].from in nodes && edges[k].to in nodes
  }

  /** The output contract of `Sort`, for reasoning about it. */
  ghost predicate IsOutput(nodes: seq<string>, edges: seq<Edge>, result: seq<string>) {
    && NoDuplicates(result) && SourcesFirst(edges, result)
    && (forall v | v in result :: v in Known(nodes, edges))
    && (forall v {:trigger Blocked(edges, result, v)} | v in nodes && v !in result :: Blocked(edges, result, v))
  }

  /** Some edge into `v` comes from something that was not output. */
  ghost predicate Blocked(edges: seq<Edge>, result: seq<string>, v: string) {
    exists k :: 0 <= k < |edges| && edges[k].to == v && edges[k].from !in result
  }

  lemma {:induction false} WalkAdvances(edges: seq<Edge>, result: seq<string>, p: seq<string>, i: nat) returns (at: nat)
    requires SourcesFirst(edges, result) && IsWalk(edges, p) && i < |p| && p[|p| - 1] in result
    ensures at < |result| && result[at] == p[i]
    ensures forall j | 0 <= j < |result| && result[j] == p[|p| - 1] && NoDuplicates(result) :: i < |p| - 1 ==> at < j
    decreases |p| - i
  {
    if i == |p| - 1 {
      at :| 0 <= at < |result| && result[at] == p[i];
    } else {
      var next := WalkAdvances(edges, result, p, i + 1);
      var e := Edge(p[i], p[i + 1]);
      assert e in edges;
      var k :| 0 <= k < |edges| && edges[k] == e;
      assert edges[k].from in result[..next];
      at :| 0 <= at < next && result[..next][at] == p[i];
    }
  }

  lemma CompleteOutputMeansAcyclic(nodes: seq<string>, edges: seq<Edge>, result: seq<string>)
    requires IsOutput(nodes, edges, result) && EndpointsAreNodes(nodes, edges)
    requires forall v | v in nodes :: v in result
    ensures Acyclic(edges)
  {
    forall p ensures !IsCycle(edges, p) {
      if IsCycle(edges, p) {
        var n := |p| - 1;
        assert Edge(p[n - 1], p[n]) in edges;
        assert p[n] in nodes;
        var at := WalkAdvances(edges, result, p, 0);
      }
    }
  }

  lemma Predecessor(nodes: seq<string>, edges: seq<Edge>, result: seq<string>, v: string) returns (u: string)
    requires IsOutput(nodes, edges, result) && EndpointsAreNodes(nodes, edges) && v in nodes && v !in result
    ensures Edge(u, v) in edges && u in nodes && u !in result
  {
    assert Blocked(edges, result, v);
    var k :| 0 <= k < |edges| && edges[k].to == v && edges[k].from !in result;
    u := edges[k].from;
    assert edges[k] == Edge(u, v);
  }

  lemma WalkAppend(edges: seq<Edge>, p: seq<string>, v: string)
    requires IsWalk(edges, p) && p != [] && Edge(p[|p| - 1], v) in edges
    ensures IsWalk(edges, p + [v])
  {
    var q := p + [v];
    forall i | 0 <= i < |q| - 1 ensures Edge(q[i], q[i + 1]) in edges {
      if i < |p| - 1 {
        assert q[i] == p[i] && q[i + 1] == p[i + 1];
      }
    }
  }

  lemma SubWalk(edges: seq<Edge>, p: seq<string>, i: nat, j: nat)
    requires IsWalk(edges, p) && i <= j <= |p|
    ensures IsWalk(edges, p[i..j])
  {
    var q := p[i..j];
    forall k | 0 <= k < |q| - 1 ensures Edge(q[k], q[k + 1]) in edges {
      assert Edge(p[i + k], p[i + k + 1]) in edges;
    }
  }

  /** Follow edges backwards through nodes that were not output. */
  lemma {:induction false} BackWalk(nodes: seq<string>, edges: seq<Edge>, result: seq<string>, v: string, n: nat)
    returns (p: seq<string>)
    requires IsOutput(nodes, edges, result) && EndpointsAreNodes(nodes, edges) && v in nodes && v !in result
    ensures |p| == n + 1 && p[n] == v && IsWalk(edges, p)
    ensures forall i | 0 <= i < |p| :: p[i] in nodes
    decreases n
  {
    if n == 0 {
      p := [v];
    } else {
      var u := Predecessor(nodes, edges, result, v);
      var q := BackWalk(nodes, edges, result, u, n - 1);
      p := q + [v];
      WalkAppend(edges, q, v);
    }
  }

  /** A walk longer than the number of nodes repeats one. */
  lemma {:induction false} Repeats(p: seq<string>, pool: set<string>) returns (i: nat, j: nat)
    requires |p| > |pool| && forall k | 0 <= k < |p| :: p[k] in pool
    ensures i < j < |p| && p[i] == p[j]
    decreases |p|
  {
    var last := p[|p| - 1];
    if k :| 0 <= k < |p| - 1 && p[k] == last {
      i, j := k, |p| - 1;
    } else {
      i, j := Repeats(p[..|p| - 1], pool - {last});
    }
  }

  lemma AcyclicMeansCompleteOutput(nodes: seq<string>, edges: seq<Edge>, result: seq<string>)
    requires IsOutput(nodes, edges, result) && EndpointsAreNodes(nodes, edges) && Acyclic(edges)
    ensures forall v | v in nodes :: v in result
  {
    forall v | v in nodes ensures v in result {
      if v !in result {
        var pool := Elements(nodes);
        var p := BackWalk(nodes, edges, result, v, |pool|);
        var i, j := Repeats(p, pool);
        SubWalk(edges, p, i, j + 1);
        assert IsCycle(edges, p[i..j + 1]);
      }
    }
  }

  /** On a graph without dangling edges the output is a permutation of the nodes exactly when there is no cycle. */
  lemma PermutationIffAcyclic(nodes: seq<string>, edges: seq<Edge>, result: seq<string>)
    requires NoDuplicates(nodes) && IsOutput(nodes, edges, result) && EndpointsAreNodes(nodes, edges)
    ensures multiset(result) == multiset(nodes) <==> Acyclic(edges)
  {
    forall v | v in result ensures v in nodes {
      assert v in Known(nodes, edges);
    }
    if Acyclic(edges) {
      AcyclicMeansCompleteOutput(nodes, edges, result);
      forall v ensures multiset(result)[v] == multiset(nodes)[v] {
        CountOnce(result, v);
        CountOnce(nodes, v);
        assert v in result <==> v in nodes;
        assert v in multiset(result) <==> v in result;
        assert v in multiset(nodes) <==> v in nodes;
      }
    }
    if multiset(result) == multiset(nodes) {
      forall v | v in nodes ensures v in result {
        assert v in multiset(nodes);
      }
      CompleteOutputMeansAcyclic(nodes, edges, result);
    }
  }
}
