/** getDAG: breadth-first walk over parent and child links of a snapshot, which may be cyclic. */
module DagWalk {
  import opened Text
  import opened Ordering
  import opened Agents

  datatype EdgeType = ParentEdge | SpawnedEdge

  datatype Edge = Edge(from: string, to: string, kind: EdgeType)

  datatype Node = Node(tupleId: string, kind: string, status: Status, createdAt: int, metadata: map<string, string>)

  type Snapshot = map<string, Agent>

  /** The unexpired rows, each under its own id; ids are never empty. */
  ghost predicate SnapshotOk(live: Snapshot) {
    "" !in live && forall id | id in live :: live[id].id == id
  }

  function NodeOf(a: Agent): Node {
    Node(a.id, a.kind, a.status, a.createdAt, a.metadata)
  }

  function ChildSet(live: Snapshot, id: string): set<Agent> {
    set c | c in live && live[c].parentId == id :: live[c]
  }

  /** The children query: every live agent with this parent, oldest first. */
  ghost function Children(live: Snapshot, id: string): seq<Agent> {
    Listing(ChildSet(live, id), AgentKey)
  }

  method ChildrenOf(live: Snapshot, id: string) returns (kids: seq<Agent>)
    requires SnapshotOk(live)
    ensures kids == Children(live, id)
  {
    var all := ChildSet(live, id);
    var some := Enumerate(all);
    SortIsListing(some, all, AgentKey);
    kids := StableSort(some, AgentKey);
  }

  lemma ChildrenSpec(live: Snapshot, id: string)
    ensures Enumerates(Children(live, id), ChildSet(live, id))
  {
    ListingSpec(ChildSet(live, id), AgentKey);
  }

  /** Two live agents, one of them the other's parent. */
  predicate Linked(live: Snapshot, a: string, b: string) {
    a in live && b in live && (live[a].parentId == b || live[b].parentId == a)
  }

  ghost predicate IsPath(live: Snapshot, p: seq<string>) {
    && |p| > 0 && p[0] in live
    && forall i | 0 <= i < |p| - 1 :: Linked(live, p[i], p[i + 1])
  }

  ghost predicate Connected(live: Snapshot, a: string, b: string) {
    exists p :: IsPath(live, p) && p[0] == a && p[|p| - 1] == b
  }

  lemma ConnectedStep(live: Snapshot, a: string, b: string, c: string)
    requires Connected(live, a, b) && Linked(live, b, c)
    ensures Connected(live, a, c)
  {
    var p :| IsPath(live, p) && p[0] == a && p[|p| - 1] == b;
    var q := p + [c];
    assert forall i | 0 <= i < |q| - 1 :: Linked(live, q[i], q[i + 1]);
  }

  lemma ConnectedSelf(live: Snapshot, a: string)
    requires a in live
    ensures Connected(live, a, a)
  {
    assert IsPath(live, [a]);
  }

  function SpawnedEdges(id: string, kids: seq<Agent>): seq<Edge> {
    seq(|kids|, i requires 0 <= i < |kids| => Edge(id, kids[i].id, SpawnedEdge))
  }

  ghost function EdgesOf(live: Snapshot, id: string): seq<Edge>
    requires id in live
  {
    (if live[id].parentId != "" then [Edge(live[id].parentId, id, ParentEdge)] else [])
    + SpawnedEdges(id, Children(live, id))
  }

  ghost function EdgesOfAll(live: Snapshot, order: seq<string>): seq<Edge>
    requires forall i | 0 <= i < |order| :: order[i] in live
  {
    if order == [] then [] else EdgesOfAll(live, order[..|order| - 1]) + EdgesOf(live, order[|order| - 1])
  }

  /** The edges a finished walk owes: one per node with a parent, one per live child of a node. */
  ghost predicate Expected(live: Snapshot, nodes: set<string>, e: Edge) {
    if e.kind == ParentEdge then e.to in nodes && e.to in live && e.from != "" && live[e.to].parentId == e.from
    else e.from in nodes && e.to in live && live[e.to].parentId == e.from
  }

  function EdgeOwner(e: Edge): string {
    if e.kind == ParentEdge then e.to else e.from
  }

  lemma SpawnedCount(live: Snapshot, id: string, e: Edge)
    requires SnapshotOk(live)
    ensures multiset(SpawnedEdges(id, Children(live, id)))[e]
         == if e.kind == SpawnedEdge && e.from == id && e.to in live && live[e.to].parentId == id then 1 else 0
  {
    var kids := Children(live, id);
    var edges := SpawnedEdges(id, kids);
    ChildrenSpec(live, id);
    assert forall i | 0 <= i < |kids| :: kids[i] in kids;
    assert NoDuplicates(edges);
    CountOnce(edges, e);
    if e.kind == SpawnedEdge && e.from == id && e.to in live && live[e.to].parentId == id {
      assert live[e.to] in kids;
      var i :| 0 <= i < |kids| && kids[i] == live[e.to];
      assert edges[i] == e;
    }
  }

  lemma EdgesOfCount(live: Snapshot, id: string, e: Edge)
    requires SnapshotOk(live) && id in live
    ensures multiset(EdgesOf(live, id))[e] == if EdgeOwner(e) == id && Expected(live, {id}, e) then 1 else 0
  {
    SpawnedCount(live, id, e);
  }

  lemma EnumeratesLast(order: seq<string>, nodes: set<string>)
    requires order != [] && Enumerates(order, nodes)
    ensures order[|order| - 1] in nodes && Enumerates(order[..|order| - 1], nodes - {order[|order| - 1]})
  {
    assert order == order[..|order| - 1] + [order[|order| - 1]];
  }

  lemma ExpectedSplit(live: Snapshot, nodes: set<string>, id: string, e: Edge)
    requires id in nodes
    ensures Expected(live, nodes, e) <==> Expected(live, nodes - {id}, e) || Expected(live, {id}, e)
    ensures Expected(live, {id}, e) ==> EdgeOwner(e) == id && !Expected(live, nodes - {id}, e)
  {
  }

  /** Nothing is listed twice and nothing is left out. */
  lemma {:induction false} EdgesOfAllCount(live: Snapshot, order: seq<string>, nodes: set<string>, e: Edge)
    requires SnapshotOk(live) && Enumerates(order, nodes)
    requires forall i | 0 <= i < |order| :: order[i] in live
    ensures multiset(EdgesOfAll(live, order))[e] == if Expected(live, nodes, e) then 1 else 0
  {
    if order == [] {
      assert nodes == {};
    } else {
      hide Expected, EdgesOf, Enumerates;
      var front, last := order[..|order| - 1], order[|order| - 1];
      EnumeratesLast(order, nodes);
      EdgesOfAllCount(live, front, nodes - {last}, e);
      EdgesOfCount(live, last, e);
      ExpectedSplit(live, nodes, last, e);
    }
  }

  ghost predicate NeighboursSeen(live: Snapshot, id: string, visited: set<string>, queue: seq<string>) {
    forall b | Linked(live, id, b) :: b in visited || b in queue
  }

  function NodesOf(live: Snapshot, visited: set<string>): map<string, Node> {
    map id | id in visited && id in live :: NodeOf(live[id])
  }

  ghost function Universe(live: Snapshot, root: string): set<string> {
    {root} + live.Keys + (set id | id in live :: live[id].parentId)
  }

  /** Between two rounds of the walk; `order` lists the live visited ids in the order they were visited. */
  ghost predicate Walking(live: Snapshot, root: string, visited: set<string>, queue: seq<string>, order: seq<string>) {
    && visited <= Universe(live, root)
    && (forall i | 0 <= i < |queue| :: queue[i] in Universe(live, root))
    && (root in visited || root in queue)
    && (forall id | id in visited && id in live :: Connected(live, root, id))
    && (forall i | 0 <= i < |queue| && queue[i] in live :: Connected(live, root, queue[i]))
    && (forall id | id in visited && id in live :: NeighboursSeen(live, id, visited, queue))
    && Enumerates(order, visited * live.Keys)
    && (forall i | 0 <= i < |order| :: order[i] in live)
  }

  /** The ids found at a node: all its neighbours, and otherwise only a parent that is not live. */
  ghost predicate Found(live: Snapshot, id: string, more: seq<string>) {
    && id in live
    && (forall b | Linked(live, id, b) :: b in more)
    && (forall i | 0 <= i < |more| ::
          (more[i] in live ==> Linked(live, id, more[i])) && (more[i] == live[id].parentId || more[i] in live))
  }

  lemma SkipKeeps(live: Snapshot, root: string, visited: set<string>, queue: seq<string>, order: seq<string>)
    requires Walking(live, root, visited, queue, order) && queue != [] && (queue[0] in visited || queue[0] !in live)
    ensures Walking(live, root, visited + {queue[0]}, queue[1..], order)
    ensures NodesOf(live, visited + {queue[0]}) == NodesOf(live, visited)
    ensures queue[0] in Universe(live, root)
  {
    var id, rest := queue[0], queue[1..];
    assert queue == [id] + rest;
    assert (visited + {id}) * live.Keys == visited * live.Keys;
    forall x | x in visited && x in live ensures NeighboursSeen(live, x, visited + {id}, rest) {
      assert NeighboursSeen(live, x, visited, queue);
    }
  }

  lemma ExpandKeeps(live: Snapshot, root: string, visited: set<string>, queue: seq<string>, order: seq<string>, more: seq<string>)
    requires Walking(live, root, visited, queue, order) && queue != [] && queue[0] !in visited && Found(live, queue[0], more)
    ensures Walking(live, root, visited + {queue[0]}, queue[1..] + more, order + [queue[0]])
    ensures queue[0] in Universe(live, root)
  {
    var id, rest := queue[0], queue[1..];
    var queue', order', visited' := rest + more, order + [id], visited + {id};
    assert queue == [id] + rest;
    EnumeratesMore(order, visited * live.Keys, id);
    assert visited' * live.Keys == visited * live.Keys + {id};
    forall i | 0 <= i < |queue'| ensures queue'[i] in Universe(live, root) {
      assert queue'[i] == if i < |rest| then queue[i + 1] else more[i - |rest|];
    }
    forall i | 0 <= i < |queue'| && queue'[i] in live ensures Connected(live, root, queue'[i]) {
      if i < |rest| {
        assert queue'[i] == queue[i + 1];
      } else {
        assert queue'[i] == more[i - |rest|];
        ConnectedStep(live, root, id, queue'[i]);
      }
    }
    forall x | x in visited' && x in live ensures NeighboursSeen(live, x, visited', queue') {
      if x != id {
        assert NeighboursSeen(live, x, visited, queue);
      }
    }
  }

  lemma EnumeratesMore(order: seq<string>, ids: set<string>, id: string)
    requires Enumerates(order, ids) && id !in ids
    ensures Enumerates(order + [id], ids + {id})
  {
  }

  lemma VisitGrows(live: Snapshot, visited: set<string>, order: seq<string>, id: string)
    requires id in live && forall i | 0 <= i < |order| :: order[i] in live
    ensures NodesOf(live, visited + {id}) == NodesOf(live, visited)[id := NodeOf(live[id])]
    ensures EdgesOfAll(live, order + [id]) == EdgesOfAll(live, order) + EdgesOf(live, id)
  {
    assert (order + [id])[..|order|] == order;
  }

  /** When the queue runs dry the visited live ids are the connected ones. */
  lemma WalkDone(live: Snapshot, root: string, visited: set<string>, order: seq<string>)
    requires Walking(live, root, visited, [], order)
    ensures forall id :: id in visited * live.Keys <==> id in live && Connected(live, root, id)
  {
    var nodes := visited * live.Keys;
    forall a, b | a in nodes && Linked(live, a, b) ensures b in nodes {
      assert NeighboursSeen(live, a, visited, []);
    }
    ReachesAll(live, root, nodes);
  }

  /**
   * The nodes are exactly the live agents connected to the root through live parent and child links,
   * and every owed edge is there exactly once. The walk ends even on cyclic links.
   */
  method GetDag(live: Snapshot, root: string) returns (nodes: map<string, Node>, edges: seq<Edge>)
    requires SnapshotOk(live)
    ensures forall id :: id in nodes <==> id in live && Connected(live, root, id)
    ensures forall id | id in nodes ::
              nodes[id] == Node(id, live[id].kind, live[id].status, live[id].createdAt, live[id].metadata)
    ensures forall e :: multiset(edges)[e] == if Expected(live, nodes.Keys, e) then 1 else 0
  {
    var visited: set<string>;
    ghost var order: seq<string>;
    nodes, edges, visited, order := Walk(live, root);
    WalkDone(live, root, visited, order);
    assert nodes.Keys == visited * live.Keys;
    forall e ensures multiset(edges)[e] == if Expected(live, nodes.Keys, e) then 1 else 0 {
      EdgesOfAllCount(live, order, nodes.Keys, e);
    }
  }

  method Walk(live: Snapshot, root: string)
    returns (nodes: map<string, Node>, edges: seq<Edge>, visited: set<string>, ghost order: seq<string>)
    requires SnapshotOk(live)
    ensures Walking(live, root, visited, [], order) && nodes == NodesOf(live, visited) && edges == EdgesOfAll(live, order)
  {
    nodes, edges, visited, order := map[], [], {}, [];
    var queue := [root];
    WalkStarts(live, root);
    while queue != []
      invariant Walking(live, root, visited, queue, order)
      invariant nodes == NodesOf(live, visited)
      invariant edges == EdgesOfAll(live, order)
      decreases Universe(live, root) - visited, |queue|
    {
      var id := queue[0];
      if id in visited || id !in live {
        SkipKeeps(live, root, visited, queue, order);
        visited := visited + {id};
        queue := queue[1..];
      } else {
        nodes := nodes[id := NodeOf(live[id])];
        var found, more := Expand(live, id);
        edges := edges + found;
        ExpandKeeps(live, root, visited, queue, order, more);
        VisitGrows(live, visited, order, id);
        visited := visited + {id};
        queue := queue[1..] + more;
        order := order + [id];
      }
      ghost var walking := Walking(live, root, visited, queue, order);
      assert walking;
    }
  }

  lemma WalkStarts(live: Snapshot, root: string)
    ensures Walking(live, root, {}, [root], [])
  {
    if root in live {
      ConnectedSelf(live, root);
    }
  }

  /** One node: its edges, and the ids to look at next. */
  method Expand(live: Snapshot, id: string) returns (edges: seq<Edge>, more: seq<string>)
    requires SnapshotOk(live) && id in live
    ensures edges == EdgesOf(live, id) && Found(live, id, more)
  {
    edges, more := [], [];
    if live[id].parentId != "" {
      edges := edges + [Edge(live[id].parentId, id, ParentEdge)];
      more := more + [live[id].parentId];
    }
    var kids := ChildrenOf(live, id);
    ChildrenSpec(live, id);
    ghost var edges0, more0 := edges, more;
    for i := 0 to |kids|
      invariant edges == edges0 + SpawnedEdges(id, kids[..i])
      invariant |more| == |more0| + i && more[..|more0|] == more0
      invariant forall j | 0 <= j < i :: more[|more0| + j] == kids[j].id
    {
      assert kids[i] in kids;
      assert SpawnedEdges(id, kids[..i + 1]) == SpawnedEdges(id, kids[..i]) + [Edge(id, kids[i].id, SpawnedEdge)];
      edges := edges + [Edge(id, kids[i].id, SpawnedEdge)];
      more := more + [kids[i].id];
    }
    assert kids[..|kids|] == kids;
    FoundAll(live, id, kids, more0, more);
  }

  lemma FoundAll(live: Snapshot, id: string, kids: seq<Agent>, more0: seq<string>, more: seq<string>)
    requires SnapshotOk(live) && id in live && kids == Children(live, id)
    requires more0 == if live[id].parentId != "" then [live[id].parentId] else []
    requires |more| == |more0| + |kids| && more[..|more0|] == more0
    requires forall j | 0 <= j < |kids| :: more[|more0| + j] == kids[j].id
    ensures Found(live, id, more)
  {
    ChildrenSpec(live, id);
    forall b | Linked(live, id, b) ensures b in more {
      if live[b].parentId == id {
        assert live[b] in kids;
        var j :| 0 <= j < |kids| && kids[j] == live[b];
        assert more[|more0| + j] == b;
      } else {
        assert more0[0] == b && more[..|more0|][0] == b;
      }
    }
    forall i | 0 <= i < |more|
      ensures (more[i] in live ==> Linked(live, id, more[i])) && (more[i] == live[id].parentId || more[i] in live)
    {
      if i < |more0| {
        assert more[i] == more[..|more0|][i];
      } else {
        assert kids[i - |more0|] in kids;
        assert more[|more0| + (i - |more0|)] == kids[i - |more0|].id;
      }
    }
  }

  /** A set of live nodes that holds the root and all its own neighbours holds everything connected to the root. */
  lemma ReachesAll(live: Snapshot, root: string, nodes: set<string>)
    requires forall id | id in nodes :: id in live
    requires root in live ==> root in nodes
    requires forall a, b | a in nodes && Linked(live, a, b) :: b in nodes
    ensures forall id | Connected(live, root, id) :: id in nodes
  {
    forall id | Connected(live, root, id) ensures id in nodes {
      var p :| IsPath(live, p) && p[0] == root && p[|p| - 1] == id;
      for i := 0 to |p| - 1
        invariant p[i] in nodes
      {
        assert Linked(live, p[i], p[i + 1]);
      }
    }
  }
}
