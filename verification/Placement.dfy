/**
 * Routing and placement in the sharded Valkey store. The hash is a parameter: everything here holds
 * for any hash of namespace and queue.
 */
module Placement {
  import opened Text
  import opened Ordering
  import opened Agents
  import opened ValkeyRecords
  import opened ValkeyShard
  import opened ValkeyPlaces
  import opened ValkeyQuery
  import opened ShardMerge

  type Hash = (string, string) -> nat

  type Cluster = seq<Records>

  /** Namespace and queue as stored, trimmed; both must be present for an agent to have a home. */
  function Route(a: Agent): (string, string) {
    (TrimSpace(NamespaceValue(a)), TrimSpace(QueueValue(a)))
  }

  predicate Routable(route: (string, string)) {
    route.0 != "" && route.1 != ""
  }

  function Target(hash: Hash, shards: nat, route: (string, string)): nat
    requires shards > 0
  {
    hash(route.0, route.1) % shards
  }

  /** shardFromAgent reads the column first and falls back to the metadata when it trims to nothing. */
  function SubmittedRoute(a: Agent): (string, string) {
    var ns := TrimSpace(a.namespaceId);
    (if ns != "" then ns else TrimSpace(MetaValue(a, NAMESPACE)), TrimSpace(QueueValue(a)))
  }

  function DropOrSet(m: map<string, string>, name: string, value: Option<string>): map<string, string> {
    if value.Some? then m[name := value.value] else m - {name}
  }

  /** normalizeAgentMetadata: namespace in column and metadata, creation, queue and lease times in metadata. */
  function Normalized(a: Agent): Agent {
    var ns := if a.namespaceId != "" then a.namespaceId else TrimSpace(MetaValue(a, NAMESPACE));
    var named := if a.namespaceId != "" then a.metadata[NAMESPACE := a.namespaceId] else a.metadata;
    var created := named[CREATED := FormatInt(a.createdAt)];
    var queued := if TrimSpace(QueueValue(a)) != "" && (QUEUE_CREATED !in created || TrimSpace(created[QUEUE_CREATED]) == "")
                  then created[QUEUE_CREATED := FormatInt(a.createdAt)] else created;
    var leased := DropOrSet(queued, LEASE_UNTIL, if a.leaseUntil.Some? then Some(FormatInt(a.leaseUntil.value)) else None);
    a.(namespaceId := ns, metadata := leased)
  }

  /** Every agent with a home is on its home shard; with several shards every agent has a namespace. */
  ghost predicate Placed(hash: Hash, c: Cluster) {
    && c != []
    && (forall i, id | 0 <= i < |c| && id in c[i] && Routable(Route(c[i][id])) :: Target(hash, |c|, Route(c[i][id])) == i)
    && (|c| > 1 ==> forall i, id | 0 <= i < |c| && id in c[i] :: NamespaceValue(c[i][id]) != "")
  }

  lemma {:induction false} TrimLeftTwice(s: string)
    ensures TrimLeft(TrimLeft(s)) == TrimLeft(s)
  {
    if s != [] && IsSpace(s[0]) {
      TrimLeftTwice(s[1..]);
    }
  }

  lemma {:induction false} TrimRightSpec(s: string)
    ensures TrimRight(s) <= s
    ensures TrimRight(s) == "" || !IsSpace(TrimRight(s)[|TrimRight(s)| - 1])
  {
    if s != [] && IsSpace(s[|s| - 1]) {
      TrimRightSpec(s[..|s| - 1]);
    }
  }

  lemma {:induction false} TrimLeftSpec(s: string)
    ensures TrimLeft(s) == "" || !IsSpace(TrimLeft(s)[0])
  {
    if s != [] && IsSpace(s[0]) {
      TrimLeftSpec(s[1..]);
    }
  }

  lemma TrimTwice(s: string)
    ensures TrimSpace(TrimSpace(s)) == TrimSpace(s)
  {
    TrimLeftSpec(s);
    TrimRightSpec(TrimLeft(s));
  }

  lemma KeysApart()
    ensures QUEUE !in {NAMESPACE, CREATED, QUEUE_CREATED, LEASE_UNTIL}
    ensures NAMESPACE !in {CREATED, QUEUE_CREATED, LEASE_UNTIL}
  {
    assert |QUEUE| == 5 && |NAMESPACE| == 12 && |CREATED| == 12 && |QUEUE_CREATED| == 16 && |LEASE_UNTIL| == 16;
    assert NAMESPACE[0] == 'n' && CREATED[0] == '_';
  }

  lemma NormalizedRoute(a: Agent)
    ensures QueueValue(Normalized(a)) == QueueValue(a)
    ensures NamespaceValue(Normalized(a)) == if a.namespaceId != "" then a.namespaceId
              else if TrimSpace(MetaValue(a, NAMESPACE)) != "" then TrimSpace(MetaValue(a, NAMESPACE)) else MetaValue(a, NAMESPACE)
  {
    KeysApart();
  }

  /** What is stored is routed as it was submitted, or lost its home when the column was blank. */
  lemma StoredRoute(a: Agent)
    requires Routable(SubmittedRoute(a))
    ensures Routable(Route(Normalized(a))) ==> Route(Normalized(a)) == SubmittedRoute(a)
    ensures NamespaceValue(Normalized(a)) != ""
  {
    NormalizedRoute(a);
    TrimTwice(MetaValue(a, NAMESPACE));
  }

  datatype Step =
    | OutStep(agent: Agent)
    | UpdateStep(shard: nat, id: string, metadata: map<string, string>, next: Agent)
    | CompleteAndOutStep(shard: nat, id: string, agentId: string, token: string, result: string, outputs: seq<Agent>, now: int)
    | LocalStep(shard: nat, op: Op)

  /** shardFromAgent: an unsharded store takes everything; a sharded one refuses what has no home. */
  ghost function HomeOf(hash: Hash, c: Cluster, a: Agent): (home: Option<nat>)
    requires c != []
    ensures home.Some? ==> home.value < |c|
  {
    if |c| == 1 then Some(0)
    else if Routable(SubmittedRoute(a)) then Some(Target(hash, |c|, SubmittedRoute(a)))
    else None
  }

  /** The guard of UpdateAndGet against moving an agent to another queue. */
  predicate MovesQueue(current: Agent, metadata: map<string, string>) {
    QUEUE in metadata && TrimSpace(metadata[QUEUE]) != "" && TrimSpace(metadata[QUEUE]) != QueueValue(current)
  }

  /** The updated record, given the merged metadata; other fields are whatever the update made of them. */
  function Updated(current: Agent, metadata: map<string, string>, next: Agent): Agent {
    Normalized(next.(id := current.id, namespaceId := Decoded(current).namespaceId, metadata := current.metadata + metadata))
  }

  ghost function TakeStep(hash: Hash, c: Cluster, step: Step): (next: Cluster)
    requires c != []
    ensures |next| == |c|
  {
    match step
    case OutStep(a) =>
      var home := HomeOf(hash, c, a);
      if home.None? then c else c[home.value := Apply(c[home.value], OutOp(Normalized(a))).agents]
    case UpdateStep(i, id, metadata, next) =>
      if i >= |c| || id !in c[i] || (|c| > 1 && MovesQueue(c[i][id], metadata)) then c
      else c[i := Apply(c[i], UpdateOp(id, Updated(c[i][id], metadata, next))).agents]
    case CompleteAndOutStep(i, id, agentId, token, result, outputs, now) =>
      if i >= |c| || id !in c[i] then c
      else
        var outs := ForParent(outputs, Decoded(c[i][id]));
        if exists k :: 0 <= k < |outs| && HomeOf(hash, c, outs[k]) != Some(i) then c
        else c[i := Apply(c[i], CompleteAndOutOp(id, agentId, token, result, outs, now)).agents]
    case LocalStep(i, op) =>
      if i >= |c| || !IsLocal(op) then c
      else c[i := Apply(c[i], op).agents]
  }

  /** Outputs take what they leave empty from the completed agent, and are normalised before they are routed. */
  function ForParent(outputs: seq<Agent>, parent: Agent): (r: seq<Agent>)
    ensures |r| == |outputs|
  {
    seq(|outputs|, k requires 0 <= k < |outputs| => Normalized(InheritedFrom(outputs[k], parent)))
  }

  function InheritedFrom(out: Agent, parent: Agent): Agent {
    out.(parentId := if out.parentId == "" then parent.id else out.parentId,
         traceId := if out.traceId == "" then parent.traceId else out.traceId,
         namespaceId := if out.namespaceId == "" then parent.namespaceId else out.namespaceId)
  }

  /** An agent that may stay on shard `i` of `n`. */
  ghost predicate AtHome(hash: Hash, n: nat, i: nat, a: Agent)
    requires n > 0
  {
    && (Routable(Route(a)) ==> Target(hash, n, Route(a)) == i)
    && (n > 1 ==> NamespaceValue(a) != "")
  }

  ghost predicate AllAtHome(hash: Hash, n: nat, i: nat, agents: Records)
    requires n > 0
  {
    forall id | id in agents :: AtHome(hash, n, i, agents[id])
  }

  lemma PlacedIsAllAtHome(hash: Hash, c: Cluster)
    ensures Placed(hash, c) <==> c != [] && forall i | 0 <= i < |c| :: AllAtHome(hash, |c|, i, c[i])
  {
    if c != [] && forall i | 0 <= i < |c| :: AllAtHome(hash, |c|, i, c[i]) {
      forall i, id | 0 <= i < |c| && id in c[i] ensures AtHome(hash, |c|, i, c[i][id]) {
        assert AllAtHome(hash, |c|, i, c[i]);
      }
    }
  }

  lemma SubmittedAtHome(hash: Hash, c: Cluster, a: Agent, i: nat)
    requires c != [] && HomeOf(hash, c, a) == Some(i)
    ensures AtHome(hash, |c|, i, Normalized(a))
  {
    if |c| > 1 {
      StoredRoute(a);
    }
  }

  lemma UpdatedAtHome(hash: Hash, n: nat, i: nat, current: Agent, metadata: map<string, string>, next: Agent)
    requires n > 0 && i < n && AtHome(hash, n, i, current) && (n > 1 ==> !MovesQueue(current, metadata))
    ensures AtHome(hash, n, i, Updated(current, metadata, next))
  {
    var merged := next.(id := current.id, namespaceId := Decoded(current).namespaceId, metadata := current.metadata + metadata);
    NormalizedRoute(merged);
    if n > 1 && QUEUE in metadata {
      TrimTwice(metadata[QUEUE]);
    }
  }

  lemma {:induction false} OutAllAtHome(hash: Hash, n: nat, i: nat, agents: Records, outputs: seq<Agent>)
    requires n > 0 && AllAtHome(hash, n, i, agents) && forall k | 0 <= k < |outputs| :: AtHome(hash, n, i, outputs[k])
    ensures AllAtHome(hash, n, i, OutAll(agents, outputs))
    decreases |outputs|
  {
    if outputs != [] {
      OutAllAtHome(hash, n, i, agents[outputs[0].id := outputs[0]], outputs[1..]);
    }
  }

  lemma CompleteAndOutRecords(agents: Records, id: string, agentId: string, token: string, result: string,
                              outputs: seq<Agent>, now: int)
    ensures var after := Apply(agents, CompleteAndOutOp(id, agentId, token, result, outputs, now)).agents;
            || after == agents
            || (id in agents && after == OutAll(agents[id := CompletedBy(agents[id], agentId, token, result, now)], outputs))
  {
  }

  /** What is routed after it was normalised is at home as it is. */
  lemma RoutedAtHome(hash: Hash, c: Cluster, a: Agent, i: nat)
    requires c != [] && HomeOf(hash, c, a) == Some(i)
    ensures AtHome(hash, |c|, i, a)
  {
  }

  lemma CompletedAtHome(hash: Hash, n: nat, i: nat, a: Agent, owner: string, token: string, result: string, now: int)
    requires n > 0 && AtHome(hash, n, i, a)
    ensures AtHome(hash, n, i, CompletedBy(a, owner, token, result, now))
  {
    RewriteKeepsPlace(a, owner, token, result, now, 0, None);
  }

  lemma CompleteAndOutAtHome(hash: Hash, c: Cluster, i: nat, id: string, agentId: string, token: string, result: string,
                             outputs: seq<Agent>, now: int)
    requires i < |c| && AllAtHome(hash, |c|, i, c[i])
    requires forall k | 0 <= k < |outputs| :: HomeOf(hash, c, outputs[k]) == Some(i)
    ensures AllAtHome(hash, |c|, i, Apply(c[i], CompleteAndOutOp(id, agentId, token, result, outputs, now)).agents)
  {
    forall k | 0 <= k < |outputs| ensures AtHome(hash, |c|, i, outputs[k]) {
      RoutedAtHome(hash, c, outputs[k], i);
    }
    hide AtHome, Apply, HomeOf;
    CompleteAndOutRecords(c[i], id, agentId, token, result, outputs, now);
    if id in c[i] {
      CompletedAtHome(hash, |c|, i, c[i][id], agentId, token, result, now);
      OutAllAtHome(hash, |c|, i, c[i][id := CompletedBy(c[i][id], agentId, token, result, now)], outputs);
    }
  }

  lemma OutAtHome(hash: Hash, c: Cluster, i: nat, a: Agent)
    requires i < |c| && AllAtHome(hash, |c|, i, c[i]) && HomeOf(hash, c, a) == Some(i)
    ensures AllAtHome(hash, |c|, i, Apply(c[i], OutOp(Normalized(a))).agents)
  {
    hide AtHome, Normalized;
    SubmittedAtHome(hash, c, a, i);
  }

  lemma UpdateAtHome(hash: Hash, c: Cluster, i: nat, id: string, metadata: map<string, string>, next: Agent)
    requires i < |c| && AllAtHome(hash, |c|, i, c[i]) && id in c[i] && (|c| > 1 ==> !MovesQueue(c[i][id], metadata))
    ensures AllAtHome(hash, |c|, i, Apply(c[i], UpdateOp(id, Updated(c[i][id], metadata, next))).agents)
  {
    hide AtHome, Updated, MovesQueue;
    UpdatedAtHome(hash, |c|, i, c[i][id], metadata, next);
  }

  lemma LocalAtHome(hash: Hash, c: Cluster, i: nat, op: Op)
    requires i < |c| && AllAtHome(hash, |c|, i, c[i]) && IsLocal(op)
    ensures AllAtHome(hash, |c|, i, Apply(c[i], op).agents)
  {
    hide Apply, NamespaceValue, QueueValue, QueueScore, CreatedScore;
    LocalKeepsPlaces(c[i], op);
  }

  /** Every step of the sharded store keeps every agent on its home shard. */
  lemma StepKeepsPlacement(hash: Hash, c: Cluster, step: Step)
    requires Placed(hash, c)
    ensures Placed(hash, TakeStep(hash, c, step))
  {
    hide Placed, AllAtHome, Apply, Normalized, ForParent, Updated, MovesQueue, HomeOf;
    PlacedIsAllAtHome(hash, c);
    var c' := TakeStep(hash, c, step);
    match step {
      case OutStep(a) =>
        var home := HomeOf(hash, c, a);
        if home.Some? {
          OutAtHome(hash, c, home.value, a);
        }
      case UpdateStep(i, id, metadata, next) =>
        if i < |c| && id in c[i] && (|c| > 1 ==> !MovesQueue(c[i][id], metadata)) {
          UpdateAtHome(hash, c, i, id, metadata, next);
        }
      case CompleteAndOutStep(i, id, agentId, token, result, outputs, now) =>
        if i < |c| && id in c[i] {
          var outs := ForParent(outputs, Decoded(c[i][id]));
          if forall k | 0 <= k < |outs| :: HomeOf(hash, c, outs[k]) == Some(i) {
            CompleteAndOutAtHome(hash, c, i, id, agentId, token, result, outs, now);
          }
        }
      case LocalStep(i, op) =>
        if i < |c| && IsLocal(op) {
          LocalAtHome(hash, c, i, op);
        }
    }
    assert forall i | 0 <= i < |c'| :: AllAtHome(hash, |c|, i, c'[i]);
    PlacedIsAllAtHome(hash, c');
  }

  ghost function TakeSteps(hash: Hash, c: Cluster, steps: seq<Step>): (r: Cluster)
    requires c != []
    ensures |r| == |c|
    decreases |steps|
  {
    if steps == [] then c else TakeSteps(hash, TakeStep(hash, c, steps[0]), steps[1..])
  }

  lemma {:induction false} StepsKeepPlacement(hash: Hash, c: Cluster, steps: seq<Step>)
    requires Placed(hash, c)
    ensures Placed(hash, TakeSteps(hash, c, steps))
    decreases |steps|
  {
    if steps != [] {
      StepKeepsPlacement(hash, c, steps[0]);
      StepsKeepPlacement(hash, TakeStep(hash, c, steps[0]), steps[1..]);
    }
  }

  ghost function NoAgents(shards: nat): Cluster {
    seq(shards, _ => map[])
  }

  /** However a sharded store was used since it was empty, every agent is on its home shard. */
  lemma ReachableIsPlaced(hash: Hash, shards: nat, steps: seq<Step>)
    requires shards > 0
    ensures Placed(hash, TakeSteps(hash, NoAgents(shards), steps))
  {
    StepsKeepPlacement(hash, NoAgents(shards), steps);
  }

  /** The answer of a query sent to every shard. */
  ghost function FanOut(c: Cluster, query: Option<Query>, now: int): seq<Agent> {
    Paged(StableSort(Flatten(Answers(c, query, now)), AgentKey), query)
  }

  ghost function Answers(c: Cluster, query: Option<Query>, now: int): seq<seq<Agent>> {
    if c == [] then [] else [ShardAnswer(c[0], query, now)] + Answers(c[1..], query, now)
  }

  lemma {:induction false} AnswersOfOne(c: Cluster, query: Option<Query>, now: int, t: nat)
    requires t < |c| && forall i | 0 <= i < |c| && i != t :: Matching(c[i], query, now) == {}
    ensures Flatten(Answers(c, query, now)) == ShardAnswer(c[t], query, now)
  {
    var rest := c[1..];
    if t == 0 {
      NoAnswers(rest, query, now);
    } else {
      AnswersOfOne(rest, query, now, t - 1);
      ListingSpec(Matching(c[0], query, now), AgentKey);
    }
  }

  lemma {:induction false} NoAnswers(c: Cluster, query: Option<Query>, now: int)
    requires forall i | 0 <= i < |c| :: Matching(c[i], query, now) == {}
    ensures Flatten(Answers(c, query, now)) == []
  {
    if c != [] {
      ListingSpec(Matching(c[0], query, now), AgentKey);
      NoAnswers(c[1..], query, now);
    }
  }

  function QueryRoute(q: Query): (string, string) {
    (TrimSpace(q.namespaceId), TrimSpace(if QUEUE in q.metadata then q.metadata[QUEUE] else ""))
  }

  lemma MatchSharesRoute(a: Agent, q: Query)
    requires Matches(Decoded(a), Some(q)) && Routable(QueryRoute(q))
    ensures Route(a) == QueryRoute(q)
  {
    TrimOfEmpty();
    assert QUEUE != AGENT_ID by { assert |QUEUE| == 5 && |AGENT_ID| == 8; }
  }

  lemma TrimOfEmpty()
    ensures TrimSpace("") == ""
  {
  }

  /**
   * On a placed cluster a query that names namespace and queue finds on its one shard exactly what a
   * query of every shard would find.
   */
  lemma RoutedQueryIsFanOut(hash: Hash, c: Cluster, q: Query, now: int)
    requires Placed(hash, c) && Routable(QueryRoute(q))
    ensures Paged(ShardAnswer(c[Target(hash, |c|, QueryRoute(q))], Some(q), now), Some(q)) == FanOut(c, Some(q), now)
  {
    var t := Target(hash, |c|, QueryRoute(q));
    forall i | 0 <= i < |c| && i != t ensures Matching(c[i], Some(q), now) == {} {
      forall id | id in c[i] ensures !Visible(c[i][id], Some(q), now) {
        if Visible(c[i][id], Some(q), now) {
          MatchSharesRoute(c[i][id], q);
        }
      }
    }
    AnswersOfOne(c, Some(q), now, t);
    ListingSpec(Matching(c[t], Some(q), now), AgentKey);
    SortOfSorted(ShardAnswer(c[t], Some(q), now), AgentKey);
  }

  lemma NothingMatches(query: Option<Query>, now: int)
    ensures Enumerates([], Matching(map[], query, now)) && OwnIds(map[])
  {
  }

  lemma {:induction false} AnswersEnumerate(c: Cluster, query: Option<Query>, now: int)
    requires Disjoint(c) && forall i | 0 <= i < |c| :: OwnIds(c[i])
    ensures Enumerates(Flatten(Answers(c, query, now)), Matching(Union(c), query, now))
    ensures OwnIds(Union(c)) && forall id :: id in Union(c) ==> exists i :: 0 <= i < |c| && id in c[i]
  {
    hide Matching, Enumerates, OwnIds;
    if c == [] {
      NothingMatches(query, now);
    } else {
      var rest := c[1..];
      AnswersEnumerate(rest, query, now);
      ListingSpec(Matching(c[0], query, now), AgentKey);
      assert c[0].Keys !! Union(rest).Keys by {
        forall id | id in Union(rest) ensures id !in c[0] {
          var i :| 0 <= i < |rest| && id in rest[i];
          assert c[0].Keys !! c[i + 1].Keys;
        }
      }
      EnumerateApart(c[0], Union(rest), query, now,
                     ShardAnswer(c[0], query, now), Flatten(Answers(rest, query, now)));
      forall id | id in Union(c) ensures exists i :: 0 <= i < |c| && id in c[i] {
        if id !in c[0] {
          var i :| 0 <= i < |rest| && id in rest[i];
          assert id in c[i + 1];
        }
      }
    }
  }

  lemma EnumerateApart(a: Records, b: Records, query: Option<Query>, now: int, s: seq<Agent>, t: seq<Agent>)
    requires a.Keys !! b.Keys && OwnIds(a) && OwnIds(b)
    requires Enumerates(s, Matching(a, query, now)) && Enumerates(t, Matching(b, query, now))
    ensures Enumerates(s + t, Matching(b + a, query, now)) && OwnIds(b + a)
  {
    MatchingUnion(a, b, query, now);
    EnumeratesConcat(s, Matching(a, query, now), t, Matching(b, query, now));
  }

  lemma MatchingUnion(a: Records, b: Records, query: Option<Query>, now: int)
    requires a.Keys !! b.Keys && OwnIds(a) && OwnIds(b)
    ensures Matching(b + a, query, now) == Matching(a, query, now) + Matching(b, query, now)
    ensures Matching(a, query, now) !! Matching(b, query, now)
  {
    var u := b + a;
    forall x | x in Matching(a, query, now) ensures x in Matching(u, query, now) && x.id in a {
      var id :| id in a && Visible(a[id], query, now) && x == Decoded(a[id]);
      assert u[id] == a[id];
    }
    forall x | x in Matching(b, query, now) ensures x in Matching(u, query, now) && x.id in b {
      var id :| id in b && Visible(b[id], query, now) && x == Decoded(b[id]);
      assert u[id] == b[id];
    }
  }

  /** Asking every shard and merging is asking one store that holds everything. */
  lemma FanOutIsOneStore(c: Cluster, query: Option<Query>, now: int)
    requires Disjoint(c) && forall i | 0 <= i < |c| :: OwnIds(c[i])
    ensures FanOut(c, query, now) == Paged(ShardAnswer(Union(c), query, now), query)
  {
    hide Matching, ShardAnswer, Answers, Enumerates, OwnIds, Disjoint, Paged, Union;
    AnswersEnumerate(c, query, now);
    SortedAnswers(Flatten(Answers(c, query, now)), Union(c), query, now);
  }

  lemma SortedAnswers(all: seq<Agent>, agents: Records, query: Option<Query>, now: int)
    requires OwnIds(agents) && Enumerates(all, Matching(agents, query, now))
    ensures StableSort(all, AgentKey) == ShardAnswer(agents, query, now)
  {
    SortIsListing(all, Matching(agents, query, now), AgentKey);
  }

  // ----- Ids -----

  /** An id never seen in the cluster. */
  ghost predicate FreshId(c: Cluster, id: string) {
    forall i | 0 <= i < |c| :: id !in c[i]
  }

  /** The supply hands out each id once: submits and outputs bring new ones. */
  ghost predicate FreshStep(c: Cluster, step: Step) {
    && (step.OutStep? ==> FreshId(c, step.agent.id))
    && (step.CompleteAndOutStep? ==> forall k | 0 <= k < |step.outputs| :: FreshId(c, step.outputs[k].id))
  }

  ghost predicate FreshSteps(hash: Hash, c: Cluster, steps: seq<Step>)
    requires c != []
    decreases |steps|
  {
    steps == [] || (FreshStep(c, steps[0]) && FreshSteps(hash, TakeStep(hash, c, steps[0]), steps[1..]))
  }

  /** Every record is filed under its own id, and no id is on two shards. */
  ghost predicate IdsOk(c: Cluster) {
    Disjoint(c) && forall i | 0 <= i < |c| :: OwnIds(c[i])
  }

  /** A shard may be replaced by one that adds only new ids. */
  lemma ReplaceShard(c: Cluster, i: nat, after: Records)
    requires i < |c| && IdsOk(c) && OwnIds(after) && forall id | id in after :: id in c[i] || FreshId(c, id)
    ensures IdsOk(c[i := after])
  {
    hide OwnIds;
    var c' := c[i := after];
    forall j, k | 0 <= j < k < |c'| ensures c'[j].Keys !! c'[k].Keys {
      if j == i || k == i {
        var other := if j == i then k else j;
        forall id | id in after ensures id !in c[other] {
          if id in c[i] {
            assert c[j].Keys !! c[k].Keys;
          }
        }
      }
    }
  }

  lemma {:induction false} OutAllIds(agents: Records, outputs: seq<Agent>)
    requires OwnIds(agents)
    ensures var after := OutAll(agents, outputs);
            OwnIds(after) && forall id | id in after :: id in agents || exists k :: 0 <= k < |outputs| && outputs[k].id == id
    decreases |outputs|
  {
    if outputs != [] {
      OutAllIds(agents[outputs[0].id := outputs[0]], outputs[1..]);
      forall id | id in OutAll(agents, outputs) && id !in agents ensures exists k :: 0 <= k < |outputs| && outputs[k].id == id {
        if id != outputs[0].id {
          var k :| 0 <= k < |outputs[1..]| && outputs[1..][k].id == id;
          assert outputs[k + 1].id == id;
        }
      }
    }
  }

  lemma CompleteAndOutIds(agents: Records, id: string, agentId: string, token: string, result: string, outputs: seq<Agent>, now: int)
    requires OwnIds(agents)
    ensures var after := Apply(agents, CompleteAndOutOp(id, agentId, token, result, outputs, now)).agents;
            OwnIds(after) && forall x | x in after :: x in agents || exists k :: 0 <= k < |outputs| && outputs[k].id == x
  {
    CompleteAndOutRecords(agents, id, agentId, token, result, outputs, now);
    hide Apply;
    if id in agents {
      OutAllIds(agents[id := CompletedBy(agents[id], agentId, token, result, now)], outputs);
    }
  }

  lemma ForParentIds(outputs: seq<Agent>, parent: Agent)
    ensures forall k | 0 <= k < |outputs| :: ForParent(outputs, parent)[k].id == outputs[k].id
  {
  }

  lemma UpdateIds(agents: Records, id: string, metadata: map<string, string>, next: Agent)
    requires OwnIds(agents) && id in agents
    ensures var after := Apply(agents, UpdateOp(id, Updated(agents[id], metadata, next))).agents;
            OwnIds(after) && after.Keys == agents.Keys
  {
  }

  /** Every step with fresh ids keeps ids apart. */
  lemma StepKeepsIds(hash: Hash, c: Cluster, step: Step)
    requires c != [] && IdsOk(c) && FreshStep(c, step)
    ensures IdsOk(TakeStep(hash, c, step))
  {
    hide Apply, Updated, ForParent, MovesQueue, HomeOf, Normalized, Decoded, Disjoint;
    match step {
      case OutStep(a) =>
        var home := HomeOf(hash, c, a);
        if home.Some? {
          OutIds(c[home.value], a);
          ReplaceShard(c, home.value, Apply(c[home.value], OutOp(Normalized(a))).agents);
        }
      case UpdateStep(i, id, metadata, next) =>
        if i < |c| && id in c[i] {
          UpdateIds(c[i], id, metadata, next);
          ReplaceShard(c, i, Apply(c[i], UpdateOp(id, Updated(c[i][id], metadata, next))).agents);
        }
      case CompleteAndOutStep(i, id, agentId, token, result, outputs, now) =>
        if i < |c| && id in c[i] {
          var outs := ForParent(outputs, Decoded(c[i][id]));
          ForParentIds(outputs, Decoded(c[i][id]));
          CompleteAndOutIds(c[i], id, agentId, token, result, outs, now);
          ReplaceShard(c, i, Apply(c[i], CompleteAndOutOp(id, agentId, token, result, outs, now)).agents);
        }
      case LocalStep(i, op) =>
        if i < |c| && IsLocal(op) {
          LocalKeepsPlaces(c[i], op);
          ReplaceShard(c, i, Apply(c[i], op).agents);
        }
    }
  }

  lemma OutIds(agents: Records, a: Agent)
    requires OwnIds(agents)
    ensures var after := Apply(agents, OutOp(Normalized(a))).agents;
            OwnIds(after) && forall id | id in after :: id in agents || id == a.id
  {
  }

  lemma {:induction false} StepsKeepIds(hash: Hash, c: Cluster, steps: seq<Step>)
    requires c != [] && IdsOk(c) && FreshSteps(hash, c, steps)
    ensures IdsOk(TakeSteps(hash, c, steps))
    decreases |steps|
  {
    hide IdsOk, FreshStep, TakeStep;
    if steps != [] {
      StepKeepsIds(hash, c, steps[0]);
      StepsKeepIds(hash, TakeStep(hash, c, steps[0]), steps[1..]);
    }
  }

  /**
   * In every cluster reachable from the empty one, a fan-out is the query of one store that holds
   * everything, and so is a query routed to the one shard its namespace and queue select.
   */
  lemma ReachableIsOneStore(hash: Hash, shards: nat, steps: seq<Step>, query: Option<Query>, now: int)
    requires shards > 0 && FreshSteps(hash, NoAgents(shards), steps)
    ensures var c := TakeSteps(hash, NoAgents(shards), steps);
            var whole := Paged(ShardAnswer(Union(c), query, now), query);
            && FanOut(c, query, now) == whole
            && (query.Some? && Routable(QueryRoute(query.value)) ==>
                  Paged(ShardAnswer(c[Target(hash, |c|, QueryRoute(query.value))], query, now), query) == whole)
  {
    hide FanOut, ShardAnswer, Paged, Union, TakeStep, FreshStep, Target, Routable, QueryRoute;
    var c := TakeSteps(hash, NoAgents(shards), steps);
    StepsKeepIds(hash, NoAgents(shards), steps);
    ReachableIsPlaced(hash, shards, steps);
    FanOutIsOneStore(c, query, now);
    if query.Some? && Routable(QueryRoute(query.value)) {
      RoutedQueryIsFanOut(hash, c, query.value, now);
    }
  }

  // ----- What routing and updates do -----

  /** The home shard is the hash's remainder: hashes one apart go to neighbouring shards. */
  lemma TargetByRemainder(hash: Hash, shards: nat, route: (string, string))
    requires shards > 0
    ensures Target(hash, shards, route) < shards
    ensures exists k: nat :: hash(route.0, route.1) == k * shards + Target(hash, shards, route)
  {
    var h := hash(route.0, route.1);
    assert h == h / shards * shards + h % shards;
  }

  /** An update that names no other queue reaches the record; in a sharded store one that does is refused. */
  lemma UpdateReachesRecord(hash: Hash, c: Cluster, i: nat, id: string, metadata: map<string, string>, next: Agent)
    requires i < |c| && id in c[i]
    ensures var c' := TakeStep(hash, c, UpdateStep(i, id, metadata, next));
            if |c| > 1 && QUEUE in metadata && TrimSpace(metadata[QUEUE]) != "" && TrimSpace(metadata[QUEUE]) != QueueValue(c[i][id])
            then c' == c
            else
              && id in c'[i]
              && var a, b := c[i][id], c'[i][id];
                 && b.id == a.id && b.payload == next.payload && b.tags == next.tags && b.kind == next.kind
                 && b.status == next.status && b.owner == next.owner && b.leaseToken == next.leaseToken
                 && (forall k | k in metadata && k !in Reserved() :: Has(b.metadata, k, metadata[k]))
                 && SameExcept(a.metadata, b.metadata, metadata.Keys + Reserved())
  {
  }

  /** The entries normalisation keeps in step with the columns. */
  function Reserved(): set<string> {
    {NAMESPACE, CREATED, QUEUE_CREATED, LEASE_UNTIL}
  }

  predicate SameEntry(a: map<string, string>, b: map<string, string>, key: string) {
    (key in a <==> key in b) && (key in a ==> a[key] == b[key])
  }

  /** Normalisation fills in the namespace and the times the scripts read, and nothing else. */
  lemma NormalizedEffect(a: Agent)
    ensures var b, blank := Normalized(a), QUEUE_CREATED !in a.metadata || TrimSpace(a.metadata[QUEUE_CREATED]) == "";
            && b == a.(namespaceId := b.namespaceId, metadata := b.metadata) && SameExcept(a.metadata, b.metadata, Reserved())
            && (if a.namespaceId != "" then b.namespaceId == a.namespaceId && Has(b.metadata, NAMESPACE, a.namespaceId)
                else b.namespaceId == TrimSpace(MetaValue(a, NAMESPACE)) && SameEntry(a.metadata, b.metadata, NAMESPACE))
            && Has(b.metadata, CREATED, FormatInt(a.createdAt))
            && (if QUEUE in a.metadata && TrimSpace(a.metadata[QUEUE]) != "" && blank
                then Has(b.metadata, QUEUE_CREATED, FormatInt(a.createdAt))
                else SameEntry(a.metadata, b.metadata, QUEUE_CREATED))
            && (if a.leaseUntil.Some? then Has(b.metadata, LEASE_UNTIL, FormatInt(a.leaseUntil.value))
                else LEASE_UNTIL !in b.metadata)
  {
    KeysApart();
    assert CREATED != QUEUE_CREATED && CREATED != LEASE_UNTIL && QUEUE_CREATED != LEASE_UNTIL by {
      assert |CREATED| == 12 && |QUEUE_CREATED| == 16 && |LEASE_UNTIL| == 16 && QUEUE_CREATED[0] == 'q' && LEASE_UNTIL[0] == '_';
    }
    hide FormatInt, TrimSpace;
  }
}
