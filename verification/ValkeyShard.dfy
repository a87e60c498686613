/**
 * One Valkey shard: agent records, their hot projections, index sets and sorted sets, and the ten
 * Lua scripts that keep them. An index set is stored as its (key, member) pairs and a sorted set as
 * scored pairs, so a set that loses its last member is gone, as on the server.
 */
module ValkeyShard {
  import opened Text
  import opened Ordering
  import opened Keys
  import opened Agents
  import opened ValkeyRecords

  datatype Hot = Hot(
    id: string, kind: string, status: Status, namespaceId: string, queue: string, owner: string,
    leaseToken: string, leaseDuration: int, leaseUntil: int, version: int, created: int, queueCreated: int)

  function HotState(a: Agent, id: string, defaultLease: int): Hot {
    Hot(id, a.kind, a.status, NamespaceValue(a), QueueValue(a), a.owner, a.leaseToken,
        LeaseDuration(a, defaultLease), LeaseScore(a), a.version, CreatedScore(a), QueueScore(a))
  }

  function Optional(family: Single, value: string): set<Key> {
    if value == "" then {} else {Of(family, value)}
  }

  function TagKeys(tags: seq<string>): set<Key> {
    set i | 0 <= i < |tags| :: Of(TagIndex, tags[i])
  }

  function MetadataKeys(m: map<string, string>, names: set<string>): set<Key>
    requires names <= m.Keys
  {
    set n | n in names :: MetadataIndex(n, m[n])
  }

  function FieldKeys(a: Agent): set<Key> {
    {Named(AllIndex), Of(StatusIndex, StatusName(a.status))}
    + Optional(KindIndex, a.kind) + Optional(OwnerIndex, a.owner) + Optional(TraceIndex, a.traceId)
    + Optional(ParentIndex, a.parentId) + Optional(NamespaceIndex, NamespaceValue(a))
  }

  /** Every index set an agent belongs to. */
  function IndexKeys(a: Agent): set<Key> {
    FieldKeys(a) + TagKeys(a.tags) + MetadataKeys(a.metadata, a.metadata.Keys)
  }

  function WaitingOrder(a: Agent): Key {
    if QueueValue(a) != "" then QueueOrder(NamespaceValue(a), QueueValue(a)) else Named(NewOrder)
  }

  /** The sorted set an agent belongs to, with its score; a lease without an expiry is in none. */
  function OrderEntry(a: Agent): map<Key, int> {
    if a.status == New then map[WaitingOrder(a) := if QueueValue(a) != "" then QueueScore(a) else CreatedScore(a)]
    else if a.status == InProgress && LeaseScore(a) > 0 then map[Named(LeaseOrder) := LeaseScore(a)]
    else map[]
  }

  function OrderKeysToClear(a: Agent): set<Key> {
    if a.status == New then {WaitingOrder(a)}
    else if a.status == InProgress then {Named(LeaseOrder)}
    else {}
  }

  function Entries(keys: set<Key>, id: string): set<(Key, string)> {
    set k | k in keys :: (k, id)
  }

  function Scored(entry: map<Key, int>, id: string): map<(Key, string), int> {
    map e | e in Entries(entry.Keys, id) :: entry[e.0]
  }

  /** What a scan over the records would put into the index sets. */
  ghost function DerivedSets(agents: Records): set<(Key, string)> {
    set id, k | id in agents && k in IndexKeys(agents[id]) :: (k, id)
  }

  /** What a scan over the records would put into the sorted sets. */
  ghost function DerivedOrders(agents: Records): map<(Key, string), int> {
    map e | e in OrderPairs(agents) :: OrderScore(agents, e)
  }

  ghost function OrderPairs(agents: Records): set<(Key, string)> {
    set id, k | id in agents && k in OrderEntry(agents[id]).Keys :: (k, id)
  }

  function OrderScore(agents: Records, e: (Key, string)): int {
    if e.1 in agents && e.0 in OrderEntry(agents[e.1]) then OrderEntry(agents[e.1])[e.0] else 0
  }

  /**
   * What a scan over the records would put into the hot records. The lease duration of an agent that
   * is not waiting may carry the default of the take that wrote it, here the one found in `hot`.
   */
  ghost function DerivedHot(agents: Records, hot: map<string, Hot>): map<string, Hot> {
    map id | id in agents ::
      HotState(agents[id], id, if agents[id].status == New || id !in hot then 0 else hot[id].leaseDuration)
  }

  ghost predicate OwnIds(agents: Records) {
    forall id | id in agents :: agents[id].id == id
  }

  /** Every derived structure is what the records say: nothing missing, nothing stale, scores right. */
  ghost predicate Exact(agents: Records, hot: map<string, Hot>, sets: set<(Key, string)>, orders: map<(Key, string), int>) {
    && sets == DerivedSets(agents)
    && orders == DerivedOrders(agents)
    && hot == DerivedHot(agents, hot)
    && OwnIds(agents)
  }

  /** Each index set holds exactly the agents whose record names it. */
  ghost predicate Indexed(agents: Records, sets: set<(Key, string)>) {
    forall e :: e in sets <==> e.1 in agents && e.0 in IndexKeys(agents[e.1])
  }

  /** Each sorted set holds exactly the agents that belong to it, with the score their record gives. */
  ghost predicate Scheduled(agents: Records, orders: map<(Key, string), int>) {
    && (forall e :: e in orders <==> e.1 in agents && e.0 in OrderEntry(agents[e.1]))
    && (forall e | e in orders :: orders[e] == OrderEntry(agents[e.1])[e.0])
  }

  lemma IndexedIsDerived(agents: Records, sets: set<(Key, string)>)
    ensures Indexed(agents, sets) <==> sets == DerivedSets(agents)
  {
    var derived := DerivedSets(agents);
    forall e ensures e in derived <==> e.1 in agents && e.0 in IndexKeys(agents[e.1]) {
      assert e == (e.0, e.1);
    }
  }

  lemma ScheduledIsDerived(agents: Records, orders: map<(Key, string), int>)
    ensures Scheduled(agents, orders) <==> orders == DerivedOrders(agents)
  {
    var pairs := OrderPairs(agents);
    forall e ensures e in pairs <==> e.1 in agents && e.0 in OrderEntry(agents[e.1]) {
      assert e == (e.0, e.1);
    }
  }

  function RewrittenSets(agents: Records, sets: set<(Key, string)>, id: string, next: Agent): set<(Key, string)> {
    (if id in agents then sets - Entries(IndexKeys(agents[id]), id) else sets) + Entries(IndexKeys(next), id)
  }

  function RewrittenOrders(agents: Records, orders: map<(Key, string), int>, id: string, next: Agent)
    : map<(Key, string), int>
  {
    (if id in agents then orders - Entries(OrderKeysToClear(agents[id]), id) else orders) + Scored(OrderEntry(next), id)
  }

  lemma RewriteIndexed(agents: Records, sets: set<(Key, string)>, id: string, next: Agent)
    requires Indexed(agents, sets)
    ensures Indexed(agents[id := next], RewrittenSets(agents, sets, id, next))
  {
    var cleared := if id in agents then sets - Entries(IndexKeys(agents[id]), id) else sets;
    var after := RewrittenSets(agents, sets, id, next);
    var agents' := agents[id := next];
    forall e ensures e in after <==> e.1 in agents' && e.0 in IndexKeys(agents'[e.1]) {
      if e.1 == id {
        assert e == (e.0, id);
        assert e !in cleared;
      }
    }
  }

  lemma ClearedOrders(agents: Records, orders: map<(Key, string), int>, id: string)
    requires Scheduled(agents, orders) && id in agents
    ensures var cleared := orders - Entries(OrderKeysToClear(agents[id]), id);
            forall e :: e in cleared <==> e in orders && e.1 != id
  {
    var keys := OrderKeysToClear(agents[id]);
    assert OrderEntry(agents[id]).Keys <= keys;
    forall e | e in orders && e.1 == id ensures e in Entries(keys, id) {
      assert e == (e.0, id);
    }
  }

  lemma RewriteScheduled(agents: Records, orders: map<(Key, string), int>, id: string, next: Agent)
    requires Scheduled(agents, orders)
    ensures Scheduled(agents[id := next], RewrittenOrders(agents, orders, id, next))
  {
    var cleared := if id in agents then orders - Entries(OrderKeysToClear(agents[id]), id) else orders;
    if id in agents {
      ClearedOrders(agents, orders, id);
    }
    assert forall e :: e in cleared <==> e in orders && e.1 != id;
    assert forall e | e in cleared :: cleared[e] == orders[e];
    ScheduledAfter(agents, orders, cleared, id, next, OrderEntry(next));
  }

  lemma ScheduledAfter(agents: Records, orders: map<(Key, string), int>, cleared: map<(Key, string), int>,
                       id: string, next: Agent, entry: map<Key, int>)
    requires Scheduled(agents, orders) && entry == OrderEntry(next)
    requires forall e :: e in cleared <==> e in orders && e.1 != id
    requires forall e | e in cleared :: cleared[e] == orders[e]
    ensures Scheduled(agents[id := next], cleared + Scored(entry, id))
  {
    var after := cleared + Scored(entry, id);
    var agents' := agents[id := next];
    forall e ensures e in after <==> e.1 in agents' && e.0 in OrderEntry(agents'[e.1]) {
      if e.1 == id {
        assert e == (e.0, id);
      }
    }
    forall e | e in after ensures after[e] == OrderEntry(agents'[e.1])[e.0] {
    }
  }

  /** Replacing one record through its indexes keeps every derived structure exact. */
  lemma RewriteExact(agents: Records, hot: map<string, Hot>, sets: set<(Key, string)>, orders: map<(Key, string), int>,
                     id: string, next: Agent, defaultLease: int)
    requires Exact(agents, hot, sets, orders)
    requires next.id == id && (next.status == New ==> defaultLease == 0)
    ensures Exact(agents[id := next], hot[id := HotState(next, id, defaultLease)],
                  RewrittenSets(agents, sets, id, next), RewrittenOrders(agents, orders, id, next))
  {
    hide RewrittenSets, RewrittenOrders, DerivedSets, DerivedOrders, DerivedHot, HotState;
    RewriteSets(agents, id, next);
    RewriteOrders(agents, id, next);
    RewriteProjected(agents, hot, id, next, defaultLease);
  }

  lemma RewriteSets(agents: Records, id: string, next: Agent)
    ensures RewrittenSets(agents, DerivedSets(agents), id, next) == DerivedSets(agents[id := next])
  {
    IndexedIsDerived(agents, DerivedSets(agents));
    RewriteIndexed(agents, DerivedSets(agents), id, next);
    IndexedIsDerived(agents[id := next], RewrittenSets(agents, DerivedSets(agents), id, next));
  }

  lemma RewriteOrders(agents: Records, id: string, next: Agent)
    ensures RewrittenOrders(agents, DerivedOrders(agents), id, next) == DerivedOrders(agents[id := next])
  {
    ScheduledIsDerived(agents, DerivedOrders(agents));
    RewriteScheduled(agents, DerivedOrders(agents), id, next);
    ScheduledIsDerived(agents[id := next], RewrittenOrders(agents, DerivedOrders(agents), id, next));
  }

  lemma LeaseDurationTwice(a: Agent, default: int)
    ensures LeaseDuration(a, LeaseDuration(a, default)) == LeaseDuration(a, default)
  {
  }

  lemma RewriteProjected(agents: Records, hot: map<string, Hot>, id: string, next: Agent, defaultLease: int)
    requires hot == DerivedHot(agents, hot) && (next.status == New ==> defaultLease == 0)
    ensures var hot' := hot[id := HotState(next, id, defaultLease)]; hot' == DerivedHot(agents[id := next], hot')
  {
    var hot' := hot[id := HotState(next, id, defaultLease)];
    var d := hot'[id].leaseDuration;
    LeaseDurationTwice(next, defaultLease);
    hide LeaseDuration;
    assert LeaseDuration(next, d) == d;
  }

  lemma IndexEntries(a: Agent, id: string)
    ensures Entries(IndexKeys(a), id)
         == Entries(FieldKeys(a), id) + Entries(TagKeys(a.tags), id) + Entries(MetadataKeys(a.metadata, a.metadata.Keys), id)
  {
    EntriesUnion(FieldKeys(a) + TagKeys(a.tags), MetadataKeys(a.metadata, a.metadata.Keys), id);
    EntriesUnion(FieldKeys(a), TagKeys(a.tags), id);
  }

  lemma EntriesUnion(k: set<Key>, l: set<Key>, id: string)
    ensures Entries(k + l, id) == Entries(k, id) + Entries(l, id)
  {
  }

  lemma MetadataKeysMore(m: map<string, string>, names: set<string>, n: string)
    requires names <= m.Keys && n in m
    ensures MetadataKeys(m, names + {n}) == MetadataKeys(m, names) + {MetadataIndex(n, m[n])}
  {
  }

  /** One sorted set, member to score. */
  function SortedSet(orders: map<(Key, string), int>, k: Key): map<string, int> {
    map e | e in orders && e.0 == k :: e.1 := orders[e]
  }

  lemma SortedSetMember(orders: map<(Key, string), int>, k: Key, id: string)
    ensures id in SortedSet(orders, k) <==> (k, id) in orders
    ensures (k, id) in orders ==> SortedSet(orders, k)[id] == orders[(k, id)]
  {
  }

  lemma ScheduledMember(agents: Records, k: Key, id: string)
    ensures (k, id) in DerivedOrders(agents) <==> id in agents && k in OrderEntry(agents[id])
    ensures (k, id) in DerivedOrders(agents) ==> DerivedOrders(agents)[(k, id)] == OrderEntry(agents[id])[k]
  {
    ScheduledIsDerived(agents, DerivedOrders(agents));
  }

  lemma QueueSetIsScan(agents: Records, ns: string, queue: string)
    ensures SortedSet(DerivedOrders(agents), QueueOrder(ns, queue)) == QueueScores(agents, ns, queue)
  {
    hide DerivedOrders, SortedSet;
    var k, orders := QueueOrder(ns, queue), DerivedOrders(agents);
    var s, q := SortedSet(orders, k), QueueScores(agents, ns, queue);
    forall id ensures (id in s <==> id in q) && (id in s ==> s[id] == q[id]) {
      SortedSetMember(orders, k, id);
      ScheduledMember(agents, k, id);
    }
  }

  lemma LeaseSetIsScan(agents: Records)
    ensures SortedSet(DerivedOrders(agents), Named(LeaseOrder)) == LeaseScores(agents)
  {
    hide DerivedOrders, SortedSet;
    var k, orders := Named(LeaseOrder), DerivedOrders(agents);
    var s, q := SortedSet(orders, k), LeaseScores(agents);
    forall id ensures (id in s <==> id in q) && (id in s ==> s[id] == q[id]) {
      SortedSetMember(orders, k, id);
      ScheduledMember(agents, k, id);
    }
  }

  /** The global order holds the waiting agents that name no queue. */
  lemma NewSetIsScan(agents: Records)
    ensures SortedSet(DerivedOrders(agents), Named(NewOrder))
         == map id | id in agents && agents[id].status == New && QueueValue(agents[id]) == "" :: CreatedScore(agents[id])
  {
    hide DerivedOrders, SortedSet;
    var k, orders := Named(NewOrder), DerivedOrders(agents);
    var s := SortedSet(orders, k);
    var q := map id | id in agents && agents[id].status == New && QueueValue(agents[id]) == "" :: CreatedScore(agents[id]);
    forall id ensures (id in s <==> id in q) && (id in s ==> s[id] == q[id]) {
      SortedSetMember(orders, k, id);
      ScheduledMember(agents, k, id);
    }
  }

  /** A queue member that the take scripts would drop instead of claiming. */
  predicate Stale(agents: Records, hot: map<string, Hot>, id: string, ns: string, queue: string) {
    id !in hot || id !in agents || hot[id].status != New || hot[id].queue != queue || hot[id].namespaceId != ns
  }

  class Shard {
    var agents: Records
    var hot: map<string, Hot>
    var sets: set<(Key, string)>
    var orders: map<(Key, string), int>

    ghost predicate Valid()
      reads this
    {
      Exact(agents, hot, sets, orders)
    }

    constructor ()
      ensures Valid() && agents == map[]
    {
      agents, hot, sets, orders := map[], map[], {}, map[];
    }

    /** remove_indexes, fields: one SREM per non-empty field. */
    method RemoveFieldIndexes(a: Agent, id: string)
      modifies this`sets
      ensures sets == old(sets) - Entries(FieldKeys(a), id)
    {
      sets := sets - {(Named(AllIndex), id), (Of(StatusIndex, StatusName(a.status)), id)};
      if a.kind != "" { sets := sets - {(Of(KindIndex, a.kind), id)}; }
      if a.owner != "" { sets := sets - {(Of(OwnerIndex, a.owner), id)}; }
      if a.traceId != "" { sets := sets - {(Of(TraceIndex, a.traceId), id)}; }
      if a.parentId != "" { sets := sets - {(Of(ParentIndex, a.parentId), id)}; }
      if NamespaceValue(a) != "" { sets := sets - {(Of(NamespaceIndex, NamespaceValue(a)), id)}; }
    }

    method RemoveTagIndexes(tags: seq<string>, id: string)
      modifies this`sets
      ensures sets == old(sets) - Entries(TagKeys(tags), id)
    {
      for i := 0 to |tags|
        invariant sets == old(sets) - Entries(TagKeys(tags[..i]), id)
      {
        TagKeysSnoc(tags, i);
        sets := sets - {(Of(TagIndex, tags[i]), id)};
      }
      assert tags[..|tags|] == tags;
    }

    method RemoveMetadataIndexes(m: map<string, string>, id: string)
      modifies this`sets
      ensures sets == old(sets) - Entries(MetadataKeys(m, m.Keys), id)
    {
      var names := {};
      while names != m.Keys
        invariant names <= m.Keys
        invariant sets == old(sets) - Entries(MetadataKeys(m, names), id)
        decreases |m.Keys - names|
      {
        var n :| n in m.Keys - names;
        MetadataKeysMore(m, names, n);
        sets := sets - {(MetadataIndex(n, m[n]), id)};
        names := names + {n};
      }
    }

    method RemoveIndexes(a: Agent, id: string)
      modifies this`sets, this`orders
      ensures sets == old(sets) - Entries(IndexKeys(a), id)
      ensures orders == old(orders) - Entries(OrderKeysToClear(a), id)
    {
      RemoveFieldIndexes(a, id);
      RemoveTagIndexes(a.tags, id);
      RemoveMetadataIndexes(a.metadata, id);
      IndexEntries(a, id);
      if a.status == New {
        if QueueValue(a) != "" {
          orders := orders - {(QueueOrder(NamespaceValue(a), QueueValue(a)), id)};
        } else {
          orders := orders - {(Named(NewOrder), id)};
        }
      }
      if a.status == InProgress {
        orders := orders - {(Named(LeaseOrder), id)};
      }
    }

    /** add_indexes, fields: one SADD per non-empty field. */
    method AddFieldIndexes(a: Agent, id: string)
      modifies this`sets
      ensures sets == old(sets) + Entries(FieldKeys(a), id)
    {
      sets := sets + {(Named(AllIndex), id), (Of(StatusIndex, StatusName(a.status)), id)};
      if a.kind != "" { sets := sets + {(Of(KindIndex, a.kind), id)}; }
      if a.owner != "" { sets := sets + {(Of(OwnerIndex, a.owner), id)}; }
      if a.traceId != "" { sets := sets + {(Of(TraceIndex, a.traceId), id)}; }
      if a.parentId != "" { sets := sets + {(Of(ParentIndex, a.parentId), id)}; }
      if NamespaceValue(a) != "" { sets := sets + {(Of(NamespaceIndex, NamespaceValue(a)), id)}; }
    }

    method AddTagIndexes(tags: seq<string>, id: string)
      modifies this`sets
      ensures sets == old(sets) + Entries(TagKeys(tags), id)
    {
      for i := 0 to |tags|
        invariant sets == old(sets) + Entries(TagKeys(tags[..i]), id)
      {
        TagKeysSnoc(tags, i);
        sets := sets + {(Of(TagIndex, tags[i]), id)};
      }
      assert tags[..|tags|] == tags;
    }

    method AddMetadataIndexes(m: map<string, string>, id: string)
      modifies this`sets
      ensures sets == old(sets) + Entries(MetadataKeys(m, m.Keys), id)
    {
      var names := {};
      while names != m.Keys
        invariant names <= m.Keys
        invariant sets == old(sets) + Entries(MetadataKeys(m, names), id)
        decreases |m.Keys - names|
      {
        var n :| n in m.Keys - names;
        MetadataKeysMore(m, names, n);
        sets := sets + {(MetadataIndex(n, m[n]), id)};
        names := names + {n};
      }
    }

    method AddIndexes(a: Agent, id: string)
      modifies this`sets, this`orders
      ensures sets == old(sets) + Entries(IndexKeys(a), id)
      ensures orders == old(orders) + Scored(OrderEntry(a), id)
    {
      AddFieldIndexes(a, id);
      AddTagIndexes(a.tags, id);
      AddMetadataIndexes(a.metadata, id);
      IndexEntries(a, id);
      AddOrder(a, id);
    }

    method AddOrder(a: Agent, id: string)
      modifies this`orders
      ensures orders == old(orders) + Scored(OrderEntry(a), id)
    {
      if a.status == New {
        if QueueValue(a) != "" {
          orders := orders[(QueueOrder(NamespaceValue(a), QueueValue(a)), id) := QueueScore(a)];
        } else {
          orders := orders[(Named(NewOrder), id) := CreatedScore(a)];
        }
      }
      if a.status == InProgress {
        if LeaseScore(a) > 0 {
          orders := orders[(Named(LeaseOrder), id) := LeaseScore(a)];
        }
      }
    }

    /** Remove the old indexes, persist record and projection, add the new indexes. */
    method Replace(id: string, next: Agent, defaultLease: int)
      modifies this
      ensures agents == old(agents)[id := next]
      ensures hot == old(hot)[id := HotState(next, id, defaultLease)]
      ensures sets == RewrittenSets(old(agents), old(sets), id, next)
      ensures orders == RewrittenOrders(old(agents), old(orders), id, next)
    {
      hide IndexKeys, OrderEntry, OrderKeysToClear, HotState;
      if id in agents {
        RemoveIndexes(agents[id], id);
      }
      agents := agents[id := next];
      hot := hot[id := HotState(next, id, defaultLease)];
      AddIndexes(next, id);
    }

    method Rewrite(id: string, next: Agent, defaultLease: int)
      requires Valid() && next.id == id && (next.status == New ==> defaultLease == 0)
      modifies this
      ensures Valid() && agents == old(agents)[id := next]
    {
      RewriteExact(agents, hot, sets, orders, id, next, defaultLease);
      Replace(id, next, defaultLease);
    }

    method OutScript(a: Agent) returns (code: Code)
      requires Valid()
      modifies this
      ensures Valid() && Outcome(agents, code) == Apply(old(agents), OutOp(a))
    {
      Rewrite(a.id, a, 0);
      code := Created;
    }

    method UpdateScript(id: string, next: Agent) returns (code: Code)
      requires Valid() && next.id == id
      modifies this
      ensures Valid() && Outcome(agents, code) == Apply(old(agents), UpdateOp(id, next))
    {
      hide DerivedSets, DerivedOrders, DerivedHot;
      if id !in agents {
        return NotFound;
      }
      Rewrite(id, next, 0);
      code := Updated;
    }

    method ClaimScript(id: string, agentId: string, token: string, now: int, untilMs: int) returns (code: Code)
      requires Valid()
      modifies this
      ensures Valid() && Outcome(agents, code) == Apply(old(agents), ClaimOp(id, agentId, token, now, untilMs))
    {
      hide DerivedSets, DerivedOrders, DerivedHot;
      if id !in agents {
        return NotFound;
      }
      if agents[id].status != New {
        return StatusChanged;
      }
      Rewrite(id, Claimed(agents[id], agentId, token, now, untilMs, Some(untilMs)), 0);
      code := ClaimedOne;
    }

    method CompleteScript(id: string, agentId: string, token: string, result: string, now: int) returns (code: Code)
      requires Valid()
      modifies this
      ensures Valid() && Outcome(agents, code) == Apply(old(agents), CompleteOp(id, agentId, token, result, now))
    {
      hide DerivedSets, DerivedOrders, DerivedHot;
      if id !in agents {
        return NotFound;
      }
      var current := agents[id];
      if current.status == Completed {
        if MetaValue(current, COMPLETED_TOKEN) == token {
          return AlreadyCompleted;
        }
        return StaleToken;
      }
      var refusal := LeaseRefusal(current, agentId, token);
      if refusal.Some? {
        return refusal.value;
      }
      Rewrite(id, CompletedBy(current, agentId, token, result, now), 0);
      code := CompletedOk;
    }

    method ReleaseScript(id: string, agentId: string, token: string, now: int) returns (code: Code)
      requires Valid()
      modifies this
      ensures Valid() && Outcome(agents, code) == Apply(old(agents), ReleaseOp(id, agentId, token, now))
    {
      hide DerivedSets, DerivedOrders, DerivedHot;
      if id !in agents {
        return NotFound;
      }
      var refusal := LeaseRefusal(agents[id], agentId, token);
      if refusal.Some? {
        return refusal.value;
      }
      Rewrite(id, Released(agents[id], now), 0);
      code := ReleasedOk;
    }

    method RenewScript(id: string, agentId: string, token: string, now: int, untilMs: int) returns (code: Code)
      requires Valid()
      modifies this
      ensures Valid() && Outcome(agents, code) == Apply(old(agents), RenewOp(id, agentId, token, now, untilMs))
    {
      hide DerivedSets, DerivedOrders, DerivedHot;
      if id !in agents {
        return NotFound;
      }
      var refusal := LeaseRefusal(agents[id], agentId, token);
      if refusal.Some? {
        return refusal.value;
      }
      Rewrite(id, Renewed(agents[id], now, untilMs), 0);
      code := RenewedOk;
    }

    method CompleteAndOutScript(id: string, agentId: string, token: string, result: string, outputs: seq<Agent>, now: int)
      returns (code: Code)
      requires Valid()
      modifies this
      ensures Valid()
      ensures Outcome(agents, code) == Apply(old(agents), CompleteAndOutOp(id, agentId, token, result, outputs, now))
    {
      hide DerivedSets, DerivedOrders, DerivedHot;
      if id !in agents {
        return NotFound;
      }
      var refusal := LeaseRefusal(agents[id], agentId, token);
      if refusal.Some? {
        return refusal.value;
      }
      ghost var target := OutAll(agents[id := CompletedBy(agents[id], agentId, token, result, now)], outputs);
      Rewrite(id, CompletedBy(agents[id], agentId, token, result, now), 0);
      for i := 0 to |outputs|
        invariant Valid()
        invariant OutAll(agents, outputs[i..]) == target
      {
        assert outputs[i..][1..] == outputs[i + 1..];
        Rewrite(outputs[i].id, outputs[i], 0);
      }
      code := CompletedAndOut;
    }

    /** ZRANGE key 0 (n-1): the first members by score, ties by member. */
    method ZRange(k: Key, n: nat) returns (ids: seq<string>)
      ensures ids == Take(InOrder(SortedSet(orders, k)), n)
    {
      var scores := SortedSet(orders, k);
      var members := Enumerate(scores.Keys);
      ScoreKeysDistinct(scores, scores.Keys);
      SortIsListing(members, scores.Keys, ScoreKey(scores));
      ids := Take(StableSort(members, ScoreKey(scores)), n);
    }

    /** ZRANGEBYSCORE key -inf max LIMIT 0 n. */
    method ZRangeByScore(k: Key, max: int, n: nat) returns (ids: seq<string>)
      ensures var scores := SortedSet(orders, k);
              ids == Take(InOrder(map id | id in scores && scores[id] <= max :: scores[id]), n)
    {
      var all := SortedSet(orders, k);
      var scores := map id | id in all && all[id] <= max :: all[id];
      var members := Enumerate(scores.Keys);
      ScoreKeysDistinct(scores, scores.Keys);
      SortIsListing(members, scores.Keys, ScoreKey(scores));
      ids := Take(StableSort(members, ScoreKey(scores)), n);
    }

    /**
     * The candidate loop of both take scripts: look at the first sixteen members of the queue, drop
     * stale ones, stop at the first that is not. It makes no assumption about the state.
     */
    method FirstLive(ns: string, queue: string) returns (candidates: seq<string>, pos: nat)
      modifies this`orders
      ensures candidates == Take(InOrder(SortedSet(old(orders), QueueOrder(ns, queue))), 16)
      ensures pos <= |candidates|
      ensures forall j | 0 <= j < pos :: Stale(agents, hot, candidates[j], ns, queue)
      ensures pos < |candidates| ==> !Stale(agents, hot, candidates[pos], ns, queue)
      ensures pos == 0 ==> orders == old(orders)
    {
      candidates := ZRange(QueueOrder(ns, queue), 16);
      pos := 0;
      while pos < |candidates| && Stale(agents, hot, candidates[pos], ns, queue)
        invariant pos <= |candidates|
        invariant forall j | 0 <= j < pos :: Stale(agents, hot, candidates[j], ns, queue)
        invariant pos == 0 ==> orders == old(orders)
      {
        orders := orders - {(QueueOrder(ns, queue), candidates[pos])};
        pos := pos + 1;
      }
    }

    /** On an exact shard the candidate loop drops nothing and stops at the head of the scan. */
    method Head(ns: string, queue: string) returns (head: Option<string>)
      requires Valid()
      modifies this`orders
      ensures orders == old(orders) && head == HeadOf(agents, ns, queue)
      ensures head.Some? ==>
                && head.value in agents && agents[head.value].status == New
                && head.value in hot && hot[head.value] == HotState(agents[head.value], head.value, 0)
    {
      hide DerivedOrders, DerivedSets, DerivedHot, InOrder, SortedSet, HotState;
      HeadCandidate(agents, hot, orders, ns, queue);
      var candidates, pos := FirstLive(ns, queue);
      head := if pos == |candidates| then None else Some(candidates[pos]);
    }

    /** Claim one waiting agent if it is of the wanted kind and owner, judging by its hot record. */
    method ClaimWanted(id: string, r: TakeRequest, token: string) returns (code: Code)
      requires Valid()
      requires id in agents && agents[id].status == New && id in hot && hot[id] == HotState(agents[id], id, 0)
      modifies this
      ensures Valid() && Outcome(agents, code) == ClaimIfWanted(old(agents), id, r, token)
    {
      hide DerivedSets, DerivedOrders, DerivedHot;
      if r.kind != "" && hot[id].kind != r.kind {
        return NotQueueHead;
      }
      if r.owner != "" && hot[id].owner != r.owner {
        return NotQueueHead;
      }
      var lease := hot[id].leaseDuration;
      if lease <= 0 {
        lease := r.defaultLease;
      }
      Rewrite(id, Claimed(agents[id], r.agentId, token, r.now, r.now + lease, None), r.defaultLease);
      code := ClaimedOne;
    }

    /** The body shared by the single and the batch take: claim the first live candidate if it is wanted. */
    method TakeFirst(r: TakeRequest, tokenPrefix: string, tokenOfId: bool) returns (code: Code)
      requires Valid()
      modifies this
      ensures Valid()
      ensures Outcome(agents, code) == TakeHead(old(agents), r, tokenPrefix, tokenOfId)
    {
      hide DerivedSets, DerivedOrders, DerivedHot;
      var head := Head(r.ns, r.queue);
      if head.None? {
        code := Empty;
      } else {
        code := ClaimWanted(head.value, r, TokenFor(tokenPrefix, tokenOfId, head.value));
      }
    }

    method QueueTakeScript(r: TakeRequest, token: string) returns (code: Code)
      requires Valid()
      modifies this
      ensures Valid() && Outcome(agents, code) == Apply(old(agents), QueueTakeOp(r, token))
    {
      hide DerivedSets, DerivedOrders, DerivedHot;
      code := TakeFirst(r, token, false);
    }

    method QueueBatchTakeScript(r: TakeRequest, prefix: string, limit: nat) returns (code: Code)
      requires Valid()
      modifies this
      ensures Valid() && Outcome(agents, code) == TakeBatch(old(agents), r, prefix, 1, limit)
    {
      hide Exact, TakeBatch, TakeHead, BatchPrefix;
      ghost var target := TakeBatch(agents, r, prefix, 1, limit);
      var index := 1;
      code := ClaimedOne;
      while index <= limit && code == ClaimedOne
        invariant Valid() && 1 <= index <= limit + 1
        invariant code == ClaimedOne ==> TakeBatch(agents, r, prefix, index, limit) == target
        invariant code != ClaimedOne ==> Outcome(agents, code) == target
        decreases limit - index, code == ClaimedOne
      {
        TakeBatchStep(agents, r, prefix, index, limit);
        code := TakeFirst(r, BatchPrefix(prefix, index), true);
        if code == ClaimedOne {
          index := index + 1;
        } else if code == Empty {
          code := if index == 1 then Empty else BatchClaimed;
        }
      }
      if code == ClaimedOne {
        TakeBatchEnd(agents, r, prefix, index, limit);
        code := if index == 1 then Empty else BatchClaimed;
      }
    }

    /** End one lease, or drop an entry that names no running lease. */
    method ReapOne(id: string, now: int) returns (ended: nat)
      requires Valid()
      modifies this
      ensures id in old(agents) && old(agents)[id].status == InProgress ==>
                Valid() && agents == old(agents)[id := Released(old(agents)[id], now)] && ended == 1
    {
      ended := 0;
      if id in agents && agents[id].status == InProgress {
        Rewrite(id, Released(agents[id], now), 0);
        ended := 1;
      } else {
        orders := orders - {(Named(LeaseOrder), id)};
      }
    }

    method ExpiredLeases(now: int, batch: nat) returns (ids: seq<string>)
      requires Valid()
      ensures ids == ReapTargets(agents, now, batch)
      ensures NoDuplicates(ids)
      ensures forall i | 0 <= i < |ids| :: ids[i] in agents && agents[ids[i]].status == InProgress
    {
      LeaseSetIsScan(agents);
      ids := ZRangeByScore(Named(LeaseOrder), now, batch);
      ListedMembers(ExpiredScores(agents, now), batch);
    }

    method ReapEach(ids: seq<string>, now: int) returns (count: nat)
      requires Valid() && NoDuplicates(ids)
      requires forall i | 0 <= i < |ids| :: ids[i] in agents && agents[ids[i]].status == InProgress
      modifies this
      ensures Valid() && agents == ReleaseAll(old(agents), ids, now) && count == |ids|
    {
      count := 0;
      ReleaseNone(agents, ids, now);
      for i := 0 to |ids|
        invariant Valid() && count == i
        invariant agents == ReleaseAll(old(agents), ids[..i], now)
      {
        ReleaseOneMore(old(agents), ids, i, now);
        var ended := ReapOne(ids[i], now);
        count := count + ended;
      }
      assert ids[..|ids|] == ids;
    }

    method ReapScript(now: int, batch: nat) returns (code: Code)
      requires Valid()
      modifies this
      ensures Valid() && Outcome(agents, code) == ReapOnce(old(agents), now, batch)
    {
      var ids := ExpiredLeases(now, batch);
      var count := ReapEach(ids, now);
      code := Reaped(count);
    }

    method Execute(op: Op) returns (code: Code)
      requires Valid() && WellFormed(op)
      modifies this
      ensures Valid() && Outcome(agents, code) == Apply(old(agents), op)
    {
      hide DerivedSets, DerivedOrders, DerivedHot;
      match op
      case OutOp(a) => code := OutScript(a);
      case UpdateOp(id, next) => code := UpdateScript(id, next);
      case ClaimOp(id, agentId, token, now, untilMs) => code := ClaimScript(id, agentId, token, now, untilMs);
      case QueueTakeOp(r, token) => code := QueueTakeScript(r, token);
      case QueueBatchTakeOp(r, prefix, limit) => code := QueueBatchTakeScript(r, prefix, limit);
      case CompleteOp(id, agentId, token, result, now) => code := CompleteScript(id, agentId, token, result, now);
      case CompleteAndOutOp(id, agentId, token, result, outputs, now) =>
        code := CompleteAndOutScript(id, agentId, token, result, outputs, now);
      case ReleaseOp(id, agentId, token, now) => code := ReleaseScript(id, agentId, token, now);
      case RenewOp(id, agentId, token, now, untilMs) => code := RenewScript(id, agentId, token, now, untilMs);
      case ReapOp(now, batch) => code := ReapScript(now, batch);
    }

    /**
     * Any sequence of scripts, in any order and with any arguments: the indexes end exact, and the
     * records are those of the scans.
     */
    method Run(ops: seq<Op>)
      requires Valid()
      requires forall i | 0 <= i < |ops| :: WellFormed(ops[i])
      modifies this
      ensures Valid() && agents == ApplyAll(old(agents), ops)
    {
      for i := 0 to |ops|
        invariant Valid() && ApplyAll(agents, ops[i..]) == ApplyAll(old(agents), ops)
      {
        assert ops[i..][1..] == ops[i + 1..];
        var _ := Execute(ops[i]);
      }
    }
  }

  lemma ReleaseNone(agents: Records, ids: seq<string>, now: int)
    ensures ReleaseAll(agents, ids[..0], now) == agents
  {
  }

  lemma ReleaseOneMore(agents: Records, ids: seq<string>, i: nat, now: int)
    requires NoDuplicates(ids) && i < |ids| && ids[i] in agents
    ensures var before := ReleaseAll(agents, ids[..i], now);
            && ids[i] in before && before[ids[i]] == agents[ids[i]]
            && ReleaseAll(agents, ids[..i + 1], now) == before[ids[i] := Released(agents[ids[i]], now)]
  {
    assert ids[..i + 1] == ids[..i] + [ids[i]];
    assert ids[i] !in ids[..i];
  }

  lemma TagKeysSnoc(tags: seq<string>, i: nat)
    requires i < |tags|
    ensures TagKeys(tags[..i + 1]) == TagKeys(tags[..i]) + {Of(TagIndex, tags[i])}
  {
    var s := tags[..i + 1];
    forall k | k in TagKeys(tags[..i]) + {Of(TagIndex, tags[i])} ensures k in TagKeys(s) {
      if k == Of(TagIndex, tags[i]) {
        assert s[i] == tags[i];
      } else {
        var j :| 0 <= j < i && k == Of(TagIndex, tags[..i][j]);
        assert s[j] == tags[..i][j];
      }
    }
    forall k | k in TagKeys(s) ensures k in TagKeys(tags[..i]) + {Of(TagIndex, tags[i])} {
      var j :| 0 <= j < i + 1 && k == Of(TagIndex, s[j]);
      if j < i {
        assert tags[..i][j] == s[j];
      }
    }
  }

  /**
   * With exact indexes and projections the first queue member is the head of the scan and is never
   * stale, so the take scripts never reach the branches that drop a member.
   */
  lemma HeadCandidate(agents: Records, hot: map<string, Hot>, orders: map<(Key, string), int>, ns: string, queue: string)
    requires orders == DerivedOrders(agents) && hot == DerivedHot(agents, hot)
    ensures var candidates := Take(InOrder(SortedSet(orders, QueueOrder(ns, queue))), 16);
            && (candidates == [] ==> HeadOf(agents, ns, queue) == None)
            && (candidates != [] ==>
                  var id := candidates[0];
                  && HeadOf(agents, ns, queue) == Some(id)
                  && !Stale(agents, hot, id, ns, queue)
                  && id in agents && Queued(agents[id], ns, queue) && hot[id] == HotState(agents[id], id, 0))
  {
    QueueSetIsScan(agents, ns, queue);
    ListedMembers(QueueScores(agents, ns, queue), 16);
  }
}
