/** Queries on one Valkey shard: intersect index sets, load, filter, sort. */
module ValkeyQuery {
  import opened Text
  import opened Ordering
  import opened Keys
  import opened Agents
  import opened ValkeyRecords
  import opened ValkeyShard

  /** An agent as read back: namespace and lease expiry are filled in from the metadata. */
  function Decoded(a: Agent): Agent {
    var raw := ToNumber(TrimSpace(MetaValue(a, LEASE_UNTIL)));
    a.(namespaceId := NamespaceValue(a),
       leaseUntil := if a.leaseUntil.None? && raw.Some? && raw.value > 0 then raw else a.leaseUntil)
  }

  predicate IsExpired(a: Agent, now: int) {
    a.ttl > 0 && a.createdAt + a.ttl < now
  }

  predicate Visible(a: Agent, query: Option<Query>, now: int) {
    !IsExpired(a, now) && Matches(Decoded(a), query)
  }

  /** The answer by definition: every unexpired agent that passes the filter. */
  ghost function Matching(agents: Records, query: Option<Query>, now: int): set<Agent> {
    set id | id in agents && Visible(agents[id], query, now) :: Decoded(agents[id])
  }

  ghost function ShardAnswer(agents: Records, query: Option<Query>, now: int): seq<Agent> {
    Listing(Matching(agents, query, now), AgentKey)
  }

  /** The index sets a query consults. */
  function QueryKeys(query: Option<Query>): set<Key> {
    if query.None? then {}
    else
      var q := query.value;
      (if q.status.Some? then {Of(StatusIndex, StatusName(q.status.value))} else {})
      + Optional(KindIndex, q.kind) + Optional(OwnerIndex, q.owner) + Optional(ParentIndex, q.parentId)
      + Optional(TraceIndex, q.traceId) + Optional(NamespaceIndex, q.namespaceId)
      + TagKeys(q.tags) + MetadataKeys(q.metadata, q.metadata.Keys - {AGENT_ID})
  }

  lemma TagsIndexed(a: Agent, tags: seq<string>)
    ensures TagKeys(tags) <= IndexKeys(a) <==> forall i | 0 <= i < |tags| :: tags[i] in a.tags
  {
    if TagKeys(tags) <= IndexKeys(a) {
      forall i | 0 <= i < |tags| ensures tags[i] in a.tags {
        assert Of(TagIndex, tags[i]) in TagKeys(tags);
        assert Of(TagIndex, tags[i]) in TagKeys(a.tags);
      }
    }
    if forall i | 0 <= i < |tags| :: tags[i] in a.tags {
      forall k | k in TagKeys(tags) ensures k in TagKeys(a.tags) {
        var i :| 0 <= i < |tags| && k == Of(TagIndex, tags[i]);
        assert tags[i] in a.tags;
        var j :| 0 <= j < |a.tags| && a.tags[j] == tags[i];
      }
    }
  }

  lemma MetadataIndexed(a: Agent, m: map<string, string>)
    ensures MetadataKeys(m, m.Keys - {AGENT_ID}) <= IndexKeys(a)
       <==> forall k | k in m && k != AGENT_ID :: k in a.metadata && a.metadata[k] == m[k]
  {
    var keys := MetadataKeys(m, m.Keys - {AGENT_ID});
    if keys <= IndexKeys(a) {
      forall k | k in m && k != AGENT_ID ensures k in a.metadata && a.metadata[k] == m[k] {
        assert MetadataIndex(k, m[k]) in keys;
        assert MetadataIndex(k, m[k]) in MetadataKeys(a.metadata, a.metadata.Keys);
      }
    }
  }

  lemma FieldIndexed(a: Agent, family: Single, value: string)
    ensures Optional(family, value) <= IndexKeys(a) <==>
              value == "" ||
              match family
              case KindIndex => a.kind == value
              case OwnerIndex => a.owner == value
              case TraceIndex => a.traceId == value
              case ParentIndex => a.parentId == value
              case NamespaceIndex => NamespaceValue(a) == value
              case StatusIndex => StatusName(a.status) == value
              case TagIndex => value in a.tags
              case _ => false
  {
    if family == TagIndex {
      TagsIndexed(a, [value]);
      assert TagKeys([value]) == {Of(TagIndex, value)} by {
        assert [value][0] == value;
      }
    }
  }

  /** Passing the filter is the same as being in every index set the query consults. */
  lemma MatchIsIndexed(a: Agent, query: Option<Query>)
    ensures Matches(Decoded(a), query) <==> QueryKeys(query) <= IndexKeys(a)
  {
    if query.Some? {
      var q := query.value;
      FieldIndexed(a, KindIndex, q.kind);
      FieldIndexed(a, OwnerIndex, q.owner);
      FieldIndexed(a, TraceIndex, q.traceId);
      FieldIndexed(a, ParentIndex, q.parentId);
      FieldIndexed(a, NamespaceIndex, q.namespaceId);
      if q.status.Some? {
        FieldIndexed(a, StatusIndex, StatusName(q.status.value));
        StatusNameInjective(a.status, q.status.value);
      }
      TagsIndexed(a, q.tags);
      MetadataIndexed(a, q.metadata);
    }
  }

  ghost function Members(sets: set<(Key, string)>, k: Key): set<string> {
    set e | e in sets && e.0 == k :: e.1
  }

  /** SMEMBERS: the members of one index set in no particular order. */
  method SMembers(shard: Shard, k: Key) returns (ids: seq<string>)
    ensures Enumerates(ids, Members(shard.sets, k))
  {
    var members := set e | e in shard.sets && e.0 == k :: e.1;
    ids := Enumerate(members);
  }

  /** The keys in the order the source consults them; metadata entries come in any order. */
  method KeysToConsult(q: Query) returns (keys: seq<Key>)
    ensures forall k :: k in keys <==> k in QueryKeys(Some(q))
  {
    keys := [];
    if q.status.Some? { keys := keys + [Of(StatusIndex, StatusName(q.status.value))]; }
    if q.kind != "" { keys := keys + [Of(KindIndex, q.kind)]; }
    if q.owner != "" { keys := keys + [Of(OwnerIndex, q.owner)]; }
    if q.parentId != "" { keys := keys + [Of(ParentIndex, q.parentId)]; }
    if q.traceId != "" { keys := keys + [Of(TraceIndex, q.traceId)]; }
    if q.namespaceId != "" { keys := keys + [Of(NamespaceIndex, q.namespaceId)]; }
    var tags := TagsToConsult(q.tags);
    var entries := MetadataToConsult(q.metadata);
    keys := keys + tags + entries;
  }

  method TagsToConsult(tags: seq<string>) returns (keys: seq<Key>)
    ensures forall k :: k in keys <==> k in TagKeys(tags)
  {
    keys := [];
    for i := 0 to |tags|
      invariant forall k :: k in keys <==> k in TagKeys(tags[..i])
    {
      TagKeysSnoc(tags, i);
      keys := keys + [Of(TagIndex, tags[i])];
    }
    assert tags[..|tags|] == tags;
  }

  method MetadataToConsult(m: map<string, string>) returns (keys: seq<Key>)
    ensures forall k :: k in keys <==> k in MetadataKeys(m, m.Keys - {AGENT_ID})
  {
    keys := [];
    var rest := m.Keys - {AGENT_ID};
    while rest != {}
      invariant rest <= m.Keys - {AGENT_ID}
      invariant forall k :: k in keys <==> k in MetadataKeys(m, m.Keys - {AGENT_ID} - rest)
    {
      var n :| n in rest;
      MetadataKeysMore(m, m.Keys - {AGENT_ID} - rest, n);
      keys := keys + [MetadataIndex(n, m[n])];
      assert m.Keys - {AGENT_ID} - (rest - {n}) == m.Keys - {AGENT_ID} - rest + {n};
      rest := rest - {n};
    }
  }

  ghost predicate InEvery(sources: seq<seq<string>>, id: string) {
    forall i | 0 <= i < |sources| :: id in sources[i]
  }

  function SizeKey(source: seq<string>): SortKey {
    SortKey(|source|, "")
  }

  lemma InEverySorted(sources: seq<seq<string>>, id: string)
    ensures InEvery(StableSort(sources, SizeKey), id) <==> InEvery(sources, id)
  {
    var sorted := StableSort(sources, SizeKey);
    SortMultiset(sources, SizeKey);
    assert forall s :: s in sorted <==> s in multiset(sorted);
    assert forall s :: s in sources <==> s in multiset(sources);
    if InEvery(sources, id) {
      forall i | 0 <= i < |sorted| ensures id in sorted[i] {
        assert sorted[i] in sorted;
        var j :| 0 <= j < |sources| && sources[j] == sorted[i];
      }
    }
    if InEvery(sorted, id) {
      forall i | 0 <= i < |sources| ensures id in sources[i] {
        assert sources[i] in sources;
        var j :| 0 <= j < |sorted| && sorted[j] == sources[i];
      }
    }
  }

  /** Smallest source first, then narrow by every other source; stop early when nothing is left. */
  method Intersect(sources: seq<seq<string>>) returns (ids: seq<string>)
    requires |sources| > 0
    requires forall i | 0 <= i < |sources| :: NoDuplicates(sources[i])
    ensures NoDuplicates(ids)
    ensures forall id :: id in ids <==> InEvery(sources, id)
  {
    var sorted := StableSort(sources, SizeKey);
    SortSorted(sources, SizeKey);
    forall id ensures InEvery(sorted, id) <==> InEvery(sources, id) {
      InEverySorted(sources, id);
    }
    var allowed := set i | 0 <= i < |sorted[0]| :: sorted[0][i];
    var at := 1;
    while at < |sorted| && allowed != {}
      invariant 1 <= at <= |sorted|
      invariant forall id :: id in allowed <==> InEvery(sorted[..at], id)
    {
      var next := set i | 0 <= i < |sorted[at]| && sorted[at][i] in allowed :: sorted[at][i];
      assert sorted[..at + 1] == sorted[..at] + [sorted[at]];
      forall id ensures id in next <==> InEvery(sorted[..at + 1], id) {
        assert InEvery(sorted[..at + 1], id) <==> InEvery(sorted[..at], id) && id in sorted[at];
      }
      allowed := next;
      at := at + 1;
    }
    if at < |sorted| {
      forall id ensures !InEvery(sorted, id) {
        if InEvery(sorted, id) {
          assert InEvery(sorted[..at], id);
        }
      }
    } else {
      assert sorted[..at] == sorted;
    }
    ids := Enumerate(allowed);
  }

  /** candidateIDsForQuery: on an exact shard, precisely the agents that pass the filter. */
  method CandidateIds(shard: Shard, query: Option<Query>) returns (ids: seq<string>)
    requires shard.Valid()
    ensures Enumerates(ids, set id | id in shard.agents && Matches(Decoded(shard.agents[id]), query))
  {
    forall id ensures id in shard.agents ==>
      (Matches(Decoded(shard.agents[id]), query) <==> QueryKeys(query) <= IndexKeys(shard.agents[id]))
    {
      if id in shard.agents {
        MatchIsIndexed(shard.agents[id], query);
      }
    }
    var keys := [];
    if query.Some? {
      keys := KeysToConsult(query.value);
    }
    if keys == [] {
      ids := SMembers(shard, Named(AllIndex));
      MembersExact(shard.agents, shard.sets, Named(AllIndex));
      assert QueryKeys(query) == {};
    } else {
      ids := Narrow(shard, keys);
      assert forall k :: k in keys <==> k in QueryKeys(query);
    }
  }

  lemma MembersExact(agents: Records, sets: set<(Key, string)>, k: Key)
    requires sets == DerivedSets(agents)
    ensures forall id :: id in Members(sets, k) <==> id in agents && k in IndexKeys(agents[id])
  {
    IndexedIsDerived(agents, sets);
    forall id ensures id in Members(sets, k) <==> (k, id) in sets {
      if (k, id) in sets {
        assert (k, id).0 == k && (k, id).1 == id;
      }
    }
  }

  method Narrow(shard: Shard, keys: seq<Key>) returns (ids: seq<string>)
    requires shard.Valid() && keys != []
    ensures NoDuplicates(ids)
    ensures forall id :: id in ids <==> id in shard.agents && forall k | k in keys :: k in IndexKeys(shard.agents[id])
  {
    var sources := [];
    for i := 0 to |keys|
      invariant |sources| == i
      invariant forall j | 0 <= j < i :: Enumerates(sources[j], Members(shard.sets, keys[j]))
    {
      var members := SMembers(shard, keys[i]);
      sources := sources + [members];
    }
    ids := Intersect(sources);
    forall id ensures InEvery(sources, id) <==>
      id in shard.agents && forall k | k in keys :: k in IndexKeys(shard.agents[id])
    {
      forall j | 0 <= j < |keys|
        ensures id in sources[j] <==> id in shard.agents && keys[j] in IndexKeys(shard.agents[id])
      {
        MembersExact(shard.agents, shard.sets, keys[j]);
      }
      if InEvery(sources, id) {
        assert id in sources[0];
      }
    }
  }

  /** queryShard: load the candidates, skip expired ones, filter again, sort. */
  method QueryShard(shard: Shard, query: Option<Query>, now: int) returns (values: seq<Agent>)
    requires shard.Valid()
    ensures values == ShardAnswer(shard.agents, query, now)
  {
    var ids := CandidateIds(shard, query);
    var filtered := [];
    for i := 0 to |ids|
      invariant Enumerates(filtered, VisibleAmong(shard.agents, ids[..i], query, now))
    {
      var id := ids[i];
      assert ids[..i + 1] == ids[..i] + [id];
      if id in shard.agents && Visible(shard.agents[id], query, now) {
        VisibleMore(shard.agents, ids, i, query, now);
        filtered := filtered + [Decoded(shard.agents[id])];
      }
    }
    assert ids[..|ids|] == ids;
    assert VisibleAmong(shard.agents, ids, query, now) == Matching(shard.agents, query, now);
    SortIsListing(filtered, Matching(shard.agents, query, now), AgentKey);
    values := StableSort(filtered, AgentKey);
  }

  ghost function VisibleAmong(agents: Records, ids: seq<string>, query: Option<Query>, now: int): set<Agent> {
    set id | id in agents && id in ids && Visible(agents[id], query, now) :: Decoded(agents[id])
  }

  lemma VisibleMore(agents: Records, ids: seq<string>, i: nat, query: Option<Query>, now: int)
    requires OwnIds(agents) && NoDuplicates(ids) && i < |ids| && ids[i] in agents
    requires Visible(agents[ids[i]], query, now)
    ensures var seen := VisibleAmong(agents, ids[..i], query, now);
            && Decoded(agents[ids[i]]) !in seen
            && VisibleAmong(agents, ids[..i + 1], query, now) == seen + {Decoded(agents[ids[i]])}
  {
    assert ids[..i + 1] == ids[..i] + [ids[i]];
    assert ids[i] !in ids[..i];
  }

  /** A whole query on an unsharded store: the indexed answer is the page of the scanned one. */
  method QueryOne(shard: Shard, query: Option<Query>, now: int) returns (values: seq<Agent>)
    requires shard.Valid()
    ensures values == Paged(Listing(Matching(shard.agents, query, now), AgentKey), query)
  {
    values := QueryShard(shard, query, now);
    values := Paged(values, query);
  }
}
