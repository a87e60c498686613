/**
 * Listing agents from Postgres: one store answers with a SELECT, the sharded router asks every store,
 * sorts what comes back and cuts one page.
 */
module ShardQuery {
  import opened Text
  import opened Ordering
  import opened Agents
  import opened WhereText
  import opened WhereBuilder
  import opened ShardMerge

  type Rows = map<string, Agent>

  /** Rows are filed under their primary key. */
  ghost predicate Keyed(rows: Rows) {
    forall id | id in rows :: rows[id].id == id
  }

  ghost function Accepted(rows: Rows, query: Option<Query>, now: int): set<Agent> {
    set id | id in rows && Accepts(rows[id], query, false, now) :: rows[id]
  }

  /** The answer by definition: the accepted rows by (created_at, id), one page of them. */
  ghost function Answer(rows: Rows, query: Option<Query>, now: int): seq<Agent> {
    Paged(Listing(Accepted(rows, query, now), AgentKey), query)
  }

  lemma AcceptedDistinct(rows: Rows, query: Option<Query>, now: int)
    requires Keyed(rows)
    ensures DistinctKeys(Accepted(rows, query, now), AgentKey)
  {
  }

  /** query(): SELECT ... WHERE text ORDER BY created_at, id, with LIMIT and OFFSET where they are positive. */
  method QueryStore(rows: Rows, query: Option<Query>, now: int) returns (values: seq<Agent>)
    requires Keyed(rows)
    ensures values == Answer(rows, query, now)
  {
    hide Accepts, Eval, Listing, StableSort;
    var text, args, cs := BuildWhere(query, false);
    var selected := set id | id in rows && Eval(text, args, rows[id], now) == Some(true) :: rows[id];
    assert selected == Accepted(rows, query, now);
    AcceptedDistinct(rows, query, now);
    var found := Enumerate(selected);
    SortIsListing(found, selected, AgentKey);
    values := StableSort(found, AgentKey);
    if query.Some? && query.value.offset > 0 {
      values := if query.value.offset >= |values| then [] else values[query.value.offset..];
    }
    if query.Some? && 0 < query.value.limit < |values| {
      values := values[..query.value.limit];
    }
  }

  const ANYTHING := Query("", None, [], "", "", "", "", "", map[], 0, 0)

  /** What each store is asked: the same filter without limit and offset. */
  function Unpaged(query: Option<Query>): Query {
    if query.Some? then query.value.(limit := 0, offset := 0) else ANYTHING
  }

  lemma UnpagedAccepts(rows: Rows, query: Option<Query>, now: int)
    ensures Accepted(rows, Some(Unpaged(query)), now) == Accepted(rows, query, now)
    ensures Answer(rows, Some(Unpaged(query)), now) == Listing(Accepted(rows, query, now), AgentKey)
  {
    assert forall id | id in rows :: Accepts(rows[id], Some(Unpaged(query)), false, now) == Accepts(rows[id], query, false, now);
  }

  lemma AcceptedUnion(a: Rows, b: Rows, query: Option<Query>, now: int)
    requires a.Keys !! b.Keys && Keyed(a) && Keyed(b)
    ensures Keyed(a + b) && Accepted(a + b, query, now) == Accepted(a, query, now) + Accepted(b, query, now)
    ensures Accepted(a, query, now) !! Accepted(b, query, now)
  {
    hide Accepts;
    var u := a + b;
    forall x | x in Accepted(a, query, now) ensures x in Accepted(u, query, now) && x.id in a {
      assert u[x.id] == a[x.id] == x;
    }
    forall x | x in Accepted(b, query, now) ensures x in Accepted(u, query, now) && x.id in b {
      assert u[x.id] == b[x.id] == x;
    }
  }

  /**
   * Query() of the router: ask every store, append, sort, page. It is the answer of one store that
   * holds every row.
   */
  method FanOutQuery(shards: seq<Rows>, query: Option<Query>, now: int) returns (values: seq<Agent>)
    requires Disjoint(shards) && forall i | 0 <= i < |shards| :: Keyed(shards[i])
    ensures values == Answer(Union(shards), query, now)
  {
    hide Accepted, Answer, Listing, StableSort, Enumerates, Keyed;
    var all := [];
    NoRows(query, now);
    for i := 0 to |shards|
      invariant Keyed(Union(shards[..i])) && Enumerates(all, Accepted(Union(shards[..i]), query, now))
    {
      ghost var before := Union(shards[..i]);
      var results := QueryStore(shards[i], Some(Unpaged(query)), now);
      UnpagedAccepts(shards[i], query, now);
      ListingSpec(Accepted(shards[i], query, now), AgentKey);
      UnionSnoc(shards, i);
      AcceptedUnion(before, shards[i], query, now);
      EnumeratesConcat(all, Accepted(before, query, now), results, Accepted(shards[i], query, now));
      all := all + results;
    }
    assert shards[..|shards|] == shards;
    AcceptedDistinct(Union(shards), query, now);
    SortIsListing(all, Accepted(Union(shards), query, now), AgentKey);
    all := StableSort(all, AgentKey);
    AnswerIsPage(Union(shards), query, now);
    values := Paged(all, query);
  }

  lemma NoRows(query: Option<Query>, now: int)
    ensures Keyed(map[]) && Enumerates([], Accepted(map[], query, now))
  {
  }

  lemma AnswerIsPage(rows: Rows, query: Option<Query>, now: int)
    ensures Answer(rows, query, now) == Paged(Listing(Accepted(rows, query, now), AgentKey), query)
  {
  }
}
