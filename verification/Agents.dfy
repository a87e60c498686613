/** Agents (units of work), queries over them, and the metadata keys the stores reserve. */
module Agents {
  import opened Text
  import opened Ordering

  datatype Status = New | InProgress | Completed | Failed | Cancelled

  function StatusName(s: Status): string {
    match s
    case New => "NEW"
    case InProgress => "IN_PROGRESS"
    case Completed => "COMPLETED"
    case Failed => "FAILED"
    case Cancelled => "CANCELLED"
  }

  lemma StatusNameInjective(s: Status, t: Status)
    ensures StatusName(s) == StatusName(t) ==> s == t
  {
    assert |"NEW"| == 3 && |"IN_PROGRESS"| == 11 && |"COMPLETED"| == 9 && |"FAILED"| == 6 && |"CANCELLED"| == 9;
    assert "COMPLETED"[1] == 'O' && "CANCELLED"[1] == 'A';
  }

  /** Times and durations are in milliseconds; an unset time is None. */
  datatype Agent = Agent(
    id: string,
    kind: string,
    status: Status,
    payload: map<string, string>,
    tags: seq<string>,
    owner: string,
    parentId: string,
    traceId: string,
    namespaceId: string,
    ttl: int,
    createdAt: int,
    updatedAt: int,
    ownerTime: Option<int>,
    leaseToken: string,
    leaseUntil: Option<int>,
    version: int,
    metadata: map<string, string>)

  datatype Query = Query(
    kind: string,
    status: Option<Status>,
    tags: seq<string>,
    owner: string,
    parentId: string,
    traceId: string,
    namespaceId: string,
    agentId: string,
    metadata: map<string, string>,
    limit: int,
    offset: int)

  const NAMESPACE := "namespace_id"
  const QUEUE := "queue"
  const QUEUE_CREATED := "queue_created_ms"
  const CREATED := "__created_ms"
  const LEASE_UNTIL := "__lease_until_ms"
  const LEASE_MS := "lease_ms"
  const LEASE_SEC := "lease_sec"
  const AGENT_ID := "agent_id"
  const COMPLETED_BY := "_completed_by"
  const COMPLETED_TOKEN := "_completed_by_token"
  const COMPLETED_AT := "_completed_at"

  function MetaValue(a: Agent, name: string): string {
    if name in a.metadata then a.metadata[name] else ""
  }

  /** The namespace column, or the metadata entry when the column is empty. */
  function NamespaceValue(a: Agent): string {
    if a.namespaceId != "" then a.namespaceId else MetaValue(a, NAMESPACE)
  }

  function QueueValue(a: Agent): string {
    MetaValue(a, QUEUE)
  }

  /** Listings are by creation time, ties broken by id. */
  function AgentKey(a: Agent): SortKey {
    SortKey(a.createdAt, a.id)
  }

  /** The filter half of a query; a nil query accepts everything. */
  predicate Matches(a: Agent, query: Option<Query>) {
    query.Some? ==>
      var q := query.value;
      && (q.kind != "" ==> a.kind == q.kind)
      && (q.status.Some? ==> a.status == q.status.value)
      && (q.owner != "" ==> a.owner == q.owner)
      && (q.parentId != "" ==> a.parentId == q.parentId)
      && (q.traceId != "" ==> a.traceId == q.traceId)
      && (q.namespaceId != "" ==> NamespaceValue(a) == q.namespaceId)
      && (forall i | 0 <= i < |q.tags| :: q.tags[i] in a.tags)
      && (forall k | k in q.metadata && k != AGENT_ID :: k in a.metadata && a.metadata[k] == q.metadata[k])
  }

  function Paged(values: seq<Agent>, query: Option<Query>): seq<Agent> {
    if query.None? then values else Page(values, query.value.limit, query.value.offset)
  }

  // ----- Comparing agents field by field -----

  /** The fields no lease step touches. */
  predicate SameWork(a: Agent, b: Agent) {
    && a.id == b.id && a.kind == b.kind && a.tags == b.tags && a.parentId == b.parentId && a.traceId == b.traceId
    && a.namespaceId == b.namespaceId && a.ttl == b.ttl && a.createdAt == b.createdAt
  }

  predicate NoLease(a: Agent) {
    a.owner == "" && a.ownerTime == None && a.leaseToken == "" && a.leaseUntil == None
  }

  /** Two maps agree on every key but these. */
  ghost predicate SameExcept(a: map<string, string>, b: map<string, string>, keys: set<string>) {
    forall k | k !in keys :: (k in a <==> k in b) && (k in a ==> a[k] == b[k])
  }

  predicate Has(m: map<string, string>, key: string, value: string) {
    key in m && m[key] == value
  }
}
