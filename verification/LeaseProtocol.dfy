/**
 * The Postgres lifecycle as a state machine: rows, the event log, and the lease tokens handed out so
 * far. Every SQL transaction is one step. Ids and tokens come from a fresh supply.
 */
module LeaseProtocol {
  import opened Text
  import opened Agents

  datatype EventType = CreatedEvent | ClaimedEvent | UpdatedEvent | CompletedEvent | ReleasedEvent

  datatype Event = Event(tupleId: string, kind: EventType, version: int, agentId: string)

  datatype Store = Store(rows: map<string, Agent>, log: seq<Event>, issued: set<string>)

  datatype Verdict =
    | Done | Replayed | Nothing | AgentRequired | TokenRequired | NotFound | StaleToken | InvalidStatus
    | OwnedByOther | TokenMismatch | Rejected

  datatype Result = Result(store: Store, verdict: Verdict)

  /** ttlClause: no time to live, or not yet over. */
  predicate Live(a: Agent, now: int) {
    a.ttl == 0 || a.createdAt + a.ttl > now
  }

  predicate Visible(s: Store, id: string, now: int) {
    id in s.rows && Live(s.rows[id], now)
  }

  /** Every write copies the namespace column into the metadata, or fills it from there. */
  function Synced(a: Agent): Agent {
    if a.namespaceId != "" then a.(metadata := a.metadata[NAMESPACE := a.namespaceId])
    else a.(namespaceId := MetaValue(a, NAMESPACE))
  }

  predicate IsCount(s: string) {
    s != "" && AllDigits(s) && NatValue(s) > 0
  }

  /** lease_sec wins over lease_ms; anything but a positive numeral falls through. */
  function LeaseMs(a: Agent, default: int): int {
    if IsCount(MetaValue(a, LEASE_SEC)) then 1000 * NatValue(MetaValue(a, LEASE_SEC))
    else if IsCount(MetaValue(a, LEASE_MS)) then NatValue(MetaValue(a, LEASE_MS))
    else default
  }

  /** Work as the API submits it: new, unowned, unversioned. */
  predicate IsDraft(a: Agent) {
    a.status == New && a.owner == "" && a.ownerTime == None && a.leaseToken == "" && a.leaseUntil == None && a.version == 0
  }

  function Submitted(draft: Agent, id: string, now: int): Agent {
    Synced(draft.(id := id, updatedAt := now, version := 1))
  }

  function Claimed(a: Agent, owner: string, token: string, default: int, now: int): Agent {
    a.(status := InProgress, owner := owner, ownerTime := Some(now), leaseToken := token,
       leaseUntil := Some(now + LeaseMs(a, default)), updatedAt := now, version := a.version + 1)
  }

  /** Records the winner, its token and the time; an empty value is not recorded. */
  function CompletionMetadata(m: map<string, string>, owner: string, token: string, now: int): map<string, string> {
    var byOwner := if owner != "" then m[COMPLETED_BY := owner] else m;
    var byToken := if token != "" then byOwner[COMPLETED_TOKEN := token] else byOwner;
    byToken[COMPLETED_AT := FormatInt(now)]
  }

  predicate CompletionTokenMatches(a: Agent, token: string) {
    token != "" && MetaValue(a, COMPLETED_TOKEN) == token
  }

  function CompletedBy(a: Agent, owner: string, token: string, result: string, now: int): Agent {
    a.(status := Completed, payload := a.payload["result" := result], owner := "", ownerTime := None, leaseToken := "",
       leaseUntil := None, updatedAt := now, version := a.version + 1,
       metadata := CompletionMetadata(a.metadata, owner, token, now))
  }

  function Released(a: Agent, now: int): Agent {
    a.(status := New, owner := "", ownerTime := None, leaseToken := "", leaseUntil := None, updatedAt := now,
       version := a.version + 1)
  }

  function Renewed(a: Agent, default: int, now: int): Agent {
    a.(ownerTime := Some(now), leaseUntil := Some(now + LeaseMs(a, default)), updatedAt := now)
  }

  /** Payload and metadata entries are merged in, tags replaced; status and lease are out of reach. */
  function Patched(a: Agent, payload: map<string, string>, tags: Option<seq<string>>, metadata: map<string, string>, now: int)
    : Agent
  {
    Synced(a.(payload := a.payload + payload, tags := if tags.Some? then tags.value else a.tags,
              metadata := a.metadata + metadata, updatedAt := now, version := a.version + 1))
  }

  /** Replace one row and append its event. */
  function Write(s: Store, next: Agent, kind: EventType, agentId: string): Store {
    s.(rows := s.rows[next.id := next], log := s.log + [Event(next.id, kind, next.version, agentId)])
  }

  predicate Claimable(s: Store, id: string, now: int) {
    Visible(s, id, now) && s.rows[id].status == New
  }

  /** The guard of the complete, release and renew updates. */
  predicate Holds(s: Store, id: string, agentId: string, token: string, now: int) {
    Visible(s, id, now) && s.rows[id].status == InProgress && s.rows[id].owner == agentId && s.rows[id].leaseToken == token
  }

  /** Why the guard failed on a row that is still visible; the last case is reached only if it did not fail. */
  function Conflict(a: Agent, agentId: string, token: string): Verdict {
    if a.status != InProgress then InvalidStatus
    else if a.owner != agentId then OwnedByOther
    else if a.leaseToken != token then TokenMismatch
    else Rejected
  }

  function CompletionConflict(a: Agent, agentId: string, token: string): Verdict {
    if a.status == Completed then (if CompletionTokenMatches(a, token) then Replayed else StaleToken)
    else Conflict(a, agentId, token)
  }

  function MissingArgument(agentId: string, token: string): Option<Verdict> {
    if agentId == "" then Some(AgentRequired) else if token == "" then Some(TokenRequired) else None
  }

  function Claim(s: Store, id: string, agentId: string, token: string, default: int, now: int): Store
    requires Claimable(s, id, now)
  {
    Write(s, Claimed(s.rows[id], agentId, token, default, now), ClaimedEvent, agentId).(issued := s.issued + {token})
  }

  /** Claim the first candidate that is still waiting and alive; candidates may be stale or repeated. */
  function TakeFirst(s: Store, candidates: seq<string>, agentId: string, token: string, default: int, now: int): Result {
    if candidates == [] then Result(s, Nothing)
    else if Claimable(s, candidates[0], now) then Result(Claim(s, candidates[0], agentId, token, default, now), Done)
    else TakeFirst(s, candidates[1..], agentId, token, default, now)
  }

  /** A batch claims every candidate that is waiting, each with its own token. */
  function TakeEach(s: Store, claims: seq<(string, string)>, agentId: string, default: int, now: int): Store
    decreases |claims|
  {
    if claims == [] then s
    else
      var (id, token) := claims[0];
      TakeEach(if Claimable(s, id, now) then Claim(s, id, agentId, token, default, now) else s,
               claims[1..], agentId, default, now)
  }

  function Complete(s: Store, id: string, agentId: string, token: string, result: string, now: int): Result {
    var missing := MissingArgument(agentId, token);
    if missing.Some? then Result(s, missing.value)
    else if Holds(s, id, agentId, token, now) then
      Result(Write(s, CompletedBy(s.rows[id], agentId, token, result, now), CompletedEvent, agentId), Done)
    else if !Visible(s, id, now) then Result(s, NotFound)
    else Result(s, CompletionConflict(s.rows[id], agentId, token))
  }

  /**
   * Outputs take trace and parent from the completed agent where they leave them empty, and in Postgres
   * the namespace too.
   */
  function Inherited(draft: Agent, parent: Agent, withNamespace: bool): Agent {
    draft.(traceId := if draft.traceId == "" then parent.traceId else draft.traceId,
           namespaceId := if withNamespace && draft.namespaceId == "" then parent.namespaceId else draft.namespaceId,
           parentId := if draft.parentId == "" then parent.id else draft.parentId)
  }

  function CreateEach(s: Store, outputs: seq<(string, Agent)>, parent: Agent, withNamespace: bool, agentId: string, now: int): Store
    decreases |outputs|
  {
    if outputs == [] then s
    else
      var (id, draft) := outputs[0];
      var output := Submitted(Inherited(draft, parent, withNamespace), id, now);
      CreateEach(Write(s, output, CreatedEvent, agentId), outputs[1..], parent, withNamespace, agentId, now)
  }

  /** Lock and check the row, complete it, create every output: one transaction. */
  function CompleteAndOut(s: Store, id: string, agentId: string, token: string, result: string,
                          outputs: seq<(string, Agent)>, withNamespace: bool, now: int): Result
  {
    var missing := MissingArgument(agentId, token);
    if missing.Some? then Result(s, missing.value)
    else if !Visible(s, id, now) then Result(s, NotFound)
    else if !Holds(s, id, agentId, token, now) then Result(s, CompletionConflict(s.rows[id], agentId, token))
    else
      var done := Synced(CompletedBy(s.rows[id], agentId, token, result, now));
      Result(CreateEach(Write(s, done, CompletedEvent, agentId), outputs, done, withNamespace, agentId, now), Done)
  }

  function Release(s: Store, id: string, agentId: string, token: string, now: int): Result {
    var missing := MissingArgument(agentId, token);
    if missing.Some? then Result(s, missing.value)
    else if Holds(s, id, agentId, token, now) then
      Result(Write(s, Released(s.rows[id], now), ReleasedEvent, agentId), Done)
    else if !Visible(s, id, now) then Result(s, NotFound)
    else Result(s, Conflict(s.rows[id], agentId, token))
  }

  /** Extends the lease; neither an event nor a new version. */
  function Renew(s: Store, id: string, agentId: string, token: string, default: int, now: int): Result {
    var missing := MissingArgument(agentId, token);
    if missing.Some? then Result(s, missing.value)
    else if Holds(s, id, agentId, token, now) then
      Result(s.(rows := s.rows[id := Renewed(s.rows[id], default, now)]), Done)
    else if !Visible(s, id, now) then Result(s, NotFound)
    else Result(s, Conflict(s.rows[id], agentId, token))
  }

  predicate Overdue(s: Store, id: string, now: int) {
    id in s.rows && s.rows[id].status == InProgress && s.rows[id].leaseUntil.Some? && s.rows[id].leaseUntil.value < now
  }

  function ReleaseEach(s: Store, ids: seq<string>, now: int): Store
    decreases |ids|
  {
    if ids == [] then s
    else
      ReleaseEach(if Overdue(s, ids[0], now) then Write(s, Released(s.rows[ids[0]], now), ReleasedEvent, "reaper") else s,
                  ids[1..], now)
  }

  datatype Op =
    | OutOp(id: string, draft: Agent, now: int)
    | TakeOp(candidates: seq<string>, agentId: string, token: string, default: int, now: int)
    | BatchTakeOp(claims: seq<(string, string)>, agentId: string, default: int, now: int)
    | CompleteOp(id: string, agentId: string, token: string, result: string, now: int)
    | CompleteAndOutOp(id: string, agentId: string, token: string, result: string, outputs: seq<(string, Agent)>, now: int)
    | ReleaseOp(id: string, agentId: string, token: string, now: int)
    | RenewOp(id: string, agentId: string, token: string, default: int, now: int)
    | UpdateOp(id: string, payload: map<string, string>, tags: Option<seq<string>>, metadata: map<string, string>,
               agentId: string, now: int)
    | ReapOp(ids: seq<string>, now: int)

  function Next(s: Store, op: Op): Result {
    match op
    case OutOp(id, draft, now) =>
      Result(Write(s, Submitted(draft, id, now), CreatedEvent, MetaValue(draft, AGENT_ID)), Done)
    case TakeOp(candidates, agentId, token, default, now) => TakeFirst(s, candidates, agentId, token, default, now)
    case BatchTakeOp(claims, agentId, default, now) => Result(TakeEach(s, claims, agentId, default, now), Done)
    case CompleteOp(id, agentId, token, result, now) => Complete(s, id, agentId, token, result, now)
    case CompleteAndOutOp(id, agentId, token, result, outputs, now) =>
      CompleteAndOut(s, id, agentId, token, result, outputs, true, now)
    case ReleaseOp(id, agentId, token, now) => Release(s, id, agentId, token, now)
    case RenewOp(id, agentId, token, default, now) => Renew(s, id, agentId, token, default, now)
    case UpdateOp(id, payload, tags, metadata, agentId, now) =>
      if !Visible(s, id, now) then Result(s, NotFound)
      else Result(Write(s, Patched(s.rows[id], payload, tags, metadata, now), UpdatedEvent, agentId), Done)
    case ReapOp(ids, now) => Result(ReleaseEach(s, ids, now), Done)
  }

  ghost predicate FreshOutputs(s: Store, outputs: seq<(string, Agent)>) {
    && (forall i | 0 <= i < |outputs| :: outputs[i].0 !in s.rows && IsDraft(outputs[i].1))
    && (forall i, j | 0 <= i < j < |outputs| :: outputs[i].0 != outputs[j].0)
  }

  ghost predicate FreshClaims(s: Store, claims: seq<(string, string)>) {
    && (forall i | 0 <= i < |claims| :: claims[i].1 != "" && claims[i].1 !in s.issued)
    && (forall i, j | 0 <= i < j < |claims| :: claims[i].1 != claims[j].1)
  }

  /** The supply hands out each id and each token once. Clients are not restricted otherwise. */
  ghost predicate Legal(s: Store, op: Op) {
    match op
    case OutOp(id, draft, _) => id !in s.rows && IsDraft(draft)
    case TakeOp(_, _, token, _, _) => token != "" && token !in s.issued
    case BatchTakeOp(claims, _, _, _) => FreshClaims(s, claims)
    case CompleteAndOutOp(_, _, _, _, outputs, _) => FreshOutputs(s, outputs)
    case _ => true
  }

  const EMPTY := Store(map[], [], {})

  function Run(s: Store, ops: seq<Op>): Store
    decreases |ops|
  {
    if ops == [] then s else Run(Next(s, ops[0]).store, ops[1..])
  }

  ghost predicate LegalRun(s: Store, ops: seq<Op>)
    decreases |ops|
  {
    ops == [] || (Legal(s, ops[0]) && LegalRun(Next(s, ops[0]).store, ops[1..]))
  }

  lemma {:induction false} RunSplit(s: Store, a: seq<Op>, b: seq<Op>)
    ensures Run(s, a + b) == Run(Run(s, a), b)
    ensures LegalRun(s, a + b) <==> LegalRun(s, a) && LegalRun(Run(s, a), b)
    decreases |a|
  {
    if a == [] {
      assert a + b == b;
    } else {
      assert (a + b)[1..] == a[1..] + b;
      RunSplit(Next(s, a[0]).store, a[1..], b);
    }
  }
}
