/**
 * What the Valkey scripts do to the agent records, stated on the records alone: a scan over all
 * agents decides, and no index is mentioned. Module ValkeyShard proves the indexed scripts equal.
 */
module ValkeyRecords {
  import opened Text
  import opened Ordering
  import opened Agents

  type Records = map<string, Agent>

  function ScoreOr(raw: string, other: int): int {
    if ToNumber(raw).Some? then ToNumber(raw).value else other
  }

  function CreatedScore(a: Agent): int {
    ScoreOr(MetaValue(a, CREATED), 0)
  }

  function QueueScore(a: Agent): int {
    ScoreOr(MetaValue(a, QUEUE_CREATED), CreatedScore(a))
  }

  function LeaseScore(a: Agent): int {
    ScoreOr(MetaValue(a, LEASE_UNTIL), 0)
  }

  /** lease_ms wins over lease_sec; non-positive or unreadable values fall through. */
  function LeaseDuration(a: Agent, default: int): int {
    if ScoreOr(MetaValue(a, LEASE_MS), 0) > 0 then ScoreOr(MetaValue(a, LEASE_MS), 0)
    else if ScoreOr(MetaValue(a, LEASE_SEC), 0) > 0 then 1000 * ScoreOr(MetaValue(a, LEASE_SEC), 0)
    else default
  }

  function Claimed(a: Agent, owner: string, token: string, now: int, untilMs: int, until: Option<int>): Agent {
    a.(status := InProgress, owner := owner, ownerTime := Some(now), updatedAt := now, leaseToken := token,
       leaseUntil := until, version := a.version + 1, metadata := a.metadata[LEASE_UNTIL := FormatInt(untilMs)])
  }

  function CompletedBy(a: Agent, owner: string, token: string, result: string, now: int): Agent {
    a.(status := Completed, payload := a.payload["result" := result], owner := "", ownerTime := None,
       leaseToken := "", leaseUntil := None, updatedAt := now, version := a.version + 1,
       metadata := a.metadata[COMPLETED_BY := owner][COMPLETED_TOKEN := token][COMPLETED_AT := FormatInt(now)] - {LEASE_UNTIL})
  }

  function Released(a: Agent, now: int): Agent {
    a.(status := New, owner := "", ownerTime := None, leaseToken := "", leaseUntil := None, updatedAt := now,
       version := a.version + 1, metadata := a.metadata - {LEASE_UNTIL})
  }

  function Renewed(a: Agent, now: int, untilMs: int): Agent {
    a.(ownerTime := Some(now), updatedAt := now, leaseUntil := Some(untilMs),
       metadata := a.metadata[LEASE_UNTIL := FormatInt(untilMs)])
  }

  datatype Code =
    | Created | Updated | NotFound | StatusChanged | ClaimedOne | NotQueueHead | Empty | BatchClaimed
    | AlreadyCompleted | StaleToken | InvalidStatus | OwnerMismatch | TokenMismatch | CompletedOk
    | ReleasedOk | RenewedOk | CompletedAndOut | Reaped(count: nat)

  /** Who may end or extend a lease: the recorded owner, with the recorded token, while in progress. */
  function LeaseRefusal(a: Agent, owner: string, token: string): Option<Code> {
    if a.status != InProgress then Some(InvalidStatus)
    else if a.owner != owner then Some(OwnerMismatch)
    else if a.leaseToken != token then Some(TokenMismatch)
    else None
  }

  predicate Queued(a: Agent, ns: string, queue: string) {
    a.status == New && queue != "" && QueueValue(a) == queue && NamespaceValue(a) == ns
  }

  /** Queue position of every waiting agent of one queue. */
  function QueueScores(agents: Records, ns: string, queue: string): map<string, int> {
    map id | id in agents && Queued(agents[id], ns, queue) :: QueueScore(agents[id])
  }

  /** Expiry of every running lease that has one. */
  function LeaseScores(agents: Records): map<string, int> {
    map id | id in agents && agents[id].status == InProgress && LeaseScore(agents[id]) > 0 :: LeaseScore(agents[id])
  }

  function ScoreKey(scores: map<string, int>): string -> SortKey {
    (id: string) => SortKey(if id in scores then scores[id] else 0, id)
  }

  lemma ScoreKeysDistinct(scores: map<string, int>, ids: set<string>)
    ensures DistinctKeys(ids, ScoreKey(scores))
  {
  }

  /** The members of a sorted set by score, ties broken by member. */
  ghost function InOrder(scores: map<string, int>): seq<string> {
    Listing(scores.Keys, ScoreKey(scores))
  }

  /** The waiting agent with the least (score, id), if any waits. */
  ghost function HeadOf(agents: Records, ns: string, queue: string): Option<string> {
    var order := InOrder(QueueScores(agents, ns, queue));
    if order == [] then None else Some(order[0])
  }

  datatype TakeRequest = TakeRequest(
    ns: string, queue: string, kind: string, owner: string, agentId: string, now: int, defaultLease: int)

  predicate Wanted(a: Agent, r: TakeRequest) {
    (r.kind != "" ==> a.kind == r.kind) && (r.owner != "" ==> a.owner == r.owner)
  }

  datatype Outcome = Outcome(agents: Records, code: Code)

  function ClaimIfWanted(agents: Records, id: string, r: TakeRequest, token: string): Outcome
    requires id in agents
  {
    if !Wanted(agents[id], r) then Outcome(agents, NotQueueHead)
    else
      var until := r.now + LeaseDuration(agents[id], r.defaultLease);
      Outcome(agents[id := Claimed(agents[id], r.agentId, token, r.now, until, None)], ClaimedOne)
  }

  /** A single take uses the token it was given; a batch take appends the agent's id to it. */
  function TokenFor(prefix: string, ofId: bool, id: string): string {
    if ofId then prefix + id else prefix
  }

  function BatchPrefix(prefix: string, index: nat): string {
    prefix + ":" + Decimal(index) + ":"
  }

  /** Take exactly the head of the queue, if it is what the taker asks for. */
  ghost function TakeHead(agents: Records, r: TakeRequest, tokenPrefix: string, tokenOfId: bool): Outcome {
    match HeadOf(agents, r.ns, r.queue)
    case None => Outcome(agents, Empty)
    case Some(id) =>
      if id !in agents then Outcome(agents, NotFound)
      else ClaimIfWanted(agents, id, r, TokenFor(tokenPrefix, tokenOfId, id))
  }

  /** Up to `limit` single takes in a row, stopping at the first one that takes nothing. */
  ghost function TakeBatch(agents: Records, r: TakeRequest, prefix: string, index: nat, limit: nat): Outcome
    requires 1 <= index
    decreases limit + 1 - index
  {
    var stopped := if index == 1 then Empty else BatchClaimed;
    if index > limit then Outcome(agents, stopped)
    else
      var taken := TakeHead(agents, r, BatchPrefix(prefix, index), true);
      if taken.code == ClaimedOne then TakeBatch(taken.agents, r, prefix, index + 1, limit)
      else if taken.code == NotQueueHead then taken
      else Outcome(agents, stopped)
  }

  lemma ListedMembers(scores: map<string, int>, n: nat)
    ensures var ids := Take(InOrder(scores), n);
            NoDuplicates(ids) && forall i | 0 <= i < |ids| :: ids[i] in scores
  {
    ListingSpec(scores.Keys, ScoreKey(scores));
    var order := InOrder(scores);
    forall i | 0 <= i < |order| ensures order[i] in scores {
      assert order[i] in order;
    }
  }

  lemma TakeBatchEnd(agents: Records, r: TakeRequest, prefix: string, index: nat, limit: nat)
    requires limit < index
    ensures TakeBatch(agents, r, prefix, index, limit) == Outcome(agents, if index == 1 then Empty else BatchClaimed)
  {
  }

  /** One round of a batch; `HeadOf` never names an agent that is not there. */
  lemma TakeBatchStep(agents: Records, r: TakeRequest, prefix: string, index: nat, limit: nat)
    requires 1 <= index <= limit
    ensures var taken := TakeHead(agents, r, BatchPrefix(prefix, index), true);
            && taken.code in {ClaimedOne, NotQueueHead, Empty}
            && TakeBatch(agents, r, prefix, index, limit) ==
                 if taken.code == ClaimedOne then TakeBatch(taken.agents, r, prefix, index + 1, limit)
                 else if taken.code == NotQueueHead then taken
                 else Outcome(taken.agents, if index == 1 then Empty else BatchClaimed)
  {
    ListedMembers(QueueScores(agents, r.ns, r.queue), 1);
  }

  function ExpiredScores(agents: Records, now: int): map<string, int> {
    map id | id in LeaseScores(agents) && LeaseScores(agents)[id] <= now :: LeaseScores(agents)[id]
  }

  /** The leases one reaper pass ends: the earliest-expiring ones, at most `batch` of them. */
  ghost function ReapTargets(agents: Records, now: int, batch: nat): seq<string> {
    Take(InOrder(ExpiredScores(agents, now)), batch)
  }

  function ReleaseAll(agents: Records, ids: seq<string>, now: int): Records {
    map id | id in agents :: if id in ids then Released(agents[id], now) else agents[id]
  }

  ghost function ReapOnce(agents: Records, now: int, batch: nat): Outcome {
    var ids := ReapTargets(agents, now, batch);
    Outcome(ReleaseAll(agents, ids, now), Reaped(|ids|))
  }

  function OutAll(agents: Records, outputs: seq<Agent>): Records
    decreases |outputs|
  {
    if outputs == [] then agents else OutAll(agents[outputs[0].id := outputs[0]], outputs[1..])
  }

  /** One run of one script. */
  datatype Op =
    | OutOp(agent: Agent)
    | UpdateOp(id: string, next: Agent)
    | ClaimOp(id: string, agentId: string, token: string, now: int, untilMs: int)
    | QueueTakeOp(request: TakeRequest, token: string)
    | QueueBatchTakeOp(request: TakeRequest, prefix: string, limit: nat)
    | CompleteOp(id: string, agentId: string, token: string, result: string, now: int)
    | CompleteAndOutOp(id: string, agentId: string, token: string, result: string, outputs: seq<Agent>, now: int)
    | ReleaseOp(id: string, agentId: string, token: string, now: int)
    | RenewOp(id: string, agentId: string, token: string, now: int, untilMs: int)
    | ReapOp(now: int, batch: nat)

  /** The writer of an update passes back the record it loaded under the same id. */
  predicate WellFormed(op: Op) {
    op.UpdateOp? ==> op.next.id == op.id
  }

  ghost function Apply(agents: Records, op: Op): Outcome {
    match op
    case OutOp(a) => Outcome(agents[a.id := a], Created)
    case UpdateOp(id, next) =>
      if id !in agents then Outcome(agents, NotFound) else Outcome(agents[id := next], Updated)
    case ClaimOp(id, agentId, token, now, untilMs) =>
      if id !in agents then Outcome(agents, NotFound)
      else if agents[id].status != New then Outcome(agents, StatusChanged)
      else Outcome(agents[id := Claimed(agents[id], agentId, token, now, untilMs, Some(untilMs))], ClaimedOne)
    case QueueTakeOp(r, token) => TakeHead(agents, r, token, false)
    case QueueBatchTakeOp(r, prefix, limit) => TakeBatch(agents, r, prefix, 1, limit)
    case CompleteOp(id, agentId, token, result, now) =>
      if id !in agents then Outcome(agents, NotFound)
      else if agents[id].status == Completed then
        Outcome(agents, if MetaValue(agents[id], COMPLETED_TOKEN) == token then AlreadyCompleted else StaleToken)
      else
        var refusal := LeaseRefusal(agents[id], agentId, token);
        if refusal.Some? then Outcome(agents, refusal.value)
        else Outcome(agents[id := CompletedBy(agents[id], agentId, token, result, now)], CompletedOk)
    case CompleteAndOutOp(id, agentId, token, result, outputs, now) =>
      if id !in agents then Outcome(agents, NotFound)
      else
        var refusal := LeaseRefusal(agents[id], agentId, token);
        if refusal.Some? then Outcome(agents, refusal.value)
        else Outcome(OutAll(agents[id := CompletedBy(agents[id], agentId, token, result, now)], outputs), CompletedAndOut)
    case ReleaseOp(id, agentId, token, now) =>
      if id !in agents then Outcome(agents, NotFound)
      else
        var refusal := LeaseRefusal(agents[id], agentId, token);
        if refusal.Some? then Outcome(agents, refusal.value)
        else Outcome(agents[id := Released(agents[id], now)], ReleasedOk)
    case RenewOp(id, agentId, token, now, untilMs) =>
      if id !in agents then Outcome(agents, NotFound)
      else
        var refusal := LeaseRefusal(agents[id], agentId, token);
        if refusal.Some? then Outcome(agents, refusal.value)
        else Outcome(agents[id := Renewed(agents[id], now, untilMs)], RenewedOk)
    case ReapOp(now, batch) => ReapOnce(agents, now, batch)
  }

  ghost function ApplyAll(agents: Records, ops: seq<Op>): Records
    decreases |ops|
  {
    if ops == [] then agents else ApplyAll(Apply(agents, ops[0]).agents, ops[1..])
  }
}
