/**
 * The API's fixed-window rate limiter: one counter per client, and a sweep that drops old counters.
 * Times and durations are in nanoseconds.
 */
module RateLimiter {
  import opened Text

  datatype Entry = Entry(windowStart: int, count: int)

  const SECOND := 1_000_000_000

  /** A principal's own limit applies when it is positive. */
  function Effective(own: int, configured: int): (r: int)
    requires configured > 0
    ensures r > 0
  {
    if own > 0 then own else configured
  }

  function Lookup(entries: map<string, Entry>, key: string): Option<Entry> {
    if key in entries then Some(entries[key]) else None
  }

  /** The counter a request at `now` is charged to: a new window if there is none or it is over. */
  function Current(e: Option<Entry>, now: int, window: int): Entry {
    if e.None? || now - e.value.windowStart >= window then Entry(now, 0) else e.value
  }

  predicate Allowed(e: Option<Entry>, now: int, limit: int, window: int) {
    Current(e, now, window).count < limit
  }

  function After(e: Option<Entry>, now: int, limit: int, window: int): Entry {
    var c := Current(e, now, window);
    if c.count < limit then c.(count := c.count + 1) else c
  }

  /** A sweep keeps what is younger than two configured windows. */
  predicate Kept(e: Entry, now: int, configured: int) {
    now - e.windowStart < 2 * configured
  }

  function Swept(entries: map<string, Entry>, now: int, configured: int): map<string, Entry> {
    map k | k in entries && Kept(entries[k], now, configured) :: entries[k]
  }

  /** The Retry-After header: whole seconds, at least one. */
  function RetrySeconds(wait: int): (r: int)
    ensures r >= 1
  {
    if wait < SECOND then 1 else wait / SECOND
  }

  /** What the middleware does: answer one client's request, or sweep. */
  datatype Op = Request(key: string, at: int, ownLimit: int, ownWindow: int) | Sweep(at: int)

  function LimitOf(op: Op, limit: int): int
    requires op.Request? && limit > 0
  {
    Effective(op.ownLimit, limit)
  }

  function WindowOf(op: Op, window: int): int
    requires op.Request? && window > 0
  {
    Effective(op.ownWindow, window)
  }

  function Apply(entries: map<string, Entry>, op: Op, limit: int, window: int): map<string, Entry>
    requires limit > 0 && window > 0
  {
    if op.Sweep? then Swept(entries, op.at, window)
    else entries[op.key := After(Lookup(entries, op.key), op.at, LimitOf(op, limit), WindowOf(op, window))]
  }

  /** The answers given to one client in a run over all clients. */
  function Answers(entries: map<string, Entry>, ops: seq<Op>, key: string, limit: int, window: int): seq<bool>
    requires limit > 0 && window > 0
    decreases |ops|
  {
    if ops == [] then []
    else
      var op, rest := ops[0], Answers(Apply(entries, ops[0], limit, window), ops[1..], key, limit, window);
      if op.Request? && op.key == key
      then [Allowed(Lookup(entries, key), op.at, LimitOf(op, limit), WindowOf(op, window))] + rest
      else rest
  }

  class Limiter {
    const limit: int
    const window: int
    var entries: map<string, Entry>

    ghost predicate Valid() {
      limit > 0 && window > 0
    }

    /** The middleware is only installed for positive settings. */
    constructor (limit: int, window: int)
      requires limit > 0 && window > 0
      ensures Valid() && this.limit == limit && this.window == window && entries == map[]
    {
      this.limit, this.window, entries := limit, window, map[];
    }

    /** One request: the answer, and the Retry-After seconds of a refusal. */
    method Ask(key: string, now: int, ownLimit: int, ownWindow: int) returns (allowed: bool, retrySeconds: int)
      requires Valid()
      modifies this
      ensures allowed == Allowed(Lookup(old(entries), key), now, Effective(ownLimit, limit), Effective(ownWindow, window))
      ensures entries == Apply(old(entries), Request(key, now, ownLimit, ownWindow), limit, window)
      ensures !allowed ==> retrySeconds == RetrySeconds(Effective(ownWindow, window) - (now - entries[key].windowStart))
    {
      var effectiveLimit, effectiveWindow := Effective(ownLimit, limit), Effective(ownWindow, window);
      var entry := if key in entries then entries[key] else Entry(now, 0);
      if key !in entries || now - entry.windowStart >= effectiveWindow {
        entry := Entry(now, 0);
      }
      if entry.count >= effectiveLimit {
        entries := entries[key := entry];
        return false, RetrySeconds(effectiveWindow - (now - entry.windowStart));
      }
      entry := entry.(count := entry.count + 1);
      entries := entries[key := entry];
      return true, 0;
    }

    /** The periodic sweep, in whatever order the map yields its keys. */
    method Prune(now: int)
      requires Valid()
      modifies this
      ensures entries == Apply(old(entries), Sweep(now), limit, window)
    {
      ghost var before := entries;
      var rest := entries.Keys;
      while rest != {}
        invariant rest <= before.Keys && rest <= entries.Keys
        invariant entries == map k | k in before && (k in rest || Kept(before[k], now, window)) :: before[k]
      {
        var key :| key in rest;
        if now - entries[key].windowStart >= 2 * window {
          entries := entries - {key};
        }
        rest := rest - {key};
      }
    }

    /** A whole run, and the answers one client sees in it. */
    method Serve(ops: seq<Op>, key: string) returns (answers: seq<bool>)
      requires Valid()
      modifies this
      ensures answers == Answers(old(entries), ops, key, limit, window)
    {
      answers := [];
      var i := 0;
      assert ops[0..] == ops;
      while i < |ops|
        invariant i <= |ops|
        invariant answers + Answers(entries, ops[i..], key, limit, window) == Answers(old(entries), ops, key, limit, window)
      {
        var op := ops[i];
        assert ops[i..][0] == op && ops[i..][1..] == ops[i + 1..];
        ghost var rest := Answers(Apply(entries, op, limit, window), ops[i + 1..], key, limit, window);
        if op.Sweep? {
          Prune(op.at);
        } else {
          var allowed, _ := Ask(op.key, op.at, op.ownLimit, op.ownWindow);
          if op.key == key {
            assert answers + ([allowed] + rest) == (answers + [allowed]) + rest;
            answers := answers + [allowed];
          }
        }
        i := i + 1;
      }
      assert answers + [] == answers;
    }
  }

  // ----- One client -----

  /** What one client's counter goes through: its own requests and everybody's sweeps. */
  datatype Tick = Asked(at: int) | Pruned(at: int)

  function Project(ops: seq<Op>, key: string): seq<Tick> {
    if ops == [] then []
    else
      var rest := Project(ops[1..], key);
      match ops[0]
      case Sweep(at) => [Pruned(at)] + rest
      case Request(k, at, _, _) => if k == key then [Asked(at)] + rest else rest
  }

  /** A client's limits and the configured window. */
  datatype Limits = Limits(limit: int, window: int, configured: int) {
    ghost predicate Valid() {
      limit > 0 && window > 0 && configured > 0
    }
  }

  function Tock(e: Option<Entry>, tick: Tick, lim: Limits): Option<Entry> {
    if tick.Asked? then Some(After(e, tick.at, lim.limit, lim.window))
    else if e.Some? && Kept(e.value, tick.at, lim.configured) then e
    else None
  }

  function Run(e: Option<Entry>, ticks: seq<Tick>, lim: Limits): seq<bool>
    decreases |ticks|
  {
    if ticks == [] then []
    else
      var rest := Run(Tock(e, ticks[0], lim), ticks[1..], lim);
      if ticks[0].Asked? then [Allowed(e, ticks[0].at, lim.limit, lim.window)] + rest else rest
  }

  ghost predicate Uses(ops: seq<Op>, key: string, limit: int, window: int, lim: Limits)
    requires limit > 0 && window > 0
  {
    forall i | 0 <= i < |ops| && ops[i].Request? && ops[i].key == key ::
      LimitOf(ops[i], limit) == lim.limit && WindowOf(ops[i], window) == lim.window
  }

  /** Clients do not affect each other: a client's answers depend on its own requests and the sweeps alone. */
  lemma {:induction false} ClientsAreIsolated(
    entries: map<string, Entry>, ops: seq<Op>, key: string, limit: int, window: int, lim: Limits)
    requires limit > 0 && window > 0 && lim.configured == window && Uses(ops, key, limit, window, lim)
    ensures Answers(entries, ops, key, limit, window) == Run(Lookup(entries, key), Project(ops, key), lim)
    decreases |ops|
  {
    if ops != [] {
      var op, next := ops[0], Apply(entries, ops[0], limit, window);
      forall i | 0 <= i < |ops[1..]| && ops[1..][i].Request? && ops[1..][i].key == key
        ensures LimitOf(ops[1..][i], limit) == lim.limit && WindowOf(ops[1..][i], window) == lim.window
      {
        assert ops[1..][i] == ops[i + 1];
      }
      ClientsAreIsolated(next, ops[1..], key, limit, window, lim);
      var mine := Project(ops, key);
      if op.Sweep? || op.key == key {
        assert mine[1..] == Project(ops[1..], key);
        assert Lookup(next, key) == Tock(Lookup(entries, key), mine[0], lim);
      } else {
        assert Lookup(next, key) == Lookup(entries, key);
      }
    }
  }

  ghost predicate InOrder(ticks: seq<Tick>, now: int) {
    (forall i | 0 <= i < |ticks| :: now <= ticks[i].at) &&
    (forall i, j | 0 <= i < j < |ticks| :: ticks[i].at <= ticks[j].at)
  }

  lemma InOrderTail(ticks: seq<Tick>, now: int)
    requires ticks != [] && InOrder(ticks, now)
    ensures now <= ticks[0].at && InOrder(ticks[1..], ticks[0].at)
  {
  }

  function Requests(ticks: seq<Tick>): seq<Tick> {
    if ticks == [] then [] else (if ticks[0].Asked? then [ticks[0]] else []) + Requests(ticks[1..])
  }

  /** A swept counter is as good as the one it replaces once that one's window is over. */
  ghost predicate Alike(swept: Option<Entry>, kept: Option<Entry>, now: int, window: int) {
    swept == kept || (swept.None? && kept.Some? && now - kept.value.windowStart >= window)
  }

  /** Sweeping never changes an answer as long as the client's window is at most two configured ones. */
  lemma {:induction false} SweepsAreInvisible(
    swept: Option<Entry>, kept: Option<Entry>, ticks: seq<Tick>, now: int, lim: Limits)
    requires lim.window <= 2 * lim.configured && InOrder(ticks, now) && Alike(swept, kept, now, lim.window)
    ensures Run(swept, ticks, lim) == Run(kept, Requests(ticks), lim)
    decreases |ticks|
  {
    if ticks != [] {
      InOrderTail(ticks, now);
      var t := ticks[0];
      if t.Asked? {
        assert Requests(ticks)[0] == t && Requests(ticks)[1..] == Requests(ticks[1..]);
        SweepsAreInvisible(Tock(swept, t, lim), Tock(kept, t, lim), ticks[1..], t.at, lim);
      } else {
        assert Requests(ticks) == Requests(ticks[1..]);
        SweepsAreInvisible(Tock(swept, t, lim), kept, ticks[1..], t.at, lim);
      }
    }
  }

  function Repeat(t: Tick, n: nat): seq<Tick> {
    if n == 0 then [] else [t] + Repeat(t, n - 1)
  }

  function Trues(n: nat): seq<bool> {
    if n == 0 then [] else [true] + Trues(n - 1)
  }

  lemma RunAsked(e: Option<Entry>, at: int, rest: seq<Tick>, lim: Limits)
    ensures Run(e, [Asked(at)] + rest, lim)
         == [Allowed(e, at, lim.limit, lim.window)] + Run(Some(After(e, at, lim.limit, lim.window)), rest, lim)
  {
    assert ([Asked(at)] + rest)[1..] == rest;
  }

  lemma RunPruned(e: Option<Entry>, at: int, rest: seq<Tick>, lim: Limits)
    ensures Run(e, [Pruned(at)] + rest, lim) == Run(Tock(e, Pruned(at), lim), rest, lim)
  {
    assert ([Pruned(at)] + rest)[1..] == rest;
  }

  lemma {:induction false} FillWindow(e: Entry, at: int, n: nat, rest: seq<Tick>, lim: Limits)
    requires at - e.windowStart < lim.window && e.count + n <= lim.limit
    ensures Run(Some(e), Repeat(Asked(at), n) + rest, lim) == Trues(n) + Run(Some(e.(count := e.count + n)), rest, lim)
    decreases n
  {
    hide Run;
    if n == 0 {
      assert Repeat(Asked(at), n) + rest == rest;
    } else {
      var less := Repeat(Asked(at), n - 1) + rest;
      assert Repeat(Asked(at), n) + rest == [Asked(at)] + less;
      RunAsked(Some(e), at, less, lim);
      FillWindow(e.(count := e.count + 1), at, n - 1, rest, lim);
    }
  }

  lemma RequestsCons(t: Tick, rest: seq<Tick>)
    ensures Requests([t] + rest) == (if t.Asked? then [t] else []) + Requests(rest)
  {
    assert ([t] + rest)[1..] == rest;
  }

  lemma {:induction false} RequestsRepeat(at: int, n: nat, tail: seq<Tick>)
    ensures Requests(Repeat(Asked(at), n) + tail) == Repeat(Asked(at), n) + Requests(tail)
  {
    hide Requests;
    if n == 0 {
      assert Repeat(Asked(at), n) + tail == tail;
    } else {
      var less := Repeat(Asked(at), n - 1);
      assert Repeat(Asked(at), n) + tail == [Asked(at)] + (less + tail);
      RequestsCons(Asked(at), less + tail);
      RequestsRepeat(at, n - 1, tail);
      assert [Asked(at)] + (less + Requests(tail)) == Repeat(Asked(at), n) + Requests(tail);
    }
  }

  lemma {:induction false} RepeatAt(at: int, n: nat)
    ensures |Repeat(Asked(at), n)| == n && forall i | 0 <= i < n :: Repeat(Asked(at), n)[i] == Asked(at)
  {
    if n > 0 {
      RepeatAt(at, n - 1);
    }
  }

  ghost predicate NoSweepMatters(lim: Limits) {
    forall ticks, now :: InOrder(ticks, now) ==> Run(None, ticks, lim) == Run(None, Requests(ticks), lim)
  }

  /** The limit's worth of requests at time 0, then `tail`. */
  function Burst(lim: Limits, tail: seq<Tick>): seq<Tick>
    requires lim.Valid()
  {
    [Asked(0)] + (Repeat(Asked(0), lim.limit - 1) + tail)
  }

  lemma BurstFills(lim: Limits, tail: seq<Tick>)
    requires lim.Valid()
    ensures Run(None, Burst(lim, tail), lim) == [true] + (Trues(lim.limit - 1) + Run(Some(Entry(0, lim.limit)), tail, lim))
  {
    hide Run, Repeat, Trues;
    RunAsked(None, 0, Repeat(Asked(0), lim.limit - 1) + tail, lim);
    FillWindow(Entry(0, 1), 0, lim.limit - 1, tail, lim);
  }

  lemma BurstRequests(lim: Limits, tail: seq<Tick>)
    requires lim.Valid()
    ensures Requests(Burst(lim, tail)) == Burst(lim, Requests(tail))
  {
    hide Requests, Repeat;
    RequestsCons(Asked(0), Repeat(Asked(0), lim.limit - 1) + tail);
    RequestsRepeat(0, lim.limit - 1, tail);
  }

  lemma BurstInOrder(lim: Limits, tail: seq<Tick>)
    requires lim.Valid() && InOrder(tail, 0)
    ensures InOrder(Burst(lim, tail), 0)
  {
    RepeatAt(0, lim.limit - 1);
  }

  /** With a longer window, a sweep in the middle of a full window lets one request too many through. */
  lemma SweepForgets(lim: Limits)
    requires lim.Valid() && lim.window > 2 * lim.configured
    ensures !NoSweepMatters(lim)
  {
    hide Run, Requests, Burst;
    var late := 2 * lim.configured;
    var ask := [Asked(late)];
    var tail := [Pruned(late)] + ask;
    var full := Some(Entry(0, lim.limit));
    BurstFills(lim, tail);
    BurstFills(lim, ask);
    BurstRequests(lim, tail);
    BurstInOrder(lim, tail);
    TailRequests(late);
    RunPruned(full, late, ask, lim);
    LastAsked(None, late, lim);
    LastAsked(full, late, lim);
    var swept, kept := Run(None, Burst(lim, tail), lim), Run(None, Burst(lim, ask), lim);
    assert swept[|swept| - 1] && !kept[|kept| - 1];
  }

  lemma TailRequests(at: int)
    ensures Requests([Pruned(at)] + [Asked(at)]) == [Asked(at)]
  {
    RequestsCons(Pruned(at), [Asked(at)]);
    RequestsCons(Asked(at), []);
    assert [Asked(at)] + [] == [Asked(at)];
  }

  lemma LastAsked(e: Option<Entry>, at: int, lim: Limits)
    ensures Run(e, [Asked(at)], lim) == [Allowed(e, at, lim.limit, lim.window)]
  {
    RunAsked(e, at, [], lim);
    assert [Asked(at)] + [] == [Asked(at)];
  }

  /** Sweeping is invisible to a client exactly when its window is at most two configured ones. */
  lemma NoSweepMattersIff(lim: Limits)
    requires lim.Valid()
    ensures NoSweepMatters(lim) <==> lim.window <= 2 * lim.configured
  {
    if lim.window <= 2 * lim.configured {
      forall ticks, now | InOrder(ticks, now) ensures Run(None, ticks, lim) == Run(None, Requests(ticks), lim) {
        SweepsAreInvisible(None, None, ticks, now, lim);
      }
    } else {
      SweepForgets(lim);
    }
  }

  // ----- How much gets through -----

  /** The requests granted in the half-open interval from `a` to `b`. */
  function Granted(asks: seq<Tick>, answers: seq<bool>, a: int, b: int): nat {
    if asks == [] || answers == [] then 0
    else (if answers[0] && a <= asks[0].at < b then 1 else 0) + Granted(asks[1..], answers[1..], a, b)
  }

  /** How many grants the interval of one window from `a` can still see. */
  function Budget(e: Option<Entry>, now: int, a: int, limit: int): int {
    if now < a then 2 * limit - 1
    else if e.None? then limit
    else if e.value.windowStart < a then 2 * limit - e.value.count
    else limit - e.value.count
  }

  predicate Sane(e: Option<Entry>, now: int, limit: int) {
    e.Some? ==> e.value.windowStart <= now && 1 <= e.value.count <= limit
  }

  lemma BudgetStep(e: Option<Entry>, now: int, at: int, a: int, lim: Limits)
    requires lim.Valid() && now <= at < a + lim.window && Sane(e, now, lim.limit)
    ensures Sane(Some(After(e, at, lim.limit, lim.window)), at, lim.limit)
    ensures (if Allowed(e, at, lim.limit, lim.window) && a <= at then 1 else 0)
          + Budget(Some(After(e, at, lim.limit, lim.window)), at, a, lim.limit) <= Budget(e, now, a, lim.limit)
  {
  }

  ghost predicate AllAsked(asks: seq<Tick>) {
    forall i | 0 <= i < |asks| :: asks[i].Asked?
  }

  lemma {:induction false} NothingLater(asks: seq<Tick>, answers: seq<bool>, a: int, b: int)
    requires forall i | 0 <= i < |asks| :: b <= asks[i].at
    ensures Granted(asks, answers, a, b) == 0
  {
    if asks != [] && answers != [] {
      NothingLater(asks[1..], answers[1..], a, b);
    }
  }

  lemma {:induction false} WithinBudget(e: Option<Entry>, asks: seq<Tick>, now: int, a: int, lim: Limits)
    requires lim.Valid() && AllAsked(asks) && InOrder(asks, now) && Sane(e, now, lim.limit)
    ensures Granted(asks, Run(e, asks, lim), a, a + lim.window) <= Budget(e, now, a, lim.limit)
    decreases |asks|
  {
    if asks != [] {
      InOrderTail(asks, now);
      var at, answers := asks[0].at, Run(e, asks, lim);
      var next := Some(After(e, at, lim.limit, lim.window));
      assert answers[1..] == Run(next, asks[1..], lim);
      if at < a + lim.window {
        BudgetStep(e, now, at, a, lim);
        WithinBudget(next, asks[1..], at, a, lim);
      } else {
        NothingLater(asks, answers, a, a + lim.window);
      }
    }
  }

  lemma {:induction false} RequestsOnly(ticks: seq<Tick>, now: int)
    requires InOrder(ticks, now)
    ensures AllAsked(Requests(ticks)) && InOrder(Requests(ticks), now)
  {
    if ticks != [] {
      InOrderTail(ticks, now);
      RequestsOnly(ticks[1..], ticks[0].at);
    }
  }

  lemma OpenedWindow(e: Option<Entry>, at: int, asks: seq<Tick>, lim: Limits)
    requires lim.Valid() && (e.Some? ==> at - e.value.windowStart >= lim.window)
    requires AllAsked(asks) && InOrder(asks, at)
    ensures Granted([Asked(at)] + asks, Run(e, [Asked(at)] + asks, lim), at, at + lim.window) <= lim.limit
  {
    hide Run, Granted;
    RunAsked(e, at, asks, lim);
    var next := Some(After(e, at, lim.limit, lim.window));
    GrantedFirst(at, asks, Run(next, asks, lim), at, at + lim.window);
    WithinBudget(next, asks, at, at, lim);
  }

  /** From the request that opens a window, at most the limit gets through before the window ends. */
  lemma AtMostLimitPerWindow(e: Option<Entry>, ticks: seq<Tick>, now: int, lim: Limits)
    requires lim.Valid() && lim.window <= 2 * lim.configured && InOrder(ticks, now)
    requires ticks != [] && ticks[0].Asked? && (e.Some? ==> ticks[0].at - e.value.windowStart >= lim.window)
    ensures Granted(Requests(ticks), Run(e, ticks, lim), ticks[0].at, ticks[0].at + lim.window) <= lim.limit
  {
    hide Run, Granted, Requests, AllAsked;
    SweepsAreInvisible(e, e, ticks, now, lim);
    InOrderTail(ticks, now);
    RequestsOnly(ticks[1..], ticks[0].at);
    assert ticks == [ticks[0]] + ticks[1..];
    RequestsCons(ticks[0], ticks[1..]);
    OpenedWindow(e, ticks[0].at, Requests(ticks[1..]), lim);
  }

  /** In any interval one window long, fewer than twice the limit gets through. */
  lemma FewerThanTwice(ticks: seq<Tick>, now: int, a: int, lim: Limits)
    requires lim.Valid() && lim.window <= 2 * lim.configured && InOrder(ticks, now)
    ensures Granted(Requests(ticks), Run(None, ticks, lim), a, a + lim.window) <= 2 * lim.limit - 1
  {
    SweepsAreInvisible(None, None, ticks, now, lim);
    RequestsOnly(ticks, now);
    WithinBudget(None, Requests(ticks), now, a, lim);
  }

  /** The bound for a client in a run of the whole middleware, whatever the other clients do. */
  lemma ClientBound(ops: seq<Op>, key: string, limit: int, window: int, lim: Limits, now: int, a: int)
    requires limit > 0 && window > 0 && lim.Valid() && lim.configured == window && lim.window <= 2 * window
    requires Uses(ops, key, limit, window, lim) && InOrder(Project(ops, key), now)
    ensures Granted(Requests(Project(ops, key)), Answers(map[], ops, key, limit, window), a, a + lim.window)
         <= 2 * lim.limit - 1
  {
    ClientsAreIsolated(map[], ops, key, limit, window, lim);
    FewerThanTwice(Project(ops, key), now, a, lim);
  }

  lemma {:induction false} GrantedRepeat(at: int, n: nat, asks: seq<Tick>, answers: seq<bool>, a: int, b: int)
    requires a <= at < b
    ensures Granted(Repeat(Asked(at), n) + asks, Trues(n) + answers, a, b) == n + Granted(asks, answers, a, b)
  {
    var x, y := Repeat(Asked(at), n) + asks, Trues(n) + answers;
    if n == 0 {
      assert x == asks && y == answers;
    } else {
      assert x[0] == Asked(at) && x[1..] == Repeat(Asked(at), n - 1) + asks;
      assert y[0] && y[1..] == Trues(n - 1) + answers;
      GrantedRepeat(at, n - 1, asks, answers, a, b);
    }
  }

  lemma GrantedFirst(at: int, asks: seq<Tick>, answers: seq<bool>, a: int, b: int)
    ensures Granted([Asked(at)] + asks, [true] + answers, a, b) == (if a <= at < b then 1 else 0) + Granted(asks, answers, a, b)
  {
    assert ([Asked(at)] + asks)[1..] == asks && ([true] + answers)[1..] == answers;
  }

  /** A window opened at `at` and used up at once. */
  lemma FreshWindow(e: Option<Entry>, at: int, lim: Limits)
    requires lim.Valid() && (e.Some? ==> at - e.value.windowStart >= lim.window)
    ensures Run(e, [Asked(at)] + (Repeat(Asked(at), lim.limit - 1) + []), lim) == [true] + (Trues(lim.limit - 1) + [])
  {
    RunAsked(e, at, Repeat(Asked(at), lim.limit - 1) + [], lim);
    FillWindow(Entry(at, 1), at, lim.limit - 1, [], lim);
  }

  /** The bound is reached: open a window, use the rest of it at its end, then use the next one at once. */
  lemma BoundIsReached(lim: Limits) returns (ticks: seq<Tick>, a: int)
    requires lim.Valid() && lim.window >= 2
    ensures InOrder(ticks, 0) && Granted(ticks, Run(None, ticks, lim), a, a + lim.window) == 2 * lim.limit - 1
  {
    hide Run, Granted, Repeat, Trues;
    var n, w := lim.limit - 1, lim.window;
    a := w - 1;
    var first, second := Repeat(Asked(w - 1), n), Repeat(Asked(w), n) + [];
    var tail := [Asked(w)] + second;
    ticks := [Asked(0)] + (first + tail);
    RepeatAt(w - 1, n);
    RepeatAt(w, n);
    assert InOrder(ticks, 0);
    var third := Trues(n) + [];
    RunAsked(None, 0, first + tail, lim);
    FillWindow(Entry(0, 1), w - 1, n, tail, lim);
    FreshWindow(Some(Entry(0, lim.limit)), w, lim);
    assert Run(None, ticks, lim) == [true] + (Trues(n) + ([true] + third));
    GrantedFirst(0, first + tail, Trues(n) + ([true] + third), a, a + w);
    GrantedRepeat(w - 1, n, tail, [true] + third, a, a + w);
    GrantedFirst(w, second, third, a, a + w);
    GrantedRepeat(w, n, [], [], a, a + w);
    NothingLater([], [], a, a + w);
  }

  // ----- Retry-After -----

  /** A refused client that waits as told and is alone gets through exactly when the wait needed no rounding down. */
  lemma RetryAfterIsEnoughIff(e: Entry, now: int, limit: int, window: int)
    requires limit > 0 && !Allowed(Some(e), now, limit, window) && now - e.windowStart < window
    ensures var wait := window - (now - e.windowStart);
            Allowed(Some(e), now + RetrySeconds(wait) * SECOND, limit, window) <==> wait <= SECOND || wait % SECOND == 0
  {
    var wait := window - (now - e.windowStart);
    assert wait >= SECOND ==> wait == wait / SECOND * SECOND + wait % SECOND;
  }

  /** Refused at one second with a window of two and a half, told to wait one second, refused again. */
  lemma RetryAfterTooSoon()
    ensures var e, window := Entry(0, 1), 2 * SECOND + SECOND / 2;
            var again := SECOND + RetrySeconds(window - SECOND) * SECOND;
            !Allowed(Some(e), SECOND, 1, window) && RetrySeconds(window - SECOND) == 1 && !Allowed(Some(e), again, 1, window)
  {
    RetryAfterIsEnoughIff(Entry(0, 1), SECOND, 1, 2 * SECOND + SECOND / 2);
  }

  // ----- Whose limits apply -----

  function RepeatOps(op: Op, n: nat): seq<Op> {
    if n == 0 then [] else [op] + RepeatOps(op, n - 1)
  }

  lemma {:induction false} ProjectRepeat(key: string, at: int, ownLimit: int, ownWindow: int, n: nat, tail: seq<Op>)
    ensures Project(RepeatOps(Request(key, at, ownLimit, ownWindow), n) + tail, key) == Repeat(Asked(at), n) + Project(tail, key)
    decreases n
  {
    var op := Request(key, at, ownLimit, ownWindow);
    var ops := RepeatOps(op, n) + tail;
    if n == 0 {
      assert ops == tail && Repeat(Asked(at), n) + Project(tail, key) == Project(tail, key);
    } else {
      assert ops[0] == op && ops[1..] == RepeatOps(op, n - 1) + tail;
      ProjectRepeat(key, at, ownLimit, ownWindow, n - 1, tail);
      assert [Asked(at)] + (Repeat(Asked(at), n - 1) + Project(tail, key)) == Repeat(Asked(at), n) + Project(tail, key);
    }
  }

  lemma {:induction false} RepeatOpsAt(op: Op, n: nat)
    ensures |RepeatOps(op, n)| == n && forall i | 0 <= i < n :: RepeatOps(op, n)[i] == op
  {
    if n > 0 {
      RepeatOpsAt(op, n - 1);
    }
  }

  /**
   * A new client may send its own limit's worth of requests, or the configured one if it has none, and
   * the next exactly when its own window, or the configured one, is over.
   */
  lemma OwnLimitsApply(key: string, ownLimit: int, ownWindow: int, limit: int, window: int, t: int)
    requires limit > 0 && window > 0 && t >= 0
    ensures var allowance, span := if ownLimit > 0 then ownLimit else limit, if ownWindow > 0 then ownWindow else window;
            var ops := RepeatOps(Request(key, 0, ownLimit, ownWindow), allowance) + [Request(key, t, ownLimit, ownWindow)];
            Answers(map[], ops, key, limit, window) == Trues(allowance) + [t >= span]
  {
    var allowance, span := if ownLimit > 0 then ownLimit else limit, if ownWindow > 0 then ownWindow else window;
    var first, last := Request(key, 0, ownLimit, ownWindow), Request(key, t, ownLimit, ownWindow);
    var lim := Limits(allowance, span, window);
    var ops := RepeatOps(first, allowance) + [last];
    RepeatOpsAt(first, allowance);
    assert Uses(ops, key, limit, window, lim);
    ClientsAreIsolated(map[], ops, key, limit, window, lim);
    ProjectRepeat(key, 0, ownLimit, ownWindow, allowance, [last]);
    LastProject(last, key);
    BurstIsRepeat(lim, [Asked(t)]);
    BurstFills(lim, [Asked(t)]);
    LastAsked(Some(Entry(0, allowance)), t, lim);
    assert [true] + (Trues(allowance - 1) + [t >= span]) == Trues(allowance) + [t >= span];
  }

  lemma LastProject(op: Op, key: string)
    requires op.Request? && op.key == key
    ensures Project([op], key) == [Asked(op.at)]
  {
    assert [op][1..] == [];
  }

  lemma BurstIsRepeat(lim: Limits, tail: seq<Tick>)
    requires lim.Valid()
    ensures Burst(lim, tail) == Repeat(Asked(0), lim.limit) + tail
  {
  }
}
