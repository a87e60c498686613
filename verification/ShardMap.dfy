/** The shard map of the Postgres router: normalisation, and routing that ignores the order of the file. */
module ShardMap {
  import opened Text
  import opened Ordering

  datatype ShardSpec = ShardSpec(
    shardId: string, writerDsn: string, replicaDsns: seq<string>, ownerNodeId: string, advertiseAddr: string)

  datatype Problem = NoShards | MissingId(index: nat) | MissingDsn(shardId: string) | DuplicateId(shardId: string)

  function Trimmed(s: ShardSpec): ShardSpec {
    s.(shardId := TrimSpace(s.shardId), writerDsn := TrimSpace(s.writerDsn),
       ownerNodeId := TrimSpace(s.ownerNodeId), advertiseAddr := TrimSpace(s.advertiseAddr))
  }

  function TrimmedAll(specs: seq<ShardSpec>): (r: seq<ShardSpec>)
    ensures |r| == |specs|
  {
    seq(|specs|, i requires 0 <= i < |specs| => Trimmed(specs[i]))
  }

  function SpecKey(s: ShardSpec): SortKey {
    SortKey(0, s.shardId)
  }

  predicate Complete(s: ShardSpec) {
    s.shardId != "" && s.writerDsn != ""
  }

  ghost predicate DistinctIds(specs: seq<ShardSpec>) {
    forall i, j | 0 <= i < j < |specs| :: specs[i].shardId != specs[j].shardId
  }

  /** What a usable map is, said without an order: entries complete, ids different, both after trimming. */
  ghost predicate Usable(specs: seq<ShardSpec>) {
    && specs != []
    && (forall i | 0 <= i < |specs| :: Complete(Trimmed(specs[i])))
    && DistinctIds(TrimmedAll(specs))
  }

  /** The reported problem is one the map has. */
  ghost predicate Truthful(problem: Problem, specs: seq<ShardSpec>) {
    match problem
    case NoShards => specs == []
    case MissingId(i) => i < |specs| && Trimmed(specs[i]).shardId == ""
    case MissingDsn(id) => exists i :: 0 <= i < |specs| && Trimmed(specs[i]).shardId == id && Trimmed(specs[i]).writerDsn == ""
    case DuplicateId(id) =>
      exists i, j :: 0 <= i < j < |specs| && Trimmed(specs[i]).shardId == id && Trimmed(specs[j]).shardId == id
  }

  function SeenIds(specs: seq<ShardSpec>): set<string> {
    set i | 0 <= i < |specs| :: specs[i].shardId
  }

  class Map {
    var shards: seq<ShardSpec>

    constructor (specs: seq<ShardSpec>)
      ensures shards == specs
    {
      shards := specs;
    }

    /** Trim and check entry by entry in place, then sort by id; the first problem found is reported. */
    method Normalize() returns (problem: Option<Problem>)
      modifies this
      ensures problem.None? <==> Usable(old(shards))
      ensures problem.None? ==> shards == StableSort(TrimmedAll(old(shards)), SpecKey)
      ensures problem.Some? ==> Truthful(problem.value, old(shards)) && PartlyTrimmed(old(shards), shards)
    {
      if shards == [] {
        return Some(NoShards);
      }
      problem, shards := CheckEntries(shards);
      if problem.None? {
        shards := StableSort(shards, SpecKey);
      }
    }
  }

  /** The entries after the checking loop: those it reached are trimmed. */
  ghost predicate PartlyTrimmed(specs: seq<ShardSpec>, after: seq<ShardSpec>) {
    |after| == |specs| && forall k | 0 <= k < |specs| :: after[k] in {specs[k], Trimmed(specs[k])}
  }

  /** The checks on one trimmed entry, in order. */
  function EntryProblem(spec: ShardSpec, seen: set<string>, index: nat): Option<Problem> {
    if spec.shardId == "" then Some(MissingId(index))
    else if spec.writerDsn == "" then Some(MissingDsn(spec.shardId))
    else if spec.shardId in seen then Some(DuplicateId(spec.shardId))
    else None
  }

  lemma EntryRefused(specs: seq<ShardSpec>, i: nat, problem: Problem)
    requires i < |specs|
    requires EntryProblem(Trimmed(specs[i]), SeenIds(TrimmedAll(specs[..i])), i) == Some(problem)
    ensures Truthful(problem, specs) && !Usable(specs)
  {
    if problem.DuplicateId? {
      NotDistinct(specs, i);
    }
  }

  /** The first `i` entries are trimmed, complete and distinct; the rest are as they were. */
  ghost predicate Checked(specs: seq<ShardSpec>, i: nat, after: seq<ShardSpec>, seen: set<string>) {
    && i <= |specs| && after == TrimmedAll(specs[..i]) + specs[i..]
    && (forall k | 0 <= k < i :: Complete(Trimmed(specs[k])))
    && DistinctIds(TrimmedAll(specs[..i])) && seen == SeenIds(TrimmedAll(specs[..i]))
  }

  lemma CheckedNext(specs: seq<ShardSpec>, i: nat, after: seq<ShardSpec>, seen: set<string>)
    requires Checked(specs, i, after, seen) && i < |specs|
    ensures after[i] == specs[i] && after[i := Trimmed(specs[i])] == TrimmedAll(specs[..i + 1]) + specs[i + 1..]
    ensures EntryProblem(Trimmed(specs[i]), seen, i) == None ==>
              Checked(specs, i + 1, after[i := Trimmed(specs[i])], seen + {Trimmed(specs[i]).shardId})
  {
    var a, spec := TrimmedAll(specs[..i]), Trimmed(specs[i]);
    TrimmedMore(specs, i);
    if EntryProblem(spec, seen, i) == None {
      forall k | 0 <= k < |a| ensures a[k].shardId != spec.shardId {
        assert a[k].shardId in SeenIds(a);
      }
      assert DistinctIds(a + [spec]);
    }
  }

  lemma CheckedAll(specs: seq<ShardSpec>, after: seq<ShardSpec>, seen: set<string>)
    requires Checked(specs, |specs|, after, seen) && specs != []
    ensures Usable(specs) && after == TrimmedAll(specs)
  {
    assert specs[..|specs|] == specs;
  }

  method CheckEntries(specs: seq<ShardSpec>) returns (problem: Option<Problem>, after: seq<ShardSpec>)
    requires specs != []
    ensures problem.None? <==> Usable(specs)
    ensures problem.None? ==> after == TrimmedAll(specs)
    ensures problem.Some? ==> Truthful(problem.value, specs) && PartlyTrimmed(specs, after)
  {
    after := specs;
    var seen: set<string> := {};
    for i := 0 to |specs|
      invariant Checked(specs, i, after, seen)
    {
      CheckedNext(specs, i, after, seen);
      var spec := Trimmed(after[i]);
      after := after[i := spec];
      problem := EntryProblem(spec, seen, i);
      if problem.Some? {
        ReachedAreTrimmed(specs, i + 1);
        EntryRefused(specs, i, problem.value);
        ghost var refused := Truthful(problem.value, specs) && !Usable(specs) && PartlyTrimmed(specs, after);
        assert refused;
        return;
      }
      seen := seen + {spec.shardId};
      ghost var checked := Checked(specs, i + 1, after, seen);
      assert checked;
    }
    CheckedAll(specs, after, seen);
    return None, after;
  }

  lemma ReachedAreTrimmed(specs: seq<ShardSpec>, i: nat)
    requires i <= |specs|
    ensures PartlyTrimmed(specs, TrimmedAll(specs[..i]) + specs[i..])
  {
  }

  lemma TrimmedMore(specs: seq<ShardSpec>, i: nat)
    requires i < |specs|
    ensures TrimmedAll(specs[..i + 1]) == TrimmedAll(specs[..i]) + [Trimmed(specs[i])]
    ensures SeenIds(TrimmedAll(specs[..i + 1])) == SeenIds(TrimmedAll(specs[..i])) + {Trimmed(specs[i]).shardId}
  {
    var a, b := TrimmedAll(specs[..i]), TrimmedAll(specs[..i + 1]);
    assert b == a + [Trimmed(specs[i])];
    forall x | x in SeenIds(a) + {Trimmed(specs[i]).shardId} ensures x in SeenIds(b) {
      if x in SeenIds(a) {
        var k :| 0 <= k < |a| && a[k].shardId == x;
        assert b[k] == a[k];
      } else {
        assert b[i].shardId == x;
      }
    }
  }

  lemma NotDistinct(specs: seq<ShardSpec>, i: nat)
    requires i < |specs| && Trimmed(specs[i]).shardId in SeenIds(TrimmedAll(specs[..i]))
    ensures !DistinctIds(TrimmedAll(specs)) && Truthful(DuplicateId(Trimmed(specs[i]).shardId), specs)
  {
    var a := TrimmedAll(specs[..i]);
    var k :| 0 <= k < |a| && a[k].shardId == Trimmed(specs[i]).shardId;
    assert TrimmedAll(specs)[k].shardId == TrimmedAll(specs)[i].shardId;
  }

  /** The shard that namespace and queue hash to. */
  function TargetSpec(hash: (string, string) -> nat, shards: seq<ShardSpec>, ns: string, queue: string): Option<ShardSpec> {
    if TrimSpace(ns) == "" || TrimSpace(queue) == "" || shards == [] then None
    else Some(shards[hash(TrimSpace(ns), TrimSpace(queue)) % |shards|])
  }

  lemma CancelOne<T>(m: multiset<T>, n: multiset<T>, x: T)
    requires m + multiset{x} == n + multiset{x}
    ensures m == n
  {
    forall y ensures m[y] == n[y] {
      assert (m + multiset{x})[y] == (n + multiset{x})[y];
    }
  }

  function Without<T>(s: seq<T>, j: nat): seq<T>
    requires j < |s|
  {
    s[..j] + s[j + 1..]
  }

  lemma WithoutMultiset<T>(s: seq<T>, j: nat)
    requires j < |s|
    ensures multiset(s) == multiset(Without(s, j)) + multiset{s[j]}
  {
    assert s == s[..j] + ([s[j]] + s[j + 1..]);
  }

  lemma TrimmedWithout(s: seq<ShardSpec>, j: nat)
    requires j < |s|
    ensures TrimmedAll(Without(s, j)) == Without(TrimmedAll(s), j)
  {
  }

  lemma {:induction false} TrimmedPermutes(a: seq<ShardSpec>, b: seq<ShardSpec>)
    requires multiset(a) == multiset(b)
    ensures multiset(TrimmedAll(a)) == multiset(TrimmedAll(b))
    decreases |a|
  {
    if a == [] {
      assert |multiset(b)| == |b|;
    } else {
      SameMembers(a, b, a[0]);
      var j :| 0 <= j < |b| && b[j] == a[0];
      WithoutMultiset(a, 0);
      WithoutMultiset(b, j);
      CancelOne(multiset(Without(b, j)), multiset(Without(a, 0)), a[0]);
      TrimmedPermutes(Without(a, 0), Without(b, j));
      TrimmedWithout(a, 0);
      TrimmedWithout(b, j);
      WithoutMultiset(TrimmedAll(a), 0);
      WithoutMultiset(TrimmedAll(b), j);
    }
  }

  lemma DistinctIdsDecided(specs: seq<ShardSpec>)
    ensures DistinctIds(specs) <==>
              forall x, y | x in specs && y in specs && x.shardId == y.shardId :: x == y && multiset(specs)[x] == 1
  {
    if DistinctIds(specs) {
      forall x, y | x in specs && y in specs && x.shardId == y.shardId ensures x == y && multiset(specs)[x] == 1 {
        assert NoDuplicates(specs);
        CountOnce(specs, x);
      }
    }
    if forall x, y | x in specs && y in specs && x.shardId == y.shardId :: x == y && multiset(specs)[x] == 1 {
      forall i, j | 0 <= i < j < |specs| ensures specs[i].shardId != specs[j].shardId {
        if specs[i].shardId == specs[j].shardId {
          assert specs[i] in specs && specs[j] in specs;
          CountTwice(specs, i, j);
        }
      }
    }
  }

  lemma SameMembers<T>(s: seq<T>, t: seq<T>, x: T)
    requires multiset(s) == multiset(t)
    ensures x in s <==> x in t
  {
    assert x in s <==> x in multiset(s);
    assert x in t <==> x in multiset(t);
  }

  lemma DistinctIdsPermutes(s: seq<ShardSpec>, t: seq<ShardSpec>)
    requires multiset(s) == multiset(t) && DistinctIds(s)
    ensures DistinctIds(t)
  {
    DistinctIdsDecided(s);
    forall x, y | x in t && y in t && x.shardId == y.shardId ensures x == y && multiset(t)[x] == 1 {
      SameMembers(s, t, x);
      SameMembers(s, t, y);
    }
    DistinctIdsDecided(t);
  }

  lemma UsablePermutes(a: seq<ShardSpec>, b: seq<ShardSpec>)
    requires multiset(a) == multiset(b) && Usable(a)
    ensures Usable(b)
  {
    TrimmedPermutes(a, b);
    DistinctIdsPermutes(TrimmedAll(a), TrimmedAll(b));
    assert |multiset(a)| == |a| && |multiset(b)| == |b|;
    forall i | 0 <= i < |b| ensures Complete(Trimmed(b[i])) {
      SameMembers(a, b, b[i]);
      var j :| 0 <= j < |a| && a[j] == b[i];
    }
  }

  /**
   * Reordering the entries of the file changes neither whether the map is accepted, nor what it
   * normalises to, nor therefore which shard any namespace and queue are sent to.
   */
  lemma RoutingIgnoresFileOrder(a: seq<ShardSpec>, b: seq<ShardSpec>, hash: (string, string) -> nat, ns: string, queue: string)
    requires multiset(a) == multiset(b)
    ensures Usable(a) <==> Usable(b)
    ensures Usable(a) ==>
              var s, t := StableSort(TrimmedAll(a), SpecKey), StableSort(TrimmedAll(b), SpecKey);
              s == t && TargetSpec(hash, s, ns, queue) == TargetSpec(hash, t, ns, queue)
  {
    if Usable(b) {
      UsablePermutes(b, a);
    }
    if Usable(a) {
      UsablePermutes(a, b);
      TrimmedPermutes(a, b);
      var s, t := TrimmedAll(a), TrimmedAll(b);
      var elements := set i | 0 <= i < |s| :: s[i];
      assert Enumerates(s, elements);
      EnumeratesPermutation(s, t, elements);
      assert DistinctKeys(elements, SpecKey);
      SortIsListing(s, elements, SpecKey);
      SortIsListing(t, elements, SpecKey);
    }
  }

  /** A usable map ends up in strictly increasing order of shard ids. */
  lemma NormalizedByShardId(specs: seq<ShardSpec>)
    requires Usable(specs)
    ensures var s := StableSort(TrimmedAll(specs), SpecKey);
            |s| == |specs| && forall i, j | 0 <= i < j < |s| :: StrLess(s[i].shardId, s[j].shardId)
  {
    var t, s := TrimmedAll(specs), StableSort(TrimmedAll(specs), SpecKey);
    SortSorted(t, SpecKey);
    SortMultiset(t, SpecKey);
    var elements := set i | 0 <= i < |t| :: t[i];
    assert Enumerates(t, elements);
    EnumeratesPermutation(t, s, elements);
    forall i, j | 0 <= i < j < |s| ensures StrLess(s[i].shardId, s[j].shardId) {
      assert s[i] in s && s[j] in s && s[i] != s[j];
      StrLessTotal(s[i].shardId, s[j].shardId);
    }
  }

  /** Namespace and queue go to the shard at their hash's remainder, surrounding blanks not counting. */
  lemma TargetByRemainder(hash: (string, string) -> nat, shards: seq<ShardSpec>, ns: string, queue: string, i: nat)
    requires i < |shards| && DistinctIds(shards) && TrimSpace(ns) != "" && TrimSpace(queue) != ""
    ensures TargetSpec(hash, shards, ns, queue) == Some(shards[i]) <==> hash(TrimSpace(ns), TrimSpace(queue)) % |shards| == i
  {
    var r := hash(TrimSpace(ns), TrimSpace(queue)) % |shards|;
    if r != i {
      assert shards[r].shardId != shards[i].shardId;
    }
  }
}
