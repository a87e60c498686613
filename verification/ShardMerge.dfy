/** Fan-out over shards: append every shard's rows, sort once, cut one page. */
module ShardMerge {
  import opened Text
  import opened Ordering
  import opened Agents

  datatype LogEntry = LogEntry(id: string, timestamp: int, tupleId: string)

  /** Newest first, ties by id. */
  function EntryKey(e: LogEntry): SortKey {
    SortKey(-e.timestamp, e.id)
  }

  function FetchSize(limit: int, offset: int): nat {
    if limit + offset <= 0 then 100 else limit + offset
  }

  function MergedPage(shards: seq<seq<LogEntry>>, limit: int, offset: int): seq<LogEntry> {
    Page(StableSort(Flatten(TakeEach(shards, FetchSize(limit, offset))), EntryKey), limit, offset)
  }

  /** The page of one log that held every shard's events. */
  function GlobalPage(shards: seq<seq<LogEntry>>, limit: int, offset: int): seq<LogEntry> {
    Page(StableSort(Flatten(shards), EntryKey), limit, offset)
  }

  /** GetGlobalEvents: fetch limit + offset rows of each shard, append, sort, slice. */
  method GetGlobalEvents(shards: seq<seq<LogEntry>>, limit: int, offset: int) returns (page: seq<LogEntry>)
    ensures page == MergedPage(shards, limit, offset)
    ensures limit > 0 && offset >= 0 && (forall i | 0 <= i < |shards| :: Sorted(shards[i], EntryKey)) ==>
              page == GlobalPage(shards, limit, offset)
    ensures limit > 0 && offset >= 0 && DistinctIds(Flatten(shards)) && NoneTooFarBack(shards) ==>
              page == GlobalPage(shards, limit, offset)
  {
    hide NoneTooFarBack, DistinctIds;
    var fetch := limit + offset;
    if fetch <= 0 {
      fetch := 100;
    }
    var all := [];
    for i := 0 to |shards|
      invariant all == Flatten(TakeEach(shards[..i], fetch))
    {
      TakeEachSnoc(shards, i, fetch);
      all := all + Take(shards[i], fetch);
    }
    assert shards[..|shards|] == shards;
    all := StableSort(all, EntryKey);
    if limit > 0 && offset >= 0 && forall i | 0 <= i < |shards| :: Sorted(shards[i], EntryKey) {
      MergedPageIsGlobal(shards, limit, offset);
    }
    if limit > 0 && offset >= 0 && DistinctIds(Flatten(shards)) && NoneTooFarBack(shards) {
      PagesExactIffNoneTooFarBack(shards);
    }
    if offset > 0 {
      if offset >= |all| {
        return [];
      }
      all := all[offset..];
    }
    if 0 < limit < |all| {
      all := all[..limit];
    }
    return all;
  }

  lemma {:induction false} TakeEachSnoc<T>(parts: seq<seq<T>>, i: nat, n: nat)
    requires i < |parts|
    ensures Flatten(TakeEach(parts[..i + 1], n)) == Flatten(TakeEach(parts[..i], n)) + Take(parts[i], n)
  {
    assert parts[..i + 1] == parts[..i] + [parts[i]];
    TakeEachConcat(parts[..i], [parts[i]], n);
    FlattenConcat(TakeEach(parts[..i], n), TakeEach([parts[i]], n));
    assert TakeEach([parts[i]], n) == [Take(parts[i], n)];
  }

  lemma {:induction false} TakeEachConcat<T>(a: seq<seq<T>>, b: seq<seq<T>>, n: nat)
    ensures TakeEach(a + b, n) == TakeEach(a, n) + TakeEach(b, n)
  {
    if a == [] {
      assert a + b == b;
    } else {
      assert (a + b)[1..] == a[1..] + b;
      TakeEachConcat(a[1..], b, n);
    }
  }

  /** Enough rows are fetched from each shard, provided each returns them in the order of the merge. */
  lemma MergedPageIsGlobal(shards: seq<seq<LogEntry>>, limit: int, offset: int)
    requires limit > 0 && offset >= 0 && forall i | 0 <= i < |shards| :: Sorted(shards[i], EntryKey)
    ensures MergedPage(shards, limit, offset) == GlobalPage(shards, limit, offset)
  {
    var n := limit + offset;
    MergeOfCutParts([], shards, n, EntryKey);
    assert [] + Flatten(shards) == Flatten(shards);
    assert [] + Flatten(TakeEach(shards, n)) == Flatten(TakeEach(shards, n));
    PageOfTake(StableSort(Flatten(shards), EntryKey), limit, offset);
    PageOfTake(StableSort(Flatten(TakeEach(shards, n)), EntryKey), limit, offset);
  }

  /** The shards order by timestamp alone. With a tie the first page can show the wrong event. */
  lemma TieShowsWrongEvent()
    ensures var shard := [LogEntry("b", 5, "x"), LogEntry("a", 5, "y")];
            MergedPage([shard], 1, 0) == [LogEntry("b", 5, "x")] && GlobalPage([shard], 1, 0) == [LogEntry("a", 5, "y")]
  {
    var b, a := LogEntry("b", 5, "x"), LogEntry("a", 5, "y");
    var shard := [b, a];
    assert StrLess("a", "b") && !StrLess("b", "a");
    assert Before(EntryKey(a), EntryKey(b));
    assert Take(shard, 1) == [b];
    assert TakeEach([shard], 1) == [[b]];
    assert Flatten([[b]]) == [b] + Flatten([[b]][1..]) == [b];
    assert StableSort([b], EntryKey) == [b];
    assert Flatten([shard]) == shard + Flatten([shard][1..]) == shard;
    assert shard[1..] == [a];
    assert StableSort([a], EntryKey) == [a];
    assert StableSort(shard, EntryKey) == Insert(b, [a], EntryKey) == [a, b];
  }

  ghost predicate PagesExact(shards: seq<seq<LogEntry>>) {
    forall limit: int, offset: int | limit > 0 && offset >= 0 ::
      MergedPage(shards, limit, offset) == GlobalPage(shards, limit, offset)
  }

  ghost predicate DistinctIds(s: seq<LogEntry>) {
    forall i, j | 0 <= i < j < |s| :: s[i].id != s[j].id
  }

  /** No event stands further back in its own shard than in the log of all events. */
  ghost predicate NoneTooFarBack(shards: seq<seq<LogEntry>>) {
    var all := StableSort(Flatten(shards), EntryKey);
    forall i, p, g | 0 <= i < |shards| && 0 <= p < |shards[i]| && 0 <= g < |all| && all[g] == shards[i][p] :: p <= g
  }

  ghost predicate StrictlySorted(s: seq<LogEntry>) {
    forall i, j | 0 <= i < j < |s| :: Before(EntryKey(s[i]), EntryKey(s[j]))
  }

  lemma {:induction false} InFlatten<T>(parts: seq<seq<T>>, n: nat, x: T)
    ensures x in Flatten(TakeEach(parts, n)) <==> exists i, p :: 0 <= i < |parts| && 0 <= p < |parts[i]| && p < n && parts[i][p] == x
  {
    if parts != [] {
      var rest := parts[1..];
      InFlatten(rest, n, x);
      assert Flatten(TakeEach(parts, n)) == Take(parts[0], n) + Flatten(TakeEach(rest, n));
      if x in Take(parts[0], n) {
        var p :| 0 <= p < |Take(parts[0], n)| && Take(parts[0], n)[p] == x;
        assert parts[0][p] == x;
      }
      if x in Flatten(TakeEach(rest, n)) {
        var i, p :| 0 <= i < |rest| && 0 <= p < |rest[i]| && p < n && rest[i][p] == x;
        assert parts[i + 1][p] == x;
      }
      forall i, p | 0 <= i < |parts| && 0 <= p < |parts[i]| && p < n && parts[i][p] == x
        ensures x in Flatten(TakeEach(parts, n))
      {
        if i == 0 {
          assert Take(parts[0], n)[p] == x;
        } else {
          assert rest[i - 1][p] == x;
        }
      }
    }
  }

  lemma {:induction false} WherePlaced<T>(parts: seq<seq<T>>, x: T) returns (i: nat, p: nat)
    requires x in Flatten(parts)
    ensures i < |parts| && p < |parts[i]| && parts[i][p] == x
  {
    if x in parts[0] {
      i := 0;
      p :| 0 <= p < |parts[0]| && parts[0][p] == x;
    } else {
      i, p := WherePlaced(parts[1..], x);
      i := i + 1;
    }
  }

  lemma {:induction false} TakenIsThere<T>(parts: seq<seq<T>>, n: nat, x: T)
    requires x in Flatten(TakeEach(parts, n))
    ensures x in Flatten(parts)
  {
    if parts != [] && x !in Take(parts[0], n) {
      TakenIsThere(parts[1..], n, x);
    }
  }

  lemma {:induction false} PlacedIsThere<T>(parts: seq<seq<T>>, i: nat, p: nat)
    requires i < |parts| && p < |parts[i]|
    ensures parts[i][p] in Flatten(parts)
  {
    if i > 0 {
      PlacedIsThere(parts[1..], i - 1, p);
    }
  }

  lemma DistinctConcat(a: seq<LogEntry>, b: seq<LogEntry>)
    ensures DistinctIds(a + b) <==>
              DistinctIds(a) && DistinctIds(b) && forall i, j | 0 <= i < |a| && 0 <= j < |b| :: a[i].id != b[j].id
  {
    var u := a + b;
    if DistinctIds(u) {
      forall i, j | 0 <= i < |a| && 0 <= j < |b| ensures a[i].id != b[j].id {
        assert u[i] == a[i] && u[|a| + j] == b[j];
      }
      forall i, j | 0 <= i < j < |b| ensures b[i].id != b[j].id {
        assert u[|a| + i] == b[i] && u[|a| + j] == b[j];
      }
      forall i, j | 0 <= i < j < |a| ensures a[i].id != a[j].id {
        assert u[i] == a[i] && u[j] == a[j];
      }
    }
  }

  lemma {:induction false} CutKeepsDistinct(parts: seq<seq<LogEntry>>, n: nat)
    requires DistinctIds(Flatten(parts))
    ensures DistinctIds(Flatten(TakeEach(parts, n)))
  {
    if parts != [] {
      var first, rest := parts[0], Flatten(parts[1..]);
      var cut, cuts := Take(first, n), Flatten(TakeEach(parts[1..], n));
      DistinctConcat(first, rest);
      CutKeepsDistinct(parts[1..], n);
      forall i, j | 0 <= i < |cut| && 0 <= j < |cuts| ensures cut[i].id != cuts[j].id {
        TakenIsThere(parts[1..], n, cuts[j]);
        var k :| 0 <= k < |rest| && rest[k] == cuts[j];
        assert first[i] == cut[i];
      }
      DistinctConcat(cut, cuts);
    }
  }

  /** With distinct ids an entry has one place. */
  lemma {:induction false} OnePlace(parts: seq<seq<LogEntry>>, i: nat, p: nat, j: nat, q: nat)
    requires DistinctIds(Flatten(parts)) && i <= j < |parts| && p < |parts[i]| && q < |parts[j]|
    requires parts[i][p] == parts[j][q]
    ensures i == j && p == q
  {
    var first, rest := parts[0], Flatten(parts[1..]);
    DistinctConcat(first, rest);
    if i > 0 {
      OnePlace(parts[1..], i - 1, p, j - 1, q);
    } else if j > 0 {
      PlacedIsThere(parts[1..], j - 1, q);
    }
  }

  lemma DistinctPermutation(a: seq<LogEntry>, b: seq<LogEntry>)
    requires DistinctIds(a) && multiset(a) == multiset(b)
    ensures DistinctIds(b)
  {
    assert NoDuplicates(a);
    forall i, j | 0 <= i < j < |b| ensures b[i].id != b[j].id {
      if b[i] == b[j] {
        CountTwice(b, i, j);
        CountOnce(a, b[i]);
      }
      assert b[i] in multiset(b) && b[j] in multiset(b);
      assert b[i] in a && b[j] in a;
      var k :| 0 <= k < |a| && a[k] == b[i];
      var l :| 0 <= l < |a| && a[l] == b[j];
    }
  }

  lemma SortIsStrict(s: seq<LogEntry>)
    requires DistinctIds(s)
    ensures var t := StableSort(s, EntryKey); StrictlySorted(t) && |t| == |s| && multiset(t) == multiset(s)
  {
    var t := StableSort(s, EntryKey);
    SortSorted(s, EntryKey);
    SortMultiset(s, EntryKey);
    DistinctPermutation(s, t);
    forall i, j | 0 <= i < j < |t| ensures Before(EntryKey(t[i]), EntryKey(t[j])) {
      BeforeTotal(EntryKey(t[i]), EntryKey(t[j]));
    }
  }

  /** Of two strictly sorted lists, one inside the other, the first `n` agree if the smaller holds them. */
  lemma {:induction false} FirstAgree(all: seq<LogEntry>, part: seq<LogEntry>, n: nat)
    requires StrictlySorted(all) && StrictlySorted(part) && n <= |all|
    requires forall x | x in part :: x in all
    requires forall g | 0 <= g < n :: all[g] in part
    ensures n <= |part| && part[..n] == all[..n]
  {
    if n > 0 {
      var k := n - 1;
      FirstAgree(all, part, k);
      var m :| 0 <= m < |part| && part[m] == all[k];
      if m < k {
        assert part[..k][m] == all[..k][m];
        BeforeTotal(EntryKey(all[m]), EntryKey(all[k]));
      }
      assert m >= k;
      assert part[k] in part;
      var j :| 0 <= j < |all| && all[j] == part[k];
      if j < k {
        assert part[..k][j] == all[..k][j];
        BeforeTotal(EntryKey(part[j]), EntryKey(part[k]));
      }
      BeforeTotal(EntryKey(all[k]), EntryKey(part[k]));
      assert m == k;
    }
  }

  lemma SortMembers(s: seq<LogEntry>, x: LogEntry)
    ensures x in StableSort(s, EntryKey) <==> x in s
  {
    SortMultiset(s, EntryKey);
    assert x in multiset(StableSort(s, EntryKey)) <==> x in multiset(s);
  }

  lemma TakesAgree(all: seq<LogEntry>, part: seq<LogEntry>, n: nat)
    requires StrictlySorted(all) && StrictlySorted(part)
    requires forall x | x in part :: x in all
    requires forall g | 0 <= g < |all| && g < n :: all[g] in part
    ensures Take(part, n) == Take(all, n)
  {
    var m := if n < |all| then n else |all|;
    FirstAgree(all, part, m);
    if m < n && m < |part| {
      assert part[m] in part;
      var j :| 0 <= j < |all| && all[j] == part[m];
      assert part[..m][j] == all[..m][j];
      BeforeTotal(EntryKey(part[j]), EntryKey(part[m]));
    }
  }

  lemma NeededIsFetched(shards: seq<seq<LogEntry>>, n: nat, g: nat)
    requires NoneTooFarBack(shards) && g < n && g < |StableSort(Flatten(shards), EntryKey)|
    ensures StableSort(Flatten(shards), EntryKey)[g] in Flatten(TakeEach(shards, n))
  {
    var all := StableSort(Flatten(shards), EntryKey);
    assert all[g] in all;
    SortMembers(Flatten(shards), all[g]);
    var i, p := WherePlaced(shards, all[g]);
    InFlatten(shards, n, all[g]);
  }

  lemma CutIsEnough(shards: seq<seq<LogEntry>>, n: nat)
    requires DistinctIds(Flatten(shards)) && NoneTooFarBack(shards)
    ensures Take(StableSort(Flatten(TakeEach(shards, n)), EntryKey), n) == Take(StableSort(Flatten(shards), EntryKey), n)
  {
    hide DistinctIds, NoneTooFarBack, StrictlySorted, StableSort, Flatten, TakeEach;
    var cut := Flatten(TakeEach(shards, n));
    var all, part := StableSort(Flatten(shards), EntryKey), StableSort(cut, EntryKey);
    SortIsStrict(Flatten(shards));
    CutKeepsDistinct(shards, n);
    SortIsStrict(cut);
    forall x | x in part ensures x in all {
      SortMembers(cut, x);
      TakenIsThere(shards, n, x);
      SortMembers(Flatten(shards), x);
    }
    forall g | 0 <= g < |all| && g < n ensures all[g] in part {
      NeededIsFetched(shards, n, g);
      SortMembers(cut, all[g]);
    }
    TakesAgree(all, part, n);
  }

  /** An event fetched too late is missing from the page it belongs to. */
  lemma LateIsMissing(shards: seq<seq<LogEntry>>, i: nat, p: nat, g: nat)
    requires DistinctIds(Flatten(shards)) && i < |shards| && g < p < |shards[i]|
    requires g < |StableSort(Flatten(shards), EntryKey)| && StableSort(Flatten(shards), EntryKey)[g] == shards[i][p]
    ensures MergedPage(shards, 1, g) != GlobalPage(shards, 1, g)
  {
    var x, all, cut := shards[i][p], StableSort(Flatten(shards), EntryKey), Flatten(TakeEach(shards, g + 1));
    assert GlobalPage(shards, 1, g)[0] == x;
    if x in cut {
      InFlatten(shards, g + 1, x);
      var j, q :| 0 <= j < |shards| && 0 <= q < |shards[j]| && q < g + 1 && shards[j][q] == x;
      if i <= j {
        OnePlace(shards, i, p, j, q);
      } else {
        OnePlace(shards, j, q, i, p);
      }
    }
    SortMembers(cut, x);
  }

  /** Every page of every fan-out is right exactly when no event stands further back in its shard than in the whole. */
  lemma PagesExactIffNoneTooFarBack(shards: seq<seq<LogEntry>>)
    requires DistinctIds(Flatten(shards))
    ensures PagesExact(shards) <==> NoneTooFarBack(shards)
  {
    hide StableSort, Flatten, TakeEach, DistinctIds;
    var all := StableSort(Flatten(shards), EntryKey);
    if NoneTooFarBack(shards) {
      forall limit: int, offset: int | limit > 0 && offset >= 0
        ensures MergedPage(shards, limit, offset) == GlobalPage(shards, limit, offset)
      {
        CutIsEnough(shards, limit + offset);
        PageOfTake(all, limit, offset);
        PageOfTake(StableSort(Flatten(TakeEach(shards, limit + offset)), EntryKey), limit, offset);
      }
    } else {
      var i, p, g :| 0 <= i < |shards| && 0 <= p < |shards[i]| && 0 <= g < |all| && all[g] == shards[i][p] && p > g;
      LateIsMissing(shards, i, p, g);
    }
  }

  /** For one shard, every page is right exactly when its rows come in the full order of the merge. */
  lemma OneShardExactIffOrdered(shard: seq<LogEntry>)
    ensures PagesExact([shard]) <==> Sorted(shard, EntryKey)
  {
    if Sorted(shard, EntryKey) {
      forall limit: int, offset: int | limit > 0 && offset >= 0
        ensures MergedPage([shard], limit, offset) == GlobalPage([shard], limit, offset)
      {
        MergedPageIsGlobal([shard], limit, offset);
      }
    }
    if PagesExact([shard]) {
      var sorted := StableSort(shard, EntryKey);
      SortSorted(shard, EntryKey);
      forall n | 0 <= n <= |shard| ensures multiset(shard[..n]) == multiset(sorted[..n]) {
        PrefixesAgree(shard, n);
      }
      SamePrefixes(shard, sorted);
    }
  }

  lemma PrefixesAgree(shard: seq<LogEntry>, n: nat)
    requires PagesExact([shard]) && n <= |shard|
    ensures var sorted := StableSort(shard, EntryKey); n <= |sorted| && multiset(shard[..n]) == multiset(sorted[..n])
  {
    SortSorted(shard, EntryKey);
    if n > 0 {
      assert MergedPage([shard], n, 0) == GlobalPage([shard], n, 0);
      assert TakeEach([shard], n) == [Take(shard, n)];
      assert Flatten([Take(shard, n)]) == Take(shard, n) + Flatten<LogEntry>([]) == Take(shard, n);
      assert Flatten([shard]) == shard + Flatten<LogEntry>([]) == shard;
      SortSorted(Take(shard, n), EntryKey);
      SortMultiset(Take(shard, n), EntryKey);
      assert Take(shard, n) == shard[..n];
      assert Page(StableSort(Take(shard, n), EntryKey), n, 0) == StableSort(Take(shard, n), EntryKey);
      assert Page(StableSort(shard, EntryKey), n, 0) == StableSort(shard, EntryKey)[..n];
    }
  }

  lemma SamePrefixes<T>(a: seq<T>, b: seq<T>)
    requires |a| == |b| && forall n | 0 <= n <= |a| :: multiset(a[..n]) == multiset(b[..n])
    ensures a == b
  {
    forall i | 0 <= i < |a| ensures a[i] == b[i] {
      assert a[..i + 1] == a[..i] + [a[i]] && b[..i + 1] == b[..i] + [b[i]];
      assert multiset(a[..i + 1]) == multiset(a[..i]) + multiset{a[i]};
      assert multiset(b[..i + 1]) == multiset(b[..i]) + multiset{b[i]};
      assert multiset(a[..i]) == multiset(b[..i]) && multiset(a[..i + 1]) == multiset(b[..i + 1]);
      var common := multiset(a[..i]);
      assert (common + multiset{a[i]})[a[i]] == (common + multiset{b[i]})[a[i]];
    }
  }

  // ----- Several stores as one -----

  /** All records of several stores together. */
  function Union(shards: seq<map<string, Agent>>): map<string, Agent> {
    if shards == [] then map[] else Union(shards[1..]) + shards[0]
  }

  ghost predicate Disjoint(shards: seq<map<string, Agent>>) {
    forall i, j | 0 <= i < j < |shards| :: shards[i].Keys !! shards[j].Keys
  }

  lemma {:induction false} UnionMember(shards: seq<map<string, Agent>>, id: string)
    ensures id in Union(shards) <==> exists i :: 0 <= i < |shards| && id in shards[i]
  {
    if shards != [] {
      UnionMember(shards[1..], id);
      if id in Union(shards[1..]) {
        var i :| 0 <= i < |shards[1..]| && id in shards[1..][i];
        assert id in shards[i + 1];
      }
      if i :| 0 <= i < |shards| && id in shards[i] {
        assert i > 0 ==> id in shards[1..][i - 1];
      }
    }
  }

  lemma UnionSnoc(shards: seq<map<string, Agent>>, n: nat)
    requires n < |shards| && Disjoint(shards)
    ensures Union(shards[..n + 1]) == Union(shards[..n]) + shards[n]
    ensures Union(shards[..n]).Keys !! shards[n].Keys
  {
    assert shards[..n + 1] == shards[..n] + [shards[n]];
    forall i | 0 <= i < n ensures shards[..n][i].Keys !! shards[n].Keys {
    }
    UnionAppend(shards[..n], shards[n]);
  }

  lemma {:induction false} UnionAppend(shards: seq<map<string, Agent>>, last: map<string, Agent>)
    requires forall i | 0 <= i < |shards| :: shards[i].Keys !! last.Keys
    ensures Union(shards + [last]) == Union(shards) + last && Union(shards).Keys !! last.Keys
  {
    if shards == [] {
      assert shards + [last] == [last];
      assert [last][1..] == [];
    } else {
      assert (shards + [last])[1..] == shards[1..] + [last];
      UnionAppend(shards[1..], last);
    }
  }

  /** A page lists the newest events first, ties by id. */
  lemma PageIsNewestFirst(shards: seq<seq<LogEntry>>, limit: int, offset: int)
    ensures var page := GlobalPage(shards, limit, offset);
            forall i, j | 0 <= i < j < |page| ::
              page[i].timestamp > page[j].timestamp
              || (page[i].timestamp == page[j].timestamp && !StrLess(page[j].id, page[i].id))
  {
    SortSorted(Flatten(shards), EntryKey);
    var all, page, from := StableSort(Flatten(shards), EntryKey), GlobalPage(shards, limit, offset), if offset > 0 then offset else 0;
    assert forall i | 0 <= i < |page| :: page[i] == all[from + i];
  }
}
