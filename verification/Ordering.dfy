/** Total orders, stable sorting and paging shared by every listing in the stores. */
module Ordering {

  /** Byte-wise string order. */
  predicate StrLess(a: string, b: string) {
    if b == "" then false
    else if a == "" then true
    else a[0] < b[0] || (a[0] == b[0] && StrLess(a[1..], b[1..]))
  }

  lemma {:induction false} StrLessTotal(a: string, b: string)
    ensures StrLess(a, b) || StrLess(b, a) || a == b
    ensures !(StrLess(a, b) && StrLess(b, a))
  {
    if a != "" && b != "" {
      StrLessTotal(a[1..], b[1..]);
      if a[0] == b[0] && a[1..] == b[1..] {
        assert a == [a[0]] + a[1..] && b == [b[0]] + b[1..];
      }
    }
  }

  lemma {:induction false} StrLessTransitive(a: string, b: string, c: string)
    requires StrLess(a, b) && StrLess(b, c)
    ensures StrLess(a, c)
  {
    if a != "" && a[0] == b[0] && b[0] == c[0] {
      StrLessTransitive(a[1..], b[1..], c[1..]);
    }
  }

  /** Every ordering the stores use ranks by a number and breaks ties by an identifier. */
  datatype SortKey = SortKey(rank: int, id: string)

  predicate Before(a: SortKey, b: SortKey) {
    a.rank < b.rank || (a.rank == b.rank && StrLess(a.id, b.id))
  }

  lemma BeforeTotal(a: SortKey, b: SortKey)
    ensures Before(a, b) || Before(b, a) || a == b
    ensures !(Before(a, b) && Before(b, a))
    ensures !Before(a, a)
  {
    StrLessTotal(a.id, b.id);
    StrLessTotal(a.id, a.id);
  }

  lemma BeforeTransitive(a: SortKey, b: SortKey, c: SortKey)
    ensures Before(a, b) && Before(b, c) ==> Before(a, c)
    ensures !Before(b, a) && !Before(c, b) ==> !Before(c, a)
  {
    StrLessTotal(a.id, b.id);
    StrLessTotal(b.id, c.id);
    StrLessTotal(a.id, c.id);
    if Before(a, b) && Before(b, c) && a.rank == c.rank {
      StrLessTransitive(a.id, b.id, c.id);
    }
    if !Before(b, a) && !Before(c, b) && Before(c, a) && a.rank == c.rank {
      if b.id != a.id && b.id != c.id {
        StrLessTransitive(a.id, b.id, c.id);
      }
    }
  }

  ghost predicate Sorted<T>(s: seq<T>, key: T -> SortKey) {
    forall i, j | 0 <= i < j < |s| :: !Before(key(s[j]), key(s[i]))
  }

  /** The elements of `s` with key `k`, in order. */
  ghost function OfKey<T>(s: seq<T>, key: T -> SortKey, k: SortKey): seq<T> {
    if s == [] then []
    else (if key(s[0]) == k then [s[0]] else []) + OfKey(s[1..], key, k)
  }

  lemma {:induction false} OfKeyConcat<T>(a: seq<T>, b: seq<T>, key: T -> SortKey, k: SortKey)
    ensures OfKey(a + b, key, k) == OfKey(a, key, k) + OfKey(b, key, k)
  {
    if a == [] {
      assert a + b == b;
    } else {
      assert (a + b)[1..] == a[1..] + b;
      OfKeyConcat(a[1..], b, key, k);
    }
  }

  lemma {:induction false} OfKeyNonempty<T>(s: seq<T>, key: T -> SortKey, i: nat)
    requires i < |s|
    ensures OfKey(s, key, key(s[i])) != []
  {
    if i > 0 {
      OfKeyNonempty(s[1..], key, i - 1);
    }
  }

  lemma {:induction false} OfKeyMember<T>(s: seq<T>, key: T -> SortKey, k: SortKey) returns (i: nat)
    requires OfKey(s, key, k) != []
    ensures i < |s| && key(s[i]) == k
  {
    if key(s[0]) == k {
      i := 0;
    } else {
      var j := OfKeyMember(s[1..], key, k);
      i := j + 1;
    }
  }

  /** Go's sort.SliceStable: insertion in front of the first element that is not smaller. */
  function Insert<T>(x: T, s: seq<T>, key: T -> SortKey): seq<T> {
    if s == [] then [x]
    else if Before(key(s[0]), key(x)) then [s[0]] + Insert(x, s[1..], key)
    else [x] + s
  }

  function StableSort<T>(s: seq<T>, key: T -> SortKey): seq<T> {
    if s == [] then [] else Insert(s[0], StableSort(s[1..], key), key)
  }

  lemma InsertCons<T>(y: T, h: T, u: seq<T>, key: T -> SortKey)
    ensures Insert(y, [h] + u, key) == if Before(key(h), key(y)) then [h] + Insert(y, u, key) else [y] + ([h] + u)
  {
    assert ([h] + u)[1..] == u;
  }

  lemma InsertNone<T>(y: T, key: T -> SortKey)
    ensures Insert(y, [], key) == [y]
  {
  }

  lemma OfKeyCons<T>(h: T, u: seq<T>, key: T -> SortKey, k: SortKey)
    ensures OfKey([h] + u, key, k) == (if key(h) == k then [h] else []) + OfKey(u, key, k)
  {
    assert ([h] + u)[1..] == u;
  }

  lemma {:induction false} InsertShape<T>(x: T, s: seq<T>, key: T -> SortKey) returns (r: nat)
    ensures r <= |s|
    ensures Insert(x, s, key) == s[..r] + [x] + s[r..]
    ensures forall i | 0 <= i < r :: Before(key(s[i]), key(x))
    ensures r < |s| ==> !Before(key(s[r]), key(x))
  {
    r := 0;
    if s != [] && Before(key(s[0]), key(x)) {
      var t := InsertShape(x, s[1..], key);
      r := t + 1;
      assert s[..r] == [s[0]] + s[1..][..t];
      assert s[r..] == s[1..][t..];
    }
  }

  lemma {:induction false} SortSorted<T>(s: seq<T>, key: T -> SortKey)
    ensures Sorted(StableSort(s, key), key)
    ensures |StableSort(s, key)| == |s|
  {
    if s != [] {
      var t := StableSort(s[1..], key);
      SortSorted(s[1..], key);
      var r := InsertShape(s[0], t, key);
      var out := StableSort(s, key);
      forall i, j | 0 <= i < j < |out|
        ensures !Before(key(out[j]), key(out[i]))
      {
        BeforeTotal(key(out[i]), key(out[j]));
        if i == r {
          BeforeTransitive(key(s[0]), key(t[r]), key(out[j]));
          BeforeTotal(key(t[r]), key(t[r]));
        }
      }
    }
  }

  lemma {:induction false} InsertKeepsKeys<T>(x: T, s: seq<T>, key: T -> SortKey, k: SortKey)
    ensures OfKey(Insert(x, s, key), key, k) == (if key(x) == k then [x] else []) + OfKey(s, key, k)
  {
    hide Insert, OfKey, Before;
    if s == [] {
      InsertNone(x, key);
      OfKeyCons(x, s, key, k);
      assert [x] + s == [x];
    } else {
      var h, u := s[0], s[1..];
      assert s == [h] + u;
      InsertCons(x, h, u, key);
      OfKeyCons(h, u, key, k);
      if Before(key(h), key(x)) {
        BeforeTotal(key(h), key(x));
        InsertKeepsKeys(x, u, key, k);
        OfKeyCons(h, Insert(x, u, key), key, k);
      } else {
        OfKeyCons(x, [h] + u, key, k);
      }
    }
  }

  lemma {:induction false} SortKeepsKeys<T>(s: seq<T>, key: T -> SortKey, k: SortKey)
    ensures OfKey(StableSort(s, key), key, k) == OfKey(s, key, k)
  {
    if s != [] {
      SortKeepsKeys(s[1..], key, k);
      InsertKeepsKeys(s[0], StableSort(s[1..], key), key, k);
    }
  }

  lemma {:induction false} InsertMultiset<T>(x: T, s: seq<T>, key: T -> SortKey)
    ensures multiset(Insert(x, s, key)) == multiset{x} + multiset(s)
  {
    if s != [] {
      var h, u := s[0], s[1..];
      assert s == [h] + u;
      InsertCons(x, h, u, key);
      if Before(key(h), key(x)) {
        InsertMultiset(x, u, key);
      }
    }
  }

  lemma {:induction false} SortMultiset<T>(s: seq<T>, key: T -> SortKey)
    ensures multiset(StableSort(s, key)) == multiset(s)
  {
    if s != [] {
      SortMultiset(s[1..], key);
      InsertMultiset(s[0], StableSort(s[1..], key), key);
      assert s == [s[0]] + s[1..];
    }
  }

  lemma OfKeyTail<T>(s: seq<T>, key: T -> SortKey, k: SortKey)
    requires s != []
    ensures OfKey(s[1..], key, k) == if key(s[0]) == k then OfKey(s, key, k)[1..] else OfKey(s, key, k)
  {
    if key(s[0]) == k {
      assert OfKey(s, key, k) == [s[0]] + OfKey(s[1..], key, k);
    }
  }

  /** Sortedness together with the order inside each key class determines the sequence. */
  lemma {:induction false} StableSortUnique<T>(a: seq<T>, b: seq<T>, key: T -> SortKey)
    requires Sorted(a, key) && Sorted(b, key)
    requires forall k :: OfKey(a, key, k) == OfKey(b, key, k)
    ensures a == b
  {
    if b != [] {
      OfKeyNonempty(b, key, 0);
    }
    if a != [] {
      OfKeyNonempty(a, key, 0);
      var i := OfKeyMember(b, key, key(a[0]));
      var j := OfKeyMember(a, key, key(b[0]));
      BeforeTotal(key(a[0]), key(b[0]));
      assert i > 0 ==> !Before(key(b[i]), key(b[0]));
      assert j > 0 ==> !Before(key(a[j]), key(a[0]));
      assert key(a[0]) == key(b[0]);
      assert OfKey(a, key, key(a[0]))[0] == a[0];
      assert OfKey(b, key, key(b[0]))[0] == b[0];
      forall k ensures OfKey(a[1..], key, k) == OfKey(b[1..], key, k) {
        OfKeyTail(a, key, k);
        OfKeyTail(b, key, k);
      }
      StableSortUnique(a[1..], b[1..], key);
    }
  }

  lemma SortOfSorted<T>(s: seq<T>, key: T -> SortKey)
    requires Sorted(s, key)
    ensures StableSort(s, key) == s
  {
    SortSorted(s, key);
    forall k ensures OfKey(StableSort(s, key), key, k) == OfKey(s, key, k) {
      SortKeepsKeys(s, key, k);
    }
    StableSortUnique(StableSort(s, key), s, key);
  }

  function Flatten<T>(parts: seq<seq<T>>): seq<T> {
    if parts == [] then [] else parts[0] + Flatten(parts[1..])
  }

  lemma {:induction false} FlattenConcat<T>(a: seq<seq<T>>, b: seq<seq<T>>)
    ensures Flatten(a + b) == Flatten(a) + Flatten(b)
  {
    if a == [] {
      assert a + b == b;
    } else {
      assert (a + b)[1..] == a[1..] + b;
      FlattenConcat(a[1..], b);
    }
  }

  function Take<T>(s: seq<T>, n: nat): seq<T> {
    if n < |s| then s[..n] else s
  }

  function TakeEach<T>(parts: seq<seq<T>>, n: nat): (r: seq<seq<T>>)
    ensures |r| == |parts|
  {
    if parts == [] then [] else [Take(parts[0], n)] + TakeEach(parts[1..], n)
  }

  function InsertAt<T>(s: seq<T>, r: nat, x: T): seq<T>
    requires r <= |s|
  {
    s[..r] + [x] + s[r..]
  }

  lemma InsertAtCons<T>(h: T, u: seq<T>, r: nat, x: T)
    requires r <= |u|
    ensures InsertAt([h] + u, r + 1, x) == [h] + InsertAt(u, r, x)
    ensures InsertAt(u, 0, x) == [x] + u
  {
  }

  lemma SortCons<T>(y: T, u: seq<T>, v: seq<T>, key: T -> SortKey)
    ensures StableSort([y] + u + v, key) == Insert(y, StableSort(u + v, key), key)
  {
    assert ([y] + u + v)[1..] == u + v;
  }

  /**
   * Where an element lands: sorting with `x` in place is sorting without it and inserting it at a
   * position past every element of `low`, the elements just before it that are not larger.
   */
  lemma {:induction false} SortWithout<T>(p: seq<T>, low: seq<T>, x: T, v: seq<T>, key: T -> SortKey) returns (r: nat)
    requires forall i | 0 <= i < |low| :: !Before(key(x), key(low[i]))
    ensures |low| <= r && Lands(StableSort(p + low + [x] + v, key), StableSort(p + low + v, key), r, x, key)
    decreases |p| + |low|
  {
    if p != [] {
      var y, p' := p[0], p[1..];
      assert p == [y] + p';
      var q := SortWithout(p', low, x, v, key);
      r := SortWithoutCons(y, p' + low, x, v, q, key);
      assert [y] + (p' + low) == p + low;
    } else if low != [] {
      var y, low' := low[0], low[1..];
      assert low == [y] + low';
      var q := SortWithout(p, low', x, v, key);
      r := SortWithoutCons(y, p + low', x, v, q, key);
      assert [y] + (p + low') == p + low;
    } else {
      assert p + low + v == v;
      assert p + low + [x] + v == [x] + [] + v;
      SortCons(x, [], v, key);
      assert [] + v == v;
      r := InsertShape(x, StableSort(v, key), key);
    }
  }

  lemma SortWithoutCons<T>(y: T, u: seq<T>, x: T, v: seq<T>, q: nat, key: T -> SortKey) returns (r: nat)
    requires Lands(StableSort(u + [x] + v, key), StableSort(u + v, key), q, x, key)
    ensures q <= r && Lands(StableSort([y] + u + [x] + v, key), StableSort([y] + u + v, key), r, x, key)
    ensures !Before(key(x), key(y)) ==> r == q + 1
  {
    SortCons(y, u, v, key);
    SortCons(y, u + [x], v, key);
    assert [y] + (u + [x]) == [y] + u + [x];
    r := InsertAround(y, StableSort(u + v, key), q, x, key);
  }

  /** Inserting `y` into a sequence that starts with `x`. */
  lemma InsertAroundFront<T>(y: T, s: seq<T>, x: T, key: T -> SortKey) returns (r: nat)
    requires s != [] ==> !Before(key(s[0]), key(x))
    ensures Lands(Insert(y, [x] + s, key), Insert(y, s, key), r, x, key)
    ensures r == if Before(key(x), key(y)) then 0 else 1
  {
    var t := Insert(y, s, key);
    BeforeTotal(key(x), key(y));
    InsertCons(y, x, s, key);
    if Before(key(x), key(y)) {
      r := 0;
      InsertAtCons(x, t, 0, x);
    } else {
      r := 1;
      if s != [] {
        BeforeTransitive(key(y), key(x), key(s[0]));
      }
      assert t == [y] + s;
      InsertAtCons(y, s, 0, x);
    }
  }

  /** `r` is where `x` goes in `t` when `t` stays sorted around it. */
  ghost predicate Lands<T>(full: seq<T>, t: seq<T>, r: nat, x: T, key: T -> SortKey) {
    r <= |t| && full == InsertAt(t, r, x) && (r < |t| ==> !Before(key(t[r]), key(x)))
  }

  lemma LandsCons<T>(h: T, full: seq<T>, t: seq<T>, r: nat, x: T, key: T -> SortKey)
    requires Lands(full, t, r, x, key)
    ensures Lands([h] + full, [h] + t, r + 1, x, key)
  {
    InsertAtCons(h, t, r, x);
  }

  lemma {:induction false} InsertAround<T>(y: T, s: seq<T>, q: nat, x: T, key: T -> SortKey) returns (r: nat)
    requires q <= |s| && (q < |s| ==> !Before(key(s[q]), key(x)))
    ensures q <= r && Lands(Insert(y, InsertAt(s, q, x), key), Insert(y, s, key), r, x, key)
    ensures !Before(key(x), key(y)) ==> r == q + 1
  {
    hide Insert, Before, InsertAt;
    if q == 0 {
      InsertAtCons(x, s, 0, x);
      r := InsertAroundFront(y, s, x, key);
    } else {
      var h, u := s[0], s[1..];
      assert s == [h] + u;
      InsertAtCons(h, u, q - 1, x);
      InsertCons(y, h, u, key);
      InsertCons(y, h, InsertAt(u, q - 1, x), key);
      if Before(key(h), key(y)) {
        var r' := InsertAround(y, u, q - 1, x, key);
        r := r' + 1;
        LandsCons(h, Insert(y, InsertAt(u, q - 1, x), key), Insert(y, u, key), r', x, key);
      } else {
        r := q + 1;
        LandsCons(y, InsertAt(s, q, x), s, q, x, key);
      }
    }
  }

  lemma TakeOfInsertAt<T>(s: seq<T>, r: nat, x: T, n: nat)
    requires n <= r <= |s|
    ensures Take(InsertAt(s, r, x), n) == Take(s, n)
  {
  }

  /** Cutting a sorted part to its first `n` elements keeps the first `n` of the merge. */
  lemma {:induction false} CutPart<T>(p: seq<T>, part: seq<T>, v: seq<T>, n: nat, key: T -> SortKey)
    requires Sorted(part, key)
    ensures Take(StableSort(p + part + v, key), n) == Take(StableSort(p + Take(part, n) + v, key), n)
    decreases |part|
  {
    if n < |part| {
      var low, x := part[..|part| - 1], part[|part| - 1];
      assert part == low + [x];
      assert p + part + v == p + low + [x] + v;
      var r := SortWithout(p, low, x, v, key);
      TakeOfInsertAt(StableSort(p + low + v, key), r, x, n);
      CutPart(p, low, v, n, key);
      assert Take(low, n) == Take(part, n);
    }
  }

  lemma {:induction false} MergeOfCutParts<T>(p: seq<T>, parts: seq<seq<T>>, n: nat, key: T -> SortKey)
    requires forall i | 0 <= i < |parts| :: Sorted(parts[i], key)
    ensures Take(StableSort(p + Flatten(parts), key), n) == Take(StableSort(p + Flatten(TakeEach(parts, n)), key), n)
    decreases |parts|
  {
    if parts != [] {
      var rest := Flatten(parts[1..]);
      assert p + Flatten(parts) == p + parts[0] + rest;
      CutPart(p, parts[0], rest, n, key);
      MergeOfCutParts(p + Take(parts[0], n), parts[1..], n, key);
      assert p + Take(parts[0], n) + Flatten(TakeEach(parts[1..], n)) == p + Flatten(TakeEach(parts, n));
    }
  }

  /** Offset, then limit; a non-positive limit or offset is ignored. */
  function Page<T>(s: seq<T>, limit: int, offset: int): seq<T> {
    if offset > 0 && offset >= |s| then []
    else
      var rest := if offset > 0 then s[offset..] else s;
      if 0 < limit < |rest| then rest[..limit] else rest
  }

  lemma PageOfTake<T>(s: seq<T>, limit: int, offset: int)
    requires limit > 0 && offset >= 0
    ensures Page(s, limit, offset) == Page(Take(s, limit + offset), limit, offset)
  {
  }

  ghost predicate NoDuplicates<T>(s: seq<T>) {
    forall i, j | 0 <= i < j < |s| :: s[i] != s[j]
  }

  /** `s` lists the elements of `elements`, each once, in some order. */
  ghost predicate Enumerates<T(!new)>(s: seq<T>, elements: set<T>) {
    NoDuplicates(s) && forall x :: x in s <==> x in elements
  }

  lemma EnumeratesConcat<T(!new)>(s: seq<T>, a: set<T>, t: seq<T>, b: set<T>)
    requires Enumerates(s, a) && Enumerates(t, b) && a !! b
    ensures Enumerates(s + t, a + b)
  {
    var u := s + t;
    forall i, j | 0 <= i < j < |u| ensures u[i] != u[j] {
      if i < |s| <= j {
        assert s[i] in s && t[j - |s|] in t;
      }
    }
  }

  ghost function SetToSeq<T(!new)>(elements: set<T>): (s: seq<T>)
    ensures Enumerates(s, elements)
  {
    if elements == {} then []
    else
      var x :| x in elements;
      [x] + SetToSeq(elements - {x})
  }

  ghost predicate DistinctKeys<T(!new)>(elements: set<T>, key: T -> SortKey) {
    forall x, y | x in elements && y in elements :: key(x) == key(y) ==> x == y
  }

  /** The elements of a finite set in key order. */
  ghost function Listing<T(!new)>(elements: set<T>, key: T -> SortKey): seq<T> {
    StableSort(SetToSeq(elements), key)
  }

  lemma {:induction false} OfKeyOfDistinct<T(!new)>(s: seq<T>, elements: set<T>, key: T -> SortKey, k: SortKey)
    requires Enumerates(s, elements) && DistinctKeys(elements, key)
    ensures (exists x :: x in elements && key(x) == k) ==>
              exists x :: x in elements && key(x) == k && OfKey(s, key, k) == [x]
    ensures !(exists x :: x in elements && key(x) == k) ==> OfKey(s, key, k) == []
  {
    if s != [] {
      var rest := elements - {s[0]};
      assert forall x :: x in s <==> x == s[0] || x in s[1..];
      assert s[0] in s && s[0] in elements;
      OfKeyOfDistinct(s[1..], rest, key, k);
      if key(s[0]) == k {
        assert forall x | x in rest :: key(x) != k;
        assert OfKey(s, key, k) == [s[0]];
      }
    }
  }

  /** Sorting any enumeration of a set whose keys differ gives its listing. */
  lemma SortIsListing<T(!new)>(s: seq<T>, elements: set<T>, key: T -> SortKey)
    requires Enumerates(s, elements) && DistinctKeys(elements, key)
    ensures StableSort(s, key) == Listing(elements, key)
  {
    var t := SetToSeq(elements);
    SortSorted(s, key);
    SortSorted(t, key);
    forall k ensures OfKey(StableSort(s, key), key, k) == OfKey(StableSort(t, key), key, k) {
      SortKeepsKeys(s, key, k);
      SortKeepsKeys(t, key, k);
      OfKeyOfDistinct(s, elements, key, k);
      OfKeyOfDistinct(t, elements, key, k);
    }
    StableSortUnique(StableSort(s, key), StableSort(t, key), key);
  }

  lemma EnumeratesPermutation<T(!new)>(s: seq<T>, t: seq<T>, elements: set<T>)
    requires Enumerates(s, elements) && multiset(s) == multiset(t)
    ensures Enumerates(t, elements)
  {
    forall x ensures x in t <==> x in elements {
      assert x in t <==> x in multiset(t);
      assert x in s <==> x in multiset(s);
    }
    forall i, j | 0 <= i < j < |t| ensures t[i] != t[j] {
      if t[i] == t[j] {
        CountTwice(t, i, j);
        CountOnce(s, t[i]);
      }
    }
  }

  lemma CountTwice<T>(t: seq<T>, i: nat, j: nat)
    requires i < j < |t| && t[i] == t[j]
    ensures multiset(t)[t[i]] >= 2
  {
    assert t == t[..i] + [t[i]] + t[i + 1..j] + [t[j]] + t[j + 1..];
  }

  lemma {:induction false} CountOnce<T>(s: seq<T>, x: T)
    requires NoDuplicates(s)
    ensures multiset(s)[x] <= 1
  {
    if s != [] {
      assert s == [s[0]] + s[1..];
      CountOnce(s[1..], x);
      if x == s[0] {
        assert x !in s[1..];
      }
    }
  }

  /** A listing holds exactly the set's elements, each once, in order. */
  lemma ListingSpec<T(!new)>(elements: set<T>, key: T -> SortKey)
    ensures Enumerates(Listing(elements, key), elements)
    ensures Sorted(Listing(elements, key), key)
    ensures |Listing(elements, key)| == |elements|
  {
    var s := SetToSeq(elements);
    SortSorted(s, key);
    SortMultiset(s, key);
    EnumeratesPermutation(s, StableSort(s, key), elements);
    EnumeratesSize(StableSort(s, key), elements);
  }

  lemma {:induction false} EnumeratesSize<T(!new)>(s: seq<T>, elements: set<T>)
    requires Enumerates(s, elements)
    ensures |s| == |elements|
  {
    if s != [] {
      assert forall x :: x in s <==> x == s[0] || x in s[1..];
      assert s[0] in s;
      EnumeratesSize(s[1..], elements - {s[0]});
    } else {
      assert elements == {};
    }
  }

  /** The set's enumeration as the stores obtain it: members in no particular order. */
  method Enumerate<T(!new, ==)>(elements: set<T>) returns (s: seq<T>)
    ensures Enumerates(s, elements)
  {
    s := [];
    var rest := elements;
    while rest != {}
      invariant rest <= elements
      invariant Enumerates(s, elements - rest)
    {
      var x :| x in rest;
      rest := rest - {x};
      s := s + [x];
    }
  }
}
