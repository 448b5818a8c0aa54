/** The result ranker: a stable sort of the match records by descending
    `entryPriority` of their 'match confidence' label. */
module Ranker {
  import opened Records

  const MaxPriority := 5

  /** `entryPriority`: 5 for the highest tier down to 1 for "name only", 0 for any other label. */
  function EntryPriority(confidence: string): (p: nat)
    ensures 0 <= p <= MaxPriority
    ensures p == 0 <==>
      confidence !in {"full name and address", "last name and address",
                      "first name and address", "address only", "name only"}
  {
    if confidence == "full name and address" then 5
    else if confidence == "last name and address" then 4
    else if confidence == "first name and address" then 3
    else if confidence == "address only" then 2
    else if confidence == "name only" then 1
    else 0
  }

  /** The sort key of a record: the priority of its label. */
  function Priority(r: MatchRecord): nat
  {
    EntryPriority(r.confidence)
  }

  /** A sort key. The ranking below is stated for any key with values in
      0..5; the script's key is `Priority`. */
  type Key = MatchRecord -> nat

  ghost predicate InRange(key: Key)
  {
    forall r :: key(r) <= MaxPriority
  }

  lemma PriorityInRange()
    ensures InRange(Priority)
  {
  }

  /** The records of priority `p`, in their order in `rs`. */
  function Band(key: Key, rs: seq<MatchRecord>, p: int): (b: seq<MatchRecord>)
    ensures |b| <= |rs|
    ensures forall k :: 0 <= k < |b| ==> key(b[k]) == p
  {
    if rs == [] then []
    else (if key(rs[0]) == p then [rs[0]] else []) + Band(key, rs[1..], p)
  }

  /** A band holds every record of its priority, as many times as `rs` does,
      and no record of another priority. */
  lemma {:induction false} BandKeepsAll(key: Key, rs: seq<MatchRecord>, p: int, x: MatchRecord)
    ensures multiset(Band(key, rs, p))[x] == if key(x) == p then multiset(rs)[x] else 0
  {
    if rs != [] {
      BandKeepsAll(key, rs[1..], p, x);
      assert rs == [rs[0]] + rs[1..];
      assert multiset(rs) == multiset([rs[0]]) + multiset(rs[1..]);
      var head := if key(rs[0]) == p then [rs[0]] else [];
      assert multiset(Band(key, rs, p)) == multiset(head) + multiset(Band(key, rs[1..], p));
    }
  }

  /** The bands of priority `p` down to 0, concatenated. */
  function RankedFrom(key: Key, rs: seq<MatchRecord>, p: int): seq<MatchRecord>
    decreases p + 1
  {
    if p < 0 then [] else Band(key, rs, p) + RankedFrom(key, rs, p - 1)
  }

  /** What the stable descending sort yields: the band of priority 5 first,
      then 4, and so on down to 0, each band in emission order. */
  function Ranked(key: Key, rs: seq<MatchRecord>): seq<MatchRecord>
  {
    RankedFrom(key, rs, MaxPriority)
  }

  /** Non-increasing in priority. */
  ghost predicate Descending(key: Key, s: seq<MatchRecord>)
  {
    forall i, j :: 0 <= i < j < |s| ==> key(s[i]) >= key(s[j])
  }

  /** Same records of each priority, in the same order: stability. */
  ghost predicate SameBands(key: Key, s: seq<MatchRecord>, t: seq<MatchRecord>)
  {
    forall p :: Band(key, s, p) == Band(key, t, p)
  }

  lemma {:induction false} BandAppend(key: Key, s: seq<MatchRecord>, t: seq<MatchRecord>, p: int)
    ensures Band(key, s + t, p) == Band(key, s, p) + Band(key, t, p)
  {
    if s == [] {
      assert s + t == t;
    } else {
      var head := if key(s[0]) == p then [s[0]] else [];
      assert (s + t)[0] == s[0];
      assert (s + t)[1..] == s[1..] + t;
      assert Band(key, s + t, p) == head + Band(key, s[1..] + t, p);
      BandAppend(key, s[1..], t, p);
      assert head + (Band(key, s[1..], p) + Band(key, t, p)) == (head + Band(key, s[1..], p)) + Band(key, t, p);
    }
  }

  /** A band of a band. */
  lemma {:induction false} BandOfBand(key: Key, s: seq<MatchRecord>, p: int, q: int)
    ensures Band(key, Band(key, s, q), p) == if p == q then Band(key, s, q) else []
  {
    if s != [] {
      var head := if key(s[0]) == q then [s[0]] else [];
      BandAppend(key, head, Band(key, s[1..], q), p);
      BandOfBand(key, s[1..], p, q);
    }
  }

  /** No record has a priority outside 0..5. */
  lemma {:induction false} BandOutOfRange(key: Key, s: seq<MatchRecord>, p: int)
    requires InRange(key)
    requires p < 0 || p > MaxPriority
    ensures Band(key, s, p) == []
  {
    if s != [] {
      BandOutOfRange(key, s[1..], p);
    }
  }

  /** A band of priority above every record's is empty. */
  lemma {:induction false} BandAbove(key: Key, s: seq<MatchRecord>, q: int, p: int)
    requires forall k :: 0 <= k < |s| ==> key(s[k]) <= q
    requires p > q
    ensures Band(key, s, p) == []
  {
    if s != [] {
      BandAbove(key, s[1..], q, p);
    }
  }

  lemma {:induction false} BandOfRankedFrom(key: Key, rs: seq<MatchRecord>, q: int, p: int)
    ensures Band(key, RankedFrom(key, rs, q), p) == if 0 <= p <= q then Band(key, rs, p) else []
    decreases q + 1
  {
    if q >= 0 {
      BandAppend(key, Band(key, rs, q), RankedFrom(key, rs, q - 1), p);
      BandOfBand(key, rs, p, q);
      BandOfRankedFrom(key, rs, q - 1, p);
    }
  }

  /** The ranking keeps each band exactly: records of equal label keep their emission order. */
  lemma RankedIsStable(key: Key, rs: seq<MatchRecord>)
    requires InRange(key)
    ensures SameBands(key, Ranked(key, rs), rs)
  {
    forall p ensures Band(key, Ranked(key, rs), p) == Band(key, rs, p) {
      BandOfRankedFrom(key, rs, MaxPriority, p);
      if p < 0 || p > MaxPriority {
        BandOutOfRange(key, rs, p);
      }
    }
  }

  /** The ranking depends on nothing but the bands. */
  lemma {:induction false} RankedFromAgree(key: Key, s: seq<MatchRecord>, t: seq<MatchRecord>, q: int)
    requires forall p :: 0 <= p <= q ==> Band(key, s, p) == Band(key, t, p)
    ensures RankedFrom(key, s, q) == RankedFrom(key, t, q)
    decreases q + 1
  {
    if q >= 0 {
      RankedFromAgree(key, s, t, q - 1);
    }
  }

  /** The records of `RankedFrom(key, rs, q)` have priorities in 0..q, in non-increasing order. */
  lemma {:induction false} RankedFromDescending(key: Key, rs: seq<MatchRecord>, q: int)
    ensures forall k :: 0 <= k < |RankedFrom(key, rs, q)| ==> 0 <= key(RankedFrom(key, rs, q)[k]) <= q
    ensures Descending(key, RankedFrom(key, rs, q))
    decreases q + 1
  {
    if q >= 0 {
      RankedFromDescending(key, rs, q - 1);
      var b, rest := Band(key, rs, q), RankedFrom(key, rs, q - 1);
      assert RankedFrom(key, rs, q) == b + rest;
      forall i, j | 0 <= i < j < |b + rest|
        ensures key((b + rest)[i]) >= key((b + rest)[j])
      {
        if j < |b| {
          assert (b + rest)[i] == b[i] && (b + rest)[j] == b[j];
        } else if i < |b| {
          assert (b + rest)[i] == b[i] && (b + rest)[j] == rest[j - |b|];
        } else {
          assert (b + rest)[i] == rest[i - |b|] && (b + rest)[j] == rest[j - |b|];
        }
      }
      forall k | 0 <= k < |b + rest| ensures 0 <= key((b + rest)[k]) <= q {
        if k < |b| {
          assert (b + rest)[k] == b[k];
        } else {
          assert (b + rest)[k] == rest[k - |b|];
        }
      }
    }
  }

  /** The ranking is sorted by descending label priority. */
  lemma RankedIsDescending(key: Key, rs: seq<MatchRecord>)
    ensures Descending(key, Ranked(key, rs))
  {
    RankedFromDescending(key, rs, MaxPriority);
  }

  /** A record in front joins the band of its own priority, at its head. */
  lemma BandCons(key: Key, x: MatchRecord, t: seq<MatchRecord>, p: int)
    ensures Band(key, [x] + t, p) == if key(x) == p then [x] + Band(key, t, p) else Band(key, t, p)
  {
    assert ([x] + t)[1..] == t;
  }

  /** Below its own priority, a record in front changes no band's ranking. */
  lemma RankedFromBelowCons(key: Key, x: MatchRecord, t: seq<MatchRecord>)
    ensures RankedFrom(key, [x] + t, key(x) - 1) == RankedFrom(key, t, key(x) - 1)
  {
    forall p | 0 <= p <= key(x) - 1 ensures Band(key, [x] + t, p) == Band(key, t, p) {
      BandCons(key, x, t, p);
    }
    RankedFromAgree(key, [x] + t, t, key(x) - 1);
  }

  /** Ranking from a record's own priority down puts that record first. */
  lemma RankedFromConsTop(key: Key, x: MatchRecord, t: seq<MatchRecord>)
    ensures RankedFrom(key, [x] + t, key(x)) == [x] + RankedFrom(key, t, key(x))
  {
    var s := [x] + t;
    var q: int := key(x);
    BandCons(key, x, t, q);
    RankedFromBelowCons(key, x, t);
    ConsAssociates(x, Band(key, t, q), RankedFrom(key, t, q - 1));
  }

  /** Putting a record in front commutes with appending, stated apart from
      the bands so that the sequence reasoning does not meet their contracts. */
  lemma ConsAssociates(x: MatchRecord, a: seq<MatchRecord>, b: seq<MatchRecord>)
    ensures ([x] + a) + b == [x] + (a + b)
  {
  }

  /** Putting one record of priority `q` in front of records of priority at
      most `q` puts it in front of their ranking. */
  lemma {:induction false} RankedFromCons(key: Key, x: MatchRecord, t: seq<MatchRecord>, m: int)
    requires forall k :: 0 <= k < |t| ==> key(t[k]) <= key(x)
    requires key(x) <= m
    ensures RankedFrom(key, [x] + t, m) == [x] + RankedFrom(key, t, m)
    decreases m
  {
    if m == key(x) {
      RankedFromConsTop(key, x, t);
    } else {
      BandCons(key, x, t, m);
      BandAbove(key, t, key(x), m);
      RankedFromCons(key, x, t, m - 1);
      assert RankedFrom(key, [x] + t, m) == [] + RankedFrom(key, [x] + t, m - 1);
      assert RankedFrom(key, t, m) == [] + RankedFrom(key, t, m - 1);
    }
  }

  /** A sequence already in descending order is its own ranking. */
  lemma {:induction false} DescendingIsRanked(key: Key, s: seq<MatchRecord>)
    requires InRange(key)
    requires Descending(key, s)
    ensures Ranked(key, s) == s
  {
    if s != [] {
      var t := s[1..];
      assert s == [s[0]] + t;
      assert Descending(key, t) by {
        forall i, j | 0 <= i < j < |t| ensures key(t[i]) >= key(t[j]) {
          assert t[i] == s[i + 1] && t[j] == s[j + 1];
        }
      }
      DescendingIsRanked(key, t);
      forall k | 0 <= k < |t| ensures key(t[k]) <= key(s[0]) {
        assert t[k] == s[k + 1];
      }
      RankedFromCons(key, s[0], t, MaxPriority);
    }
  }

  /** Any descending rearrangement that keeps every band is the ranking:
      the stable sort's result is unique. */
  lemma RankedIsUnique(key: Key, s: seq<MatchRecord>, rs: seq<MatchRecord>)
    requires InRange(key)
    requires Descending(key, s)
    requires SameBands(key, s, rs)
    ensures s == Ranked(key, rs)
  {
    DescendingIsRanked(key, s);
    RankedFromAgree(key, s, rs, MaxPriority);
  }

  /** Sorting twice is sorting once. */
  lemma RankedIdempotent(key: Key, rs: seq<MatchRecord>)
    requires InRange(key)
    ensures Ranked(key, Ranked(key, rs)) == Ranked(key, rs)
  {
    RankedIsDescending(key, rs);
    DescendingIsRanked(key, Ranked(key, rs));
  }

  /** Ranking a concatenation collects the records of both parts. */
  lemma {:induction false} MultisetRankedFromAppend(key: Key, s: seq<MatchRecord>, t: seq<MatchRecord>, q: int)
    ensures multiset(RankedFrom(key, s + t, q)) == multiset(RankedFrom(key, s, q)) + multiset(RankedFrom(key, t, q))
    decreases q + 1
  {
    if q >= 0 {
      BandAppend(key, s, t, q);
      MultisetRankedFromAppend(key, s, t, q - 1);
    }
  }

  /** A single record survives the ranking down to `q` exactly when its priority is in 0..q. */
  lemma {:induction false} MultisetRankedFromSingle(key: Key, x: MatchRecord, q: int)
    ensures multiset(RankedFrom(key, [x], q)) == if key(x) <= q then multiset{x} else multiset{}
    decreases q + 1
  {
    if q >= 0 {
      assert [x][1..] == [];
      assert Band(key, [x], q) == if key(x) == q then [x] else [];
      MultisetRankedFromSingle(key, x, q - 1);
    }
  }

  /** The ranking is a permutation of the records. */
  lemma {:induction false} RankedIsPermutation(key: Key, rs: seq<MatchRecord>)
    requires InRange(key)
    ensures multiset(Ranked(key, rs)) == multiset(rs)
  {
    if rs != [] {
      assert rs == [rs[0]] + rs[1..];
      MultisetRankedFromAppend(key, [rs[0]], rs[1..], MaxPriority);
      MultisetRankedFromSingle(key, rs[0], MaxPriority);
      RankedIsPermutation(key, rs[1..]);
    }
  }

  /** Swapping two neighbours of different priority leaves every band alone. */
  lemma SwapKeepsBands(key: Key, s: seq<MatchRecord>, j: int)
    requires 0 < j < |s|
    requires key(s[j - 1]) != key(s[j])
    ensures SameBands(key, s[j - 1 := s[j]][j := s[j - 1]], s)
  {
    var s' := s[j - 1 := s[j]][j := s[j - 1]];
    var pre, post := s[..j - 1], s[j + 1..];
    assert s == pre + [s[j - 1], s[j]] + post;
    assert s' == pre + [s[j], s[j - 1]] + post;
    forall p ensures Band(key, s', p) == Band(key, s, p) {
      BandAppend(key, pre + [s[j], s[j - 1]], post, p);
      BandAppend(key, pre, [s[j], s[j - 1]], p);
      BandAppend(key, pre + [s[j - 1], s[j]], post, p);
      BandAppend(key, pre, [s[j - 1], s[j]], p);
      assert [s[j], s[j - 1]][1..] == [s[j - 1]];
      assert [s[j - 1], s[j]][1..] == [s[j]];
    }
  }

  /** The first `n` records are in non-increasing priority order. */
  ghost predicate SortedPrefix(key: Key, s: seq<MatchRecord>, n: int)
    requires 0 <= n <= |s|
  {
    forall k, m :: 0 <= k < m < n ==> key(s[k]) >= key(s[m])
  }

  /** `records.sort((a, b) => key(b) - key(a))`, in place; the script's key
      is `entryPriority` of the label. The engine's sort routine is not
      visible; a stable insertion sort by adjacent swaps stands for it. */
  method SortMatches(key: Key, a: array<MatchRecord>)
    requires InRange(key)
    modifies a
    ensures a[..] == Ranked(key, old(a[..]))
  {
    for i := 0 to a.Length
      invariant SortedPrefix(key, a[..], i)
      invariant SameBands(key, a[..], old(a[..]))
    {
      Insert(key, a, i);
    }
    assert Descending(key, a[..]) by {
      assert SortedPrefix(key, a[..], a.Length);
    }
    RankedIsUnique(key, a[..], old(a[..]));
  }

  /** Midway through inserting `s[j]`: the records up to `i` other than the
      one at `j` are in order, and every record after `j` has a lower priority. */
  ghost predicate Inserting(key: Key, s: seq<MatchRecord>, i: int, j: int)
    requires 0 <= j <= i < |s|
  {
    (forall k, m :: 0 <= k < m <= i && k != j && m != j ==> key(s[k]) >= key(s[m])) &&
    (forall m :: j < m <= i ==> key(s[j]) > key(s[m]))
  }

  lemma InsertingStep(key: Key, s: seq<MatchRecord>, i: int, j: int)
    requires 0 < j <= i < |s|
    requires Inserting(key, s, i, j)
    requires key(s[j - 1]) < key(s[j])
    ensures Inserting(key, s[j - 1 := s[j]][j := s[j - 1]], i, j - 1)
  {
  }

  lemma InsertingDone(key: Key, s: seq<MatchRecord>, i: int, j: int)
    requires 0 <= j <= i < |s|
    requires Inserting(key, s, i, j)
    requires j == 0 || key(s[j - 1]) >= key(s[j])
    ensures SortedPrefix(key, s, i + 1)
  {
  }

  /** One insertion step: moves `a[i]` left past the records of lower
      priority, so that the first `i + 1` records are in order. */
  method Insert(key: Key, a: array<MatchRecord>, i: int)
    requires 0 <= i < a.Length
    requires SortedPrefix(key, a[..], i)
    modifies a
    ensures SortedPrefix(key, a[..], i + 1)
    ensures SameBands(key, a[..], old(a[..]))
    ensures a[i + 1..] == old(a[i + 1..])
  {
    var j := i;
    while j > 0 && key(a[j - 1]) < key(a[j])
      invariant 0 <= j <= i
      invariant Inserting(key, a[..], i, j)
      invariant SameBands(key, a[..], old(a[..]))
      invariant a[i + 1..] == old(a[i + 1..])
    {
      ghost var s := a[..];
      SwapKeepsBands(key, s, j);
      InsertingStep(key, s, i, j);
      a[j - 1], a[j] := a[j], a[j - 1];
      assert a[..] == s[j - 1 := s[j]][j := s[j - 1]];
      j := j - 1;
    }
    InsertingDone(key, a[..], i, j);
  }
}
