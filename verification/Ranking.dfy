/** Deterministic ranking, as the remediation queue and the digests check it: declared ranks must be
    the positions of the sorted entries. */
module Ranking {
  import opened Sorting

  datatype Entry = Entry(rank: int, key: Key)

  function KeyOf(e: Entry): Key {
    e.key
  }

  /** How many entries come before `key`. */
  function CountBefore(entries: seq<Entry>, key: Key): nat {
    if entries == [] then 0 else (if Before(entries[0].key, key) then 1 else 0) + CountBefore(entries[1..], key)
  }

  function Ranks(entries: seq<Entry>): seq<int> {
    seq(|entries|, i requires 0 <= i < |entries| => entries[i].rank)
  }

  function RankBag(entries: seq<Entry>): multiset<int> {
    if entries == [] then multiset{} else multiset{entries[0].rank} + RankBag(entries[1..])
  }

  lemma {:induction false} RankBagIsRanks(entries: seq<Entry>)
    ensures RankBag(entries) == multiset(Ranks(entries))
  {
    if entries != [] {
      RankBagIsRanks(entries[1..]);
      assert Ranks(entries) == [entries[0].rank] + Ranks(entries[1..]);
    }
  }

  lemma {:induction false} InsertKeepsRanks(e: Entry, sorted: seq<Entry>)
    ensures RankBag(Insert(KeyOf, e, sorted)) == multiset{e.rank} + RankBag(sorted)
  {
    hide Before;
    if sorted == [] || !Before(sorted[0].key, e.key) {
      assert ([e] + sorted)[1..] == sorted;
    } else {
      assert Insert(KeyOf, e, sorted)[1..] == Insert(KeyOf, e, sorted[1..]);
      InsertKeepsRanks(e, sorted[1..]);
    }
  }

  lemma {:induction false} InsertKeepsCounts(e: Entry, sorted: seq<Entry>, key: Key)
    ensures CountBefore(Insert(KeyOf, e, sorted), key) ==
            (if Before(e.key, key) then 1 else 0) + CountBefore(sorted, key)
  {
    hide Before;
    if sorted == [] || !Before(sorted[0].key, e.key) {
      assert ([e] + sorted)[1..] == sorted;
    } else {
      assert Insert(KeyOf, e, sorted)[1..] == Insert(KeyOf, e, sorted[1..]);
      InsertKeepsCounts(e, sorted[1..], key);
    }
  }

  lemma {:induction false} SortKeepsRanks(entries: seq<Entry>)
    ensures RankBag(Sort(KeyOf, entries)) == RankBag(entries)
  {
    hide Insert;
    if entries != [] {
      SortKeepsRanks(entries[1..]);
      InsertKeepsRanks(entries[0], Sort(KeyOf, entries[1..]));
    }
  }

  lemma {:induction false} SortKeepsCounts(entries: seq<Entry>, key: Key)
    ensures CountBefore(Sort(KeyOf, entries), key) == CountBefore(entries, key)
  {
    hide Insert, Before;
    if entries != [] {
      SortKeepsCounts(entries[1..], key);
      InsertKeepsCounts(entries[0], Sort(KeyOf, entries[1..]), key);
    }
  }

  lemma {:induction false} CountOfNoneBelow(entries: seq<Entry>, key: Key)
    requires NoneBelow(KeyOf, entries, key)
    ensures CountBefore(entries, key) == 0
  {
    hide Before;
    if entries != [] {
      assert !Before(KeyOf(entries[0]), key);
      CountOfNoneBelow(entries[1..], key);
    }
  }

  lemma {:induction false} CountIsPosition(entries: seq<Entry>, i: nat)
    requires StrictlyOrdered(KeyOf, entries) && i < |entries|
    ensures CountBefore(entries, entries[i].key) == i
  {
    hide Before;
    var head := entries[0].key;
    if i == 0 {
      forall j | 0 <= j < |entries| ensures !Before(KeyOf(entries[j]), head) {
        if j == 0 {
          BeforeIsStrictOrder();
        } else {
          BeforeIsAsymmetric(head, KeyOf(entries[j]));
        }
      }
      CountOfNoneBelow(entries, head);
    } else {
      assert Before(KeyOf(entries[0]), KeyOf(entries[i]));
      CountIsPosition(entries[1..], i - 1);
    }
  }

  /** Every entry is declared at its rank: one more than the number of entries before it. */
  ghost predicate WellRanked(entries: seq<Entry>) {
    forall i :: 0 <= i < |entries| ==> entries[i].rank == 1 + CountBefore(entries, entries[i].key)
  }

  predicate Positioned(sorted: seq<Entry>) {
    forall i :: 0 <= i < |sorted| ==> sorted[i].rank == i + 1
  }

  function FromOne(n: nat): seq<int> {
    seq(n, i => i + 1)
  }

  lemma {:induction false} SortedCounts(entries: seq<Entry>, i: nat)
    requires DistinctKeys(KeyOf, entries) && i < |Sort(KeyOf, entries)|
    ensures CountBefore(entries, Sort(KeyOf, entries)[i].key) == i
  {
    hide Before, CountBefore, Sort;
    var sorted := Sort(KeyOf, entries);
    SortIsStrict(KeyOf, entries);
    CountIsPosition(sorted, i);
    SortKeepsCounts(entries, sorted[i].key);
  }

  lemma {:induction false} PositionedIsWellRanked(entries: seq<Entry>)
    requires DistinctKeys(KeyOf, entries) && Positioned(Sort(KeyOf, entries))
    ensures WellRanked(entries)
  {
    hide Sort, CountBefore, DistinctKeys;
    var sorted := Sort(KeyOf, entries);
    forall i | 0 <= i < |entries| ensures entries[i].rank == 1 + CountBefore(entries, entries[i].key) {
      SortMembers(KeyOf, entries, entries[i]);
      var j :| 0 <= j < |sorted| && sorted[j] == entries[i];
      SortedCounts(entries, j);
    }
  }

  lemma {:induction false} WellRankedIsPositioned(entries: seq<Entry>)
    requires DistinctKeys(KeyOf, entries) && WellRanked(entries)
    ensures Positioned(Sort(KeyOf, entries))
  {
    hide Sort, CountBefore, DistinctKeys;
    var sorted := Sort(KeyOf, entries);
    forall i | 0 <= i < |sorted| ensures sorted[i].rank == i + 1 {
      SortMembers(KeyOf, entries, sorted[i]);
      var j :| 0 <= j < |entries| && entries[j] == sorted[i];
      SortedCounts(entries, i);
    }
  }

  lemma {:induction false} PositionedIsContiguous(entries: seq<Entry>)
    requires Positioned(Sort(KeyOf, entries))
    ensures multiset(Ranks(entries)) == multiset(FromOne(|entries|))
  {
    hide Sort, RankBag;
    SortKeepsLength(KeyOf, entries);
    SortKeepsRanks(entries);
    assert Ranks(Sort(KeyOf, entries)) == FromOne(|entries|);
    RankBagIsRanks(entries);
    RankBagIsRanks(Sort(KeyOf, entries));
  }

  /** Comparing the sorted entries with 1, 2, 3, ... accepts exactly the well-ranked ones. */
  lemma {:induction false} PositionedIffWellRanked(entries: seq<Entry>)
    requires DistinctKeys(KeyOf, entries)
    ensures Positioned(Sort(KeyOf, entries)) <==> WellRanked(entries)
    ensures WellRanked(entries) ==> multiset(Ranks(entries)) == multiset(FromOne(|entries|))
  {
    hide WellRanked, Sort, Positioned, Ranks, FromOne, DistinctKeys;
    if Positioned(Sort(KeyOf, entries)) {
      PositionedIsWellRanked(entries);
    }
    if WellRanked(entries) {
      WellRankedIsPositioned(entries);
      PositionedIsContiguous(entries);
    }
  }

  datatype RankError = NotContiguous | NotInOrder | Incomplete

  /** The rank checks: no error exactly when all `total` records have an entry and every entry is
      declared at its rank. */
  method CheckRanks(entries: seq<Entry>, total: nat) returns (errors: seq<RankError>)
    ensures DistinctKeys(KeyOf, entries) ==> (errors == [] <==> |entries| == total && WellRanked(entries))
    ensures errors == [] ==> |entries| == total && multiset(Ranks(entries)) == multiset(FromOne(total))
  {
    errors := [];
    // Sorted ranks equal 1..total exactly when the two lists have the same elements.
    if multiset(Ranks(entries)) != multiset(FromOne(total)) {
      errors := errors + [NotContiguous];
    }
    var deterministic := Sort(KeyOf, entries);
    var expected := 0;
    var inOrder := true;
    while expected < |deterministic| && inOrder
      invariant 0 <= expected <= |deterministic|
      invariant inOrder <==> forall i :: 0 <= i < expected ==> deterministic[i].rank == i + 1
    {
      inOrder := deterministic[expected].rank == expected + 1;
      expected := expected + 1;
    }
    assert inOrder <==> Positioned(deterministic);
    if !inOrder {
      errors := errors + [NotInOrder];
    }
    if |entries| != total {
      errors := errors + [Incomplete];
    }
    if DistinctKeys(KeyOf, entries) {
      PositionedIffWellRanked(entries);
    }
  }

  // ------------------------------------------------- what acceptance determines

  lemma {:induction false} CountDependsOnKeys(a: seq<Entry>, b: seq<Entry>, key: Key)
    requires |a| == |b| && forall i :: 0 <= i < |a| ==> a[i].key == b[i].key
    ensures CountBefore(a, key) == CountBefore(b, key)
  {
    hide Before;
    if a != [] {
      CountDependsOnKeys(a[1..], b[1..], key);
    }
  }

  /** The records determine the ranking: there is one accepted way to rank given keys. */
  lemma {:induction false} RankingIsUnique(a: seq<Entry>, b: seq<Entry>)
    requires WellRanked(a) && WellRanked(b)
    requires |a| == |b| && forall i :: 0 <= i < |a| ==> a[i].key == b[i].key
    ensures a == b
  {
    hide Before;
    forall i | 0 <= i < |a| ensures a[i] == b[i] {
      CountDependsOnKeys(a, b, a[i].key);
    }
  }

  lemma {:induction false} CountGrows(entries: seq<Entry>, low: Key, high: Key)
    requires Before(low, high)
    ensures CountBefore(entries, low) <= CountBefore(entries, high)
    ensures (exists i :: 0 <= i < |entries| && entries[i].key == low) ==>
              CountBefore(entries, low) < CountBefore(entries, high)
  {
    hide Before;
    BeforeIsStrictOrder();
    if entries != [] {
      CountGrows(entries[1..], low, high);
      if i :| 0 <= i < |entries| && entries[i].key == low {
        if i > 0 {
          assert entries[1..][i - 1].key == low;
        }
      }
    }
  }

  /** An accepted rank is smaller exactly when the key comes before. */
  lemma {:induction false} RankFollowsKey(entries: seq<Entry>, i: nat, j: nat)
    requires WellRanked(entries) && i < |entries| && j < |entries|
    ensures entries[i].rank < entries[j].rank <==> Before(entries[i].key, entries[j].key)
  {
    hide Before;
    BeforeIsStrictOrder();
    var a, b := entries[i].key, entries[j].key;
    if Before(a, b) {
      CountGrows(entries, a, b);
    } else if a != b {
      assert Before(b, a);
      CountGrows(entries, b, a);
    }
  }

  /** Accepted ranks are a permutation of 1..n: each is taken once. */
  lemma {:induction false} RanksArePermutation(entries: seq<Entry>)
    requires WellRanked(entries) && DistinctKeys(KeyOf, entries)
    ensures forall i, j :: 0 <= i < j < |entries| ==> entries[i].rank != entries[j].rank
    ensures forall rank :: 1 <= rank <= |entries| ==> rank in Ranks(entries)
    ensures forall i :: 0 <= i < |entries| ==> 1 <= entries[i].rank <= |entries|
  {
    hide Before;
    PositionedIffWellRanked(entries);
    BeforeIsStrictOrder();
    forall i, j | 0 <= i < j < |entries| ensures entries[i].rank != entries[j].rank {
      RankFollowsKey(entries, i, j);
      RankFollowsKey(entries, j, i);
    }
    forall rank | 1 <= rank <= |entries| ensures rank in Ranks(entries) {
      assert FromOne(|entries|)[rank - 1] == rank;
      assert rank in multiset(FromOne(|entries|));
      assert rank in multiset(Ranks(entries));
    }
    forall i | 0 <= i < |entries| ensures 1 <= entries[i].rank <= |entries| {
      assert Ranks(entries)[i] in multiset(Ranks(entries));
      assert Ranks(entries)[i] in multiset(FromOne(|entries|));
    }
  }
}
