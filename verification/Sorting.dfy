/** The order of sort keys and stable sorting by a key. */
module Sorting {
  // ------------------------------------------------------------------ orders

  ghost predicate StrictOrder<T(!new)>(less: (T, T) -> bool) {
    && (forall a :: !less(a, a))
    && (forall a, b, c :: less(a, b) && less(b, c) ==> less(a, c))
    && (forall a, b :: a != b ==> less(a, b) || less(b, a))
  }

  /** The order of strings by their characters and of tuples by their parts. */
  predicate Lex<T(==)>(less: (T, T) -> bool, a: seq<T>, b: seq<T>) {
    if a == [] || b == [] then a == [] && b != []
    else less(a[0], b[0]) || (a[0] == b[0] && Lex(less, a[1..], b[1..]))
  }

  /** `a` and `b` agree up to `k`, and there `a` ends or has the smaller item. */
  ghost predicate SmallerAt<T(!new)>(less: (T, T) -> bool, a: seq<T>, b: seq<T>, k: nat) {
    k <= |a| && k < |b| && a[..k] == b[..k] && (k == |a| || less(a[k], b[k]))
  }

  lemma {:induction false} SmallerInTails<T(!new)>(less: (T, T) -> bool, a: seq<T>, b: seq<T>, k: nat)
    requires a != [] && b != [] && a[0] == b[0]
    ensures SmallerAt(less, a[1..], b[1..], k) <==> SmallerAt(less, a, b, k + 1)
  {
    if k <= |a| - 1 && k < |b| - 1 {
      assert a[..k + 1] == [a[0]] + a[1..][..k] && b[..k + 1] == [b[0]] + b[1..][..k];
      assert a[..k + 1][1..] == a[1..][..k] && b[..k + 1][1..] == b[1..][..k];
    }
  }

  /** The first difference decides, and a proper prefix comes first. */
  lemma {:induction false} FirstDifferenceDecides<T(!new)>(less: (T, T) -> bool, a: seq<T>, b: seq<T>)
    ensures Lex(less, a, b) <==> exists k :: SmallerAt(less, a, b, k)
  {
    if Lex(less, a, b) {
      if a == [] || less(a[0], b[0]) {
        assert SmallerAt(less, a, b, 0);
      } else {
        FirstDifferenceDecides(less, a[1..], b[1..]);
        var k :| SmallerAt(less, a[1..], b[1..], k);
        SmallerInTails(less, a, b, k);
      }
    }
    if k: nat :| SmallerAt(less, a, b, k) {
      if k > 0 {
        assert a[0] == a[..k][0] == b[..k][0] == b[0];
        SmallerInTails(less, a, b, k - 1);
        FirstDifferenceDecides(less, a[1..], b[1..]);
      }
    }
  }

  lemma {:induction false} LexIsIrreflexive<T(!new)>(less: (T, T) -> bool, a: seq<T>)
    requires StrictOrder(less)
    ensures !Lex(less, a, a)
  {
    if a != [] {
      LexIsIrreflexive(less, a[1..]);
    }
  }

  lemma {:induction false} LexIsTransitive<T(!new)>(less: (T, T) -> bool, a: seq<T>, b: seq<T>, c: seq<T>)
    requires StrictOrder(less) && Lex(less, a, b) && Lex(less, b, c)
    ensures Lex(less, a, c)
  {
    if a != [] && a[0] == b[0] && b[0] == c[0] {
      assert !less(a[0], a[0]);
      LexIsTransitive(less, a[1..], b[1..], c[1..]);
    }
  }

  lemma {:induction false} LexIsTotal<T(!new)>(less: (T, T) -> bool, a: seq<T>, b: seq<T>)
    requires StrictOrder(less) && a != b
    ensures Lex(less, a, b) || Lex(less, b, a)
  {
    if a != [] && b != [] && a[0] == b[0] {
      assert a == [a[0]] + a[1..] && b == [b[0]] + b[1..];
      LexIsTotal(less, a[1..], b[1..]);
    }
  }

  function LexOf<T(==)>(less: (T, T) -> bool): (seq<T>, seq<T>) -> bool {
    (a, b) => Lex(less, a, b)
  }

  /** Lexicographic order is total whenever the order of the parts is. */
  lemma {:induction false} LexIsStrictOrder<T(!new)>(less: (T, T) -> bool)
    requires StrictOrder(less)
    ensures StrictOrder(LexOf(less))
  {
    var lex := LexOf(less);
    forall a ensures !lex(a, a) {
      LexIsIrreflexive(less, a);
    }
    forall a, b, c | lex(a, b) && lex(b, c) ensures lex(a, c) {
      LexIsTransitive(less, a, b, c);
    }
    forall a, b | a != b ensures lex(a, b) || lex(b, a) {
      LexIsTotal(less, a, b);
    }
  }

  /** One part of a sort key. */
  datatype Part = Number(value: int) | Name(text: string)

  type Key = seq<Part>

  predicate CharLess(a: char, b: char) {
    a < b
  }

  predicate PartLess(a: Part, b: Part) {
    match (a, b)
    case (Number(x), Number(y)) => x < y
    case (Name(x), Name(y)) => LexOf(CharLess)(x, y)
    case (Number(_), Name(_)) => true
    case (Name(_), Number(_)) => false
  }

  predicate Before(a: Key, b: Key) {
    LexOf(PartLess)(a, b)
  }

  lemma {:induction false} BeforeSplits(a: Key, b: Key)
    requires a != [] && b != []
    ensures Before(a, b) <==> PartLess(a[0], b[0]) || (a[0] == b[0] && Before(a[1..], b[1..]))
  {
  }

  lemma {:induction false} BeforeOfPairs(a: Key, b: Key)
    requires |a| == |b| == 2
    ensures Before(a, b) <==> PartLess(a[0], b[0]) || (a[0] == b[0] && PartLess(a[1], b[1]))
  {
    BeforeSplits(a, b);
    BeforeSplits(a[1..], b[1..]);
    assert a[1..][1..] == [] && b[1..][1..] == [];
    NothingBeforeItself();
  }

  lemma {:induction false} NothingBeforeItself()
    ensures !Before([], [])
  {
  }

  ghost predicate NameSmallerAt(x: string, y: string, k: nat) {
    k <= |x| && k < |y| && x[..k] == y[..k] && (k == |x| || x[k] < y[k])
  }

  /** Names compare by their first different characters, and a proper prefix comes first. */
  lemma {:induction false} NamesCompare(x: string, y: string)
    ensures PartLess(Name(x), Name(y)) <==> exists k :: NameSmallerAt(x, y, k)
  {
    FirstDifferenceDecides(CharLess, x, y);
    forall k ensures NameSmallerAt(x, y, k) <==> SmallerAt(CharLess, x, y, k) {
    }
  }

  lemma {:induction false} NumbersCompare(x: int, y: int)
    ensures PartLess(Number(x), Number(y)) <==> x < y
  {
  }

  lemma {:induction false} BeforeIsStrictOrder()
    ensures StrictOrder(Before)
  {
    LexIsStrictOrder(CharLess);
    forall a, b, c | PartLess(a, b) && PartLess(b, c) ensures PartLess(a, c) {
      if a.Name? && b.Name? && c.Name? {
        assert LexOf(CharLess)(a.text, b.text) && LexOf(CharLess)(b.text, c.text);
      }
    }
    forall a, b | a != b ensures PartLess(a, b) || PartLess(b, a) {
      if a.Name? && b.Name? {
        assert a.text != b.text;
      }
    }
    assert StrictOrder(PartLess);
    LexIsStrictOrder(PartLess);
    forall a, b, c | Before(a, b) && Before(b, c) ensures Before(a, c) {
      assert LexOf(PartLess)(a, b) && LexOf(PartLess)(b, c);
    }
    forall a, b | a != b ensures Before(a, b) || Before(b, a) {
      assert LexOf(PartLess)(a, b) || LexOf(PartLess)(b, a);
    }
  }

  /** The other way round: if `x` is not before `low` and `high` is not before `x`, `high` is not before `low`. */
  lemma {:induction false} NotBeforeIsTransitive(low: Key, x: Key, high: Key)
    requires !Before(x, low) && !Before(high, x)
    ensures !Before(high, low)
  {
    hide Before;
    BeforeIsStrictOrder();
  }

  lemma {:induction false} BeforeIsAsymmetric(a: Key, b: Key)
    requires Before(a, b)
    ensures !Before(b, a)
  {
    hide Before;
    BeforeIsStrictOrder();
  }

  // ----------------------------------------------------------------- sorting

  function Insert<T>(key: T -> Key, x: T, sorted: seq<T>): seq<T> {
    if sorted == [] || !Before(key(sorted[0]), key(x)) then [x] + sorted else [sorted[0]] + Insert(key, x, sorted[1..])
  }

  /** The items in stable order of their keys. */
  function Sort<T>(key: T -> Key, items: seq<T>): seq<T> {
    if items == [] then [] else Insert(key, items[0], Sort(key, items[1..]))
  }

  ghost predicate Ordered<T>(key: T -> Key, items: seq<T>) {
    forall i, j :: 0 <= i < j < |items| ==> !Before(key(items[j]), key(items[i]))
  }

  ghost predicate StrictlyOrdered<T>(key: T -> Key, items: seq<T>) {
    forall i, j :: 0 <= i < j < |items| ==> Before(key(items[i]), key(items[j]))
  }

  ghost predicate DistinctKeys<T>(key: T -> Key, items: seq<T>) {
    forall i, j :: 0 <= i < j < |items| ==> key(items[i]) != key(items[j])
  }

  ghost predicate NoneBelow<T>(key: T -> Key, items: seq<T>, low: Key) {
    forall i :: 0 <= i < |items| ==> !Before(key(items[i]), low)
  }

  ghost predicate Absent<T>(key: T -> Key, items: seq<T>, k: Key) {
    forall i :: 0 <= i < |items| ==> key(items[i]) != k
  }

  lemma {:induction false} InsertKeepsAll<T>(key: T -> Key, x: T, sorted: seq<T>)
    ensures multiset(Insert(key, x, sorted)) == multiset{x} + multiset(sorted)
  {
    hide Before;
    if sorted == [] || !Before(key(sorted[0]), key(x)) {
      assert Insert(key, x, sorted) == [x] + sorted;
    } else {
      assert sorted == [sorted[0]] + sorted[1..];
      InsertKeepsAll(key, x, sorted[1..]);
    }
  }

  lemma {:induction false} InsertMembers<T>(key: T -> Key, x: T, sorted: seq<T>, y: T)
    ensures y in Insert(key, x, sorted) <==> y == x || y in sorted
  {
    hide Before, Insert;
    InsertKeepsAll(key, x, sorted);
    assert y in Insert(key, x, sorted) <==> y in multiset(Insert(key, x, sorted));
  }

  lemma {:induction false} PrependKeepsOrder<T>(key: T -> Key, x: T, rest: seq<T>)
    requires Ordered(key, rest) && NoneBelow(key, rest, key(x))
    ensures Ordered(key, [x] + rest)
  {
    hide Before;
  }

  lemma {:induction false} InsertKeepsOrder<T>(key: T -> Key, x: T, sorted: seq<T>)
    requires Ordered(key, sorted)
    ensures Ordered(key, Insert(key, x, sorted))
  {
    hide Before;
    if sorted != [] && Before(key(sorted[0]), key(x)) {
      var rest := Insert(key, x, sorted[1..]);
      InsertKeepsOrder(key, x, sorted[1..]);
      forall i | 0 <= i < |rest| ensures !Before(key(rest[i]), key(sorted[0])) {
        InsertMembers(key, x, sorted[1..], rest[i]);
        if rest[i] == x {
          BeforeIsAsymmetric(key(sorted[0]), key(x));
        }
      }
      PrependKeepsOrder(key, sorted[0], rest);
    } else {
      forall i | 0 <= i < |sorted| ensures !Before(key(sorted[i]), key(x)) {
        if i > 0 {
          NotBeforeIsTransitive(key(x), key(sorted[0]), key(sorted[i]));
        }
      }
      PrependKeepsOrder(key, x, sorted);
    }
  }

  lemma {:induction false} PrependKeepsDistinct<T>(key: T -> Key, x: T, rest: seq<T>)
    requires DistinctKeys(key, rest) && Absent(key, rest, key(x))
    ensures DistinctKeys(key, [x] + rest)
  {
  }

  lemma {:induction false} InsertKeepsDistinct<T>(key: T -> Key, x: T, sorted: seq<T>)
    requires DistinctKeys(key, sorted) && Absent(key, sorted, key(x))
    ensures DistinctKeys(key, Insert(key, x, sorted))
  {
    hide Before;
    if sorted != [] && Before(key(sorted[0]), key(x)) {
      var rest := Insert(key, x, sorted[1..]);
      InsertKeepsDistinct(key, x, sorted[1..]);
      forall i | 0 <= i < |rest| ensures key(rest[i]) != key(sorted[0]) {
        InsertMembers(key, x, sorted[1..], rest[i]);
      }
      PrependKeepsDistinct(key, sorted[0], rest);
    } else {
      PrependKeepsDistinct(key, x, sorted);
    }
  }

  lemma {:induction false} SortKeepsAll<T>(key: T -> Key, items: seq<T>)
    ensures multiset(Sort(key, items)) == multiset(items)
  {
    hide Insert;
    if items != [] {
      SortKeepsAll(key, items[1..]);
      InsertKeepsAll(key, items[0], Sort(key, items[1..]));
      assert items == [items[0]] + items[1..];
    }
  }

  lemma {:induction false} SortKeepsLength<T>(key: T -> Key, items: seq<T>)
    ensures |Sort(key, items)| == |items|
  {
    hide Sort;
    SortKeepsAll(key, items);
    assert |multiset(Sort(key, items))| == |multiset(items)|;
  }

  lemma {:induction false} SortMembers<T>(key: T -> Key, items: seq<T>, x: T)
    ensures x in Sort(key, items) <==> x in items
  {
    hide Sort;
    SortKeepsAll(key, items);
    assert x in Sort(key, items) <==> x in multiset(Sort(key, items));
  }

  lemma {:induction false} SortIsOrdered<T>(key: T -> Key, items: seq<T>)
    ensures Ordered(key, Sort(key, items))
  {
    hide Before, Insert;
    if items != [] {
      SortIsOrdered(key, items[1..]);
      InsertKeepsOrder(key, items[0], Sort(key, items[1..]));
    }
  }

  lemma {:induction false} SortKeepsDistinct<T>(key: T -> Key, items: seq<T>)
    requires DistinctKeys(key, items)
    ensures DistinctKeys(key, Sort(key, items))
  {
    hide Before, Insert;
    if items != [] {
      var rest := Sort(key, items[1..]);
      SortKeepsDistinct(key, items[1..]);
      forall i | 0 <= i < |rest| ensures key(rest[i]) != key(items[0]) {
        SortMembers(key, items[1..], rest[i]);
      }
      InsertKeepsDistinct(key, items[0], rest);
    }
  }

  /** Items of distinct keys are sorted strictly. */
  lemma {:induction false} SortIsStrict<T>(key: T -> Key, items: seq<T>)
    requires DistinctKeys(key, items)
    ensures StrictlyOrdered(key, Sort(key, items))
  {
    hide Before, Sort;
    SortIsOrdered(key, items);
    SortKeepsDistinct(key, items);
    BeforeIsStrictOrder();
  }

  lemma {:induction false} StrictlyOrderedIsSorted<T>(key: T -> Key, items: seq<T>)
    requires StrictlyOrdered(key, items)
    ensures Sort(key, items) == items
  {
    hide Before;
    if items != [] {
      StrictlyOrderedIsSorted(key, items[1..]);
      if |items| > 1 {
        BeforeIsAsymmetric(key(items[0]), key(items[1]));
      }
    }
  }

  lemma {:induction false} HeadIsFirst<T>(key: T -> Key, items: seq<T>, x: T)
    requires StrictlyOrdered(key, items) && x in items
    ensures x == items[0] || Before(key(items[0]), key(x))
  {
    hide Before;
  }

  lemma {:induction false} SameHead<T>(key: T -> Key, a: seq<T>, b: seq<T>)
    requires StrictlyOrdered(key, a) && StrictlyOrdered(key, b) && multiset(a) == multiset(b) && a != []
    ensures b != [] && a[0] == b[0]
  {
    hide Before, StrictlyOrdered;
    assert |multiset(a)| == |multiset(b)|;
    assert a[0] in multiset(b) && b[0] in multiset(a);
    HeadIsFirst(key, a, b[0]);
    HeadIsFirst(key, b, a[0]);
    if a[0] != b[0] {
      BeforeIsAsymmetric(key(a[0]), key(b[0]));
    }
  }

  lemma {:induction false} TailsAgree<T>(a: seq<T>, b: seq<T>)
    requires a != [] && b != [] && a[0] == b[0] && multiset(a) == multiset(b)
    ensures multiset(a[1..]) == multiset(b[1..])
  {
    assert a == [a[0]] + a[1..] && b == [b[0]] + b[1..];
    assert multiset(a[1..]) == multiset(a) - multiset{a[0]};
    assert multiset(b[1..]) == multiset(b) - multiset{b[0]};
  }

  /** There is one strict order of given items. */
  lemma {:induction false} StrictOrderIsUnique<T>(key: T -> Key, a: seq<T>, b: seq<T>)
    requires StrictlyOrdered(key, a) && StrictlyOrdered(key, b) && multiset(a) == multiset(b)
    ensures a == b
  {
    hide Before;
    if a == [] {
      assert |multiset(b)| == 0;
    } else {
      SameHead(key, a, b);
      TailsAgree(a, b);
      StrictOrderIsUnique(key, a[1..], b[1..]);
      assert a == [a[0]] + a[1..] && b == [b[0]] + b[1..];
    }
  }

  /** Sorting items of distinct keys does not depend on the order they come in. */
  lemma {:induction false} SortIgnoresOrder<T>(key: T -> Key, a: seq<T>, b: seq<T>)
    requires DistinctKeys(key, a) && DistinctKeys(key, b) && multiset(a) == multiset(b)
    ensures Sort(key, a) == Sort(key, b)
  {
    hide Before, Sort;
    SortIsStrict(key, a);
    SortIsStrict(key, b);
    SortKeepsAll(key, a);
    SortKeepsAll(key, b);
    StrictOrderIsUnique(key, Sort(key, a), Sort(key, b));
  }
}
