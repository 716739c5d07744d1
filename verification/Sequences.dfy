/** Notions about sequences that most modules share. */
module Sequences {
  import opened Wrappers

  function Elements<T>(items: seq<T>): set<T> {
    set item | item in items
  }

  predicate Distinct<T(==)>(items: seq<T>) {
    forall i, j :: 0 <= i < j < |items| ==> items[i] != items[j]
  }

  lemma {:induction false} ElementsOfSum<T>(a: seq<T>, b: seq<T>)
    ensures Elements(a + b) == Elements(a) + Elements(b)
  {
  }

  /** Comparing the size of the set with the length of the list decides distinctness. */
  lemma {:induction false} DistinctCount<T>(items: seq<T>)
    ensures |Elements(items)| <= |items|
    ensures |Elements(items)| == |items| <==> Distinct(items)
  {
    if items != [] {
      var rest := items[1..];
      DistinctCount(rest);
      assert Elements(items) == Elements(rest) + {items[0]};
      if items[0] in Elements(rest) {
        assert Elements(items) == Elements(rest);
        var i :| 0 <= i < |rest| && rest[i] == items[0];
        assert items[i + 1] == items[0];
      } else {
        assert forall i :: 0 <= i < |rest| ==> rest[i] == items[i + 1];
        if Distinct(rest) {
          forall i, j | 0 <= i < j < |items| ensures items[i] != items[j] {
            assert items[j] == rest[j - 1] && rest[j - 1] in Elements(rest);
            assert i > 0 ==> items[i] == rest[i - 1];
          }
        }
        if Distinct(items) {
          forall i, j | 0 <= i < j < |rest| ensures rest[i] != rest[j] {
            assert items[i + 1] != items[j + 1];
          }
        }
      }
    }
  }

  /** The last item with a property. */
  function Last<T>(items: seq<T>, holds: T -> bool): Option<T>
    decreases |items|
  {
    if items == [] then None
    else if holds(items[|items| - 1]) then Some(items[|items| - 1])
    else Last(items[..|items| - 1], holds)
  }

  lemma {:induction false} LastOfMore<T>(items: seq<T>, item: T, holds: T -> bool)
    ensures Last(items + [item], holds) == if holds(item) then Some(item) else Last(items, holds)
  {
    assert (items + [item])[..|items|] == items;
  }

  /** How many items have a property. */
  function Count<T>(items: seq<T>, holds: T -> bool): nat {
    if items == [] then 0 else (if holds(items[0]) then 1 else 0) + Count(items[1..], holds)
  }

  lemma {:induction false} CountMore<T>(items: seq<T>, item: T, holds: T -> bool)
    ensures Count(items + [item], holds) == Count(items, holds) + (if holds(item) then 1 else 0)
  {
    if items == [] {
      assert items + [item] == [item];
    } else {
      assert (items + [item])[1..] == items[1..] + [item];
      CountMore(items[1..], item, holds);
    }
  }

  lemma {:induction false} CountNext<T>(items: seq<T>, i: nat, holds: T -> bool)
    requires i < |items|
    ensures Count(items[..i + 1], holds) == Count(items[..i], holds) + (if holds(items[i]) then 1 else 0)
  {
    assert items[..i + 1] == items[..i] + [items[i]];
    CountMore(items[..i], items[i], holds);
  }

  /** Some of the first `n` items has this value of a field. */
  ghost predicate TakenBefore<T>(of: T -> string, items: seq<T>, n: int, value: string)
    requires 0 <= n <= |items|
  {
    exists i :: 0 <= i < n && of(items[i]) == value
  }

  /** `values` are the values of a field in the first `n` items. */
  ghost predicate Collected<T>(values: set<string>, of: T -> string, items: seq<T>, n: int)
    requires 0 <= n <= |items|
  {
    forall value :: value in values <==> TakenBefore(of, items, n, value)
  }

  lemma {:induction false} TakenMore<T>(of: T -> string, items: seq<T>, i: int, value: string)
    requires 0 <= i < |items|
    ensures TakenBefore(of, items, i + 1, value) <==> TakenBefore(of, items, i, value) || value == of(items[i])
  {
  }

  lemma {:induction false} CollectMore<T>(values: set<string>, of: T -> string, items: seq<T>, i: int)
    requires 0 <= i < |items| && Collected(values, of, items, i)
    ensures Collected(values + {of(items[i])}, of, items, i + 1)
  {
    forall value ensures TakenBefore(of, items, i + 1, value) <==> value in values + {of(items[i])} {
      TakenMore(of, items, i, value);
    }
  }
}
