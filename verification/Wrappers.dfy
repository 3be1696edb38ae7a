/** Values that may be absent, results that may be errors, and sequences of them. */
module Wrappers {
  datatype Option<+T> = None | Some(value: T)

  datatype Result<+T, +E> = Success(value: T) | Failure(error: E)

  function Map<A, B>(f: A -> B, items: seq<A>): seq<B> {
    seq(|items|, i requires 0 <= i < |items| => f(items[i]))
  }

  /** The values that are there, in order. */
  function Present<T>(items: seq<Option<T>>): seq<T> {
    if items == [] then []
    else (if items[0].Some? then [items[0].value] else []) + Present(items[1..])
  }

  lemma {:induction false} PresentConcat<T>(a: seq<Option<T>>, b: seq<Option<T>>)
    ensures Present(a + b) == Present(a) + Present(b)
    decreases |a|
  {
    if a == [] {
      assert a + b == b;
    } else {
      var first := if a[0].Some? then [a[0].value] else [];
      assert (a + b)[0] == a[0] && (a + b)[1..] == a[1..] + b;
      PresentConcat(a[1..], b);
      assert first + (Present(a[1..]) + Present(b)) == first + Present(a[1..]) + Present(b);
    }
  }

  /** A loop that has mapped the first i items and turns to the next one. */
  lemma PresentGrows<A, B>(f: A -> Option<B>, items: seq<A>, i: nat)
    requires i < |items|
    ensures Present(Map(f, items[..i + 1])) ==
            Present(Map(f, items[..i])) + (if f(items[i]).Some? then [f(items[i]).value] else [])
  {
    assert Map(f, items[..i + 1]) == Map(f, items[..i]) + [f(items[i])];
    PresentConcat(Map(f, items[..i]), [f(items[i])]);
  }

  lemma {:induction false} PresentFacts<T>(items: seq<Option<T>>)
    ensures forall value | value in Present(items) :: Some(value) in items
    decreases |items|
  {
    if items != [] { PresentFacts(items[1..]); }
  }

  /** When every item yields a value, those values are what is there. */
  lemma {:induction false} AllPresent<A, B>(f: A -> Option<B>, items: seq<A>, values: seq<B>)
    requires |items| == |values| && forall i | 0 <= i < |items| :: f(items[i]) == Some(values[i])
    ensures Present(Map(f, items)) == values
    decreases |items|
  {
    if items != [] {
      assert Map(f, items)[1..] == Map(f, items[1..]);
      AllPresent(f, items[1..], values[1..]);
    }
  }

  function Filter<T(!new)>(keep: T -> bool, items: seq<T>): (kept: seq<T>)
    ensures forall item :: item in kept <==> item in items && keep(item)
  {
    if items == [] then []
    else
      var rest := Filter(keep, items[1..]);
      if keep(items[0]) then [items[0]] + rest else rest
  }

  /** The first occurrence of each item. */
  function Deduplicated<T(==,!new)>(items: seq<T>): (clean: seq<T>)
    ensures forall i, j | 0 <= i < j < |clean| :: clean[i] != clean[j]
    ensures forall item :: item in clean <==> item in items
  {
    if items == [] then []
    else
      var clean, last := Deduplicated(items[..|items| - 1]), items[|items| - 1];
      assert forall item :: item in items <==> item in items[..|items| - 1] || item == last;
      if last in clean then clean else clean + [last]
  }

  /** A dictionary and the order in which its keys were first stored hold this list. */
  ghost predicate Shows<K(!new), V>(dict: map<K, V>, order: seq<K>, list: seq<V>, keyOf: V -> K) {
    && |order| == |list|
    && (forall j | 0 <= j < |list| :: order[j] == keyOf(list[j]) && order[j] in dict && dict[order[j]] == list[j])
    && (forall j, l | 0 <= j < l < |order| :: order[j] != order[l])
    && (forall k | k in dict :: k in order)
  }

  lemma ShowsReplaced<K(!new), V>(dict: map<K, V>, order: seq<K>, list: seq<V>, keyOf: V -> K, j: nat, v: V)
    requires Shows(dict, order, list, keyOf) && j < |list| && keyOf(v) == order[j]
    ensures Shows(dict[keyOf(v) := v], order, list[j := v], keyOf)
  {
  }

  lemma ShowsAppended<K(!new), V>(dict: map<K, V>, order: seq<K>, list: seq<V>, keyOf: V -> K, v: V)
    requires Shows(dict, order, list, keyOf) && keyOf(v) !in dict
    ensures Shows(dict[keyOf(v) := v], order + [keyOf(v)], list + [v], keyOf)
  {
    var k := keyOf(v);
    assert forall j | 0 <= j < |order| :: order[j] in dict;
    assert forall l | l in dict :: l in order;
    assert (order + [k])[|order|] == k;
  }

  lemma MapFacts<A, B>(f: A -> B, items: seq<A>)
    ensures forall item | item in items :: f(item) in Map(f, items)
    ensures forall value | value in Map(f, items) :: exists item :: item in items && f(item) == value
  {
    forall item | item in items ensures f(item) in Map(f, items) {
      var i :| 0 <= i < |items| && items[i] == item;
      assert Map(f, items)[i] == f(item);
    }
  }

  lemma {:induction false} PresentHas<T>(items: seq<Option<T>>, value: T)
    requires Some(value) in items
    ensures value in Present(items)
    decreases |items|
  {
    if items[0] != Some(value) { PresentHas(items[1..], value); }
  }
}
