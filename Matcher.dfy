/**
 * The structural matcher behind every `expect_*_data` check
 * (`_check_contains` and `_check_lists`): an expected list must match
 * element by element, an expected dict need only be contained in the
 * actual value, anything else must be equal. The checker reports the
 * first mismatch; `Matches` and `Contains` say declaratively when there
 * is none.
 */
module Matcher {
  import opened Wrappers
  import opened PyValues
  import opened Outcomes

  // ---------------------------------------------------------------------
  // Termination measure: the checkers walk the expected value.

  function Size(v: Value): (n: nat)
    ensures n >= 1
    decreases v
  {
    match v
    case List(es) => 1 + SeqSize(es)
    case Dict(items) => 1 + ItemsSize(items)
    case Object(_, _, items) => 1 + ItemsSize(items)
    case _ => 1
  }

  function SeqSize(es: seq<Value>): nat
    decreases es
  {
    if es == [] then 0 else Size(es[0]) + SeqSize(es[1..])
  }

  function ItemsSize(items: seq<(string, Value)>): nat
    decreases items
  {
    if items == [] then 0 else EntrySize(items[0]) + ItemsSize(items[1..])
  }

  function EntrySize(entry: (string, Value)): (n: nat)
    ensures n == Size(entry.1)
    decreases entry
  {
    Size(entry.1)
  }

  // ---------------------------------------------------------------------
  // The checker, as written

  /**
   * Find the actual value for `key`: an attribute first (called when it
   * is callable), else an item of a container, else fail.
   */
  function Resolve(where: string, key: string, actual: Value): (r: Result<Value, Outcome>)
    ensures HasAttr(actual, key) ==> r == Ok(Invoke(GetAttr(actual, key)))
    ensures !HasAttr(actual, key) && !HasContains(actual) ==> r == Err(Fail(MissingAttr(where, key)))
    ensures !HasAttr(actual, key) && HasContains(actual) && !In(key, actual) ==> r == Err(Fail(MissingKey(where, key)))
    ensures !HasAttr(actual, key) && IsMapping(actual) && In(key, actual) ==> r == Ok(Find(actual.items, key).value)
    ensures !HasAttr(actual, key) && HasContains(actual) && !IsMapping(actual) && In(key, actual) ==> r == Err(Raise(TypeError))
    ensures r.Ok? && !HasAttr(actual, key) ==> IsMapping(actual) && Find(actual.items, key) == Some(r.value)
    ensures r.Err? ==> r.error != Pass
  {
    if HasAttr(actual, key) then Ok(Invoke(GetAttr(actual, key)))
    else if HasContains(actual) then
      if !In(key, actual) then Err(Fail(MissingKey(where, key)))
      else if IsMapping(actual) then Ok(Find(actual.items, key).value)
      else Err(Raise(TypeError))  // a list or string indexed by a string
    else Err(Fail(MissingAttr(where, key)))
  }

  /** `_check_contains(where, key, expected, actual)`. */
  function CheckContains(where: string, key: string, expected: Value, actual: Value): Outcome
    decreases Size(expected), 3
  {
    match Resolve(where, key, actual)
    case Err(o) => o
    case Ok(a) => CheckValue(where, key, expected, a)
  }

  /** The dispatch on the expected value inside `_check_contains`. */
  function CheckValue(where: string, key: string, expected: Value, actual: Value): Outcome
    decreases Size(expected), 2
  {
    if expected.List? then CheckLists(where, expected.elems, actual)
    else if IsMapping(expected) then CheckItems(where, expected.items, actual)
    else if expected == actual then Pass
    else Fail(Unequal(where, key, expected, actual))
  }

  /** `for k, v in expected.items(): _check_contains(where, k, v, actual)`. */
  function CheckItems(where: string, items: seq<(string, Value)>, actual: Value): Outcome
    decreases ItemsSize(items), 4
  {
    if items == [] then Pass
    else CheckContains(where, items[0].0, items[0].1, actual).Then(CheckItems(where, items[1..], actual))
  }

  /** `_check_lists(where, expected, actual)`. */
  function CheckLists(where: string, expected: seq<Value>, actual: Value): (r: Outcome)
    ensures Iter(actual).Some? && |Iter(actual).value| != |expected| ==> r == Fail(LengthMismatch(where, expected, actual))
    ensures r == Pass ==> Iter(actual).Some? && |Iter(actual).value| == |expected|
    decreases SeqSize(expected), 4
  {
    match Iter(actual)
    case None => Raise(TypeError)  // len() of a value without a length
    case Some(elems) =>
      if |expected| != |elems| then Fail(LengthMismatch(where, expected, actual))
      else CheckPairs(where, expected, elems)
  }

  /** The `zip` loop of `_check_lists`. */
  function CheckPairs(where: string, expected: seq<Value>, actual: seq<Value>): Outcome
    requires |expected| == |actual|
    decreases SeqSize(expected), 3
  {
    if expected == [] then Pass
    else CheckElement(where, expected[0], actual[0]).Then(CheckPairs(where, expected[1..], actual[1..]))
  }

  /** One element of an expected list against its actual counterpart. */
  function CheckElement(where: string, expected: Value, actual: Value): Outcome
    decreases Size(expected), 2
  {
    if expected.List? then CheckLists(where + " >>", expected.elems, actual)
    else if IsMapping(expected) then CheckItems(where, expected.items, actual)
    else if expected == actual then Pass
    else Fail(ListUnequal(where, expected, actual))
  }

  // ---------------------------------------------------------------------
  // Reference semantics: when is there no mismatch at all?

  /** `expected` matches `actual`: list pointwise, dict as a subset, else equality. */
  predicate Matches(expected: Value, actual: Value)
    decreases expected, 1
  {
    if expected.List? then
      Iter(actual).Some? && |Iter(actual).value| == |expected.elems| &&
      forall i :: 0 <= i < |expected.elems| ==> Matches(expected.elems[i], Iter(actual).value[i])
    else if IsMapping(expected) then
      forall i :: 0 <= i < |expected.items| ==> Contains(actual, expected.items[i].0, expected.items[i].1)
    else expected == actual
  }

  /** `key` resolves in `actual` to a value that `expected` matches. */
  predicate Contains(actual: Value, key: string, expected: Value)
    decreases expected, 2
  {
    Resolve("", key, actual).Ok? && Matches(expected, Resolve("", key, actual).value)
  }

  lemma ResolveIgnoresWhere(w1: string, w2: string, key: string, actual: Value)
    ensures Resolve(w1, key, actual).Ok? == Resolve(w2, key, actual).Ok?
    ensures Resolve(w1, key, actual).Ok? ==> Resolve(w1, key, actual).value == Resolve(w2, key, actual).value
  {
  }

  // ---------------------------------------------------------------------
  // The checker passes exactly when the reference semantics holds.

  lemma {:induction false} CheckContainsSound(where: string, key: string, expected: Value, actual: Value)
    ensures CheckContains(where, key, expected, actual) == Pass <==> Contains(actual, key, expected)
    decreases Size(expected), 3
  {
    ResolveIgnoresWhere(where, "", key, actual);
    match Resolve(where, key, actual)
    case Err(o) =>
    case Ok(a) => CheckValueSound(where, key, expected, a);
  }

  lemma {:induction false} CheckValueSound(where: string, key: string, expected: Value, actual: Value)
    ensures CheckValue(where, key, expected, actual) == Pass <==> Matches(expected, actual)
    decreases Size(expected), 2
  {
    if expected.List? {
      CheckListsSound(where, expected.elems, actual);
    } else if IsMapping(expected) {
      CheckItemsSound(where, expected.items, actual);
    }
  }

  lemma {:induction false} CheckItemsSound(where: string, items: seq<(string, Value)>, actual: Value)
    ensures CheckItems(where, items, actual) == Pass <==>
            forall i :: 0 <= i < |items| ==> Contains(actual, items[i].0, items[i].1)
    decreases ItemsSize(items), 4
  {
    if items != [] {
      CheckContainsSound(where, items[0].0, items[0].1, actual);
      CheckItemsSound(where, items[1..], actual);
      assert forall i :: 1 <= i < |items| ==> items[i] == items[1..][i - 1];
    }
  }

  lemma {:induction false} CheckListsSound(where: string, expected: seq<Value>, actual: Value)
    ensures CheckLists(where, expected, actual) == Pass <==> Matches(List(expected), actual)
    decreases SeqSize(expected), 4
  {
    match Iter(actual)
    case None =>
    case Some(elems) =>
      if |expected| == |elems| {
        CheckPairsSound(where, expected, elems);
      }
  }

  lemma {:induction false} CheckPairsSound(where: string, expected: seq<Value>, actual: seq<Value>)
    requires |expected| == |actual|
    ensures CheckPairs(where, expected, actual) == Pass <==>
            forall i :: 0 <= i < |expected| ==> Matches(expected[i], actual[i])
    decreases SeqSize(expected), 3
  {
    if expected != [] {
      CheckElementSound(where, expected[0], actual[0]);
      CheckPairsSound(where, expected[1..], actual[1..]);
      assert forall i :: 1 <= i < |expected| ==> expected[i] == expected[1..][i - 1] && actual[i] == actual[1..][i - 1];
    }
  }

  lemma {:induction false} CheckElementSound(where: string, expected: Value, actual: Value)
    ensures CheckElement(where, expected, actual) == Pass <==> Matches(expected, actual)
    decreases Size(expected), 2
  {
    if expected.List? {
      CheckListsSound(where + " >>", expected.elems, actual);
    } else if IsMapping(expected) {
      CheckItemsSound(where, expected.items, actual);
    }
  }

  // ---------------------------------------------------------------------
  // Containment is a subset check

  /**
   * Only the expected keys' entries of the actual dict matter: where the
   * two lists store the same value under every expected key, a pass on
   * one is a pass on the other, whatever else each holds and in any order.
   */
  lemma ExtraKeysNeverFail(where: string, expected: seq<(string, Value)>, items: seq<(string, Value)>, other: seq<(string, Value)>)
    requires forall i :: 0 <= i < |expected| ==> Find(other, expected[i].0) == Find(items, expected[i].0)
    requires CheckItems(where, expected, Dict(items)) == Pass
    ensures CheckItems(where, expected, Dict(other)) == Pass
  {
    CheckItemsSound(where, expected, Dict(items));
    CheckItemsSound(where, expected, Dict(other));
    forall i | 0 <= i < |expected|
      ensures Contains(Dict(other), expected[i].0, expected[i].1)
    {
      assert Contains(Dict(items), expected[i].0, expected[i].1);
    }
  }

  /** Unexpected keys stored before the expected one do not matter either: `{b: 2, a: 1}` contains `{a: 1}`. */
  lemma ExtraKeysBefore(where: string)
    ensures CheckItems(where, [("a", Int(1))], Dict([("b", Int(2)), ("a", Int(1))])) == Pass
  {
    ContainmentNotSymmetric(where);
    ExtraKeysNeverFail(where, [("a", Int(1))], [("a", Int(1)), ("b", Int(2))], [("b", Int(2)), ("a", Int(1))]);
  }

  // ---------------------------------------------------------------------
  // Every plain value matches itself

  /** A value built from None, ints, strings, lists and dicts with unique keys. */
  predicate Plain(v: Value)
    decreases v
  {
    match v
    case Null => true
    case Int(_) => true
    case Str(_) => true
    case List(es) => forall i :: 0 <= i < |es| ==> Plain(es[i])
    case Dict(items) => UniqueKeys(items) && forall i :: 0 <= i < |items| ==> Plain(items[i].1)
    case _ => false
  }

  /** With unique keys, each entry is the one `Find` returns for its key. */
  lemma {:induction false} FindUnique(items: seq<(string, Value)>, i: nat)
    requires UniqueKeys(items) && i < |items|
    ensures Find(items, items[i].0) == Some(items[i].1)
  {
    if i > 0 {
      assert UniqueKeys(items[1..]) by {
        forall a, b | 0 <= a < b < |items[1..]| ensures items[1..][a].0 != items[1..][b].0 {
          assert items[1..][a] == items[a + 1] && items[1..][b] == items[b + 1];
        }
      }
      FindUnique(items[1..], i - 1);
      assert items[1..][i - 1] == items[i];
    }
  }

  /** A plain value matches itself: lists pointwise, dicts key by key. */
  lemma {:induction false} MatchesSelf(v: Value)
    requires Plain(v)
    ensures Matches(v, v)
    decreases v
  {
    match v
    case List(es) =>
      forall i | 0 <= i < |es| ensures Matches(es[i], es[i]) {
        MatchesSelf(es[i]);
      }
    case Dict(items) =>
      forall i | 0 <= i < |items| ensures Contains(v, items[i].0, items[i].1) {
        FindUnique(items, i);
        MatchesSelf(items[i].1);
      }
    case _ =>
  }

  /** An expected list passes against an equal actual list. */
  lemma EqualListsPass(where: string, es: seq<Value>)
    requires Plain(List(es))
    ensures CheckLists(where, es, List(es)) == Pass
  {
    MatchesSelf(List(es));
    CheckListsSound(where, es, List(es));
  }

  /** `{a: 1}` is contained in `{a: 1, b: 2}`, but not the other way round. */
  lemma ContainmentNotSymmetric(where: string)
    ensures CheckItems(where, [("a", Int(1))], Dict([("a", Int(1)), ("b", Int(2))])) == Pass
    ensures CheckItems(where, [("a", Int(1)), ("b", Int(2))], Dict([("a", Int(1))])) == Fail(MissingKey(where, "b"))
  {
    assert Find([("a", Int(1))], "b") == None;
  }
}
