/**
 * Dotted-path presence, as `expect_tmpl_has=['obj.key']` uses it:
 * `_dot` looks one step up (attribute first, else item, a missing key
 * giving None) and `_check_has` walks `exp_key.split('.')` with it,
 * failing at the first None and reporting the parts found so far.
 */
module DottedPath {
  import opened Wrappers
  import opened PyValues
  import opened Outcomes
  import opened Vocabulary

  // ---------------------------------------------------------------------
  // str.split('.') and '.'.join

  /** `s.split('.')`: never empty, no part holds a dot, and joining undoes it. */
  function Split(s: string): (parts: seq<string>)
    ensures |parts| >= 1
    ensures forall i :: 0 <= i < |parts| ==> '.' !in parts[i]
    ensures Join(parts) == s
  {
    if s == [] then [""]
    else if s[0] == '.' then [""] + Split(s[1..])
    else
      var rest := Split(s[1..]);
      assert s == [s[0]] + s[1..];
      [[s[0]] + rest[0]] + rest[1..]
  }

  /** `'.'.join(parts)`. */
  function Join(parts: seq<string>): string {
    JoinWith(parts, ".")
  }

  /** Splitting a join of dot-free parts gives the parts back. */
  lemma {:induction false} SplitJoin(parts: seq<string>)
    requires |parts| >= 1
    requires forall i :: 0 <= i < |parts| ==> '.' !in parts[i]
    ensures Split(Join(parts)) == parts
  {
    if |parts| == 1 {
      SplitDotFree(parts[0]);
    } else {
      SplitJoin(parts[1..]);
      SplitConcat(parts[0], Join(parts[1..]));
    }
  }

  lemma {:induction false} SplitDotFree(p: string)
    requires '.' !in p
    ensures Split(p) == [p]
  {
    if p != [] {
      SplitDotFree(p[1..]);
      assert p == [p[0]] + p[1..];
    }
  }

  lemma {:induction false} SplitConcat(p: string, rest: string)
    requires '.' !in p
    ensures Split(p + "." + rest) == [p] + Split(rest)
  {
    if p == [] {
      assert p + "." + rest == "." + rest;
      assert ("." + rest)[1..] == rest;
    } else {
      assert (p + "." + rest)[1..] == p[1..] + "." + rest;
      SplitConcat(p[1..], rest);
      assert p == [p[0]] + p[1..];
    }
  }

  // ---------------------------------------------------------------------
  // _dot

  /**
   * `_dot(obj, attr)`: the attribute if there is one (not called), else
   * `obj[attr]`, with a missing key giving None. Indexing anything but a
   * mapping with a string raises TypeError, which `_dot` does not catch.
   */
  function Dot(obj: Value, attr: string): (r: Result<Value, Exception>)
    ensures HasAttr(obj, attr) ==> r == Ok(GetAttr(obj, attr))
    ensures !HasAttr(obj, attr) && IsMapping(obj) ==> r == Ok(Find(obj.items, attr).GetOr(Null))
    ensures r.Err? <==> !HasAttr(obj, attr) && !IsMapping(obj)
  {
    if HasAttr(obj, attr) then Ok(GetAttr(obj, attr))
    else if IsMapping(obj) then
      match Find(obj.items, attr)
      case Some(v) => Ok(v)
      case None => Ok(Null)
    else Err(TypeError)
  }

  /** `_dot(_dot(obj, p0), p1) ...`: the value the whole path designates. */
  function Reach(obj: Value, parts: seq<string>): Result<Value, Exception>
    decreases |parts|
  {
    if parts == [] then Ok(obj)
    else match Reach(obj, parts[..|parts| - 1])
      case Err(e) => Err(e)
      case Ok(v) => Dot(v, parts[|parts| - 1])
  }

  /** Every non-empty prefix of the path designates a value other than None. */
  predicate AllPresent(obj: Value, parts: seq<string>) {
    forall k :: 1 <= k <= |parts| ==> Reach(obj, parts[..k]).Ok? && Reach(obj, parts[..k]).value != Null
  }

  // ---------------------------------------------------------------------
  // The walk _check_has performs

  datatype Probe = Reached(v: Value) | MissingAt(at: nat) | CrashedAt(at: nat)

  /** Walk `parts[from..]` from `v`, stopping at the first None or exception. */
  function Walk(v: Value, parts: seq<string>, from: nat): (p: Probe)
    requires from <= |parts|
    ensures p.MissingAt? ==> from <= p.at < |parts|
    ensures p.CrashedAt? ==> from <= p.at < |parts|
    decreases |parts| - from
  {
    if from == |parts| then Reached(v)
    else match Dot(v, parts[from])
      case Err(_) => CrashedAt(from)
      case Ok(w) => if w == Null then MissingAt(from) else Walk(w, parts, from + 1)
  }

  /** `s` reversed. */
  function Reversed(s: seq<string>): (r: seq<string>)
    ensures |r| == |s|
  {
    if s == [] then [] else [s[|s| - 1]] + Reversed(s[..|s| - 1])
  }

  /** Element `j` of the reversal is element `|s| - 1 - j` of `s`. */
  lemma {:induction false} ReversedIndex(s: seq<string>)
    ensures forall j :: 0 <= j < |s| ==> Reversed(s)[j] == s[|s| - 1 - j]
  {
    if s != [] {
      var init := s[..|s| - 1];
      ReversedIndex(init);
      assert forall j :: 1 <= j < |s| ==> Reversed(s)[j] == Reversed(init)[j - 1];
    }
  }

  /** What `_check_has(actual, exp_key, exp_name)` ends with. */
  function HasVerdict(actual: Value, expKey: string, expName: string): Outcome {
    var parts := Split(expKey);
    match Walk(actual, parts, 0)
    case Reached(_) => Pass
    case MissingAt(i) => Fail(PathNotFound(expKey, Show(expName), Join(Reversed(parts[..i]))))
    case CrashedAt(_) => Raise(TypeError)
  }

  /**
   * `_check_has`: pop the parts of `exp_key` one at a time, step with
   * `_dot`, fail at the first None, and push each part found onto the
   * FRONT of `found_parts`, so the prefix it reports is reversed.
   */
  method CheckHas(actual: Value, expKey: string, expName: string) returns (r: Outcome)
    ensures r == HasVerdict(actual, expKey, expName)
  {
    ghost var parts := Split(expKey);
    var expParts := Split(expKey);
    var foundParts: seq<string> := [];
    var cur := actual;
    ghost var k := 0;
    while expParts != []
      invariant 0 <= k <= |parts|
      invariant expParts == parts[k..]
      invariant foundParts == Reversed(parts[..k])
      invariant Walk(actual, parts, 0) == Walk(cur, parts, k)
      decreases |expParts|
    {
      var part := expParts[0];
      expParts := expParts[1..];
      var step := Dot(cur, part);
      if step.Err? {
        return Raise(TypeError);
      }
      cur := step.value;
      if cur == Null {
        return Fail(PathNotFound(expKey, Show(expName), Join(foundParts)));
      }
      foundParts := [part] + foundParts;
      assert parts[..k + 1][..k] == parts[..k];
      k := k + 1;
    }
    return Pass;
  }

  // ---------------------------------------------------------------------
  // What the walk means

  lemma {:induction false} ReachStep(obj: Value, parts: seq<string>, k: nat)
    requires k < |parts|
    ensures parts[..k + 1][..k] == parts[..k]
    ensures Reach(obj, parts[..k + 1]) ==
            match Reach(obj, parts[..k]) case Err(e) => Err(e) case Ok(v) => Dot(v, parts[k])
  {
    assert parts[..k + 1][..k] == parts[..k];
  }

  /** From a point the path has reached, the walk succeeds iff every longer prefix is present. */
  lemma {:induction false} WalkFrom(obj: Value, parts: seq<string>, k: nat, v: Value)
    requires k <= |parts|
    requires Reach(obj, parts[..k]) == Ok(v)
    ensures Walk(v, parts, k).Reached? <==>
            forall j :: k < j <= |parts| ==> Reach(obj, parts[..j]).Ok? && Reach(obj, parts[..j]).value != Null
    decreases |parts| - k
  {
    if k < |parts| {
      ReachStep(obj, parts, k);
      var step := Dot(v, parts[k]);
      assert Reach(obj, parts[..k + 1]) == step;
      if step.Ok? && step.value != Null {
        WalkFrom(obj, parts, k + 1, step.value);
        if Walk(v, parts, k).Reached? {
          forall j | k < j <= |parts|
            ensures Reach(obj, parts[..j]).Ok? && Reach(obj, parts[..j]).value != Null
          {
            if j == k + 1 {
              assert Reach(obj, parts[..j]) == step;
            }
          }
        }
      }
    }
  }

  /** `_check_has` passes iff every segment of the dotted key resolves to a value other than None. */
  lemma HasIffAllPresent(actual: Value, expKey: string, expName: string)
    ensures HasVerdict(actual, expKey, expName) == Pass <==> AllPresent(actual, Split(expKey))
  {
    var parts := Split(expKey);
    assert parts[..0] == [];
    WalkFrom(actual, parts, 0, actual);
  }

  /** The path's first None is at part `i`: every shorter prefix is present, `parts[..i + 1]` is None. */
  predicate FirstNoneAt(obj: Value, parts: seq<string>, i: nat) {
    i < |parts| &&
    (forall k :: 1 <= k <= i ==> Reach(obj, parts[..k]).Ok? && Reach(obj, parts[..k]).value != Null) &&
    Reach(obj, parts[..i + 1]) == Ok(Null)
  }

  /** From a point the path has reached, a walk that stops as missing at `i` found the first None there. */
  lemma {:induction false} WalkMissingSound(obj: Value, parts: seq<string>, k: nat, v: Value, i: nat)
    requires k <= i < |parts|
    requires Reach(obj, parts[..k]) == Ok(v)
    requires Walk(v, parts, k) == MissingAt(i)
    ensures forall j :: k < j <= i ==> Reach(obj, parts[..j]).Ok? && Reach(obj, parts[..j]).value != Null
    ensures Reach(obj, parts[..i + 1]) == Ok(Null)
    decreases i - k
  {
    ReachStep(obj, parts, k);
    var step := Dot(v, parts[k]);
    assert Reach(obj, parts[..k + 1]) == step;
    if step.Ok? && step.value != Null {
      WalkMissingSound(obj, parts, k + 1, step.value, i);
      forall j | k < j <= i
        ensures Reach(obj, parts[..j]).Ok? && Reach(obj, parts[..j]).value != Null
      {
        if j == k + 1 {
          assert Reach(obj, parts[..j]) == step;
        }
      }
    }
  }

  /** From a point the path has reached, the walk stops as missing at the first None. */
  lemma {:induction false} WalkMissingComplete(obj: Value, parts: seq<string>, k: nat, v: Value, i: nat)
    requires k <= i < |parts|
    requires Reach(obj, parts[..k]) == Ok(v)
    requires forall j :: k < j <= i ==> Reach(obj, parts[..j]).Ok? && Reach(obj, parts[..j]).value != Null
    requires Reach(obj, parts[..i + 1]) == Ok(Null)
    ensures Walk(v, parts, k) == MissingAt(i)
    decreases i - k
  {
    ReachStep(obj, parts, k);
    var step := Dot(v, parts[k]);
    assert Reach(obj, parts[..k + 1]) == step;
    if k < i {
      assert step.Ok? && step.value != Null;
      WalkMissingComplete(obj, parts, k + 1, step.value, i);
    }
  }

  /**
   * `_check_has` stops at the first segment that resolves to None, and
   * reports the parts before it back to front.
   */
  lemma MissingAtFirstNone(actual: Value, expKey: string, expName: string, i: nat)
    ensures Walk(actual, Split(expKey), 0) == MissingAt(i) <==> FirstNoneAt(actual, Split(expKey), i)
    ensures FirstNoneAt(actual, Split(expKey), i) ==>
              HasVerdict(actual, expKey, expName) ==
              Fail(PathNotFound(expKey, Show(expName), Join(Reversed(Split(expKey)[..i]))))
  {
    var parts := Split(expKey);
    if i < |parts| {
      assert parts[..0] == [];
      if Walk(actual, parts, 0) == MissingAt(i) {
        WalkMissingSound(actual, parts, 0, actual, i);
      }
      if FirstNoneAt(actual, parts, i) {
        WalkMissingComplete(actual, parts, 0, actual, i);
      }
    }
  }

  /** A stored None counts as missing: the key is reported with an empty prefix. */
  lemma StoredNoneIsMissing(key: string, rest: seq<(string, Value)>, expName: string)
    requires '.' !in key
    ensures HasVerdict(Dict([(key, Null)] + rest), key, expName) == Fail(PathNotFound(key, Show(expName), ""))
  {
    SplitDotFree(key);
  }

  /**
   * The prefix is reported back to front: with `a` and `b` present and
   * `c` missing, `_check_has` on `a.b.c` reports the prefix `b.a`.
   */
  lemma ReversedPrefix(expName: string)
    ensures HasVerdict(Dict([("a", Dict([("b", Dict([]))]))]), "a.b.c", expName) ==
            Fail(PathNotFound("a.b.c", Show(expName), "b.a"))
  {
    var parts := ["a", "b", "c"];
    SplitJoin(parts);
    assert Join(parts) == "a.b.c";
    var inner := Dict([("b", Dict([]))]);
    var outer := Dict([("a", inner)]);
    assert Dot(outer, "a") == Ok(inner);
    assert Dot(inner, "b") == Ok(Dict([]));
    assert Dot(Dict([]), "c") == Ok(Null);
    assert Walk(outer, parts, 0) == Walk(inner, parts, 1) == Walk(Dict([]), parts, 2) == MissingAt(2);
    assert parts[..2] == ["a", "b"];
    ReversedIndex(["a", "b"]);
    var rev := Reversed(["a", "b"]);
    assert rev[0] == "b" && rev[1] == "a";
    assert rev == ["b", "a"];
    assert Join(["b", "a"]) == "b.a";
    assert Split("a.b.c") == parts;
  }
}
