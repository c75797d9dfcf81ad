/**
 * Flattening of the template data (and of the site data) that a view
 * leaves in the request globals: a single mapping is taken as it is; a
 * search list of mappings, most specific first, is merged from the last
 * to the first, so that entries of earlier mappings win.
 */
module SearchList {
  import opened Wrappers
  import opened PyValues
  import opened Outcomes

  /** `result[k] = v`: overwrite the entry for `k` in place, or append one. */
  function Assign(items: seq<(string, Value)>, k: string, v: Value): (r: seq<(string, Value)>)
    ensures Find(r, k) == Some(v)
    ensures forall k' :: k' != k ==> Find(r, k') == Find(items, k')
  {
    if items == [] then [(k, v)]
    else if items[0].0 == k then [(k, v)] + items[1..]
    else [items[0]] + Assign(items[1..], k, v)
  }

  /** `result.update(d)`: assign the entries of `d` in order. */
  function Update(result: seq<(string, Value)>, d: seq<(string, Value)>): seq<(string, Value)>
    decreases |d|
  {
    if d == [] then result else Update(Assign(result, d[0].0, d[0].1), d[1..])
  }

  /** The mapping every element of a search list must be. */
  predicate AllMappings(ds: seq<Value>) {
    forall i :: 0 <= i < |ds| ==> IsMapping(ds[i])
  }

  /** What `for d in reversed(ds): result.update(d)` leaves in `result`. */
  function Merge(ds: seq<Value>): seq<(string, Value)>
    requires AllMappings(ds)
  {
    if ds == [] then [] else Update(Merge(ds[1..]), ds[0].items)
  }

  /**
   * `_get_tmpl_data`/`_get_site_data` on the stored value: a falsy value
   * gives `{}`, a mapping is returned unchanged, and a list is merged;
   * anything else makes `reversed` or `update` raise.
   */
  function Flattened(stored: Value): (r: Result<Value, Exception>)
    ensures r.Ok? ==> IsMapping(r.value)
  {
    if !Truthy(stored) then Ok(Dict([]))
    else if IsMapping(stored) then Ok(stored)
    else if stored.List? && AllMappings(stored.elems) then Ok(Dict(Merge(stored.elems)))
    else Err(TypeError)
  }

  /** The flattening loop, as written: walk the search list backwards, updating `result`. */
  method Flatten(stored: Value) returns (r: Result<Value, Exception>)
    ensures r == Flattened(stored)
  {
    if !Truthy(stored) {
      return Ok(Dict([]));
    }
    if IsMapping(stored) {
      return Ok(stored);
    }
    if !stored.List? {
      return Err(TypeError);
    }
    var searchList := stored.elems;
    var result: seq<(string, Value)> := [];
    var i := |searchList|;
    while i > 0
      invariant 0 <= i <= |searchList|
      invariant AllMappings(searchList[i..])
      invariant result == Merge(searchList[i..])
    {
      var d := searchList[i - 1];
      if !IsMapping(d) {
        return Err(TypeError);
      }
      assert searchList[i - 1..][1..] == searchList[i..];
      result := Update(result, d.items);
      i := i - 1;
    }
    assert searchList[0..] == searchList;
    return Ok(Dict(result));
  }

  // ---------------------------------------------------------------------
  // Precedence

  /** Resolve `k` the way a template engine reads a search list: the first mapping that has it. */
  function Lookup(ds: seq<Value>, k: string): Option<Value>
    requires AllMappings(ds)
  {
    if ds == [] then None
    else if Find(ds[0].items, k).Some? then Find(ds[0].items, k)
    else Lookup(ds[1..], k)
  }

  /** Every mapping of the list is a real dict: its keys are unique. */
  predicate WellFormed(ds: seq<Value>) {
    AllMappings(ds) && forall i :: 0 <= i < |ds| ==> UniqueKeys(ds[i].items)
  }

  /** An update overrides exactly the keys of `d`. */
  lemma {:induction false} UpdateFind(result: seq<(string, Value)>, d: seq<(string, Value)>, k: string)
    requires UniqueKeys(d)
    ensures Find(Update(result, d), k) == if Find(d, k).Some? then Find(d, k) else Find(result, k)
    decreases |d|
  {
    if d != [] {
      assert UniqueKeys(d[1..]) by {
        forall i, j | 0 <= i < j < |d[1..]| ensures d[1..][i].0 != d[1..][j].0 {
          assert d[1..][i] == d[i + 1] && d[1..][j] == d[j + 1];
        }
      }
      UpdateFind(Assign(result, d[0].0, d[0].1), d[1..], k);
      if Find(d[1..], k).Some? {
        assert d[0].0 != k by {
          var j :| 0 <= j < |d[1..]| && d[1..][j].0 == k;
          assert d[j + 1].0 == k;
        }
      }
    }
  }

  /** After an update a key is present iff it was present before or `d` has it, whatever the duplicates. */
  lemma {:induction false} UpdateHasKey(result: seq<(string, Value)>, d: seq<(string, Value)>, k: string)
    ensures Find(Update(result, d), k).Some? <==> Find(d, k).Some? || Find(result, k).Some?
    decreases |d|
  {
    if d != [] {
      UpdateHasKey(Assign(result, d[0].0, d[0].1), d[1..], k);
    }
  }

  /** Merging a search list resolves every key as the search list does. */
  lemma {:induction false} MergeResolves(ds: seq<Value>, k: string)
    requires WellFormed(ds)
    ensures Find(Merge(ds), k) == Lookup(ds, k)
  {
    if ds != [] {
      assert WellFormed(ds[1..]) by {
        forall i | 0 <= i < |ds[1..]| ensures IsMapping(ds[1..][i]) && UniqueKeys(ds[1..][i].items) {
          assert ds[1..][i] == ds[i + 1];
        }
      }
      MergeResolves(ds[1..], k);
      UpdateFind(Merge(ds[1..]), ds[0].items, k);
    }
  }

  lemma {:induction false} LookupFirst(ds: seq<Value>, k: string, i: nat)
    requires AllMappings(ds) && i < |ds|
    requires Find(ds[i].items, k).Some?
    requires forall j :: 0 <= j < i ==> Find(ds[j].items, k).None?
    ensures Lookup(ds, k) == Find(ds[i].items, k)
  {
    if i > 0 {
      assert AllMappings(ds[1..]) by {
        forall j | 0 <= j < |ds[1..]| ensures IsMapping(ds[1..][j]) { assert ds[1..][j] == ds[j + 1]; }
      }
      forall j | 0 <= j < i - 1 ensures Find(ds[1..][j].items, k).None? { assert ds[1..][j] == ds[j + 1]; }
      LookupFirst(ds[1..], k, i - 1);
    }
  }

  lemma {:induction false} LookupSome(ds: seq<Value>, k: string)
    requires AllMappings(ds)
    ensures Lookup(ds, k).Some? <==> exists i :: 0 <= i < |ds| && Find(ds[i].items, k).Some?
  {
    if ds != [] {
      assert AllMappings(ds[1..]) by {
        forall j | 0 <= j < |ds[1..]| ensures IsMapping(ds[1..][j]) { assert ds[1..][j] == ds[j + 1]; }
      }
      LookupSome(ds[1..], k);
      if exists i :: 0 <= i < |ds| && Find(ds[i].items, k).Some? {
        var i :| 0 <= i < |ds| && Find(ds[i].items, k).Some?;
        if i > 0 { assert ds[1..][i - 1] == ds[i]; }
      }
      if exists i :: 0 <= i < |ds[1..]| && Find(ds[1..][i].items, k).Some? {
        var i :| 0 <= i < |ds[1..]| && Find(ds[1..][i].items, k).Some?;
        assert ds[1..][i] == ds[i + 1];
      }
    }
  }

  /** The flattened data has exactly the keys of the mappings in the search list. */
  lemma FlattenKeys(ds: seq<Value>, k: string)
    requires WellFormed(ds)
    ensures Flattened(List(ds)).Ok?
    ensures Find(Flattened(List(ds)).value.items, k).Some? <==>
            exists i :: 0 <= i < |ds| && Find(ds[i].items, k).Some?
  {
    if ds != [] {
      MergeResolves(ds, k);
      LookupSome(ds, k);
    }
  }

  /** A key takes its value from the earliest (most specific) mapping that has it. */
  lemma FlattenPrecedence(ds: seq<Value>, k: string, i: nat)
    requires WellFormed(ds) && i < |ds|
    requires Find(ds[i].items, k).Some?
    requires forall j :: 0 <= j < i ==> Find(ds[j].items, k).None?
    ensures Flattened(List(ds)).Ok?
    ensures Find(Flattened(List(ds)).value.items, k) == Find(ds[i].items, k)
  {
    MergeResolves(ds, k);
    LookupFirst(ds, k, i);
  }

  /** A mapping comes back as it is; a falsy value, a missing one among them, gives `{}`. */
  lemma FlattenedPassThrough(stored: Value)
    ensures IsMapping(stored) && Truthy(stored) ==> Flattened(stored) == Ok(stored)
    ensures !Truthy(stored) ==> Flattened(stored) == Ok(Dict([]))
    ensures Flattened(Null) == Ok(Dict([]))
  {
  }

  /** `[{x: 1}, {x: 2, y: 3}]` flattens to `x = 1, y = 3`. */
  lemma SpecificWins()
    ensures Flattened(List([Dict([("x", Int(1))]), Dict([("x", Int(2)), ("y", Int(3))])])).Ok?
    ensures Find(Flattened(List([Dict([("x", Int(1))]), Dict([("x", Int(2)), ("y", Int(3))])])).value.items, "x") == Some(Int(1))
    ensures Find(Flattened(List([Dict([("x", Int(1))]), Dict([("x", Int(2)), ("y", Int(3))])])).value.items, "y") == Some(Int(3))
  {
    var ds := [Dict([("x", Int(1))]), Dict([("x", Int(2)), ("y", Int(3))])];
    assert WellFormed(ds);
    FlattenPrecedence(ds, "x", 0);
    FlattenPrecedence(ds, "y", 1);
  }
}
