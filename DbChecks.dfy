/**
 * `_check_db_expects`: each `(table, dct)` pair becomes a parameterised
 * SELECT, run through the registered select hook; `expect_db_has` needs
 * at least one row back, `expect_db_lacks` needs none.
 */
module DbChecks {
  import opened Wrappers
  import opened PyValues
  import opened Outcomes
  import opened Expectations
  import opened Config

  /** The WHERE clause for one column: None tests `is null`, anything else binds a placeholder. */
  function Clause(column: string, v: Value): string {
    if v == Null then column + " is null" else column + " = %s"
  }

  /** The clauses of a `(column, value)` dict, in iteration order. */
  function Clauses(dct: seq<(string, Value)>): (cs: seq<string>)
    ensures |cs| == |dct|
    ensures forall i :: 0 <= i < |dct| ==> cs[i] == Clause(dct[i].0, dct[i].1)
  {
    if dct == [] then []
    else Clauses(dct[..|dct| - 1]) + [Clause(dct[|dct| - 1].0, dct[|dct| - 1].1)]
  }

  /** The values bound to the placeholders: every value that is not None, in order. */
  function Params(dct: seq<(string, Value)>): (ps: seq<Value>)
    ensures forall i :: 0 <= i < |ps| ==> ps[i] != Null
    ensures |ps| <= |dct|
    ensures forall i :: 0 <= i < |dct| && dct[i].1 != Null ==> dct[i].1 in ps
  {
    if dct == [] then []
    else
      var last := dct[|dct| - 1].1;
      Params(dct[..|dct| - 1]) + (if last == Null then [] else [last])
  }

  /** How many clauses end in a `%s` placeholder. */
  function Placeholders(cs: seq<string>): nat {
    if cs == [] then 0
    else Placeholders(cs[..|cs| - 1]) + (if EndsWith(cs[|cs| - 1], " = %s") then 1 else 0)
  }

  /** `"SELECT * FROM " + table + " WHERE " + " AND ".join(clauses)`. */
  function Query(table: string, dct: seq<(string, Value)>): string {
    "SELECT * FROM " + table + " WHERE " + JoinWith(Clauses(dct), " AND ")
  }

  /** The clause-building loop: append a clause per entry, and its value when it is bound. */
  method BuildWhere(dct: seq<(string, Value)>) returns (clauses: seq<string>, values: seq<Value>)
    ensures clauses == Clauses(dct)
    ensures values == Params(dct)
  {
    clauses, values := [], [];
    for i := 0 to |dct|
      invariant clauses == Clauses(dct[..i])
      invariant values == Params(dct[..i])
    {
      var (k, v) := dct[i];
      assert dct[..i + 1][..i] == dct[..i];
      if v == Null {
        clauses := clauses + [k + " is null"];
      } else {
        clauses := clauses + [k + " = %s"];
        values := values + [v];
      }
    }
    assert dct[..|dct|] == dct;
  }

  /** There is exactly one bound value per placeholder. */
  lemma {:induction false} PlaceholdersMatchParams(dct: seq<(string, Value)>)
    ensures |Params(dct)| == Placeholders(Clauses(dct))
  {
    if dct != [] {
      var init := dct[..|dct| - 1];
      var (k, v) := dct[|dct| - 1];
      PlaceholdersMatchParams(init);
      var cs := Clauses(dct);
      assert cs == Clauses(init) + [Clause(k, v)];
      assert cs[..|cs| - 1] == Clauses(init);
      var c := Clause(k, v);
      if v == Null {
        assert c[|c| - 1] == 'l';
      } else {
        assert c[|c| - 5..] == " = %s";
      }
    }
  }

  /** `{a: v, b: None}`: `a` binds `v` to a placeholder, `b` is compared with null and binds nothing. */
  lemma NullColumnBindsNothing(a: string, v: Value, b: string)
    requires v != Null
    ensures Clauses([(a, v), (b, Null)]) == [a + " = %s", b + " is null"]
    ensures Params([(a, v), (b, Null)]) == [v]
  {
    var dct := [(a, v), (b, Null)];
    assert dct[..1] == [(a, v)];
    assert dct[..1][..0] == [];
  }

  // ---------------------------------------------------------------------
  // The verdict

  /** The rows the hook returns for one `(table, dct)` pair. */
  function Selected(select: DbSelect, row: (string, seq<(string, Value)>)): seq<Value> {
    select(Query(row.0, row.1), Params(row.1))
  }

  /**
   * The loop over `(table, dct)` pairs: the hook is fetched (and must be
   * set) for every pair, and the first pair with the wrong row count fails.
   */
  function RowsVerdict(rows: seq<(string, seq<(string, Value)>)>, hook: Option<DbSelect>, wantRows: bool): Outcome {
    if rows == [] then Pass
    else
      match hook
      case None => Raise(NotConfigured(DbSelectSlot))
      case Some(select) =>
        var n := |Selected(select, rows[0])|;
        if wantRows && n == 0 then Fail(RowsMissing(rows[0].0))
        else if !wantRows && n > 0 then Fail(RowsPresent(rows[0].0))
        else RowsVerdict(rows[1..], hook, wantRows)
  }

  /** Every pair has rows (for `has`) or has none (for `lacks`). */
  predicate RowsHold(rows: seq<(string, seq<(string, Value)>)>, hook: Option<DbSelect>, wantRows: bool) {
    rows != [] ==>
      hook.Some? &&
      forall i :: 0 <= i < |rows| ==> (|Selected(hook.value, rows[i])| > 0 <==> wantRows)
  }

  function DbPart(exp: Option<Arg>, hook: Option<DbSelect>, wantRows: bool, name: string): Outcome {
    match exp
    case None => Pass
    case Some(Rows(rs)) => RowsVerdict(rs, hook, wantRows)
    case Some(_) => Raise(BadArgument(name))
  }

  /** `_check_db_expects`: `expect_db_has` first, then `expect_db_lacks`. */
  function DbVerdict(has: Option<Arg>, lacks: Option<Arg>, hook: Option<DbSelect>): Outcome {
    DbPart(has, hook, true, "expect_db_has").Then(DbPart(lacks, hook, false, "expect_db_lacks"))
  }

  method CheckRows(rows: seq<(string, seq<(string, Value)>)>, hook: Option<DbSelect>, wantRows: bool) returns (r: Outcome)
    ensures r == RowsVerdict(rows, hook, wantRows)
  {
    for i := 0 to |rows|
      invariant RowsVerdict(rows[i..], hook, wantRows) == RowsVerdict(rows, hook, wantRows)
    {
      var (table, dct) := rows[i];
      var clauses, values := BuildWhere(dct);
      if hook.None? {
        return Raise(NotConfigured(DbSelectSlot));
      }
      var found := hook.value("SELECT * FROM " + table + " WHERE " + JoinWith(clauses, " AND "), values);
      assert rows[i..][1..] == rows[i + 1..];
      if wantRows && |found| == 0 {
        return Fail(RowsMissing(table));
      }
      if !wantRows && |found| > 0 {
        return Fail(RowsPresent(table));
      }
    }
    return Pass;
  }

  method CheckDb(has: Option<Arg>, lacks: Option<Arg>, hook: Option<DbSelect>) returns (r: Outcome)
    ensures r == DbVerdict(has, lacks, hook)
  {
    if has.Some? {
      if !has.value.Rows? {
        return Raise(BadArgument("expect_db_has"));
      }
      r := CheckRows(has.value.rows, hook, true);
      if r != Pass {
        return r;
      }
    }
    if lacks.Some? {
      if !lacks.value.Rows? {
        return Raise(BadArgument("expect_db_lacks"));
      }
      r := CheckRows(lacks.value.rows, hook, false);
      return r;
    }
    return Pass;
  }

  // ---------------------------------------------------------------------
  // What the verdict means

  lemma {:induction false} RowsIff(rows: seq<(string, seq<(string, Value)>)>, hook: Option<DbSelect>, wantRows: bool)
    ensures RowsVerdict(rows, hook, wantRows) == Pass <==> RowsHold(rows, hook, wantRows)
  {
    if rows != [] && hook.Some? {
      RowsIff(rows[1..], hook, wantRows);
      assert forall i :: 1 <= i < |rows| ==> rows[i] == rows[1..][i - 1];
    }
  }

  /**
   * `expect_db_has` passes iff every query returns a row, and
   * `expect_db_lacks` iff none does; the hook is needed only if some
   * pair is listed.
   */
  lemma DbIff(rs: seq<(string, seq<(string, Value)>)>, hook: Option<DbSelect>)
    ensures DbVerdict(Some(Rows(rs)), None, hook) == Pass <==>
            (rs != [] ==> hook.Some? && forall i :: 0 <= i < |rs| ==> |Selected(hook.value, rs[i])| > 0)
    ensures DbVerdict(None, Some(Rows(rs)), hook) == Pass <==>
            (rs != [] ==> hook.Some? && forall i :: 0 <= i < |rs| ==> |Selected(hook.value, rs[i])| == 0)
  {
    RowsIff(rs, hook, true);
    RowsIff(rs, hook, false);
  }

  /** Without a select hook, a non-empty `expect_db_has` raises the getter's assertion. */
  lemma DbHasNeedsHook(rs: seq<(string, seq<(string, Value)>)>, lacks: Option<Arg>)
    requires rs != []
    ensures DbVerdict(Some(Rows(rs)), lacks, None) == Raise(NotConfigured(DbSelectSlot))
  {
  }

  /** With a hook that returns a row for every query, `expect_db_has` passes, as in `tests/test_hooks.py`. */
  lemma AnyRowSatisfiesHas(rs: seq<(string, seq<(string, Value)>)>, select: DbSelect)
    requires forall q, ps :: |select(q, ps)| > 0
    ensures DbVerdict(Some(Rows(rs)), None, Some(select)) == Pass
  {
    DbIff(rs, Some(select));
  }

  predicate PartHolds(exp: Option<Arg>, hook: Option<DbSelect>, wantRows: bool) {
    match exp
    case None => true
    case Some(Rows(rs)) => RowsHold(rs, hook, wantRows)
    case Some(_) => false
  }

  /** Both database expectations hold. */
  predicate DbHold(has: Option<Arg>, lacks: Option<Arg>, hook: Option<DbSelect>) {
    PartHolds(has, hook, true) && PartHolds(lacks, hook, false)
  }

  lemma DbVerdictIff(has: Option<Arg>, lacks: Option<Arg>, hook: Option<DbSelect>)
    ensures DbVerdict(has, lacks, hook) == Pass <==> DbHold(has, lacks, hook)
  {
    if has.Some? && has.value.Rows? {
      RowsIff(has.value.rows, hook, true);
    }
    if lacks.Some? && lacks.value.Rows? {
      RowsIff(lacks.value.rows, hook, false);
    }
  }
}
