/**
 * The `**expects` keyword arguments of `run_view`, in the order given.
 * Each payload is tagged with the shape viewunit iterates it as.
 */
module Expectations {
  import opened Wrappers
  import opened PyValues

  /**
   * An expectation payload: a single value (`expect_tmpl`, `expect_redir`),
   * a dict (`expect_*_data`), a list of names (`expect_*_has`/`_lacks`),
   * a list of `(table, dict)` pairs (`expect_db_*`), a list of
   * `(category, pattern)` pairs (`expect_flashes_*`), or a payload the
   * model does not look into (`expect_json`, `expect_response`, ...).
   */
  datatype Arg =
    | Scalar(v: Value)
    | Table(entries: seq<(string, Value)>)
    | Names(names: seq<string>)
    | Rows(rows: seq<(string, seq<(string, Value)>)>)
    | Patterns(pairs: seq<(string, string)>)
    | Opaque

  /** `expects.get(name)` is `Find(ex, name)` and `expects.keys()` is `Keys(ex)`. */
  type Expects = seq<(string, Arg)>

  /** Arguments given under other names do not change what `name` yields. */
  lemma {:induction false} FindAppendOther(ex: Expects, extra: Expects, name: string)
    requires forall i :: 0 <= i < |extra| ==> extra[i].0 != name
    ensures Find(ex + extra, name) == Find(ex, name)
  {
    if ex == [] {
      assert ex + extra == extra;
    } else {
      assert (ex + extra)[1..] == ex[1..] + extra;
      FindAppendOther(ex[1..], extra, name);
    }
  }
}
