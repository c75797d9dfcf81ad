/**
 * The closed vocabulary of expectation keywords (`EXPECT_LIST`,
 * `EXPECT_DICT`), the check that `run_view` applies to its keyword
 * arguments before anything else (`_check_expect_names`), and the
 * user-facing short name of an expectation (`_show`).
 */
module Vocabulary {
  import opened PyValues
  import opened Outcomes

  const Prefix: string := "expect_"

  /** `EXPECT_LIST`, in the order written. */
  const ExpectList: seq<string> := [
    "tmpl", "tmpl_has", "tmpl_lacks", "tmpl_data",
    "site_data", "site_has", "site_lacks",
    "perms_has", "perms_lacks",
    "form_errors", "cookie_data", "header_data", "redir",
    "session_has", "session_lacks", "session_data",
    "db_has", "db_lacks", "flashes_has", "flashes_lacks",
    "json", "response", "well_formed"]

  /** The keys of `EXPECT_DICT`. */
  const ExpectDict: set<string> := set e | e in ExpectList :: Prefix + e

  /** `k` is `"expect_" + e` for some `e` of the vocabulary. */
  predicate IsExpectName(k: string) {
    exists e :: e in ExpectList && k == Prefix + e
  }

  /** The exception `_check_expect_names` raises for a rejected keyword. */
  function NameError(k: string): Outcome {
    if !StartsWith(k, Prefix) then Raise(NonExpectKeyword(k)) else Raise(UnknownExpect(k))
  }

  /** `names[i]` is the first keyword outside the vocabulary. */
  predicate FirstBad(names: seq<string>, i: int) {
    0 <= i < |names| && !IsExpectName(names[i]) &&
    forall j :: 0 <= j < i ==> IsExpectName(names[j])
  }

  /**
   * `_check_expect_names`: every keyword must start with `expect_` and
   * be in `EXPECT_DICT`; the first one that is not raises, with a
   * different exception for the two reasons.
   */
  function CheckExpectNames(names: seq<string>): Outcome {
    if names == [] then Pass
    else if !StartsWith(names[0], Prefix) then Raise(NonExpectKeyword(names[0]))
    else if names[0] !in ExpectDict then Raise(UnknownExpect(names[0]))
    else CheckExpectNames(names[1..])
  }

  /** The check passes iff every keyword is in the vocabulary, and otherwise reports the first one that is not. */
  lemma {:induction false} CheckExpectNamesIff(names: seq<string>)
    ensures CheckExpectNames(names) == Pass <==> forall i :: 0 <= i < |names| ==> IsExpectName(names[i])
    ensures CheckExpectNames(names) != Pass ==>
              exists i :: FirstBad(names, i) && CheckExpectNames(names) == NameError(names[i])
  {
    if names == [] {
    } else if !StartsWith(names[0], Prefix) {
      NonPrefixedNotExpect(names[0]);
      assert FirstBad(names, 0);
    } else if names[0] !in ExpectDict {
      ExpectDictMembers(names[0]);
      assert FirstBad(names, 0);
    } else {
      ExpectDictMembers(names[0]);
      var tail := names[1..];
      CheckExpectNamesIff(tail);
      assert forall i :: 1 <= i < |names| ==> names[i] == tail[i - 1];
      if CheckExpectNames(tail) != Pass {
        var i :| FirstBad(tail, i) && CheckExpectNames(tail) == NameError(tail[i]);
        assert FirstBad(names, i + 1);
      }
    }
  }

  lemma NonPrefixedNotExpect(k: string)
    requires !StartsWith(k, Prefix)
    ensures !IsExpectName(k)
  {
    forall e | e in ExpectList ensures k != Prefix + e {
      assert StartsWith(Prefix + e, Prefix);
    }
  }

  lemma ExpectDictMembers(k: string)
    ensures k in ExpectDict <==> IsExpectName(k)
  {
  }

  /** A keyword without the prefix and an unknown prefixed one raise different errors. */
  lemma NameErrorsDiffer()
    ensures CheckExpectNames(["user"]) == Raise(NonExpectKeyword("user"))
    ensures CheckExpectNames(["expect_bogus"]) == Raise(UnknownExpect("expect_bogus"))
  {
    assert !StartsWith("user", Prefix) by { assert "user"[0] != Prefix[0]; }
    assert StartsWith("expect_bogus", Prefix) by { assert "expect_bogus"[..7] == Prefix; }
    assert "expect_bogus" !in ExpectDict by {
      forall e | e in ExpectList ensures "expect_bogus" != Prefix + e {
        assert (Prefix + e)[7..] == e;
        assert "expect_bogus"[7..] == "bogus";
      }
    }
  }

  // ---------------------------------------------------------------------
  // _show

  /** `_show`: drop a trailing `_has`/`_lacks`, then the first seven characters. */
  function Show(name: string): string {
    var base :=
      if EndsWith(name, "_has") then name[..|name| - 4]
      else if EndsWith(name, "_lacks") then name[..|name| - 6]
      else name;
    DropPrefix(base, 7)
  }

  /** `e` with its category suffix `_has` or `_lacks` removed. */
  function Category(e: string): string {
    if EndsWith(e, "_has") then e[..|e| - 4]
    else if EndsWith(e, "_lacks") then e[..|e| - 6]
    else e
  }

  /** A suffix that starts with `_` never straddles the prefix, unless it is `_` + `e`. */
  lemma SuffixOfPrefixed(e: string, suf: string)
    requires 1 <= |suf| <= 7 && suf[0] == '_' && e != suf[1..]
    ensures EndsWith(Prefix + e, suf) <==> EndsWith(e, suf)
  {
    var name := Prefix + e;
    if |e| >= |suf| {
      assert name[|name| - |suf|..] == e[|e| - |suf|..];
    }
  }

  /**
   * `_show("expect_" + e)` is `e` without its `_has`/`_lacks` suffix,
   * for every `e` but the two bare suffix words, whose underscore the
   * prefix would supply.
   */
  lemma ShowPrefixed(e: string)
    requires e != "has" && e != "lacks"
    ensures Show(Prefix + e) == Category(e)
  {
    var name := Prefix + e;
    SuffixOfPrefixed(e, "_has");
    SuffixOfPrefixed(e, "_lacks");
    if EndsWith(e, "_has") {
      assert name[..|name| - 4] == Prefix + e[..|e| - 4];
    } else if EndsWith(e, "_lacks") {
      assert name[..|name| - 6] == Prefix + e[..|e| - 6];
    }
  }

  /** Every expectation's short name is its word without the category suffix. */
  lemma ShowVocabulary()
    ensures forall e :: e in ExpectList ==> Show(Prefix + e) == Category(e)
  {
    forall e | e in ExpectList ensures Show(Prefix + e) == Category(e) {
      ShowPrefixed(e);
    }
  }
}
