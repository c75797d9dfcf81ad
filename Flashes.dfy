/**
 * `_check_flashes_expects` over the `(category, message)` pairs the
 * view flashed. Regular-expression search is a parameter.
 */
module Flashes {
  import opened Wrappers
  import opened Outcomes
  import opened Expectations

  /** `re.search(pattern, message)` finds a match. */
  type Search = (string, string) -> bool

  /** Some flash has the category and a message the pattern matches. */
  predicate Matched(category: string, pattern: string, flashes: seq<(string, string)>, search: Search) {
    exists j :: 0 <= j < |flashes| && flashes[j].0 == category && search(pattern, flashes[j].1)
  }

  /** The first expected pair no flash matches fails. */
  function FirstUnmatched(pairs: seq<(string, string)>, flashes: seq<(string, string)>, search: Search): Outcome {
    if pairs == [] then Pass
    else if !Matched(pairs[0].0, pairs[0].1, flashes, search) then Fail(FlashNotFound(pairs[0].0, pairs[0].1))
    else FirstUnmatched(pairs[1..], flashes, search)
  }

  /**
   * The verdict as written. `expect_flashes_has` fails outright when
   * nothing was flashed, even for an empty list of pairs. The
   * `expect_flashes_lacks` loop only ever sets `has_match` to False,
   * so it never fails.
   */
  function FlashesVerdict(has: Option<Arg>, lacks: Option<Arg>, flashes: seq<(string, string)>, search: Search): Outcome {
    var hasPart :=
      match has
      case None => Pass
      case Some(Patterns(ps)) => if flashes == [] then Fail(NoFlashes(|ps|)) else FirstUnmatched(ps, flashes, search)
      case Some(_) => Raise(BadArgument("expect_flashes_has"));
    var lacksPart :=
      match lacks
      case None => Pass
      case Some(Patterns(_)) => Pass
      case Some(_) => if flashes == [] then Pass else Raise(BadArgument("expect_flashes_lacks"));
    hasPart.Then(lacksPart)
  }

  method CheckFlashes(has: Option<Arg>, lacks: Option<Arg>, flashes: seq<(string, string)>, search: Search) returns (r: Outcome)
    ensures r == FlashesVerdict(has, lacks, flashes, search)
  {
    if has.Some? {
      if !has.value.Patterns? {
        return Raise(BadArgument("expect_flashes_has"));
      }
      var pairs := has.value.pairs;
      if flashes == [] {
        return Fail(NoFlashes(|pairs|));
      }
      for i := 0 to |pairs|
        invariant FirstUnmatched(pairs[i..], flashes, search) == FirstUnmatched(pairs, flashes, search)
      {
        var (category, pattern) := pairs[i];
        var hasMatch := false;
        for j := 0 to |flashes|
          invariant hasMatch <==> Matched(category, pattern, flashes[..j], search)
        {
          assert flashes[..j + 1][j] == flashes[j];
          assert forall m :: 0 <= m < j ==> flashes[..j + 1][m] == flashes[..j][m];
          if flashes[j].0 == category && search(pattern, flashes[j].1) {
            hasMatch := true;
          }
        }
        assert flashes[..|flashes|] == flashes;
        assert pairs[i..][1..] == pairs[i + 1..];
        if !hasMatch {
          return Fail(FlashNotFound(category, pattern));
        }
      }
    }
    if lacks.Some? && flashes != [] {
      if !lacks.value.Patterns? {
        return Raise(BadArgument("expect_flashes_lacks"));
      }
      var pairs := lacks.value.pairs;
      for i := 0 to |pairs| {
        var (category, pattern) := pairs[i];
        var hasMatch := false;
        for j := 0 to |flashes|
          invariant !hasMatch
        {
          if flashes[j].0 == category && search(pattern, flashes[j].1) {
            hasMatch := false;
          }
        }
        if hasMatch {
          return Fail(FlashFound(category, pattern));
        }
      }
    }
    return Pass;
  }

  lemma {:induction false} FirstUnmatchedIff(pairs: seq<(string, string)>, flashes: seq<(string, string)>, search: Search)
    ensures FirstUnmatched(pairs, flashes, search) == Pass <==>
            forall i :: 0 <= i < |pairs| ==> Matched(pairs[i].0, pairs[i].1, flashes, search)
  {
    if pairs != [] {
      FirstUnmatchedIff(pairs[1..], flashes, search);
      assert forall i :: 1 <= i < |pairs| ==> pairs[i] == pairs[1..][i - 1];
    }
  }

  /**
   * `expect_flashes_has` passes iff something was flashed and every
   * expected pair is matched by a flash of the same category.
   */
  lemma FlashesHasIff(ps: seq<(string, string)>, flashes: seq<(string, string)>, search: Search)
    ensures FlashesVerdict(Some(Patterns(ps)), None, flashes, search) == Pass <==>
            flashes != [] && forall i :: 0 <= i < |ps| ==> Matched(ps[i].0, ps[i].1, flashes, search)
    ensures flashes == [] ==> FlashesVerdict(Some(Patterns(ps)), None, flashes, search) == Fail(NoFlashes(|ps|))
  {
    FirstUnmatchedIff(ps, flashes, search);
  }

  /** As written, `expect_flashes_lacks` changes nothing, even when a flash matches. */
  lemma FlashesLacksNeverFails(has: Option<Arg>, ps: seq<(string, string)>, flashes: seq<(string, string)>, search: Search)
    ensures FlashesVerdict(has, Some(Patterns(ps)), flashes, search) == FlashesVerdict(has, None, flashes, search)
    ensures FlashesVerdict(None, Some(Patterns(ps)), flashes, search) == Pass
  {
  }

  /**
   * Both flash expectations hold, as written: `has` needs a flash
   * matching every pair; `lacks` only needs a well-shaped payload.
   */
  predicate FlashesHold(has: Option<Arg>, lacks: Option<Arg>, flashes: seq<(string, string)>, search: Search) {
    (match has
     case None => true
     case Some(Patterns(ps)) => flashes != [] && forall i :: 0 <= i < |ps| ==> Matched(ps[i].0, ps[i].1, flashes, search)
     case Some(_) => false) &&
    (match lacks
     case None => true
     case Some(Patterns(_)) => true
     case Some(_) => flashes == [])
  }

  lemma FlashesVerdictIff(has: Option<Arg>, lacks: Option<Arg>, flashes: seq<(string, string)>, search: Search)
    ensures FlashesVerdict(has, lacks, flashes, search) == Pass <==> FlashesHold(has, lacks, flashes, search)
  {
    if has.Some? && has.value.Patterns? {
      FirstUnmatchedIff(has.value.pairs, flashes, search);
    }
  }
}
