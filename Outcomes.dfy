/**
 * How a check ends. A nose assertion that fails becomes `Fail`, any
 * other exception viewunit lets escape becomes `Raise`.
 */
module Outcomes {
  import opened PyValues

  /** The three process-wide configuration slots. */
  datatype Slot = AppSlot | SessionUserSetterSlot | DbSelectSlot

  /** Exceptions other than failed expectations. */
  datatype Exception =
    | TypeError                         // a built-in operation refused its operand
    | NonExpectKeyword(key: string)     // a keyword argument without the `expect_` prefix
    | UnknownExpect(key: string)        // an `expect_` keyword outside the vocabulary
    | NotConfigured(slot: Slot)         // a config getter's `assert` on an unset slot
    | BadArgument(name: string)         // an expectation payload of the wrong shape

  /** Failed expectations, one constructor per assertion in viewunit. */
  datatype Failure =
    | MissingKey(where: string, key: string)
    | MissingAttr(where: string, key: string)
    | LengthMismatch(where: string, expectedList: seq<Value>, actual: Value)
    | Unequal(where: string, key: string, expected: Value, actual: Value)
    | ListUnequal(where: string, expected: Value, actual: Value)
    | PathNotFound(path: string, where: string, prefix: string)
    | UnexpectedKey(key: string, where: string)
    | TemplateNotCalled
    | TemplateMismatch(expected: Value, actual: Value)
    | RedirMismatch(expected: Value, actual: Value)
    | RowsMissing(table: string)
    | RowsPresent(table: string)
    | NoFlashes(count: nat)
    | FlashNotFound(category: string, pattern: string)
    | FlashFound(category: string, pattern: string)

  datatype Outcome = Pass | Fail(failure: Failure) | Raise(exception: Exception) {
    /** Run `next` only if this check passed: the first failure aborts. */
    function Then(next: Outcome): (r: Outcome)
      ensures r == Pass <==> this == Pass && next == Pass
      ensures !this.Pass? ==> r == this
      ensures this.Pass? ==> r == next
    {
      if Pass? then next else this
    }
  }
}
