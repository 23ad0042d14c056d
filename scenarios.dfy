/** Worked calls of the guards, with the exact diagnostics they return. */
module Scenarios {

  import opened Values
  import opened Messages
  import opened Assertions

  // The expected diagnostics are written with the rendering functions of
  // Messages, which spell out each template's text around its arguments.

  /** `add` given one argument where it requires two: the diagnostic reports
      the count it got, 1, and the count it expected, 2. */
  lemma AddWithOneArgument()
    ensures LAssertNum("add", SExpr([Num(7)]), 2) == Return(Err(CountMessage("add", 1, 2)))
    ensures CountMessage("add", 1, 2)
         == "Function '" + ("add" + ("' passed incorect number of arguments. Got " + ("1"
              + (", expected " + ("2" + ".")))))
  {
  }

  /** `head` given an empty quoted list. */
  lemma HeadOfEmptyList()
    ensures LAssertNotEmpty("head", SExpr([QExpr([])]), 0) == Return(Err(EmptyMessage("head", 0)))
    ensures EmptyMessage("head", 0) == "Function '" + ("head" + ("' passed {} for argument " + ("0" + ".")))
  {
  }

  /** `join` given a number where its second argument should be a quoted list. */
  lemma JoinWithNumber()
    ensures LAssertType("join", SExpr([QExpr([]), Num(3)]), 1, QuotedList)
         == Return(Err(TypeMessage("join", 1, Number, QuotedList)))
    ensures TypeMessage("join", 1, Number, QuotedList)
         == "Function '" + ("join" + ("' passed incorrect type for argument " + ("1"
              + (". Got " + ("Number" + (", expected " + ("QuotedList" + ".")))))))
  {
  }

  /** The prologue `head` needs: one argument, a quoted list, not empty. The
      arity guard comes first, so the later guards' index 0 always exists. */
  const HeadGuards := [CountIs(1), TypeIs(0, QuotedList), NotEmpty(0)]

  lemma HeadGuardsSafe(args: Value)
    requires args.IsList()
    ensures Safe(args, HeadGuards)
  {
  }

  /** With no arguments at all, only the arity guard runs and its error is
      the result. */
  lemma HeadWithNoArguments()
    ensures RunGuards("head", SExpr([]), HeadGuards)
         == Return(Err(CountMessage("head", 0, 1)))
  {
  }
}
