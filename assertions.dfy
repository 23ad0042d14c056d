/** The argument guards every builtin runs before doing its work
    (builtin_functions/assertions.h). A guard either passes, and the builtin
    goes on with its argument list untouched, or fails: the argument list is
    deleted and the builtin returns a freshly built error value at once. */
module Assertions {

  import opened Printf
  import opened Values
  import opened Messages

  /** What a guard leaves its builtin with. `Continue` hands the argument
      list back, still owned by the builtin; `Return` carries only the error
      the builtin returns, the argument list having been deleted. So after a
      guard the builtin holds exactly one of the two, never both, never
      neither. */
  datatype Outcome = Continue(args: Value) | Return(err: Value)

  /** `lval_err`: an error value holding the rendered message. */
  function LvalErr(fmt: string, fargs: seq<Arg>): (e: Value)
    requires Format(fmt, fargs).Some?
  {
    Err(Format(fmt, fargs).value)
  }

  /** `LASSERT(args, cond, fmt, ...)`: nothing happens when `cond` holds;
      otherwise `args` is consumed and the builtin returns the error value
      built from `fmt` and its arguments. The format only has to render when
      it is used. */
  function LAssert(args: Value, cond: bool, fmt: string, fargs: seq<Arg>): (o: Outcome)
    requires !cond ==> Format(fmt, fargs).Some?
    ensures o.Continue? <==> cond
    ensures o.Continue? ==> o.args == args
    ensures o.Return? ==> o.err == Err(Format(fmt, fargs).value) && !o.err.IsList()
  {
    if cond then Continue(args) else Return(LvalErr(fmt, fargs))
  }

  /** `LASSERT_TYPE`: the child at `index` must carry the tag `expected`.
      The child is indexed without a bounds check, hence the requires. */
  function LAssertType(func: string, args: Value, index: int, expected: Tag): (o: Outcome)
    requires args.IsList() && 0 <= index < |args.cell|
    ensures o.Continue? <==> args.cell[index].TagOf() == expected
    ensures o.Continue? ==> o.args == args
    ensures o.Return? ==> o.err == Err(TypeMessage(func, index, args.cell[index].TagOf(), expected))
  {
    var actual := args.cell[index].TagOf();
    TypeTemplateRenders(func, index, actual, expected);
    LAssert(args, actual == expected, TypeTemplate, TypeArgs(func, index, actual, expected))
  }

  /** `LASSERT_NUM`: the argument list must hold exactly `num` children. */
  function LAssertNum(func: string, args: Value, num: int): (o: Outcome)
    requires args.IsList()
    ensures o.Continue? <==> |args.cell| == num
    ensures o.Continue? ==> o.args == args
    ensures o.Return? ==> o.err == Err(CountMessage(func, |args.cell|, num))
  {
    var count := |args.cell|;
    CountTemplateRenders(func, count, num);
    LAssert(args, count == num, CountTemplate, CountArgs(func, count, num))
  }

  /** `LASSERT_NOT_EMPTY`: the child at `index`, itself a list, must have a
      child. Neither the index nor the child's kind is checked first. */
  function LAssertNotEmpty(func: string, args: Value, index: int): (o: Outcome)
    requires args.IsList() && 0 <= index < |args.cell| && args.cell[index].IsList()
    ensures o.Continue? <==> |args.cell[index].cell| != 0
    ensures o.Continue? ==> o.args == args
    ensures o.Return? ==> o.err == Err(EmptyMessage(func, index))
  {
    EmptyTemplateRenders(func, index);
    LAssert(args, |args.cell[index].cell| != 0, EmptyTemplate, EmptyArgs(func, index))
  }

  // A builtin's prologue: the guards it expands, in order.

  datatype Guard = TypeIs(index: int, expected: Tag) | CountIs(num: int) | NotEmpty(index: int)

  /** The guard's expansion only reads what exists. */
  predicate Defined(args: Value, g: Guard)
    requires args.IsList()
  {
    match g
    case TypeIs(i, _) => 0 <= i < |args.cell|
    case CountIs(_) => true
    case NotEmpty(i) => 0 <= i < |args.cell| && args.cell[i].IsList()
  }

  /** The guard's condition. */
  predicate Holds(args: Value, g: Guard)
    requires args.IsList() && Defined(args, g)
  {
    match g
    case TypeIs(i, t) => args.cell[i].TagOf() == t
    case CountIs(n) => |args.cell| == n
    case NotEmpty(i) => |args.cell[i].cell| != 0
  }

  /** The diagnostic the guard reports when its condition fails. */
  function Diagnostic(func: string, args: Value, g: Guard): (m: string)
    requires args.IsList() && Defined(args, g)
  {
    match g
    case TypeIs(i, t) => TypeMessage(func, i, args.cell[i].TagOf(), t)
    case CountIs(n) => CountMessage(func, |args.cell|, n)
    case NotEmpty(i) => EmptyMessage(func, i)
  }

  predicate Passes(args: Value, g: Guard)
    requires args.IsList()
  {
    Defined(args, g) && Holds(args, g)
  }

  /** One guard, by kind. */
  function Check(func: string, args: Value, g: Guard): (o: Outcome)
    requires args.IsList() && Defined(args, g)
    ensures o.Continue? <==> Holds(args, g)
    ensures o.Continue? ==> o.args == args
    ensures o.Return? ==> o.err == Err(Diagnostic(func, args, g))
  {
    match g
    case TypeIs(i, t) => LAssertType(func, args, i, t)
    case CountIs(n) => LAssertNum(func, args, n)
    case NotEmpty(i) => LAssertNotEmpty(func, args, i)
  }

  /** Every guard reads only what exists, given that the guards before it
      passed: an earlier arity guard may be what keeps a later index in
      bounds. */
  predicate Safe(args: Value, gs: seq<Guard>)
    requires args.IsList()
    decreases |gs|
  {
    gs == [] || (Defined(args, gs[0]) && (Holds(args, gs[0]) ==> Safe(args, gs[1..])))
  }

  /** The guards run in order; the first failure ends the run with its
      error and no later guard runs. */
  function RunGuards(func: string, args: Value, gs: seq<Guard>): (o: Outcome)
    requires args.IsList() && Safe(args, gs)
    ensures o.Continue? <==> forall i :: 0 <= i < |gs| ==> Passes(args, gs[i])
    ensures o.Continue? ==> o.args == args
    ensures o.Return? ==> o.err.Err? && !o.err.IsList()
    decreases |gs|
  {
    if gs == [] then Continue(args)
    else
      match Check(func, args, gs[0])
      case Return(err) => Return(err)
      case Continue(rest) =>
        assert forall i :: 1 <= i < |gs| ==> gs[i] == gs[1..][i - 1];
        RunGuards(func, rest, gs[1..])
  }

  /** Fail-fast: when guards `0..k-1` pass and guard `k` fails, the run's
      result is guard `k`'s error, whatever the guards after it would say. */
  lemma {:induction false} FirstFailureDecides(func: string, args: Value, gs: seq<Guard>, k: int)
    requires args.IsList() && Safe(args, gs)
    requires 0 <= k < |gs|
    requires forall i :: 0 <= i < k ==> Passes(args, gs[i])
    ensures Defined(args, gs[k])
    ensures !Holds(args, gs[k]) ==> RunGuards(func, args, gs) == Return(Err(Diagnostic(func, args, gs[k])))
    decreases k
  {
    if k > 0 {
      assert Passes(args, gs[0]);
      assert forall i :: 0 <= i < k - 1 ==> gs[1..][i] == gs[i + 1];
      FirstFailureDecides(func, args, gs[1..], k - 1);
    }
  }

  /** Guards written one after another behave as the first group, then,
      only if all of it passed, the second. */
  lemma {:induction false} RunConcat(func: string, args: Value, gs: seq<Guard>, hs: seq<Guard>)
    requires args.IsList() && Safe(args, gs + hs)
    ensures Safe(args, gs)
    ensures RunGuards(func, args, gs).Continue? ==> Safe(args, hs)
    ensures RunGuards(func, args, gs + hs)
         == match RunGuards(func, args, gs)
            case Return(err) => Return(err)
            case Continue(rest) => RunGuards(func, rest, hs)
    decreases |gs|
  {
    if gs != [] {
      assert (gs + hs)[0] == gs[0];
      assert (gs + hs)[1..] == gs[1..] + hs;
      if Holds(args, gs[0]) {
        RunConcat(func, args, gs[1..], hs);
      }
    } else {
      assert gs + hs == hs;
    }
  }

  /** A builtin's prologue as it executes: each guard in turn, returning
      at the first failure. `ran` is the number of guards evaluated. */
  method Prologue(func: string, args: Value, gs: seq<Guard>) returns (o: Outcome, ran: nat)
    requires args.IsList() && Safe(args, gs)
    ensures o == RunGuards(func, args, gs)
    ensures ran <= |gs|
    ensures forall i :: 0 <= i < ran - 1 ==> Passes(args, gs[i])
    ensures o.Continue? ==> ran == |gs| && o.args == args
    ensures o.Return? ==> 1 <= ran && Defined(args, gs[ran - 1]) && !Holds(args, gs[ran - 1])
                          && o.err == Err(Diagnostic(func, args, gs[ran - 1]))
  {
    var i := 0;
    while i < |gs|
      invariant 0 <= i <= |gs|
      invariant Safe(args, gs[i..])
      invariant forall j :: 0 <= j < i ==> Passes(args, gs[j])
      invariant RunGuards(func, args, gs) == RunGuards(func, args, gs[i..])
    {
      var r := Check(func, args, gs[i]);
      if r.Return? {
        return r, i + 1;
      }
      assert gs[i..][1..] == gs[i + 1..];
      i := i + 1;
    }
    return Continue(args), i;
  }
}
