# Argument guards of the leesp builtins

leesp is a small Lisp interpreter written in C. Every builtin receives its
arguments as one S-expression value (`lval`) and validates it with the
guard macros of `builtin_functions/assertions.h` before doing any work:

- `LASSERT(args, cond, fmt, ...)`: when `cond` fails, build an error value
  with `lval_err(fmt, ...)`, delete the argument list with `lval_del(args)`,
  and return the error from the builtin. When `cond` holds, nothing happens.
- `LASSERT_TYPE(func, args, index, expect)`: the child at `index` must carry
  the type tag `expect`.
- `LASSERT_NUM(func, args, num)`: the argument list must have exactly `num`
  children.
- `LASSERT_NOT_EMPTY(func, args, index)`: the child at `index` must have at
  least one child.

This project models those guards in Dafny and proves what they promise.

- `values.dfy` (`Values`): the value type. Its tags are Number, Symbol,
  Error, ExprList (S-expression) and QuotedList (Q-expression). It also
  holds `TypeName`, the display name of a tag.
- `decimal.dfy` (`Decimal`): `%i` rendering of integers, and its inverse
  parser.
- `printf.dfy` (`Printf`): the printf subset the guards use, which is `%s`
  and `%i`.
- `messages.dfy` (`Messages`): the three format strings exactly as the
  guards pass them, the text each renders to, and proofs that a diagnostic
  can be read back unambiguously.
- `assertions.dfy` (`Assertions`): the four guards, and a builtin's sequence
  of guards. The sequence is given both as a function (`RunGuards`) and as
  an executing method with early return (`Prologue`).
- `scenarios.dfy` (`Scenarios`): worked calls of the guards.

Ownership is modelled by the result type `Outcome = Continue(args) |
Return(err)`. When a guard passes, it hands the argument list back to the
builtin unchanged. When it fails, the list is consumed and the builtin gets
only the error value. No outcome carries both, and every guard yields one of
the two.

The diagnostics follow the code, not an idealised text. The arity message
spells "incorect", and the empty-list message reads "passed {} for argument
N." The model reproduces the code's strings, including "incorect" and
"passed {}".

## Model

| member | source | states |
|---|---|---|
| `Assertions.LAssert` | builtin_functions/assertions.h:1-6 | passes exactly when `cond` holds, and then returns the argument list unchanged; otherwise the arguments are consumed and the result is an error value whose message is `fmt` rendered with its arguments. The format must render only when `cond` fails |
| `Assertions.LAssertType` | builtin_functions/assertions.h:8-17 | needs `index` in bounds. Fails iff the child's tag differs from the expected one. The error reads `Function '<func>' passed incorrect type for argument <index>. Got <actual name>, expected <expected name>.` |
| `Assertions.LAssertNum` | builtin_functions/assertions.h:19-27 | fails iff the child count is not exactly `num`. The error reads `Function '<func>' passed incorect number of arguments. Got <count>, expected <num>.` |
| `Assertions.LAssertNotEmpty` | builtin_functions/assertions.h:29-36 | needs `index` in bounds and the child to be a list. Fails iff that child has no children. The error reads `Function '<func>' passed {} for argument <index>.` |
| `Assertions.Check` | builtin_functions/assertions.h:8-36 | any one guard passes iff its condition holds, and hands `args` back unchanged; on failure it returns the diagnostic for that guard's kind |
| `Assertions.RunGuards` | builtin_functions/assertions.h:1-6 | guards run in sequence. The builtin goes on iff every guard passes, and then it still holds the same argument list. Otherwise the result is an error value with no children |
| `Assertions.FirstFailureDecides` | builtin_functions/assertions.h:5 | fail-fast: if guards before `k` pass and guard `k` fails, the result is guard `k`'s error, whatever the later guards say. The guard at `k` is always in bounds by then |
| `Assertions.RunConcat` | builtin_functions/assertions.h:5 | guards written one after another act as the first group, then the second only if the whole first group passed. Safety of the whole splits into safety of each part |
| `Assertions.Prologue` | builtin_functions/assertions.h:1-6 | executing the guards with an early return equals `RunGuards`. When a guard fails, it is the last one evaluated, every guard before it passed, and no guard after it runs |
| `Messages.TypeTemplateRenders` | builtin_functions/assertions.h:12-16 | the type template, with the function name, index and both type names as arguments, renders to the type-mismatch text |
| `Messages.CountTemplateRenders` | builtin_functions/assertions.h:23-26 | the arity template, given the actual count and then `num`, renders to the arity text in that order |
| `Messages.EmptyTemplateRenders` | builtin_functions/assertions.h:33-35 | the empty-list template, with the function name and index, renders to the empty-list text |
| `Messages.TypeMessageDetermines` | builtin_functions/assertions.h:12-16 | two equal type-mismatch diagnostics have the same function, index, actual type and expected type, whatever characters the function names hold |
| `Messages.CountMessageDetermines` | builtin_functions/assertions.h:23-26 | two equal arity diagnostics have the same function, actual count and required count, whatever characters the function names hold |
| `Messages.EmptyMessageDetermines` | builtin_functions/assertions.h:33-35 | two equal empty-list diagnostics have the same function and index, whatever characters the function names hold |
| `Messages.TypeNotCount` | builtin_functions/assertions.h:12-23 | a type-mismatch diagnostic is never an arity diagnostic, for any function names |
| `Messages.TypeNotEmpty` | builtin_functions/assertions.h:12-33 | a type-mismatch diagnostic is never an empty-list diagnostic, for any function names |
| `Messages.CountNotEmpty` | builtin_functions/assertions.h:23-33 | an arity diagnostic is never an empty-list diagnostic, for any function names |
| `Printf.FormatPlain` | builtin_functions/assertions.h:12 | format text without directives is copied through and uses no argument |
| `Decimal.NatToString` | builtin_functions/assertions.h:25 | the decimal digits of a count are non-empty, are all digits, and have no leading zero |
| `Decimal.IntToStringRoundTrip` | builtin_functions/assertions.h:25-26 | every integer printed with `%i` parses back to itself |
| `Decimal.IntToStringInjective` | builtin_functions/assertions.h:25-26 | distinct integers print differently, so the reported counts are never confused |
| `Decimal.IntToStringShape` | builtin_functions/assertions.h:14 | a rendering is non-empty and starts with '-' exactly for negative numbers. All its other characters are digits |
| `Values.TypeName` | builtin_functions/assertions.h:15-16 | every tag has a non-empty display name |
| `Values.TypeNameShape` | builtin_functions/assertions.h:15-16 | no two tags share a display name, and each name is one word (no space) ending in a letter |
| `Scenarios.AddWithOneArgument` | builtin_functions/assertions.h:19-27 | `add` called with one argument where two are required fails with `... Got 1, expected 2.` |
| `Scenarios.HeadOfEmptyList` | builtin_functions/assertions.h:29-36 | `head` given an empty quoted list fails with `... passed {} for argument 0.` |
| `Scenarios.JoinWithNumber` | builtin_functions/assertions.h:8-17 | `join` given a Number where a QuotedList is expected fails with `... Got Number, expected QuotedList.` |
| `Scenarios.HeadGuardsSafe` | builtin_functions/assertions.h:11-32 | with the arity guard first, a later type guard and non-empty guard at index 0 are always in bounds |
| `Scenarios.HeadWithNoArguments` | builtin_functions/assertions.h:19-27 | with no arguments, only the arity guard of that sequence matters, and its error is the result |

## Left out

- Deleting the argument list (`lval_del`) is not part of this model. Deletion is modelled as consumption: a failed guard returns only the error, so the caller no longer holds `args`. The model does not free memory.
- The body of `lval_err` is not part of this model. The error's message is the template rendered by `Printf.Format`. Any truncation to a fixed buffer size that the C helper might perform is not modelled.
- The body of `ltype_name` is not part of this model. `Values.TypeName` uses the display names Number, Symbol, Error, ExprList and QuotedList. The general lemmas rely only on these facts about them: they are distinct and non-empty, contain no space, and end in a letter. `Scenarios.JoinWithNumber` spells out the names Number and QuotedList, so it depends on these particular names.
- The definition of `lval` is not part of this model. The tag set is the five kinds the guards deal with. Any further tag the full interpreter may have is not modelled.
- Number payloads are Dafny `int`. No arithmetic and no floating point are modelled.
- The index, count and `num` arguments are C `int`. They are modelled unbounded, because none of them is computed on here.
- printf is modelled only for `%s` and `%i`, the two conversions the guards use. A missing or mismatched argument, or any other directive, renders as None.
- Assertions.LAssertNum: requires the argument value to be a list. For other values the C `count` field does not hold a child count, and builtins only apply this guard to their argument list.
- Assertions.LAssertType: requires the argument value to be a list and `index` to be in bounds. The C code indexes `cell` without checking.
- Assertions.LAssertNotEmpty: requires `index` to be in bounds and the child at `index` to be a list. The C code checks neither. For a non-list child, `count` is not a child count, and an out-of-range index reads outside `cell`.
- The C preprocessor is not modelled. Each macro is an ordinary function. In C, the error message's arguments are evaluated only on failure. In the model they are pure values, so evaluating them either way gives the same result.
- The model does not cover a builtin's own logic after its guards, or the evaluator that propagates error values. Both are outside this file.
- Assertions.Prologue: a builtin writes its guards as straight-line statements. The method runs an arbitrary list of them in a loop with the same early return.
- Scenarios.AddWithOneArgument, Scenarios.HeadOfEmptyList and Scenarios.JoinWithNumber: each expected diagnostic is written as the rendered message with its literal pieces concatenated, not as one string literal. Comparing one long string literal is beyond what the solver does cheaply.
