/** The interpreter's runtime value (`lval`) as far as argument checking
    needs it: its type tag, and the children of the two list forms. */
module Values {

  /** The type tags a value can carry. */
  datatype Tag = Number | Symbol | Error | ExprList | QuotedList

  /** A value. A list owns its children; `|cell|` is the C `count` field.
      An error holds only its message: it has no children. */
  datatype Value =
    | Num(n: int)
    | Sym(name: string)
    | Err(msg: string)
    | SExpr(cell: seq<Value>)
    | QExpr(cell: seq<Value>)
  {
    /** The `type` field. */
    function TagOf(): Tag {
      match this
      case Num(_) => Number
      case Sym(_) => Symbol
      case Err(_) => Error
      case SExpr(_) => ExprList
      case QExpr(_) => QuotedList
    }

    /** The values whose `count` and `cell` fields are meaningful. */
    predicate IsList() {
      SExpr? || QExpr?
    }
  }

  /** The display name of a tag, used in diagnostics (`ltype_name`). */
  function TypeName(t: Tag): (s: string)
    ensures |s| > 0
  {
    match t
    case Number => "Number"
    case Symbol => "Symbol"
    case Error => "Error"
    case ExprList => "ExprList"
    case QuotedList => "QuotedList"
  }

  /** A display name is one word ending in a letter, so the diagnostics
      can be read back around it, and no two tags share a name. */
  lemma TypeNameShape(t: Tag, u: Tag)
    ensures ' ' !in TypeName(t)
    ensures var s := TypeName(t); 'a' <= s[|s| - 1] <= 'z' || 'A' <= s[|s| - 1] <= 'Z'
    ensures TypeName(t) == TypeName(u) ==> t == u
  {
  }
}
