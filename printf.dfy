/** The part of printf-style formatting that the diagnostics use: `%s`
    substitutes a string and `%i` a decimal integer, every other character
    is copied. Extra arguments are ignored, as printf ignores them; a
    missing or mismatched argument, or any other directive, has no
    defined rendering (None). */
module Printf {

  import opened Wrappers
  import Decimal

  datatype Arg = Str(s: string) | Int(i: int)

  /** Prepends `p` to a rendering, keeping a failed one failed. */
  function Prefix(p: string, o: Option<string>): (r: Option<string>) {
    match o
    case None => None
    case Some(t) => Some(p + t)
  }

  function Format(fmt: string, args: seq<Arg>): (r: Option<string>)
    decreases |fmt|
  {
    if fmt == [] then Some("")
    else if fmt[0] != '%' then Prefix([fmt[0]], Format(fmt[1..], args))
    else if |fmt| < 2 || args == [] then None
    else if fmt[1] == 's' && args[0].Str? then Prefix(args[0].s, Format(fmt[2..], args[1..]))
    else if fmt[1] == 'i' && args[0].Int? then Prefix(Decimal.IntToString(args[0].i), Format(fmt[2..], args[1..]))
    else None
  }

  /** Text without directives is copied through and consumes no argument. */
  lemma {:induction false} FormatPlain(p: string, rest: string, args: seq<Arg>)
    requires '%' !in p
    ensures Format(p + rest, args) == Prefix(p, Format(rest, args))
    decreases |p|
  {
    if p != [] {
      assert (p + rest)[0] == p[0];
      assert (p + rest)[1..] == p[1..] + rest;
      FormatPlain(p[1..], rest, args);
      match Format(rest, args)
      case None =>
      case Some(t) => assert [p[0]] + (p[1..] + t) == p + t;
    } else {
      assert p + rest == rest;
      match Format(rest, args)
      case None =>
      case Some(t) => assert p + t == t;
    }
  }

  /** `%s` takes the next argument, which must be a string, verbatim. */
  lemma FormatString(s: string, rest: string, args: seq<Arg>)
    requires |args| >= 1 && args[0] == Str(s)
    ensures Format("%s" + rest, args) == Prefix(s, Format(rest, args[1..]))
  {
  }

  /** `%i` takes the next argument, which must be an integer, in decimal. */
  lemma FormatInt(i: int, rest: string, args: seq<Arg>)
    requires |args| >= 1 && args[0] == Int(i)
    ensures Format("%i" + rest, args) == Prefix(Decimal.IntToString(i), Format(rest, args[1..]))
  {
  }
}
