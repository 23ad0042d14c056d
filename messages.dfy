/** The three diagnostics the argument guards produce: the printf templates
    exactly as the guards pass them, the text each renders to, and the facts
    that make the diagnostics readable back (the kind of failure, the
    function, and the numbers and type names they embed). */
module Messages {

  import opened Wrappers
  import opened Decimal
  import opened Printf
  import opened Values

  // Each template is the guard's format string, cut at its directives
  // (the pieces nest to the right, as the formatter reads them).

  const TypeTemplate := "Function '" + ("%s" + ("' passed incorrect type for argument " + ("%i"
    + (". Got " + ("%s" + (", expected " + ("%s" + ".")))))))

  /** The spelling "incorect" is the guard's own. */
  const CountTemplate := "Function '" + ("%s" + ("' passed incorect number of arguments. Got " + ("%i"
    + (", expected " + ("%i" + ".")))))

  /** The guard reports an empty list as "{}". */
  const EmptyTemplate := "Function '" + ("%s" + ("' passed {} for argument " + ("%i" + ".")))

  function TypeArgs(func: string, index: int, actual: Tag, expected: Tag): (r: seq<Arg>) {
    [Str(func), Int(index), Str(TypeName(actual)), Str(TypeName(expected))]
  }

  function CountArgs(func: string, count: int, num: int): (r: seq<Arg>) {
    [Str(func), Int(count), Int(num)]
  }

  function EmptyArgs(func: string, index: int): (r: seq<Arg>) {
    [Str(func), Int(index)]
  }

  // The rendered diagnostics. The concatenations nest to the right, the
  // order in which a reader (and the formatter) takes the text apart.

  /** Rendered type-mismatch diagnostic. */
  function TypeMessage(func: string, index: int, actual: Tag, expected: Tag): (m: string) {
    "Function '" + (func + ("' passed incorrect type for argument " + (IntToString(index)
      + (". Got " + (TypeName(actual) + (", expected " + (TypeName(expected) + ".")))))))
  }

  /** Rendered arity diagnostic: the actual count first, then the required one. */
  function CountMessage(func: string, count: int, num: int): (m: string) {
    "Function '" + (func + ("' passed incorect number of arguments. Got " + (IntToString(count)
      + (", expected " + (IntToString(num) + ".")))))
  }

  /** Rendered empty-list diagnostic. */
  function EmptyMessage(func: string, index: int): (m: string) {
    "Function '" + (func + ("' passed {} for argument " + (IntToString(index) + ".")))
  }

  // The literal text between the directives holds no directive.

  lemma TypeTextIsPlain()
    ensures '%' !in "' passed incorrect type for argument "
  {
  }

  lemma CountTextIsPlain()
    ensures '%' !in "' passed incorect number of arguments. Got "
  {
  }

  lemma ShortTextIsPlain()
    ensures '%' !in "Function '" && '%' !in ". Got " && '%' !in ", expected "
    ensures '%' !in "' passed {} for argument "
  {
  }

  /** Renders the tail of a template: literal text, one directive whose
      argument is `arg`, then the already rendered `rest`. */
  lemma RenderStep(lit: string, d: char, arg: Arg, tail: string, args: seq<Arg>, text: string, rest: string)
    requires '%' !in lit
    requires (d == 's' && arg.Str? && text == arg.s) || (d == 'i' && arg.Int? && text == IntToString(arg.i))
    requires |args| >= 1 && args[0] == arg
    requires Format(tail, args[1..]) == Some(rest)
    ensures Format(lit + (['%', d] + tail), args) == Some(lit + (text + rest))
  {
    if d == 's' {
      assert ['%', d] == "%s";
      FormatString(text, tail, args);
    } else {
      assert ['%', d] == "%i";
      FormatInt(arg.i, tail, args);
    }
    FormatPlain(lit, ['%', d] + tail, args);
  }

  lemma FormatPeriod(args: seq<Arg>)
    ensures Format(".", args) == Some(".")
  {
    assert "."[1..] == [];
    assert ['.'] + "" == ".";
  }

  /** The type template after its index: both type names. */
  lemma TypeTemplateTail(args: seq<Arg>, actual: Tag, expected: Tag)
    requires |args| == 2 && args[0] == Str(TypeName(actual)) && args[1] == Str(TypeName(expected))
    ensures Format(". Got " + ("%s" + (", expected " + ("%s" + "."))), args)
         == Some(". Got " + (TypeName(actual) + (", expected " + (TypeName(expected) + "."))))
  {
    ShortTextIsPlain();
    var a, e := TypeName(actual), TypeName(expected);
    assert args[1..][1..] == [];
    FormatPeriod(args[1..][1..]);
    RenderStep(", expected ", 's', Str(e), ".", args[1..], e, ".");
    RenderStep(". Got ", 's', Str(a), ", expected " + ("%s" + "."), args, a, ", expected " + (e + "."));
  }

  /** The type template after the function name. */
  lemma TypeTemplateMiddle(args: seq<Arg>, index: int, actual: Tag, expected: Tag)
    requires |args| == 3 && args[0] == Int(index)
    requires args[1] == Str(TypeName(actual)) && args[2] == Str(TypeName(expected))
    ensures Format("' passed incorrect type for argument " + ("%i" + (". Got " + ("%s" + (", expected " + ("%s" + "."))))), args)
         == Some("' passed incorrect type for argument " + (IntToString(index)
              + (". Got " + (TypeName(actual) + (", expected " + (TypeName(expected) + "."))))))
  {
    TypeTemplateTail(args[1..], actual, expected);
    TypeTextIsPlain();
    RenderStep("' passed incorrect type for argument ", 'i', Int(index),
               ". Got " + ("%s" + (", expected " + ("%s" + "."))), args, IntToString(index),
               ". Got " + (TypeName(actual) + (", expected " + (TypeName(expected) + "."))));
  }

  /** The type-mismatch template renders to TypeMessage. */
  lemma TypeTemplateRenders(func: string, index: int, actual: Tag, expected: Tag)
    ensures Format(TypeTemplate, TypeArgs(func, index, actual, expected))
         == Some(TypeMessage(func, index, actual, expected))
  {
    ShortTextIsPlain();
    var args := TypeArgs(func, index, actual, expected);
    TypeTemplateMiddle(args[1..], index, actual, expected);
    RenderStep("Function '", 's', Str(func),
               "' passed incorrect type for argument " + ("%i" + (". Got " + ("%s" + (", expected " + ("%s" + "."))))),
               args, func,
               "' passed incorrect type for argument " + (IntToString(index)
                 + (". Got " + (TypeName(actual) + (", expected " + (TypeName(expected) + "."))))));
  }

  /** The arity template after the actual count: the required count. */
  lemma CountTemplateTail(args: seq<Arg>, num: int)
    requires |args| == 1 && args[0] == Int(num)
    ensures Format(", expected " + ("%i" + "."), args) == Some(", expected " + (IntToString(num) + "."))
  {
    ShortTextIsPlain();
    assert args[1..] == [];
    FormatPeriod(args[1..]);
    RenderStep(", expected ", 'i', Int(num), ".", args, IntToString(num), ".");
  }

  /** The arity template after the function name: both counts. */
  lemma CountTemplateMiddle(args: seq<Arg>, count: int, num: int)
    requires |args| == 2 && args[0] == Int(count) && args[1] == Int(num)
    ensures Format("' passed incorect number of arguments. Got " + ("%i" + (", expected " + ("%i" + "."))), args)
         == Some("' passed incorect number of arguments. Got " + (IntToString(count)
              + (", expected " + (IntToString(num) + "."))))
  {
    CountTemplateTail(args[1..], num);
    CountTextIsPlain();
    RenderStep("' passed incorect number of arguments. Got ", 'i', Int(count), ", expected " + ("%i" + "."),
               args, IntToString(count), ", expected " + (IntToString(num) + "."));
  }

  /** The arity template renders to CountMessage. */
  lemma CountTemplateRenders(func: string, count: int, num: int)
    ensures Format(CountTemplate, CountArgs(func, count, num)) == Some(CountMessage(func, count, num))
  {
    ShortTextIsPlain();
    var args := CountArgs(func, count, num);
    CountTemplateMiddle(args[1..], count, num);
    RenderStep("Function '", 's', Str(func),
               "' passed incorect number of arguments. Got " + ("%i" + (", expected " + ("%i" + "."))),
               args, func,
               "' passed incorect number of arguments. Got " + (IntToString(count)
                 + (", expected " + (IntToString(num) + "."))));
  }

  /** The empty-list template renders to EmptyMessage. */
  lemma EmptyTemplateRenders(func: string, index: int)
    ensures Format(EmptyTemplate, EmptyArgs(func, index)) == Some(EmptyMessage(func, index))
  {
    ShortTextIsPlain();
    var args := EmptyArgs(func, index);
    var i := IntToString(index);
    var r1 := "' passed {} for argument " + ("%i" + ".");
    assert EmptyTemplate == "Function '" + ("%s" + r1);
    assert args[1..][1..] == [];
    FormatPlain(".", "", []);
    assert "." + "" == ".";
    FormatInt(index, ".", args[1..]);
    FormatPlain("' passed {} for argument ", "%i" + ".", args[1..]);
    FormatString(func, r1, args);
    FormatPlain("Function '", "%s" + r1, args);
    assert EmptyMessage(func, index) == "Function '" + (func + ("' passed {} for argument " + (i + ".")));
  }

  // Reading a diagnostic back. Each diagnostic ends in a fixed sequence of
  // words, numbers and type names, none of which holds a space, each after
  // a space of the template; reading them off from the end leaves the
  // function name, whatever characters it holds.

  lemma CancelPrefix(p: string, x: string, y: string)
    requires p + x == p + y
    ensures x == y
  {
    assert x == (p + x)[|p|..];
    assert y == (p + y)[|p|..];
  }

  lemma CancelSuffix(x: string, y: string, s: string)
    requires x + s == y + s
    ensures x == y
  {
    assert x == (x + s)[..|x|];
    assert y == (y + s)[..|y|];
  }

  /** Two ways of writing the same text, each a part ending in a space
      followed by a word without one, are the same split. */
  lemma SplitAtLastSpace(a: string, x: string, b: string, y: string)
    requires |a| > 0 && a[|a| - 1] == ' ' && |b| > 0 && b[|b| - 1] == ' '
    requires ' ' !in x && ' ' !in y
    requires a + x == b + y
    ensures a == b && x == y
  {
    // At the longer prefix's last position both sides hold a space.
    var k := if |a| < |b| then |b| - 1 else |a| - 1;
    assert (a + x)[k] == (b + y)[k];
    assert |a| == |b|;
    assert a == (a + x)[..|a|];
    assert b == (b + y)[..|b|];
    CancelPrefix(a, x, y);
  }

  /** A word after a space, then a common tail: the word and what comes
      before it are read back. */
  lemma WordBefore(p: string, w: string, q: string, p': string, w': string)
    requires EndsInSpace(p) && EndsInSpace(p')
    requires ' ' !in w && ' ' !in w'
    requires p + (w + q) == p' + (w' + q)
    ensures p == p' && w == w'
  {
    assert p + (w + q) == (p + w) + q;
    assert p' + (w' + q) == (p' + w') + q;
    CancelSuffix(p + w, p' + w', q);
    SplitAtLastSpace(p, w, p', w');
  }

  predicate EndsInSpace(s: string) {
    |s| > 0 && s[|s| - 1] == ' '
  }

  lemma EndsInSpaceAfter(x: string, y: string)
    requires EndsInSpace(y)
    ensures EndsInSpace(x + y)
  {
    assert (x + y)[|x + y| - 1] == y[|y| - 1];
  }

  // The template text before each argument ends in a space.

  lemma TypeTextEndsInSpace()
    ensures EndsInSpace("' passed incorrect type for argument ")
  {
  }

  lemma CountTextEndsInSpace()
    ensures EndsInSpace("' passed incorect number of arguments. Got ")
  {
  }

  lemma ShortTextEndsInSpace()
    ensures EndsInSpace(". Got ") && EndsInSpace(", expected ") && EndsInSpace("' passed {} for argument ")
  {
  }

  /** A rendered integer is one word ending in a digit. */
  lemma IntToStringWord(i: int)
    ensures ' ' !in IntToString(i)
    ensures IsDigit(IntToString(i)[|IntToString(i)| - 1])
  {
    IntToStringShape(i);
    var s := IntToString(i);
    if |s| == 1 {
      assert s[0] != '-';
    }
  }

  /** Reading back the shape of the type-mismatch diagnostic, the text
      pieces `h`, `t`, `g`, `x` and `d` being fixed: a name, then a word
      after each of `t`, `g` and `x`. */
  lemma ReadTypeShape(h: string, t: string, g: string, x: string, d: string,
                      f: string, i: string, a: string, e: string,
                      f': string, i': string, a': string, e': string)
    requires EndsInSpace(t) && EndsInSpace(g) && EndsInSpace(x)
    requires ' ' !in i && ' ' !in i' && ' ' !in a && ' ' !in a' && ' ' !in e && ' ' !in e'
    requires h + (f + (t + (i + (g + (a + (x + (e + d)))))))
          == h + (f' + (t + (i' + (g + (a' + (x + (e' + d)))))))
    ensures f == f' && i == i' && a == a' && e == e'
  {
    CancelPrefix(h, f + (t + (i + (g + (a + (x + (e + d)))))), f' + (t + (i' + (g + (a' + (x + (e' + d)))))));
    var p, p' := f + (t + (i + (g + (a + x)))), f' + (t + (i' + (g + (a' + x))));
    assert f + (t + (i + (g + (a + (x + (e + d)))))) == p + (e + d);
    assert f' + (t + (i' + (g + (a' + (x + (e' + d)))))) == p' + (e' + d);
    EndsInSpaceAfter(f + (t + (i + (g + a))), x);
    EndsInSpaceAfter(f' + (t + (i' + (g + a'))), x);
    assert p == (f + (t + (i + (g + a)))) + x;
    assert p' == (f' + (t + (i' + (g + a')))) + x;
    WordBefore(p, e, d, p', e');
    var q, q' := f + (t + (i + g)), f' + (t + (i' + g));
    assert p == q + (a + x) && p' == q' + (a' + x);
    EndsInSpaceAfter(f + (t + i), g);
    EndsInSpaceAfter(f' + (t + i'), g);
    assert q == (f + (t + i)) + g && q' == (f' + (t + i')) + g;
    WordBefore(q, a, x, q', a');
    assert q == (f + t) + (i + g) && q' == (f' + t) + (i' + g);
    EndsInSpaceAfter(f, t);
    EndsInSpaceAfter(f', t);
    WordBefore(f + t, i, g, f' + t, i');
    CancelSuffix(f, f', t);
  }

  /** Reading back the shape of the arity diagnostic: a name, then a word
      after each of `t` and `x`. */
  lemma ReadCountShape(h: string, t: string, x: string, d: string,
                       f: string, c: string, n: string, f': string, c': string, n': string)
    requires EndsInSpace(t) && EndsInSpace(x)
    requires ' ' !in c && ' ' !in c' && ' ' !in n && ' ' !in n'
    requires h + (f + (t + (c + (x + (n + d))))) == h + (f' + (t + (c' + (x + (n' + d)))))
    ensures f == f' && c == c' && n == n'
  {
    CancelPrefix(h, f + (t + (c + (x + (n + d)))), f' + (t + (c' + (x + (n' + d)))));
    var p, p' := f + (t + (c + x)), f' + (t + (c' + x));
    assert f + (t + (c + (x + (n + d)))) == p + (n + d);
    assert f' + (t + (c' + (x + (n' + d)))) == p' + (n' + d);
    EndsInSpaceAfter(f + (t + c), x);
    EndsInSpaceAfter(f' + (t + c'), x);
    assert p == (f + (t + c)) + x && p' == (f' + (t + c')) + x;
    WordBefore(p, n, d, p', n');
    assert p == (f + t) + (c + x) && p' == (f' + t) + (c' + x);
    EndsInSpaceAfter(f, t);
    EndsInSpaceAfter(f', t);
    WordBefore(f + t, c, x, f' + t, c');
    CancelSuffix(f, f', t);
  }

  /** Reading back the shape of the empty-list diagnostic: a name, then a
      word after `t`. */
  lemma ReadEmptyShape(h: string, t: string, d: string, f: string, i: string, f': string, i': string)
    requires EndsInSpace(t)
    requires ' ' !in i && ' ' !in i'
    requires h + (f + (t + (i + d))) == h + (f' + (t + (i' + d)))
    ensures f == f' && i == i'
  {
    CancelPrefix(h, f + (t + (i + d)), f' + (t + (i' + d)));
    assert f + (t + (i + d)) == (f + t) + (i + d);
    assert f' + (t + (i' + d)) == (f' + t) + (i' + d);
    EndsInSpaceAfter(f, t);
    EndsInSpaceAfter(f', t);
    WordBefore(f + t, i, d, f' + t, i');
    CancelSuffix(f, f', t);
  }

  /** A type-mismatch diagnostic names its function, index and both types
      unambiguously, whatever characters the function name holds. */
  lemma TypeMessageDetermines(f: string, i: int, a: Tag, e: Tag, f': string, i': int, a': Tag, e': Tag)
    requires TypeMessage(f, i, a, e) == TypeMessage(f', i', a', e')
    ensures f == f' && i == i' && a == a' && e == e'
  {
    TypeTextEndsInSpace();
    ShortTextEndsInSpace();
    TypeNameShape(a, a');
    TypeNameShape(e, e');
    TypeNameShape(a', a);
    TypeNameShape(e', e);
    IntToStringWord(i);
    IntToStringWord(i');
    ReadTypeShape("Function '", "' passed incorrect type for argument ", ". Got ", ", expected ", ".",
                  f, IntToString(i), TypeName(a), TypeName(e), f', IntToString(i'), TypeName(a'), TypeName(e'));
    IntToStringInjective(i, i');
  }

  /** An arity diagnostic gives back its function, the count it saw and the
      count it required, in that order. */
  lemma CountMessageDetermines(f: string, c: int, n: int, f': string, c': int, n': int)
    requires CountMessage(f, c, n) == CountMessage(f', c', n')
    ensures f == f' && c == c' && n == n'
  {
    CountTextEndsInSpace();
    ShortTextEndsInSpace();
    IntToStringWord(c);
    IntToStringWord(c');
    IntToStringWord(n);
    IntToStringWord(n');
    ReadCountShape("Function '", "' passed incorect number of arguments. Got ", ", expected ", ".",
                   f, IntToString(c), IntToString(n), f', IntToString(c'), IntToString(n'));
    IntToStringInjective(c, c');
    IntToStringInjective(n, n');
  }

  /** An empty-list diagnostic gives back its function and index. */
  lemma EmptyMessageDetermines(f: string, i: int, f': string, i': int)
    requires EmptyMessage(f, i) == EmptyMessage(f', i')
    ensures f == f' && i == i'
  {
    ShortTextEndsInSpace();
    IntToStringWord(i);
    IntToStringWord(i');
    ReadEmptyShape("Function '", "' passed {} for argument ", ".", f, IntToString(i), f', IntToString(i'));
    IntToStringInjective(i, i');
  }

  // The three kinds of failure never produce the same diagnostic: a type
  // diagnostic ends in a type name, the other two in a number, and those
  // two differ in the word before it.

  /** The character before a text's last `d` ends the word before it. */
  lemma LastOfWord(p: string, w: string, d: string)
    requires |w| > 0 && |d| == 1
    ensures |p + (w + d)| >= 2 && (p + (w + d))[|p + (w + d)| - 2] == w[|w| - 1]
  {
    assert (p + (w + d))[|p| + |w| - 1] == w[|w| - 1];
  }

  /** The type-mismatch shape and a shape ending in a different last
      character before `d` never meet. */
  lemma TypeShapeEndsApart(h: string, t: string, g: string, x: string, d: string,
                           f: string, i: string, a: string, e: string, q: string, w: string)
    requires |d| == 1 && |e| > 0 && |w| > 0 && e[|e| - 1] != w[|w| - 1]
    ensures h + (f + (t + (i + (g + (a + (x + (e + d))))))) != q + (w + d)
  {
    var p := h + (f + (t + (i + (g + (a + x)))));
    assert h + (f + (t + (i + (g + (a + (x + (e + d))))))) == p + (e + d);
    LastOfWord(p, e, d);
    LastOfWord(q, w, d);
  }

  lemma TypeNotCount(f: string, i: int, a: Tag, e: Tag, f': string, c: int, n: int)
    ensures TypeMessage(f, i, a, e) != CountMessage(f', c, n)
  {
    TypeNameShape(e, e);
    IntToStringWord(n);
    var h, x := "Function '", ", expected ";
    var q := h + (f' + ("' passed incorect number of arguments. Got " + (IntToString(c) + x)));
    assert CountMessage(f', c, n) == q + (IntToString(n) + ".");
    TypeShapeEndsApart(h, "' passed incorrect type for argument ", ". Got ", x, ".",
                       f, IntToString(i), TypeName(a), TypeName(e), q, IntToString(n));
  }

  lemma TypeNotEmpty(f: string, i: int, a: Tag, e: Tag, f': string, j: int)
    ensures TypeMessage(f, i, a, e) != EmptyMessage(f', j)
  {
    TypeNameShape(e, e);
    IntToStringWord(j);
    var h := "Function '";
    var q := h + (f' + "' passed {} for argument ");
    assert EmptyMessage(f', j) == q + (IntToString(j) + ".");
    TypeShapeEndsApart(h, "' passed incorrect type for argument ", ". Got ", ", expected ", ".",
                       f, IntToString(i), TypeName(a), TypeName(e), q, IntToString(j));
  }

  /** Two texts that end in different words before a common final word
      differ. */
  lemma DifferentWordBefore(p: string, x: string, w: string, q: string, z: string, w': string, d: string)
    requires EndsInSpace(x) && EndsInSpace(z) && |x| >= 2 && |z| >= 2 && x[|x| - 2] != z[|z| - 2]
    requires ' ' !in w && ' ' !in w'
    ensures (p + x) + (w + d) != (q + z) + (w' + d)
  {
    EndsInSpaceAfter(p, x);
    EndsInSpaceAfter(q, z);
    assert (p + x)[|p| + |x| - 2] == x[|x| - 2];
    assert (q + z)[|q| + |z| - 2] == z[|z| - 2];
    if (p + x) + (w + d) == (q + z) + (w' + d) {
      WordBefore(p + x, w, d, q + z, w');
      assert false;
    }
  }

  lemma CountNotEmpty(f: string, c: int, n: int, f': string, j: int)
    ensures CountMessage(f, c, n) != EmptyMessage(f', j)
  {
    IntToStringWord(n);
    IntToStringWord(j);
    ShortTextEndsInSpace();
    var x, z := ", expected ", "' passed {} for argument ";
    assert x[9] == 'd' && z[23] == 't';
    var p := "Function '" + (f + ("' passed incorect number of arguments. Got " + IntToString(c)));
    var q := "Function '" + f';
    assert CountMessage(f, c, n) == (p + x) + (IntToString(n) + ".");
    assert EmptyMessage(f', j) == (q + z) + (IntToString(j) + ".");
    DifferentWordBefore(p, x, IntToString(n), q, z, IntToString(j), ".");
  }
}
