/** The part of Go's `fmt.Sprintf` the query builder uses: a template whose
    only verbs are `%v`, each replaced, left to right, by the next argument
    already rendered as text (a string verbatim, an int in decimal). */
module Fmt {

  /** True iff `s` holds no `%`, so Sprintf copies it unchanged. */
  predicate NoPercent(s: string) {
    forall i :: 0 <= i < |s| ==> s[i] != '%'
  }

  /** What Go writes for a `%v` that has no argument left. */
  const MissingArgument: string := "%!v(MISSING)"

  /** `fmt.Sprintf(t, args...)` for `%v` verbs. The arguments are inserted,
      never rescanned: a `%v` inside an argument stays as it is. `%%` writes
      one `%`. A template without `%` and without arguments comes out
      unchanged. */
  function Sprintf(t: string, args: seq<string>): (r: string)
    ensures NoPercent(t) && |args| == 0 ==> r == t
    decreases |t|
  {
    if |t| == 0 then ""
    else if |t| >= 2 && t[0] == '%' && t[1] == 'v' then
      if |args| > 0 then args[0] + Sprintf(t[2..], args[1..])
      else MissingArgument + Sprintf(t[2..], args)
    else if |t| >= 2 && t[0] == '%' && t[1] == '%' then "%" + Sprintf(t[2..], args)
    else [t[0]] + Sprintf(t[1..], args)
  }

  /** Text without `%` is copied through and consumes no argument. */
  lemma {:induction false} SprintfLiteral(p: string, rest: string, args: seq<string>)
    requires NoPercent(p)
    ensures Sprintf(p + rest, args) == p + Sprintf(rest, args)
    decreases |p|
  {
    if |p| > 0 {
      var t := p + rest;
      assert t[0] == p[0];
      assert t[1..] == p[1..] + rest;
      SprintfLiteral(p[1..], rest, args);
    } else {
      assert p + rest == rest;
    }
  }

  /** A `%v` followed by text consumes exactly one argument. */
  lemma SprintfVerb(rest: string, a: string, args: seq<string>)
    ensures Sprintf("%v" + rest, [a] + args) == a + Sprintf(rest, args)
  {
    var t := "%v" + rest;
    assert t[2..] == rest;
    assert ([a] + args)[1..] == args;
  }

  /** A `%v` followed by `%`-free text consumes one argument and copies the text. */
  lemma SprintfVerbThen(t: string, p: string, rest: string, a: string, args: seq<string>, args': seq<string>)
    requires NoPercent(p)
    requires t == "%v" + (p + rest) && args' == [a] + args
    ensures Sprintf(t, args') == a + (p + Sprintf(rest, args))
  {
    SprintfVerb(p + rest, a, args);
    SprintfLiteral(p, rest, args);
  }

  /** A three-verb template `p0 %v p1 %v p2 %v p3` whose literal pieces hold
      no `%` is filled piece by piece with the three arguments in order. */
  lemma SprintfThree(p0: string, p1: string, p2: string, p3: string, a0: string, a1: string, a2: string)
    requires NoPercent(p0) && NoPercent(p1) && NoPercent(p2) && NoPercent(p3)
    ensures Sprintf(p0 + "%v" + p1 + "%v" + p2 + "%v" + p3, [a0, a1, a2])
         == p0 + a0 + p1 + a1 + p2 + a2 + p3
  {
    var t3 := "%v" + (p3 + "");
    var t2 := "%v" + (p2 + t3);
    var t1 := "%v" + (p1 + t2);
    Regroup(p0, p1, p2, p3, "%v", "%v", "%v");
    SprintfLiteral(p0, t1, [a0, a1, a2]);
    SprintfVerbThen(t1, p1, t2, a0, [a1, a2], [a0, a1, a2]);
    SprintfVerbThen(t2, p2, t3, a1, [a2], [a1, a2]);
    SprintfVerbThen(t3, p3, "", a2, [], [a2]);
    Regroup(p0, p1, p2, p3, a0, a1, a2);
  }

  lemma Regroup<T>(p0: seq<T>, p1: seq<T>, p2: seq<T>, p3: seq<T>, a0: seq<T>, a1: seq<T>, a2: seq<T>)
    ensures p0 + a0 + p1 + a1 + p2 + a2 + p3 == p0 + (a0 + (p1 + (a1 + (p2 + (a2 + (p3 + []))))))
  {
  }
}
