/**
 * String handling used by the provider adapters and the cache key:
 * ASCII case mapping, joining a list with a one-character delimiter
 * (and the split that undoes it), and `%s` template formatting.
 */
module Text {

  // ---------------------------------------------------------------------
  // ASCII case mapping

  function UpperChar(c: char): (u: char)
    ensures 'a' <= c <= 'z' ==> u as int == c as int - 32
    ensures !('a' <= c <= 'z') ==> u == c
  {
    if 'a' <= c <= 'z' then (c as int - 32) as char else c
  }

  function LowerChar(c: char): (l: char)
    ensures 'A' <= c <= 'Z' ==> l as int == c as int + 32
    ensures !('A' <= c <= 'Z') ==> l == c
  {
    if 'A' <= c <= 'Z' then (c as int + 32) as char else c
  }

  /** Upper-case every ASCII letter of `s`; other characters are kept. */
  function Upper(s: string): (r: string)
    ensures |r| == |s|
    ensures forall i :: 0 <= i < |s| ==> r[i] == UpperChar(s[i])
  {
    seq(|s|, i requires 0 <= i < |s| => UpperChar(s[i]))
  }

  /** Lower-case every ASCII letter of `s`; other characters are kept. */
  function Lower(s: string): (r: string)
    ensures |r| == |s|
    ensures forall i :: 0 <= i < |s| ==> r[i] == LowerChar(s[i])
  {
    seq(|s|, i requires 0 <= i < |s| => LowerChar(s[i]))
  }

  function UpperAll(xs: seq<string>): (r: seq<string>)
    ensures |r| == |xs|
    ensures forall i :: 0 <= i < |xs| ==> r[i] == Upper(xs[i])
  {
    seq(|xs|, i requires 0 <= i < |xs| => Upper(xs[i]))
  }

  /** Lower-casing forgets whether a letter was upper-cased first. */
  lemma LowerOfUpper(s: string)
    ensures Lower(Upper(s)) == Lower(s)
  {
    assert forall i :: 0 <= i < |s| ==> LowerChar(UpperChar(s[i])) == LowerChar(s[i]);
  }

  /**
   * Two strings that agree up to ASCII case have the same lower-case form:
   * the upper-case form of a symbol determines its lower-case form.
   */
  lemma SameUpperSameLower(a: string, b: string)
    requires Upper(a) == Upper(b)
    ensures Lower(a) == Lower(b)
  {
    LowerOfUpper(a);
    LowerOfUpper(b);
  }

  lemma UpperAppend(a: string, b: string)
    ensures Upper(a + b) == Upper(a) + Upper(b)
  {
    assert forall i :: 0 <= i < |a + b| ==> (a + b)[i] == if i < |a| then a[i] else b[i - |a|];
  }

  // ---------------------------------------------------------------------
  // Joining and splitting on a one-character delimiter

  /** The elements of `xs` in order, with `sep` between neighbours. */
  function Join(sep: char, xs: seq<string>): string
  {
    if |xs| == 0 then ""
    else if |xs| == 1 then xs[0]
    else xs[0] + [sep] + Join(sep, xs[1..])
  }

  /** The pieces of `s` between occurrences of `sep`; never empty. */
  function Split(sep: char, s: string): (r: seq<string>)
    ensures |r| >= 1
  {
    if |s| == 0 then [""]
    else
      var rest := Split(sep, s[1..]);
      if s[0] == sep then [""] + rest
      else [[s[0]] + rest[0]] + rest[1..]
  }

  /** A delimiter-free prefix glues onto the first piece. */
  lemma {:induction false} SplitPrefix(sep: char, p: string, t: string)
    requires sep !in p
    ensures Split(sep, p + t) == [p + Split(sep, t)[0]] + Split(sep, t)[1..]
  {
    if |p| > 0 {
      assert (p + t)[1..] == p[1..] + t;
      SplitPrefix(sep, p[1..], t);
      assert [p[0]] + (p[1..] + Split(sep, t)[0]) == p + Split(sep, t)[0];
    }
    else {
      var r := Split(sep, t);
      assert p + t == t;
      assert p + r[0] == r[0];
      assert [r[0]] + r[1..] == r;
    }
  }

  /** Splitting a join recovers the list, when no element holds the delimiter. */
  lemma {:induction false} SplitJoin(sep: char, xs: seq<string>)
    requires |xs| > 0
    requires forall i :: 0 <= i < |xs| ==> sep !in xs[i]
    ensures Split(sep, Join(sep, xs)) == xs
  {
    if |xs| == 1 {
      SplitPrefix(sep, xs[0], "");
      assert xs[0] + "" == xs[0];
    } else {
      var rest := Join(sep, xs[1..]);
      SplitJoin(sep, xs[1..]);
      assert xs[0] + [sep] + rest == xs[0] + ([sep] + rest);
      SplitPrefix(sep, xs[0], [sep] + rest);
      assert ([sep] + rest)[1..] == rest;
      assert xs[0] + "" == xs[0];
    }
  }

  /** Join is one-to-one on non-empty lists of delimiter-free strings. */
  lemma JoinInjective(sep: char, xs: seq<string>, ys: seq<string>)
    requires |xs| > 0 && |ys| > 0
    requires forall i :: 0 <= i < |xs| ==> sep !in xs[i]
    requires forall i :: 0 <= i < |ys| ==> sep !in ys[i]
    ensures Join(sep, xs) == Join(sep, ys) <==> xs == ys
  {
    SplitJoin(sep, xs);
    SplitJoin(sep, ys);
  }

  /** Upper-casing commutes with joining on a delimiter that is not a lower-case letter. */
  lemma {:induction false} UpperJoin(sep: char, xs: seq<string>)
    requires !('a' <= sep <= 'z')
    ensures Upper(Join(sep, xs)) == Join(sep, UpperAll(xs))
  {
    if |xs| >= 2 {
      UpperJoin(sep, xs[1..]);
      UpperAppend(xs[0] + [sep], Join(sep, xs[1..]));
      UpperAppend(xs[0], [sep]);
      assert UpperAll(xs)[1..] == UpperAll(xs[1..]);
    }
  }

  lemma DelimiterPosition(c: char, a: string, s: string, b: string, t: string)
    requires c !in b && |a| < |b|
    ensures (a + [c] + s)[|a|] == c != (b + [c] + t)[|a|]
  {
    assert (b + [c] + t)[|a|] == b[|a|];
  }

  /**
   * A delimiter that occurs in neither of two prefixes marks where each
   * ends: the prefixes and the remainders are equal.
   */
  lemma SplitAtFirst(c: char, a: string, s: string, b: string, t: string)
    requires c !in a && c !in b
    ensures a + [c] + s == b + [c] + t <==> a == b && s == t
  {
    if a + [c] + s == b + [c] + t {
      if |a| < |b| {
        DelimiterPosition(c, a, s, b, t);
        assert false;
      } else if |b| < |a| {
        DelimiterPosition(c, b, t, a, s);
        assert false;
      }
      assert a == (a + [c] + s)[..|a|];
      assert b == (b + [c] + t)[..|b|];
      assert s == (a + [c] + s)[|a| + 1..];
      assert t == (b + [c] + t)[|b| + 1..];
    }
  }

  // ---------------------------------------------------------------------
  // `%s` formatting

  /**
   * Replaces each `%s` of `template`, left to right, by the next argument.
   * Surplus arguments are ignored. Any other character, and a `%s` left
   * without an argument, is copied unchanged.
   */
  function Format(template: string, args: seq<string>): string
    decreases |template|
  {
    if |template| == 0 then ""
    else if |template| >= 2 && template[0] == '%' && template[1] == 's' && |args| > 0 then
      args[0] + Format(template[2..], args[1..])
    else [template[0]] + Format(template[1..], args)
  }

  /** Text before the first `%` is copied verbatim. */
  lemma {:induction false} FormatLiteral(p: string, t: string, args: seq<string>)
    requires '%' !in p
    ensures Format(p + t, args) == p + Format(t, args)
  {
    if |p| > 0 {
      assert (p + t)[1..] == p[1..] + t;
      assert (p + t)[0] == p[0];
      FormatLiteral(p[1..], t, args);
      assert [p[0]] + (p[1..] + Format(t, args)) == p + Format(t, args);
    } else {
      assert p + t == t;
    }
  }

  /** A leading `%s` takes the first argument. */
  lemma FormatArg(t: string, a: string, args: seq<string>)
    ensures Format("%s" + t, [a] + args) == a + Format(t, args)
  {
    assert ("%s" + t)[2..] == t;
    assert ([a] + args)[1..] == args;
  }

  /** A template `p%ss` with `%`-free `p` and `s` formats to `p + arg + s`. */
  lemma FormatOne(p: string, s: string, arg: string, args: seq<string>)
    requires '%' !in p && '%' !in s
    ensures Format(p + "%s" + s, [arg] + args) == p + arg + s
  {
    assert p + "%s" + s == p + ("%s" + s);
    FormatLiteral(p, "%s" + s, [arg] + args);
    FormatArg(s, arg, args);
    FormatLiteral(s, "", args);
    assert s + "" == s;
  }

  /** A template `p%sm%ss` with `%`-free `p`, `m`, `s` formats to `p + a + m + b + s`. */
  lemma FormatTwo(p: string, m: string, s: string, a: string, b: string)
    requires '%' !in p && '%' !in m && '%' !in s
    ensures Format(p + "%s" + m + "%s" + s, [a, b]) == p + a + m + b + s
  {
    var tail := m + "%s" + s;
    assert p + "%s" + m + "%s" + s == p + ("%s" + tail);
    assert [a, b] == [a] + [b];
    FormatLiteral(p, "%s" + tail, [a, b]);
    FormatArg(tail, a, [b]);
    FormatOne(m, s, b, []);
    assert [b] + [] == [b];
  }
}
