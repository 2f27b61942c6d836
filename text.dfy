/** String helpers with the meaning of the JavaScript operations the
    application uses: `startsWith`, `Array.prototype.join`, splitting at line
    breaks, and the decimal rendering of an integer in a template literal. */
module Text {

  /** `s.startsWith(prefix)`. */
  predicate StartsWith(s: string, prefix: string) {
    |prefix| <= |s| && s[..|prefix|] == prefix
  }

  /** The characters of `s` before its first `c`, or all of `s`. */
  function UpTo(s: string, c: char): (r: string)
    ensures |r| <= |s| && r == s[..|r|]
    ensures c !in r
    ensures |r| < |s| ==> s[|r|] == c
  {
    if s == [] || s[0] == c then "" else [s[0]] + UpTo(s[1..], c)
  }

  /** A prefix free of `c` is kept whole by `UpTo`. */
  lemma {:induction false} UpToOfFree(b: string, rest: string, c: char)
    requires c !in b
    ensures UpTo(b + rest, c) == b + UpTo(rest, c)
    decreases |b|
  {
    if b != [] {
      assert b[0] in b;
      assert (b + rest)[1..] == b[1..] + rest;
      assert c !in b[1..] by {
        forall x | x in b[1..] ensures x != c { assert x in b; }
      }
      UpToOfFree(b[1..], rest, c);
    } else {
      assert b + rest == rest;
    }
  }

  /** `xs.join(sep)`: the elements in order with `sep` between neighbours. */
  function Join(xs: seq<string>, sep: string): string {
    if |xs| == 0 then ""
    else if |xs| == 1 then xs[0]
    else xs[0] + sep + Join(xs[1..], sep)
  }

  lemma JoinOfThree(a: string, b: string, c: string, sep: string)
    ensures Join([a, b, c], sep) == a + sep + b + sep + c
  {
    var xs := [a, b, c];
    assert Join(xs[2..], sep) == c;
    assert Join(xs[1..], sep) == b + sep + c;
  }

  lemma JoinOfFive(a: string, b: string, c: string, d: string, e: string, sep: string)
    ensures Join([a, b, c, d, e], sep) == a + sep + b + sep + c + sep + d + sep + e
  {
    var xs := [a, b, c, d, e];
    assert xs[2..] == [c, d, e];
    JoinOfThree(c, d, e, sep);
    assert Join(xs[1..], sep) == b + sep + Join(xs[2..], sep);
  }

  /** Joining one element more appends the separator and that element. */
  lemma {:induction false} JoinSnoc(xs: seq<string>, x: string, sep: string)
    requires xs != []
    ensures Join(xs + [x], sep) == Join(xs, sep) + sep + x
    decreases |xs|
  {
    if |xs| == 1 {
      assert (xs + [x])[1..] == [x];
    } else {
      assert (xs + [x])[1..] == xs[1..] + [x];
      JoinSnoc(xs[1..], x, sep);
    }
  }

  /** `xs.map(x => prefix + x)`. */
  function PrefixAll(prefix: string, xs: seq<string>): (r: seq<string>)
    ensures |r| == |xs|
    ensures forall i :: 0 <= i < |xs| ==> r[i] == prefix + xs[i]
  {
    if xs == [] then [] else [prefix + xs[0]] + PrefixAll(prefix, xs[1..])
  }

  /** A string with no line break in it. */
  predicate SingleLine(s: string) {
    '\n' !in s
  }

  predicate AllSingleLine(xs: seq<string>) {
    forall i :: 0 <= i < |xs| ==> SingleLine(xs[i])
  }

  lemma SingleLineConcat(a: string, b: string)
    requires SingleLine(a) && SingleLine(b)
    ensures SingleLine(a + b)
  {
    forall i | 0 <= i < |a + b| ensures (a + b)[i] != '\n' {
      if i < |a| {
        assert (a + b)[i] == a[i];
        assert a[i] in a;
      } else {
        assert (a + b)[i] == b[i - |a|];
        assert b[i - |a|] in b;
      }
    }
  }

  lemma {:induction false} JoinSingleLine(xs: seq<string>, sep: string)
    requires AllSingleLine(xs) && SingleLine(sep)
    ensures SingleLine(Join(xs, sep))
    decreases |xs|
  {
    if |xs| > 1 {
      JoinSingleLine(xs[1..], sep);
      SingleLineConcat(xs[0], sep);
      SingleLineConcat(xs[0] + sep, Join(xs[1..], sep));
    } else if |xs| == 1 {
      assert SingleLine(xs[0]);
    }
  }

  /** `s.split('\n')`: the lines of `s`; the empty string has one empty line. */
  function Lines(s: string): (r: seq<string>)
    ensures |r| >= 1
    decreases |s|
  {
    if |s| == 0 then [""]
    else if s[0] == '\n' then [""] + Lines(s[1..])
    else
      var rest := Lines(s[1..]);
      [[s[0]] + rest[0]] + rest[1..]
  }

  /** The lines of each string in turn. */
  function FlatLines(xs: seq<string>): seq<string> {
    if xs == [] then [] else Lines(xs[0]) + FlatLines(xs[1..])
  }

  /** The lines of `xs` joined by a blank line each, for strings without
      line breaks: `[x0, "", x1, "", ..., xn]`, and one empty line for `[]`. */
  function Paragraphs(xs: seq<string>): seq<string> {
    if |xs| == 0 then [""]
    else if |xs| == 1 then [xs[0]]
    else [xs[0], ""] + Paragraphs(xs[1..])
  }

  /** The lines of `xs` joined by line breaks, for strings without line
      breaks: the strings themselves, and one empty line for `[]`. */
  function ListLines(xs: seq<string>): seq<string> {
    if xs == [] then [""] else xs
  }

  lemma {:induction false} LinesOfSingleLine(s: string)
    requires SingleLine(s)
    ensures Lines(s) == [s]
    decreases |s|
  {
    if |s| > 0 {
      assert s[0] != '\n' by { assert s[0] in s; }
      assert SingleLine(s[1..]) by {
        forall c | c in s[1..] ensures c != '\n' { assert c in s; }
      }
      LinesOfSingleLine(s[1..]);
      assert [s[0]] + s[1..] == s;
    }
  }

  /** Splitting at a line break that joins two strings gives the lines of
      the first followed by the lines of the second. */
  lemma {:induction false} LinesConcat(x: string, y: string)
    ensures Lines(x + "\n" + y) == Lines(x) + Lines(y)
    decreases |x|
  {
    var s := x + "\n" + y;
    if |x| == 0 {
      assert s[0] == '\n' && s[1..] == y;
    } else {
      assert s[0] == x[0];
      assert s[1..] == x[1..] + "\n" + y;
      LinesConcat(x[1..], y);
    }
  }

  lemma {:induction false} LinesOfJoin(xs: seq<string>)
    requires |xs| >= 1
    ensures Lines(Join(xs, "\n")) == FlatLines(xs)
    decreases |xs|
  {
    if |xs| == 1 {
      assert FlatLines(xs) == Lines(xs[0]) + FlatLines([]);
    } else {
      LinesConcat(xs[0], Join(xs[1..], "\n"));
      LinesOfJoin(xs[1..]);
    }
  }

  lemma {:induction false} FlatLinesAppend(xs: seq<string>, ys: seq<string>)
    ensures FlatLines(xs + ys) == FlatLines(xs) + FlatLines(ys)
    decreases |xs|
  {
    if xs != [] {
      assert (xs + ys)[0] == xs[0];
      assert (xs + ys)[1..] == xs[1..] + ys;
      FlatLinesAppend(xs[1..], ys);
    } else {
      assert xs + ys == ys;
    }
  }

  lemma FlatLinesOfOne(x: string)
    ensures FlatLines([x]) == Lines(x)
  {
    assert FlatLines([x]) == Lines([x][0]) + FlatLines([]);
  }

  lemma FlatLinesOfSections(a: seq<string>, b: seq<string>, c: seq<string>, d: seq<string>, e: seq<string>)
    ensures FlatLines(a + b + c + d + e) == FlatLines(a) + FlatLines(b) + FlatLines(c) + FlatLines(d) + FlatLines(e)
  {
    FlatLinesAppend(a + b + c + d, e);
    FlatLinesAppend(a + b + c, d);
    FlatLinesAppend(a + b, c);
    FlatLinesAppend(a, b);
  }

  lemma {:induction false} FlatLinesOfSingleLines(xs: seq<string>)
    requires AllSingleLine(xs)
    ensures FlatLines(xs) == xs
    decreases |xs|
  {
    if xs != [] {
      LinesOfSingleLine(xs[0]);
      FlatLinesOfSingleLines(xs[1..]);
    }
  }

  /** Joining single-line strings with line breaks and splitting again
      gives back exactly those strings, in order. */
  lemma LinesOfJoinedLines(xs: seq<string>)
    requires AllSingleLine(xs)
    ensures Lines(Join(xs, "\n")) == ListLines(xs)
  {
    if xs != [] {
      LinesOfJoin(xs);
      FlatLinesOfSingleLines(xs);
    }
  }

  /** Joining single-line strings with blank lines (`join('\n\n')`) puts
      each on a line of its own, an empty line between neighbours. */
  lemma {:induction false} LinesOfParagraphs(xs: seq<string>)
    requires AllSingleLine(xs)
    ensures Lines(Join(xs, "\n\n")) == Paragraphs(xs)
    decreases |xs|
  {
    if |xs| == 1 {
      LinesOfSingleLine(xs[0]);
    } else if |xs| > 1 {
      var rest := Join(xs[1..], "\n\n");
      assert xs[0] + "\n\n" + rest == xs[0] + "\n" + ("" + "\n" + rest);
      LinesConcat(xs[0], "" + "\n" + rest);
      LinesConcat("", rest);
      LinesOfSingleLine(xs[0]);
      LinesOfParagraphs(xs[1..]);
    }
  }

  // Decimal rendering of integers, as `${n}` renders an integral number.

  predicate IsDigit(c: char) {
    '0' <= c <= '9'
  }

  function DigitChar(d: nat): (c: char)
    requires d < 10
    ensures IsDigit(c) && c as int - '0' as int == d
  {
    ['0', '1', '2', '3', '4', '5', '6', '7', '8', '9'][d]
  }

  function NatToString(n: nat): (s: string)
    decreases n
  {
    if n < 10 then [DigitChar(n)] else NatToString(n / 10) + [DigitChar(n % 10)]
  }

  function IntToString(n: int): string {
    if n < 0 then "-" + NatToString(-n) else NatToString(n)
  }

  /** The number a string of decimal digits denotes. */
  function DigitsValue(s: string): nat
    requires forall i :: 0 <= i < |s| ==> IsDigit(s[i])
    decreases |s|
  {
    if s == [] then 0
    else
      var last := s[|s| - 1];
      assert IsDigit(last);
      DigitsValue(s[..|s| - 1]) * 10 + (last as int - '0' as int)
  }

  /** A canonical decimal numeral: a non-empty run of digits with no
      leading zero, except for "0" itself. */
  predicate CanonicalDigits(s: string) {
    && |s| >= 1
    && (forall i :: 0 <= i < |s| ==> IsDigit(s[i]))
    && (|s| > 1 ==> s[0] != '0')
  }

  /** The decimal rendering is a canonical numeral that denotes the number
      it renders. */
  lemma {:induction false} NatToStringDenotes(n: nat)
    ensures CanonicalDigits(NatToString(n)) && DigitsValue(NatToString(n)) == n
    decreases n
  {
    var s := NatToString(n);
    if n >= 10 {
      NatToStringDenotes(n / 10);
      assert s[..|s| - 1] == NatToString(n / 10);
      if |NatToString(n / 10)| == 1 {
        assert s[0] == DigitChar(n / 10);
      } else {
        assert s[0] == NatToString(n / 10)[0];
      }
    }
  }

  /** A canonical numeral of two or more digits denotes at least 10. */
  lemma CanonicalValueBound(s: string)
    requires CanonicalDigits(s)
    ensures |s| == 1 ==> DigitsValue(s) < 10
    ensures |s| > 1 ==> DigitsValue(s) >= 10
  {
    if |s| > 1 {
      CanonicalLeadingValue(s[..|s| - 1]);
    }
  }

  lemma {:induction false} CanonicalLeadingValue(s: string)
    requires |s| >= 1 && (forall i :: 0 <= i < |s| ==> IsDigit(s[i])) && s[0] != '0'
    ensures DigitsValue(s) >= 1
    decreases |s|
  {
    if |s| > 1 {
      CanonicalLeadingValue(s[..|s| - 1]);
    }
  }

  /** Two canonical numerals with the same value are the same string, so
      the rendering is the only canonical numeral of its number. */
  lemma {:induction false} CanonicalDigitsUnique(s: string, t: string)
    requires CanonicalDigits(s) && CanonicalDigits(t) && DigitsValue(s) == DigitsValue(t)
    ensures s == t
    decreases |s|
  {
    CanonicalValueBound(s);
    CanonicalValueBound(t);
    if |s| > 1 {
      var p, q := s[..|s| - 1], t[..|t| - 1];
      var d, e := s[|s| - 1] as int - '0' as int, t[|t| - 1] as int - '0' as int;
      assert DigitsValue(s) == DigitsValue(p) * 10 + d;
      assert DigitsValue(t) == DigitsValue(q) * 10 + e;
      assert d == e && DigitsValue(p) == DigitsValue(q) by {
        DivModOfDigit(DigitsValue(p), d);
        DivModOfDigit(DigitsValue(q), e);
      }
      assert p[0] == s[0] && q[0] == t[0];
      CanonicalDigitsUnique(p, q);
      assert s == p + [s[|s| - 1]] && t == q + [t[|t| - 1]];
    }
  }

  lemma DivModOfDigit(p: nat, d: int)
    requires 0 <= d < 10
    ensures (p * 10 + d) % 10 == d && (p * 10 + d) / 10 == p
  {
  }

  /** `${n}` for an integer: a minus sign exactly for a negative number,
      followed by the canonical numeral of its magnitude. */
  lemma IntToStringDenotes(n: int)
    ensures |IntToString(n)| >= 1 && (IntToString(n)[0] == '-' <==> n < 0)
    ensures var s := IntToString(n);
      var digits := if n < 0 then s[1..] else s;
      CanonicalDigits(digits) && DigitsValue(digits) == if n < 0 then -n else n
  {
    var m: nat := if n < 0 then -n else n;
    NatToStringDenotes(m);
    if n < 0 {
      assert IntToString(n)[1..] == NatToString(m);
    }
  }

  lemma IntToStringSingleLine(n: int)
    ensures SingleLine(IntToString(n))
  {
    var m: nat := if n < 0 then -n else n;
    NatToStringDenotes(m);
    var s := IntToString(n);
    forall i | 0 <= i < |s| ensures s[i] != '\n' {
      if n < 0 && i > 0 {
        assert s[i] == NatToString(m)[i - 1];
      }
    }
  }
}
