/**
 * Characters, strings and the little of Python's `re` and `os.path` that the
 * three merge scripts rely on: ASCII digit and letter classes, ASCII case
 * folding (`re.IGNORECASE`), the code-point order Python uses to compare
 * strings, the value `int()` gives a digit string, patterns anchored at the
 * start of a name only (`re.match`), and `os.path.join`.
 */
module Text {

  predicate IsDigit(c: char) { '0' <= c <= '9' }

  /** `[a-z]` under `re.IGNORECASE`: a letter of either case. */
  predicate IsLetter(c: char) { 'a' <= c <= 'z' || 'A' <= c <= 'Z' }

  function Lower(c: char): char
  {
    if 'A' <= c <= 'Z' then (c as int + 32) as char else c
  }

  /** `c` and `d` are equal once case is ignored. */
  predicate SameFold(c: char, d: char) { Lower(c) == Lower(d) }

  predicate AllDigits(s: string) { forall i :: 0 <= i < |s| ==> IsDigit(s[i]) }

  function Pow10(n: nat): (r: nat)
    ensures r >= 1
  {
    if n == 0 then 1 else 10 * Pow10(n - 1)
  }

  function DigitValue(c: char): (d: nat)
    requires IsDigit(c)
    ensures d <= 9
  {
    c as int - '0' as int
  }

  lemma MulMonotone(x: nat, y: nat, p: nat)
    requires x <= y
    ensures x * p <= y * p
  {
  }

  /** A smaller leading digit gives a smaller number, whatever the digits after it. */
  lemma LeadingDigitDecides(da: nat, db: nat, p: nat, ra: nat, rb: nat)
    requires da < db && ra < p
    ensures da * p + ra < db * p + rb
  {
    MulMonotone(da + 1, db, p);
    assert (da + 1) * p == da * p + p;
  }

  /** The value Python's `int()` gives a string of decimal digits; it never reaches the next power of ten. */
  function DecimalValue(s: string): (v: nat)
    requires AllDigits(s)
    ensures v < Pow10(|s|)
  {
    if s == [] then 0
    else
      var d, p, rest := DigitValue(s[0]), Pow10(|s| - 1), DecimalValue(s[1..]);
      MulMonotone(d + 1, 10, p);
      d * p + rest
  }

  /** Python's `a <= b` on strings: lexicographic by code point, a proper prefix first. */
  predicate StrLe(a: string, b: string)
    decreases |a|
  {
    |a| == 0 || (|b| > 0 && (a[0] < b[0] || (a[0] == b[0] && StrLe(a[1..], b[1..]))))
  }

  lemma StrLeReflexive(a: string)
    ensures StrLe(a, a)
    decreases |a|
  {
    if |a| > 0 { StrLeReflexive(a[1..]); }
  }

  lemma StrLeTotal(a: string, b: string)
    ensures StrLe(a, b) || StrLe(b, a)
    decreases |a|
  {
    if |a| > 0 && |b| > 0 && a[0] == b[0] { StrLeTotal(a[1..], b[1..]); }
  }

  lemma StrLeTransitive(a: string, b: string, c: string)
    requires StrLe(a, b) && StrLe(b, c)
    ensures StrLe(a, c)
    decreases |a|
  {
    if |a| > 0 && a[0] == b[0] && b[0] == c[0] { StrLeTransitive(a[1..], b[1..], c[1..]); }
  }

  lemma StrLeAntisymmetric(a: string, b: string)
    requires StrLe(a, b) && StrLe(b, a)
    ensures a == b
    decreases |a|
  {
    if |a| > 0 {
      StrLeAntisymmetric(a[1..], b[1..]);
      assert a == [a[0]] + a[1..] && b == [b[0]] + b[1..];
    }
  }

  /** A common prefix does not change how two strings compare. */
  lemma {:induction false} StrLeCommonPrefix(p: string, a: string, b: string)
    ensures StrLe(p + a, p + b) <==> StrLe(a, b)
    decreases |p|
  {
    if |p| > 0 {
      assert (p + a)[0] == p[0] && (p + b)[0] == p[0];
      assert (p + a)[1..] == p[1..] + a && (p + b)[1..] == p[1..] + b;
      StrLeCommonPrefix(p[1..], a, b);
    } else {
      assert p + a == a && p + b == b;
    }
  }

  /**
   * For digit strings of one length, string order is numeric order: this is
   * why sorting zero-padded keys as strings sorts them by number.
   */
  lemma {:induction false} DigitOrderIsNumericOrder(a: string, b: string)
    requires AllDigits(a) && AllDigits(b) && |a| == |b|
    ensures StrLe(a, b) <==> DecimalValue(a) <= DecimalValue(b)
    decreases |a|
  {
    if |a| > 0 {
      var da, db, p := DigitValue(a[0]), DigitValue(b[0]), Pow10(|a| - 1);
      var ra, rb := DecimalValue(a[1..]), DecimalValue(b[1..]);
      assert DecimalValue(a) == da * p + ra && DecimalValue(b) == db * p + rb;
      if da < db {
        assert a[0] < b[0];
        LeadingDigitDecides(da, db, p, ra, rb);
      } else if db < da {
        assert b[0] < a[0];
        LeadingDigitDecides(db, da, p, rb, ra);
      } else {
        assert a[0] == b[0];
        DigitOrderIsNumericOrder(a[1..], b[1..]);
      }
    }
  }

  /** Equal-length digit strings with equal values are the same string. */
  lemma DigitStringsWithEqualValue(a: string, b: string)
    requires AllDigits(a) && AllDigits(b) && |a| == |b|
    requires DecimalValue(a) == DecimalValue(b)
    ensures a == b
  {
    DigitOrderIsNumericOrder(a, b);
    DigitOrderIsNumericOrder(b, a);
    StrLeAntisymmetric(a, b);
  }

  /** `os.path.join(folder, name)` for a relative name and a folder without a trailing separator. */
  function Join(folder: string, name: string): string
  {
    folder + "/" + name
  }

  lemma JoinInjective(folder: string, a: string, b: string)
    requires Join(folder, a) == Join(folder, b)
    ensures a == b
  {
    var n := |folder| + 1;
    assert a == Join(folder, a)[n..] && b == Join(folder, b)[n..];
  }

  lemma JoinKeepsOrder(folder: string, a: string, b: string)
    ensures StrLe(Join(folder, a), Join(folder, b)) <==> StrLe(a, b)
  {
    assert Join(folder, a) == (folder + "/") + a && Join(folder, b) == (folder + "/") + b;
    StrLeCommonPrefix(folder + "/", a, b);
  }

  /** One position of a hand-written pattern: `\d`, `[a-z]` (any case) or a literal (any case). */
  datatype Atom = Digit | Letter | Char(c: char)

  predicate AtomMatches(a: Atom, c: char)
  {
    match a
    case Digit => IsDigit(c)
    case Letter => IsLetter(c)
    case Char(l) => SameFold(c, l)
  }

  /**
   * `re.match(pattern, s, re.IGNORECASE)` for a pattern of fixed atoms: the
   * pattern must match at the start of `s`, and anything may follow it.
   */
  predicate MatchesPrefix(pat: seq<Atom>, s: string)
  {
    |pat| <= |s| && forall i :: 0 <= i < |pat| ==> AtomMatches(pat[i], s[i])
  }

  /** Text after the matched part is ignored, so "001a.pdf.bak" matches as well as "001a.pdf". */
  lemma MatchIgnoresTrailingText(pat: seq<Atom>, s: string, t: string)
    requires MatchesPrefix(pat, s)
    ensures MatchesPrefix(pat, s + t)
  {
    assert forall i :: 0 <= i < |s| ==> (s + t)[i] == s[i];
  }

  predicate SameFoldStrings(s: string, t: string)
  {
    |s| == |t| && forall i :: 0 <= i < |s| ==> SameFold(s[i], t[i])
  }

  /** Matching ignores case: two names that differ only in case match alike. */
  lemma MatchIgnoresCase(pat: seq<Atom>, s: string, t: string)
    requires SameFoldStrings(s, t)
    ensures MatchesPrefix(pat, s) <==> MatchesPrefix(pat, t)
  {
    forall i | 0 <= i < |pat| && i < |s|
      ensures AtomMatches(pat[i], s[i]) <==> AtomMatches(pat[i], t[i])
    {
      var c, d := s[i], t[i];
      assert Lower(c) == Lower(d);
      assert IsLetter(c) <==> IsLetter(Lower(c));
      assert IsLetter(d) <==> IsLetter(Lower(d));
      assert IsDigit(c) <==> IsDigit(Lower(c));
      assert IsDigit(d) <==> IsDigit(Lower(d));
    }
  }
}
