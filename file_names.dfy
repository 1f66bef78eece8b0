/**
 * The three file-name patterns of the scripts, each applied with `re.match`
 * and `re.IGNORECASE`: anchored at the start of the name only, so text after
 * ".pdf" is accepted, and letters match in either case.
 */
module FileNames {
  import opened Wrappers
  import opened Text

  /** `(\d{3})([a-z])\.pdf`, lecture files such as "001a.pdf". */
  const LecturePattern: seq<Atom> := [Digit, Digit, Digit, Letter, Char('.'), Char('p'), Char('d'), Char('f')]

  /** The lecture number a lecture file name carries, if it is one. */
  function LectureKey(f: string): (r: Option<string>)
    ensures r.Some? ==> |r.value| == 3 && AllDigits(r.value)
  {
    if MatchesPrefix(LecturePattern, f) then Some(f[..3]) else None
  }

  /**
   * A name is a lecture file exactly when it begins with three digits, one
   * letter and ".pdf" in any case; its key is those three digits.
   */
  lemma LectureKeyMeaning(f: string)
    ensures LectureKey(f).Some? <==>
            8 <= |f| && AllDigits(f[..3]) && IsLetter(f[3]) && SameFoldStrings(f[4..8], ".pdf")
    ensures LectureKey(f).Some? ==> LectureKey(f).value == f[..3]
  {
    if 8 <= |f| && AllDigits(f[..3]) && IsLetter(f[3]) && SameFoldStrings(f[4..8], ".pdf") {
      assert forall i :: 0 <= i < 3 ==> f[..3][i] == f[i];
      assert forall i :: 4 <= i < 8 ==> f[4..8][i - 4] == f[i];
      assert MatchesPrefix(LecturePattern, f);
    }
  }

  /** A character that folds to a digit is that digit. */
  lemma FoldToDigit(c: char, d: char)
    requires SameFold(c, d) && IsDigit(c)
    ensures c == d
  {
  }

  /** Names that differ only in case have the same lecture key ("001A.PDF" is lecture 001). */
  lemma LectureKeyIgnoresCase(f: string, g: string)
    requires SameFoldStrings(f, g)
    ensures LectureKey(f) == LectureKey(g)
  {
    MatchIgnoresCase(LecturePattern, f, g);
    if MatchesPrefix(LecturePattern, f) {
      forall i | 0 <= i < 3 ensures f[i] == g[i] {
        assert AtomMatches(LecturePattern[i], f[i]);
        FoldToDigit(f[i], g[i]);
      }
      assert f[..3] == g[..3];
    }
  }

  /** `[a-z]\.pdf`, what must follow the number in merge_by_number.py's pattern. */
  const LetterPdf: seq<Atom> := [Letter, Char('.'), Char('p'), Char('d'), Char('f')]

  /** Length of the run of digits at the start of `f`. */
  function LeadingDigits(f: string): (n: nat)
    ensures n <= |f| && AllDigits(f[..n]) && (n < |f| ==> !IsDigit(f[n]))
  {
    if f == [] || !IsDigit(f[0]) then 0
    else
      var n := 1 + LeadingDigits(f[1..]);
      assert forall i :: 1 <= i < n ==> f[..n][i] == f[1..][..n - 1][i - 1];
      n
  }

  /** The number key of merge_by_number.py's `(\d+)([a-z])\.pdf`: the maximal leading digit run. */
  function NumberKey(f: string): (r: Option<string>)
    ensures r.Some? ==> 1 <= |r.value| && AllDigits(r.value)
  {
    var n := LeadingDigits(f);
    if 1 <= n && MatchesPrefix(LetterPdf, f[n..]) then Some(f[..n]) else None
  }

  /** One way for `(\d+)([a-z])\.pdf` to match `f`, with `f[..j]` as the digit group. */
  predicate NumberMatchSplit(f: string, j: int)
  {
    1 <= j <= |f| && AllDigits(f[..j]) && MatchesPrefix(LetterPdf, f[j..])
  }

  lemma LeadingDigitsExact(f: string, j: nat)
    requires j <= |f| && AllDigits(f[..j]) && (j < |f| ==> !IsDigit(f[j]))
    ensures LeadingDigits(f) == j
    decreases j
  {
    if j > 0 {
      assert f[1..][..j - 1] == f[..j][1..];
      LeadingDigitsExact(f[1..], j - 1);
    }
  }

  /**
   * The regex's digit group can only end where the digits end (the letter
   * after it is not a digit), so the name is grouped exactly when some split
   * matches, and its key is that split's digits, the whole leading run.
   */
  lemma NumberKeyMeaning(f: string, k: string)
    ensures NumberKey(f) == Some(k) <==> exists j :: NumberMatchSplit(f, j) && k == f[..j]
  {
    if exists j :: NumberMatchSplit(f, j) && k == f[..j] {
      var j :| NumberMatchSplit(f, j) && k == f[..j];
      assert AtomMatches(LetterPdf[0], f[j..][0]);
      LeadingDigitsExact(f, j);
    }
    if NumberKey(f) == Some(k) {
      assert NumberMatchSplit(f, LeadingDigits(f));
    }
  }

  /** `ex(\d{3})prb\.pdf`, example problem files such as "ex001prb.pdf". */
  const ExamplePattern: seq<Atom> :=
    [Char('e'), Char('x'), Digit, Digit, Digit, Char('p'), Char('r'), Char('b'), Char('.'), Char('p'), Char('d'), Char('f')]

  /** The three-digit number an example file name carries, if it is one. */
  function ExampleKey(f: string): (r: Option<string>)
    ensures r.Some? ==> |r.value| == 3 && AllDigits(r.value)
  {
    if MatchesPrefix(ExamplePattern, f) then
      assert forall i :: 0 <= i < 3 ==> f[2..5][i] == f[i + 2] && ExamplePattern[i + 2] == Digit;
      Some(f[2..5])
    else None
  }

  /**
   * A name is an example file exactly when it begins with "ex", three digits
   * and "prb.pdf", letters in any case; its key is those three digits.
   */
  lemma ExampleKeyMeaning(f: string)
    ensures ExampleKey(f).Some? <==>
            12 <= |f| && SameFoldStrings(f[..2], "ex") && AllDigits(f[2..5]) && SameFoldStrings(f[5..12], "prb.pdf")
    ensures ExampleKey(f).Some? ==> ExampleKey(f).value == f[2..5]
  {
    if 12 <= |f| && SameFoldStrings(f[..2], "ex") && AllDigits(f[2..5]) && SameFoldStrings(f[5..12], "prb.pdf") {
      assert forall i :: 0 <= i < 2 ==> f[..2][i] == f[i];
      assert forall i :: 2 <= i < 5 ==> f[2..5][i - 2] == f[i];
      assert forall i :: 5 <= i < 12 ==> f[5..12][i - 5] == f[i];
      assert MatchesPrefix(ExamplePattern, f);
    }
    if ExampleKey(f).Some? {
      assert forall i :: 0 <= i < 2 ==> AtomMatches(ExamplePattern[i], f[i]);
      assert forall i :: 5 <= i < 12 ==> AtomMatches(ExamplePattern[i], f[i]);
    }
  }
}
