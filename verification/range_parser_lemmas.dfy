/**
 * What the range parser of the breed ingestion reads: the scanner agrees
 * with the regular expression `(\d+)\s*-\s*(\d+)`, and text laid out as
 * a hyphenated pair or as a single number parses to those numbers.
 */
module RangeParserLemmas {
  import opened Wrappers
  import opened Text
  import opened RangeParser

  /**
   * Every way the backtracking matcher can match at `i` has the scanner's
   * group 1 and the scanner's group 2 start, and the greedy `\d+` of group 2
   * takes the longest run, which is the scanner's; so the scanner returns
   * exactly the captures of the regular expression.
   */
  lemma {:induction false} RegexAgreesWithScanner(s: string, i: nat, j1: nat, h: nat, k: nat, j2: nat)
    requires PairMatch(s, i, j1, h, k, j2)
    ensures j1 == DigitRunEnd(s, i) && h == SpaceRunEnd(s, j1) && k == SpaceRunEnd(s, h + 1)
    ensures j2 <= DigitRunEnd(s, k) && PairMatch(s, i, j1, h, k, DigitRunEnd(s, k))
    ensures PairAt(s, i) == Some(Span(j1, h, k, DigitRunEnd(s, k)))
  {
    MatchBoundaries(s, i, j1, h, k, j2);
    assert PairMatch(s, i, j1, h, k, DigitRunEnd(s, k));
  }

  /** The boundaries of a match are the ends of the runs the scanner reads. */
  lemma MatchBoundaries(s: string, i: nat, j1: nat, h: nat, k: nat, j2: nat)
    requires PairMatch(s, i, j1, h, k, j2)
    ensures j1 == DigitRunEnd(s, i) && h == SpaceRunEnd(s, j1) && k == SpaceRunEnd(s, h + 1)
    ensures j2 <= DigitRunEnd(s, k)
  {
    CharClassesDisjoint(s[j1]);
    DigitRunEndAt(s, i, j1);
    CharClassesDisjoint(s[h]);
    SpaceRunEndAt(s, j1, h);
    CharClassesDisjoint(s[k]);
    SpaceRunEndAt(s, h + 1, k);
    DigitRunEndIsLongest(s, k, j2);
  }

  /**
   * When the regular expression matches at `i`, at no earlier index, and
   * group 2 ends before a non-digit, the parser returns that match's two
   * numbers, whatever text comes before it.
   */
  lemma {:induction false} ParsesFirstMatch(s: string, i: nat, j1: nat, h: nat, k: nat, j2: nat)
    requires PairMatch(s, i, j1, h, k, j2)
    requires j2 == |s| || !IsDigit(s[j2])
    requires forall m :: 0 <= m < i ==> PairAt(s, m).None?
    ensures ParseRange(Some(s)) == Some(Range(DecimalValue(s[i..j1]), DecimalValue(s[k..j2])))
  {
    DigitRunEndAt(s, k, j2);
    RegexAgreesWithScanner(s, i, j1, h, k, j2);
    FindsMatchAt(s, i);
  }

  /** When no earlier index starts a match, the leftmost match is at `i`. */
  lemma FindsMatchAt(s: string, i: nat)
    requires i <= |s| && PairAt(s, i).Some?
    requires forall m :: 0 <= m < i ==> PairAt(s, m).None?
    ensures FindPairIndex(s, 0) == Some(i)
  {
    FindPairIndexNone(s, 0);
    var at := FindPairIndex(s, 0);
    assert at.Some?;
    LeftmostIsUnique(s, at.value, i);
  }

  /** Two indices that both start the leftmost match are the same index. */
  lemma LeftmostIsUnique(s: string, a: nat, b: nat)
    requires a <= |s| && PairAt(s, a).Some? && forall m :: 0 <= m < a ==> PairAt(s, m).None?
    requires b <= |s| && PairAt(s, b).Some? && forall m :: 0 <= m < b ==> PairAt(s, m).None?
    ensures a == b
  {
  }

  /**
   * Text with no hyphenated pair anywhere parses to `{min: n, max: n}`, where
   * `n` is the value of the first run of digits, whatever follows it.
   */
  lemma ParsesFirstNumber(s: string, i: nat)
    requires NoPair(s)
    requires i < |s| && IsDigit(s[i])
    requires forall m :: 0 <= m < i ==> !IsDigit(s[m])
    ensures var n := DecimalValue(s[i..DigitRunEnd(s, i)]);
            ParseRange(Some(s)) == Some(Range(n, n))
  {
    FindPairIndexNone(s, 0);
    FindNumberAt(s, 0, i);
  }

  /** Where each piece of `p + A + w1 + "-" + w2 + B + q` sits. */
  lemma PairTextLayout(p: string, A: string, w1: string, w2: string, B: string, q: string)
    ensures var s := p + A + w1 + "-" + w2 + B + q;
      var e1 := |p| + |A|;
      var h := e1 + |w1|;
      var k := h + 1 + |w2|;
      var e2 := k + |B|;
      && s[..|p|] == p && s[|p|..e1] == A && s[e1..h] == w1 && s[h] == '-'
      && s[h + 1..k] == w2 && s[k..e2] == B && s[e2..] == q
  {
    var x1 := p + A;
    var x2 := x1 + w1;
    var x3 := x2 + "-";
    var x4 := x3 + w2;
    var x5 := x4 + B;
    var s := x5 + q;
    assert s[..|x5|] == x5;
    assert s[|x5|..] == q;
    assert s[|x4|..|x5|] == x5[|x4|..] == B;
    assert s[|x3|..|x4|] == x4[|x3|..] == w2;
    assert s[|x2|] == x3[|x2|] == '-';
    assert s[|x1|..|x2|] == x2[|x1|..] == w1;
    assert s[|p|..|x1|] == x1[|p|..] == A;
    assert s[..|p|] == x1[..|p|] == p;
  }

  /**
   * Text of the form `p + A + w1 + "-" + w2 + B + q`, with no digit in `p`,
   * digit strings `A` and `B`, whitespace only in `w1` and `w2`, and `q` not
   * continuing `B`'s digits, parses to `{min: A, max: B}` in that order, even
   * when A > B.
   */
  lemma {:induction false} ParsesHyphenatedPair(s: string, p: string, A: string, w1: string, w2: string, B: string, q: string)
    requires s == p + A + w1 + "-" + w2 + B + q
    requires |A| > 0 && |B| > 0 && AllDigits(A) && AllDigits(B)
    requires !HasDigit(p) && AllSpaces(w1) && AllSpaces(w2)
    requires |q| == 0 || !IsDigit(q[0])
    ensures ParseRange(Some(s)) == Some(Range(DecimalValue(A), DecimalValue(B)))
  {
    var i, e1 := |p|, |p| + |A|;
    var h := e1 + |w1|;
    var k := h + 1 + |w2|;
    var e2 := k + |B|;
    HyphenatedPairMatches(s, p, A, w1, w2, B, q);
    ParsesMatchOf(s, i, e1, h, k, e2, A, B);
  }

  /** `ParsesFirstMatch` with the two groups given as the strings `A` and `B`. */
  lemma ParsesMatchOf(s: string, i: nat, j1: nat, h: nat, k: nat, j2: nat, A: string, B: string)
    requires PairMatch(s, i, j1, h, k, j2)
    requires j2 == |s| || !IsDigit(s[j2])
    requires forall m :: 0 <= m < i ==> !IsDigit(s[m])
    requires s[i..j1] == A && s[k..j2] == B && AllDigits(A) && AllDigits(B)
    ensures ParseRange(Some(s)) == Some(Range(DecimalValue(A), DecimalValue(B)))
  {
    assert forall m :: 0 <= m < i ==> PairAt(s, m).None?;
    ParsesFirstMatch(s, i, j1, h, k, j2);
  }

  /** The pieces of `p + A + w1 + "-" + w2 + B + q` form a match of the regular expression at `|p|`. */
  lemma HyphenatedPairMatches(s: string, p: string, A: string, w1: string, w2: string, B: string, q: string)
    requires s == p + A + w1 + "-" + w2 + B + q
    requires |A| > 0 && |B| > 0 && AllDigits(A) && AllDigits(B)
    requires !HasDigit(p) && AllSpaces(w1) && AllSpaces(w2)
    requires |q| == 0 || !IsDigit(q[0])
    ensures var e1 := |p| + |A|; var h := e1 + |w1|; var k := h + 1 + |w2|; var e2 := k + |B|;
            && PairMatch(s, |p|, e1, h, k, e2)
            && s[|p|..e1] == A && s[k..e2] == B
            && (e2 == |s| || !IsDigit(s[e2]))
            && (forall m :: 0 <= m < |p| ==> !IsDigit(s[m]))
  {
    var i, e1 := |p|, |p| + |A|;
    var h := e1 + |w1|;
    var k := h + 1 + |w2|;
    var e2 := k + |B|;
    PairTextLayout(p, A, w1, w2, B, q);
    forall m | i <= m < e1 ensures IsDigit(s[m]) { assert s[m] == s[i..e1][m - i]; }
    forall m | e1 <= m < h ensures IsSpace(s[m]) { assert s[m] == s[e1..h][m - e1]; }
    forall m | h + 1 <= m < k ensures IsSpace(s[m]) { assert s[m] == s[h + 1..k][m - h - 1]; }
    forall m | k <= m < e2 ensures IsDigit(s[m]) { assert s[m] == s[k..e2][m - k]; }
    forall m | 0 <= m < i ensures !IsDigit(s[m]) { assert s[m] == s[..i][m]; }
    if e2 < |s| {
      assert s[e2] == s[e2..][0];
    }
  }

  /**
   * Printing `a` and `b` around a dash, as the breed card does, and parsing
   * the text back returns `{min: a, max: b}`.
   */
  lemma ParsesPrintedPair(p: string, a: nat, w1: string, w2: string, b: nat, q: string)
    requires !HasDigit(p) && AllSpaces(w1) && AllSpaces(w2)
    requires |q| == 0 || !IsDigit(q[0])
    ensures ParseRange(Some(p + NatToString(a) + w1 + "-" + w2 + NatToString(b) + q)) == Some(Range(a, b))
  {
    var s := p + NatToString(a) + w1 + "-" + w2 + NatToString(b) + q;
    ParsesHyphenatedPair(s, p, NatToString(a), w1, w2, NatToString(b), q);
    DecimalOfNatToString(a);
    DecimalOfNatToString(b);
  }

  /** Text with exactly one run of digits, `p + N + q`, parses to `{min: n, max: n}`. */
  lemma ParsesSingleNumber(p: string, n: nat, q: string)
    requires !HasDigit(p) && !HasDigit(q)
    ensures ParseRange(Some(p + NatToString(n) + q)) == Some(Range(n, n))
  {
    var N := NatToString(n);
    var s := p + N + q;
    var i, e := |p|, |p| + |N|;
    forall m | 0 <= m < i ensures !IsDigit(s[m]) { assert s[m] == p[m]; }
    forall m | i <= m < e ensures IsDigit(s[m]) { assert s[m] == N[m - i]; }
    forall m | e <= m < |s| ensures !IsDigit(s[m]) { assert s[m] == q[m - e]; }
    forall m | 0 <= m <= |s| ensures PairAt(s, m).None? {
      if m < |s| && IsDigit(s[m]) {
        DigitRunEndAt(s, m, e);
      }
    }
    DigitRunEndAt(s, i, e);
    assert s[i..e] == N;
    DecimalOfNatToString(n);
    assert IsDigit(s[i]);
  }

  /** The digit strings of the examples below. */
  lemma ExampleDecimals()
    ensures DecimalValue("10") == 10 && DecimalValue("20") == 20 && DecimalValue("30") == 30
  {
  }

  /** "10-20" parses to {min: 10, max: 20}. */
  lemma ExampleCompactPair()
    ensures ParseRange(Some("10-20")) == Some(Range(10, 20))
  {
    ParsesHyphenatedPair("10-20", "", "10", "", "", "20", "");
    ExampleDecimals();
  }

  /** "30 - 20" parses to {min: 30, max: 20}: the order of the text is kept. */
  lemma ExampleDescendingPair()
    ensures ParseRange(Some("30 - 20")) == Some(Range(30, 20))
  {
    ParsesHyphenatedPair("30 - 20", "", "30", " ", " ", "20", "");
    ExampleDecimals();
  }

  /** "1 to 10-20" parses to {min: 10, max: 20}: the leftmost pair wins over an earlier lone number. */
  lemma ExampleNumberBeforePair()
    ensures ParseRange(Some("1 to 10-20")) == Some(Range(10, 20))
  {
    var s := "1 to 10-20";
    NumberBeforePairLayout();
    assert forall m :: 0 <= m < 5 ==> PairAt(s, m).None?;
    ExampleDecimals();
    ParsesFirstMatch(s, 5, 7, 7, 8, 10);
  }

  /** Where the lone number and the pair of "1 to 10-20" sit. */
  lemma NumberBeforePairLayout()
    ensures var s := "1 to 10-20";
            && PairAt(s, 0).None? && (forall m :: 1 <= m < 5 ==> !IsDigit(s[m]))
            && PairMatch(s, 5, 7, 7, 8, 10) && s[5..7] == "10" && s[8..10] == "20"
  {
    var s := "1 to 10-20";
    assert DigitRunEnd(s, 1) == 1;
    assert DigitRunEnd(s, 0) == 1;
    assert SpaceRunEnd(s, 2) == 2;
    assert SpaceRunEnd(s, 1) == 2;
  }

  /** "5 or 6" parses to {min: 5, max: 5}: without a pair the first number is taken. */
  lemma ExampleTwoNumbers()
    ensures ParseRange(Some("5 or 6")) == Some(Range(5, 5))
  {
    var s := "5 or 6";
    assert DigitRunEnd(s, 1) == 1;
    assert DigitRunEnd(s, 0) == 1;
    assert SpaceRunEnd(s, 2) == 2;
    assert SpaceRunEnd(s, 1) == 2;
    assert DigitRunEnd(s, 6) == 6;
    assert DigitRunEnd(s, 5) == 6;
    assert NoPair(s);
    assert s[0..1] == "5";
    assert DecimalValue("5") == 5;
    ParsesFirstNumber(s, 0);
  }

  /** "15" parses to {min: 15, max: 15}. */
  lemma ExampleSingle()
    ensures ParseRange(Some("15")) == Some(Range(15, 15))
  {
    assert NatToString(15) == "15";
    ParsesSingleNumber("", 15, "");
    assert "" + "15" + "" == "15";
  }

  /** "varies" has no digit and parses to null. */
  lemma ExampleNoDigit()
    ensures ParseRange(Some("varies")) == None
  {
    var v := "varies";
    assert forall i :: 0 <= i < |v| ==> !IsDigit(v[i]);
  }
}
