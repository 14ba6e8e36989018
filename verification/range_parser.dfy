/**
 * The weight/height range parser of the breed ingestion. It reads the
 * metric measurement text of the Dog API ("23 - 27", "30", "") with two
 * regular expressions: first `(\d+)\s*-\s*(\d+)`, then `(\d+)`.
 */
module RangeParser {
  import opened Wrappers
  import opened Text

  /** `{min, max}` as read, in textual order (never re-sorted). */
  datatype Range = Range(min: nat, max: nat)

  /** End of the run of digits that starts at `i` (`i` itself when `s[i]` is not a digit). */
  function DigitRunEnd(s: string, i: nat): (j: nat)
    requires i <= |s|
    ensures i <= j <= |s|
    ensures forall k :: i <= k < j ==> IsDigit(s[k])
    ensures j == |s| || !IsDigit(s[j])
    decreases |s| - i
  {
    if i < |s| && IsDigit(s[i]) then DigitRunEnd(s, i + 1) else i
  }

  /** End of the run of `\s` characters that starts at `i`. */
  function SpaceRunEnd(s: string, i: nat): (j: nat)
    requires i <= |s|
    ensures i <= j <= |s|
    ensures forall k :: i <= k < j ==> IsSpace(s[k])
    ensures j == |s| || !IsSpace(s[j])
    decreases |s| - i
  {
    if i < |s| && IsSpace(s[i]) then SpaceRunEnd(s, i + 1) else i
  }

  /** A run of digits from `i` to a non-digit `j` ends at `j`. */
  lemma {:induction false} DigitRunEndAt(s: string, i: nat, j: nat)
    requires i <= j <= |s|
    requires forall k :: i <= k < j ==> IsDigit(s[k])
    requires j == |s| || !IsDigit(s[j])
    ensures DigitRunEnd(s, i) == j
    decreases j - i
  {
    if i < j {
      DigitRunEndAt(s, i + 1, j);
    }
  }

  /** A run of whitespace from `i` to a non-space `j` ends at `j`. */
  lemma {:induction false} SpaceRunEndAt(s: string, i: nat, j: nat)
    requires i <= j <= |s|
    requires forall k :: i <= k < j ==> IsSpace(s[k])
    requires j == |s| || !IsSpace(s[j])
    ensures SpaceRunEnd(s, i) == j
    decreases j - i
  {
    if i < j {
      SpaceRunEndAt(s, i + 1, j);
    }
  }

  /** Where a match sits: group 1 is `s[i..e1]`, the dash is at `h`, group 2 is `s[k..e2]`. */
  datatype Span = Span(e1: nat, h: nat, k: nat, e2: nat)

  /**
   * `(\d+)\s*-\s*(\d+)` tried at index `i` alone. Each part is read
   * greedily: the digits from `i`, the whitespace after them, a dash, the
   * whitespace after it, and the longest run of digits that follows.
   */
  function PairAt(s: string, i: nat): Option<Span>
    requires i <= |s|
  {
    if i < |s| && IsDigit(s[i]) then
      var e1 := DigitRunEnd(s, i);
      var h := SpaceRunEnd(s, e1);
      if h < |s| && s[h] == '-' then
        var k := SpaceRunEnd(s, h + 1);
        if k < |s| && IsDigit(s[k]) then Some(Span(e1, h, k, DigitRunEnd(s, k)))
        else None
      else None
    else None
  }

  /**
   * The shape of a match at `i`: a digit at `i` starts group 1, the dash
   * follows it, group 2 starts with a digit after the dash and ends at a
   * non-digit or at the end of the text.
   */
  lemma PairAtShape(s: string, i: nat)
    requires i <= |s| && PairAt(s, i).Some?
    ensures var p := PairAt(s, i).value;
            && i < p.e1 <= p.h < p.k < p.e2 <= |s|
            && IsDigit(s[i]) && s[p.h] == '-' && IsDigit(s[p.k])
            && (p.e2 == |s| || !IsDigit(s[p.e2]))
  {
  }

  /**
   * The regular expression's own reading: group 1 is `s[i..j1]`, the dash
   * is at `h`, group 2 is `s[k..j2]`, whitespace in between.
   */
  ghost predicate PairMatch(s: string, i: nat, j1: nat, h: nat, k: nat, j2: nat)
  {
    && i < j1 <= h < k < j2 <= |s|
    && (forall m :: i <= m < j1 ==> IsDigit(s[m]))
    && (forall m :: j1 <= m < h ==> IsSpace(s[m]))
    && s[h] == '-'
    && (forall m :: h + 1 <= m < k ==> IsSpace(s[m]))
    && (forall m :: k <= m < j2 ==> IsDigit(s[m]))
  }

  /** Whatever the scanner returns is a match of the regular expression. */
  lemma ScannerFindsRegexMatch(s: string, i: nat)
    requires i <= |s| && PairAt(s, i).Some?
    ensures var m := PairAt(s, i).value; PairMatch(s, i, m.e1, m.h, m.k, m.e2)
  {
  }

  /** The two numbers of a match, `{min: group 1, max: group 2}`. */
  function PairValue(s: string, i: nat, m: Span): Range
    requires PairMatch(s, i, m.e1, m.h, m.k, m.e2)
  {
    Range(DecimalValue(s[i..m.e1]), DecimalValue(s[m.k..m.e2]))
  }

  /** A run of digits from `i` to `j` lies inside the run the scanner reads from `i`. */
  lemma {:induction false} DigitRunEndIsLongest(s: string, i: nat, j: nat)
    requires i <= j <= |s|
    requires forall k :: i <= k < j ==> IsDigit(s[k])
    ensures j <= DigitRunEnd(s, i)
    decreases j - i
  {
    if i < j {
      DigitRunEndIsLongest(s, i + 1, j);
    }
  }

  /** No character is both a digit, a dash and whitespace. */
  lemma CharClassesDisjoint(c: char)
    ensures IsDigit(c) ==> !IsSpace(c) && c != '-'
    ensures IsSpace(c) ==> c != '-'
  {
  }

  /**
   * Where JavaScript `s.match(/(\d+)\s*-\s*(\d+)/)` matches: the leftmost
   * index (from `from` on) at which the pattern matches, if any.
   */
  function FindPairIndex(s: string, from: nat): (r: Option<nat>)
    requires from <= |s|
    ensures r.Some? ==> && from <= r.value <= |s| && PairAt(s, r.value).Some?
                        && forall m :: from <= m < r.value ==> PairAt(s, m).None?
    decreases |s| - from
  {
    if from == |s| then None
    else if PairAt(s, from).Some? then Some(from)
    else FindPairIndex(s, from + 1)
  }

  /** The search finds nothing exactly when no index from `from` on starts a match. */
  lemma {:induction false} FindPairIndexNone(s: string, from: nat)
    requires from <= |s|
    ensures FindPairIndex(s, from).None? <==> forall i :: from <= i <= |s| ==> PairAt(s, i).None?
    decreases |s| - from
  {
    if from < |s| && PairAt(s, from).None? {
      FindPairIndexNone(s, from + 1);
    }
  }

  /**
   * JavaScript `s.match(/(\d+)/)`: the value of the leftmost, longest run of
   * digits (from `from` on).
   */
  function FindNumber(s: string, from: nat): (r: Option<nat>)
    requires from <= |s|
    ensures r.None? <==> forall i :: from <= i < |s| ==> !IsDigit(s[i])
    ensures r.Some? ==> exists i :: from <= i < |s| && IsDigit(s[i])
                          && (forall m :: from <= m < i ==> !IsDigit(s[m]))
                          && r.value == DecimalValue(s[i..DigitRunEnd(s, i)])
    decreases |s| - from
  {
    if from == |s| then None
    else if IsDigit(s[from]) then Some(DecimalValue(s[from..DigitRunEnd(s, from)]))
    else FindNumber(s, from + 1)
  }

  /** From `from` on, the first digit is at `i`: the search returns the value of the run starting there. */
  lemma {:induction false} FindNumberAt(s: string, from: nat, i: nat)
    requires from <= i < |s| && IsDigit(s[i])
    requires forall m :: from <= m < i ==> !IsDigit(s[m])
    ensures FindNumber(s, from) == Some(DecimalValue(s[i..DigitRunEnd(s, i)]))
    decreases i - from
  {
    if from < i {
      FindNumberAt(s, from + 1, i);
    }
  }

  /** No index of `s` starts a hyphenated pair. */
  ghost predicate NoPair(s: string)
  {
    forall i :: 0 <= i <= |s| ==> PairAt(s, i).None?
  }

  /**
   * `parseWeightRange` and `parseHeightRange` (the two are the same code):
   * absent or empty text gives null; a hyphenated pair gives its two numbers
   * in textual order; otherwise the first number gives `{min: n, max: n}`;
   * text without a digit gives null.
   */
  function ParseRange(text: Option<string>): (r: Option<Range>)
    ensures r.None? <==> text.None? || !HasDigit(text.value)
    ensures r.Some? && NoPair(text.value) ==> r.value.min == r.value.max
  {
    if text.None? || text.value == "" then None
    else
      var s := text.value;
      var at := FindPairIndex(s, 0);
      FindPairIndexNone(s, 0);
      if at.Some? then
        ScannerFindsRegexMatch(s, at.value);
        assert IsDigit(s[at.value]);
        Some(PairValue(s, at.value, PairAt(s, at.value).value))
      else
        match FindNumber(s, 0)
        case Some(n) => Some(Range(n, n))
        case None => None
  }
}
