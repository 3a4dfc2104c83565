/**
 * Reading a number of years out of the free-text `periode` of one CV
 * experience (ai-recrutement-backend/app/utils/scoring.py, lines 44-62).
 *
 * The two regular expressions of the source are written out as scanners:
 *   - `re.findall(r'\b(20\d{2})\b', periode)`: every stand-alone 20xx year;
 *   - `re.search(r'(\d+)\s*an', periode.lower())`: the first run of digits
 *     followed by optional whitespace and "an" ("3 ans", "2 années", "5an").
 * Digits are ASCII digits and word characters are those of the ASCII and
 * Latin-1 ranges.
 */
module Periods {
  import opened Wrappers
  import opened Strings

  /** The regex class `\w` on the ASCII and Latin-1 range. */
  predicate IsWordChar(c: char) {
    || ('a' <= c <= 'z') || ('A' <= c <= 'Z') || IsDigit(c) || c == '_'
    || c == '\U{aa}' || c == '\U{b2}' || c == '\U{b3}' || c == '\U{b5}' || c == '\U{b9}' || c == '\U{ba}'
    || ('\U{bc}' <= c <= '\U{be}')
    || ('\U{c0}' <= c <= '\U{ff}' && c != '\U{d7}' && c != '\U{f7}')
  }

  /** `\b(20\d{2})\b` matches at position `i`. */
  predicate YearAt(s: string, i: int) {
    && 0 <= i && i + 4 <= |s|
    && s[i] == '2' && s[i + 1] == '0' && IsDigit(s[i + 2]) && IsDigit(s[i + 3])
    && (i == 0 || !IsWordChar(s[i - 1]))
    && (i + 4 == |s| || !IsWordChar(s[i + 4]))
  }

  /** The integer value of the year matched at `i`. */
  function YearValue(s: string, i: int): (y: nat)
    requires YearAt(s, i)
    ensures 2000 <= y <= 2099
  {
    2000 + 10 * DigitValue(s[i + 2]) + DigitValue(s[i + 3])
  }

  /** `re.findall` of the year pattern, scanning from position `i`; the scan
      resumes after each match, so matches never overlap. */
  function YearsFrom(s: string, i: nat): (r: seq<nat>)
    ensures forall k :: 0 <= k < |r| ==> 2000 <= r[k] <= 2099
    ensures (forall k :: i <= k < |s| ==> !YearAt(s, k)) ==> r == []
    ensures YearAt(s, i) ==> |r| >= 1 && r[0] == YearValue(s, i)
    decreases |s| - i
  {
    if i + 4 > |s| then []
    else if YearAt(s, i) then [YearValue(s, i)] + YearsFrom(s, i + 4)
    else YearsFrom(s, i + 1)
  }

  /** Every 20xx year written as a word of its own in `s`, in order. */
  function Years(s: string): seq<nat> {
    YearsFrom(s, 0)
  }

  /** Positions where the year pattern cannot match may be skipped. */
  lemma {:induction false} YearsSkip(s: string, i: nat, j: nat)
    requires i <= j
    requires forall k :: i <= k < j ==> !YearAt(s, k)
    ensures YearsFrom(s, i) == YearsFrom(s, j)
    decreases j - i
  {
    if i < j && i + 4 <= |s| {
      YearsSkip(s, i + 1, j);
    }
  }

  /** The end of the run of digits starting at `i`. */
  function DigitRunEnd(s: string, i: nat): (j: nat)
    requires i <= |s|
    ensures i <= j <= |s|
    ensures forall k :: i <= k < j ==> IsDigit(s[k])
    ensures j == |s| || !IsDigit(s[j])
    decreases |s| - i
  {
    if i < |s| && IsDigit(s[i]) then DigitRunEnd(s, i + 1) else i
  }

  /** The end of the run of whitespace starting at `i`. */
  function SpaceRunEnd(s: string, i: nat): (j: nat)
    requires i <= |s|
    ensures i <= j <= |s|
    ensures forall k :: i <= k < j ==> IsSpace(s[k])
    ensures j == |s| || !IsSpace(s[j])
    decreases |s| - i
  {
    if i < |s| && IsSpace(s[i]) then SpaceRunEnd(s, i + 1) else i
  }

  /** A run that ends where the digits stop is the run `DigitRunEnd` finds. */
  lemma {:induction false} DigitRunEndIs(s: string, i: nat, j: nat)
    requires i <= j <= |s|
    requires forall k :: i <= k < j ==> IsDigit(s[k])
    requires j == |s| || !IsDigit(s[j])
    ensures DigitRunEnd(s, i) == j
    decreases j - i
  {
    if i < j {
      DigitRunEndIs(s, i + 1, j);
    }
  }

  /** `re.search(r'(\d+)\s*an', s)` from position `i`, as the integer of the
      captured digits. The leftmost match always starts at the first digit
      of a run, and its digits are the whole run, so runs are tried in order
      and a run that fails is skipped as a whole. */
  function AnCountFrom(s: string, i: nat): (r: Option<nat>)
    requires i <= |s|
    decreases |s| - i
  {
    if i == |s| then None
    else if IsDigit(s[i]) then
      var j := DigitRunEnd(s, i);
      var k := SpaceRunEnd(s, j);
      if "an" <= s[k..] then Some(DigitsValue(s[i..j])) else AnCountFrom(s, j)
    else AnCountFrom(s, i + 1)
  }

  /** Positions that hold no digit may be skipped. */
  lemma {:induction false} AnCountSkip(s: string, i: nat, j: nat)
    requires i <= j <= |s|
    requires forall k :: i <= k < j ==> !IsDigit(s[k])
    ensures AnCountFrom(s, i) == AnCountFrom(s, j)
    decreases j - i
  {
    if i < j {
      AnCountSkip(s, i + 1, j);
    }
  }

  /** The years one `periode` contributes: the span between its first and
      last 20xx year (never negative) plus the "N an" count; both heuristics
      add when both apply. An empty period contributes nothing. */
  function PeriodYears(periode: string): nat {
    if periode == "" then 0
    else
      var ys := Years(periode);
      var span := if |ys| >= 2 && ys[|ys| - 1] > ys[0] then ys[|ys| - 1] - ys[0] else 0;
      var count := AnCountFrom(Lower(periode), 0).GetOr(0);
      span + count
  }

  /** A four-character 20xx year. */
  predicate IsYearText(a: string) {
    |a| == 4 && a[0] == '2' && a[1] == '0' && IsDigit(a[2]) && IsDigit(a[3])
  }

  function YearOf(a: string): nat
    requires IsYearText(a)
  {
    2000 + 10 * DigitValue(a[2]) + DigitValue(a[3])
  }

  /** Characters that change under `LowerChar` are all word characters, so
      text made of digits and non-word characters lower-cases to itself. */
  lemma LowerKeeps(s: string)
    requires forall i :: 0 <= i < |s| ==> IsDigit(s[i]) || !IsWordChar(s[i]) || ('a' <= s[i] <= 'z')
    ensures Lower(s) == s
  {
  }

  /** A year range is built from a year, a separator without word
      characters, and a year. */
  predicate IsYearRange(a: string, sep: string, b: string) {
    && IsYearText(a) && IsYearText(b)
    && |sep| > 0 && forall i :: 0 <= i < |sep| ==> !IsWordChar(sep[i])
  }

  /** In a year range, the year pattern finds exactly the two years. */
  lemma YearRangeYears(a: string, sep: string, b: string)
    requires IsYearRange(a, sep, b)
    ensures Years(a + sep + b) == [YearOf(a), YearOf(b)]
  {
    var s := a + sep + b;
    var m := |a| + |sep|;
    assert forall i :: 0 <= i < |sep| ==> s[4 + i] == sep[i];
    assert forall i :: 0 <= i < 4 ==> s[i] == a[i] && s[m + i] == b[i];
    assert YearAt(s, 0);
    YearsSkip(s, 4, m);
    assert YearAt(s, m);
  }

  /** In a year range, no run of digits is followed by "an". */
  lemma YearRangeNoCount(a: string, sep: string, b: string)
    requires IsYearRange(a, sep, b)
    ensures AnCountFrom(Lower(a + sep + b), 0) == None
  {
    var s := a + sep + b;
    var m := |a| + |sep|;
    YearRangeLayout(a, sep, b);
    LowerKeeps(s);
    DigitRunEndIs(s, 0, 4);
    AnCountSkip(s, 4, m);
    DigitRunEndIs(s, m, |s|);
    assert AnCountFrom(s, 0) == AnCountFrom(s, 4);
  }

  /** A year range holds four digits, a separator of non-word characters,
      then four digits. */
  lemma YearRangeLayout(a: string, sep: string, b: string)
    requires IsYearRange(a, sep, b)
    ensures var s := a + sep + b;
      var m := |a| + |sep|;
      && |s| == m + 4 && m > 4
      && (forall k :: 0 <= k < 4 ==> IsDigit(s[k]))
      && (forall k :: 4 <= k < m ==> !IsWordChar(s[k]))
      && (forall k :: m <= k < |s| ==> IsDigit(s[k]))
  {
    var s := a + sep + b;
    var m := |a| + |sep|;
    assert forall i :: 0 <= i < |sep| ==> s[4 + i] == sep[i];
    assert forall i :: 0 <= i < 4 ==> s[i] == a[i] && s[m + i] == b[i];
    forall k | 4 <= k < m
      ensures !IsWordChar(s[k])
    {
      assert s[k] == sep[k - 4];
    }
    forall k | m <= k < |s|
      ensures IsDigit(s[k])
    {
      assert s[k] == b[k - m];
    }
  }

  /** A range "2019-2023" (any separator without word characters, such as
      " - " or an en dash) gives the span between the two years, and 0 when
      the range runs backwards; the "N an" heuristic adds nothing to it. */
  lemma YearRange(a: string, sep: string, b: string)
    requires IsYearRange(a, sep, b)
    ensures PeriodYears(a + sep + b) == if YearOf(b) > YearOf(a) then YearOf(b) - YearOf(a) else 0
  {
    YearRangeYears(a, sep, b);
    YearRangeNoCount(a, sep, b);
  }

  /** When the year pattern can match at one position at most, at most one
      year is found. */
  lemma AtMostOneYear(s: string, p: nat)
    requires forall k :: 0 <= k < |s| && k != p ==> !YearAt(s, k)
    ensures |Years(s)| <= 1
  {
    if p < |s| {
      YearsSkip(s, 0, p);
      if YearAt(s, p) {
        YearsSkip(s, p + 4, |s|);
      } else {
        YearsSkip(s, p + 1, |s|);
      }
    }
  }

  /** The leftmost "N an" in `pre + digits + " an..."` is `digits`, when
      `pre` holds no digit. */
  lemma AnCountAfter(s: string, p: nat, q: nat)
    requires p < q && q + 2 < |s|
    requires forall k :: 0 <= k < p ==> !IsDigit(s[k])
    requires forall k :: p <= k < q ==> IsDigit(s[k])
    requires s[q] == ' ' && s[q + 1] == 'a' && s[q + 2] == 'n'
    ensures AllDigits(s[p..q]) && AnCountFrom(s, 0) == Some(DigitsValue(s[p..q]))
  {
    AnCountSkip(s, 0, p);
    DigitRunEndIs(s, p, q);
    assert SpaceRunEnd(s, q) == q + 1 by {
      assert SpaceRunEnd(s, q + 1) == q + 1;
    }
    assert "an" <= s[q + 1..];
  }

  /** `str(n) + " ans"` reads back as |n| years: a negative number loses its
      sign, because the regex skips the minus. */
  lemma IntAnsPeriod(n: int)
    ensures PeriodYears(IntToString(n) + " ans") == if n < 0 then -n else n
  {
    var s := IntToString(n) + " ans";
    var p := if n < 0 then 1 else 0;
    var q := |IntToString(n)|;
    IntAnsShape(n);
    SignedDigitsAns(s, p, q);
    AtMostOneYear(s, p);
    LowerKeeps(s);
    AnCountAfter(s, p, q);
  }

  /** `str(n) + " ans"` is an optional minus, the digits of |n|, then " ans". */
  lemma IntAnsShape(n: int)
    ensures var d := IntToString(n);
      var s := d + " ans";
      var p := if n < 0 then 1 else 0;
      && p < |d| && |s| == |d| + 4 && s[|d|..] == " ans"
      && (forall k :: 0 <= k < p ==> s[k] == '-')
      && (forall k :: p <= k < |d| ==> IsDigit(s[k]))
      && AllDigits(s[p..|d|]) && DigitsValue(s[p..|d|]) == (if n < 0 then -n else n)
  {
    var d := IntToString(n);
    var s := d + " ans";
    var p := if n < 0 then 1 else 0;
    var q := |d|;
    assert d[p..] == s[p..q];
    forall k | p <= k < q
      ensures IsDigit(s[k])
    {
      assert s[k] == d[p..][k - p];
    }
  }

  /** In an optional minus, a run of digits and " ans", the year pattern can
      match only where the digits start, and no character is an upper-case
      letter. */
  lemma SignedDigitsAns(s: string, p: nat, q: nat)
    requires p <= 1 && p < q && |s| == q + 4 && s[q..] == " ans"
    requires forall k :: 0 <= k < p ==> s[k] == '-'
    requires forall k :: p <= k < q ==> IsDigit(s[k])
    ensures forall k :: 0 <= k < |s| && k != p ==> !YearAt(s, k)
    ensures forall i :: 0 <= i < |s| ==> IsDigit(s[i]) || !IsWordChar(s[i]) || ('a' <= s[i] <= 'z')
  {
    forall k | 0 <= k < |s| && k != p
      ensures !YearAt(s, k)
    {
      if k < p {
        assert s[k] == '-';
      } else if k < q {
        assert IsDigit(s[k - 1]);
      } else {
        assert s[k] == s[q..][k - q];
      }
    }
    forall i | q <= i < |s|
      ensures !IsWordChar(s[i]) || ('a' <= s[i] <= 'z')
    {
      assert s[i] == s[q..][i - q];
    }
  }
}
