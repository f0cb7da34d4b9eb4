/** Strings as the crawler and the statistics engine see them: Python's
    `str.isdigit`, `str.zfill(2)`, `s[-2:]`, `str.lower`, `"{:02d}"`
    formatting, `" ".join` and the numeric `re.findall` patterns
    `\b\d{2}\b` and `\b\d{2,5}\b`. */
module Text {

  // ---------------------------------------------------------------------
  // Character classes
  // ---------------------------------------------------------------------

  predicate IsDigit(c: char) { '0' <= c <= '9' }

  /** Python's `str.isdigit()` on ASCII text: non-empty and all digits. */
  predicate IsDigits(s: string) {
    |s| > 0 && forall i :: 0 <= i < |s| ==> IsDigit(s[i])
  }

  /** A tail: exactly two digit characters, "00".."99". */
  predicate IsTwoDigits(s: string) { |s| == 2 && IsDigits(s) }

  /** Python's `\w`, restricted to ASCII. */
  predicate IsWordChar(c: char) {
    IsDigit(c) || 'a' <= c <= 'z' || 'A' <= c <= 'Z' || c == '_'
  }

  // ---------------------------------------------------------------------
  // Decimal formatting
  // ---------------------------------------------------------------------

  function DigitChar(d: nat): (c: char)
    requires d < 10
    ensures IsDigit(c)
  {
    (('0' as int) + d) as char
  }

  function DigitValue(c: char): (d: nat)
    requires IsDigit(c)
    ensures d < 10
  {
    (c as int) - ('0' as int)
  }

  lemma DigitRoundTrip(d: nat, c: char)
    requires d < 10 && IsDigit(c)
    ensures DigitValue(DigitChar(d)) == d
    ensures DigitChar(DigitValue(c)) == c
  {
  }

  function Pow10(k: nat): (p: nat)
    ensures p >= 1
  {
    if k == 0 then 1 else 10 * Pow10(k - 1)
  }

  /** Python's `str(n)` for a non-negative integer. */
  function NatToString(n: nat): (s: string)
    ensures IsDigits(s)
  {
    if n < 10 then [DigitChar(n)] else NatToString(n / 10) + [DigitChar(n % 10)]
  }

  /** Python's `int(s)` for a string of digits. */
  function DigitsValue(s: string): nat
    requires forall i :: 0 <= i < |s| ==> IsDigit(s[i])
  {
    if s == [] then 0 else 10 * DigitsValue(s[..|s| - 1]) + DigitValue(s[|s| - 1])
  }

  /** Python's `s.zfill(2)` for a string without a sign. */
  function ZFill2(s: string): (r: string)
    ensures |r| >= 2
  {
    if |s| >= 2 then s else if |s| == 1 then "0" + s else "00"
  }

  /** Python's `s[-2:]`: the last two characters, or all of a shorter s. */
  function LastTwo(s: string): string {
    if |s| >= 2 then s[|s| - 2..] else s
  }

  /** Python's `f"{n:02d}"` for a non-negative integer. */
  function Format02(n: nat): string {
    ZFill2(NatToString(n))
  }

  lemma {:induction false} NatToStringValue(n: nat)
    ensures DigitsValue(NatToString(n)) == n
  {
    if n >= 10 {
      var s := NatToString(n);
      assert s[..|s| - 1] == NatToString(n / 10);
      NatToStringValue(n / 10);
    }
  }

  /** A number whose decimal form has k digits is below 10^k. */
  lemma {:induction false} NatToStringBelow(n: nat)
    ensures n < Pow10(|NatToString(n)|)
  {
    if n >= 10 {
      NatToStringBelow(n / 10);
    }
  }

  /** Numbers below 100 format as two digits and read back as themselves. */
  lemma Format02RoundTrip(n: nat)
    requires n < 100
    ensures IsTwoDigits(Format02(n))
    ensures DigitsValue(Format02(n)) == n
  {
    var s := Format02(n);
    if n < 10 {
      DigitRoundTrip(n, '0');
      assert s == [DigitChar(0), DigitChar(n)];
      assert s[..1] == [DigitChar(0)];
      assert s[..1][..0] == [];
      assert DigitsValue(s[..1]) == 0;
    } else {
      DigitRoundTrip(n / 10, '0');
      DigitRoundTrip(n % 10, '0');
      assert NatToString(n / 10) == [DigitChar(n / 10)];
      assert s == [DigitChar(n / 10), DigitChar(n % 10)];
      assert s[..1] == [DigitChar(n / 10)];
      assert s[..1][..0] == [];
      assert DigitsValue(s[..1]) == n / 10;
    }
  }

  /** Two-digit strings read as a number and formatted again come back unchanged. */
  lemma TwoDigitsRoundTrip(s: string)
    requires IsTwoDigits(s)
    ensures DigitsValue(s) < 100
    ensures Format02(DigitsValue(s)) == s
  {
    assert s[..1] == [s[0]];
    assert s[..1][..0] == [];
    var a, b := DigitValue(s[0]), DigitValue(s[1]);
    DigitRoundTrip(a, s[0]);
    DigitRoundTrip(b, s[1]);
    assert DigitsValue(s[..1]) == a;
    assert DigitsValue(s) == 10 * a + b;
    if a == 0 {
      assert NatToString(b) == [DigitChar(b)];
      assert Format02(b) == "0" + [DigitChar(b)];
    } else {
      assert NatToString(10 * a + b) == [DigitChar(a)] + [DigitChar(b)];
    }
  }

  lemma DigitsValueOfPair(a: char, b: char)
    requires IsDigit(a) && IsDigit(b)
    ensures DigitsValue([a, b]) == 10 * DigitValue(a) + DigitValue(b)
  {
    var l := [a, b];
    assert l[..1] == [a] && l[..1][..0] == [];
    assert DigitsValue([a]) == 10 * DigitsValue([]) + DigitValue(a);
    assert DigitsValue(l) == 10 * DigitsValue(l[..1]) + DigitValue(l[1]);
  }

  lemma DigitsValueSplit(p: string)
    requires |p| >= 2 && IsDigits(p)
    ensures DigitsValue(p) == 100 * DigitsValue(p[..|p| - 2]) + DigitsValue(p[|p| - 2..])
  {
    var n := |p|;
    var init := p[..n - 1];
    assert init[..n - 2] == p[..n - 2];
    assert DigitsValue(init) == 10 * DigitsValue(p[..n - 2]) + DigitValue(p[n - 2]);
    assert p[n - 2..] == [p[n - 2], p[n - 1]];
    DigitsValueOfPair(p[n - 2], p[n - 1]);
  }

  lemma HundredsRemainder(v: nat, x: nat, y: nat)
    requires v == 100 * x + y && y < 100
    ensures v % 100 == y
  {
  }

  lemma TailValueOfDigit(p: string)
    requires IsDigits(p) && |p| == 1
    ensures IsTwoDigits(LastTwo(ZFill2(p)))
    ensures DigitsValue(LastTwo(ZFill2(p))) == DigitsValue(p) % 100
  {
    var t := LastTwo(ZFill2(p));
    assert t == ['0', p[0]];
    assert p[..0] == [];
    assert DigitsValue(p) == DigitValue(p[0]);
    DigitsValueOfPair('0', p[0]);
  }

  lemma LastTwoOfNumber(p: string)
    requires |p| >= 2
    ensures LastTwo(ZFill2(p)) == [p[|p| - 2], p[|p| - 1]]
  {
  }

  lemma TailValueOfNumber(p: string)
    requires IsDigits(p) && |p| >= 2
    ensures IsTwoDigits([p[|p| - 2], p[|p| - 1]])
    ensures DigitsValue(p) % 100 == DigitsValue([p[|p| - 2], p[|p| - 1]])
  {
    var n := |p|;
    var last := [p[n - 2], p[n - 1]];
    assert last[0] == p[n - 2] && last[1] == p[n - 1];
    DigitsValueOfPair(p[n - 2], p[n - 1]);
    assert p[n - 2..] == last;
    DigitsValueSplit(p);
    HundredsRemainder(DigitsValue(p), DigitsValue(p[..n - 2]), DigitsValue(last));
  }

  /** A tail, `p.zfill(2)[-2:]`, is two digits and denotes the number p modulo 100. */
  lemma TailValue(p: string)
    requires IsDigits(p)
    ensures IsTwoDigits(LastTwo(ZFill2(p)))
    ensures DigitsValue(LastTwo(ZFill2(p))) == DigitsValue(p) % 100
  {
    if |p| == 1 {
      TailValueOfDigit(p);
    } else {
      LastTwoOfNumber(p);
      TailValueOfNumber(p);
    }
  }

  // ---------------------------------------------------------------------
  // Case folding and substrings
  // ---------------------------------------------------------------------

  /** Python's `str.lower()` on one character, for ASCII and the upper-case
      letters of Vietnamese; every other character is kept. */
  function LowerChar(c: char): char {
    if 'A' <= c <= 'Z' then ((c as int) + 32) as char
    else if '\U{00C0}' <= c <= '\U{00DE}' && c != '\U{00D7}' then ((c as int) + 32) as char
    else if c == '\U{0102}' || c == '\U{0110}' || c == '\U{0128}' || c == '\U{0168}'
         || c == '\U{01A0}' || c == '\U{01AF}' then ((c as int) + 1) as char
    else if '\U{1EA0}' <= c <= '\U{1EF8}' && (c as int) % 2 == 0 then ((c as int) + 1) as char
    else c
  }

  function Lower(s: string): (r: string)
    ensures |r| == |s|
  {
    seq(|s|, i requires 0 <= i < |s| => LowerChar(s[i]))
  }

  /** Python's `pat in s`. */
  predicate Contains(s: string, pat: string) {
    exists i :: 0 <= i <= |s| && pat <= s[i..]
  }

  /** Python's `" ".join(xs)`. */
  function Join(xs: seq<string>): string {
    if xs == [] then "" else if |xs| == 1 then xs[0] else xs[0] + " " + Join(xs[1..])
  }

  // ---------------------------------------------------------------------
  // The numeric tokeniser
  // ---------------------------------------------------------------------

  /** Length of the run of word characters that starts s. */
  function RunLength(s: string): (n: nat)
    ensures n <= |s|
    ensures forall i :: 0 <= i < n ==> IsWordChar(s[i])
    ensures n < |s| ==> !IsWordChar(s[n])
  {
    if s == [] || !IsWordChar(s[0]) then 0 else 1 + RunLength(s[1..])
  }

  /** The maximal runs of word characters of s, left to right. */
  function Words(s: string): seq<string>
    decreases |s|
  {
    if s == [] then []
    else if !IsWordChar(s[0]) then Words(s[1..])
    else var n := RunLength(s); [s[..n]] + Words(s[n..])
  }

  predicate IsNumberToken(w: string, lo: nat, hi: nat) {
    IsDigits(w) && lo <= |w| <= hi
  }

  function SelectNumbers(ws: seq<string>, lo: nat, hi: nat): (r: seq<string>)
    ensures |r| <= |ws|
    ensures forall k :: 0 <= k < |r| ==> IsNumberToken(r[k], lo, hi)
  {
    if ws == [] then []
    else (if IsNumberToken(ws[0], lo, hi) then [ws[0]] else []) + SelectNumbers(ws[1..], lo, hi)
  }

  /** `re.findall(r"\b\d{lo,hi}\b", s)`: with `\b` on both sides a match is a
      whole run of word characters, so the matches are exactly the runs that
      consist of lo to hi digits. */
  function NumberTokens(s: string, lo: nat, hi: nat): seq<string> {
    SelectNumbers(Words(s), lo, hi)
  }

  /** Every token is a run of lo to hi digits. */
  lemma NumberTokensSound(s: string, lo: nat, hi: nat)
    ensures forall k :: 0 <= k < |NumberTokens(s, lo, hi)| ==>
              IsNumberToken(NumberTokens(s, lo, hi)[k], lo, hi)
  {
  }

  /** w occurs in s at i as a maximal run of word characters: non-empty, all
      word characters, with a non-word character or an end of s on each side. */
  predicate IsRunAt(s: string, i: nat, w: string) {
    i + |w| <= |s| && w != [] && s[i..i + |w|] == w &&
    (forall k :: 0 <= k < |w| ==> IsWordChar(w[k])) &&
    (i == 0 || !IsWordChar(s[i - 1])) &&
    (i + |w| == |s| || !IsWordChar(s[i + |w|]))
  }

  /** A maximal run of s[d..] is one of s, when s[d - 1] is no word character
      or the run does not start s[d..]. */
  lemma ShiftRun(s: string, d: nat, j: nat, w: string)
    requires 0 < d <= |s| && IsRunAt(s[d..], j, w)
    requires j == 0 ==> !IsWordChar(s[d - 1])
    ensures IsRunAt(s, d + j, w)
  {
    assert s[d..][j..j + |w|] == s[d + j..d + j + |w|];
    if j > 0 {
      assert s[d..][j - 1] == s[d + j - 1];
    }
    if d + j + |w| < |s| {
      assert s[d..][j + |w|] == s[d + j + |w|];
    }
  }

  /** Every word is a maximal run of word characters of s, which is what a
      `\b` on each side of a match demands. */
  lemma {:induction false} WordsAreMaximalRuns(s: string)
    ensures forall w :: w in Words(s) ==> exists i: nat :: IsRunAt(s, i, w)
    decreases |s|
  {
    if s == [] {
    } else if !IsWordChar(s[0]) {
      WordsAreMaximalRuns(s[1..]);
      assert Words(s) == Words(s[1..]);
      forall w | w in Words(s)
        ensures exists i: nat :: IsRunAt(s, i, w)
      {
        var j: nat :| IsRunAt(s[1..], j, w);
        ShiftRun(s, 1, j, w);
      }
    } else {
      var n := RunLength(s);
      var rest := s[n..];
      WordsAreMaximalRuns(rest);
      forall w | w in Words(s)
        ensures exists i: nat :: IsRunAt(s, i, w)
      {
        if w == s[..n] {
          assert s[0..n] == s[..n];
          assert IsRunAt(s, 0, w);
        } else {
          assert w in Words(rest);
          var j: nat :| IsRunAt(rest, j, w);
          assert rest[j..j + |w|][0] == rest[j];
          assert !IsWordChar(rest[0]);
          ShiftRun(s, n, j, w);
        }
      }
    }
  }

  lemma {:induction false} SelectNumbersFrom(ws: seq<string>, lo: nat, hi: nat)
    ensures forall w :: w in SelectNumbers(ws, lo, hi) ==> w in ws
  {
    if ws != [] {
      SelectNumbersFrom(ws[1..], lo, hi);
    }
  }

  /** Every match of `\b\d{lo,hi}\b` is a maximal run of word characters of s
      made of lo to hi digits. */
  lemma NumberTokensAreRuns(s: string, lo: nat, hi: nat)
    ensures forall w :: w in NumberTokens(s, lo, hi) ==>
              IsNumberToken(w, lo, hi) && exists i: nat :: IsRunAt(s, i, w)
  {
    WordsAreMaximalRuns(s);
    SelectNumbersFrom(Words(s), lo, hi);
    forall w | w in NumberTokens(s, lo, hi)
      ensures IsNumberToken(w, lo, hi)
    {
      var k :| 0 <= k < |NumberTokens(s, lo, hi)| && NumberTokens(s, lo, hi)[k] == w;
    }
  }

  /** The tokens of each string of xs, one list after the other. */
  function NumberTokensOfAll(xs: seq<string>, lo: nat, hi: nat): seq<string> {
    if xs == [] then [] else NumberTokens(xs[0], lo, hi) + NumberTokensOfAll(xs[1..], lo, hi)
  }

  lemma {:induction false} SelectNumbersAppend(a: seq<string>, b: seq<string>, lo: nat, hi: nat)
    ensures SelectNumbers(a + b, lo, hi) == SelectNumbers(a, lo, hi) + SelectNumbers(b, lo, hi)
  {
    if a == [] {
      assert a + b == b;
    } else {
      assert (a + b)[0] == a[0];
      assert (a + b)[1..] == a[1..] + b;
      SelectNumbersAppend(a[1..], b, lo, hi);
    }
  }

  lemma {:induction false} RunLengthStopsAt(s: string, c: char, t: string)
    requires !IsWordChar(c)
    ensures RunLength(s + [c] + t) == RunLength(s)
  {
    if s != [] && IsWordChar(s[0]) {
      assert (s + [c] + t)[1..] == s[1..] + [c] + t;
      RunLengthStopsAt(s[1..], c, t);
    }
  }

  /** A non-word character separates the words on its two sides. */
  lemma {:induction false} WordsSplit(s: string, c: char, t: string)
    requires !IsWordChar(c)
    ensures Words(s + [c] + t) == Words(s) + Words(t)
    decreases |s|
  {
    var u := s + [c] + t;
    if s == [] {
      assert u[1..] == t;
    } else if !IsWordChar(s[0]) {
      assert u[1..] == s[1..] + [c] + t;
      WordsSplit(s[1..], c, t);
    } else {
      var n := RunLength(s);
      RunLengthStopsAt(s, c, t);
      assert u[..n] == s[..n];
      assert u[n..] == s[n..] + [c] + t;
      WordsSplit(s[n..], c, t);
    }
  }

  /** Tokens of `" ".join(xs)` are the tokens of each string of xs, in order. */
  lemma {:induction false} NumberTokensOfJoin(xs: seq<string>, lo: nat, hi: nat)
    ensures NumberTokens(Join(xs), lo, hi) == NumberTokensOfAll(xs, lo, hi)
  {
    if |xs| == 1 {
      assert NumberTokensOfAll(xs[1..], lo, hi) == [];
    } else if |xs| > 1 {
      NumberTokensOfJoin(xs[1..], lo, hi);
      WordsSplit(xs[0], ' ', Join(xs[1..]));
      assert xs[0] + " " + Join(xs[1..]) == xs[0] + [' '] + Join(xs[1..]);
      SelectNumbersAppend(Words(xs[0]), Words(Join(xs[1..])), lo, hi);
    }
  }

  lemma {:induction false} NumberTokensOfAllAppend(a: seq<string>, b: seq<string>, lo: nat, hi: nat)
    ensures NumberTokensOfAll(a + b, lo, hi) == NumberTokensOfAll(a, lo, hi) + NumberTokensOfAll(b, lo, hi)
  {
    if a == [] {
      assert a + b == b;
    } else {
      assert (a + b)[0] == a[0];
      assert (a + b)[1..] == a[1..] + b;
      NumberTokensOfAllAppend(a[1..], b, lo, hi);
    }
  }

  lemma LowerCharKeepsClass(c: char)
    ensures IsWordChar(LowerChar(c)) == IsWordChar(c)
    ensures IsDigit(LowerChar(c)) == IsDigit(c)
    ensures IsDigit(c) ==> LowerChar(c) == c
  {
  }

  lemma {:induction false} RunLengthLower(s: string)
    ensures RunLength(Lower(s)) == RunLength(s)
  {
    if s != [] {
      LowerCharKeepsClass(s[0]);
      if IsWordChar(s[0]) {
        assert Lower(s)[1..] == Lower(s[1..]);
        RunLengthLower(s[1..]);
      }
    }
  }

  lemma LowerDigits(w: string)
    ensures IsDigits(Lower(w)) == IsDigits(w)
    ensures IsDigits(w) ==> Lower(w) == w
  {
    forall i | 0 <= i < |w|
      ensures IsDigit(Lower(w)[i]) == IsDigit(w[i])
      ensures IsDigit(w[i]) ==> Lower(w)[i] == w[i]
    {
      LowerCharKeepsClass(w[i]);
    }
  }

  function LowerAll(ws: seq<string>): (r: seq<string>)
    ensures |r| == |ws|
    ensures forall k :: 0 <= k < |ws| ==> r[k] == Lower(ws[k])
  {
    seq(|ws|, k requires 0 <= k < |ws| => Lower(ws[k]))
  }

  lemma {:induction false} WordsLower(s: string)
    ensures Words(Lower(s)) == LowerAll(Words(s))
    decreases |s|
  {
    if s != [] {
      var l := Lower(s);
      LowerCharKeepsClass(s[0]);
      if !IsWordChar(s[0]) {
        assert l[1..] == Lower(s[1..]);
        WordsLower(s[1..]);
      } else {
        var n := RunLength(s);
        RunLengthLower(s);
        assert l[..n] == Lower(s[..n]);
        assert l[n..] == Lower(s[n..]);
        WordsLower(s[n..]);
        assert Words(s) == [s[..n]] + Words(s[n..]);
        assert LowerAll(Words(s)) == [Lower(s[..n])] + LowerAll(Words(s[n..]));
      }
    }
  }

  lemma {:induction false} SelectNumbersLower(ws: seq<string>, lo: nat, hi: nat)
    ensures SelectNumbers(LowerAll(ws), lo, hi) == SelectNumbers(ws, lo, hi)
  {
    if ws != [] {
      LowerDigits(ws[0]);
      assert LowerAll(ws)[1..] == LowerAll(ws[1..]);
      SelectNumbersLower(ws[1..], lo, hi);
    }
  }

  /** Lower-casing the text does not change its numeric tokens. */
  lemma NumberTokensLower(s: string, lo: nat, hi: nat)
    ensures NumberTokens(Lower(s), lo, hi) == NumberTokens(s, lo, hi)
  {
    WordsLower(s);
    SelectNumbersLower(Words(s), lo, hi);
  }

  /** Every `\b\d{2}\b` match is also a `\b\d{2,5}\b` match: the two-digit
      tokens are those of length two among the 2-to-5-digit tokens. */
  lemma {:induction false} SelectTwoOfTwoToFive(ws: seq<string>)
    ensures SelectNumbers(ws, 2, 2) == SelectNumbers(SelectNumbers(ws, 2, 5), 2, 2)
  {
    if ws != [] {
      SelectNumbersAppend(if IsNumberToken(ws[0], 2, 5) then [ws[0]] else [],
                          SelectNumbers(ws[1..], 2, 5), 2, 2);
      SelectTwoOfTwoToFive(ws[1..]);
    }
  }
}
