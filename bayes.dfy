/** The statistics engine of bayes.py: the 100-bucket histogram of tails,
    Dirichlet smoothing, the chi-square statistic against the uniform
    distribution, and the ranking by posterior. Arithmetic is exact, over
    `real`, where the source computes in floating point. */
module Bayes {
  import opened Text

  /** The tails 00..99. */
  const Buckets: nat := 100

  /** The tail of bucket i, `f"{i:02d}"`. */
  function Cap(i: nat): string {
    Format02(i)
  }

  /** A row of the count table: columns `cap` and `count`. */
  datatype CountRow = CountRow(cap: string, count: nat)

  /** A row after smoothing: `freq` and `post_p` added. */
  datatype ScoredRow = ScoredRow(cap: string, count: nat, freq: real, postP: real)

  // ---------------------------------------------------------------------
  // counts_from_days
  // ---------------------------------------------------------------------

  /** All tails of all days, day after day. */
  function Flatten(days: seq<(string, seq<string>)>): seq<string> {
    if days == [] then [] else Flatten(days[..|days| - 1]) + days[|days| - 1].1
  }

  /** The tails of ps that are two-digit strings, in order. */
  function ValidTails(ps: seq<string>): seq<string> {
    if ps == [] then []
    else ValidTails(ps[..|ps| - 1]) + (if IsTwoDigits(ps[|ps| - 1]) then [ps[|ps| - 1]] else [])
  }

  /** The count table of a list of tails: `Counter(pairs).get(cap, 0)` for every cap. */
  function CountTable(pairs: seq<string>): (t: seq<CountRow>)
    ensures |t| == Buckets
  {
    seq(Buckets, i requires 0 <= i < Buckets => CountRow(Cap(i), multiset(pairs)[Cap(i)]))
  }

  /** `df["count"].sum()`. */
  function SumCounts(table: seq<CountRow>): nat {
    if table == [] then 0 else SumCounts(table[..|table| - 1]) + table[|table| - 1].count
  }

  /** `counts_from_days`: the count table, its total N and the number of days. */
  method CountsFromDays(days: seq<(string, seq<string>)>) returns (table: seq<CountRow>, n: nat, dayCount: nat)
    ensures table == CountTable(Flatten(days))
    ensures forall i :: 0 <= i < Buckets ==> table[i].cap == Cap(i) && IsTwoDigits(table[i].cap)
    ensures n == SumCounts(table) && n == |ValidTails(Flatten(days))|
    ensures dayCount == |days|
  {
    var pairs: seq<string> := [];
    for d := 0 to |days|
      invariant pairs == Flatten(days[..d])
    {
      assert days[..d + 1][..d] == days[..d];
      pairs := pairs + days[d].1;
    }
    assert days[..|days|] == days;
    var cnt := multiset(pairs);
    table := seq(Buckets, i requires 0 <= i < Buckets => CountRow(Cap(i), cnt[Cap(i)]));
    n := SumCounts(table);
    dayCount := |days|;
    forall i | 0 <= i < Buckets
      ensures IsTwoDigits(table[i].cap)
    {
      Format02RoundTrip(i);
    }
    CountTableTotal(pairs);
  }

  /** The caps are "00".."99" in ascending order: bucket i holds the tail whose value is i. */
  lemma CapsInOrder(i: nat)
    requires i < Buckets
    ensures IsTwoDigits(Cap(i)) && DigitsValue(Cap(i)) == i
  {
    Format02RoundTrip(i);
  }

  /** Bucket i counts the tail p exactly when p is the two-digit form of i. */
  lemma CapMatches(i: nat, p: string)
    requires i < Buckets
    ensures Cap(i) == p <==> IsTwoDigits(p) && DigitsValue(p) == i
  {
    Format02RoundTrip(i);
    if IsTwoDigits(p) && DigitsValue(p) == i {
      TwoDigitsRoundTrip(p);
    }
  }

  /** How often p occurs in ps, counted one element at a time. */
  function Occurrences(ps: seq<string>, p: string): nat {
    if ps == [] then 0
    else Occurrences(ps[..|ps| - 1], p) + (if ps[|ps| - 1] == p then 1 else 0)
  }

  /** `Counter(pairs).get(cap, 0)`: bucket i holds the number of occurrences
      of its tail, and 0 for a tail never seen. */
  lemma CountTableCounts(pairs: seq<string>, i: nat)
    requires i < Buckets
    ensures CountTable(pairs)[i].count == Occurrences(pairs, Cap(i))
    ensures CountTable(pairs)[i].count == 0 <==> Cap(i) !in pairs
  {
    OccurrencesMultiset(pairs, Cap(i));
  }

  lemma {:induction false} OccurrencesMultiset(ps: seq<string>, p: string)
    ensures multiset(ps)[p] == Occurrences(ps, p)
  {
    if ps != [] {
      var init := ps[..|ps| - 1];
      assert ps == init + [ps[|ps| - 1]];
      assert multiset(ps) == multiset(init) + multiset{ps[|ps| - 1]};
      OccurrencesMultiset(init, p);
    }
  }

  /** The sum of the first k buckets of the count table of ms. */
  function BucketSum(ms: multiset<string>, k: nat): nat
    requires k <= Buckets
  {
    if k == 0 then 0 else BucketSum(ms, k - 1) + ms[Cap(k - 1)]
  }

  lemma {:induction false} BucketSumAdd(ms: multiset<string>, p: string, k: nat)
    requires k <= Buckets
    ensures BucketSum(ms + multiset{p}, k) ==
            BucketSum(ms, k) + (if IsTwoDigits(p) && DigitsValue(p) < k then 1 else 0)
  {
    if k > 0 {
      BucketSumAdd(ms, p, k - 1);
      CapMatches(k - 1, p);
    }
  }

  lemma {:induction false} BucketSumEmpty(k: nat)
    requires k <= Buckets
    ensures BucketSum(multiset{}, k) == 0
  {
    if k > 0 {
      BucketSumEmpty(k - 1);
    }
  }

  lemma {:induction false} BucketSumCountsValidTails(ps: seq<string>)
    ensures BucketSum(multiset(ps), Buckets) == |ValidTails(ps)|
  {
    if ps == [] {
      BucketSumEmpty(Buckets);
    } else {
      var init, p := ps[..|ps| - 1], ps[|ps| - 1];
      assert ps == init + [p];
      assert multiset(ps) == multiset(init) + multiset{p};
      BucketSumCountsValidTails(init);
      BucketSumAdd(multiset(init), p, Buckets);
      if IsTwoDigits(p) {
        TwoDigitsRoundTrip(p);
      }
    }
  }

  lemma {:induction false} SumCountsPrefix(pairs: seq<string>, k: nat)
    requires k <= Buckets
    ensures SumCounts(CountTable(pairs)[..k]) == BucketSum(multiset(pairs), k)
  {
    if k > 0 {
      assert CountTable(pairs)[..k][..k - 1] == CountTable(pairs)[..k - 1];
      SumCountsPrefix(pairs, k - 1);
    }
  }

  /** N, the total of the 100 buckets, is the number of tails that are two
      digits: a tail of any other form falls in no bucket. */
  lemma CountTableTotal(pairs: seq<string>)
    ensures SumCounts(CountTable(pairs)) == |ValidTails(pairs)|
  {
    SumCountsPrefix(pairs, Buckets);
    assert CountTable(pairs)[..Buckets] == CountTable(pairs);
    BucketSumCountsValidTails(pairs);
  }

  lemma {:induction false} ValidTailsOfTails(ps: seq<string>)
    requires forall k :: 0 <= k < |ps| ==> IsTwoDigits(ps[k])
    ensures ValidTails(ps) == ps
  {
    if ps != [] {
      ValidTailsOfTails(ps[..|ps| - 1]);
    }
  }

  /** The total length of the day lists. */
  function TotalLength(days: seq<(string, seq<string>)>): nat {
    if days == [] then 0 else TotalLength(days[..|days| - 1]) + |days[|days| - 1].1|
  }

  lemma {:induction false} FlattenLength(days: seq<(string, seq<string>)>)
    ensures |Flatten(days)| == TotalLength(days)
  {
    if days != [] {
      FlattenLength(days[..|days| - 1]);
    }
  }

  /** When every tail is two digits, N is the total length of the day lists. */
  lemma CountTableTotalOfTails(days: seq<(string, seq<string>)>)
    requires forall k :: 0 <= k < |Flatten(days)| ==> IsTwoDigits(Flatten(days)[k])
    ensures SumCounts(CountTable(Flatten(days))) == TotalLength(days)
  {
    CountTableTotal(Flatten(days));
    ValidTailsOfTails(Flatten(days));
    FlattenLength(days);
  }

  // ---------------------------------------------------------------------
  // Facts of real arithmetic
  // ---------------------------------------------------------------------

  lemma DivAdd(a: real, b: real, d: real)
    requires d != 0.0
    ensures a / d + b / d == (a + b) / d
  {
  }

  /** One step of a running sum of quotients over the same divisor. */
  lemma DivStep(before: real, after: real, prev: real, c: real, total: real, d: real)
    requires d != 0.0 && before == prev / d && after == before + c / d && total == prev + c
    ensures after == total / d
  {
    DivAdd(prev, c, d);
  }

  lemma DivMonotone(x: real, y: real, d: real)
    requires d > 0.0
    ensures x <= y <==> x / d <= y / d
    ensures x < y <==> x / d < y / d
  {
    assert x / d * d == x && y / d * d == y;
    if x / d <= y / d {
      assert x / d * d <= y / d * d;
    }
    if y / d <= x / d {
      assert y / d * d <= x / d * d;
    }
  }

  lemma DivBetween(x: real, d: real)
    requires 0.0 < x < d
    ensures 0.0 < x / d < 1.0
  {
    DivMonotone(x, d, d);
    DivMonotone(0.0, x, d);
    assert d / d == 1.0 && 0.0 / d == 0.0;
  }

  lemma DivSelf(x: real, d: real)
    requires x == d && d != 0.0
    ensures x / d == 1.0
  {
  }

  lemma QuotientFacts(x: real, e: real)
    requires e > 0.0 && x >= 0.0
    ensures x / e >= 0.0
    ensures x / e == 0.0 <==> x == 0.0
  {
  }

  // ---------------------------------------------------------------------
  // dirichlet_smoothing
  // ---------------------------------------------------------------------

  function Max1(n: int): int {
    if n > 1 then n else 1
  }

  /** `freq = count / max(N, 1)`. */
  function Frequency(count: nat, n: int): real {
    count as real / Max1(n) as real
  }

  /** `post_p = (count + alpha0/100) / (N + alpha0)`: the count plus an even
      share of alpha0 pseudo-counts, over the total plus alpha0. */
  function Posterior(count: nat, n: int, alpha0: real): real
    requires n as real + alpha0 != 0.0
  {
    (count as real + alpha0 / 100.0) / (n as real + alpha0)
  }

  /** `dirichlet_smoothing`: a copy of the table with `freq` and `post_p` added. */
  function DirichletSmoothing(table: seq<CountRow>, n: int, alpha0: real): (r: seq<ScoredRow>)
    requires n as real + alpha0 != 0.0
    ensures |r| == |table|
    ensures forall i :: 0 <= i < |table| ==> r[i].cap == table[i].cap && r[i].count == table[i].count
  {
    seq(|table|, i requires 0 <= i < |table| =>
      ScoredRow(table[i].cap, table[i].count, Frequency(table[i].count, n), Posterior(table[i].count, n, alpha0)))
  }

  function SumPost(r: seq<ScoredRow>): real {
    if r == [] then 0.0 else SumPost(r[..|r| - 1]) + r[|r| - 1].postP
  }

  function SumFreq(r: seq<ScoredRow>): real {
    if r == [] then 0.0 else SumFreq(r[..|r| - 1]) + r[|r| - 1].freq
  }

  /** k pseudo-counts of `share` each. */
  function Shares(k: nat, share: real): real {
    if k == 0 then 0.0 else Shares(k - 1, share) + share
  }

  lemma {:induction false} SharesLinear(k: nat, share: real)
    ensures Shares(k, share) == k as real * share
  {
    if k > 0 {
      SharesLinear(k - 1, share);
      assert (k - 1) as real * share + share == k as real * share;
    }
  }

  lemma SumPostLast(r: seq<ScoredRow>, k: nat)
    requires 0 < k <= |r|
    ensures SumPost(r[..k]) == SumPost(r[..k - 1]) + r[k - 1].postP
  {
    assert r[..k][..k - 1] == r[..k - 1];
  }

  lemma ZeroOver(d: real)
    requires d != 0.0
    ensures 0.0 / d == 0.0
  {
  }

  /** Counts plus shares of the first k rows, split off the last row. */
  lemma PrefixTotalLast(table: seq<CountRow>, share: real, k: nat)
    requires 0 < k <= |table|
    ensures SumCounts(table[..k]) as real + Shares(k, share) ==
            (SumCounts(table[..k - 1]) as real + Shares(k - 1, share)) + (table[k - 1].count as real + share)
  {
    SumCountsLast(table, k);
  }

  lemma SumCountsLast(table: seq<CountRow>, k: nat)
    requires 0 < k <= |table|
    ensures SumCounts(table[..k]) == SumCounts(table[..k - 1]) + table[k - 1].count
  {
    assert table[..k][..k - 1] == table[..k - 1];
  }

  /** The posteriors of the first k rows sum to their counts plus k shares,
      over the common denominator. */
  lemma {:induction false} SumPostPrefix(r: seq<ScoredRow>, table: seq<CountRow>, share: real, d: real, k: nat)
    requires d != 0.0 && k <= |r| && |r| == |table|
    requires forall i :: 0 <= i < |r| ==> r[i].postP == (table[i].count as real + share) / d
    ensures SumPost(r[..k]) == (SumCounts(table[..k]) as real + Shares(k, share)) / d
  {
    if k == 0 {
      ZeroOver(d);
    } else {
      SumPostPrefix(r, table, share, d, k - 1);
      SumPostLast(r, k);
      PrefixTotalLast(table, share, k);
      var prev := SumCounts(table[..k - 1]) as real + Shares(k - 1, share);
      var c := table[k - 1].count as real + share;
      var total := SumCounts(table[..k]) as real + Shares(k, share);
      assert r[k - 1].postP == c / d;
      DivStep(SumPost(r[..k - 1]), SumPost(r[..k]), prev, c, total, d);
    }
  }

  lemma AllShares(total: real, alpha0: real)
    requires total + alpha0 != 0.0
    ensures (total + Shares(Buckets, alpha0 / 100.0)) / (total + alpha0) == 1.0
  {
    SharesLinear(Buckets, alpha0 / 100.0);
    assert 100.0 * (alpha0 / 100.0) == alpha0;
  }

  /** With alpha0 > 0 and the counts summing to N, the posteriors sum to 1. */
  lemma PosteriorSumsToOne(table: seq<CountRow>, n: int, alpha0: real)
    requires |table| == Buckets && alpha0 > 0.0 && n == SumCounts(table)
    ensures SumPost(DirichletSmoothing(table, n, alpha0)) == 1.0
  {
    var r := DirichletSmoothing(table, n, alpha0);
    var share, d := alpha0 / 100.0, n as real + alpha0;
    forall i | 0 <= i < |r|
      ensures r[i].postP == (table[i].count as real + share) / d
    {
    }
    SumPostPrefix(r, table, share, d, Buckets);
    assert table[..Buckets] == table;
    assert r[..Buckets] == r;
    AllShares(n as real, alpha0);
  }

  lemma {:induction false} CountBelowTotal(table: seq<CountRow>, i: nat)
    requires i < |table|
    ensures table[i].count <= SumCounts(table)
  {
    var init := table[..|table| - 1];
    if i < |table| - 1 {
      CountBelowTotal(init, i);
    }
  }

  /** With alpha0 > 0 and the counts summing to N, every posterior lies strictly between 0 and 1. */
  lemma PosteriorBounds(table: seq<CountRow>, n: int, alpha0: real, i: nat)
    requires alpha0 > 0.0 && n == SumCounts(table) && i < |table|
    ensures 0.0 < DirichletSmoothing(table, n, alpha0)[i].postP < 1.0
  {
    CountBelowTotal(table, i);
    var c := table[i].count as real;
    var d := n as real + alpha0;
    assert 0.0 < c + alpha0 / 100.0 < d;
    DivBetween(c + alpha0 / 100.0, d);
  }

  /** The denominator is shared, so a larger count never has a smaller
      posterior, and conversely. */
  lemma PosteriorMonotone(table: seq<CountRow>, n: int, alpha0: real, i: nat, j: nat)
    requires n as real + alpha0 > 0.0 && i < |table| && j < |table|
    ensures var r := DirichletSmoothing(table, n, alpha0);
      r[i].count <= r[j].count <==> r[i].postP <= r[j].postP
  {
    var d := n as real + alpha0;
    var x := table[i].count as real + alpha0 / 100.0;
    var y := table[j].count as real + alpha0 / 100.0;
    DivMonotone(x, y, d);
  }

  lemma {:induction false} SumFreqPrefix(table: seq<CountRow>, n: int, alpha0: real, k: nat)
    requires n as real + alpha0 != 0.0
    requires k <= |table|
    ensures SumFreq(DirichletSmoothing(table, n, alpha0)[..k]) == SumCounts(table[..k]) as real / Max1(n) as real
  {
    var r := DirichletSmoothing(table, n, alpha0);
    if k > 0 {
      SumFreqPrefix(table, n, alpha0, k - 1);
      assert r[..k][..k - 1] == r[..k - 1];
      assert table[..k][..k - 1] == table[..k - 1];
      var m := Max1(n) as real;
      DivAdd(SumCounts(table[..k - 1]) as real, table[k - 1].count as real, m);
    }
  }

  /** With no observations every frequency is 0: the divisor `max(N, 1)`
      keeps the division defined. */
  lemma FrequenciesZero(table: seq<CountRow>, alpha0: real)
    requires alpha0 != 0.0 && SumCounts(table) == 0
    ensures forall i :: 0 <= i < |table| ==> DirichletSmoothing(table, 0, alpha0)[i].freq == 0.0
  {
    forall i | 0 <= i < |table|
      ensures table[i].count == 0
    {
      CountBelowTotal(table, i);
    }
  }

  /** With N >= 1 observations, all counted in the table, the frequencies sum to 1. */
  lemma FrequenciesSumToOne(table: seq<CountRow>, n: int, alpha0: real)
    requires n as real + alpha0 != 0.0 && n >= 1 && n == SumCounts(table)
    ensures SumFreq(DirichletSmoothing(table, n, alpha0)) == 1.0
  {
    var r := DirichletSmoothing(table, n, alpha0);
    SumFreqPrefix(table, n, alpha0, |table|);
    assert table[..|table|] == table;
    assert r[..|table|] == r;
    DivSelf(SumCounts(table) as real, Max1(n) as real);
  }

  // ---------------------------------------------------------------------
  // chi_square_test
  // ---------------------------------------------------------------------

  /** A p-value: a known number, or the survival function of the chi-square
      distribution with dof degrees of freedom at stat, which is not evaluated. */
  datatype PValue = Exactly(p: real) | Chi2Survival(stat: real, dof: nat)

  /** The uniform expectation per bucket, `E = N / 100`. */
  function Expected(n: int): real {
    n as real / 100.0
  }

  /** One term `(count - E)^2 / E` of the statistic. */
  function ChiTerm(count: nat, n: int): real
    requires n > 0
  {
    var diff := count as real - Expected(n);
    diff * diff / Expected(n)
  }

  /** The sum of the terms over the rows. */
  function ChiSquareSum(table: seq<CountRow>, n: int): real
    requires n > 0
  {
    if table == [] then 0.0
    else ChiSquareSum(table[..|table| - 1], n) + ChiTerm(table[|table| - 1].count, n)
  }

  /** `chi_square_test`: the statistic against the uniform expectation N/100
      and its p-value with 99 degrees of freedom; (0, 1) when N <= 0. */
  function ChiSquareTest(table: seq<CountRow>, n: int): (r: (real, PValue))
    ensures n <= 0 ==> r == (0.0, Exactly(1.0))
    ensures n > 0 ==> r.0 >= 0.0 && r.1 == Chi2Survival(r.0, 99)
  {
    var e := if n > 0 then Expected(n) else 0.0;
    if e == 0.0 then (0.0, Exactly(1.0))
    else
      var stat := ChiSquareSum(table, n);
      ChiSquareSumZero(table, n);
      (stat, Chi2Survival(stat, 99))
  }

  lemma ScaledSquare(k: int)
    ensures (k as real / 100.0) * (k as real / 100.0) == (k * k) as real / 10000.0
  {
  }

  lemma OverExpected(x: real, n: int)
    requires n > 0
    ensures x / Expected(n) == 100.0 * x / n as real
  {
  }

  lemma IntSquare(k: int)
    ensures k * k >= 0
    ensures k * k == 0 <==> k == 0
  {
  }

  /** A term is never negative, and it is zero exactly when the count meets
      the expectation. The square is carried over the integers: with
      k = 100 * count - N the term is k * k / (100 * N). */
  lemma ChiTermFacts(count: nat, n: int)
    requires n > 0
    ensures ChiTerm(count, n) >= 0.0
    ensures ChiTerm(count, n) == 0.0 <==> count as real == Expected(n)
  {
    var k := 100 * count - n;
    assert count as real - Expected(n) == k as real / 100.0;
    ScaledSquare(k);
    OverExpected((k * k) as real / 10000.0, n);
    IntSquare(k);
    QuotientFacts(100.0 * ((k * k) as real / 10000.0), n as real);
  }

  lemma {:induction false} ChiSquareSumZero(table: seq<CountRow>, n: int)
    requires n > 0
    ensures ChiSquareSum(table, n) >= 0.0
    ensures ChiSquareSum(table, n) == 0.0 <==> forall i :: 0 <= i < |table| ==> table[i].count as real == Expected(n)
  {
    if table != [] {
      var init := table[..|table| - 1];
      ChiSquareSumZero(init, n);
      ChiTermFacts(table[|table| - 1].count, n);
      if ChiSquareSum(table, n) == 0.0 {
        assert forall i :: 0 <= i < |init| ==> init[i] == table[i];
      }
    }
  }

  /** With no observations the test returns (0.0, 1.0); otherwise the
      statistic is non-negative, its p-value is the chi-square survival at 99
      degrees of freedom, and it is 0 exactly when every count equals N/100. */
  lemma ChiSquareTestProperties(table: seq<CountRow>, n: int)
    ensures n <= 0 ==> ChiSquareTest(table, n) == (0.0, Exactly(1.0))
    ensures ChiSquareTest(table, n).0 >= 0.0
    ensures n > 0 ==> ChiSquareTest(table, n).1 == Chi2Survival(ChiSquareTest(table, n).0, 99)
    ensures n > 0 ==> (ChiSquareTest(table, n).0 == 0.0 <==>
      forall i :: 0 <= i < |table| ==> table[i].count as real == Expected(n))
  {
    if n > 0 {
      ChiSquareSumZero(table, n);
    }
  }

  // ---------------------------------------------------------------------
  // rank
  // ---------------------------------------------------------------------

  /** Posteriors never increase from one row to the next. */
  predicate NonIncreasing(r: seq<ScoredRow>) {
    forall i :: 0 < i < |r| ==> r[i - 1].postP >= r[i].postP
  }

  /** Row by row ordering gives the ordering of every pair of rows. */
  lemma {:induction false} NonIncreasingPairs(r: seq<ScoredRow>, i: nat, j: nat)
    requires NonIncreasing(r) && i <= j < |r|
    ensures r[i].postP >= r[j].postP
    decreases j - i
  {
    if i < j {
      NonIncreasingPairs(r, i + 1, j);
    }
  }

  /** Insertion of x into a table already in order. */
  function Insert(x: ScoredRow, s: seq<ScoredRow>): (r: seq<ScoredRow>)
    requires NonIncreasing(s)
    ensures multiset(r) == multiset(s) + multiset{x}
    ensures NonIncreasing(r)
    ensures r[0] == x || (s != [] && r[0] == s[0])
  {
    if s == [] || x.postP >= s[0].postP then [x] + s
    else
      assert s == [s[0]] + s[1..];
      [s[0]] + Insert(x, s[1..])
  }

  /** `rank`: the rows sorted by `post_p`, largest first. */
  function Rank(table: seq<ScoredRow>): (r: seq<ScoredRow>)
    ensures multiset(r) == multiset(table)
    ensures NonIncreasing(r)
  {
    if table == [] then []
    else
      assert table == [table[0]] + table[1..];
      Insert(table[0], Rank(table[1..]))
  }
}
