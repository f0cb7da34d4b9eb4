/** The crawler's day mapping fed to the statistics: every crawled tail is
    counted, so N lies between 20 and 27 tails per day. */
module Pipeline {
  import opened Text
  import opened Crawler
  import opened Bayes

  lemma {:induction false} FlattenTwoDigits(days: seq<(string, seq<string>)>)
    requires forall i, k :: 0 <= i < |days| && 0 <= k < |days[i].1| ==> IsTwoDigits(days[i].1[k])
    ensures forall k :: 0 <= k < |Flatten(days)| ==> IsTwoDigits(Flatten(days)[k])
  {
    if days != [] {
      var init := days[..|days| - 1];
      FlattenTwoDigits(init);
      var f := Flatten(days);
      assert f == Flatten(init) + days[|days| - 1].1;
      forall k | 0 <= k < |f|
        ensures IsTwoDigits(f[k])
      {
        if k >= |Flatten(init)| {
          assert f[k] == days[|days| - 1].1[k - |Flatten(init)|];
        }
      }
    }
  }

  lemma {:induction false} TotalLengthBounds(days: seq<(string, seq<string>)>, lo: nat, hi: nat)
    requires forall i :: 0 <= i < |days| ==> lo <= |days[i].1| <= hi
    ensures lo * |days| <= TotalLength(days) <= hi * |days|
  {
    if days != [] {
      TotalLengthBounds(days[..|days| - 1], lo, hi);
      assert lo * |days| == lo * (|days| - 1) + lo;
      assert hi * |days| == hi * (|days| - 1) + hi;
    }
  }

  /** Counting the crawled days: N is the number of tails crawled, between
      20 and 27 per day, and the day count is the number of days kept. */
  lemma CrawledCounts(tables: seq<Table>, maxDays: int)
    ensures var days := CrawlSpec(tables, maxDays);
      var n := SumCounts(CountTable(Flatten(days)));
      n == TotalLength(days) && MinTails * |days| <= n <= MaxTails * |days|
  {
    var days := CrawlSpec(tables, maxDays);
    CrawlSpecDayShape(tables, maxDays);
    FlattenTwoDigits(days);
    CountTableTotalOfTails(days);
    TotalLengthBounds(days, MinTails, MaxTails);
  }
}
