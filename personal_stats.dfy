/** The summary box of the statistics page
    (frontend/src/components/PersonalStats.js): the two totals and the
    average per day, over the response of the personal-stats endpoint. */
module PersonalStatsView {
  import opened Common
  import opened StatsController

  /** One `{ date, count }` entry as the page receives it; `count` may be
      missing. */
  datatype Bucket = Bucket(date: int, count: Option<int>)

  /** The response body; either list may be missing. */
  datatype StatsData = StatsData(last7Days: Option<seq<Bucket>>, last4Weeks: Option<seq<Bucket>>)

  /** `(list || []).reduce((s, d) => s + (d.count || 0), 0)`. */
  function SumCounts(bs: seq<Bucket>): int
  {
    if bs == [] then 0 else SumCounts(bs[..|bs| - 1]) + bs[|bs| - 1].count.GetOrDefault(0)
  }

  function OrEmpty(list: Option<seq<Bucket>>): seq<Bucket>
  {
    list.GetOrDefault([])
  }

  datatype Totals = Totals(last7: int, last4w: int)

  /** The memoised totals: both 0 before any data has arrived. */
  function TotalsOf(data: Option<StatsData>): Totals
  {
    match data
    case None => Totals(0, 0)
    case Some(d) => Totals(SumCounts(OrEmpty(d.last7Days)), SumCounts(OrEmpty(d.last4Weeks)))
  }

  /** The number of days averaged over: the length of the seven-day list,
      or 7 when that list is missing or empty. */
  function DayDivisor(data: Option<StatsData>): (n: nat)
    ensures n >= 1
    ensures data.Some? && data.value.last7Days.Some? && |data.value.last7Days.value| > 0 ==>
              n == |data.value.last7Days.value|
    ensures data.None? || data.value.last7Days.None? || data.value.last7Days.value == [] ==> n == 7
  {
    if data.Some? && data.value.last7Days.Some? && |data.value.last7Days.value| > 0 then |data.value.last7Days.value|
    else 7
  }

  /** avgPerDay: the seven-day total over the divisor, rounded half up. The
      `|| 0` fallback only catches NaN, which a positive divisor rules
      out. */
  function AvgPerDay(data: Option<StatsData>): (a: int)
    ensures var t, n := TotalsOf(data).last7, DayDivisor(data);
            2 * t - n < 2 * (a * n) <= 2 * t + n
  {
    RoundDiv(TotalsOf(data).last7, DayDivisor(data))
  }

  /** Before the data arrives every figure is 0. */
  lemma NoDataShowsZeros()
    ensures TotalsOf(None) == Totals(0, 0) && AvgPerDay(None) == 0
  {
  }

  /** A missing count adds nothing, the same as a count of 0. */
  lemma MissingCountAddsNothing(bs: seq<Bucket>, date: int)
    ensures SumCounts(bs + [Bucket(date, None)]) == SumCounts(bs)
    ensures SumCounts(bs + [Bucket(date, Some(0))]) == SumCounts(bs)
  {
    assert (bs + [Bucket(date, None)])[..|bs|] == bs;
    assert (bs + [Bucket(date, Some(0))])[..|bs|] == bs;
  }

  /** The endpoint's (day, count) pairs as the page receives them. */
  function ToBuckets(ps: seq<(int, int)>): (r: seq<Bucket>)
    ensures |r| == |ps|
    ensures forall i :: 0 <= i < |ps| ==> r[i] == Bucket(ps[i].0, Some(ps[i].1))
  {
    if ps == [] then [] else ToBuckets(ps[..|ps| - 1]) + [Bucket(ps[|ps| - 1].0, Some(ps[|ps| - 1].1))]
  }

  function Received(r: PersonalReport): StatsData
  {
    StatsData(Some(ToBuckets(r.last7Days)), Some(ToBuckets(r.last4Weeks)))
  }

  /** Summing received counts is summing the counts that were sent. */
  lemma {:induction false} SumOfReceived(ps: seq<(int, int)>, counts: seq<int>)
    requires |counts| == |ps| && forall i :: 0 <= i < |ps| ==> counts[i] == ps[i].1
    ensures SumCounts(ToBuckets(ps)) == Sum(counts)
  {
    if ps != [] {
      var n := |ps| - 1;
      assert ToBuckets(ps)[..n] == ToBuckets(ps[..n]);
      SumOfReceived(ps[..n], counts[..n]);
    }
  }

  lemma {:induction false} SumNonNegative(s: seq<int>)
    requires forall i :: 0 <= i < |s| ==> s[i] >= 0
    ensures Sum(s) >= 0
  {
    if s != [] {
      SumNonNegative(s[..|s| - 1]);
    }
  }

  /** On the response of personalStats the seven-day total is the
      number of completions in the last seven days, at most the number of
      the user's completed tasks. */
  lemma ReceivedDayTotal(tasks: seq<CompletedTask>, now: int, r: PersonalReport)
    requires |r.last7Days| == 7 && forall k :: 0 <= k < 7 ==>
               r.last7Days[k].1 == CountOnDay(tasks, DayOf(now) - 6 + k)
    ensures TotalsOf(Some(Received(r))).last7 == Sum(DayBuckets(tasks, DayOf(now)))
    ensures 0 <= TotalsOf(Some(Received(r))).last7 <= |tasks|
  {
    var days := DayBuckets(tasks, DayOf(now));
    DayBucketsMeaning(tasks, DayOf(now));
    SumOfReceived(r.last7Days, days);
    DayBucketsBounded(tasks, DayOf(now));
    SumNonNegative(days);
  }

  /** The four-week total likewise counts the completions credited to the
      last four weeks. */
  lemma ReceivedWeekTotal(tasks: seq<CompletedTask>, now: int, r: PersonalReport)
    requires |r.last4Weeks| == 4 && forall w :: 0 <= w < 4 ==>
               r.last4Weeks[w].1 == CountInWeek(tasks, WeekStarts(DayOf(now)), w)
    ensures TotalsOf(Some(Received(r))).last4w == Sum(WeekBuckets(tasks, DayOf(now)))
    ensures 0 <= TotalsOf(Some(Received(r))).last4w <= |tasks|
  {
    var weeks := WeekBuckets(tasks, DayOf(now));
    WeekBucketsMeaning(tasks, DayOf(now));
    SumOfReceived(r.last4Weeks, weeks);
    WeekBucketsBounded(tasks, WeekStarts(DayOf(now)));
    SumNonNegative(weeks);
  }

  /** On the response of personalStats the average is taken over seven
      days and lies between 0 and the number of completed tasks. */
  lemma ReceivedAverage(tasks: seq<CompletedTask>, now: int, r: PersonalReport)
    requires |r.last7Days| == 7 && forall k :: 0 <= k < 7 ==>
               r.last7Days[k].1 == CountOnDay(tasks, DayOf(now) - 6 + k)
    ensures DayDivisor(Some(Received(r))) == 7
    ensures 0 <= AvgPerDay(Some(Received(r))) <= |tasks|
  {
    ReceivedDayTotal(tasks, now, r);
    RoundDivRange(TotalsOf(Some(Received(r))).last7, 7);
  }

  /** Rounding a non-negative quotient by a divisor of at least one gives
      at most the dividend. */
  lemma RoundDivRange(t: int, n: int)
    requires t >= 0 && n >= 1
    ensures 0 <= RoundDiv(t, n) <= t
  {
    var q := RoundDiv(t, n);
    if t > 0 {
      MulMonotone(1, n, t);
    }
    assert t * n >= t;
    assert (t + 1) * n == t * n + n;
    if q < 0 {
      MulMonotone(q, -1, n);
    } else if q > t {
      MulMonotone(t + 1, q, n);
    }
  }
}
