/** The statistics endpoints (backend/controllers/statsController.js).
    Instants are integer milliseconds and calendar days are whole-day
    numbers counted from the epoch (a UTC calendar, day 0 a Thursday); the
    conversion of a day number to year, month and day is left to the
    platform, so buckets are keyed by day number, which is what equal
    'yyyy-mm-dd' strings amount to (see FormatDateInjective). */
module StatsController {
  import opened Common
  import opened Decimal
  import Store

  // ---------------------------------------------------------------------
  // formatDate
  // ---------------------------------------------------------------------

  /** formatDate: year, then month (counted from 0 by the platform, shown
      from 1) and day, each padded to two digits. */
  function FormatDate(year: int, month0: int, day: int): string
  {
    IntToDecimal(year) + "-" + PadStart2(IntToDecimal(month0 + 1)) + "-" + PadStart2(IntToDecimal(day))
  }

  /** Reads back a 'yyyy-mm-dd' string as (year, month from 1, day). */
  function ParseDate(s: string): (int, int, int)
    requires |s| == 10
  {
    (DecimalValue(s[..4]), DecimalValue(s[5..7]), DecimalValue(s[8..]))
  }

  /** For four-digit years the result is exactly 'yyyy-mm-dd', and it
      reads back as the date it came from. */
  lemma FormatDateRoundTrip(year: int, month0: int, day: int)
    requires 1000 <= year <= 9999 && 0 <= month0 <= 11 && 1 <= day <= 31
    ensures |FormatDate(year, month0, day)| == 10
    ensures FormatDate(year, month0, day)[4] == '-' && FormatDate(year, month0, day)[7] == '-'
    ensures ParseDate(FormatDate(year, month0, day)) == (year, month0 + 1, day)
  {
    FourDigits(year);
    DecimalRoundTrip(year);
    Pad2RoundTrip(month0 + 1);
    Pad2RoundTrip(day);
    var y := NatToDecimal(year);
    var m := PadStart2(NatToDecimal(month0 + 1));
    var d := PadStart2(NatToDecimal(day));
    var s := FormatDate(year, month0, day);
    assert s == y + "-" + m + "-" + d;
    assert s[..4] == y;
    assert s[5..7] == m;
    assert s[8..] == d;
  }

  /** Distinct dates give distinct strings, so comparing formatted dates
      is comparing dates. */
  lemma FormatDateInjective(y1: int, m1: int, d1: int, y2: int, m2: int, d2: int)
    requires 1000 <= y1 <= 9999 && 0 <= m1 <= 11 && 1 <= d1 <= 31
    requires 1000 <= y2 <= 9999 && 0 <= m2 <= 11 && 1 <= d2 <= 31
    requires FormatDate(y1, m1, d1) == FormatDate(y2, m2, d2)
    ensures y1 == y2 && m1 == m2 && d1 == d2
  {
    FormatDateRoundTrip(y1, m1, d1);
    FormatDateRoundTrip(y2, m2, d2);
  }

  // ---------------------------------------------------------------------
  // Rounding and msToHuman
  // ---------------------------------------------------------------------

  /** Math.round(a / b) for b > 0: the nearest integer, halves upward. */
  function RoundDiv(a: int, b: int): (q: int)
    requires b > 0
    ensures 2 * a - b < 2 * (q * b) <= 2 * a + b
  {
    var q := (2 * a + b) / (2 * b);
    assert (2 * a + b) == q * (2 * b) + (2 * a + b) % (2 * b);
    q
  }

  /** JavaScript's % for a positive divisor: the sign follows the dividend. */
  function JsRem(a: int, b: int): (r: int)
    requires b > 0
    ensures a >= 0 ==> 0 <= r < b && r == a % b
    ensures a < 0 ==> -b < r <= 0
  {
    if a >= 0 then a % b else -((-a) % b)
  }

  datatype Hms = Hms(hours: int, minutes: int, seconds: int)

  /** msToHuman's arithmetic: round to seconds, then split. */
  function ToHms(ms: int): Hms
  {
    var secs := RoundDiv(ms, 1000);
    Hms(secs / 3600, JsRem(secs, 3600) / 60, JsRem(secs, 60))
  }

  /** For a non-negative duration the parts add back up to the rounded
      seconds, with minutes and seconds below sixty. */
  lemma HmsAddsUp(ms: int)
    requires ms >= 0
    ensures var t := ToHms(ms);
            && t.hours * 3600 + t.minutes * 60 + t.seconds == RoundDiv(ms, 1000)
            && t.hours >= 0 && 0 <= t.minutes < 60 && 0 <= t.seconds < 60
  {
    var secs := RoundDiv(ms, 1000);
    assert secs >= 0;
    var rem := secs % 3600;
    assert secs == (secs / 3600) * 3600 + rem;
    assert rem == (rem / 60) * 60 + rem % 60;
    assert secs % 60 == rem % 60 by {
      assert secs == ((secs / 3600) * 60 + rem / 60) * 60 + rem % 60;
    }
  }

  /** msToHuman: '0s' for a zero duration, otherwise 'Hh Mm Ss'. */
  function MsToHuman(ms: int): (r: string)
    ensures r == "0s" <==> ms == 0
  {
    if ms == 0 then "0s"
    else
      var t := ToHms(ms);
      IntToDecimal(t.hours) + "h " + IntToDecimal(t.minutes) + "m " + IntToDecimal(t.seconds) + "s"
  }

  /** A positive duration below half a second prints as all zeros, not as
      '0s'. */
  lemma ShortDurationIsNotZeroSeconds(ms: int)
    requires 0 < ms < 500
    ensures ToHms(ms) == Hms(0, 0, 0)
    ensures MsToHuman(ms) == "0h 0m 0s"
  {
    assert RoundDiv(ms, 1000) == 0;
  }

  /** averageCompletionTimeMs: 0 when no task had both timestamps. */
  function AverageMs(total: int, count: nat): (r: int)
    ensures count == 0 ==> r == 0
    ensures count > 0 ==> 2 * total - count < 2 * (r * count) <= 2 * total + count
  {
    if count == 0 then 0 else RoundDiv(total, count)
  }

  /** folderInsights' percentComplete: 0 for an empty folder. */
  function PercentComplete(completed: nat, total: nat): (p: int)
    ensures total == 0 ==> p == 0
    ensures completed <= total ==> 0 <= p <= 100
    ensures total > 0 && completed == total ==> p == 100
  {
    if total == 0 then 0
    else
      PercentBounds(completed, total);
      RoundDiv(100 * completed, total)
  }

  lemma PercentBounds(completed: nat, total: nat)
    requires total > 0
    ensures completed <= total ==> 0 <= RoundDiv(100 * completed, total) <= 100
    ensures completed == total ==> RoundDiv(100 * completed, total) == 100
  {
    var p := RoundDiv(100 * completed, total);
    if p < 0 {
      MulMonotone(p, -1, total);
    }
    if completed <= total && p > 100 {
      MulMonotone(101, p, total);
    }
    if completed == total && p < 100 {
      MulMonotone(p, 99, total);
    }
  }

  lemma MulMonotone(x: int, y: int, t: int)
    requires t > 0 && x <= y
    ensures x * t <= y * t
  {
    assert y * t - x * t == (y - x) * t;
  }

  // ---------------------------------------------------------------------
  // Weeks
  // ---------------------------------------------------------------------

  /** diffToMonday: days back from a weekday (0 = Sunday) to Monday. */
  function DiffToMonday(weekday: int): (r: int)
    requires 0 <= weekday <= 6
    ensures 0 <= r <= 6
    ensures (weekday - r) % 7 == 1
  {
    (weekday + 6) % 7
  }

  /** getDay of a day number. */
  function Weekday(day: int): (w: int)
    ensures 0 <= w <= 6
  {
    (day + 4) % 7
  }

  function DayOf(ms: int): int
  {
    ms / 86400000
  }

  /** The Monday starting the week of a day. */
  function MondayOf(day: int): int
  {
    day - DiffToMonday(Weekday(day))
  }

  /** The Monday of a day is a Monday, at most six days earlier; one week
      later it is one week later. */
  lemma MondayOfProperties(day: int)
    ensures Weekday(MondayOf(day)) == 1
    ensures day - 6 <= MondayOf(day) <= day
    ensures MondayOf(day + 7) == MondayOf(day) + 7
  {
    assert Weekday(day + 7) == Weekday(day);
  }

  /** The seven days of the last-7-days list, oldest first. */
  function LastSevenDays(today: int): (r: seq<int>)
    ensures |r| == 7
    ensures forall i :: 0 <= i < 7 ==> r[i] == today - 6 + i
  {
    seq(7, i => today - 6 + i)
  }

  /** The four week starts, oldest first: the Mondays of the days 21, 14,
      7 and 0 days back. */
  function WeekStarts(today: int): (r: seq<int>)
    ensures |r| == 4
    ensures forall w :: 0 <= w < 4 ==> r[w] == MondayOf(today - (3 - w) * 7)
  {
    [MondayOf(today - 21), MondayOf(today - 14), MondayOf(today - 7), MondayOf(today)]
  }

  /** The four weeks follow each other without overlap. */
  lemma WeekStartsConsecutive(today: int)
    ensures forall w :: 0 <= w < 3 ==> WeekStarts(today)[w + 1] == WeekStarts(today)[w] + 7
  {
    forall w | 0 <= w < 3 ensures WeekStarts(today)[w + 1] == WeekStarts(today)[w] + 7 {
      MondayOfProperties(today - (3 - w) * 7);
      assert today - (3 - (w + 1)) * 7 == (today - (3 - w) * 7) + 7;
    }
  }

  /** An instant falls in the week that starts on day `start`. */
  predicate InWeek(c: int, start: int)
  {
    start * 86400000 <= c < (start + 7) * 86400000
  }

  /** The week the bucket loop credits: the first one containing the
      instant, since the loop breaks on its first match. */
  function FirstWeek(c: int, starts: seq<int>): (r: Option<nat>)
    ensures r.Some? ==> r.value < |starts| && InWeek(c, starts[r.value])
    ensures r.Some? ==> forall k :: 0 <= k < r.value ==> !InWeek(c, starts[k])
    ensures r.None? ==> forall k :: 0 <= k < |starts| ==> !InWeek(c, starts[k])
  {
    if starts == [] then None
    else if InWeek(c, starts[0]) then Some(0)
    else match FirstWeek(c, starts[1..])
      case None => None
      case Some(i) => Some(i + 1)
  }

  // ---------------------------------------------------------------------
  // personalStats' loop over the completed tasks
  // ---------------------------------------------------------------------

  /** A completed task's timestamps, either of which may be missing. */
  datatype CompletedTask = CompletedTask(createdAt: Option<int>, updatedAt: Option<int>)

  /** `t.updatedAt || t.createdAt`; None stands for an invalid date, which
      matches no day, no week and no range. */
  function CompletedAt(t: CompletedTask): Option<int>
  {
    if t.updatedAt.Some? then t.updatedAt else t.createdAt
  }

  predicate OnDay(t: CompletedTask, day: int)
  {
    CompletedAt(t).Some? && DayOf(CompletedAt(t).value) == day
  }

  predicate CreditedToWeek(t: CompletedTask, starts: seq<int>, w: nat)
  {
    CompletedAt(t).Some? && FirstWeek(CompletedAt(t).value, starts) == Some(w)
  }

  predicate Since(t: CompletedTask, cutoff: int)
  {
    CompletedAt(t).Some? && CompletedAt(t).value >= cutoff
  }

  predicate Timed(t: CompletedTask)
  {
    t.createdAt.Some? && t.updatedAt.Some?
  }

  function CountOnDay(ts: seq<CompletedTask>, day: int): nat
  {
    if ts == [] then 0
    else CountOnDay(ts[..|ts| - 1], day) + (if OnDay(ts[|ts| - 1], day) then 1 else 0)
  }

  function CountInWeek(ts: seq<CompletedTask>, starts: seq<int>, w: nat): nat
  {
    if ts == [] then 0
    else CountInWeek(ts[..|ts| - 1], starts, w) + (if CreditedToWeek(ts[|ts| - 1], starts, w) then 1 else 0)
  }

  function CountOnDaySince(ts: seq<CompletedTask>, day: int, cutoff: int): nat
  {
    if ts == [] then 0
    else CountOnDaySince(ts[..|ts| - 1], day, cutoff) + (if OnDay(ts[|ts| - 1], day) && Since(ts[|ts| - 1], cutoff) then 1 else 0)
  }

  function TotalDuration(ts: seq<CompletedTask>): int
  {
    if ts == [] then 0
    else
      var t := ts[|ts| - 1];
      TotalDuration(ts[..|ts| - 1]) + (if Timed(t) then t.updatedAt.value - t.createdAt.value else 0)
  }

  function CountTimed(ts: seq<CompletedTask>): nat
  {
    if ts == [] then 0 else CountTimed(ts[..|ts| - 1]) + (if Timed(ts[|ts| - 1]) then 1 else 0)
  }

  /** dayCounts as the object holds it: one entry per date, in the order
      the dates were first seen. */
  type DayCounts = seq<(int, nat)>

  function KeyIndex(counts: DayCounts, day: int): (i: nat)
    ensures i <= |counts|
    ensures i < |counts| ==> counts[i].0 == day
    ensures forall k :: 0 <= k < i ==> counts[k].0 != day
  {
    if counts == [] then 0
    else if counts[0].0 == day then 0
    else 1 + KeyIndex(counts[1..], day)
  }

  /** `dayCounts[key] = (dayCounts[key] || 0) + 1`. */
  function Bump(counts: DayCounts, day: int): DayCounts
  {
    var i := KeyIndex(counts, day);
    if i < |counts| then counts[i := (day, counts[i].1 + 1)] else counts + [(day, 1)]
  }

  function DayTally(ts: seq<CompletedTask>, cutoff: int): DayCounts
  {
    if ts == [] then []
    else
      var t := ts[|ts| - 1];
      var acc := DayTally(ts[..|ts| - 1], cutoff);
      if Since(t, cutoff) then Bump(acc, DayOf(CompletedAt(t).value)) else acc
  }

  predicate DistinctKeys(counts: DayCounts)
  {
    forall i, j :: 0 <= i < j < |counts| ==> counts[i].0 != counts[j].0
  }

  /** Bumping a day adds one to that day's entry, appending it when it is
      new, and leaves the other entries and their order alone. */
  lemma BumpSpec(acc: DayCounts, day: int)
    requires DistinctKeys(acc)
    ensures DistinctKeys(Bump(acc, day))
    ensures |acc| <= |Bump(acc, day)| <= |acc| + 1
    ensures forall i :: 0 <= i < |acc| ==> Bump(acc, day)[i].0 == acc[i].0
    ensures forall i :: 0 <= i < |Bump(acc, day)| ==>
              Bump(acc, day)[i].1 == (if i < |acc| then acc[i].1 else 0) + (if Bump(acc, day)[i].0 == day then 1 else 0)
    ensures |Bump(acc, day)| == |acc| + 1 ==> Bump(acc, day)[|acc|].0 == day
    ensures KeyIndex(Bump(acc, day), day) < |Bump(acc, day)|
  {
    var i := KeyIndex(acc, day);
    if i == |acc| {
      KeyIndexBound(Bump(acc, day), day, i);
    }
  }

  /** What one more task adds to a day's count since the cutoff. */
  lemma CountSinceStep(ts: seq<CompletedTask>, t: CompletedTask, cutoff: int)
    ensures forall d :: CountOnDaySince(ts + [t], d, cutoff) ==
              CountOnDaySince(ts, d, cutoff) + (if OnDay(t, d) && Since(t, cutoff) then 1 else 0)
  {
    assert (ts + [t])[..|ts|] == ts;
  }

  /** The tally holds each day at most once, with the number of tasks
      completed that day since the cutoff. */
  lemma {:induction false} DayTallyEntries(ts: seq<CompletedTask>, cutoff: int)
    ensures DistinctKeys(DayTally(ts, cutoff))
    ensures forall i :: 0 <= i < |DayTally(ts, cutoff)| ==>
              DayTally(ts, cutoff)[i].1 == CountOnDaySince(ts, DayTally(ts, cutoff)[i].0, cutoff) > 0
    decreases |ts|
  {
    if ts != [] {
      var pre := ts[..|ts| - 1];
      var t := ts[|ts| - 1];
      assert ts == pre + [t];
      DayTallyEntries(pre, cutoff);
      CountSinceStep(pre, t, cutoff);
      if Since(t, cutoff) {
        var acc := DayTally(pre, cutoff);
        var day := DayOf(CompletedAt(t).value);
        DayTallyComplete(pre, cutoff);
        BumpSpec(acc, day);
        var r := DayTally(ts, cutoff);
        forall i | 0 <= i < |r| ensures r[i].1 == CountOnDaySince(ts, r[i].0, cutoff) > 0 {
          if i == |acc| {
            assert r[i].0 == day;
            assert KeyIndex(acc, day) == |acc|;
            assert CountOnDaySince(pre, day, cutoff) == 0;
          }
        }
      }
    }
  }

  /** Every day with a task completed since the cutoff is in the tally. */
  lemma {:induction false} DayTallyComplete(ts: seq<CompletedTask>, cutoff: int)
    ensures forall d :: CountOnDaySince(ts, d, cutoff) > 0 ==> KeyIndex(DayTally(ts, cutoff), d) < |DayTally(ts, cutoff)|
    decreases |ts|
  {
    if ts != [] {
      var pre := ts[..|ts| - 1];
      var t := ts[|ts| - 1];
      assert ts == pre + [t];
      DayTallyComplete(pre, cutoff);
      DayTallyEntries(pre, cutoff);
      CountSinceStep(pre, t, cutoff);
      var acc := DayTally(pre, cutoff);
      var r := DayTally(ts, cutoff);
      if Since(t, cutoff) {
        var day := DayOf(CompletedAt(t).value);
        BumpSpec(acc, day);
        forall d | CountOnDaySince(ts, d, cutoff) > 0 ensures KeyIndex(r, d) < |r| {
          if d != day {
            var j := KeyIndex(acc, d);
            assert r[j].0 == d;
            KeyIndexBound(r, d, j);
          }
        }
      }
    }
  }

  lemma KeyIndexBound(counts: DayCounts, day: int, j: nat)
    requires j < |counts| && counts[j].0 == day
    ensures KeyIndex(counts, day) <= j
  {
  }

  /** Position of the first element equal to `x` (Array.prototype.findIndex). */
  function IndexOf(s: seq<int>, x: int): (i: nat)
    ensures i <= |s|
    ensures i < |s| ==> s[i] == x
    ensures forall k :: 0 <= k < i ==> s[k] != x
  {
    if s == [] then 0 else if s[0] == x then 0 else 1 + IndexOf(s[1..], x)
  }

  /** The instant thirty days back, inclusive of today: now minus 29 days. */
  function Cutoff(now: int): int
  {
    now - 29 * 86400000
  }

  /** tasksCompletedLast7Days' counts, oldest day first. */
  function DayBuckets(ts: seq<CompletedTask>, today: int): (r: seq<int>)
    ensures |r| == 7
  {
    seq(7, k => CountOnDay(ts, today - 6 + k))
  }

  /** The count of each week of a list of week starts. */
  function WeekCounts(ts: seq<CompletedTask>, weeks: seq<int>): (r: seq<int>)
    ensures |r| == |weeks|
  {
    seq(|weeks|, w requires 0 <= w < |weeks| => CountInWeek(ts, weeks, w))
  }

  lemma DayBucketsMeaning(ts: seq<CompletedTask>, today: int)
    ensures forall k :: 0 <= k < 7 ==> DayBuckets(ts, today)[k] == CountOnDay(ts, today - 6 + k)
  {
  }

  /** tasksCompletedLast4Weeks' counts, oldest week first. */
  function WeekBuckets(ts: seq<CompletedTask>, today: int): (r: seq<int>)
    ensures |r| == 4
  {
    WeekCounts(ts, WeekStarts(today))
  }

  lemma WeekBucketsMeaning(ts: seq<CompletedTask>, today: int)
    ensures forall w :: 0 <= w < 4 ==> WeekBuckets(ts, today)[w] == CountInWeek(ts, WeekStarts(today), w)
  {
  }

  /** The findIndex step: bumps the bucket of the task's day, if it is
      one of the seven. */
  method CreditDay(buckets: array<int>, today: int, t: CompletedTask)
    requires buckets.Length == 7
    modifies buckets
    ensures forall k :: 0 <= k < 7 ==> buckets[k] == old(buckets[k]) + (if OnDay(t, today - 6 + k) then 1 else 0)
  {
    if CompletedAt(t).None? {
      return;
    }
    var c := CompletedAt(t).value;
    var days := LastSevenDays(today);
    var idx := IndexOf(days, DayOf(c));
    if idx < 7 {
      buckets[idx] := buckets[idx] + 1;
    }
    forall k | 0 <= k < 7
      ensures buckets[k] == old(buckets[k]) + (if DayOf(c) == today - 6 + k then 1 else 0)
    {
      assert days[k] == today - 6 + k;
      if k < idx {
        assert days[k] != DayOf(c);
      } else if k > idx {
        assert days[idx] == DayOf(c);
      }
    }
  }

  /** The inner week loop: bumps the first week containing the task's
      instant, and stops there. */
  method CreditWeek(buckets: array<int>, weeks: seq<int>, t: CompletedTask)
    requires buckets.Length == |weeks|
    modifies buckets
    ensures forall k :: 0 <= k < |weeks| ==> buckets[k] == old(buckets[k]) + (if CreditedToWeek(t, weeks, k) then 1 else 0)
  {
    if CompletedAt(t).None? {
      return;
    }
    var c := CompletedAt(t).value;
    var w := 0;
    while w < |weeks|
      invariant 0 <= w <= |weeks|
      invariant forall k :: 0 <= k < w ==> !InWeek(c, weeks[k])
      invariant buckets[..] == old(buckets[..])
    {
      if InWeek(c, weeks[w]) {
        buckets[w] := buckets[w] + 1;
        assert FirstWeek(c, weeks) == Some(w);
        break;
      }
      w := w + 1;
    }
  }

  /** What one more task adds to the running counts of the tally, the sum
      and the number of timed tasks. */
  lemma TallyStep(ts: seq<CompletedTask>, t: CompletedTask, cutoff: int)
    ensures DayTally(ts + [t], cutoff) ==
              if Since(t, cutoff) then Bump(DayTally(ts, cutoff), DayOf(CompletedAt(t).value)) else DayTally(ts, cutoff)
    ensures TotalDuration(ts + [t]) == TotalDuration(ts) + (if Timed(t) then t.updatedAt.value - t.createdAt.value else 0)
    ensures CountTimed(ts + [t]) == CountTimed(ts) + (if Timed(t) then 1 else 0)
  {
    assert (ts + [t])[..|ts|] == ts;
  }

  /** One more task adds one to the bucket of each of the seven days it
      lies on (at most one). */
  lemma DayBucketsStep(ts: seq<CompletedTask>, t: CompletedTask, today: int, before: seq<int>, after: seq<int>)
    requires before == DayBuckets(ts, today)
    requires |after| == 7
    requires forall k :: 0 <= k < 7 ==> after[k] == before[k] + (if OnDay(t, today - 6 + k) then 1 else 0)
    ensures after == DayBuckets(ts + [t], today)
  {
    assert (ts + [t])[..|ts|] == ts;
    forall k | 0 <= k < 7 ensures after[k] == DayBuckets(ts + [t], today)[k] {
      assert DayBuckets(ts + [t], today)[k] == CountOnDay(ts + [t], today - 6 + k);
      assert before[k] == CountOnDay(ts, today - 6 + k);
    }
  }

  /** One more task adds one to the bucket of the week it is credited to. */
  lemma WeekBucketsStep(ts: seq<CompletedTask>, t: CompletedTask, today: int, before: seq<int>, after: seq<int>)
    requires before == WeekBuckets(ts, today)
    requires |after| == 4
    requires forall w :: 0 <= w < 4 ==> after[w] == before[w] + (if CreditedToWeek(t, WeekStarts(today), w) then 1 else 0)
    ensures after == WeekBuckets(ts + [t], today)
  {
    assert (ts + [t])[..|ts|] == ts;
  }

  /** Before any task, every bucket is empty. */
  lemma EmptyBuckets(today: int)
    ensures DayBuckets([], today) == [0, 0, 0, 0, 0, 0, 0]
    ensures WeekBuckets([], today) == [0, 0, 0, 0]
  {
    forall k | 0 <= k < 7 ensures DayBuckets([], today)[k] == 0 {
      assert DayBuckets([], today)[k] == CountOnDay([], today - 6 + k);
    }
  }

  /** The body of personalStats' loop, for one completed task. */
  method AddCompletion(dayBuckets: array<int>, weekBuckets: array<int>, today: int, cutoff: int,
                       ghost done: seq<CompletedTask>, t: CompletedTask,
                       dayCounts: DayCounts, totalMs: int, timed: nat)
    returns (dayCounts': DayCounts, totalMs': int, timed': nat)
    requires dayBuckets != weekBuckets
    requires dayBuckets[..] == DayBuckets(done, today) && weekBuckets[..] == WeekBuckets(done, today)
    requires dayCounts == DayTally(done, cutoff)
    requires totalMs == TotalDuration(done) && timed == CountTimed(done)
    modifies dayBuckets, weekBuckets
    ensures dayBuckets[..] == DayBuckets(done + [t], today) && weekBuckets[..] == WeekBuckets(done + [t], today)
    ensures dayCounts' == DayTally(done + [t], cutoff)
    ensures totalMs' == TotalDuration(done + [t]) && timed' == CountTimed(done + [t])
  {
    TallyStep(done, t, cutoff);
    ghost var daysBefore, weeksBefore := dayBuckets[..], weekBuckets[..];
    CreditDay(dayBuckets, today, t);
    CreditWeek(weekBuckets, WeekStarts(today), t);
    DayBucketsStep(done, t, today, daysBefore, dayBuckets[..]);
    WeekBucketsStep(done, t, today, weeksBefore, weekBuckets[..]);
    dayCounts', totalMs', timed' := dayCounts, totalMs, timed;
    var completed := CompletedAt(t);
    if completed.Some? && completed.value >= cutoff {
      dayCounts' := Bump(dayCounts, DayOf(completed.value));
    }
    if t.createdAt.Some? && t.updatedAt.Some? {
      totalMs' := totalMs + (t.updatedAt.value - t.createdAt.value);
      timed' := timed + 1;
    }
  }

  /** personalStats' loop: every completed task bumps the bucket of its
      day among the last seven days, the first of the four weeks it falls
      in, the count of its day when it lies within the last thirty days,
      and the duration sum when it has both timestamps. */
  method TallyCompletions(tasks: seq<CompletedTask>, now: int)
    returns (byDay: seq<int>, byWeek: seq<int>, dayCounts: DayCounts, totalMs: int, timed: nat)
    ensures |byDay| == 7 && forall k :: 0 <= k < 7 ==> byDay[k] == CountOnDay(tasks, DayOf(now) - 6 + k)
    ensures |byWeek| == 4 && forall w :: 0 <= w < 4 ==> byWeek[w] == CountInWeek(tasks, WeekStarts(DayOf(now)), w)
    ensures dayCounts == DayTally(tasks, Cutoff(now))
    ensures totalMs == TotalDuration(tasks) && timed == CountTimed(tasks)
  {
    var today := DayOf(now);
    var dayBuckets := new int[7](_ => 0);
    var weekBuckets := new int[4](_ => 0);
    dayCounts, totalMs, timed := [], 0, 0;
    EmptyBuckets(today);
    assert dayBuckets[..] == [0, 0, 0, 0, 0, 0, 0];
    assert weekBuckets[..] == [0, 0, 0, 0];
    var i := 0;
    while i < |tasks|
      invariant 0 <= i <= |tasks|
      invariant dayBuckets[..] == DayBuckets(tasks[..i], today)
      invariant weekBuckets[..] == WeekBuckets(tasks[..i], today)
      invariant dayCounts == DayTally(tasks[..i], Cutoff(now))
      invariant totalMs == TotalDuration(tasks[..i]) && timed == CountTimed(tasks[..i])
    {
      assert tasks[..i + 1] == tasks[..i] + [tasks[i]];
      dayCounts, totalMs, timed :=
        AddCompletion(dayBuckets, weekBuckets, today, Cutoff(now), tasks[..i], tasks[i], dayCounts, totalMs, timed);
      i := i + 1;
    }
    assert tasks[..i] == tasks;
    byDay, byWeek := dayBuckets[..], weekBuckets[..];
    DayBucketsMeaning(tasks, today);
    WeekBucketsMeaning(tasks, today);
  }

  /** Sum of a list of counts. */
  function Sum(s: seq<int>): int
  {
    if s == [] then 0 else Sum(s[..|s| - 1]) + s[|s| - 1]
  }

  /** A task lies on at most one of the seven days, so the seven buckets
      add up to no more than the number of tasks. */
  lemma {:induction false} DayBucketsBounded(ts: seq<CompletedTask>, today: int)
    ensures Sum(DayBuckets(ts, today)) <= |ts|
  {
    if ts == [] {
      EmptyBuckets(today);
      SumOfZeros(DayBuckets(ts, today));
    } else {
      var pre := ts[..|ts| - 1];
      var t := ts[|ts| - 1];
      DayBucketsBounded(pre, today);
      var hit := seq(7, k => if OnDay(t, today - 6 + k) then 1 else 0);
      forall k | 0 <= k < 7 ensures DayBuckets(ts, today)[k] == DayBuckets(pre, today)[k] + hit[k] {
        assert DayBuckets(ts, today)[k] == CountOnDay(ts, today - 6 + k);
        assert DayBuckets(pre, today)[k] == CountOnDay(pre, today - 6 + k);
      }
      SumPointwise(DayBuckets(pre, today), hit, DayBuckets(ts, today));
      forall i, j | 0 <= i < j < 7 ensures hit[i] == 0 || hit[j] == 0 {
        assert hit[i] == if OnDay(t, today - 6 + i) then 1 else 0;
        assert hit[j] == if OnDay(t, today - 6 + j) then 1 else 0;
      }
      AtMostOneHit(hit);
    }
  }

  /** A task is credited to at most one week, so the week buckets add up
      to no more than the number of tasks. */
  lemma {:induction false} WeekBucketsBounded(ts: seq<CompletedTask>, weeks: seq<int>)
    ensures Sum(WeekCounts(ts, weeks)) <= |ts|
  {
    if ts == [] {
      SumOfZeros(WeekCounts(ts, weeks));
    } else {
      var pre := ts[..|ts| - 1];
      var t := ts[|ts| - 1];
      WeekBucketsBounded(pre, weeks);
      var hit := seq(|weeks|, w requires 0 <= w < |weeks| => if CreditedToWeek(t, weeks, w) then 1 else 0);
      forall w | 0 <= w < |weeks| ensures WeekCounts(ts, weeks)[w] == WeekCounts(pre, weeks)[w] + hit[w] {
        assert WeekCounts(ts, weeks)[w] == CountInWeek(ts, weeks, w);
        assert WeekCounts(pre, weeks)[w] == CountInWeek(pre, weeks, w);
      }
      SumPointwise(WeekCounts(pre, weeks), hit, WeekCounts(ts, weeks));
      AtMostOneHit(hit);
    }
  }

  lemma {:induction false} SumOfZeros(s: seq<int>)
    requires forall k :: 0 <= k < |s| ==> s[k] == 0
    ensures Sum(s) == 0
  {
    if s != [] {
      SumOfZeros(s[..|s| - 1]);
    }
  }

  lemma {:induction false} SumPointwise(a: seq<int>, b: seq<int>, c: seq<int>)
    requires |a| == |b| == |c|
    requires forall k :: 0 <= k < |c| ==> c[k] == a[k] + b[k]
    ensures Sum(c) == Sum(a) + Sum(b)
  {
    if c != [] {
      SumPointwise(a[..|a| - 1], b[..|b| - 1], c[..|c| - 1]);
    }
  }

  /** A list of zeros with at most one one sums to at most one. */
  lemma {:induction false} AtMostOneHit(h: seq<int>)
    requires forall k :: 0 <= k < |h| ==> h[k] == 0 || h[k] == 1
    requires forall i, j :: 0 <= i < j < |h| ==> h[i] == 0 || h[j] == 0
    ensures 0 <= Sum(h) <= 1
    ensures Sum(h) == 1 ==> exists k :: 0 <= k < |h| && h[k] == 1
  {
    if h != [] {
      var pre := h[..|h| - 1];
      AtMostOneHit(pre);
      if Sum(pre) == 1 {
        var k :| 0 <= k < |pre| && pre[k] == 1;
        assert h[k] == 1;
      }
    }
  }

  /** mostProductiveDay's loop: the first day whose count is strictly
      greater than every count before it and no smaller than any after;
      none when no day has a positive count. */
  method MostProductive(counts: DayCounts) returns (best: Option<int>, mostCount: nat)
    ensures best.None? <==> forall k :: 0 <= k < |counts| ==> counts[k].1 == 0
    ensures best.None? ==> mostCount == 0
    ensures forall k :: 0 <= k < |counts| ==> counts[k].1 <= mostCount
    ensures best.Some? ==> exists i :: 0 <= i < |counts| && counts[i] == (best.value, mostCount) &&
                                       forall k :: 0 <= k < i ==> counts[k].1 < mostCount
  {
    best, mostCount := None, 0;
    ghost var at := 0;
    for i := 0 to |counts|
      invariant best.None? <==> forall k :: 0 <= k < i ==> counts[k].1 == 0
      invariant best.None? ==> mostCount == 0
      invariant forall k :: 0 <= k < i ==> counts[k].1 <= mostCount
      invariant best.Some? ==> 0 <= at < i && counts[at] == (best.value, mostCount) &&
                               forall k :: 0 <= k < at ==> counts[k].1 < mostCount
    {
      if counts[i].1 > mostCount {
        mostCount := counts[i].1;
        best := Some(counts[i].0);
        at := i;
      }
    }
  }

  /** The personal statistics response. */
  datatype PersonalReport = PersonalReport(
    last7Days: seq<(int, int)>,
    last4Weeks: seq<(int, int)>,
    averageMs: int,
    averageHuman: string,
    mostProductive: Option<(int, nat)>)

  /** A bound on every entry of the tally bounds every day's count. */
  lemma TallyMaximum(ts: seq<CompletedTask>, cutoff: int, m: nat)
    requires forall k :: 0 <= k < |DayTally(ts, cutoff)| ==> DayTally(ts, cutoff)[k].1 <= m
    ensures forall d :: CountOnDaySince(ts, d, cutoff) <= m
  {
    DayTallyEntries(ts, cutoff);
    DayTallyComplete(ts, cutoff);
    forall d ensures CountOnDaySince(ts, d, cutoff) <= m {
      if CountOnDaySince(ts, d, cutoff) > 0 {
        var j := KeyIndex(DayTally(ts, cutoff), d);
        assert DayTally(ts, cutoff)[j].1 <= m;
      }
    }
  }

  /** personalStats over the caller's completed tasks at instant `now`. */
  method PersonalStats(tasks: seq<CompletedTask>, now: int) returns (r: PersonalReport)
    ensures |r.last7Days| == 7 && forall k :: 0 <= k < 7 ==>
              r.last7Days[k] == (DayOf(now) - 6 + k, CountOnDay(tasks, DayOf(now) - 6 + k))
    ensures |r.last4Weeks| == 4 && forall w :: 0 <= w < 4 ==>
              r.last4Weeks[w] == (WeekStarts(DayOf(now))[w], CountInWeek(tasks, WeekStarts(DayOf(now)), w))
    ensures r.averageMs == AverageMs(TotalDuration(tasks), CountTimed(tasks))
    ensures r.averageHuman == MsToHuman(r.averageMs)
    ensures r.mostProductive.None? <==> DayTally(tasks, Cutoff(now)) == []
    ensures r.mostProductive.Some? ==>
              CountOnDaySince(tasks, r.mostProductive.value.0, Cutoff(now)) == r.mostProductive.value.1 &&
              forall d :: CountOnDaySince(tasks, d, Cutoff(now)) <= r.mostProductive.value.1
  {
    var byDay, byWeek, dayCounts, totalMs, timed := TallyCompletions(tasks, now);
    var days := LastSevenDays(DayOf(now));
    var weeks := WeekStarts(DayOf(now));
    var best, mostCount := MostProductive(dayCounts);
    DayTallyEntries(tasks, Cutoff(now));
    var average := AverageMs(totalMs, timed);
    var most: Option<(int, nat)> := if best.Some? then Some((best.value, mostCount)) else None;
    r := PersonalReport(seq(7, k requires 0 <= k < 7 => (days[k], byDay[k] as int)),
                        seq(4, w requires 0 <= w < 4 => (weeks[w], byWeek[w] as int)),
                        average, MsToHuman(average), most);
    assert dayCounts != [] ==> dayCounts[0].1 > 0;
    if best.Some? {
      TallyMaximum(tasks, Cutoff(now), mostCount);
    }
  }

  // ---------------------------------------------------------------------
  // folderInsights, for one folder
  // ---------------------------------------------------------------------

  datatype Insight = Insight(total: nat, completed: nat, overdue: nat, percentComplete: int)

  /** The start of the day after `now`: tasks due before it are overdue. */
  function StartOfTomorrow(now: int): int
  {
    (DayOf(now) + 1) * 86400000
  }

  /** The three counts of a folder's tasks and its completion percentage. */
  function FolderInsight(tasks: map<TaskId, Store.Task>, fid: FolderId, now: int): (r: Insight)
    ensures r.completed + r.overdue <= r.total
    ensures 0 <= r.percentComplete <= 100
    ensures r.total == 0 ==> r.percentComplete == 0
    ensures r.total > 0 && r.completed == r.total ==> r.percentComplete == 100 && r.overdue == 0
    ensures r.percentComplete == PercentComplete(r.completed, r.total)
  {
    var all := set id | id in tasks && tasks[id].folderId == fid;
    var done := set id | id in all && tasks[id].completed;
    var late := set id | id in all && !tasks[id].completed && tasks[id].dueDate.Some? &&
                         tasks[id].dueDate.value < StartOfTomorrow(now);
    assert done !! late;
    assert done + late <= all;
    SubsetCard(done + late, all);
    SubsetCard(done, all);
    Insight(|all|, |done|, |late|, PercentComplete(|done|, |all|))
  }

  lemma SubsetCard<T>(a: set<T>, b: set<T>)
    requires a <= b
    ensures |a| <= |b|
    ensures |a| == |b| ==> a == b
  {
    if a != b {
      var x :| x in b && x !in a;
      assert a <= b - {x};
      SubsetCardStrict(a, b - {x});
    }
  }

  lemma {:induction false} SubsetCardStrict<T>(a: set<T>, b: set<T>)
    requires a <= b
    ensures |a| <= |b|
    decreases |b|
  {
    if a != {} {
      var y :| y in a;
      SubsetCardStrict(a - {y}, b - {y});
    }
  }
}
