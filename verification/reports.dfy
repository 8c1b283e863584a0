/**
 The reports screen: the fixed three-bucket booking status chart and the
 revenue and booking series, bucketed per day over the report period and
 regrouped per week or month when the period is long.

 Dates are millisecond timestamps; a day is a UTC day number
 (`toISOString().split('T')[0]`). The month of a day is the prefix of
 that UTC date and the week is built from local `getDate`/`getDay`; both
 are a parameter here.
 */
module Reports {
  import opened Common
  import opened Sorting
  import opened View
  import opened Tables
  import opened Grouping

  // ---------------------------------------------------------------------------
  // getBookingStatusData
  // ---------------------------------------------------------------------------

  /** Labels and values of a report chart. */
  datatype Series = Series(labels: seq<string>, data: seq<int>)

  const StatusBuckets: seq<string> := ["CONFIRMED", "PENDING", "CANCELLED"]
  const StatusLabels: seq<string> := ["Đã xác nhận", "Chờ xử lý", "Đã hủy"]

  /** `booking.bookingStatus || 'PENDING'`. */
  function ReportStatus(b: Booking): string
  {
    OrElse(b.bookingStatus, "PENDING")
  }

  function StatusIs(status: string): Booking -> bool
  {
    b => ReportStatus(b) == status
  }

  /** Counters of the three statuses, one booking at a time; any other
      status is skipped. */
  function TallyStatuses(bs: seq<Booking>): (r: seq<nat>)
    ensures |r| == 3
    ensures forall k :: 0 <= k < 3 ==> r[k] == CountIf(bs, StatusIs(StatusBuckets[k]))
  {
    if |bs| == 0 then [0, 0, 0]
    else
      var rest := TallyStatuses(bs[1..]);
      var s := ReportStatus(bs[0]);
      if s == "CONFIRMED" then rest[0 := rest[0] + 1]
      else if s == "PENDING" then rest[1 := rest[1] + 1]
      else if s == "CANCELLED" then rest[2 := rest[2] + 1]
      else rest
  }

  /** Always three buckets in the order confirmed, pending, cancelled. */
  function BookingStatusData(bs: seq<Booking>): (c: Series)
    ensures c.labels == StatusLabels && |c.data| == 3
    ensures forall k :: 0 <= k < 3 ==> c.data[k] == CountIf(bs, StatusIs(StatusBuckets[k]))
  {
    var counts := TallyStatuses(bs);
    Series(StatusLabels, [counts[0], counts[1], counts[2]])
  }

  predicate Bucketed(b: Booking)
  {
    ReportStatus(b) in StatusBuckets
  }

  /** The buckets count every booking exactly when no booking carries a
      status outside the three; a missing status counts as pending. */
  lemma {:induction false} StatusDataTotal(bs: seq<Booking>)
    ensures var d := BookingStatusData(bs).data; d[0] + d[1] + d[2] <= |bs|
    ensures var d := BookingStatusData(bs).data;
      d[0] + d[1] + d[2] == |bs| <==> forall i :: 0 <= i < |bs| ==> Bucketed(bs[i])
    decreases |bs|
  {
    if |bs| > 0 {
      StatusDataTotal(bs[1..]);
      assert forall i :: 1 <= i < |bs| ==> bs[i] == bs[1..][i - 1];
    }
  }

  // ---------------------------------------------------------------------------
  // getDailyRevenueData / getDailyBookingsData
  // ---------------------------------------------------------------------------

  const DayMs: pos := 86400000

  /** The UTC day of a timestamp. */
  function DayOf(t: int): int
  {
    t / DayMs
  }

  /** `a || b || Date.now()` on two optional timestamps. */
  function FirstTime(a: Option<int>, b: Option<int>, now: int): int
  {
    if a.Some? then a.value else if b.Some? then b.value else now
  }

  /** `Math.ceil((end - start) / DayMs)`. */
  function DaysDiff(start: int, end: int): (d: int)
    ensures d * DayMs >= end - start > (d - 1) * DayMs
  {
    if end >= start then CeilDiv(end - start, DayMs) else -((start - end) / DayMs)
  }

  datatype Granularity = Daily | Weekly | Monthly

  /** Months above 365 days, weeks above 30, days otherwise. */
  function GranularityOf(start: int, end: int): (g: Granularity)
    ensures g == Monthly <==> end - start > 365 * DayMs
    ensures g == Weekly <==> 30 * DayMs < end - start <= 365 * DayMs
    ensures g == Daily <==> end - start <= 30 * DayMs
  {
    var d := DaysDiff(start, end);
    if d > 365 then Monthly else if d > 30 then Weekly else Daily
  }

  /** The number of days the initialising loop visits: `start`, then one
      day later, and so on while not past `end`. */
  function BucketCount(start: int, end: int): (n: nat)
    ensures n == 0 <==> end < start
    ensures n > 0 ==> start + (n - 1) * DayMs <= end < start + n * DayMs
  {
    if end < start then 0 else (end - start) / DayMs + 1
  }

  /** The loop's `k`-th timestamp falls on the `k`-th day after the first. */
  lemma BucketDay(start: int, k: nat)
    ensures DayOf(start + k * DayMs) == DayOf(start) + k
  {
  }

  /** A record reduced to its day and the value it adds. */
  datatype Entry = Entry(day: int, amount: int)

  function AmountOn(d: int): Entry -> int
  {
    (e: Entry) => if e.day == d then e.amount else 0
  }

  function InRangeAmount(first: int, n: nat): Entry -> int
  {
    (e: Entry) => if first <= e.day < first + n then e.amount else 0
  }

  /** Adds one record to its day's bucket; a day outside the buckets is
      ignored (`hasOwnProperty`). */
  function AddEntry(buckets: seq<int>, first: int, e: Entry): (r: seq<int>)
    ensures |r| == |buckets|
  {
    if first <= e.day < first + |buckets| then buckets[e.day - first := buckets[e.day - first] + e.amount]
    else buckets
  }

  /** `n` zeroed buckets, then the records added in order. */
  function Fill(es: seq<Entry>, first: int, n: nat): (r: seq<int>)
    ensures |r| == n
  {
    if |es| == 0 then seq(n, k => 0) else AddEntry(Fill(es[..|es| - 1], first, n), first, es[|es| - 1])
  }

  lemma {:induction false} FillPerDay(es: seq<Entry>, first: int, n: nat, k: nat)
    requires k < n
    ensures Fill(es, first, n)[k] == SumOf(es, AmountOn(first + k))
    decreases |es|
  {
    if |es| > 0 {
      var init, last := es[..|es| - 1], es[|es| - 1];
      assert es == init + [last];
      FillPerDay(init, first, n, k);
      SumOfAppend(init, [last], AmountOn(first + k));
    }
  }

  lemma SumZeros(n: nat)
    ensures Sum(seq(n, k => 0)) == 0
  {
    if n > 0 {
      assert seq(n, k => 0)[..n - 1] == seq(n - 1, k => 0);
      SumZeros(n - 1);
    }
  }

  lemma {:induction false} SumUpdate(s: seq<int>, j: nat, a: int)
    requires j < |s|
    ensures Sum(s[j := s[j] + a]) == Sum(s) + a
    decreases |s|
  {
    var t := s[j := s[j] + a];
    if j < |s| - 1 {
      assert t[..|t| - 1] == s[..|s| - 1][j := s[j] + a];
      SumUpdate(s[..|s| - 1], j, a);
    } else {
      assert t[..|t| - 1] == s[..|s| - 1];
    }
  }

  lemma {:induction false} FillTotal(es: seq<Entry>, first: int, n: nat)
    ensures Sum(Fill(es, first, n)) == SumOf(es, InRangeAmount(first, n))
    decreases |es|
  {
    if |es| == 0 {
      SumZeros(n);
    } else {
      var init, last := es[..|es| - 1], es[|es| - 1];
      assert es == init + [last];
      FillTotal(init, first, n);
      SumOfAppend(init, [last], InRangeAmount(first, n));
      if first <= last.day < first + n {
        SumUpdate(Fill(init, first, n), last.day - first, last.amount);
      }
    }
  }

  /** Every day of the period gets a bucket holding the total of its
      records; records outside the period add nothing. */
  function DailyBuckets(es: seq<Entry>, first: int, n: nat): (r: seq<int>)
    ensures |r| == n
    ensures forall k :: 0 <= k < n ==> r[k] == SumOf(es, AmountOn(first + k))
    ensures Sum(r) == SumOf(es, InRangeAmount(first, n))
  {
    forall k | 0 <= k < n ensures Fill(es, first, n)[k] == SumOf(es, AmountOn(first + k)) {
      FillPerDay(es, first, n, k);
    }
    FillTotal(es, first, n);
    Fill(es, first, n)
  }

  // ---------------------------------------------------------------------------
  // Weekly and monthly regrouping
  // ---------------------------------------------------------------------------

  function EntryDay(): Entry -> int
  {
    (e: Entry) => e.day
  }

  function EntryAmount(): Entry -> int
  {
    (e: Entry) => e.amount
  }

  /** The total of each listed key. */
  function KeySums(es: seq<Entry>, ks: seq<int>): (r: seq<int>)
    ensures |r| == |ks|
    ensures forall i :: 0 <= i < |ks| ==> r[i] == SumOf(es, AmountOn(ks[i]))
  {
    seq(|ks|, i requires 0 <= i < |ks| => SumOf(es, AmountOn(ks[i])))
  }

  lemma {:induction false} SumPointwise(a: seq<int>, b: seq<int>, c: seq<int>)
    requires |a| == |b| == |c|
    requires forall i :: 0 <= i < |c| ==> c[i] == a[i] + b[i]
    ensures Sum(c) == Sum(a) + Sum(b)
    decreases |c|
  {
    if |c| > 0 {
      var n := |c| - 1;
      SumPointwise(a[..n], b[..n], c[..n]);
    }
  }

  /** Over distinct keys, the one matching `e` collects its amount. */
  lemma {:induction false} OneKeySum(e: Entry, ks: seq<int>)
    requires Increasing(ks)
    ensures Sum(seq(|ks|, i requires 0 <= i < |ks| => AmountOn(ks[i])(e))) == if e.day in ks then e.amount else 0
    decreases |ks|
  {
    if |ks| > 0 {
      var n := |ks| - 1;
      var v := seq(|ks|, i requires 0 <= i < |ks| => AmountOn(ks[i])(e));
      assert v[..n] == seq(n, i requires 0 <= i < n => AmountOn(ks[..n][i])(e));
      OneKeySum(e, ks[..n]);
      assert e.day in ks <==> e.day in ks[..n] || e.day == ks[n] by {
        assert ks == ks[..n] + [ks[n]];
      }
      assert Sum(v) == Sum(v[..n]) + v[n];
      assert v[n] == AmountOn(ks[n])(e);
      if e.day == ks[n] {
        assert e.day !in ks[..n];
      }
    }
  }

  /** Summing per key over keys that cover every entry once gives the
      total: regrouping neither loses nor double counts. */
  lemma {:induction false} KeySumsTotal(es: seq<Entry>, ks: seq<int>)
    requires Increasing(ks)
    requires forall k :: 0 <= k < |es| ==> es[k].day in ks
    ensures Sum(KeySums(es, ks)) == SumOf(es, EntryAmount())
    decreases |es|
  {
    if |es| == 0 {
      SumZeros(|ks|);
      assert KeySums(es, ks) == seq(|ks|, k => 0);
    } else {
      var head := seq(|ks|, i requires 0 <= i < |ks| => AmountOn(ks[i])(es[0]));
      KeySumsTotal(es[1..], ks);
      OneKeySum(es[0], ks);
      SumPointwise(head, KeySums(es[1..], ks), KeySums(es, ks));
    }
  }

  datatype TimeSeries = TimeSeries(periods: seq<int>, data: seq<int>)

  /** The day buckets as entries keyed by their period. */
  function PeriodEntries(daily: seq<int>, first: int, period: int -> int): (es: seq<Entry>)
    ensures |es| == |daily|
    ensures forall k :: 0 <= k < |daily| ==> es[k] == Entry(period(first + k), daily[k])
  {
    seq(|daily|, k requires 0 <= k < |daily| => Entry(period(first + k), daily[k]))
  }

  lemma {:induction false} EntryAmountsSum(daily: seq<int>, first: int, period: int -> int)
    ensures SumOf(PeriodEntries(daily, first, period), EntryAmount()) == Sum(daily)
    decreases |daily|
  {
    if |daily| > 0 {
      var n := |daily| - 1;
      var es := PeriodEntries(daily, first, period);
      assert es == PeriodEntries(daily[..n], first, period) + [es[n]];
      EntryAmountsSum(daily[..n], first, period);
      SumOfAppend(PeriodEntries(daily[..n], first, period), [es[n]], EntryAmount());
    }
  }

  /** The day buckets merged per period (week or month), periods in
      ascending order; every period of a day is listed once and the total
      is kept. */
  function PeriodSeries(daily: seq<int>, first: int, period: int -> int): (r: TimeSeries)
    ensures |r.periods| == |r.data| && Increasing(r.periods)
    ensures forall k :: 0 <= k < |daily| ==> PeriodEntries(daily, first, period)[k].day in r.periods
    ensures forall i :: 0 <= i < |r.periods| ==> r.periods[i] in Project(PeriodEntries(daily, first, period), EntryDay())
    ensures forall i :: 0 <= i < |r.periods| ==> r.data[i] == SumOf(PeriodEntries(daily, first, period), AmountOn(r.periods[i]))
    ensures Sum(r.data) == Sum(daily)
  {
    var es := PeriodEntries(daily, first, period);
    var keys := Project(es, EntryDay());
    var ps := SortedKeys(keys);
    forall k | 0 <= k < |es| ensures es[k].day in ps {
      assert keys[k] == es[k].day;
    }
    KeySumsTotal(es, ps);
    EntryAmountsSum(daily, first, period);
    TimeSeries(ps, KeySums(es, ps))
  }

  // ---------------------------------------------------------------------------
  // The two report series
  // ---------------------------------------------------------------------------

  /** The period keys of a UTC day, both compared as text, which for
      four-digit years is their numeric order. `monthOf` is the `YYYY-MM`
      prefix of the day's UTC date; `weekOf` is the `YYYY-MM-Wn` key, which
      the code builds from the browser's local `getDate` and `getDay`. */
  datatype Calendar = Calendar(monthOf: int -> int, weekOf: int -> int)

  /** A payment falls on `createdAt || paymentDate || now` and adds its
      amount. */
  function PaymentEntry(now: int): Payment -> Entry
  {
    (p: Payment) => Entry(DayOf(FirstTime(p.createdAt, p.paymentDate, now)), p.amount)
  }

  /** A booking falls on `bookingDate || createdAt || now` and adds one. */
  function BookingEntry(now: int): Booking -> Entry
  {
    (b: Booking) => Entry(DayOf(FirstTime(b.bookingDate, b.createdAt, now)), 1)
  }

  function Days(first: int, n: nat): (r: seq<int>)
    ensures |r| == n && forall k :: 0 <= k < n ==> r[k] == first + k
  {
    seq(n, k => first + k)
  }

  /** Day buckets over the period, kept as they are or merged per week or
      month according to the period's length. */
  function SeriesOf(es: seq<Entry>, start: int, end: int, cal: Calendar): (r: TimeSeries)
    ensures |r.periods| == |r.data|
    ensures Sum(r.data) == SumOf(es, InRangeAmount(DayOf(start), BucketCount(start, end)))
    ensures GranularityOf(start, end) == Daily ==>
      r.periods == Days(DayOf(start), BucketCount(start, end))
      && forall k :: 0 <= k < |r.data| ==> r.data[k] == SumOf(es, AmountOn(DayOf(start) + k))
    ensures GranularityOf(start, end) != Daily ==> Increasing(r.periods)
  {
    var first, n := DayOf(start), BucketCount(start, end);
    var daily := DailyBuckets(es, first, n);
    match GranularityOf(start, end)
    case Daily => TimeSeries(Days(first, n), daily)
    case Weekly => PeriodSeries(daily, first, cal.weekOf)
    case Monthly => PeriodSeries(daily, first, cal.monthOf)
  }

  /** Revenue per day, week or month; payments outside the period are
      ignored. */
  function DailyRevenueData(payments: seq<Payment>, start: int, end: int, now: int, cal: Calendar): (r: TimeSeries)
    ensures |r.periods| == |r.data|
    ensures Sum(r.data) == SumOf(Project(payments, PaymentEntry(now)), InRangeAmount(DayOf(start), BucketCount(start, end)))
  {
    SeriesOf(Project(payments, PaymentEntry(now)), start, end, cal)
  }

  /** Bookings per day, week or month; the series adds up to the number of
      bookings dated within the period. */
  function DailyBookingsData(bookings: seq<Booking>, start: int, end: int, now: int, cal: Calendar): (r: TimeSeries)
    ensures |r.periods| == |r.data|
    ensures Sum(r.data) == SumOf(Project(bookings, BookingEntry(now)), InRangeAmount(DayOf(start), BucketCount(start, end)))
    ensures Sum(r.data) <= |bookings|
  {
    var es := Project(bookings, BookingEntry(now));
    InRangeCountBound(es, DayOf(start), BucketCount(start, end));
    SeriesOf(es, start, end, cal)
  }

  lemma {:induction false} InRangeCountBound(es: seq<Entry>, first: int, n: nat)
    requires forall k :: 0 <= k < |es| ==> es[k].amount == 1
    ensures 0 <= SumOf(es, InRangeAmount(first, n)) <= |es|
    decreases |es|
  {
    if |es| > 0 {
      InRangeCountBound(es[1..], first, n);
    }
  }
}
