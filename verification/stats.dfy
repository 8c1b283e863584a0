/**
 The dashboard of the admin screen: the chart data built from the loaded
 bookings and payments (count per payment method, count per booking status,
 cancellations, top airlines), the seat-class summary of a booking, and the
 headline figures.
 */
module Stats {
  import opened Common
  import opened Sorting
  import opened View
  import opened Tables
  import opened Grouping

  /** Labels and values handed to a chart. */
  datatype Chart = Chart(labels: seq<string>, data: seq<int>)

  /** Returned instead of an empty chart. */
  const NoData: string := "Chưa có dữ liệu"

  function Placeholder(): Chart
  {
    Chart([NoData], [1])
  }

  /** One slice per distinct key in order of first appearance, valued by
      how often the key occurs; the placeholder when there are no keys. */
  function CountByKey(keys: seq<string>): (c: Chart)
    ensures |keys| == 0 ==> c == Placeholder()
    ensures |keys| > 0 ==> c.labels == Dedup(keys) && |c.data| == |c.labels|
    ensures |keys| > 0 ==> forall i :: 0 <= i < |c.data| ==> c.data[i] == multiset(keys)[c.labels[i]]
    ensures |keys| > 0 ==> Sum(c.data) == |keys|
  {
    if |keys| == 0 then Placeholder()
    else
      var cs := CountBy(keys);
      Chart(CountKeys(cs), CountValues(cs))
  }

  // ---------------------------------------------------------------------------
  // getPaymentMethodStats / getBookingStatusStats
  // ---------------------------------------------------------------------------

  /** `x || 'UNKNOWN'`. */
  function KeyOrUnknown(o: Option<string>): string
  {
    OrElse(o, "UNKNOWN")
  }

  function MethodKeys(ps: seq<Payment>): (r: seq<string>)
    ensures |r| == |ps|
    ensures forall i :: 0 <= i < |ps| ==> r[i] == KeyOrUnknown(ps[i].paymentMethod)
  {
    seq(|ps|, i requires 0 <= i < |ps| => KeyOrUnknown(ps[i].paymentMethod))
  }

  function PaymentMethodStats(ps: seq<Payment>): (c: Chart)
    ensures |ps| == 0 ==> c == Placeholder()
    ensures |ps| > 0 ==> |c.labels| == |c.data| && Sum(c.data) == |ps|
    ensures |ps| > 0 ==> var keys := MethodKeys(ps);
      && c.labels == Dedup(keys)
      && (forall i :: 0 <= i < |c.data| ==> c.data[i] == multiset(keys)[c.labels[i]])
    ensures forall i :: 0 <= i < |ps| && (ps[i].paymentMethod.None? || ps[i].paymentMethod == Some("")) ==>
      |ps| > 0 && "UNKNOWN" in c.labels
  {
    var c := CountByKey(MethodKeys(ps));
    assert forall i :: 0 <= i < |ps| && (ps[i].paymentMethod.None? || ps[i].paymentMethod == Some("")) ==>
      "UNKNOWN" in c.labels by {
      forall i | 0 <= i < |ps| && (ps[i].paymentMethod.None? || ps[i].paymentMethod == Some(""))
        ensures "UNKNOWN" in c.labels
      {
        UnknownListed(ps, i);
      }
    }
    c
  }

  /** A payment without a method is counted under "UNKNOWN". */
  lemma UnknownListed(ps: seq<Payment>, i: nat)
    requires i < |ps| && (ps[i].paymentMethod.None? || ps[i].paymentMethod == Some(""))
    ensures "UNKNOWN" in CountByKey(MethodKeys(ps)).labels
  {
    var keys := MethodKeys(ps);
    assert keys[i] == "UNKNOWN";
    assert keys[i] in Dedup(keys);
  }

  /** The Vietnamese caption of a status; other statuses are shown as is. */
  function StatusCaption(status: string): string
  {
    if status == "CONFIRMED" then "Đã xác nhận"
    else if status == "PENDING" then "Chờ xử lý"
    else if status == "CANCELLED" then "Đã hủy"
    else if status == "UNKNOWN" then "Không xác định"
    else status
  }

  function StatusKeys(bs: seq<Booking>): (r: seq<string>)
    ensures |r| == |bs|
    ensures forall i :: 0 <= i < |bs| ==> r[i] == KeyOrUnknown(bs[i].bookingStatus)
  {
    seq(|bs|, i requires 0 <= i < |bs| => KeyOrUnknown(bs[i].bookingStatus))
  }

  function Captions(keys: seq<string>): (r: seq<string>)
    ensures |r| == |keys|
    ensures forall i :: 0 <= i < |keys| ==> r[i] == StatusCaption(keys[i])
  {
    seq(|keys|, i requires 0 <= i < |keys| => StatusCaption(keys[i]))
  }

  /** Counted per raw status, then each label is captioned. */
  function BookingStatusStats(bs: seq<Booking>): (c: Chart)
    ensures |bs| == 0 ==> c == Placeholder()
    ensures |bs| > 0 ==> var keys := StatusKeys(bs);
      && c.labels == Captions(Dedup(keys))
      && |c.data| == |c.labels|
      && (forall i :: 0 <= i < |c.data| ==> c.data[i] == multiset(keys)[Dedup(keys)[i]])
      && Sum(c.data) == |bs|
  {
    var counted := CountByKey(StatusKeys(bs));
    if |bs| == 0 then counted else Chart(Captions(counted.labels), counted.data)
  }

  // ---------------------------------------------------------------------------
  // getCancellationRateStats
  // ---------------------------------------------------------------------------

  predicate IsCancelled(b: Booking)
  {
    b.bookingStatus == Some("CANCELLED")
  }

  function CancelledOf(): Booking -> bool
  {
    b => IsCancelled(b)
  }

  datatype Cancellation = Cancellation(success: int, cancelled: int)

  function CancellationStats(bs: seq<Booking>): (r: Cancellation)
    ensures r.success + r.cancelled == |bs|
    ensures r.cancelled == |Filter(bs, CancelledOf())|
    ensures 0 <= r.success && 0 <= r.cancelled
  {
    var cancelled := |Filter(bs, CancelledOf())|;
    Cancellation(|bs| - cancelled, cancelled)
  }

  /** Every booking that is not cancelled counts as a success, whatever its
      status. */
  lemma SuccessIsNotCancelled(bs: seq<Booking>)
    ensures CancellationStats(bs).success == CountIf(bs, Not(CancelledOf()))
  {
    FilterLengthIsCount(bs, CancelledOf());
    CountComplement(bs, CancelledOf());
  }

  lemma {:induction false} CountComplement(bs: seq<Booking>, p: Booking -> bool)
    ensures CountIf(bs, p) + CountIf(bs, Not(p)) == |bs|
    decreases |bs|
  {
    if |bs| > 0 {
      CountComplement(bs[1..], p);
    }
  }

  // ---------------------------------------------------------------------------
  // getAirlineStats
  // ---------------------------------------------------------------------------

  predicate HasAirline(b: Booking)
  {
    b.airline.Some?
  }

  function HasAirlineOf(): Booking -> bool
  {
    b => HasAirline(b)
  }

  /** `airline.airlineName || 'Unknown'`. */
  function AirlineName(b: Booking): string
    requires HasAirline(b)
  {
    OrElse(b.airline.value.airlineName, "Unknown")
  }

  /** One name per booking that has an airline, in booking order. */
  function AirlineNames(bs: seq<Booking>): (r: seq<string>)
    ensures |r| == |Filter(bs, HasAirlineOf())|
    ensures forall i :: 0 <= i < |r| ==> r[i] == AirlineName(Filter(bs, HasAirlineOf())[i])
  {
    NamesOf(Filter(bs, HasAirlineOf()))
  }

  /** The names of bookings that all have an airline, in order. */
  function NamesOf(f: seq<Booking>): (r: seq<string>)
    requires forall k :: 0 <= k < |f| ==> HasAirline(f[k])
    ensures |r| == |f|
    ensures forall i :: 0 <= i < |f| ==> r[i] == AirlineName(f[i])
  {
    seq(|f|, i requires 0 <= i < |f| => AirlineName(f[i]))
  }

  lemma NamesOfSnoc(f: seq<Booking>, b: Booking)
    requires forall k :: 0 <= k < |f| ==> HasAirline(f[k])
    requires HasAirline(b)
    ensures NamesOf(f + [b]) == NamesOf(f) + [AirlineName(b)]
  {
    assert forall i :: 0 <= i < |f| ==> (f + [b])[i] == f[i];
  }

  /** The bookings whose airline is shown under `name`. */
  function NamedAirline(name: string): Booking -> bool
  {
    b => HasAirline(b) && AirlineName(b) == name
  }

  lemma AirlineNamesSnoc(bs: seq<Booking>, b: Booking)
    ensures AirlineNames(bs + [b]) == AirlineNames(bs) + (if HasAirline(b) then [AirlineName(b)] else [])
  {
    FilterSnoc(bs, b, HasAirlineOf());
    if HasAirline(b) {
      NamesOfSnoc(Filter(bs, HasAirlineOf()), b);
    }
  }

  lemma NameCountSnoc(bs: seq<Booking>, b: Booking, name: string)
    ensures multiset(AirlineNames(bs + [b]))[name]
      == multiset(AirlineNames(bs))[name] + (if NamedAirline(name)(b) then 1 else 0)
  {
    var tail := if HasAirline(b) then [AirlineName(b)] else [];
    AirlineNamesSnoc(bs, b);
    assert multiset(AirlineNames(bs) + tail) == multiset(AirlineNames(bs)) + multiset(tail);
  }

  /** How often a name occurs in the list is the number of bookings whose
      airline is shown under that name. */
  lemma {:induction false} AirlineNameCount(bs: seq<Booking>, name: string)
    ensures multiset(AirlineNames(bs))[name] == CountIf(bs, NamedAirline(name))
    decreases |bs|
  {
    if |bs| > 0 {
      var init, last := bs[..|bs| - 1], bs[|bs| - 1];
      var one := if NamedAirline(name)(last) then 1 else 0;
      assert bs == init + [last];
      NameCountSnoc(init, last, name);
      assert CountIf(bs, NamedAirline(name)) == CountIf(init, NamedAirline(name)) + one by {
        CountIfAppend(init, [last], NamedAirline(name));
        assert [last][1..] == [];
      }
      AirlineNameCount(init, name);
    }
  }

  function CountOf<K>(): Count<K> -> int
  {
    (t: Count<K>) => t.count
  }

  /** The `n` keys that occur most often, with their counts, most frequent
      first. */
  function TopCounts<K(==)>(keys: seq<K>, n: nat): seq<Count<K>>
  {
    TopN(CountBy(keys), CountOf(), n)
  }

  lemma TopCountsSize<K>(keys: seq<K>, n: nat)
    requires |keys| > 0 && n > 0
    ensures 1 <= |TopCounts(keys, n)| <= n
  {
    var cs := CountBy(keys);
    assert |cs| > 0 by {
      assert |CountKeys(cs)| == |Dedup(keys)| > 0;
    }
    assert |TopN(cs, CountOf(), n)| == Min(n, |cs|);
  }

  /** Every entry is a key with its number of occurrences. */
  lemma TopCountsExact<K>(keys: seq<K>, n: nat)
    ensures var top := TopCounts(keys, n);
      forall i :: 0 <= i < |top| ==> top[i].key in keys && top[i].count == multiset(keys)[top[i].key]
  {
    var tallies := CountBy(keys);
    var top := TopCounts(keys, n);
    forall i | 0 <= i < |top| ensures top[i].key in keys && top[i].count == multiset(keys)[top[i].key] {
      TallyOfTop(keys, n, i);
    }
  }

  lemma TallyOfTop<K>(keys: seq<K>, n: nat, i: nat)
    requires i < |TopCounts(keys, n)|
    ensures var t := TopCounts(keys, n)[i]; t.key in keys && t.count == multiset(keys)[t.key]
  {
    var tallies := CountBy(keys);
    var t := TopCounts(keys, n)[i];
    TopNFrom(tallies, CountOf(), n, i);
    var j :| 0 <= j < |tallies| && tallies[j] == t;
    assert CountKeys(tallies)[j] == t.key;
  }

  lemma TopCountsDescending<K>(keys: seq<K>, n: nat)
    ensures var top := TopCounts(keys, n);
      forall i, j :: 0 <= i < j < |top| ==> top[i].count >= top[j].count
  {
    var top := TopCounts(keys, n);
    assert forall i, j :: 0 <= i < j < |top| ==> CountOf()(top[i]) >= CountOf()(top[j]);
  }

  /** A key left out occurs no more often than any key kept. */
  lemma OmittedCount<K>(keys: seq<K>, n: nat, m: nat, i: nat)
    requires m < |keys| && i < |TopCounts(keys, n)|
    requires keys[m] !in CountKeys(TopCounts(keys, n))
    ensures multiset(keys)[keys[m]] <= TopCounts(keys, n)[i].count
  {
    var tallies := CountBy(keys);
    var top := TopCounts(keys, n);
    assert keys[m] in CountKeys(tallies);
    var j :| 0 <= j < |tallies| && CountKeys(tallies)[j] == keys[m];
    var y := tallies[j];
    assert y.key == keys[m] && y.count == multiset(keys)[keys[m]];
    assert y !in top by {
      forall k | 0 <= k < |top| ensures top[k] != y {
        assert CountKeys(top)[k] in CountKeys(top);
      }
    }
    TopNLeavesNoBetter(tallies, CountOf(), n, top[i], y);
  }

  function TopChart(names: seq<string>): Chart
  {
    var top := TopCounts(names, 5);
    Chart(CountKeys(top), CountValues(top))
  }

  /** The chart of the top five names, slice by slice. */
  lemma TopChartSlices(names: seq<string>)
    ensures var c, top := TopChart(names), TopCounts(names, 5);
      |c.labels| == |c.data| == |top| && forall i :: 0 <= i < |top| ==> c.labels[i] == top[i].key && c.data[i] == top[i].count
  {
  }

  lemma TopChartSize(names: seq<string>)
    requires |names| > 0
    ensures var c := TopChart(names); 1 <= |c.labels| == |c.data| <= 5
  {
    TopChartSlices(names);
    TopCountsSize(names, 5);
  }

  lemma TopChartCounts(names: seq<string>)
    ensures var c := TopChart(names);
      forall i :: 0 <= i < |c.labels| ==> c.labels[i] in names && c.data[i] == multiset(names)[c.labels[i]]
  {
    var c := TopChart(names);
    TopChartSlices(names);
    forall i | 0 <= i < |c.labels| ensures c.labels[i] in names && c.data[i] == multiset(names)[c.labels[i]] {
      TallyOfTop(names, 5, i);
    }
  }

  lemma TopChartDescending(names: seq<string>)
    ensures var c := TopChart(names); forall i, j :: 0 <= i < j < |c.data| ==> c.data[i] >= c.data[j]
  {
    TopChartSlices(names);
    TopCountsDescending(names, 5);
  }

  lemma TopChartOmitted(names: seq<string>)
    ensures var c := TopChart(names);
      forall n, i :: 0 <= n < |names| && 0 <= i < |c.labels| && names[n] !in c.labels ==>
        multiset(names)[names[n]] <= c.data[i]
  {
    var c := TopChart(names);
    TopChartSlices(names);
    forall m, i | 0 <= m < |names| && 0 <= i < |c.labels| && names[m] !in c.labels
      ensures multiset(names)[names[m]] <= c.data[i]
    {
      assert c.labels == CountKeys(TopCounts(names, 5));
      OmittedCount(names, 5, m, i);
    }
  }

  /** `c` shows up to five of `names` with their counts, most frequent
      first, and leaves out nothing more frequent than what it shows. */
  predicate TopFive(names: seq<string>, c: Chart)
  {
    && 1 <= |c.labels| == |c.data| <= 5
    && (forall i :: 0 <= i < |c.labels| ==> c.labels[i] in names && c.data[i] == multiset(names)[c.labels[i]])
    && (forall i, j :: 0 <= i < j < |c.data| ==> c.data[i] >= c.data[j])
    && (forall n, i :: 0 <= n < |names| && 0 <= i < |c.labels| && names[n] !in c.labels ==>
          multiset(names)[names[n]] <= c.data[i])
  }

  lemma TopChartFacts(names: seq<string>)
    requires |names| > 0
    ensures TopFive(names, TopChart(names))
  {
    TopChartSize(names);
    TopChartCounts(names);
    TopChartDescending(names);
    TopChartOmitted(names);
  }

  /** The five airlines with most bookings, by non-increasing count; an
      airline left out has no more bookings than any airline shown. */
  function AirlineStats(bs: seq<Booking>): (c: Chart)
    ensures |Filter(bs, HasAirlineOf())| == 0 ==> c == Placeholder()
    ensures |Filter(bs, HasAirlineOf())| > 0 ==> TopFive(AirlineNames(bs), c)
  {
    var names := AirlineNames(bs);
    if |names| == 0 then
      Placeholder()
    else
      TopChartFacts(names);
      TopChart(names)
  }

  // ---------------------------------------------------------------------------
  // getSeatClasses
  // ---------------------------------------------------------------------------

  /** The part of a booked seat the summary reads. */
  datatype BookedSeat = BookedSeat(seatClassName: Option<string>)

  function ClassOf(): BookedSeat -> Option<string>
  {
    (seat: BookedSeat) => seat.seatClassName
  }

  /** `join` writes a missing value as the empty string. */
  function Labels(cs: seq<Option<string>>): (r: seq<string>)
    ensures |r| == |cs|
    ensures forall i :: 0 <= i < |cs| ==> r[i] == OrElse(cs[i], "")
  {
    seq(|cs|, i requires 0 <= i < |cs| => OrElse(cs[i], ""))
  }

  /** "N/A" for no seats; otherwise each distinct class once, in order of
      first appearance, joined with ", ". */
  function SeatClasses(seats: Option<seq<BookedSeat>>): (r: string)
    ensures seats.None? || |seats.value| == 0 ==> r == "N/A"
    ensures seats.Some? && |seats.value| > 0 ==>
      var cs := Dedup(Project(seats.value, ClassOf()));
      && r == Join(Labels(cs), ", ")
      && (forall i, j :: 0 <= i < j < |cs| ==> cs[i] != cs[j])
      && (forall n :: 0 <= n < |seats.value| ==> seats.value[n].seatClassName in cs)
      && (forall i :: 0 <= i < |cs| ==> exists n :: 0 <= n < |seats.value| && seats.value[n].seatClassName == cs[i])
  {
    if seats.None? || |seats.value| == 0 then "N/A"
    else
      ClassesOfSeats(seats.value);
      Join(Labels(Dedup(Project(seats.value, ClassOf()))), ", ")
  }

  /** The distinct classes are exactly the classes of the seats. */
  lemma ClassesOfSeats(seats: seq<BookedSeat>)
    ensures var cs := Dedup(Project(seats, ClassOf()));
      && (forall n :: 0 <= n < |seats| ==> seats[n].seatClassName in cs)
      && (forall i :: 0 <= i < |cs| ==> exists n :: 0 <= n < |seats| && seats[n].seatClassName == cs[i])
  {
    var classes := Project(seats, ClassOf());
    var cs := Dedup(classes);
    assert forall n :: 0 <= n < |seats| ==> seats[n].seatClassName in cs by {
      assert forall n :: 0 <= n < |seats| ==> classes[n] == seats[n].seatClassName;
    }
    forall i | 0 <= i < |cs| ensures exists n :: 0 <= n < |seats| && seats[n].seatClassName == cs[i] {
      var n :| 0 <= n < |classes| && classes[n] == cs[i];
      assert seats[n].seatClassName == cs[i];
    }
  }

  /** Seats that all share one class are summarised by that class alone. */
  lemma OneClassShownOnce(seats: seq<BookedSeat>, c: string)
    requires |seats| > 0
    requires forall n :: 0 <= n < |seats| ==> seats[n].seatClassName == Some(c)
    ensures SeatClasses(Some(seats)) == c
  {
    var ks := Project(seats, ClassOf());
    DedupConstant(ks, Some(c));
    var cs := Dedup(ks);
    assert Labels(cs) == [c];
  }

  // ---------------------------------------------------------------------------
  // updateDashboardStats
  // ---------------------------------------------------------------------------

  /** A payment that counts towards revenue. */
  predicate IsPaid(p: Payment)
  {
    p.status == Some("SUCCESS") || p.status == Some("PAID")
  }

  function PaidOf(): Payment -> bool
  {
    p => IsPaid(p)
  }

  function AmountOf(): Payment -> int
  {
    (p: Payment) => p.amount
  }

  /** The success rate: `0` with no payments, otherwise a percentage with
      one decimal, held as a whole number of tenths. */
  datatype Rate = NoPayments | Tenths(tenths: nat)

  datatype Dashboard = Dashboard(totalBookings: nat, totalUsers: nat, revenue: int, successRate: Rate)

  function DashboardStats(bookings: seq<Booking>, users: seq<User>, payments: seq<Payment>): (d: Dashboard)
    ensures d.totalBookings == |bookings| && d.totalUsers == |users|
    ensures d.revenue == SumOf(payments, Masked(PaidOf(), AmountOf()))
    ensures d.successRate == NoPayments <==> |payments| == 0
    ensures d.successRate.Tenths? ==>
      var paid, n, t := CountIf(payments, PaidOf()), |payments|, d.successRate.tenths;
      2 * t * n - n <= 2000 * paid < 2 * t * n + n
  {
    var paid := Filter(payments, PaidOf());
    FilterSumIsMaskedSum(payments, PaidOf(), AmountOf());
    FilterLengthIsCount(payments, PaidOf());
    var rate := if |payments| == 0 then NoPayments else Tenths(RoundDiv(1000 * |paid|, |payments|));
    Dashboard(|bookings|, |users|, SumOf(paid, AmountOf()), rate)
  }

  /** The rate is at most 100.0%, is exactly 100.0% when every payment
      succeeded and exactly 0.0% when none did. */
  lemma RateExtremes(payments: seq<Payment>)
    requires |payments| > 0
    ensures DashboardStats([], [], payments).successRate.tenths <= 1000
    ensures CountIf(payments, PaidOf()) == |payments| ==> DashboardStats([], [], payments).successRate.tenths == 1000
    ensures CountIf(payments, PaidOf()) == 0 ==> DashboardStats([], [], payments).successRate.tenths == 0
  {
    var n, paid := |payments|, CountIf(payments, PaidOf());
    var t := DashboardStats([], [], payments).successRate.tenths;
    TenthsBounds(paid, n, t);
  }

  lemma TenthsBounds(paid: nat, n: pos, t: nat)
    requires paid <= n
    requires 2 * t * n - n <= 2000 * paid < 2 * t * n + n
    ensures t <= 1000
    ensures paid == n ==> t == 1000
    ensures paid == 0 ==> t == 0
  {
    var lo, hi := 2 * t - 1, 2 * t + 1;
    assert lo * n == 2 * t * n - n && hi * n == 2 * t * n + n;
    assert 2000 * paid <= 2000 * n;
    CancelLe(lo, 2000, n);
    if paid == n {
      CancelLt(2000, hi, n);
    }
    if paid == 0 {
      CancelLe(lo, 0, n);
    }
  }
}
