/**
 The three ranking tables of the reports screen: top customers, top
 routes and top airlines over the report period. Each groups the
 bookings of the period by a key, summarises every group into one row,
 keeps the rows worth showing, and lists the ten with the largest figure.
 */
module Rankings {
  import opened Common
  import opened Sorting
  import opened View
  import opened Tables
  import opened Grouping
  import opened Flights
  import opened Reports

  /** Rows listed by every ranking table. */
  const TopLimit: nat := 10

  // ---------------------------------------------------------------------------
  // Distinct sequences
  // ---------------------------------------------------------------------------

  ghost predicate Distinct<T>(s: seq<T>)
  {
    forall i, j :: 0 <= i < j < |s| ==> s[i] != s[j]
  }

  lemma {:induction false} DistinctOnce<T>(s: seq<T>, x: T)
    requires Distinct(s)
    ensures multiset(s)[x] <= 1
    decreases |s|
  {
    if |s| > 0 {
      var init, last := s[..|s| - 1], s[|s| - 1];
      assert s == init + [last];
      DistinctOnce(init, x);
      if x == last {
        assert x !in init;
      }
    }
  }

  lemma TwoCopies<T>(s: seq<T>, i: nat, j: nat)
    requires i < j < |s| && s[i] == s[j]
    ensures multiset(s)[s[i]] >= 2
  {
    assert s == s[..j] + [s[j]] + s[j + 1..];
    assert s[i] in s[..j];
  }

  /** A sub-multiset of a duplicate-free sequence is duplicate-free. */
  lemma SubDistinct<T>(r: seq<T>, s: seq<T>)
    requires multiset(r) <= multiset(s) && Distinct(s)
    ensures Distinct(r)
  {
    forall i, j | 0 <= i < j < |r| ensures r[i] != r[j] {
      if r[i] == r[j] {
        TwoCopies(r, i, j);
        DistinctOnce(s, r[i]);
        assert false;
      }
    }
  }

  // ---------------------------------------------------------------------------
  // Generic ranking
  // ---------------------------------------------------------------------------

  /** One summary row per group, only the rows worth showing. */
  function Candidates<T, K(==), R>(s: seq<T>, key: T -> K, summary: Group<K, T> -> R, keep: R -> bool): seq<R>
  {
    Filter(Project(GroupBy(s, key), summary), keep)
  }

  /** The rows worth showing, largest figure first, at most ten. */
  function Ranking<T, K(==), R>(s: seq<T>, key: T -> K, summary: Group<K, T> -> R, keep: R -> bool, metric: R -> int): (r: seq<R>)
    ensures |r| == Min(TopLimit, |Candidates(s, key, summary, keep)|)
    ensures forall i, j :: 0 <= i < j < |r| ==> metric(r[i]) >= metric(r[j])
  {
    TopN(Candidates(s, key, summary, keep), metric, TopLimit)
  }

  /** Every listed row is worth showing and summarises one group. */
  lemma RankingRow<T, K, R>(s: seq<T>, key: T -> K, summary: Group<K, T> -> R, keep: R -> bool, metric: R -> int, i: nat)
    requires i < |Ranking(s, key, summary, keep, metric)|
    ensures var r := Ranking(s, key, summary, keep, metric);
      keep(r[i]) && exists j :: 0 <= j < |GroupBy(s, key)| && r[i] == summary(GroupBy(s, key)[j])
  {
    var gs := GroupBy(s, key);
    var r := Ranking(s, key, summary, keep, metric);
    TopNFrom(Candidates(s, key, summary, keep), metric, TopLimit, i);
    var rows := Project(gs, summary);
    var k :| 0 <= k < |rows| && rows[k] == r[i];
    assert r[i] == summary(gs[k]);
  }

  /** Rows of different groups differ when a row carries its group's key. */
  lemma RankingDistinct<T, K, R>(s: seq<T>, key: T -> K, summary: Group<K, T> -> R, keep: R -> bool, metric: R -> int, rowKey: R -> K)
    requires forall g :: rowKey(summary(g)) == g.key
    ensures Distinct(Ranking(s, key, summary, keep, metric))
  {
    var gs := GroupBy(s, key);
    var rows := Project(gs, summary);
    forall i, j | 0 <= i < j < |rows| ensures rows[i] != rows[j] {
      assert rowKey(rows[i]) == gs[i].key && rowKey(rows[j]) == gs[j].key;
    }
    SubDistinct(Candidates(s, key, summary, keep), rows);
    SubDistinct(Ranking(s, key, summary, keep, metric), Candidates(s, key, summary, keep));
  }

  /** No two listed rows carry the same key when a row carries its
      group's key. */
  lemma RankingKeysDiffer<T, K, R>(s: seq<T>, key: T -> K, summary: Group<K, T> -> R, keep: R -> bool, metric: R -> int, rowKey: R -> K, i: nat, j: nat)
    requires forall g :: rowKey(summary(g)) == g.key
    requires i < j < |Ranking(s, key, summary, keep, metric)|
    ensures var r := Ranking(s, key, summary, keep, metric); rowKey(r[i]) != rowKey(r[j])
  {
    var gs := GroupBy(s, key);
    var r := Ranking(s, key, summary, keep, metric);
    RankingDistinct(s, key, summary, keep, metric, rowKey);
    RankingRow(s, key, summary, keep, metric, i);
    RankingRow(s, key, summary, keep, metric, j);
    var a :| 0 <= a < |gs| && r[i] == summary(gs[a]);
    var b :| 0 <= b < |gs| && r[j] == summary(gs[b]);
    assert r[i] != r[j];
    RowsOfDistinctKeys(gs, summary, rowKey, a, b);
  }

  lemma RowsOfDistinctKeys<T, K, R>(gs: seq<Group<K, T>>, summary: Group<K, T> -> R, rowKey: R -> K, a: nat, b: nat)
    requires forall g :: rowKey(summary(g)) == g.key
    requires forall i, j :: 0 <= i < j < |gs| ==> gs[i].key != gs[j].key
    requires a < |gs| && b < |gs| && summary(gs[a]) != summary(gs[b])
    ensures rowKey(summary(gs[a])) != rowKey(summary(gs[b]))
  {
    if a < b {
      assert gs[a].key != gs[b].key;
    } else {
      assert gs[b].key != gs[a].key;
    }
  }

  /** A group whose row is worth showing but is not listed has a figure no
      larger than any listed row, and the table is full. */
  lemma RankingOmits<T, K, R>(s: seq<T>, key: T -> K, summary: Group<K, T> -> R, keep: R -> bool, metric: R -> int, j: nat, x: R)
    requires j < |GroupBy(s, key)|
    requires keep(summary(GroupBy(s, key)[j]))
    requires summary(GroupBy(s, key)[j]) !in Ranking(s, key, summary, keep, metric)
    requires x in Ranking(s, key, summary, keep, metric)
    ensures metric(summary(GroupBy(s, key)[j])) <= metric(x)
    ensures |Ranking(s, key, summary, keep, metric)| == TopLimit
  {
    var y := summary(GroupBy(s, key)[j]);
    var cs := Candidates(s, key, summary, keep);
    assert Project(GroupBy(s, key), summary)[j] == y;
    assert y in cs;
    TopNLeavesNoBetter(cs, metric, TopLimit, x, y);
    if |cs| < TopLimit {
      TopNAllIn(cs, metric, TopLimit, y);
    }
  }

  /** With no more than `n` candidates, the top `n` keep every one. */
  lemma TopNAllIn<T>(s: seq<T>, metric: T -> int, n: nat, y: T)
    requires |s| <= n && y in s
    ensures y in TopN(s, metric, n)
  {
    var sorted := SortBy(s, NumKey(metric), Desc);
    assert sorted[..|s|] == sorted;
    assert y in multiset(sorted);
  }

  // ---------------------------------------------------------------------------
  // The report period
  // ---------------------------------------------------------------------------

  /** The booking's date (`bookingDate || createdAt || now`) lies within
      the period, both ends included. */
  predicate InPeriod(b: Booking, start: int, end: int, now: int)
  {
    start <= FirstTime(b.bookingDate, b.createdAt, now) <= end
  }

  function TotalAmountOf(): Booking -> int
  {
    (b: Booking) => b.totalAmount
  }

  // ---------------------------------------------------------------------------
  // loadTopCustomers
  // ---------------------------------------------------------------------------

  /** A customer row; `user` is the account found for the id, if any. */
  datatype CustomerStat = CustomerStat(userId: int, user: Option<User>, bookings: nat, total: int)

  /** `users.find(u => u.userId === id)`. */
  function FindUser(users: seq<User>, id: int): (r: Option<User>)
    ensures r.Some? ==> r.value in users && r.value.userId == id
    ensures r.None? <==> forall k :: 0 <= k < |users| ==> users[k].userId != id
  {
    if |users| == 0 then None
    else if users[0].userId == id then Some(users[0])
    else
      var rest := FindUser(users[1..], id);
      assert forall k :: 1 <= k < |users| ==> users[k] == users[1..][k - 1];
      rest
  }

  /** Bookings of the period that carry a user id (`if (!userId) return`). */
  function CustomerBooking(start: int, end: int, now: int): Booking -> bool
  {
    b => InPeriod(b, start, end, now) && b.userId != 0
  }

  function UserIdOf(): Booking -> int
  {
    (b: Booking) => b.userId
  }

  /** The bookings a customer row is made of. */
  function BookedBy(id: int, start: int, end: int, now: int): Booking -> bool
  {
    Both(CustomerBooking(start, end, now), KeyIs(UserIdOf(), id))
  }

  function CustomerSummary(users: seq<User>): Group<int, Booking> -> CustomerStat
  {
    (g: Group<int, Booking>) => CustomerStat(g.key, FindUser(users, g.key), |g.members|, SumOf(g.members, TotalAmountOf()))
  }

  function HasAccount(): CustomerStat -> bool
  {
    (c: CustomerStat) => c.user.Some?
  }

  function CustomerTotal(): CustomerStat -> int
  {
    (c: CustomerStat) => c.total
  }

  function CustomerId(): CustomerStat -> int
  {
    (c: CustomerStat) => c.userId
  }

  /** What a customer row says: an existing account, the number of its
      bookings in the period, and their summed amount. */
  predicate CustomerRow(c: CustomerStat, bookings: seq<Booking>, users: seq<User>, start: int, end: int, now: int)
  {
    && c.userId != 0
    && c.user == FindUser(users, c.userId) && c.user.Some?
    && c.bookings == CountIf(bookings, BookedBy(c.userId, start, end, now)) > 0
    && c.total == SumOf(Filter(bookings, BookedBy(c.userId, start, end, now)), TotalAmountOf())
  }

  /** Ten customers at most, each once, every one with an account, the
      largest total first. */
  predicate CustomerTable(r: seq<CustomerStat>, bookings: seq<Booking>, users: seq<User>, start: int, end: int, now: int)
  {
    && |r| <= TopLimit
    && (forall i, j :: 0 <= i < j < |r| ==> r[i].total >= r[j].total)
    && (forall i, j :: 0 <= i < j < |r| ==> r[i].userId != r[j].userId)
    && (forall i :: 0 <= i < |r| ==> CustomerRow(r[i], bookings, users, start, end, now))
  }

  /** The rows of the top customers table: in-range bookings grouped by
      user, customers without an account dropped, ranked by total. */
  function CustomerRanking(bookings: seq<Booking>, users: seq<User>, start: int, end: int, now: int): seq<CustomerStat>
  {
    Ranking(Filter(bookings, CustomerBooking(start, end, now)), UserIdOf(), CustomerSummary(users), HasAccount(), CustomerTotal())
  }

  /** The top customers table of the period. */
  function TopCustomers(bookings: seq<Booking>, users: seq<User>, start: int, end: int, now: int): (r: seq<CustomerStat>)
    ensures CustomerTable(r, bookings, users, start, end, now)
  {
    CustomerRows(bookings, users, start, end, now);
    CustomerRanking(bookings, users, start, end, now)
  }

  lemma CustomerRows(bookings: seq<Booking>, users: seq<User>, start: int, end: int, now: int)
    ensures CustomerTable(CustomerRanking(bookings, users, start, end, now), bookings, users, start, end, now)
  {
    CustomerRowsHold(bookings, users, start, end, now);
    CustomerRowsKeyed(bookings, users, start, end, now);
    CustomerRowsOrdered(bookings, users, start, end, now);
  }

  lemma CustomerRowsHold(bookings: seq<Booking>, users: seq<User>, start: int, end: int, now: int)
    ensures var r := CustomerRanking(bookings, users, start, end, now);
      forall i :: 0 <= i < |r| ==> CustomerRow(r[i], bookings, users, start, end, now)
  {
    var r := CustomerRanking(bookings, users, start, end, now);
    forall i | 0 <= i < |r| ensures CustomerRow(r[i], bookings, users, start, end, now) {
      CustomerRowAt(bookings, users, start, end, now, i);
    }
  }

  lemma CustomerRowsKeyed(bookings: seq<Booking>, users: seq<User>, start: int, end: int, now: int)
    ensures var r := CustomerRanking(bookings, users, start, end, now);
      forall i, j :: 0 <= i < j < |r| ==> r[i].userId != r[j].userId
  {
    var s := Filter(bookings, CustomerBooking(start, end, now));
    var r := CustomerRanking(bookings, users, start, end, now);
    forall i, j | 0 <= i < j < |r| ensures r[i].userId != r[j].userId {
      RankingKeysDiffer(s, UserIdOf(), CustomerSummary(users), HasAccount(), CustomerTotal(), CustomerId(), i, j);
    }
  }

  lemma CustomerRowsOrdered(bookings: seq<Booking>, users: seq<User>, start: int, end: int, now: int)
    ensures var r := CustomerRanking(bookings, users, start, end, now);
      forall i, j :: 0 <= i < j < |r| ==> r[i].total >= r[j].total
  {
    var r := CustomerRanking(bookings, users, start, end, now);
    forall i, j | 0 <= i < j < |r| ensures r[i].total >= r[j].total {
      assert CustomerTotal()(r[i]) >= CustomerTotal()(r[j]);
    }
  }

  lemma CustomerRowAt(bookings: seq<Booking>, users: seq<User>, start: int, end: int, now: int, i: nat)
    requires i < |CustomerRanking(bookings, users, start, end, now)|
    ensures CustomerRow(CustomerRanking(bookings, users, start, end, now)[i], bookings, users, start, end, now)
  {
    var s := Filter(bookings, CustomerBooking(start, end, now));
    var gs := GroupBy(s, UserIdOf());
    RankingRow(s, UserIdOf(), CustomerSummary(users), HasAccount(), CustomerTotal(), i);
    var j :| 0 <= j < |gs| && CustomerRanking(bookings, users, start, end, now)[i] == CustomerSummary(users)(gs[j]);
    CustomerGroup(bookings, users, start, end, now, j);
  }

  /** The row of one group of the period's bookings. */
  lemma CustomerGroup(bookings: seq<Booking>, users: seq<User>, start: int, end: int, now: int, j: nat)
    requires j < |GroupBy(Filter(bookings, CustomerBooking(start, end, now)), UserIdOf())|
    requires CustomerSummary(users)(GroupBy(Filter(bookings, CustomerBooking(start, end, now)), UserIdOf())[j]).user.Some?
    ensures CustomerRow(CustomerSummary(users)(GroupBy(Filter(bookings, CustomerBooking(start, end, now)), UserIdOf())[j]), bookings, users, start, end, now)
  {
    var s := Filter(bookings, CustomerBooking(start, end, now));
    var g := GroupBy(s, UserIdOf())[j];
    GroupNonEmpty(s, UserIdOf(), j);
    FilterThenFilter(bookings, CustomerBooking(start, end, now), KeyIs(UserIdOf(), g.key));
    FilterLengthIsCount(bookings, BookedBy(g.key, start, end, now));
    assert g.members[0] in s;
  }

  /** A customer with an account and a booking in the period who is not
      listed has spent no more than any listed customer, and the table is
      full. */
  lemma CustomerOmitted(bookings: seq<Booking>, users: seq<User>, start: int, end: int, now: int, u: User, b: Booking)
    requires u in users && b in bookings && b.userId == u.userId && CustomerBooking(start, end, now)(b)
    requires forall i :: 0 <= i < |CustomerRanking(bookings, users, start, end, now)| ==> CustomerRanking(bookings, users, start, end, now)[i].userId != u.userId
    ensures |CustomerRanking(bookings, users, start, end, now)| == TopLimit
    ensures forall i :: 0 <= i < |CustomerRanking(bookings, users, start, end, now)| ==>
      CustomerRanking(bookings, users, start, end, now)[i].total >= SumOf(Filter(bookings, BookedBy(u.userId, start, end, now)), TotalAmountOf())
  {
    CustomerRankingOmits(bookings, users, start, end, now, u, b);
    BeatenWhenUnlisted(CustomerRanking(bookings, users, start, end, now), SumOf(Filter(bookings, BookedBy(u.userId, start, end, now)), TotalAmountOf()), u.userId);
  }

  lemma BeatenWhenUnlisted(r: seq<CustomerStat>, total: int, id: int)
    requires CustomerListedOrBeaten(r, total, id)
    requires forall i :: 0 <= i < |r| ==> r[i].userId != id
    ensures |r| == TopLimit && forall i :: 0 <= i < |r| ==> r[i].total >= total
  {
  }

  /** The customer is listed, or the table is full of customers who spent
      at least `total`. */
  predicate CustomerListedOrBeaten(r: seq<CustomerStat>, total: int, id: int)
  {
    (exists i :: 0 <= i < |r| && r[i].userId == id)
    || (|r| == TopLimit && forall i :: 0 <= i < |r| ==> r[i].total >= total)
  }

  /** An account holder with a booking in the period is ranked, or beaten
      by a full table. */
  lemma CustomerRankingOmits(bookings: seq<Booking>, users: seq<User>, start: int, end: int, now: int, u: User, b: Booking)
    requires u in users && b in bookings && b.userId == u.userId && CustomerBooking(start, end, now)(b)
    ensures CustomerListedOrBeaten(CustomerRanking(bookings, users, start, end, now),
      SumOf(Filter(bookings, BookedBy(u.userId, start, end, now)), TotalAmountOf()), u.userId)
  {
    var s := Filter(bookings, CustomerBooking(start, end, now));
    var j := GroupOf(s, UserIdOf(), b);
    OmittedSummary(bookings, users, start, end, now, u, j);
    GroupListed(s, users, j);
  }

  /** A group of an account holder is ranked, or beaten by a full table. */
  lemma GroupListed(s: seq<Booking>, users: seq<User>, j: nat)
    requires j < |GroupBy(s, UserIdOf())|
    requires HasAccount()(CustomerSummary(users)(GroupBy(s, UserIdOf())[j]))
    ensures var y := CustomerSummary(users)(GroupBy(s, UserIdOf())[j]);
      CustomerListedOrBeaten(Ranking(s, UserIdOf(), CustomerSummary(users), HasAccount(), CustomerTotal()), y.total, y.userId)
  {
    var g := GroupBy(s, UserIdOf())[j];
    RankingKeyListed(s, UserIdOf(), CustomerSummary(users), HasAccount(), CustomerTotal(), CustomerId(), j);
    CustomerListed(Ranking(s, UserIdOf(), CustomerSummary(users), HasAccount(), CustomerTotal()), CustomerSummary(users)(g), g.key);
  }

  lemma CustomerListed(r: seq<CustomerStat>, y: CustomerStat, id: int)
    requires KeyListedOrBeaten(r, CustomerId(), CustomerTotal(), id, CustomerTotal()(y))
    ensures CustomerListedOrBeaten(r, y.total, id)
  {
    if exists i :: 0 <= i < |r| && CustomerId()(r[i]) == id {
      var i :| 0 <= i < |r| && CustomerId()(r[i]) == id;
      assert r[i].userId == id;
    } else {
      forall i | 0 <= i < |r| ensures r[i].total >= y.total {
        assert CustomerTotal()(r[i]) >= CustomerTotal()(y);
      }
    }
  }

  /** The summary of an account holder's group is a row of the table's
      kind and carries the account's total. */
  lemma OmittedSummary(bookings: seq<Booking>, users: seq<User>, start: int, end: int, now: int, u: User, j: nat)
    requires u in users
    requires j < |GroupBy(Filter(bookings, CustomerBooking(start, end, now)), UserIdOf())|
    requires GroupBy(Filter(bookings, CustomerBooking(start, end, now)), UserIdOf())[j].key == u.userId
    ensures var y := CustomerSummary(users)(GroupBy(Filter(bookings, CustomerBooking(start, end, now)), UserIdOf())[j]);
      && y.userId == u.userId && HasAccount()(y)
      && y.total == SumOf(Filter(bookings, BookedBy(u.userId, start, end, now)), TotalAmountOf())
  {
    AccountFound(users, u);
    CustomerGroup(bookings, users, start, end, now, j);
  }


  /** Every account is found by its id. */
  lemma AccountFound(users: seq<User>, u: User)
    requires u in users
    ensures FindUser(users, u.userId).Some?
  {
    var k :| 0 <= k < |users| && users[k] == u;
  }

  /** The group a kept record belongs to. */
  lemma GroupOf<T, K>(s: seq<T>, key: T -> K, x: T) returns (j: nat)
    requires x in s
    ensures j < |GroupBy(s, key)| && GroupBy(s, key)[j].key == key(x)
  {
    var gs := GroupBy(s, key);
    var m :| 0 <= m < |s| && s[m] == x;
    assert key(s[m]) in Keys(gs);
    j :| 0 <= j < |gs| && Keys(gs)[j] == key(x);
  }

  /** A group whose row is worth showing is listed, or the table is full
      of rows with figures at least as large. */
  lemma RankingComplete<T, K, R>(s: seq<T>, key: T -> K, summary: Group<K, T> -> R, keep: R -> bool, metric: R -> int, j: nat)
    requires j < |GroupBy(s, key)| && keep(summary(GroupBy(s, key)[j]))
    ensures var r := Ranking(s, key, summary, keep, metric);
      summary(GroupBy(s, key)[j]) in r
      || (|r| == TopLimit && forall i :: 0 <= i < |r| ==> metric(r[i]) >= metric(summary(GroupBy(s, key)[j])))
  {
    var r := Ranking(s, key, summary, keep, metric);
    var y := summary(GroupBy(s, key)[j]);
    if y !in r {
      forall i | 0 <= i < |r| ensures metric(r[i]) >= metric(y) {
        RankingOmits(s, key, summary, keep, metric, j, r[i]);
      }
      RankingNotEmpty(s, key, summary, keep, metric, j);
      RankingOmits(s, key, summary, keep, metric, j, r[0]);
    }
  }

  /** A row worth showing means the table is not empty. */
  lemma RankingNotEmpty<T, K, R>(s: seq<T>, key: T -> K, summary: Group<K, T> -> R, keep: R -> bool, metric: R -> int, j: nat)
    requires j < |GroupBy(s, key)| && keep(summary(GroupBy(s, key)[j]))
    ensures |Ranking(s, key, summary, keep, metric)| > 0
  {
    assert Project(GroupBy(s, key), summary)[j] == summary(GroupBy(s, key)[j]);
    assert summary(GroupBy(s, key)[j]) in Candidates(s, key, summary, keep);
  }

  // ---------------------------------------------------------------------------
  // loadTopRoutes / loadTopAirlines
  // ---------------------------------------------------------------------------

  /** `flights.find(f => f.flightId === id)`. */
  function FindFlight(flights: seq<Flight>, id: int): (r: Option<Flight>)
    ensures r.Some? ==> r.value in flights && r.value.flightId == id
    ensures r.None? <==> forall k :: 0 <= k < |flights| ==> flights[k].flightId != id
  {
    if |flights| == 0 then None
    else if flights[0].flightId == id then Some(flights[0])
    else
      var rest := FindFlight(flights[1..], id);
      assert forall k :: 1 <= k < |flights| ==> flights[k] == flights[1..][k - 1];
      rest
  }

  /** Bookings of the period with a flight id of a listed flight; the others
      are skipped. */
  function FlightBooking(flights: seq<Flight>, start: int, end: int, now: int): Booking -> bool
  {
    b => InPeriod(b, start, end, now) && b.flightId != 0 && FindFlight(flights, b.flightId).Some?
  }

  /** The label of the booked flight (empty for a booking that is skipped). */
  function FlightLabelOf(flights: seq<Flight>, tag: Flight -> string): Booking -> string
  {
    (b: Booking) => match FindFlight(flights, b.flightId) case Some(f) => tag(f) case None => ""
  }

  /** The bookings a route or airline row is made of. */
  function BookedOn(flights: seq<Flight>, tag: Flight -> string, name: string, start: int, end: int, now: int): Booking -> bool
  {
    Both(FlightBooking(flights, start, end, now), KeyIs(FlightLabelOf(flights, tag), name))
  }

  function FlightIdOf(): Booking -> int
  {
    (b: Booking) => b.flightId
  }

  /** The distinct flights of a set of bookings (`flights.add(...)`, then
      `.size`): the booked flight's id is the booking's flight id. */
  function FlightCount(bs: seq<Booking>): nat
  {
    |Dedup(Project(bs, FlightIdOf()))|
  }

  /** One group of the period's bookings keyed by a flight label: exactly
      the bookings whose flight carries the label, at least one, and the
      label is that of a listed flight. */
  lemma FlightGroup(bookings: seq<Booking>, flights: seq<Flight>, tag: Flight -> string, start: int, end: int, now: int, j: nat)
    requires j < |GroupBy(Filter(bookings, FlightBooking(flights, start, end, now)), FlightLabelOf(flights, tag))|
    ensures var g := GroupBy(Filter(bookings, FlightBooking(flights, start, end, now)), FlightLabelOf(flights, tag))[j];
      && g.members == Filter(bookings, BookedOn(flights, tag, g.key, start, end, now))
      && |g.members| > 0
      && exists k :: 0 <= k < |flights| && tag(flights[k]) == g.key
  {
    var s := Filter(bookings, FlightBooking(flights, start, end, now));
    var g := GroupBy(s, FlightLabelOf(flights, tag))[j];
    GroupNonEmpty(s, FlightLabelOf(flights, tag), j);
    FilterThenFilter(bookings, FlightBooking(flights, start, end, now), KeyIs(FlightLabelOf(flights, tag), g.key));
    var b := g.members[0];
    assert b in s;
    var f := FindFlight(flights, b.flightId).value;
    var k :| 0 <= k < |flights| && flights[k] == f;
  }

  /** `departure → arrival`, each side `'N/A'` when missing. */
  function RouteName(f: Flight): string
  {
    OrElse(f.departureAirport, "N/A") + " → " + OrElse(f.arrivalAirport, "N/A")
  }

  function RouteLabel(): Flight -> string
  {
    (f: Flight) => RouteName(f)
  }

  datatype RouteStat = RouteStat(route: string, flights: nat, bookings: nat)

  function RouteSummary(): Group<string, Booking> -> RouteStat
  {
    (g: Group<string, Booking>) => RouteStat(g.key, FlightCount(g.members), |g.members|)
  }

  /** Every route is shown. */
  function AnyRoute(): RouteStat -> bool
  {
    (r: RouteStat) => true
  }

  function RouteBookings(): RouteStat -> int
  {
    (r: RouteStat) => r.bookings
  }

  function RouteKey(): RouteStat -> string
  {
    (r: RouteStat) => r.route
  }

  /** What a route row says: a route of a listed flight, the number of the
      period's bookings on it and the distinct flights they use. */
  predicate RouteRow(r: RouteStat, bookings: seq<Booking>, flights: seq<Flight>, start: int, end: int, now: int)
  {
    var on := Filter(bookings, BookedOn(flights, RouteLabel(), r.route, start, end, now));
    && (exists k :: 0 <= k < |flights| && RouteName(flights[k]) == r.route)
    && r.bookings == |on| > 0
    && r.flights == FlightCount(on)
  }

  /** Ten routes at most, each once, the most booked first. */
  predicate RouteTable(r: seq<RouteStat>, bookings: seq<Booking>, flights: seq<Flight>, start: int, end: int, now: int)
  {
    && |r| <= TopLimit
    && (forall i, j :: 0 <= i < j < |r| ==> r[i].bookings >= r[j].bookings)
    && (forall i, j :: 0 <= i < j < |r| ==> r[i].route != r[j].route)
    && (forall i :: 0 <= i < |r| ==> RouteRow(r[i], bookings, flights, start, end, now))
  }

  function RouteRanking(bookings: seq<Booking>, flights: seq<Flight>, start: int, end: int, now: int): seq<RouteStat>
  {
    Ranking(Filter(bookings, FlightBooking(flights, start, end, now)), FlightLabelOf(flights, RouteLabel()), RouteSummary(), AnyRoute(), RouteBookings())
  }

  /** The top routes table of the period. */
  function TopRoutes(bookings: seq<Booking>, flights: seq<Flight>, start: int, end: int, now: int): (r: seq<RouteStat>)
    ensures RouteTable(r, bookings, flights, start, end, now)
  {
    RouteRows(bookings, flights, start, end, now);
    RouteRanking(bookings, flights, start, end, now)
  }

  lemma RouteRows(bookings: seq<Booking>, flights: seq<Flight>, start: int, end: int, now: int)
    ensures RouteTable(RouteRanking(bookings, flights, start, end, now), bookings, flights, start, end, now)
  {
    RouteRowsHold(bookings, flights, start, end, now);
    RouteRowsKeyed(bookings, flights, start, end, now);
    RouteRowsOrdered(bookings, flights, start, end, now);
  }

  lemma RouteRowsHold(bookings: seq<Booking>, flights: seq<Flight>, start: int, end: int, now: int)
    ensures var r := RouteRanking(bookings, flights, start, end, now);
      forall i :: 0 <= i < |r| ==> RouteRow(r[i], bookings, flights, start, end, now)
  {
    var r := RouteRanking(bookings, flights, start, end, now);
    forall i | 0 <= i < |r| ensures RouteRow(r[i], bookings, flights, start, end, now) {
      RouteRowAt(bookings, flights, start, end, now, i);
    }
  }

  lemma RouteRowsKeyed(bookings: seq<Booking>, flights: seq<Flight>, start: int, end: int, now: int)
    ensures var r := RouteRanking(bookings, flights, start, end, now);
      forall i, j :: 0 <= i < j < |r| ==> r[i].route != r[j].route
  {
    var s := Filter(bookings, FlightBooking(flights, start, end, now));
    var r := RouteRanking(bookings, flights, start, end, now);
    forall i, j | 0 <= i < j < |r| ensures r[i].route != r[j].route {
      RankingKeysDiffer(s, FlightLabelOf(flights, RouteLabel()), RouteSummary(), AnyRoute(), RouteBookings(), RouteKey(), i, j);
    }
  }

  lemma RouteRowsOrdered(bookings: seq<Booking>, flights: seq<Flight>, start: int, end: int, now: int)
    ensures var r := RouteRanking(bookings, flights, start, end, now);
      forall i, j :: 0 <= i < j < |r| ==> r[i].bookings >= r[j].bookings
  {
    var r := RouteRanking(bookings, flights, start, end, now);
    forall i, j | 0 <= i < j < |r| ensures r[i].bookings >= r[j].bookings {
      assert RouteBookings()(r[i]) >= RouteBookings()(r[j]);
    }
  }

  lemma RouteRowAt(bookings: seq<Booking>, flights: seq<Flight>, start: int, end: int, now: int, i: nat)
    requires i < |RouteRanking(bookings, flights, start, end, now)|
    ensures RouteRow(RouteRanking(bookings, flights, start, end, now)[i], bookings, flights, start, end, now)
  {
    var s := Filter(bookings, FlightBooking(flights, start, end, now));
    var gs := GroupBy(s, FlightLabelOf(flights, RouteLabel()));
    RankingRow(s, FlightLabelOf(flights, RouteLabel()), RouteSummary(), AnyRoute(), RouteBookings(), i);
    var j :| 0 <= j < |gs| && RouteRanking(bookings, flights, start, end, now)[i] == RouteSummary()(gs[j]);
    FlightGroup(bookings, flights, RouteLabel(), start, end, now, j);
  }

  datatype AirlineStat = AirlineStat(airline: string, flights: nat, revenue: int)

  /** The flight's airline name, `'Unknown'` when missing. */
  function AirlineLabel(): Flight -> string
  {
    (f: Flight) => OrElse(f.airlineName, "Unknown")
  }

  function AirlineSummary(): Group<string, Booking> -> AirlineStat
  {
    (g: Group<string, Booking>) => AirlineStat(g.key, FlightCount(g.members), SumOf(g.members, TotalAmountOf()))
  }

  /** Every airline is shown. */
  function AnyAirline(): AirlineStat -> bool
  {
    (a: AirlineStat) => true
  }

  function AirlineRevenue(): AirlineStat -> int
  {
    (a: AirlineStat) => a.revenue
  }

  function AirlineKey(): AirlineStat -> string
  {
    (a: AirlineStat) => a.airline
  }

  /** What an airline row says: the airline of a listed flight (or
      `'Unknown'`), the revenue of the period's bookings on its flights and
      the distinct flights they use. */
  predicate AirlineRow(a: AirlineStat, bookings: seq<Booking>, flights: seq<Flight>, start: int, end: int, now: int)
  {
    var on := Filter(bookings, BookedOn(flights, AirlineLabel(), a.airline, start, end, now));
    && (exists k :: 0 <= k < |flights| && AirlineLabel()(flights[k]) == a.airline)
    && |on| > 0
    && a.revenue == SumOf(on, TotalAmountOf())
    && a.flights == FlightCount(on)
  }

  /** Ten airlines at most, each once, the largest revenue first. */
  predicate AirlineTable(r: seq<AirlineStat>, bookings: seq<Booking>, flights: seq<Flight>, start: int, end: int, now: int)
  {
    && |r| <= TopLimit
    && (forall i, j :: 0 <= i < j < |r| ==> r[i].revenue >= r[j].revenue)
    && (forall i, j :: 0 <= i < j < |r| ==> r[i].airline != r[j].airline)
    && (forall i :: 0 <= i < |r| ==> AirlineRow(r[i], bookings, flights, start, end, now))
  }

  /** The rows of the top airlines table: in-range bookings grouped by the
      flight's airline, ranked by revenue. */
  function AirlineRanking(bookings: seq<Booking>, flights: seq<Flight>, start: int, end: int, now: int): seq<AirlineStat>
  {
    Ranking(Filter(bookings, FlightBooking(flights, start, end, now)), FlightLabelOf(flights, AirlineLabel()), AirlineSummary(), AnyAirline(), AirlineRevenue())
  }

  /** The top airlines table of the period. */
  function TopAirlines(bookings: seq<Booking>, flights: seq<Flight>, start: int, end: int, now: int): (r: seq<AirlineStat>)
    ensures AirlineTable(r, bookings, flights, start, end, now)
  {
    AirlineRows(bookings, flights, start, end, now);
    AirlineRanking(bookings, flights, start, end, now)
  }

  lemma AirlineRows(bookings: seq<Booking>, flights: seq<Flight>, start: int, end: int, now: int)
    ensures AirlineTable(AirlineRanking(bookings, flights, start, end, now), bookings, flights, start, end, now)
  {
    AirlineRowsHold(bookings, flights, start, end, now);
    AirlineRowsKeyed(bookings, flights, start, end, now);
    AirlineRowsOrdered(bookings, flights, start, end, now);
  }

  lemma AirlineRowsHold(bookings: seq<Booking>, flights: seq<Flight>, start: int, end: int, now: int)
    ensures var r := AirlineRanking(bookings, flights, start, end, now);
      forall i :: 0 <= i < |r| ==> AirlineRow(r[i], bookings, flights, start, end, now)
  {
    var r := AirlineRanking(bookings, flights, start, end, now);
    forall i | 0 <= i < |r| ensures AirlineRow(r[i], bookings, flights, start, end, now) {
      AirlineRowAt(bookings, flights, start, end, now, i);
    }
  }

  lemma AirlineRowsKeyed(bookings: seq<Booking>, flights: seq<Flight>, start: int, end: int, now: int)
    ensures var r := AirlineRanking(bookings, flights, start, end, now);
      forall i, j :: 0 <= i < j < |r| ==> r[i].airline != r[j].airline
  {
    var s := Filter(bookings, FlightBooking(flights, start, end, now));
    var r := AirlineRanking(bookings, flights, start, end, now);
    forall i, j | 0 <= i < j < |r| ensures r[i].airline != r[j].airline {
      RankingKeysDiffer(s, FlightLabelOf(flights, AirlineLabel()), AirlineSummary(), AnyAirline(), AirlineRevenue(), AirlineKey(), i, j);
    }
  }

  lemma AirlineRowsOrdered(bookings: seq<Booking>, flights: seq<Flight>, start: int, end: int, now: int)
    ensures var r := AirlineRanking(bookings, flights, start, end, now);
      forall i, j :: 0 <= i < j < |r| ==> r[i].revenue >= r[j].revenue
  {
    var r := AirlineRanking(bookings, flights, start, end, now);
    forall i, j | 0 <= i < j < |r| ensures r[i].revenue >= r[j].revenue {
      assert AirlineRevenue()(r[i]) >= AirlineRevenue()(r[j]);
    }
  }

  lemma AirlineRowAt(bookings: seq<Booking>, flights: seq<Flight>, start: int, end: int, now: int, i: nat)
    requires i < |AirlineRanking(bookings, flights, start, end, now)|
    ensures AirlineRow(AirlineRanking(bookings, flights, start, end, now)[i], bookings, flights, start, end, now)
  {
    var s := Filter(bookings, FlightBooking(flights, start, end, now));
    var gs := GroupBy(s, FlightLabelOf(flights, AirlineLabel()));
    RankingRow(s, FlightLabelOf(flights, AirlineLabel()), AirlineSummary(), AnyAirline(), AirlineRevenue(), i);
    var j :| 0 <= j < |gs| && AirlineRanking(bookings, flights, start, end, now)[i] == AirlineSummary()(gs[j]);
    FlightGroup(bookings, flights, AirlineLabel(), start, end, now, j);
  }

  /** A route booked in the period is listed, or the table is full of
      routes booked at least as often. */
  lemma RouteOmitted(bookings: seq<Booking>, flights: seq<Flight>, start: int, end: int, now: int, b: Booking)
    requires b in bookings && FlightBooking(flights, start, end, now)(b)
    ensures var route := FlightLabelOf(flights, RouteLabel())(b);
      RouteListedOrBeaten(TopRoutes(bookings, flights, start, end, now),
        |Filter(bookings, BookedOn(flights, RouteLabel(), route, start, end, now))|, route)
  {
    CountRankingOmits(bookings, flights, RouteLabel(), start, end, now, b);
    assert TopRoutes(bookings, flights, start, end, now) == RouteRanking(bookings, flights, start, end, now);
  }

  /** `route` is listed, or the table is full of routes with at least
      `count` bookings. */
  predicate RouteListedOrBeaten(r: seq<RouteStat>, count: int, route: string)
  {
    (exists i :: 0 <= i < |r| && r[i].route == route)
    || (|r| == TopLimit && forall i :: 0 <= i < |r| ==> r[i].bookings >= count)
  }

  /** The same for a ranking by booking count under any flight label. */
  lemma CountRankingOmits(bookings: seq<Booking>, flights: seq<Flight>, tag: Flight -> string, start: int, end: int, now: int, b: Booking)
    requires b in bookings && FlightBooking(flights, start, end, now)(b)
    ensures var r := Ranking(Filter(bookings, FlightBooking(flights, start, end, now)), FlightLabelOf(flights, tag), RouteSummary(), AnyRoute(), RouteBookings());
      RouteListedOrBeaten(r, |Filter(bookings, BookedOn(flights, tag, FlightLabelOf(flights, tag)(b), start, end, now))|, FlightLabelOf(flights, tag)(b))
  {
    var s := Filter(bookings, FlightBooking(flights, start, end, now));
    var j := GroupOf(s, FlightLabelOf(flights, tag), b);
    var g := GroupBy(s, FlightLabelOf(flights, tag))[j];
    FlightGroup(bookings, flights, tag, start, end, now, j);
    RankingKeyListed(s, FlightLabelOf(flights, tag), RouteSummary(), AnyRoute(), RouteBookings(), RouteKey(), j);
    RouteListed(Ranking(s, FlightLabelOf(flights, tag), RouteSummary(), AnyRoute(), RouteBookings()), RouteSummary()(g), g.key);
  }

  lemma RouteListed(r: seq<RouteStat>, y: RouteStat, route: string)
    requires KeyListedOrBeaten(r, RouteKey(), RouteBookings(), route, RouteBookings()(y))
    ensures RouteListedOrBeaten(r, y.bookings, route)
  {
    if exists i :: 0 <= i < |r| && RouteKey()(r[i]) == route {
      var i :| 0 <= i < |r| && RouteKey()(r[i]) == route;
      assert r[i].route == route;
    } else {
      forall i | 0 <= i < |r| ensures r[i].bookings >= y.bookings {
        assert RouteBookings()(r[i]) >= RouteBookings()(y);
      }
    }
  }

  /** A row with key `k` is listed, or the table is full of rows whose
      figure is at least `m`. */
  predicate KeyListedOrBeaten<K(==), R>(r: seq<R>, rowKey: R -> K, metric: R -> int, k: K, m: int)
  {
    (exists i :: 0 <= i < |r| && rowKey(r[i]) == k)
    || (|r| == TopLimit && forall i :: 0 <= i < |r| ==> metric(r[i]) >= m)
  }

  /** A group whose row is worth showing has its key listed, or the table
      is full of rows with figures at least as large. */
  lemma RankingKeyListed<T, K, R>(s: seq<T>, key: T -> K, summary: Group<K, T> -> R, keep: R -> bool, metric: R -> int, rowKey: R -> K, j: nat)
    requires j < |GroupBy(s, key)| && keep(summary(GroupBy(s, key)[j]))
    requires rowKey(summary(GroupBy(s, key)[j])) == GroupBy(s, key)[j].key
    ensures var g := GroupBy(s, key)[j];
      KeyListedOrBeaten(Ranking(s, key, summary, keep, metric), rowKey, metric, g.key, metric(summary(g)))
  {
    var r := Ranking(s, key, summary, keep, metric);
    var g := GroupBy(s, key)[j];
    RankingComplete(s, key, summary, keep, metric, j);
    if summary(g) in r {
      var i :| 0 <= i < |r| && r[i] == summary(g);
      assert rowKey(r[i]) == g.key;
    }
  }

  /** An airline booked in the period that is not listed has earned no more
      than any listed airline, and the table is full. */
  lemma AirlineOmitted(bookings: seq<Booking>, flights: seq<Flight>, start: int, end: int, now: int, b: Booking)
    requires b in bookings && FlightBooking(flights, start, end, now)(b)
    requires var airline := FlightLabelOf(flights, AirlineLabel())(b);
      forall i :: 0 <= i < |AirlineRanking(bookings, flights, start, end, now)| ==> AirlineRanking(bookings, flights, start, end, now)[i].airline != airline
    ensures |AirlineRanking(bookings, flights, start, end, now)| == TopLimit
    ensures var airline := FlightLabelOf(flights, AirlineLabel())(b);
      forall i :: 0 <= i < |AirlineRanking(bookings, flights, start, end, now)| ==>
        AirlineRanking(bookings, flights, start, end, now)[i].revenue >= SumOf(Filter(bookings, BookedOn(flights, AirlineLabel(), airline, start, end, now)), TotalAmountOf())
  {
    var airline := FlightLabelOf(flights, AirlineLabel())(b);
    var revenue := SumOf(Filter(bookings, BookedOn(flights, AirlineLabel(), airline, start, end, now)), TotalAmountOf());
    AirlineRankingOmits(bookings, flights, start, end, now, b);
    AirlineUnlisted(AirlineRanking(bookings, flights, start, end, now), airline, revenue);
  }

  /** A booked airline is ranked, or beaten by a full table. */
  lemma AirlineRankingOmits(bookings: seq<Booking>, flights: seq<Flight>, start: int, end: int, now: int, b: Booking)
    requires b in bookings && FlightBooking(flights, start, end, now)(b)
    ensures var airline := FlightLabelOf(flights, AirlineLabel())(b);
      KeyListedOrBeaten(AirlineRanking(bookings, flights, start, end, now), AirlineKey(), AirlineRevenue(), airline,
        SumOf(Filter(bookings, BookedOn(flights, AirlineLabel(), airline, start, end, now)), TotalAmountOf()))
  {
    var s := Filter(bookings, FlightBooking(flights, start, end, now));
    var key := FlightLabelOf(flights, AirlineLabel());
    var j := GroupOf(s, key, b);
    FlightGroup(bookings, flights, AirlineLabel(), start, end, now, j);
    AirlineGroupListed(s, key, j);
  }

  lemma AirlineGroupListed(s: seq<Booking>, key: Booking -> string, j: nat)
    requires j < |GroupBy(s, key)|
    ensures var g := GroupBy(s, key)[j];
      KeyListedOrBeaten(Ranking(s, key, AirlineSummary(), AnyAirline(), AirlineRevenue()), AirlineKey(), AirlineRevenue(), g.key, SumOf(g.members, TotalAmountOf()))
  {
    RankingKeyListed(s, key, AirlineSummary(), AnyAirline(), AirlineRevenue(), AirlineKey(), j);
  }

  /** An airline missing from a table that lists it or is full is beaten by
      every listed airline. */
  lemma AirlineUnlisted(r: seq<AirlineStat>, airline: string, revenue: int)
    requires KeyListedOrBeaten(r, AirlineKey(), AirlineRevenue(), airline, revenue)
    requires forall i :: 0 <= i < |r| ==> r[i].airline != airline
    ensures |r| == TopLimit && forall i :: 0 <= i < |r| ==> r[i].revenue >= revenue
  {
    forall i | 0 <= i < |r| ensures AirlineKey()(r[i]) != airline {
      assert r[i].airline != airline;
    }
    forall i | 0 <= i < |r| ensures r[i].revenue >= revenue {
      assert AirlineRevenue()(r[i]) >= revenue;
    }
  }

  /** A flight without an airline name is ranked under `'Unknown'`. */
  lemma UnnamedAirlineIsUnknown(flights: seq<Flight>, b: Booking)
    requires FindFlight(flights, b.flightId).Some? && FindFlight(flights, b.flightId).value.airlineName.None?
    ensures FlightLabelOf(flights, AirlineLabel())(b) == "Unknown"
  {
  }
}
