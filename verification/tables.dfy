/**
 The bookings, users and payments tables of the admin screen: their
 records, search predicates, sort keys, the handlers that change the view
 state, and what one render shows.
 */
module Tables {
  import opened Common
  import opened Sorting
  import opened View

  // ---------------------------------------------------------------------------
  // Records
  // ---------------------------------------------------------------------------

  /** `booking.flight.airline` when the booking carries one. */
  datatype AirlineRef = AirlineRef(airlineName: Option<string>)

  /** A booking as the API returns it; dates are timestamps, an id of 0
      stands for a missing (falsy) id. */
  datatype Booking = Booking(
    bookingId: int,
    bookingReference: Option<string>,
    userName: Option<string>,
    bookingStatus: Option<string>,
    bookingDate: Option<int>,
    createdAt: Option<int>,
    totalAmount: int,
    userId: int,
    flightId: int,
    airline: Option<AirlineRef>)

  datatype User = User(
    userId: int,
    username: Option<string>,
    email: Option<string>,
    fullName: Option<string>,
    phone: Option<string>,
    createdAt: Option<int>,
    totalBookings: int)

  datatype Payment = Payment(
    paymentId: int,
    transactionId: Option<string>,
    paymentReference: Option<string>,
    paymentMethod: Option<string>,
    status: Option<string>,
    amount: int,
    createdAt: Option<int>,
    paymentDate: Option<int>)

  // ---------------------------------------------------------------------------
  // Search predicates
  // ---------------------------------------------------------------------------

  /** `field?.toLowerCase().includes(term)`: a missing field never matches. */
  predicate LowerFieldContains(field: Option<string>, term: string)
  {
    field.Some? && Contains(Lower(field.value), term)
  }

  /** `field?.includes(term)`: no case folding. */
  predicate FieldContains(field: Option<string>, term: string)
  {
    field.Some? && Contains(field.value, term)
  }

  /** An empty equality filter is a no-op; otherwise the field must equal it
      (`undefined !== 'X'`, so a missing field fails a set filter). */
  predicate EqualsFilter(field: Option<string>, filter: string)
  {
    filter == "" || field == Some(filter)
  }

  predicate BookingMatches(b: Booking, term: string, status: string)
  {
    && (term == "" || LowerFieldContains(b.bookingReference, term) || LowerFieldContains(b.userName, term))
    && EqualsFilter(b.bookingStatus, status)
  }

  /** The phone number is searched without lower-casing it. */
  predicate UserMatches(u: User, term: string)
  {
    term == ""
    || LowerFieldContains(u.username, term)
    || LowerFieldContains(u.email, term)
    || LowerFieldContains(u.fullName, term)
    || FieldContains(u.phone, term)
  }

  predicate PaymentMatches(p: Payment, term: string, payMethod: string, status: string)
  {
    && (term == "" || LowerFieldContains(p.transactionId, term) || LowerFieldContains(p.paymentReference, term))
    && EqualsFilter(p.paymentMethod, payMethod)
    && EqualsFilter(p.status, status)
  }

  function BookingFilter(term: string, status: string): Booking -> bool
  {
    b => BookingMatches(b, term, status)
  }

  function UserFilter(term: string): User -> bool
  {
    u => UserMatches(u, term)
  }

  function PaymentFilter(term: string, payMethod: string, status: string): Payment -> bool
  {
    p => PaymentMatches(p, term, payMethod, status)
  }

  // ---------------------------------------------------------------------------
  // Sort keys: `a[sortField]`, with the date fields turned into timestamps
  // ---------------------------------------------------------------------------

  /** `new Date(value)`: a missing value gives an Invalid Date. */
  function DateKey(t: Option<int>): Key
  {
    if t.Some? then Num(t.value) else Missing
  }

  function TextKey(t: Option<string>): Key
  {
    if t.Some? then Text(t.value) else Missing
  }

  /** A field name the record does not have reads as `undefined`. */
  function BookingKey(b: Booking, field: string): Key
  {
    if field == "bookingDate" then DateKey(b.bookingDate)
    else if field == "createdAt" then DateKey(b.createdAt)
    else if field == "bookingReference" then TextKey(b.bookingReference)
    else if field == "userName" then TextKey(b.userName)
    else if field == "bookingStatus" then TextKey(b.bookingStatus)
    else if field == "totalAmount" then Num(b.totalAmount)
    else if field == "bookingId" then Num(b.bookingId)
    else Missing
  }

  /** The users comparator answers 0 unless both values are truthy; a falsy
      value (missing, empty text, the number 0) is therefore a missing key.
      A `Date` object is always truthy, so `createdAt` is only missing when
      it cannot be read. */
  function Truthy(k: Key): Key
  {
    match k
    case Text(s) => if s == "" then Missing else k
    case Num(n) => if n == 0 then Missing else k
    case Missing => Missing
  }

  function UserKey(u: User, field: string): Key
  {
    if field == "createdAt" then DateKey(u.createdAt)
    else Truthy(
      if field == "username" then TextKey(u.username)
      else if field == "email" then TextKey(u.email)
      else if field == "fullName" then TextKey(u.fullName)
      else if field == "phone" then TextKey(u.phone)
      else if field == "userId" then Num(u.userId)
      else if field == "totalBookings" then Num(u.totalBookings)
      else Missing)
  }

  function PaymentKey(p: Payment, field: string): Key
  {
    if field == "createdAt" then DateKey(p.createdAt)
    else if field == "paymentDate" then DateKey(p.paymentDate)
    else if field == "amount" then Num(p.amount)
    else if field == "paymentId" then Num(p.paymentId)
    else if field == "transactionId" then TextKey(p.transactionId)
    else if field == "paymentMethod" then TextKey(p.paymentMethod)
    else if field == "status" then TextKey(p.status)
    else Missing
  }

  function BookingKeyOf(field: string): Booking -> Key
  {
    b => BookingKey(b, field)
  }

  function UserKeyOf(field: string): User -> Key
  {
    u => UserKey(u, field)
  }

  function PaymentKeyOf(field: string): Payment -> Key
  {
    p => PaymentKey(p, field)
  }

  // ---------------------------------------------------------------------------
  // getFilteredBookings / getFilteredUsers / getFilteredPayments
  // ---------------------------------------------------------------------------

  /** The filtered list is a sorted permutation of exactly the matching
      bookings; `items` itself is a value and is never changed. */
  function FilteredBookings(items: seq<Booking>, term: string, status: string, sort: string): (r: seq<Booking>)
    ensures forall k :: 0 <= k < |r| ==> r[k] in items && BookingMatches(r[k], term, status)
    ensures forall i :: 0 <= i < |items| && BookingMatches(items[i], term, status) ==> items[i] in r
    ensures multiset(r) == multiset(Filter(items, BookingFilter(term, status)))
    ensures SortedBy(r, BookingKeyOf(ParseSort(sort).0), ParseSort(sort).1)
  {
    var (field, dir) := ParseSort(sort);
    var r := SortBy(Filter(items, BookingFilter(term, status)), BookingKeyOf(field), dir);
    PermutedFilter(r, items, BookingFilter(term, status));
    r
  }

  function FilteredUsers(items: seq<User>, term: string, sort: string): (r: seq<User>)
    ensures forall k :: 0 <= k < |r| ==> r[k] in items && UserMatches(r[k], term)
    ensures forall i :: 0 <= i < |items| && UserMatches(items[i], term) ==> items[i] in r
    ensures multiset(r) == multiset(Filter(items, UserFilter(term)))
    ensures SortedBy(r, UserKeyOf(ParseSort(sort).0), ParseSort(sort).1)
  {
    var (field, dir) := ParseSort(sort);
    var r := SortBy(Filter(items, UserFilter(term)), UserKeyOf(field), dir);
    PermutedFilter(r, items, UserFilter(term));
    r
  }

  function FilteredPayments(items: seq<Payment>, term: string, payMethod: string, status: string, sort: string): (r: seq<Payment>)
    ensures forall k :: 0 <= k < |r| ==> r[k] in items && PaymentMatches(r[k], term, payMethod, status)
    ensures forall i :: 0 <= i < |items| && PaymentMatches(items[i], term, payMethod, status) ==> items[i] in r
    ensures multiset(r) == multiset(Filter(items, PaymentFilter(term, payMethod, status)))
    ensures SortedBy(r, PaymentKeyOf(ParseSort(sort).0), ParseSort(sort).1)
  {
    var (field, dir) := ParseSort(sort);
    var r := SortBy(Filter(items, PaymentFilter(term, payMethod, status)), PaymentKeyOf(field), dir);
    PermutedFilter(r, items, PaymentFilter(term, payMethod, status));
    r
  }

  /** Two bookings with distinct, present keys come out in key order. */
  lemma BookingsOrdered(items: seq<Booking>, term: string, status: string, sort: string, i: int, j: int)
    requires var r := FilteredBookings(items, term, status, sort);
      0 <= i < j < |r| && !BookingKey(r[i], ParseSort(sort).0).Missing? && !BookingKey(r[j], ParseSort(sort).0).Missing?
      && BookingKey(r[i], ParseSort(sort).0) != BookingKey(r[j], ParseSort(sort).0)
    ensures var r := FilteredBookings(items, term, status, sort);
      var (field, dir) := ParseSort(sort);
      if dir == Asc then !KeyLe(BookingKey(r[j], field), BookingKey(r[i], field))
      else !KeyLe(BookingKey(r[i], field), BookingKey(r[j], field))
  {
    var r := FilteredBookings(items, term, status, sort);
    var (field, dir) := ParseSort(sort);
    SortedPresentKeys(r, BookingKeyOf(field), dir, i, j);
  }

  /** Searching is case-insensitive for the text fields: a user is found by
      a term in any letter case once the handler has lower-cased it. */
  lemma UserSearchIgnoresCase(u: User, t1: string, t2: string)
    requires Lower(t1) == Lower(t2)
    requires u.username.Some? && Contains(Lower(u.username.value), Lower(t1))
    ensures UserMatches(u, Lower(t2))
  {
  }

  /** ... but not for the phone number: a phone holding letters is not
      found by the same letters in upper case, since the stored term is
      always lower case. */
  lemma PhoneSearchIsCaseSensitive()
    ensures var u := User(1, None, None, None, Some("AB12"), None, 0);
      UserMatches(u, "AB") && !UserMatches(u, Lower("AB"))
  {
    var u := User(1, None, None, None, Some("AB12"), None, 0);
    assert OccursAt("AB12", "AB", 0);
    assert Lower("AB") == "ab";
    assert !Contains("AB12", "ab") by {
      forall i | 0 <= i <= 2 ensures !OccursAt("AB12", "ab", i) {
        assert "AB12"[i..i + 2] != "ab" by {
          assert "AB12"[i..i + 2][0] == "AB12"[i];
        }
      }
    }
  }

  /** With an empty term and no status filter every booking is listed. */
  lemma EmptyCriteriaKeepAll(items: seq<Booking>, sort: string)
    ensures multiset(FilteredBookings(items, "", "", sort)) == multiset(items)
  {
    FilterKeepAll(items, BookingFilter("", ""));
  }

  // ---------------------------------------------------------------------------
  // View state and its handlers
  // ---------------------------------------------------------------------------

  /** The module-level state of one table: search term (already lower
      case), resource-specific filters, the sort selector value, the current
      page and the page size. */
  datatype TableState<F> = TableState(term: string, filters: F, sort: string, page: int, perPage: pos)

  datatype TableEvent<F> =
    | SearchKey(value: string, enter: bool)   // keyup in the search box
    | FiltersChanged(filters: F)              // filterBookings / filterPayments
    | SortChanged(value: string)              // sortBookings / ...
    | PerPageChanged(perPage: pos)            // changeBookingsPerPage / ...
    | PageButton(req: PageRequest)            // changeBookingsPage / ...

  /** One handler call; `filteredCount` is the length of the filtered list
      under the current state (the page handler recomputes it). */
  function Handle<F>(st: TableState<F>, ev: TableEvent<F>, filteredCount: nat): (st': TableState<F>)
    ensures ev.SearchKey? && (ev.enter || ev.value == "") ==>
      st' == st.(term := Lower(ev.value), page := 1)
    ensures ev.SearchKey? && !(ev.enter || ev.value == "") ==> st' == st
    ensures ev.FiltersChanged? ==> st' == st.(filters := ev.filters, page := 1)
    ensures ev.SortChanged? ==> st' == st.(sort := ev.value)
    ensures ev.PerPageChanged? ==> st' == st.(perPage := ev.perPage, page := 1)
    ensures ev.PageButton? ==> (st'.term == st.term && st'.filters == st.filters && st'.sort == st.sort
      && st'.perPage == st.perPage)
    ensures ev.PageButton? ==> st'.page == Navigate(st.page, ev.req, PageCount(filteredCount, st.perPage))
  {
    match ev
    case SearchKey(value, enter) =>
      if enter || value == "" then st.(term := Lower(value), page := 1) else st
    case FiltersChanged(f) => st.(filters := f, page := 1)
    case SortChanged(value) => st.(sort := value)
    case PerPageChanged(n) => st.(perPage := n, page := 1)
    case PageButton(req) => st.(page := Navigate(st.page, req, PageCount(filteredCount, st.perPage)))
  }

  /** Changing the filters or the page size goes back to page 1, changing
      the sort keeps the page, and every handler except the page buttons
      keeps a valid page valid. */
  lemma HandlePageRules<F>(st: TableState<F>, ev: TableEvent<F>, filteredCount: nat)
    requires 1 <= st.page <= ShownPageCount(filteredCount, st.perPage)
    ensures var st' := Handle(st, ev, filteredCount);
      (ev.FiltersChanged? || ev.PerPageChanged? ==> st'.page == 1)
      && (ev.SortChanged? ==> st'.page == st.page)
      && (ev.PageButton? && filteredCount > 0 ==> 1 <= st'.page <= ShownPageCount(filteredCount, st'.perPage))
  {
    if ev.PageButton? && filteredCount > 0 {
      NavigateRange(st.page, ev.req, PageCount(filteredCount, st.perPage));
    }
  }

  /** On an empty result 'next' and 'last' move to page 0. */
  lemma EmptyListNextGivesPageZero<F>(st: TableState<F>)
    requires st.page >= 0
    ensures Handle(st, PageButton(Next), 0).page == 0
    ensures Handle(st, PageButton(Number(999)), 0).page == 0
  {
  }

  // ---------------------------------------------------------------------------
  // displayBookings / displayUsers / displayPayments
  // ---------------------------------------------------------------------------

  /** The body and, unless nothing is loaded at all, the pagination bar. */
  datatype TableView<T> = TableView(body: Display<T>, pager: Option<Pager>)

  function ShowTable<T>(loadedCount: nat, filtered: seq<T>, page: int, perPage: pos): (v: TableView<T>)
    ensures loadedCount == 0 ==> v.body == EmptyState && v.pager == None
    ensures loadedCount > 0 && |filtered| == 0 ==> v.body == EmptyState
    ensures loadedCount > 0 && |filtered| > 0 ==> v.body == Rows(PageItems(filtered, page, perPage))
    ensures v.body.Rows? ==> |v.body.rows| <= perPage
    ensures loadedCount > 0 ==> (v.pager.Some?
      && v.pager.value.shownTotal == ShownPageCount(|filtered|, perPage) >= 1
      && (v.pager.value.prevDisabled <==> page == 1)
      && (v.pager.value.nextDisabled <==> page >= v.pager.value.shownTotal))
  {
    if loadedCount == 0 then TableView(EmptyState, None)
    else
      var total := ShownPageCount(|filtered|, perPage);
      var body := if |filtered| == 0 then EmptyState else Rows(PageItems(filtered, page, perPage));
      TableView(body, Some(Pager(page, total, page == 1, page == 1,
                                 page >= total || total == 0, page >= total || total == 0)))
  }

  /** Every filtered booking is shown on exactly the page that holds its
      position, and page `p` holds the positions [(p-1)*n, p*n). */
  lemma BookingOnItsPage(filtered: seq<Booking>, perPage: pos, i: nat)
    requires i < |filtered|
    ensures var p := i / perPage + 1;
      1 <= p <= ShownPageCount(|filtered|, perPage)
      && PageItems(filtered, p, perPage)[i % perPage] == filtered[i]
  {
    var p := i / perPage + 1;
    PositionOnPage(|filtered|, perPage, i);
    PageItemAt(filtered, p, perPage, i % perPage);
  }
}
