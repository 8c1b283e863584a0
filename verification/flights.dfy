/**
 The flights screen. Unlike the admin tables it keeps the filtered,
 sorted list in its state (`flightsFiltered`) and recomputes it only on
 some events; its page count is never below 1 and its page buttons clamp
 into range.
 */
module Flights {
  import opened Common
  import opened Sorting
  import opened View
  import opened Tables

  datatype Flight = Flight(
    flightId: int,
    flightNumber: Option<string>,
    airlineName: Option<string>,
    departureAirport: Option<string>,
    arrivalAirport: Option<string>,
    departureTime: Option<int>,
    arrivalTime: Option<int>,
    basePrice: int,
    status: Option<string>)

  // ---------------------------------------------------------------------------
  // applyFlightsFilters
  // ---------------------------------------------------------------------------

  predicate FlightMatches(f: Flight, q: string, status: string)
  {
    && (q == ""
        || LowerFieldContains(f.flightNumber, q)
        || LowerFieldContains(f.airlineName, q)
        || LowerFieldContains(f.departureAirport, q)
        || LowerFieldContains(f.arrivalAirport, q))
    && EqualsFilter(f.status, status)
  }

  function FlightFilter(q: string, status: string): Flight -> bool
  {
    f => FlightMatches(f, q, status)
  }

  /** The two time fields become timestamps. A missing time becomes an
      invalid date, which is not `null`, so the comparator does compare it,
      and every comparison with it is false; a missing text field makes the
      comparator answer 0. The model sorts a missing value last in both
      cases. */
  function FlightKey(f: Flight, field: string): Key
  {
    if field == "departureTime" then DateKey(f.departureTime)
    else if field == "arrivalTime" then DateKey(f.arrivalTime)
    else if field == "flightNumber" then TextKey(f.flightNumber)
    else if field == "airlineName" then TextKey(f.airlineName)
    else if field == "departureAirport" then TextKey(f.departureAirport)
    else if field == "arrivalAirport" then TextKey(f.arrivalAirport)
    else if field == "status" then TextKey(f.status)
    else if field == "basePrice" then Num(f.basePrice)
    else if field == "flightId" then Num(f.flightId)
    else Missing
  }

  function FlightKeyOf(field: string): Flight -> Key
  {
    f => FlightKey(f, field)
  }

  function ApplyFilters(data: seq<Flight>, q: string, status: string, sort: string): (r: seq<Flight>)
    ensures forall k :: 0 <= k < |r| ==> r[k] in data && FlightMatches(r[k], q, status)
    ensures forall i :: 0 <= i < |data| && FlightMatches(data[i], q, status) ==> data[i] in r
    ensures multiset(r) == multiset(Filter(data, FlightFilter(q, status)))
    ensures SortedBy(r, FlightKeyOf(ParseSort(sort).0), ParseSort(sort).1)
  {
    var (field, dir) := ParseSort(sort);
    var r := SortBy(Filter(data, FlightFilter(q, status)), FlightKeyOf(field), dir);
    PermutedFilter(r, data, FlightFilter(q, status));
    r
  }

  /** The sort never changes how many flights are listed. */
  lemma SortKeepsCount(data: seq<Flight>, q: string, status: string, s1: string, s2: string)
    ensures |ApplyFilters(data, q, status, s1)| == |ApplyFilters(data, q, status, s2)|
  {
    var f := Filter(data, FlightFilter(q, status));
    assert |multiset(ApplyFilters(data, q, status, s1))| == |multiset(f)|;
    assert |multiset(ApplyFilters(data, q, status, s2))| == |multiset(f)|;
  }

  // ---------------------------------------------------------------------------
  // Screen state and handlers
  // ---------------------------------------------------------------------------

  datatype FlightsState = FlightsState(
    data: seq<Flight>,        // flightsData
    filtered: seq<Flight>,    // flightsFiltered
    page: int,
    perPage: pos,
    term: string,
    status: string,
    sort: string)

  /** `flightsFiltered` is what the criteria select from `flightsData`. */
  predicate Consistent(st: FlightsState)
  {
    st.filtered == ApplyFilters(st.data, st.term, st.status, st.sort)
  }

  /** The page lies within the shown page range. */
  predicate PageInRange(st: FlightsState)
  {
    1 <= st.page <= ShownPageCount(|st.filtered|, st.perPage)
  }

  datatype FlightsEvent =
    | Loaded(flights: seq<Flight>)           // loadFlights
    | SearchKey(value: string, enter: bool)  // handleFlightsSearch
    | StatusChanged(value: string)           // filterFlights
    | SortChanged(value: string)             // sortFlights
    | PerPageChanged(perPage: pos)           // changeFlightsPerPage
    | PageButton(req: PageRequest)           // changeFlightsPage

  function Recompute(st: FlightsState): FlightsState
  {
    st.(filtered := ApplyFilters(st.data, st.term, st.status, st.sort))
  }

  function Step(st: FlightsState, ev: FlightsEvent): (st': FlightsState)
    ensures !ev.Loaded? ==> st'.data == st.data
    ensures ev.Loaded? ==> st'.data == ev.flights && st'.page == st.page && Consistent(st')
    ensures ev.SearchKey? && (ev.enter || ev.value == "") ==>
      st'.term == Lower(ev.value) && st'.page == 1 && Consistent(st')
    ensures ev.SearchKey? && !(ev.enter || ev.value == "") ==> st' == st
    ensures ev.StatusChanged? ==> st'.status == ev.value && st'.page == 1 && Consistent(st')
    ensures ev.SortChanged? ==> st'.sort == ev.value && st'.page == st.page && Consistent(st')
    ensures ev.PerPageChanged? ==> st' == st.(perPage := ev.perPage, page := 1)
    ensures ev.PageButton? ==> st' == st.(page := st'.page) && (st.page >= 0 ==> st'.page >= 1)
    ensures ev.PageButton? ==> st'.page == NavigateClamped(st.page, ev.req, ShownPageCount(|st.filtered|, st.perPage))
  {
    match ev
    case Loaded(flights) => Recompute(st.(data := flights))
    case SearchKey(value, enter) =>
      if enter || value == "" then Recompute(st.(term := Lower(value), page := 1)) else st
    case StatusChanged(value) => Recompute(st.(status := value, page := 1))
    case SortChanged(value) => Recompute(st.(sort := value))
    case PerPageChanged(n) => st.(perPage := n, page := 1)
    case PageButton(req) =>
      st.(page := NavigateClamped(st.page, req, ShownPageCount(|st.filtered|, st.perPage)))
  }

  /** Every handler keeps `flightsFiltered` in step with the criteria; the
      per-page handler does so without recomputing, because it changes
      neither the data nor the criteria. */
  lemma StepKeepsConsistent(st: FlightsState, ev: FlightsEvent)
    requires Consistent(st)
    ensures Consistent(Step(st, ev))
  {
  }

  /** Every handler except a reload keeps the page within range; a reload
      keeps the page even when the list has shrunk below it. */
  lemma StepKeepsPageInRange(st: FlightsState, ev: FlightsEvent)
    requires Consistent(st) && PageInRange(st) && !ev.Loaded?
    ensures PageInRange(Step(st, ev))
  {
    match ev
    case SortChanged(value) =>
      SortKeepsCount(st.data, st.term, st.status, st.sort, value);
    case PageButton(req) =>
    case _ =>
  }

  /** After a reload that empties the list, the page is left where it was. */
  lemma ReloadKeepsStalePage(st: FlightsState)
    requires st.page == 3
    ensures Step(st, Loaded([])).page == 3
    ensures !PageInRange(Step(st, Loaded([])))
  {
  }

  // ---------------------------------------------------------------------------
  // renderFlightsTable / renderPagination
  // ---------------------------------------------------------------------------

  /** An empty list shows the empty state and `renderPagination(0)`, which
      still reads "1" pages; otherwise the current page slice. */
  function ShowFlights(filtered: seq<Flight>, page: int, perPage: pos): (v: TableView<Flight>)
    ensures |filtered| == 0 <==> v.body == EmptyState
    ensures v.body.Rows? ==> v.body.rows == PageItems(filtered, page, perPage) && |v.body.rows| <= perPage
    ensures v.pager.Some? && v.pager.value.shownTotal == ShownPageCount(|filtered|, perPage) >= 1
    ensures v.pager.value.prevDisabled <==> page == 1
    ensures v.pager.value.nextDisabled <==> page >= v.pager.value.shownTotal
  {
    var total := ShownPageCount(|filtered|, perPage);
    var body := if |filtered| == 0 then EmptyState else Rows(PageItems(filtered, page, perPage));
    TableView(body, Some(Pager(page, total, page == 1, page == 1, page >= total, page >= total)))
  }

  /** Showing the pages 1..total in turn lists every filtered flight once,
      in order. */
  lemma FlightPagesCoverList(filtered: seq<Flight>, perPage: pos)
    ensures Pages(filtered, perPage, ShowFlights(filtered, 1, perPage).pager.value.shownTotal) == filtered
  {
    PagesReassemble(filtered, perPage);
  }

  // ---------------------------------------------------------------------------
  // toLocalInputValue
  // ---------------------------------------------------------------------------

  /** The local calendar fields `Date` reports (`getMonth()` is 0-based). */
  datatype LocalDateTime = LocalDateTime(year: nat, monthIndex: nat, day: nat, hour: nat, minute: nat)

  predicate ValidLocal(d: LocalDateTime)
  {
    d.monthIndex < 12 && 1 <= d.day <= 31 && d.hour < 24 && d.minute < 60
  }

  /** `YYYY-MM-DDTHH:MM` for a `datetime-local` input, `""` for no date. */
  function ToLocalInputValue(date: Option<LocalDateTime>): (r: string)
    ensures date.None? <==> r == ""
    ensures date.Some? && ValidLocal(date.value) ==> |r| == |NatToString(date.value.year)| + 12
  {
    if date.None? then ""
    else
      var d := date.value;
      NatToString(d.year) + "-" + Pad2(d.monthIndex + 1) + "-" + Pad2(d.day)
        + "T" + Pad2(d.hour) + ":" + Pad2(d.minute)
  }

  /** Reads a `YYYY-MM-DDTHH:MM` value back into its fields. */
  function ParseLocalInput(s: string): Option<LocalDateTime>
  {
    if |s| < 13 then None
    else
      var n := |s| - 12;
      ReadFields(s[..n], s[n + 1..n + 3], s[n + 4..n + 6], s[n + 7..n + 9], s[n + 10..], [s[n], s[n + 3], s[n + 6], s[n + 9]])
  }

  /** The date the cut-out fields give, when every field is digits and the
      separators are the input's own. */
  function ReadFields(y: string, mo: string, d: string, h: string, mi: string, seps: string): Option<LocalDateTime>
  {
    if !(AllDigits(y) && AllDigits(mo) && AllDigits(d) && AllDigits(h) && AllDigits(mi)) then None
    else if seps != "--T:" then None
    else if ParseDigits(mo) == 0 then None
    else Some(LocalDateTime(ParseDigits(y), ParseDigits(mo) - 1, ParseDigits(d), ParseDigits(h), ParseDigits(mi)))
  }

  /** The rendered value carries the month as index + 1 and every field
      zero-padded, so it reads back into the same date. */
  lemma LocalInputRoundTrip(d: LocalDateTime)
    requires ValidLocal(d)
    ensures ParseLocalInput(ToLocalInputValue(Some(d))) == Some(d)
  {
    var y := NatToString(d.year);
    var mo, dd, h, mi := Pad2(d.monthIndex + 1), Pad2(d.day), Pad2(d.hour), Pad2(d.minute);
    assert ToLocalInputValue(Some(d)) == y + "-" + mo + "-" + dd + "T" + h + ":" + mi;
    ParseNatToString(d.year);
    Pad2RoundTrip(d.monthIndex + 1);
    Pad2RoundTrip(d.day);
    Pad2RoundTrip(d.hour);
    Pad2RoundTrip(d.minute);
    ParseFields(y, mo, dd, h, mi);
  }

  /** Digit fields joined with the input's separators read back field by
      field. */
  lemma ParseFields(y: string, mo: string, dd: string, h: string, mi: string)
    requires |y| >= 1 && |mo| == |dd| == |h| == |mi| == 2
    requires AllDigits(y) && AllDigits(mo) && AllDigits(dd) && AllDigits(h) && AllDigits(mi)
    requires ParseDigits(mo) > 0
    ensures ParseLocalInput(y + "-" + mo + "-" + dd + "T" + h + ":" + mi)
      == Some(LocalDateTime(ParseDigits(y), ParseDigits(mo) - 1, ParseDigits(dd), ParseDigits(h), ParseDigits(mi)))
  {
    FieldLayout(y, mo, dd, h, mi);
    ParseSplit(y + "-" + mo + "-" + dd + "T" + h + ":" + mi, y, mo, dd, h, mi);
  }

  /** A value already cut into its fields parses into those fields. */
  lemma ParseSplit(s: string, y: string, mo: string, dd: string, h: string, mi: string)
    requires |y| >= 1 && |s| == |y| + 12
    requires var n := |y|;
      && s[..n] == y && s[n + 1..n + 3] == mo && s[n + 4..n + 6] == dd && s[n + 7..n + 9] == h && s[n + 10..] == mi
      && s[n] == '-' && s[n + 3] == '-' && s[n + 6] == 'T' && s[n + 9] == ':'
    requires AllDigits(y) && AllDigits(mo) && AllDigits(dd) && AllDigits(h) && AllDigits(mi)
    requires ParseDigits(mo) > 0
    ensures ParseLocalInput(s) == Some(LocalDateTime(ParseDigits(y), ParseDigits(mo) - 1, ParseDigits(dd), ParseDigits(h), ParseDigits(mi)))
  {
    CutFields(s, y, mo, dd, h, mi);
    ReadDigitFields(y, mo, dd, h, mi);
  }

  /** Cutting the value at the input's fixed offsets gives back the fields. */
  lemma CutFields(s: string, y: string, mo: string, dd: string, h: string, mi: string)
    requires |y| >= 1 && |s| == |y| + 12
    requires var n := |y|;
      && s[..n] == y && s[n + 1..n + 3] == mo && s[n + 4..n + 6] == dd && s[n + 7..n + 9] == h && s[n + 10..] == mi
      && s[n] == '-' && s[n + 3] == '-' && s[n + 6] == 'T' && s[n + 9] == ':'
    ensures ParseLocalInput(s) == ReadFields(y, mo, dd, h, mi, "--T:")
  {
    var n := |s| - 12;
    assert [s[n], s[n + 3], s[n + 6], s[n + 9]] == "--T:";
  }

  /** Digit fields with the right separators read as their numbers. */
  lemma ReadDigitFields(y: string, mo: string, dd: string, h: string, mi: string)
    requires AllDigits(y) && AllDigits(mo) && AllDigits(dd) && AllDigits(h) && AllDigits(mi)
    requires ParseDigits(mo) > 0
    ensures ReadFields(y, mo, dd, h, mi, "--T:") == Some(LocalDateTime(ParseDigits(y), ParseDigits(mo) - 1, ParseDigits(dd), ParseDigits(h), ParseDigits(mi)))
  {
  }

  /** Where each field and separator sits in the joined value. */
  lemma FieldLayout(y: string, mo: string, dd: string, h: string, mi: string)
    requires |mo| == |dd| == |h| == |mi| == 2
    ensures var s, n := y + "-" + mo + "-" + dd + "T" + h + ":" + mi, |y|;
      && |s| == n + 12
      && s[..n] == y && s[n + 1..n + 3] == mo && s[n + 4..n + 6] == dd && s[n + 7..n + 9] == h && s[n + 10..] == mi
      && s[n] == '-' && s[n + 3] == '-' && s[n + 6] == 'T' && s[n + 9] == ':'
  {
    var s := y + "-" + mo + "-" + dd + "T" + h + ":" + mi;
    var n := |y|;
    assert s[..n] == y;
    assert s[n + 1..n + 3] == mo;
    assert s[n + 4..n + 6] == dd;
    assert s[n + 7..n + 9] == h;
    assert s[n + 10..] == mi;
  }
}
