/**
 The seat manager of one flight: the seat grid filtered by cabin class and
 laid out row by row, the bulk actions on the selected seats, the extra-fee
 prompt and the availability toggle of a single seat.
 */
module Seats {
  import opened Common
  import opened Sorting
  import opened View
  import opened Grouping

  datatype Seat = Seat(
    seatId: int,
    seatNumber: Option<string>,
    seatRow: int,
    seatColumn: string,
    seatClassName: Option<string>,
    isAvailable: bool)

  // ---------------------------------------------------------------------------
  // renderSeatGrid
  // ---------------------------------------------------------------------------

  /** A seat's class as the filter compares it: upper-cased, "" if none. */
  function ClassOf(s: Seat): string
  {
    Upper(OrElse(s.seatClassName, ""))
  }

  function ClassIs(c: string): Seat -> bool
  {
    (s: Seat) => ClassOf(s) == c
  }

  /** The seats of the chosen class; the empty choice keeps every seat. */
  function FilterSeats(seats: seq<Seat>, filter: string): (r: seq<Seat>)
    ensures filter == "" ==> r == seats
    ensures forall k :: 0 <= k < |r| ==> r[k] in seats && (filter == "" || ClassOf(r[k]) == Upper(filter))
    ensures forall i :: 0 <= i < |seats| && (filter == "" || ClassOf(seats[i]) == Upper(filter)) ==> seats[i] in r
  {
    var c := Upper(filter);
    assert c == "" <==> filter == "";
    if c == "" then seats else Filter(seats, ClassIs(c))
  }

  /** The class filter ignores letter case on both sides. */
  lemma FilterIgnoresCase(seats: seq<Seat>, f1: string, f2: string)
    requires Upper(f1) == Upper(f2)
    ensures FilterSeats(seats, f1) == FilterSeats(seats, f2)
  {
  }

  datatype SeatRow = SeatRow(row: int, seats: seq<Seat>)

  function RowOf(): Seat -> int
  {
    (s: Seat) => s.seatRow
  }

  function ColumnKey(): Seat -> Key
  {
    (s: Seat) => Text(s.seatColumn)
  }

  function RowNumbers(grid: seq<SeatRow>): (r: seq<int>)
    ensures |r| == |grid|
    ensures forall i :: 0 <= i < |grid| ==> r[i] == grid[i].row
  {
    seq(|grid|, i requires 0 <= i < |grid| => grid[i].row)
  }

  /** One row of the grid: its seats in column order. */
  function BuildRow(g: Group<int, Seat>): (r: SeatRow)
    ensures r.row == g.key
    ensures SortedBy(r.seats, ColumnKey(), Asc)
    ensures multiset(r.seats) == multiset(g.members)
  {
    SeatRow(g.key, SortBy(g.members, ColumnKey(), Asc))
  }

  /** The rows of `groups` in the order `rows` lists their keys. */
  function Layout(groups: seq<Group<int, Seat>>, rows: seq<int>): (grid: seq<SeatRow>)
    requires forall k :: 0 <= k < |rows| ==> rows[k] in Keys(groups)
    ensures |grid| == |rows|
    ensures forall i :: 0 <= i < |grid| ==> grid[i] == BuildRow(groups[FindGroup(groups, rows[i])])
    ensures RowNumbers(grid) == rows
    ensures forall i :: 0 <= i < |grid| ==> SortedBy(grid[i].seats, ColumnKey(), Asc)
  {
    seq(|rows|, i requires 0 <= i < |rows| => BuildRow(groups[FindGroup(groups, rows[i])]))
  }

  function RowGroups(filtered: seq<Seat>): seq<Group<int, Seat>>
  {
    GroupBy(filtered, RowOf())
  }

  /** The grid: the filtered seats grouped by row, rows in ascending
      number order, each row's seats in column order. */
  function SeatGrid(seats: seq<Seat>, filter: string): (grid: seq<SeatRow>)
    ensures Increasing(RowNumbers(grid))
    ensures forall i :: 0 <= i < |grid| ==> SortedBy(grid[i].seats, ColumnKey(), Asc)
  {
    var groups := RowGroups(FilterSeats(seats, filter));
    var rows := SortedKeys(Keys(groups));
    Layout(groups, rows)
  }

  /** Each row of the grid holds exactly the filtered seats of its row
      number, and no row is empty. */
  lemma GridRowContents(seats: seq<Seat>, filter: string, i: nat)
    requires i < |SeatGrid(seats, filter)|
    ensures var row := SeatGrid(seats, filter)[i];
      multiset(row.seats) == multiset(Filter(FilterSeats(seats, filter), KeyIs(RowOf(), row.row)))
      && |row.seats| > 0
  {
    var filtered := FilterSeats(seats, filter);
    var groups := RowGroups(filtered);
    var rows := SortedKeys(Keys(groups));
    assert SeatGrid(seats, filter)[i] == BuildRow(groups[FindGroup(groups, rows[i])]);
    RowFromGroup(filtered, rows[i]);
  }

  lemma RowFromGroup(filtered: seq<Seat>, k: int)
    requires k in Keys(RowGroups(filtered))
    ensures var row := BuildRow(RowGroups(filtered)[FindGroup(RowGroups(filtered), k)]);
      multiset(row.seats) == multiset(Filter(filtered, KeyIs(RowOf(), row.row)))
      && |row.seats| > 0
  {
    var g := FindGroup(RowGroups(filtered), k);
    GroupNonEmpty(filtered, RowOf(), g);
  }

  /** Every seat that passes the filter has its row in the grid. */
  lemma GridCoversSeats(seats: seq<Seat>, filter: string)
    ensures forall k :: 0 <= k < |FilterSeats(seats, filter)| ==>
      FilterSeats(seats, filter)[k].seatRow in RowNumbers(SeatGrid(seats, filter))
  {
    var filtered := FilterSeats(seats, filter);
    var groups := RowGroups(filtered);
    GridRowNumbers(seats, filter);
    forall k | 0 <= k < |filtered| ensures filtered[k].seatRow in Keys(groups) {
      assert RowOf()(filtered[k]) in Keys(groups);
    }
  }

  lemma GridRowNumbers(seats: seq<Seat>, filter: string)
    ensures RowNumbers(SeatGrid(seats, filter)) == SortedKeys(Keys(RowGroups(FilterSeats(seats, filter))))
  {
  }

  /** Every seat that passes the filter is in the row of its own number,
      as often as it was listed, and in no other row. */
  lemma SeatInItsRowOnly(seats: seq<Seat>, filter: string, s: Seat, i: nat)
    requires i < |SeatGrid(seats, filter)|
    ensures var row := SeatGrid(seats, filter)[i];
      multiset(row.seats)[s] == (if row.row == s.seatRow then multiset(FilterSeats(seats, filter))[s] else 0)
  {
    var row := SeatGrid(seats, filter)[i];
    GridRowContents(seats, filter, i);
    FilterMultiplicity(FilterSeats(seats, filter), KeyIs(RowOf(), row.row), s);
  }

  /** How often a filter keeps an element: as often as it occurs when the
      predicate holds of it, otherwise never. */
  lemma {:induction false} FilterMultiplicity<T>(s: seq<T>, p: T -> bool, x: T)
    ensures multiset(Filter(s, p))[x] == if p(x) then multiset(s)[x] else 0
    decreases |s|
  {
    if |s| > 0 {
      var init, last := s[..|s| - 1], s[|s| - 1];
      assert s == init + [last];
      FilterMultiplicity(init, p, x);
    }
  }

  /** The "no seat matches" text shows exactly when the filter keeps no
      seat. */
  lemma EmptyGridIffNoSeat(seats: seq<Seat>, filter: string)
    ensures |SeatGrid(seats, filter)| == 0 <==> |FilterSeats(seats, filter)| == 0
  {
    var grid := SeatGrid(seats, filter);
    var filtered := FilterSeats(seats, filter);
    if |filtered| > 0 {
      GridCoversSeats(seats, filter);
      assert filtered[0].seatRow in RowNumbers(grid);
    }
  }

  // ---------------------------------------------------------------------------
  // The extra-fee prompt: `Number(val)`
  // ---------------------------------------------------------------------------

  /** A JavaScript number as decimal text converts to it: NaN, or the
      exact value `units / 10^places` (no binary rounding). */
  datatype NumberValue = NaN | Value(units: int, places: nat)

  function Pow10(n: nat): (r: nat)
    ensures r >= 1
  {
    if n == 0 then 1 else 10 * Pow10(n - 1)
  }

  /** Unsigned decimal text: digits with at most one point, and at least
      one digit. */
  function DecimalValue(s: string): NumberValue
  {
    var d := CharIndex(s, '.');
    var whole := s[..d];
    var frac := if d < |s| then s[d + 1..] else "";
    if |whole| + |frac| == 0 || !AllDigits(whole) || !AllDigits(frac) then NaN
    else Value(ParseDigits(whole) * Pow10(|frac|) + ParseDigits(frac), |frac|)
  }

  /** `Number(text)` for decimal text: blank text is 0, a sign may lead,
      anything else that is not a decimal number is NaN. */
  function ToNumber(text: string): NumberValue
  {
    var t := Trim(text);
    if t == "" then Value(0, 0)
    else if t[0] == '-' then
      match DecimalValue(t[1..])
      case NaN => NaN
      case Value(u, p) => Value(-u, p)
    else if t[0] == '+' then DecimalValue(t[1..])
    else DecimalValue(t)
  }

  /** What the fee button leads to. */
  datatype FeeOutcome = FeeCancelled | FeeRejected | FeeRequest(outcome: BulkOutcome)

  /** The fee prompt: cancelling does nothing, NaN or a negative fee is
      rejected before any request, otherwise the fee goes to the bulk
      update of the selected seats. */
  function ExtraFee(answer: Option<string>, selected: seq<int>): (o: FeeOutcome)
    ensures answer.None? <==> o == FeeCancelled
    ensures answer.Some? ==> (o == FeeRejected <==> ToNumber(answer.value).NaN? || ToNumber(answer.value).units < 0)
    ensures o.FeeRequest? && o.outcome.BulkPut? ==>
      o.outcome.payload.extraFee.Some? && o.outcome.payload.extraFee.value.Value? && o.outcome.payload.extraFee.value.units >= 0
      && o.outcome.payload.seatIds == Some(selected)
  {
    if answer.None? then FeeCancelled else FeeChoice(ToNumber(answer.value), selected)
  }

  function FeeChoice(fee: NumberValue, selected: seq<int>): (o: FeeOutcome)
    ensures o == FeeRejected <==> fee.NaN? || fee.units < 0
    ensures o != FeeCancelled
    ensures o.FeeRequest? && o.outcome.BulkPut? ==>
      o.outcome.payload.extraFee == Some(fee) && o.outcome.payload.seatIds == Some(selected)
  {
    if fee.NaN? || fee.units < 0 then FeeRejected
    else FeeRequest(BulkUpdate(SeatPayload(Some(selected), None, Some(fee))))
  }

  /** Decimal digits read as a number. */
  lemma DigitsValue(s: string)
    requires AllDigits(s) && |s| > 0
    ensures DecimalValue(s) == Value(ParseDigits(s), 0)
  {
    NoDot(s);
    assert s[..CharIndex(s, '.')] == s;
  }

  /** `Number(String(n))` is `n`. */
  lemma NumberOfNat(n: nat)
    ensures ToNumber(NatToString(n)) == Value(n, 0)
  {
    DigitsNumber(NatToString(n));
    ParseNatToString(n);
  }

  /** Unsigned decimal digits read as a whole number. */
  lemma DigitsNumber(s: string)
    requires AllDigits(s) && |s| > 0
    ensures ToNumber(s) == Value(ParseDigits(s), 0)
  {
    TrimDigits(s);
    assert IsDigit(s[0]);
    DigitsValue(s);
  }

  /** `Number("-" + String(n))` is `-n`. */
  lemma NumberOfNegated(n: nat)
    ensures ToNumber("-" + NatToString(n)) == Value(-(n as int), 0)
  {
    var s := NatToString(n);
    assert ParseDigits(s) == n by {
      ParseNatToString(n);
    }
    NegatedDigitsNumber(s);
  }

  /** A minus sign before decimal digits negates their value. */
  lemma NegatedDigitsNumber(s: string)
    requires AllDigits(s) && |s| > 0
    ensures ToNumber("-" + s) == Value(-(ParseDigits(s) as int), 0)
  {
    DigitsValue(s);
    SignedDigits(s);
  }

  lemma SignedDigits(s: string)
    requires AllDigits(s) && |s| > 0
    ensures DecimalValue(s).Value? ==>
      ToNumber("-" + s) == Value(-DecimalValue(s).units, DecimalValue(s).places)
  {
    var t := "-" + s;
    TrimSignedDigits(s);
    assert t[0] == '-' && t[1..] == s;
  }

  /** A whole number typed into the prompt is the fee requested. */
  lemma WholeFeeAccepted(n: nat, selected: seq<int>)
    requires |selected| > 0
    ensures ExtraFee(Some(NatToString(n)), selected)
      == FeeRequest(BulkPut(SeatPayload(Some(selected), None, Some(Value(n, 0)))))
  {
    NumberOfNat(n);
  }

  /** A minus sign before a positive number is refused. */
  lemma NegativeFeeRejected(n: nat, selected: seq<int>)
    requires n > 0
    ensures ExtraFee(Some("-" + NatToString(n)), selected) == FeeRejected
  {
    NumberOfNegated(n);
  }

  /** A blank answer converts to 0 and requests a zero fee. */
  lemma BlankFeeIsZero(text: string, selected: seq<int>)
    requires forall i :: 0 <= i < |text| ==> IsSpace(text[i])
    requires |selected| > 0
    ensures ExtraFee(Some(text), selected) == FeeRequest(BulkPut(SeatPayload(Some(selected), None, Some(Value(0, 0)))))
  {
    TrimEmptyIffAllSpace(text);
  }

  lemma NoDot(s: string)
    requires AllDigits(s)
    ensures CharIndex(s, '.') == |s|
  {
  }

  lemma TrimKeeps(s: string)
    requires |s| > 0 && !IsSpace(s[0]) && !IsSpace(s[|s| - 1])
    ensures Trim(s) == s
  {
  }

  lemma TrimDigits(s: string)
    requires AllDigits(s) && |s| > 0
    ensures Trim(s) == s
  {
    assert !IsSpace(s[0]) && !IsSpace(s[|s| - 1]);
    TrimKeeps(s);
  }

  lemma TrimSignedDigits(s: string)
    requires AllDigits(s) && |s| > 0
    ensures Trim("-" + s) == "-" + s
  {
    var t := "-" + s;
    assert t[|t| - 1] == s[|s| - 1];
    assert !IsSpace(t[0]) && !IsSpace(t[|t| - 1]);
    TrimKeeps(t);
  }

  // ---------------------------------------------------------------------------
  // bulkUpdateSeats and toggleSeatAvailability
  // ---------------------------------------------------------------------------

  datatype SeatPayload = SeatPayload(seatIds: Option<seq<int>>, isAvailable: Option<bool>, extraFee: Option<NumberValue>)

  datatype BulkOutcome = NothingSelected | BulkPut(payload: SeatPayload)

  /** A missing or empty selection gives a warning and no request. */
  function BulkUpdate(payload: SeatPayload): (o: BulkOutcome)
    ensures o == NothingSelected <==> payload.seatIds.None? || |payload.seatIds.value| == 0
    ensures o.BulkPut? ==> o.payload == payload
  {
    if payload.seatIds.None? || |payload.seatIds.value| == 0 then NothingSelected else BulkPut(payload)
  }

  /** The open and lock buttons send the selection with the availability
      they stand for. */
  function SetAvailability(selected: seq<int>, available: bool): (o: BulkOutcome)
    ensures o.BulkPut? <==> |selected| > 0
    ensures o.BulkPut? ==> o.payload.isAvailable == Some(available) && o.payload.extraFee.None?
  {
    BulkUpdate(SeatPayload(Some(selected), Some(available), None))
  }

  /** The CSS state of one seat in the grid. */
  datatype SeatElement = SeatElement(seatId: int, available: bool, unavailable: bool, selected: bool)

  /** How the grid draws a seat. */
  function Drawn(s: Seat): (e: SeatElement)
    ensures e.available != e.unavailable && !e.selected
  {
    SeatElement(s.seatId, s.isAvailable, !s.isAvailable, false)
  }

  /** The ids the bulk buttons send: those of the selected seats, in grid
      order. */
  function SelectedSeatIds(els: seq<SeatElement>): (ids: seq<int>)
    ensures |ids| == |Filter(els, IsSelected())|
    ensures forall k :: 0 <= k < |ids| ==> exists e :: e in els && e.selected && e.seatId == ids[k]
    ensures forall e :: e in els && e.selected ==> e.seatId in ids
  {
    var chosen := Filter(els, IsSelected());
    var ids := SeatIds(chosen);
    assert forall k :: 0 <= k < |ids| ==> chosen[k] in els && chosen[k].selected && chosen[k].seatId == ids[k];
    SelectedIdsCover(els, chosen, ids);
    ids
  }

  function SeatIds(chosen: seq<SeatElement>): (ids: seq<int>)
    ensures |ids| == |chosen|
    ensures forall k :: 0 <= k < |chosen| ==> ids[k] == chosen[k].seatId
  {
    seq(|chosen|, k requires 0 <= k < |chosen| => chosen[k].seatId)
  }

  lemma SelectedIdsCover(els: seq<SeatElement>, chosen: seq<SeatElement>, ids: seq<int>)
    requires forall i :: 0 <= i < |els| && els[i].selected ==> els[i] in chosen
    requires |ids| == |chosen| && forall k :: 0 <= k < |chosen| ==> ids[k] == chosen[k].seatId
    ensures forall e :: e in els && e.selected ==> e.seatId in ids
  {
    forall e | e in els && e.selected ensures e.seatId in ids {
      var i :| 0 <= i < |els| && els[i] == e;
      var k :| 0 <= k < |chosen| && chosen[k] == e;
      assert ids[k] == e.seatId;
    }
  }

  function IsSelected(): SeatElement -> bool
  {
    (e: SeatElement) => e.selected
  }

  /** A click selects or deselects the seat; nothing else changes. */
  function Click(e: SeatElement): (e': SeatElement)
    ensures e'.selected != e.selected
    ensures e'.(selected := e.selected) == e
  {
    e.(selected := !e.selected)
  }

  /** The toggle's request and the element after it: the request asks for
      the opposite of what the element shows, and only a successful request
      changes the element, to show exactly that state. */
  datatype Toggle = NoSeat | Toggled(request: bool, after: SeatElement)

  function ToggleSeat(el: Option<SeatElement>, succeeded: bool): (t: Toggle)
    ensures el.None? <==> t == NoSeat
    ensures t.Toggled? ==> t.request == !el.value.available
    ensures t.Toggled? && succeeded ==>
      t.after == el.value.(available := t.request, unavailable := !t.request)
    ensures t.Toggled? && !succeeded ==> t.after == el.value
  {
    if el.None? then NoSeat
    else
      var willBeAvailable := !el.value.available;
      if succeeded then Toggled(willBeAvailable, el.value.(available := willBeAvailable, unavailable := !willBeAvailable))
      else Toggled(willBeAvailable, el.value)
  }

  /** Two successful toggles of a drawn seat bring it back to its state. */
  lemma ToggleTwice(s: Seat)
    ensures var once := ToggleSeat(Some(Drawn(s)), true).after;
      ToggleSeat(Some(once), true).after == Drawn(s)
  {
  }
}
