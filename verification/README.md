# Airline admin console — a Dafny model of its client-side logic

The admin console of the airline booking system (`WebAdmin/js`) is a set of
browser scripts. They load records from the back end and then do all of the
following work in the browser:

- search, filter, sort, page and navigate the bookings, users, payments,
  notifications and flights tables;
- aggregate the records into dashboard figures, charts and top-10 report
  tables;
- group support-chat messages into conversations;
- lay out a flight's seat map and validate the seat-manager inputs;
- decide, in `apiCall`, when a GET is served from the 30-second cache and
  how a response is normalised.

This project models that logic as pure Dafny functions over immutable
datatypes and proves what the code promises. Records are sequences of
datatypes. Timestamps are integer milliseconds. Money is an integer number of
đồng.

The modules follow the scripts:

| module | file | models |
|---|---|---|
| `Common` | common.dfy | optional values, `a \|\| b`, ASCII case conversion, `includes`, `trim`, `String(n)`, `padStart`, `Math.ceil`/`Math.round` on a quotient, `Array.prototype.slice` |
| `Sorting` | sorting.dfy | sort keys, the comparators' order, a stable sort, top-N |
| `View` | view.dfy | the shared filter → page → navigate engine and the `field-dir` sort value |
| `Grouping` | grouping.dfy | grouping by key in first-seen order, counting by key |
| `Tables` | tables.dfy | bookings, users and payments tables (`admin.js`) |
| `Notifications` | notifications.dfy | notifications table, badge, mark-all selection (`admin-features.js`) |
| `Flights` | flights.dfy | flights table state machine and `toLocalInputValue` (`flights.js`) |
| `Stats` | stats.dfy | dashboard figures and the pie/bar chart data (`admin.js`) |
| `Reports` | reports.dfy | status buckets and revenue/bookings time series (`admin-features.js`) |
| `Rankings` | rankings.dfy | top customers, routes and airlines (`admin-features.js`) |
| `Bulk` | bulk.dfy | the bulk-action loops that count successes (`admin-features.js`) |
| `Chat` | chat.dfy | conversations, unread merge, support figures, time labels, attribute escaping (`chat.js`) |
| `Seats` | seats.dfy | seat filter, seat-map layout, extra-fee prompt, toggles and bulk guard (`seats.js`) |
| `Api` | api.dfy | cache key and TTL rule, response normalisation, admin notification merge, dashboard fallback (`api.js`) |

Inputs that the scripts read from the page, the clock or the network are
parameters:

- the search box, the selects and the prompt/confirm answers;
- the current time (`now`, and `later` for the moment a response arrives);
- the server's reply (a `Response`, a `UserReply` per user, a `Fetched` list,
  or a `callOk` oracle per bulk call);
- the calendar that names a day's month and week (`Reports.Calendar`).

The model follows the code, including two behaviours a reader might not
expect:

- The flights 'prev' button computes `max(1, page - 1)` and never clamps from
  above. A reload does not reset the page either. So a page left out of range
  by a reload stays out of range after 'prev' (`Flights.ReloadKeepsStalePage`,
  `View.PrevDoesNotReclamp`).
- The notifications table decides its empty state on the current page's
  slice, not on the whole filtered list.

## Model

| member | source | states |
|---|---|---|
| Common.OrElse | WebAdmin/js/api.js:14 | `o \|\| d` on an optional string: the value when present and non-empty, otherwise the default |
| Common.OccursLowerAt | WebAdmin/js/admin.js:1321-1322 | the lower-cased term sits at position `i` of the lower-cased field iff every term character equals the field character there up to letter case |
| Common.CaseInsensitiveMatch | WebAdmin/js/admin.js:1321-1322 | lower-casing the (already lower-cased) typed term and the field and testing `includes` succeeds iff the term occurs somewhere in the field ignoring letter case |
| Common.TrimEmptyIffAllSpace | WebAdmin/js/chat.js:320-325 | trimmed text is empty iff every character is white space |
| Common.ParseNatToString | WebAdmin/js/flights.js:313-323 | the decimal text of a number reads back as that number |
| Common.Pad2RoundTrip | WebAdmin/js/flights.js:313-323 | a two-digit zero-padded field reads back as the number it pads |
| Common.CeilDiv | WebAdmin/js/admin.js:1407 | `Math.ceil(a/b)` is the least `r` with `r*b >= a` |
| Common.RoundDiv | WebAdmin/js/chat.js:141-142 | `Math.round(a/b)` is the integer nearest `a/b`, with halves rounded up |
| Common.JsSlice | WebAdmin/js/admin.js:1367-1370 | `slice(start, end)` holds `s[start + k]` at position k, with length `min(end, len) - start` for an in-range start |
| View.Filter | WebAdmin/js/admin.js:1318-1334 | the kept items are exactly the items that pass the test, and no copies are added |
| View.FilterSelectsInOrder | WebAdmin/js/admin.js:1318-1334 | the kept items are the passing items at strictly increasing source positions: an order-preserving subsequence |
| View.FilterThenFilter | WebAdmin/js/admin-features.js:222-241 | filtering twice in succession equals one filter by the conjunction |
| View.FilterIdempotent | WebAdmin/js/admin.js:1318-1334 | re-filtering an already filtered list changes nothing |
| View.PageItems | WebAdmin/js/admin.js:1367-1370 | page p is `filtered[(p-1)*n .. min(p*n, len))`, so it has at most n items and is empty past the end |
| View.PageCount | WebAdmin/js/admin-features.js:266 | `ceil(len/n)`: enough pages for every item, zero only for an empty list |
| View.ShownPageCount | WebAdmin/js/admin.js:1407 | `max(1, ceil(len/n))` is at least 1 and covers every item |
| View.PagesReassemble | WebAdmin/js/admin.js:1367-1370 | pages 1..totalPages concatenated give back the filtered list |
| View.Navigate | WebAdmin/js/admin.js:1302-1316 | 'prev' never goes below 1, 'next' never above `ceil(len/n)`, 1 gives page 1, 999 gives the last page, any other number keeps the page |
| View.NavigateRange | WebAdmin/js/admin.js:1302-1316 | from an in-range page every button lands in range, except 'next' and 'last' on an empty list, which give page 0 |
| View.NavigateClamped | WebAdmin/js/flights.js:134-146 | flights navigation: every button except 'prev' lands in `1..total`; a numbered page in range is taken as is |
| View.PrevDoesNotReclamp | WebAdmin/js/flights.js:136-138 | 'prev' from page 5 of 2 gives page 4: it does not clamp from above |
| View.ParseSortRoundTrip | WebAdmin/js/admin.js:1338 | `split('-')` recovers the field and direction of a `field-asc`/`field-desc` sort value |
| Sorting.SortBy | WebAdmin/js/admin.js:1338-1352 | the sorted list is a permutation of its input and is ordered by the key in the chosen direction |
| Sorting.SortedPresentKeys | WebAdmin/js/admin.js:1338-1352 | in the model's sorted list, distinct present keys appear in ascending (or descending) key order, which is the code's order when every record has the key |
| Sorting.TopN | WebAdmin/js/admin.js:490-492 | the top n are `min(n, len)` items of the input, with the metric non-increasing |
| Sorting.TopNLeavesNoBetter | WebAdmin/js/admin.js:490-492 | an item left out of the top n scores no higher than any item kept |
| Sorting.SortedKeys | WebAdmin/js/seats.js:37 | row keys sorted numerically: strictly increasing, exactly the keys given |
| Grouping.GroupBy | WebAdmin/js/seats.js:32-33 | one group per distinct key (the keys are the de-duplicated key list); each group holds exactly the items with its key, in input order |
| Grouping.GroupSizesSum | WebAdmin/js/seats.js:32-33 | the group sizes add up to the number of items: every item is in exactly one group |
| Grouping.CountBy | WebAdmin/js/admin.js:382-384 | one count per distinct key (the de-duplicated key list), each equal to the key's multiplicity, summing to the number of keys |
| Grouping.Dedup | WebAdmin/js/admin.js:527-531 | `new Set`: every value appears, each once, nothing else is added, and the first value comes first |
| Tables.FilteredBookings | WebAdmin/js/admin.js:1318-1355 | a booking is kept iff (no term, or its reference or user name contains the term, lower-cased) and (no status filter, or its status equals it); the result is a permutation of the kept bookings, ordered by the chosen key |
| Tables.FilteredUsers | WebAdmin/js/admin.js:1454-1491 | a user is kept iff it matches the term on username, email or full name lower-cased, or on phone as typed; the result is a permutation of the kept users, ordered by the chosen key |
| Tables.FilteredPayments | WebAdmin/js/admin.js:1593-1635 | a payment is kept iff it matches the term, the method filter and the status filter; the result is a permutation of the kept payments, ordered by the chosen key |
| Tables.BookingsOrdered | WebAdmin/js/admin.js:1338-1352 | two bookings with distinct present keys appear in the chosen direction's order, which is the code's order when every booking has the key |
| Tables.UserSearchIgnoresCase | WebAdmin/js/admin.js:1456-1460 | a username match does not depend on the letter case of the term |
| Tables.PhoneSearchIsCaseSensitive | WebAdmin/js/admin.js:1461 | a phone `AB12` matches the term `AB` but not `ab`: the phone test does not lower-case |
| Tables.EmptyCriteriaKeepAll | WebAdmin/js/admin.js:1318-1334 | with no term and no status filter every booking is kept |
| Tables.Handle | WebAdmin/js/admin.js:1276-1316 | Enter or a cleared box sets the lower-cased term and page 1; other keys change nothing; a filter or page-size change resets to page 1; a sort change keeps the page; page buttons change only the page, to the one the button picks among the pages of the filtered list |
| Tables.HandlePageRules | WebAdmin/js/admin.js:1284-1316 | from an in-range page: filter and page-size changes give page 1, a sort keeps the page, and page buttons on a non-empty list stay in range |
| Tables.EmptyListNextGivesPageZero | WebAdmin/js/admin.js:1302-1316 | on an empty list, 'next' and 'last' set page 0 |
| Tables.ShowTable | WebAdmin/js/admin.js:1357-1416 | no data or no match shows the empty state; otherwise the current page's slice of at most n rows; the pager shows `max(1, ceil(len/n))` and disables 'prev' on page 1 and 'next' from the last page on |
| Tables.BookingOnItsPage | WebAdmin/js/admin.js:1367-1370 | the i-th filtered booking is at position `i % n` of page `i / n + 1`, and that page is in range |
| Notifications.PassesAreOneFilter | WebAdmin/js/admin-features.js:222-241 | the three successive filter passes keep exactly the notifications that meet all three conditions |
| Notifications.FilteredNotifications | WebAdmin/js/admin-features.js:222-262 | a notification is kept iff the term is empty or in its title or message, the type matches, and the status matches; the result is a permutation of those, ordered by the chosen key |
| Notifications.ShowNotifications | WebAdmin/js/admin-features.js:264-337 | the pager shows `ceil(len/n) \|\| 1`; first/prev are disabled iff page <= 1 and next/last iff page >= `ceil(len/n)`; the body is the page's slice, or the empty state iff that slice is empty |
| Notifications.EmptyNotificationsPager | WebAdmin/js/admin-features.js:205-220 | with no notifications the pager shows 1 page with 'next' disabled, and 'next' computes page 0 |
| Notifications.NextEnabledBeforeLast | WebAdmin/js/admin-features.js:321-337 | on a non-empty list 'next' is enabled iff the page is before the last |
| Notifications.Stats | WebAdmin/js/admin-features.js:156-166 | total is the list length; unread, booking and flight count the notifications whose status is UNREAD, whose type is BOOKING and whose type is FLIGHT_UPDATE; no figure exceeds the total |
| Notifications.StatsAppend | WebAdmin/js/admin-features.js:156-166 | each of the four figures of a concatenated list is the sum of the figures of its parts |
| Notifications.KindsDisjoint | WebAdmin/js/admin-features.js:156-166 | booking and flight notifications together are at most the total |
| Notifications.BadgeFor | WebAdmin/js/admin-features.js:168-177 | the badge is hidden iff unread is 0, reads `99+` iff unread > 99, and otherwise shows the digits of the count |
| Notifications.MarkAllSelection | WebAdmin/js/admin-features.js:349-351 | mark-all selects exactly the UNREAD notifications that have a user id, never more than the unread count |
| Bulk.RunBulk | WebAdmin/js/admin-features.js:1332-1360 | an empty selection makes no call; a declined confirm makes none; otherwise every id is called in order, and success counts the calls that did not fail, at most the number selected |
| Bulk.SucceedingBounds | WebAdmin/js/admin-features.js:1346-1354 | one failing call does not stop the loop: the others still count |
| Bulk.SucceedingAll | WebAdmin/js/admin-features.js:1346-1354 | when no call fails, success equals the number selected |
| Flights.ApplyFilters | WebAdmin/js/flights.js:48-75 | a flight is kept iff the query is empty or in its number, airline or either airport, and the status matches; the result is a permutation of those, ordered by the chosen key |
| Flights.SortKeepsCount | WebAdmin/js/flights.js:63-74 | the sort does not change how many flights are listed |
| Flights.Step | WebAdmin/js/flights.js:393-420 | search and status changes reset to page 1 and recompute the list; a sort recomputes and keeps the page; a page-size change resets the page without recomputing; a reload replaces the data and keeps the page; a page button changes only the page, to the one the clamped button picks among the shown pages |
| Flights.StepKeepsConsistent | WebAdmin/js/flights.js:393-420 | the displayed list is always the filter of the current data under the current criteria |
| Flights.StepKeepsPageInRange | WebAdmin/js/flights.js:134-146 | every event other than a reload keeps the page within `1..max(1, ceil(len/n))` |
| Flights.ReloadKeepsStalePage | WebAdmin/js/flights.js:33-39 | a reload that empties the list leaves page 3 in place, out of range |
| Flights.ShowFlights | WebAdmin/js/flights.js:77-132 | the empty state iff nothing matches; otherwise the page's slice of at most n rows; the pager shows `max(1, totalPages)` and disables 'prev' on page 1 and 'next' from the last page on |
| Flights.FlightPagesCoverList | WebAdmin/js/flights.js:87-88 | the pages the pager offers, concatenated, are the filtered list |
| Flights.ToLocalInputValue | WebAdmin/js/flights.js:313-323 | a missing date gives `''`; a valid one gives the year's digits plus 12 characters |
| Flights.LocalInputRoundTrip | WebAdmin/js/flights.js:313-323 | `YYYY-MM-DDTHH:MM`, with month = index + 1 and every field zero-padded, reads back as the same date and time |
| Stats.CountByKey | WebAdmin/js/admin.js:380-399 | no records give the placeholder; otherwise one label per distinct key (the de-duplicated key list), each count that key's multiplicity, counts summing to the record count |
| Stats.PaymentMethodStats | WebAdmin/js/admin.js:380-399 | the placeholder chart when there are no payments; otherwise one label per distinct method (missing or empty read as `UNKNOWN`) in order of first appearance, each valued by how many payments use it, the values summing to the number of payments |
| Stats.BookingStatusStats | WebAdmin/js/admin.js:401-427 | counts per booking status (captioned) sum to the number of bookings, each the multiplicity of its status |
| Stats.CancellationStats | WebAdmin/js/admin.js:467-476 | success + cancelled is the total, and cancelled counts the CANCELLED bookings |
| Stats.SuccessIsNotCancelled | WebAdmin/js/admin.js:467-476 | success counts exactly the bookings that are not CANCELLED |
| Stats.AirlineNames | WebAdmin/js/admin.js:480-486 | one airline name per booking that has `flight.airline`, in booking order, and none for the others |
| Stats.AirlineNameCount | WebAdmin/js/admin.js:480-486 | a name occurs in the list exactly as often as there are bookings whose airline is shown under that name |
| Stats.AirlineStats | WebAdmin/js/admin.js:478-506 | the placeholder iff no booking has an airline; otherwise at most 5 airlines, each with its exact booking count, counts non-increasing |
| Stats.TopChartOmitted | WebAdmin/js/admin.js:490-492 | an airline left off the chart has no more bookings than any airline shown |
| Stats.SeatClasses | WebAdmin/js/admin.js:527-531 | `N/A` for no seats; otherwise every distinct class name once, and no other, joined by `, ` |
| Stats.OneClassShownOnce | WebAdmin/js/admin.js:527-531 | seats all of one class show that class once |
| Stats.DashboardStats | WebAdmin/js/admin.js:120-137 | booking and user totals are the list lengths; revenue is the sum of paid amounts; the success rate is absent iff there are no payments, and otherwise is the paid share in tenths of a percent, rounded |
| Stats.RateExtremes | WebAdmin/js/admin.js:120-137 | the rate never exceeds 100.0%, is 100.0% when every payment is paid, and is 0.0% when none is |
| Reports.BookingStatusData | WebAdmin/js/admin-features.js:741-760 | exactly three buckets in CONFIRMED, PENDING, CANCELLED order, each counting the bookings with that status, a missing status counting as PENDING |
| Reports.StatusDataTotal | WebAdmin/js/admin-features.js:741-760 | the buckets add up to at most the bookings, and to all of them iff every status is one of the three |
| Reports.DaysDiff | WebAdmin/js/admin-features.js:593 | `ceil((end - start) / day)` |
| Reports.GranularityOf | WebAdmin/js/admin-features.js:618-648 | monthly iff the range exceeds 365 days, weekly iff it exceeds 30 and not 365, daily otherwise |
| Reports.BucketCount | WebAdmin/js/admin-features.js:596-600 | one bucket per day from the start while not past the end; none iff end < start |
| Reports.DailyBuckets | WebAdmin/js/admin-features.js:593-612 | bucket k holds the amounts dated on day `first + k`; amounts outside the range are ignored, so the buckets sum to the in-range amounts |
| Reports.PeriodSeries | WebAdmin/js/admin-features.js:618-646 | day buckets merged per week or month: periods in ascending order, each once, each period's total the sum of its days, the grand total kept |
| Reports.SeriesOf | WebAdmin/js/admin-features.js:616-657 | daily ranges keep one bucket per day; longer ranges give ascending periods; the series always totals the in-range amounts |
| Reports.DailyRevenueData | WebAdmin/js/admin-features.js:587-662 | the revenue series totals the amounts of the payments dated within the range |
| Reports.DailyBookingsData | WebAdmin/js/admin-features.js:664-739 | the bookings series totals the bookings dated within the range, never more than all bookings |
| Rankings.FindUser | WebAdmin/js/admin-features.js:991 | `users.find`: a user with that id if one exists, and none iff no user has it |
| Rankings.FindFlight | WebAdmin/js/admin-features.js:1058 | `flights.find`: a flight with that id if one exists, and none iff no flight has it |
| Rankings.Ranking | WebAdmin/js/admin-features.js:996-1001 | the kept group summaries, at most 10, metric non-increasing |
| Rankings.RankingComplete | WebAdmin/js/admin-features.js:996-1001 | every kept group is listed, unless the table is full of groups that score at least as high |
| Rankings.TopCustomers | WebAdmin/js/admin-features.js:984-1001 | at most 10 customers, each once, each with an account, with their in-range booking count and total, totals non-increasing |
| Rankings.CustomerOmitted | WebAdmin/js/admin-features.js:984-1001 | a customer with an account and an in-range booking who is not among the rows `TopCustomers` returns (`CustomerRanking`) spent no more than any listed customer, and the table is full |
| Rankings.TopRoutes | WebAdmin/js/admin-features.js:1052-1074 | at most 10 routes, each once, each with its in-range booking count and its number of distinct flights, counts non-increasing |
| Rankings.RouteOmitted | WebAdmin/js/admin-features.js:1052-1074 | a booked route that is not listed has no more bookings than any listed route, and the table is full |
| Rankings.TopAirlines | WebAdmin/js/admin-features.js:1125-1147 | at most 10 airlines, each once, each with its in-range revenue and its number of distinct flights, revenue non-increasing |
| Rankings.AirlineOmitted | WebAdmin/js/admin-features.js:1125-1147 | a booked airline that is not among the rows `TopAirlines` returns (`AirlineRanking`) earned no more than any listed airline, and the table is full |
| Rankings.UnnamedAirlineIsUnknown | WebAdmin/js/admin-features.js:1133-1135 | a flight without an airline name is ranked under `Unknown` |
| Chat.Latest | WebAdmin/js/chat.js:56-61 | the latest message of a user: no message is later, and on equal times the first one seen wins |
| Chat.Conversations | WebAdmin/js/chat.js:34-63 | one conversation per distinct non-zero user id (the de-duplicated user list), each showing its latest message with no unread badge |
| Chat.ConversationCovers | WebAdmin/js/chat.js:37-39 | every message with a user id has that user's conversation |
| Chat.MergeUnreadFacts | WebAdmin/js/chat.js:66-82 | each unread item with a user id adds 1 to that user's badge, or opens a conversation with badge 1; items without an id change nothing |
| Chat.LoadedConversations | WebAdmin/js/chat.js:34-82 | users are distinct, every message and every unread item with an id has a conversation, and each conversation shows its latest message and its unread count |
| Chat.PendingMeansUnread | WebAdmin/js/chat.js:66-82 | a conversation awaits a reply iff some unread item belongs to its user |
| Chat.SupportStatsOf | WebAdmin/js/chat.js:134-142 | pending counts conversations with a badge; the response rate is `round((total - pending) / total * 100)`, 0 without conversations, never above 100 |
| Chat.RateBounds | WebAdmin/js/chat.js:141-142 | the rate is 0 when every conversation is pending and 100 when none is |
| Chat.RenderConversations | WebAdmin/js/chat.js:155-165 | the list is a permutation of the conversations, latest message first; the empty text iff there are none |
| Chat.FormatTime | WebAdmin/js/chat.js:411-412 | no label iff no date |
| Chat.FormatTimeThresholds | WebAdmin/js/chat.js:414-421 | under a minute 'just now'; under 60 minutes the whole minutes; under 1440 minutes `floor(minutes/60)` hours; otherwise the date |
| Chat.ChainedIsEscape | WebAdmin/js/chat.js:439-444 | the five chained replacements, `&` first, equal one pass that escapes each character once |
| Chat.EscapeHasNoMarkup | WebAdmin/js/chat.js:439-444 | the escaped text contains no raw `"`, `'`, `<` or `>` |
| Chat.UnescapeEscape | WebAdmin/js/chat.js:439-444 | decoding the entities gives back the original text, so nothing is double-escaped |
| Chat.EscapeHtmlAttribute | WebAdmin/js/chat.js:437-445 | `''` for a missing text; otherwise the escaped text, which decodes to the input and holds no markup characters |
| Chat.SendAdminMessage | WebAdmin/js/chat.js:320-330 | blank input asks for text; no selected conversation asks for one; otherwise the trimmed text is posted to the selected user |
| Chat.BlankReplyNotSent | WebAdmin/js/chat.js:320-325 | white-space-only input is never posted |
| Seats.FilterSeats | WebAdmin/js/seats.js:29-30 | an empty filter keeps all seats; otherwise a seat is kept iff its upper-cased class equals the upper-cased filter |
| Seats.FilterIgnoresCase | WebAdmin/js/seats.js:29-30 | filters that upper-case alike select the same seats |
| Seats.BuildRow | WebAdmin/js/seats.js:34 | a row holds exactly its group's seats, ordered by column |
| Seats.SeatGrid | WebAdmin/js/seats.js:32-37 | rows in strictly ascending row number, seats within a row in column order |
| Seats.GridRowContents | WebAdmin/js/seats.js:32-33 | a row holds exactly the filtered seats whose row number it carries, and is not empty |
| Seats.GridCoversSeats | WebAdmin/js/seats.js:32-37 | every filtered seat's row is drawn |
| Seats.SeatInItsRowOnly | WebAdmin/js/seats.js:32-33 | a seat appears in its own row as often as it was filtered, and in no other row |
| Seats.EmptyGridIffNoSeat | WebAdmin/js/seats.js:46 | the grid is empty, showing the no-match text, iff no seat passes the filter |
| Seats.ExtraFee | WebAdmin/js/seats.js:79-83 | a cancelled prompt does nothing; the fee is rejected iff it is not a number or is negative; otherwise the selected seats are sent with that fee |
| Seats.NumberOfNat | WebAdmin/js/seats.js:81 | `Number` of a digit string is its value |
| Seats.WholeFeeAccepted | WebAdmin/js/seats.js:79-83 | a whole fee typed as digits is sent with the selected seats |
| Seats.NegativeFeeRejected | WebAdmin/js/seats.js:82 | a negative fee is rejected |
| Seats.BlankFeeIsZero | WebAdmin/js/seats.js:81 | a blank answer counts as fee 0 and is sent |
| Seats.BulkUpdate | WebAdmin/js/seats.js:117-122 | a missing or empty seat list sends nothing; otherwise the payload is sent as given |
| Seats.SetAvailability | WebAdmin/js/seats.js:71-75 | the open/lock buttons send the chosen availability iff some seat is selected |
| Seats.SelectedSeatIds | WebAdmin/js/seats.js:57-59 | the ids of exactly the selected seats |
| Seats.Click | WebAdmin/js/seats.js:49 | a click flips the selection and nothing else |
| Seats.ToggleSeat | WebAdmin/js/seats.js:99-115 | no seat, no request; otherwise the request asks for the negation of the current availability, which is shown only if the call succeeds |
| Seats.ToggleTwice | WebAdmin/js/seats.js:104-110 | two successful toggles restore the seat |
| Api.SplitKey | WebAdmin/js/api.js:14-15 | splits a key at its first `:`: nothing iff there is no colon, otherwise a colon-free head and a tail that join back into the key |
| Api.CacheKeyRoundTrip | WebAdmin/js/api.js:14-15 | the key `METHOD:endpoint` splits back into the upper-cased method (GET by default) and the endpoint |
| Api.SameSlotIffSameRequest | WebAdmin/js/api.js:14-15 | two requests share a cache slot iff their methods and endpoints agree |
| Api.ErrorMessage | WebAdmin/js/api.js:34-38 | the server's message when present, otherwise `HTTP error! status: ` followed by digits that read back as the status |
| Api.ApiCall | WebAdmin/js/api.js:12-53 | a call is answered from the cache, with no request, iff it is a GET whose entry is younger than 30000 ms; otherwise a rejected request fails with that rejection (and only then), a non-ok status fails with the error message, 204 or an empty body returns `true`, a body returns its parse; only a parsed GET body is cached, and other methods never touch the cache |
| Api.RepeatedGetIsCached | WebAdmin/js/api.js:16-21 | a GET repeated within 30 s of a stored response is not fetched and returns the stored value |
| Api.ExpiredGetFetches | WebAdmin/js/api.js:16-21 | a GET repeated 30 s or more later is fetched again |
| Api.OtherVerbsBypassCache | WebAdmin/js/api.js:15-47 | non-GET calls always fetch and leave the cache as it was |
| Api.Tag | WebAdmin/js/api.js:381-384 | each notification of a user is tagged with that user's id, nothing else changed |
| Api.Gather | WebAdmin/js/api.js:377-389 | the merged list has exactly as many items as the listed replies together |
| Api.GatherTagged | WebAdmin/js/api.js:381-385 | every merged item comes from a listed reply and carries that user's id |
| Api.GatherKeepsAll | WebAdmin/js/api.js:381-385 | every item of every listed reply is in the merged list |
| Api.FailedUserAddsNothing | WebAdmin/js/api.js:382-388 | a user whose fetch failed or did not return a list contributes nothing |
| Api.NewestFirst | WebAdmin/js/api.js:390-391 | the merged list sorted by `createdAt`, newest first, as a permutation |
| Api.AdminNotifications | WebAdmin/js/api.js:373-396 | a page holds at most the page size of merged items, newest first |
| Api.PageHolds | WebAdmin/js/api.js:391-395 | the n-th newest item is at position `n % size` of page `n / size + 1` |
| Api.PaymentRevenue | WebAdmin/js/api.js:490 | the sum of the amounts of SUCCESS payments |
| Api.DashboardFallback | WebAdmin/js/api.js:473-494 | counts are the lengths of the lists that loaded, 0 for a failed list; revenue is the SUCCESS-payment sum, or the booking total when that sum is 0 |
| Api.NoSuccessMeansBookingRevenue | WebAdmin/js/api.js:490-491 | without a SUCCESS payment the revenue is the sum of booking totals |
| Api.OtherPaymentsIgnored | WebAdmin/js/api.js:490 | a payment that is not SUCCESS does not change the payment revenue |

## Left out

- Rendering: HTML strings, the DOM, Chart.js, modals, toasts and event wiring are not modelled. The DOM state the logic reads (selected checkboxes, seat element classes, select values) becomes a parameter.
- Network and concurrency: requests are not made. Replies are parameters. The de-duplication of concurrent GETs (`api.js:23`, `41-44`) and the polling timers are not modelled.
- JSON: `JSON.parse` is not modelled. A body is kept as text, and whether it parses is a given flag of the `Response`.
- Clock: `Date.now()` and `new Date()` are parameters (`now`, `later`).
- Reports.Calendar: the day key is the UTC day index, the date part of `toISOString`. The month of a day is the `YYYY-MM` prefix of that same UTC date (`admin-features.js:622`, `699`). Only the week key reads the browser's local calendar, through `getDate` and `getDay` (`admin-features.js:639-640`, `716-717`). Both are given as fields of the `Reports.Calendar` parameter (`monthOf`, `weekOf`) instead of being computed from Gregorian dates. Label text from `toLocaleDateString` and `Intl.NumberFormat` is not modelled.
- Reports.BucketCount: the range is stepped by one fixed `DayMs`. The code steps with `setDate(getDate() + 1)` (`admin-features.js:599`, `676`), that is by local calendar days, so a step across a daylight-saving change is 23 or 25 hours. For such a range the code's day keys can differ from the model's.
- Seat columns: `localeCompare` is modelled as code-unit order.
- Seat rows: row numbers are integers, not the object-key strings the code sorts with `Number`.
- Floating point: money is an integer. `parseFloat`, `Math.round` and `toFixed(1)` are computed exactly on integers.
- Number syntax: `Number(text)` in the extra-fee prompt accepts decimal text with an optional sign and point. Exponent, hexadecimal and `Infinity` forms, which the browser also accepts, are treated as not a number.
- Tables.FilteredBookings, Tables.FilteredUsers, Tables.FilteredPayments, Flights.ApplyFilters, Notifications.FilteredNotifications, Seats.FilterSeats, Common.CaseInsensitiveMatch: `toLowerCase` and `toUpperCase` are modelled on ASCII letters only. Non-ASCII letters (accented names, for example) are not case-folded. A search for `é` does not match `É` in the model, although the browser matches it.
- White space: `trim` removes the common white-space characters. The rest of the Unicode space separators are not modelled.
- Alternative field names: where the code reads fallbacks (`user?.userId`, `u.id`, `flight.departureAirportCode`, PascalCase `CreatedAt`/`Content`, `user?.fullName`), the model reads the first-named field only.
- Not in this model: `getNewUsersStats`, `getMonthlyRevenue`, `loadCharts`, `getReportDateRange`, the seat CSS class string (`seats.js:40`), regenerating seats (`seats.js:86-96`), login and the back end.
- Sorting.SortBy: the order of records with equal keys is not stated. The bookings, payments and flights comparators answer -1 for two equal keys, so they are inconsistent there and the engine decides. The users comparator answers 0 only when a value is missing or falsy. The model's sort is stable, and no contract depends on it.
- Sorting.SortBy, Sorting.SortedPresentKeys, Tables.BookingsOrdered: the model's order is the code's only when every record has the sort key. The model places records without the key last and keeps the others in key order. In the code a missing key makes the comparator inconsistent, and then even the records that have the key can come out of order:
  - bookings compare with `aVal > bVal ? 1 : -1`, which answers -1 both ways round a missing value (`admin.js:1338-1352`), so ascending [4, missing, 5] can become [5, missing, 4];
  - flight times become invalid dates, which compare the same way (`flights.js:63-74`);
  - users answer 0 (`admin.js:1480-1487`), so [5, missing, 4] can stay as it is.
  With a missing key the code's order therefore depends on the engine.
- Api.NewestFirst: notifications without `createdAt` are placed last. The code subtracts two `Invalid Date` values, so it compares them as NaN.
- View.NavigateClamped: the 'prev' range claim needs the page to be at most one past the last. A reload does not reset the flights page (`Flights.ReloadKeepsStalePage`), and 'prev' only takes `max(1, page - 1)`.
- Flights.ToLocalInputValue: the input is a date already split into local fields, so a date string that does not parse cannot be given. For such a string the code returns `NaN-NaN-NaNTNaN:NaN`, since every field of an invalid `Date` is NaN (`flights.js:313-323`).
- Flights.StepKeepsPageInRange: proved for every event except a reload, for the same reason.
- Stats.CountByKey: labels are listed in order of first appearance, which assumes no key looks like an array index (such as `"12"`). JavaScript lists such object keys first, in numeric order. Payment methods and booking statuses are words, so the two charts built on it are not affected.
- Stats.RateExtremes: only "all paid ⇒ 100.0%" is claimed, not the converse. 1999 paid out of 2000 also rounds to 100.0%.
- Rankings.TopCustomers: the order among equal totals is not stated. The code's sort is stable, so equal totals keep `Object.values` order, which for integer `userId` keys is ascending id. The model groups customers in order of first booking instead, so ties (and which tied customer makes the last of the ten places) can differ.
