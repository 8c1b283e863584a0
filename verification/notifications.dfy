/**
 The notifications screen: the three-pass filter, its pagination (which,
 unlike the other tables, lets the page count be zero), the statistics
 cards and the sidebar badge, and the selection for "mark all as read".
 */
module Notifications {
  import opened Common
  import opened Sorting
  import opened View
  import opened Tables

  datatype Notification = Notification(
    notificationId: int,
    userId: int,
    title: Option<string>,
    message: Option<string>,
    kind: Option<string>,      // BOOKING, FLIGHT_UPDATE, PAYMENT, REMINDER
    status: Option<string>,    // UNREAD or READ
    createdAt: Option<int>)

  // ---------------------------------------------------------------------------
  // getFilteredNotifications
  // ---------------------------------------------------------------------------

  predicate SearchHit(n: Notification, term: string)
  {
    LowerFieldContains(n.title, term) || LowerFieldContains(n.message, term)
  }

  /** The three conditions a listed notification meets. */
  predicate NotificationMatches(n: Notification, term: string, kind: string, status: string)
  {
    (term == "" || SearchHit(n, term)) && EqualsFilter(n.kind, kind) && EqualsFilter(n.status, status)
  }

  function SearchPass(term: string): Notification -> bool
  {
    n => SearchHit(n, term)
  }

  function KindPass(kind: string): Notification -> bool
  {
    (n: Notification) => n.kind == Some(kind)
  }

  function StatusPass(status: string): Notification -> bool
  {
    (n: Notification) => n.status == Some(status)
  }

  function NotificationFilter(term: string, kind: string, status: string): Notification -> bool
  {
    n => NotificationMatches(n, term, kind, status)
  }

  /** The passes as the screen runs them: each one only when its criterion
      is set, on a copy of the loaded list. */
  function FilterPasses(items: seq<Notification>, term: string, kind: string, status: string): seq<Notification>
  {
    var a := if term != "" then Filter(items, SearchPass(term)) else items;
    var b := if kind != "" then Filter(a, KindPass(kind)) else a;
    if status != "" then Filter(b, StatusPass(status)) else b
  }

  function SearchCond(term: string): Notification -> bool
  {
    n => term == "" || SearchHit(n, term)
  }

  function KindCond(kind: string): Notification -> bool
  {
    (n: Notification) => EqualsFilter(n.kind, kind)
  }

  function StatusCond(status: string): Notification -> bool
  {
    (n: Notification) => EqualsFilter(n.status, status)
  }

  /** An optional pass is the filter on "criterion unset or condition holds". */
  lemma SearchStep(s: seq<Notification>, term: string)
    ensures (if term != "" then Filter(s, SearchPass(term)) else s) == Filter(s, SearchCond(term))
  {
    if term != "" {
      FilterCongruent(s, SearchPass(term), SearchCond(term));
    } else {
      FilterKeepAll(s, SearchCond(term));
    }
  }

  lemma KindStep(s: seq<Notification>, kind: string)
    ensures (if kind != "" then Filter(s, KindPass(kind)) else s) == Filter(s, KindCond(kind))
  {
    if kind != "" {
      FilterCongruent(s, KindPass(kind), KindCond(kind));
    } else {
      FilterKeepAll(s, KindCond(kind));
    }
  }

  lemma StatusStep(s: seq<Notification>, status: string)
    ensures (if status != "" then Filter(s, StatusPass(status)) else s) == Filter(s, StatusCond(status))
  {
    if status != "" {
      FilterCongruent(s, StatusPass(status), StatusCond(status));
    } else {
      FilterKeepAll(s, StatusCond(status));
    }
  }

  /** Each optional pass is a plain filter on its condition. */
  lemma PassesAreFilters(items: seq<Notification>, term: string, kind: string, status: string)
    ensures FilterPasses(items, term, kind, status)
         == Filter(Filter(Filter(items, SearchCond(term)), KindCond(kind)), StatusCond(status))
  {
    SearchStep(items, term);
    var a := Filter(items, SearchCond(term));
    KindStep(a, kind);
    var b := Filter(a, KindCond(kind));
    StatusStep(b, status);
  }

  /** The three sequential passes select the same notifications, in the
      same order, as one filter on the conjunction of the conditions. */
  lemma PassesAreOneFilter(items: seq<Notification>, term: string, kind: string, status: string)
    ensures FilterPasses(items, term, kind, status) == Filter(items, NotificationFilter(term, kind, status))
  {
    PassesAreFilters(items, term, kind, status);
    var c12 := Both(SearchCond(term), KindCond(kind));
    FilterThenFilter(items, SearchCond(term), KindCond(kind));
    FilterThenFilter(items, c12, StatusCond(status));
    ConditionsAgree(items, term, kind, status);
    FilterCongruent(items, Both(c12, StatusCond(status)), NotificationFilter(term, kind, status));
  }

  /** The three conditions together are the screen's match. */
  lemma ConditionsAgree(items: seq<Notification>, term: string, kind: string, status: string)
    ensures var all := Both(Both(SearchCond(term), KindCond(kind)), StatusCond(status));
      forall i :: 0 <= i < |items| ==> all(items[i]) == NotificationFilter(term, kind, status)(items[i])
  {
  }

  /** A field the record does not have reads as `undefined`. */
  function NotificationKey(n: Notification, field: string): Key
  {
    if field == "createdAt" then DateKey(n.createdAt)
    else if field == "title" then TextKey(n.title)
    else if field == "message" then TextKey(n.message)
    else if field == "type" then TextKey(n.kind)
    else if field == "status" then TextKey(n.status)
    else if field == "notificationId" then Num(n.notificationId)
    else Missing
  }

  function NotificationKeyOf(field: string): Notification -> Key
  {
    n => NotificationKey(n, field)
  }

  function FilteredNotifications(items: seq<Notification>, term: string, kind: string, status: string, sort: string): (r: seq<Notification>)
    ensures forall k :: 0 <= k < |r| ==> r[k] in items && NotificationMatches(r[k], term, kind, status)
    ensures forall i :: 0 <= i < |items| && NotificationMatches(items[i], term, kind, status) ==> items[i] in r
    ensures multiset(r) == multiset(Filter(items, NotificationFilter(term, kind, status)))
    ensures SortedBy(r, NotificationKeyOf(ParseSort(sort).0), ParseSort(sort).1)
  {
    var (field, dir) := ParseSort(sort);
    PassesAreOneFilter(items, term, kind, status);
    var r := SortBy(FilterPasses(items, term, kind, status), NotificationKeyOf(field), dir);
    PermutedFilter(r, items, NotificationFilter(term, kind, status));
    r
  }

  // ---------------------------------------------------------------------------
  // displayNotifications / updateNotificationsPagination
  // ---------------------------------------------------------------------------

  /** Here the empty state is chosen when the current page is empty (not the
      whole list), the pager is always refreshed, the raw page count may be
      0, the label shows `totalPages || 1`, and first/prev test `page <= 1`. */
  function ShowNotifications(filtered: seq<Notification>, page: int, perPage: pos): (v: TableView<Notification>)
    ensures v.pager.Some?
    ensures var total := PageCount(|filtered|, perPage);
      && v.pager.value.shownTotal == (if total == 0 then 1 else total)
      && (v.pager.value.firstDisabled <==> page <= 1)
      && (v.pager.value.prevDisabled <==> page <= 1)
      && (v.pager.value.nextDisabled <==> page >= total)
      && (v.pager.value.lastDisabled <==> page >= total)
    ensures v.body.Rows? ==> v.body.rows == PageItems(filtered, page, perPage) && 0 < |v.body.rows| <= perPage
    ensures v.body.EmptyState? <==> PageItems(filtered, page, perPage) == []
  {
    var total := PageCount(|filtered|, perPage);
    var rows := PageItems(filtered, page, perPage);
    var body := if |rows| == 0 then EmptyState else Rows(rows);
    TableView(body, Some(Pager(page, if total == 0 then 1 else total,
                               page <= 1, page <= 1, page >= total, page >= total)))
  }

  /** With nothing to list, "Trang 1 / 1" is shown and both forward
      buttons are disabled, yet 'next' still moves to page 0. */
  lemma EmptyNotificationsPager(page: int, perPage: pos)
    requires page >= 1
    ensures var v := ShowNotifications([], page, perPage);
      v.body == EmptyState && v.pager.value.shownTotal == 1 && v.pager.value.nextDisabled
    ensures Navigate(page, Next, PageCount(0, perPage)) == 0
  {
  }

  /** On a non-empty list the forward buttons are enabled exactly on the
      pages before the last one. */
  lemma NextEnabledBeforeLast(filtered: seq<Notification>, page: int, perPage: pos)
    requires |filtered| > 0
    ensures var v := ShowNotifications(filtered, page, perPage);
      !v.pager.value.nextDisabled <==> page < v.pager.value.shownTotal
  {
  }

  // ---------------------------------------------------------------------------
  // updateNotificationsStats
  // ---------------------------------------------------------------------------

  predicate IsUnread(n: Notification)
  {
    n.status == Some("UNREAD")
  }

  function UnreadOf(): Notification -> bool
  {
    n => IsUnread(n)
  }

  function KindOf(kind: string): Notification -> bool
  {
    (n: Notification) => n.kind == Some(kind)
  }

  datatype NotificationStats = NotificationStats(total: nat, unread: nat, booking: nat, flight: nat)

  /** The sidebar badge: hidden, a count, or "99+". */
  datatype Badge = Hidden | Shown(text: string)

  function Stats(ns: seq<Notification>): (st: NotificationStats)
    ensures st.total == |ns|
    ensures st.unread <= st.total && st.booking <= st.total && st.flight <= st.total
    ensures st.unread == CountIf(ns, UnreadOf())
    ensures st.booking == CountIf(ns, KindOf("BOOKING")) && st.flight == CountIf(ns, KindOf("FLIGHT_UPDATE"))
  {
    NotificationStats(|ns|, CountIf(ns, UnreadOf()), CountIf(ns, KindOf("BOOKING")), CountIf(ns, KindOf("FLIGHT_UPDATE")))
  }

  function BadgeFor(unread: nat): (b: Badge)
    ensures b == Hidden <==> unread == 0
    ensures b == Shown("99+") <==> unread > 99
    ensures 0 < unread <= 99 ==> (b.Shown? && |b.text| <= 2
      && (forall i :: 0 <= i < |b.text| ==> IsDigit(b.text[i])) && ParseDigits(b.text) == unread)
  {
    if unread > 0 then
      ParseNatToString(unread);
      Shown(if unread > 99 then "99+" else NatToString(unread))
    else Hidden
  }

  /** A notification of each kind counts once in `booking` or `flight`,
      never in both. */
  lemma KindsDisjoint(ns: seq<Notification>)
    ensures Stats(ns).booking + Stats(ns).flight <= |ns|
  {
    if |ns| > 0 {
      KindsDisjoint(ns[1..]);
    }
  }

  /** The counters add up over a split list: each figure of the whole is
      the sum of the figures of its parts. */
  lemma {:induction false} StatsAppend(a: seq<Notification>, b: seq<Notification>)
    ensures Stats(a + b).total == Stats(a).total + Stats(b).total
    ensures Stats(a + b).unread == Stats(a).unread + Stats(b).unread
    ensures Stats(a + b).booking == Stats(a).booking + Stats(b).booking
    ensures Stats(a + b).flight == Stats(a).flight + Stats(b).flight
  {
    CountIfAppend(a, b, UnreadOf());
    CountIfAppend(a, b, KindOf("BOOKING"));
    CountIfAppend(a, b, KindOf("FLIGHT_UPDATE"));
  }

  // ---------------------------------------------------------------------------
  // markAllNotificationsAsRead: the notifications the loop visits
  // ---------------------------------------------------------------------------

  /** Unread notifications that carry a user id (0 is "no id"). */
  function MarkableOf(): Notification -> bool
  {
    n => IsUnread(n) && n.userId != 0
  }

  function MarkAllSelection(ns: seq<Notification>): (sel: seq<Notification>)
    ensures forall k :: 0 <= k < |sel| ==> sel[k] in ns && IsUnread(sel[k]) && sel[k].userId != 0
    ensures forall i :: 0 <= i < |ns| && IsUnread(ns[i]) && ns[i].userId != 0 ==> ns[i] in sel
    ensures |sel| <= Stats(ns).unread
  {
    var hasUser := (n: Notification) => n.userId != 0;
    FilterThenFilter(ns, UnreadOf(), hasUser);
    FilterCongruent(ns, MarkableOf(), Both(UnreadOf(), hasUser));
    FilterLengthIsCount(ns, UnreadOf());
    Filter(ns, MarkableOf())
  }
}
