/**
 The request helper every screen goes through, with its 30-second cache of
 GET answers, and the two aggregate calls the client computes itself: the
 admin's list of every user's notifications and the dashboard figures used
 when the statistics endpoint fails. The network is a parameter: a call
 receives the server's response, and the clock is passed in as numbers.
 */
module Api {
  import opened Common
  import opened Sorting
  import opened View
  import opened Tables
  import opened Notifications
  import opened Stats

  // ---------------------------------------------------------------------------
  // apiCall: the cache key
  // ---------------------------------------------------------------------------

  /** How long a cached GET answer is served, in milliseconds. */
  const CacheTtl := 30000

  /** The request verb: upper-cased, GET when none (or "") is given. */
  function MethodOf(verb: Option<string>): string
  {
    Upper(OrElse(verb, "GET"))
  }

  /** The cache slot of a request. */
  function CacheKey(verb: Option<string>, endpoint: string): string
  {
    MethodOf(verb) + ":" + endpoint
  }

  /** Reads a key back into its method and endpoint at the first ':'. */
  function SplitKey(key: string): (r: Option<(string, string)>)
    ensures r.None? <==> ':' !in key
    ensures r.Some? ==> ':' !in r.value.0 && key == r.value.0 + ":" + r.value.1
  {
    var i := CharIndex(key, ':');
    if i == |key| then None
    else
      assert key == key[..i] + ":" + key[i + 1..];
      Some((key[..i], key[i + 1..]))
  }

  predicate NoColon(verb: Option<string>)
  {
    verb.Some? ==> ':' !in verb.value
  }

  lemma MethodHasNoColon(verb: Option<string>)
    requires NoColon(verb)
    ensures ':' !in MethodOf(verb)
  {
  }

  /** The key names its method and endpoint: splitting it at the first ':'
      gives them back, whenever the method itself holds no ':'. */
  lemma CacheKeyRoundTrip(verb: Option<string>, endpoint: string)
    requires NoColon(verb)
    ensures SplitKey(CacheKey(verb, endpoint)) == Some((MethodOf(verb), endpoint))
  {
    var m := MethodOf(verb);
    var key := CacheKey(verb, endpoint);
    MethodHasNoColon(verb);
    assert key[|m|] == ':';
    var i := CharIndex(key, ':');
    assert i == |m|;
    assert key[..i] == m;
    assert key[i + 1..] == endpoint;
  }

  /** Two requests share a cache slot exactly when their methods agree up
      to letter case and their endpoints are equal. */
  lemma SameSlotIffSameRequest(m1: Option<string>, e1: string, m2: Option<string>, e2: string)
    requires NoColon(m1) && NoColon(m2)
    ensures CacheKey(m1, e1) == CacheKey(m2, e2) <==> MethodOf(m1) == MethodOf(m2) && e1 == e2
  {
    CacheKeyRoundTrip(m1, e1);
    CacheKeyRoundTrip(m2, e2);
  }

  // ---------------------------------------------------------------------------
  // apiCall: cache, status and body
  // ---------------------------------------------------------------------------

  /** What a call hands back: `true` for an empty answer, otherwise the
      parsed body (JSON parsing is outside the model; a body is kept as its
      text). */
  datatype Reply = NoContent | Parsed(json: string)

  datatype CacheEntry = CacheEntry(t: int, v: Reply)

  type Cache = map<string, CacheEntry>

  /** What the server sends: the status, the `message` of an error body
      when it has one, the body text, and whether that text is JSON; or
      no answer at all, when the request or the body read is rejected. */
  datatype Response =
    | Response(status: nat, errorMessage: Option<string>, text: string, isJson: bool)
    | Unreachable

  /** `NetworkError` is the rejection of `fetch` or `text()`, passed on to
      the caller unchanged. */
  datatype Outcome = Returned(value: Reply) | HttpError(message: string) | BadJson | NetworkError

  /** A call's outcome, the cache after it, and whether it went to the
      server. */
  datatype Call = Call(outcome: Outcome, cache: Cache, fetched: bool)

  predicate Fresh(cache: Cache, key: string, now: int)
  {
    key in cache && now - cache[key].t < CacheTtl
  }

  predicate IsOk(status: nat)
  {
    200 <= status <= 299
  }

  const StatusPrefix := "HTTP error! status: "

  /** The error a failed response raises: the server's message, or the
      status line when the body has none. */
  function ErrorMessage(status: nat, message: Option<string>): (r: string)
    ensures message.Some? && message.value != "" ==> r == message.value
    ensures message.None? || message.value == "" ==>
      |r| > |StatusPrefix| && r[..|StatusPrefix|] == StatusPrefix
      && AllDigits(r[|StatusPrefix|..]) && ParseDigits(r[|StatusPrefix|..]) == status
  {
    var line := StatusPrefix + NatToString(status);
    assert line[|StatusPrefix|..] == NatToString(status);
    ParseNatToString(status);
    OrElse(message, line)
  }

  /** Whether a call writes the cache: a GET that went to the server and
      got a body back. */
  predicate Stores(c: Call, verb: Option<string>)
  {
    c.fetched && MethodOf(verb) == "GET" && c.outcome.Returned? && c.outcome.value.Parsed?
  }

  /** One request. `now` is the clock when the call starts and `later`
      when the body has been read. */
  function ApiCall(cache: Cache, verb: Option<string>, endpoint: string, now: int, later: int, response: Response): (c: Call)
    // a GET with a fresh entry is answered from the cache and nothing else happens
    ensures !c.fetched <==> MethodOf(verb) == "GET" && Fresh(cache, CacheKey(verb, endpoint), now)
    ensures !c.fetched ==> c.outcome == Returned(cache[CacheKey(verb, endpoint)].v) && c.cache == cache
    // otherwise the server decides; a rejected request fails as it was rejected
    ensures c.fetched && response.Unreachable? ==> c.outcome == NetworkError
    ensures c.outcome == NetworkError ==> c.fetched && response.Unreachable?
    ensures c.fetched && response.Response? && !IsOk(response.status) ==>
      c.outcome == HttpError(ErrorMessage(response.status, response.errorMessage))
    ensures c.fetched && response.Response? && IsOk(response.status) ==>
      (c.outcome == Returned(NoContent) <==> response.status == 204 || response.text == "")
    ensures c.fetched && response.Response? && IsOk(response.status) && response.status != 204 && response.text != "" ==>
      c.outcome == (if response.isJson then Returned(Parsed(response.text)) else BadJson)
    // only a GET that returned a parsed body writes, and only its own slot
    ensures MethodOf(verb) != "GET" ==> c.cache == cache
    ensures Stores(c, verb) ==> c.cache == cache[CacheKey(verb, endpoint) := CacheEntry(later, c.outcome.value)]
    ensures !Stores(c, verb) ==> c.cache == cache
  {
    var m := MethodOf(verb);
    var key := CacheKey(verb, endpoint);
    if m == "GET" && Fresh(cache, key, now) then Call(Returned(cache[key].v), cache, false)
    else if response.Unreachable? then Call(NetworkError, cache, true)
    else if !IsOk(response.status) then Call(HttpError(ErrorMessage(response.status, response.errorMessage)), cache, true)
    else if response.status == 204 || response.text == "" then Call(Returned(NoContent), cache, true)
    else if !response.isJson then Call(BadJson, cache, true)
    else
      var v := Parsed(response.text);
      if m == "GET" then
        Call(Returned(v), cache[key := CacheEntry(later, v)], true)
      else Call(Returned(v), cache, true)
  }

  /** A GET answered by the server is answered again from the cache, with
      the same value and without a request, by any GET of the same
      endpoint that starts less than 30 seconds after the body was read. */
  lemma RepeatedGetIsCached(cache: Cache, verb: Option<string>, endpoint: string, now: int, later: int, response: Response,
                            verb2: Option<string>, now2: int, later2: int, response2: Response)
    requires Stores(ApiCall(cache, verb, endpoint, now, later, response), verb)
    requires MethodOf(verb2) == "GET" && later <= now2 < later + CacheTtl
    ensures var first := ApiCall(cache, verb, endpoint, now, later, response);
      var second := ApiCall(first.cache, verb2, endpoint, now2, later2, response2);
      !second.fetched && second.outcome == first.outcome && second.cache == first.cache
  {
    var first := ApiCall(cache, verb, endpoint, now, later, response);
    assert CacheKey(verb2, endpoint) == CacheKey(verb, endpoint);
    assert first.cache[CacheKey(verb, endpoint)] == CacheEntry(later, first.outcome.value);
  }

  /** Once 30 seconds have passed since the body was read, the same GET
      goes to the server again. */
  lemma ExpiredGetFetches(cache: Cache, verb: Option<string>, endpoint: string, now: int, later: int, response: Response,
                          verb2: Option<string>, now2: int, later2: int, response2: Response)
    requires Stores(ApiCall(cache, verb, endpoint, now, later, response), verb)
    requires MethodOf(verb2) == "GET" && now2 >= later + CacheTtl
    ensures var first := ApiCall(cache, verb, endpoint, now, later, response);
      ApiCall(first.cache, verb2, endpoint, now2, later2, response2).fetched
  {
    var first := ApiCall(cache, verb, endpoint, now, later, response);
    assert CacheKey(verb2, endpoint) == CacheKey(verb, endpoint);
    assert first.cache[CacheKey(verb, endpoint)] == CacheEntry(later, first.outcome.value);
  }

  /** A request other than GET always reaches the server and leaves the
      cache as it was, whatever the server answers. */
  lemma OtherVerbsBypassCache(cache: Cache, verb: Option<string>, endpoint: string, now: int, later: int, response: Response)
    requires MethodOf(verb) != "GET"
    ensures var c := ApiCall(cache, verb, endpoint, now, later, response);
      c.fetched && c.cache == cache
  {
  }

  // ---------------------------------------------------------------------------
  // NotificationsAPI.getAllNotificationsForAdmin
  // ---------------------------------------------------------------------------

  /** What one user's notification request gives: a list, some other
      value, or an error. */
  datatype UserReply = Listed(items: seq<Notification>) | NotAList | Failed

  datatype UserFetch = UserFetch(userId: int, reply: UserReply)

  /** The user's notifications, each stamped with the user's id. */
  function Tag(items: seq<Notification>, userId: int): (r: seq<Notification>)
    ensures |r| == |items|
    ensures forall k :: 0 <= k < |r| ==> r[k] == items[k].(userId := userId)
  {
    seq(|items|, k requires 0 <= k < |items| => items[k].(userId := userId))
  }

  /** What one user adds to the admin's list. */
  function Contribution(f: UserFetch): seq<Notification>
  {
    if f.reply.Listed? then Tag(f.reply.items, f.userId) else []
  }

  function ListedCount(): UserFetch -> int
  {
    (f: UserFetch) => if f.reply.Listed? then |f.reply.items| else 0
  }

  /** The users' notifications one user after the other. */
  function Gather(fs: seq<UserFetch>): (r: seq<Notification>)
    ensures |r| == SumOf(fs, ListedCount())
    decreases |fs|
  {
    if |fs| == 0 then [] else Contribution(fs[0]) + Gather(fs[1..])
  }

  /** Every notification in the admin's list came from a user whose
      request gave a list, and carries that user's id. */
  lemma {:induction false} GatherTagged(fs: seq<UserFetch>, k: nat)
    requires k < |Gather(fs)|
    ensures exists j :: (0 <= j < |fs| && fs[j].reply.Listed?
      && Gather(fs)[k].userId == fs[j].userId && Gather(fs)[k] in Contribution(fs[j]))
    decreases |fs|
  {
    var c := Contribution(fs[0]);
    if k < |c| {
      assert Gather(fs)[k] == c[k];
      assert fs[0].reply.Listed?;
    } else {
      GatherTagged(fs[1..], k - |c|);
      assert Gather(fs)[k] == Gather(fs[1..])[k - |c|];
      var j :| 0 <= j < |fs[1..]| && fs[1..][j].reply.Listed?
        && Gather(fs[1..])[k - |c|].userId == fs[1..][j].userId && Gather(fs[1..])[k - |c|] in Contribution(fs[1..][j]);
      assert fs[1..][j] == fs[j + 1];
    }
  }

  /** Nothing a listing user sent is lost. */
  lemma {:induction false} GatherKeepsAll(fs: seq<UserFetch>, j: nat)
    requires j < |fs|
    ensures multiset(Contribution(fs[j])) <= multiset(Gather(fs))
    decreases |fs|
  {
    if j > 0 {
      GatherKeepsAll(fs[1..], j - 1);
      assert fs[1..][j - 1] == fs[j];
    }
  }

  lemma {:induction false} GatherAppend(a: seq<UserFetch>, b: seq<UserFetch>)
    ensures Gather(a + b) == Gather(a) + Gather(b)
    decreases |a|
  {
    if |a| > 0 {
      assert (a + b)[0] == a[0];
      assert (a + b)[1..] == a[1..] + b;
      GatherAppend(a[1..], b);
    } else {
      assert a + b == b;
    }
  }

  /** A user whose request failed or did not give a list adds nothing:
      the list is the one the other users give. */
  lemma FailedUserAddsNothing(fs: seq<UserFetch>, j: nat)
    requires j < |fs| && !fs[j].reply.Listed?
    ensures Gather(fs[..j] + fs[j + 1..]) == Gather(fs)
  {
    assert fs == fs[..j] + [fs[j]] + fs[j + 1..];
    SkipSilent(fs[..j], fs[j], fs[j + 1..]);
  }

  lemma SkipSilent(pre: seq<UserFetch>, x: UserFetch, post: seq<UserFetch>)
    requires !x.reply.Listed?
    ensures Gather(pre + [x] + post) == Gather(pre + post)
  {
    assert Gather([x]) == [] by {
      assert [x][1..] == [];
    }
    GatherAppend(pre + [x], post);
    GatherAppend(pre, [x]);
    GatherAppend(pre, post);
    assert Gather(pre + [x]) == Gather(pre);
  }

  function DateKey(): Notification -> Key
  {
    (n: Notification) => if n.createdAt.Some? then Num(n.createdAt.value) else Missing
  }

  /** Every user's notifications, newest first. */
  function NewestFirst(fs: seq<UserFetch>): (r: seq<Notification>)
    ensures multiset(r) == multiset(Gather(fs))
    ensures SortedBy(r, DateKey(), Desc)
  {
    SortBy(Gather(fs), DateKey(), Desc)
  }

  /** A slice of a sorted list is sorted. */
  lemma SortedSlice<T>(s: seq<T>, key: T -> Key, dir: Direction, start: int, end: int)
    requires SortedBy(s, key, dir)
    ensures SortedBy(JsSlice(s, start, end), key, dir)
    ensures multiset(JsSlice(s, start, end)) <= multiset(s)
  {
    var a, b := SliceIndex(start, |s|), SliceIndex(end, |s|);
    if a < b {
      assert JsSlice(s, start, end) == s[a..b];
      SortedRange(s, key, dir, a, b);
      RangeIncluded(s, a, b);
    }
  }

  lemma SortedRange<T>(s: seq<T>, key: T -> Key, dir: Direction, a: int, b: int)
    requires SortedBy(s, key, dir) && 0 <= a <= b <= |s|
    ensures SortedBy(s[a..b], key, dir)
  {
    var r := s[a..b];
    forall i, j | 0 <= i < j < |r| ensures Before(dir, key(r[i]), key(r[j])) {
      assert r[i] == s[a + i] && r[j] == s[a + j];
    }
  }

  lemma RangeIncluded<T>(s: seq<T>, a: int, b: int)
    requires 0 <= a <= b <= |s|
    ensures multiset(s[a..b]) <= multiset(s)
  {
    assert s == s[..a] + s[a..b] + s[b..];
  }

  /** One page of the newest-first list: `slice((page-1)*size, page*size)`. */
  function AdminNotifications(fs: seq<UserFetch>, page: int, pageSize: int): (r: seq<Notification>)
    ensures multiset(r) <= multiset(Gather(fs))
    ensures SortedBy(r, DateKey(), Desc)
    ensures pageSize >= 0 ==> |r| <= pageSize
  {
    var start := (page - 1) * pageSize;
    NewestSlice(fs, start, start + pageSize);
    JsSlice(NewestFirst(fs), start, start + pageSize)
  }

  /** Any slice of the newest-first list is newest-first and drawn from the
      merged notifications. */
  lemma NewestSlice(fs: seq<UserFetch>, start: int, end: int)
    ensures var w := JsSlice(NewestFirst(fs), start, end);
      multiset(w) <= multiset(Gather(fs)) && SortedBy(w, DateKey(), Desc)
  {
    SortedSlice(NewestFirst(fs), DateKey(), Desc, start, end);
  }

  /** The pages cut the newest-first list into consecutive runs of
      `pageSize`: its `n`-th notification is at place `n % pageSize` of
      page `n / pageSize + 1`. */
  lemma PageHolds(fs: seq<UserFetch>, pageSize: int, n: nat)
    requires pageSize >= 1 && n < |NewestFirst(fs)|
    ensures var page := AdminNotifications(fs, n / pageSize + 1, pageSize);
      n % pageSize < |page| && page[n % pageSize] == NewestFirst(fs)[n]
  {
    var q, start, r := DivMod(n, pageSize);
    PageAt(fs, pageSize, n, q, start, r);
  }

  /** Place `r` of page `q + 1`, which starts at `start`, holds the
      notification at `n == start + r`. */
  lemma PageAt(fs: seq<UserFetch>, pageSize: int, n: nat, q: nat, start: nat, r: nat)
    requires start == q * pageSize && start + r == n
    requires r < pageSize && n < |NewestFirst(fs)|
    ensures var page := AdminNotifications(fs, q + 1, pageSize);
      r < |page| && page[r] == NewestFirst(fs)[n]
  {
    assert (q + 1 - 1) * pageSize == start;
    SliceHolds(NewestFirst(fs), start, pageSize, r);
  }

  /** `n` split into `q` pages of `d` and a remainder `r`. */
  lemma DivMod(n: nat, d: int) returns (q: nat, start: nat, r: nat)
    requires d >= 1
    ensures q == n / d && r == n % d && r < d
    ensures start == q * d && start + r == n
  {
    q, r := n / d, n % d;
    start := q * d;
  }

  lemma SliceHolds<T>(s: seq<T>, start: int, size: int, r: int)
    requires 0 <= r < size && 0 <= start && start + r < |s|
    ensures var w := JsSlice(s, start, start + size);
      r < |w| && w[r] == s[start + r]
  {
  }

  // ---------------------------------------------------------------------------
  // getDashboardStats: the fallback when the statistics endpoint fails
  // ---------------------------------------------------------------------------

  /** A list the fallback fetches; a failed fetch counts as an empty list. */
  datatype Fetched<T> = Got(items: seq<T>) | Unavailable

  function ItemsOf<T>(f: Fetched<T>): seq<T>
  {
    if f.Got? then f.items else []
  }

  datatype FallbackStats = FallbackStats(totalUsers: nat, totalFlights: nat, totalBookings: nat, totalRevenue: int)

  function IsSuccess(): Payment -> bool
  {
    (p: Payment) => p.status == Some("SUCCESS")
  }

  function BookingTotal(): Booking -> int
  {
    (b: Booking) => b.totalAmount
  }

  /** Revenue from the payments: the amounts of the SUCCESS ones. */
  function PaymentRevenue(payments: seq<Payment>): (r: int)
    ensures r == SumOf(payments, Masked(IsSuccess(), AmountOf()))
  {
    FilterSumIsMaskedSum(payments, IsSuccess(), AmountOf());
    SumOf(Filter(payments, IsSuccess()), AmountOf())
  }

  /** The counts of what could be fetched, and the revenue of the SUCCESS
      payments, or the booking totals when that revenue is 0. */
  function DashboardFallback<U, F>(users: Fetched<U>, flights: Fetched<F>, bookings: Fetched<Booking>, payments: Fetched<Payment>): (d: FallbackStats)
    ensures d.totalUsers == |ItemsOf(users)| && d.totalFlights == |ItemsOf(flights)| && d.totalBookings == |ItemsOf(bookings)|
    ensures users.Unavailable? ==> d.totalUsers == 0
    ensures PaymentRevenue(ItemsOf(payments)) != 0 ==> d.totalRevenue == PaymentRevenue(ItemsOf(payments))
    ensures PaymentRevenue(ItemsOf(payments)) == 0 ==> d.totalRevenue == SumOf(ItemsOf(bookings), BookingTotal())
  {
    var paid := PaymentRevenue(ItemsOf(payments));
    FallbackStats(|ItemsOf(users)|, |ItemsOf(flights)|, |ItemsOf(bookings)|,
      if paid != 0 then paid else SumOf(ItemsOf(bookings), BookingTotal()))
  }

  /** With no SUCCESS payment the revenue is the sum of the bookings. */
  lemma {:induction false} NoSuccessMeansBookingRevenue<U, F>(users: Fetched<U>, flights: Fetched<F>, bookings: Fetched<Booking>, payments: Fetched<Payment>)
    requires forall i :: 0 <= i < |ItemsOf(payments)| ==> ItemsOf(payments)[i].status != Some("SUCCESS")
    ensures DashboardFallback(users, flights, bookings, payments).totalRevenue == SumOf(ItemsOf(bookings), BookingTotal())
  {
    var ps := ItemsOf(payments);
    FilterNoneKept(ps, IsSuccess());
  }

  lemma FilterNoneKept<T>(s: seq<T>, p: T -> bool)
    requires forall i :: 0 <= i < |s| ==> !p(s[i])
    ensures Filter(s, p) == []
  {
  }

  /** Payments of any other status do not change the revenue. */
  lemma OtherPaymentsIgnored(payments: seq<Payment>, other: Payment)
    requires other.status != Some("SUCCESS")
    ensures PaymentRevenue(payments + [other]) == PaymentRevenue(payments)
  {
    FilterAppend(payments, [other], IsSuccess());
    assert Filter([other], IsSuccess()) == [] by {
      FilterNoneKept([other], IsSuccess());
    }
    assert Filter(payments, IsSuccess()) + [] == Filter(payments, IsSuccess());
  }
}
