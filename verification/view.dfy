/**
 The generic table engine every list screen of the console repeats:
 search/filter (an order-preserving selection), single-key sort, page
 slicing, page counts, page navigation, and the sort-selector parsing.
 Each screen instantiates it with its own predicate and key extractor.
 */
module View {
  import opened Common
  import opened Sorting

  // ---------------------------------------------------------------------------
  // Filtering: `items.filter(keep)`
  // ---------------------------------------------------------------------------

  function Filter<T>(s: seq<T>, keep: T -> bool): (r: seq<T>)
    ensures |r| <= |s|
    ensures forall k :: 0 <= k < |r| ==> r[k] in s && keep(r[k])
    ensures forall i :: 0 <= i < |s| && keep(s[i]) ==> s[i] in r
    ensures multiset(r) <= multiset(s)
    decreases |s|
  {
    if |s| == 0 then []
    else
      var init := s[..|s| - 1];
      var last := s[|s| - 1];
      var rest := Filter(init, keep);
      var kept := if keep(last) then [last] else [];
      assert s == init + [last];
      assert multiset(rest + kept) == multiset(rest) + multiset(kept);
      assert forall k :: 0 <= k < |rest| ==> (rest + kept)[k] == rest[k];
      rest + kept
  }

  /** The positions of the kept elements, in increasing order. */
  function KeptIndices<T>(s: seq<T>, keep: T -> bool): (idx: seq<nat>)
    ensures forall k :: 0 <= k < |idx| ==> idx[k] < |s|
    decreases |s|
  {
    if |s| == 0 then []
    else KeptIndices(s[..|s| - 1], keep) + (if keep(s[|s| - 1]) then [|s| - 1] else [])
  }

  lemma {:induction false} KeptIndicesCount<T>(s: seq<T>, keep: T -> bool)
    ensures |KeptIndices(s, keep)| == |Filter(s, keep)|
    decreases |s|
  {
    if |s| > 0 {
      KeptIndicesCount(s[..|s| - 1], keep);
    }
  }

  lemma {:induction false} KeptIndicesSelect<T>(s: seq<T>, keep: T -> bool)
    ensures |KeptIndices(s, keep)| == |Filter(s, keep)|
    ensures forall k :: 0 <= k < |KeptIndices(s, keep)| ==> Filter(s, keep)[k] == s[KeptIndices(s, keep)[k]]
    decreases |s|
  {
    KeptIndicesCount(s, keep);
    if |s| > 0 {
      var init := s[..|s| - 1];
      KeptIndicesSelect(init, keep);
      var idx0 := KeptIndices(init, keep);
      var idx := KeptIndices(s, keep);
      var r := Filter(s, keep);
      forall k | 0 <= k < |idx| ensures r[k] == s[idx[k]] {
        if k < |idx0| {
          assert idx[k] == idx0[k] && r[k] == Filter(init, keep)[k];
          assert init[idx0[k]] == s[idx0[k]];
        }
      }
    }
  }

  lemma {:induction false} KeptIndicesIncrease<T>(s: seq<T>, keep: T -> bool)
    ensures forall k1, k2 :: 0 <= k1 < k2 < |KeptIndices(s, keep)| ==> KeptIndices(s, keep)[k1] < KeptIndices(s, keep)[k2]
    decreases |s|
  {
    if |s| > 0 {
      KeptIndicesIncrease(s[..|s| - 1], keep);
    }
  }

  lemma {:induction false} KeptIndicesMembers<T>(s: seq<T>, keep: T -> bool)
    ensures forall i :: 0 <= i < |s| ==> (keep(s[i]) <==> i in KeptIndices(s, keep))
    decreases |s|
  {
    if |s| > 0 {
      var init := s[..|s| - 1];
      KeptIndicesMembers(init, keep);
      var idx0 := KeptIndices(init, keep);
      var idx := KeptIndices(s, keep);
      forall i | 0 <= i < |s| ensures keep(s[i]) <==> i in idx {
        if i < |s| - 1 {
          assert s[i] == init[i];
          assert i in idx <==> i in idx0;
        }
      }
    }
  }

  /** The filter result is exactly the order-preserving subsequence of the
      elements that satisfy the predicate: its k-th element is the input
      element at the k-th kept position, kept positions increase, and a
      position is kept iff its element satisfies the predicate. */
  lemma FilterSelectsInOrder<T>(s: seq<T>, keep: T -> bool)
    ensures var idx := KeptIndices(s, keep);
      && |idx| == |Filter(s, keep)|
      && (forall k :: 0 <= k < |idx| ==> Filter(s, keep)[k] == s[idx[k]])
      && (forall k1, k2 :: 0 <= k1 < k2 < |idx| ==> idx[k1] < idx[k2])
      && (forall i :: 0 <= i < |s| ==> (keep(s[i]) <==> i in idx))
  {
    KeptIndicesSelect(s, keep);
    KeptIndicesIncrease(s, keep);
    KeptIndicesMembers(s, keep);
  }

  /** Filtering twice with the same predicate changes nothing. */
  lemma {:induction false} FilterIdempotent<T>(s: seq<T>, keep: T -> bool)
    ensures Filter(Filter(s, keep), keep) == Filter(s, keep)
    decreases |s|
  {
    if |s| > 0 {
      var init := s[..|s| - 1];
      var last := s[|s| - 1];
      FilterIdempotent(init, keep);
      FilterAppend(Filter(init, keep), if keep(last) then [last] else [], keep);
      if keep(last) {
        assert Filter([last], keep) == Filter([], keep) + [last] by {
          assert [last][..0] == [];
        }
      }
    }
  }

  /** Filtering a sequence extended by one element. */
  lemma FilterSnoc<T>(init: seq<T>, last: T, p: T -> bool)
    ensures Filter(init + [last], p) == Filter(init, p) + (if p(last) then [last] else [])
  {
    assert (init + [last])[..|init|] == init;
  }

  lemma {:induction false} FilterAppend<T>(a: seq<T>, b: seq<T>, keep: T -> bool)
    ensures Filter(a + b, keep) == Filter(a, keep) + Filter(b, keep)
    decreases |b|
  {
    if |b| == 0 {
      assert a + b == a;
    } else {
      var init := b[..|b| - 1];
      var last := b[|b| - 1];
      assert (a + b)[..|a + b| - 1] == a + init;
      assert (a + b)[|a + b| - 1] == last;
      FilterAppend(a, init, keep);
    }
  }

  /** The conjunction of two predicates. */
  function Both<T>(p: T -> bool, q: T -> bool): T -> bool
  {
    x => p(x) && q(x)
  }

  /** The negation of a predicate. */
  function Not<T>(p: T -> bool): T -> bool
  {
    x => !p(x)
  }

  /** `f` where `p` holds, zero elsewhere. */
  function Masked<T>(p: T -> bool, f: T -> int): T -> int
  {
    x => if p(x) then f(x) else 0
  }

  /** Summing over the kept elements is summing the masked values over all
      elements. */
  lemma {:induction false} FilterSumIsMaskedSum<T>(s: seq<T>, p: T -> bool, f: T -> int)
    ensures SumOf(Filter(s, p), f) == SumOf(s, Masked(p, f))
    decreases |s|
  {
    if |s| > 0 {
      var init, last := s[..|s| - 1], s[|s| - 1];
      assert s == init + [last];
      FilterSumIsMaskedSum(init, p, f);
      SumOfAppend(Filter(init, p), if p(last) then [last] else [], f);
      SumOfAppend(init, [last], Masked(p, f));
    }
  }

  /** Successive filters compose into one filter on the conjunction; the
      notifications screen filters in three passes, the bookings screen in
      one, and both select the same elements in the same order. */
  lemma {:induction false} FilterThenFilter<T>(s: seq<T>, p: T -> bool, q: T -> bool)
    ensures Filter(Filter(s, p), q) == Filter(s, Both(p, q))
    decreases |s|
  {
    if |s| > 0 {
      var init := s[..|s| - 1];
      var last := s[|s| - 1];
      var kept := if p(last) then [last] else [];
      assert Filter(s, p) == Filter(init, p) + kept;
      FilterThenFilter(init, p, q);
      FilterAppend(Filter(init, p), kept, q);
      if p(last) {
        assert [last][..0] == [];
      }
      assert Filter(kept, q) == if p(last) && q(last) then [last] else [];
      assert Filter(s, Both(p, q)) == Filter(init, Both(p, q)) + Filter(kept, q);
    }
  }

  /** A filter that keeps everything is the identity (an empty search term
      and empty filters show every record). */
  lemma {:induction false} FilterKeepAll<T>(s: seq<T>, keep: T -> bool)
    requires forall i :: 0 <= i < |s| ==> keep(s[i])
    ensures Filter(s, keep) == s
    decreases |s|
  {
    if |s| > 0 {
      var init := s[..|s| - 1];
      assert s == init + [s[|s| - 1]];
      FilterKeepAll(init, keep);
      FilterSnoc(init, s[|s| - 1], keep);
    }
  }

  /** The filter keeps as many elements as the predicate counts. */
  lemma {:induction false} FilterLengthIsCount<T>(s: seq<T>, p: T -> bool)
    ensures |Filter(s, p)| == CountIf(s, p)
    decreases |s|
  {
    if |s| > 0 {
      var init, last := s[..|s| - 1], s[|s| - 1];
      assert s == init + [last];
      FilterSnoc(init, last, p);
      FilterLengthIsCount(init, p);
      CountIfAppend(init, [last], p);
      assert CountIf([last], p) == if p(last) then 1 else 0 by {
        assert [last][1..] == [];
      }
    }
  }

  /** Two predicates that agree on every element select the same elements. */
  lemma {:induction false} FilterCongruent<T>(s: seq<T>, p: T -> bool, q: T -> bool)
    requires forall i :: 0 <= i < |s| ==> p(s[i]) == q(s[i])
    ensures Filter(s, p) == Filter(s, q)
    decreases |s|
  {
    if |s| > 0 {
      FilterCongruent(s[..|s| - 1], p, q);
    }
  }

  /** A reordering of a filter's result (such as the sorted list) holds
      exactly the kept elements. */
  lemma PermutedFilter<T>(r: seq<T>, s: seq<T>, keep: T -> bool)
    requires multiset(r) == multiset(Filter(s, keep))
    ensures forall k :: 0 <= k < |r| ==> r[k] in s && keep(r[k])
    ensures forall i :: 0 <= i < |s| && keep(s[i]) ==> s[i] in r
  {
    var f := Filter(s, keep);
    forall k | 0 <= k < |r| ensures r[k] in s && keep(r[k]) {
      assert r[k] in multiset(f);
      var j :| 0 <= j < |f| && f[j] == r[k];
    }
    forall i | 0 <= i < |s| && keep(s[i]) ensures s[i] in r {
      assert s[i] in multiset(f);
    }
  }

  // ---------------------------------------------------------------------------
  // Pagination
  // ---------------------------------------------------------------------------

  /** Index of the first item of page `page`. */
  function PageStart(page: int, perPage: pos): (start: int)
    ensures page >= 1 ==> start >= 0
  {
    if page >= 1 then MulNonNegative(page - 1, perPage); (page - 1) * perPage
    else (page - 1) * perPage
  }

  /** Position `i` sits at offset `i % perPage` of page `i / perPage + 1`,
      which is one of the pages shown. */
  lemma PositionOnPage(len: nat, perPage: pos, i: nat)
    requires i < len
    ensures var p := i / perPage + 1;
      && PageStart(p, perPage) + i % perPage == i
      && PageStart(p, perPage) <= i
      && 1 <= p <= ShownPageCount(len, perPage)
  {
    var q := i / perPage;
    assert q * perPage + i % perPage == i;
    var n := PageCount(len, perPage);
    if n <= q {
      MulLe(n, q, perPage);
    }
  }

  lemma MulLe(a: nat, b: nat, c: pos)
    requires a <= b
    ensures a * c <= b * c
  {
  }

  /** `filtered.slice((page - 1) * perPage, (page - 1) * perPage + perPage)`. */
  function PageItems<T>(s: seq<T>, page: int, perPage: pos): (r: seq<T>)
    ensures |r| <= perPage
    ensures page >= 1 ==> forall k :: 0 <= k < |r| ==> PageStart(page, perPage) + k < |s| && r[k] == s[PageStart(page, perPage) + k]
    ensures page >= 1 && PageStart(page, perPage) <= |s| ==> |r| == Min(perPage, |s| - PageStart(page, perPage))
    ensures page >= 1 && PageStart(page, perPage) >= |s| ==> r == []
  {
    var start := PageStart(page, perPage);
    JsSlice(s, start, start + perPage)
  }
  /** The `k`-th item of page `p` is the record at the page's start plus `k`. */
  lemma PageItemAt<T>(s: seq<T>, p: int, perPage: pos, k: nat)
    requires p >= 1 && k < perPage && PageStart(p, perPage) + k < |s|
    ensures k < |PageItems(s, p, perPage)|
    ensures PageItems(s, p, perPage)[k] == s[PageStart(p, perPage) + k]
  {
  }


  /** `Math.ceil(len / perPage)`: zero for an empty list. */
  function PageCount(len: nat, perPage: pos): (n: nat)
    ensures n * perPage >= len
    ensures n == 0 <==> len == 0
    ensures n > 0 ==> (n - 1) * perPage < len
  {
    CeilDiv(len, perPage)
  }

  /** `Math.max(1, Math.ceil(len / perPage))`: never zero. */
  function ShownPageCount(len: nat, perPage: pos): (n: nat)
    ensures n >= 1
    ensures n * perPage >= len
    ensures len > 0 ==> n == PageCount(len, perPage)
  {
    Max(1, PageCount(len, perPage))
  }

  /** Pages 1..count, concatenated in order. */
  function Pages<T>(s: seq<T>, perPage: pos, count: nat): seq<T>
  {
    if count == 0 then [] else Pages(s, perPage, count - 1) + PageItems(s, count, perPage)
  }

  lemma {:induction false} PagesArePrefix<T>(s: seq<T>, perPage: pos, count: nat)
    ensures Pages(s, perPage, count) == s[..Min(count * perPage, |s|)]
  {
    if count > 0 {
      PagesArePrefix(s, perPage, count - 1);
      var start, end := PageEnds(count, perPage);
      LastPage(s, perPage, count, Min(start, |s|), Min(end, |s|));
      PrefixExtend(s, Min(start, |s|), Min(end, |s|));
    }
  }

  lemma PrefixExtend<T>(s: seq<T>, lo: nat, hi: nat)
    requires lo <= hi <= |s|
    ensures s[..lo] + s[lo..hi] == s[..hi]
  {
  }

  /** Where page `count` starts and ends. */
  lemma PageEnds(count: pos, perPage: pos) returns (start: nat, end: nat)
    ensures start == (count - 1) * perPage && end == count * perPage == start + perPage
  {
    start, end := (count - 1) * perPage, count * perPage;
  }

  /** Page `count` is the slice between the ends of pages `count - 1` and
      `count`. */
  lemma LastPage<T>(s: seq<T>, perPage: pos, count: pos, lo: nat, hi: nat)
    requires lo == Min((count - 1) * perPage, |s|) && hi == Min((count - 1) * perPage + perPage, |s|)
    ensures lo <= hi && PageItems(s, count, perPage) == s[lo..hi]
  {
    var start := (count - 1) * perPage;
    var page := PageItems(s, count, perPage);
    if start <= |s| {
      assert |page| == hi - lo;
      forall k | 0 <= k < |page| ensures page[k] == s[lo..hi][k] {
      }
    } else {
      assert page == [];
    }
  }

  /** Concatenating pages 1..totalPages reproduces the list exactly, with
      no duplicates and no omissions, also when the list is empty and one
      (empty) page is shown. */
  lemma PagesReassemble<T>(s: seq<T>, perPage: pos)
    ensures Pages(s, perPage, ShownPageCount(|s|, perPage)) == s
    ensures Pages(s, perPage, PageCount(|s|, perPage)) == s
  {
    PagesArePrefix(s, perPage, ShownPageCount(|s|, perPage));
    PagesArePrefix(s, perPage, PageCount(|s|, perPage));
    assert s[..|s|] == s;
  }

  // ---------------------------------------------------------------------------
  // Navigation
  // ---------------------------------------------------------------------------

  /** What a pagination button passes: 'prev', 'next', or a number
      (1 for "first", 999 for "last"). */
  datatype PageRequest = Prev | Next | Number(n: int)

  /** The bookings/users/payments/notifications rule, with
      `totalPages = Math.ceil(len / perPage)` (zero for an empty list). */
  function Navigate(cur: int, req: PageRequest, totalPages: nat): (p: int)
    ensures req == Prev ==> p >= 1 && (cur > 1 ==> p == cur - 1) && (cur <= 1 ==> p == 1)
    ensures req == Next ==> p <= totalPages && (cur < totalPages ==> p == cur + 1)
    ensures req == Next && cur >= totalPages ==> p == totalPages
    ensures req == Number(1) ==> p == 1
    ensures req == Number(999) ==> p == totalPages
    ensures req.Number? && req.n != 1 && req.n != 999 ==> p == cur
  {
    match req
    case Prev => Max(1, cur - 1)
    case Next => Min(totalPages, cur + 1)
    case Number(n) => if n == 1 then 1 else if n == 999 then totalPages else cur
  }

  /** Starting from a page in [1, max(1, totalPages)], navigation stays in
      that range, except that 'next' and 'last' on an empty list give page 0. */
  lemma NavigateRange(cur: int, req: PageRequest, totalPages: nat)
    requires 1 <= cur <= Max(1, totalPages)
    ensures var p := Navigate(cur, req, totalPages);
      if totalPages == 0 && (req == Next || req == Number(999)) then p == 0
      else 1 <= p <= Max(1, totalPages)
  {
  }

  /** The flights rule: `totalPages = Math.max(1, ...)` and any other number
      is clamped into [1, totalPages]. */
  function NavigateClamped(cur: int, req: PageRequest, totalPages: pos): (p: int)
    ensures req != Prev ==> 1 <= p <= totalPages || (req == Next && cur < 0)
    ensures req == Prev ==> p >= 1 && (cur <= totalPages + 1 ==> p <= totalPages)
    ensures req.Number? && req.n != 999 && 1 <= req.n <= totalPages ==> p == req.n
    ensures req == Number(999) ==> p == totalPages
  {
    match req
    case Prev => Max(1, cur - 1)
    case Next => Min(totalPages, cur + 1)
    case Number(n) => if n == 999 then totalPages else Max(1, Min(totalPages, n))
  }

  /** 'prev' only steps back by one, so a page left beyond the last one
      (the list shrank on reload) stays out of range. */
  lemma PrevDoesNotReclamp()
    ensures NavigateClamped(5, Prev, 2) == 4
  {
  }

  // ---------------------------------------------------------------------------
  // Sort selector values such as "bookingDate-desc"
  // ---------------------------------------------------------------------------

  /** The text before the first '-'. */
  function UpToDash(s: string): (r: string)
    ensures '-' !in r
    ensures |r| <= |s| && r == s[..|r|]
    ensures |r| < |s| ==> s[|r|] == '-'
  {
    if |s| == 0 || s[0] == '-' then "" else [s[0]] + UpToDash(s[1..])
  }

  /** `const [field, order] = value.split('-')`, then `order === 'asc'`
      selects ascending and anything else descending. */
  function ParseSort(value: string): (r: (string, Direction))
    ensures r.0 == UpToDash(value)
  {
    var field := UpToDash(value);
    var order := if |field| < |value| then UpToDash(value[|field| + 1..]) else "";
    (field, if order == "asc" then Asc else Desc)
  }

  lemma UpToDashPrefix(field: string, rest: string)
    requires '-' !in field
    ensures UpToDash(field + "-" + rest) == field
  {
    if |field| > 0 {
      assert (field + "-" + rest)[1..] == field[1..] + "-" + rest;
      UpToDashPrefix(field[1..], rest);
    } else {
      assert (field + "-" + rest)[0] == '-';
    }
  }

  /** A selector value built as `<field>-asc` / `<field>-desc` parses back
      into its field and direction. */
  lemma ParseSortRoundTrip(field: string, dir: Direction)
    requires '-' !in field
    ensures ParseSort(field + (if dir == Asc then "-asc" else "-desc")) == (field, dir)
  {
    var order := if dir == Asc then "asc" else "desc";
    assert field + (if dir == Asc then "-asc" else "-desc") == field + "-" + order;
    ParseSortSplit(field, order);
  }

  /** A value made of a field and an order without dashes splits back into
      the two. */
  lemma ParseSortSplit(field: string, order: string)
    requires '-' !in field && '-' !in order
    ensures ParseSort(field + "-" + order) == (field, if order == "asc" then Asc else Desc)
  {
    var value := field + "-" + order;
    UpToDashPrefix(field, order);
    assert value[|field| + 1..] == order;
    UpToDashWhole(order);
  }

  lemma {:induction false} UpToDashWhole(s: string)
    requires '-' !in s
    ensures UpToDash(s) == s
  {
    if |s| > 0 {
      assert s[0] in s;
      UpToDashWhole(s[1..]);
    }
  }

  // ---------------------------------------------------------------------------
  // The pagination bar
  // ---------------------------------------------------------------------------

  /** `Trang <page> / <shown total>` and the enabled state of the buttons. */
  datatype Pager = Pager(page: int, shownTotal: nat, firstDisabled: bool, prevDisabled: bool,
                         nextDisabled: bool, lastDisabled: bool)

  /** What a table body shows. */
  datatype Display<T> = EmptyState | Rows(rows: seq<T>)
}
