/**
 The single-key sort shared by every table and ranking.

 The console's comparators turn date fields into timestamps and compare with
 `>`/`<`.  The table comparators (`aVal > bVal ? 1 : -1`) never answer 0, so
 JavaScript leaves the order of equal keys to the engine; the model fixes it
 by using a stable insertion sort, and states its guarantees only for keys
 that are present.  A key that is absent (an Invalid Date, an `undefined`
 field, or for the users table any falsy value) is `Missing`; the model puts
 missing keys last in both directions, and no claim is made about them.
 */
module Sorting {
  import opened Common

  /** A field value as a comparator sees it. */
  datatype Key = Missing | Num(n: int) | Text(s: string)

  /** `...-asc` or `...-desc` in a sort selector value. */
  datatype Direction = Asc | Desc

  /** JavaScript's `<=` on two strings: lexicographic on characters. */
  predicate LexLe(a: string, b: string)
    decreases |a|
  {
    |a| == 0 || (|b| > 0 && (a[0] < b[0] || (a[0] == b[0] && LexLe(a[1..], b[1..]))))
  }

  lemma {:induction false} LexLeTotal(a: string, b: string)
    ensures LexLe(a, b) || LexLe(b, a)
    decreases |a|
  {
    if |a| > 0 && |b| > 0 && a[0] == b[0] {
      LexLeTotal(a[1..], b[1..]);
    }
  }

  lemma {:induction false} LexLeTrans(a: string, b: string, c: string)
    requires LexLe(a, b) && LexLe(b, c)
    ensures LexLe(a, c)
    decreases |a|
  {
    if |a| > 0 && |b| > 0 && |c| > 0 && a[0] == b[0] == c[0] {
      LexLeTrans(a[1..], b[1..], c[1..]);
    }
  }

  lemma {:induction false} LexLeAntisym(a: string, b: string)
    requires LexLe(a, b) && LexLe(b, a)
    ensures a == b
    decreases |a|
  {
    if |a| > 0 {
      LexLeAntisym(a[1..], b[1..]);
      assert a == [a[0]] + a[1..];
      assert b == [b[0]] + b[1..];
    }
  }

  /** The order of two present keys of one field: numbers (and timestamps)
      numerically, strings lexicographically.  A field never mixes the two;
      numbers are put first only to make the relation total. */
  predicate KeyLe(a: Key, b: Key)
  {
    match (a, b)
    case (_, Missing) => true
    case (Missing, _) => false
    case (Num(x), Num(y)) => x <= y
    case (Num(_), Text(_)) => true
    case (Text(_), Num(_)) => false
    case (Text(x), Text(y)) => LexLe(x, y)
  }

  /** `a` may be placed before `b` when sorting in direction `dir`. */
  predicate Before(dir: Direction, a: Key, b: Key)
  {
    if a.Missing? || b.Missing? then KeyLe(a, b)
    else if dir == Asc then KeyLe(a, b)
    else KeyLe(b, a)
  }

  lemma BeforeTotal(dir: Direction, a: Key, b: Key)
    ensures Before(dir, a, b) || Before(dir, b, a)
  {
    if a.Text? && b.Text? {
      LexLeTotal(a.s, b.s);
    }
  }

  lemma BeforeTrans(dir: Direction, a: Key, b: Key, c: Key)
    requires Before(dir, a, b) && Before(dir, b, c)
    ensures Before(dir, a, c)
  {
    if a.Text? && b.Text? && c.Text? {
      if dir == Asc {
        LexLeTrans(a.s, b.s, c.s);
      } else {
        LexLeTrans(c.s, b.s, a.s);
      }
    }
  }

  /** Every earlier element may precede every later one. */
  predicate SortedBy<T>(s: seq<T>, key: T -> Key, dir: Direction)
  {
    forall i, j :: 0 <= i < j < |s| ==> Before(dir, key(s[i]), key(s[j]))
  }

  /** Inserts `x` in front of the first element it may precede. */
  function Insert<T>(x: T, s: seq<T>, key: T -> Key, dir: Direction): (r: seq<T>)
    ensures multiset(r) == multiset(s) + multiset{x}
  {
    if |s| == 0 then [x]
    else if Before(dir, key(x), key(s[0])) then [x] + s
    else
      assert s == [s[0]] + s[1..];
      [s[0]] + Insert(x, s[1..], key, dir)
  }

  lemma {:induction false} InsertSorted<T>(x: T, s: seq<T>, key: T -> Key, dir: Direction)
    requires SortedBy(s, key, dir)
    ensures SortedBy(Insert(x, s, key, dir), key, dir)
  {
    if |s| == 0 {
    } else if Before(dir, key(x), key(s[0])) {
      forall j | 0 <= j < |s| ensures Before(dir, key(x), key(s[j])) {
        if j > 0 {
          BeforeTrans(dir, key(x), key(s[0]), key(s[j]));
        }
      }
      ConsSorted(x, s, key, dir);
    } else {
      var tail := s[1..];
      TailSorted(s, key, dir);
      InsertSorted(x, tail, key, dir);
      var rest := Insert(x, tail, key, dir);
      forall j | 0 <= j < |rest| ensures Before(dir, key(s[0]), key(rest[j])) {
        HeadPrecedesInserted(x, s, key, dir, rest[j]);
      }
      ConsSorted(s[0], rest, key, dir);
    }
  }

  /** A sorted sequence stays sorted under an element that may precede all
      of it. */
  lemma ConsSorted<T>(h: T, s: seq<T>, key: T -> Key, dir: Direction)
    requires SortedBy(s, key, dir)
    requires forall j :: 0 <= j < |s| ==> Before(dir, key(h), key(s[j]))
    ensures SortedBy([h] + s, key, dir)
  {
    var r := [h] + s;
    forall i, j | 0 <= i < j < |r| ensures Before(dir, key(r[i]), key(r[j])) {
      if i == 0 {
        assert r[j] == s[j - 1];
      } else {
        assert r[i] == s[i - 1] && r[j] == s[j - 1];
      }
    }
  }

  lemma TailSorted<T>(s: seq<T>, key: T -> Key, dir: Direction)
    requires SortedBy(s, key, dir) && |s| > 0
    ensures SortedBy(s[1..], key, dir)
  {
    var tail := s[1..];
    forall i, j | 0 <= i < j < |tail| ensures Before(dir, key(tail[i]), key(tail[j])) {
      assert tail[i] == s[i + 1] && tail[j] == s[j + 1];
    }
  }

  /** When `x` does not go in front of a sorted `s`, the head of `s` may
      precede every element of the tail with `x` inserted. */
  lemma HeadPrecedesInserted<T>(x: T, s: seq<T>, key: T -> Key, dir: Direction, y: T)
    requires SortedBy(s, key, dir) && |s| > 0 && !Before(dir, key(x), key(s[0]))
    requires y in Insert(x, s[1..], key, dir)
    ensures Before(dir, key(s[0]), key(y))
  {
    assert y in multiset(Insert(x, s[1..], key, dir));
    if y == x {
      BeforeTotal(dir, key(x), key(s[0]));
    } else {
      assert y in multiset(s[1..]);
      var k :| 0 <= k < |s[1..]| && s[1..][k] == y;
      assert s[k + 1] == y;
    }
  }

  /** Stable insertion sort: the result is a permutation of the input in
      which every element may precede every later one. */
  function SortBy<T>(s: seq<T>, key: T -> Key, dir: Direction): (r: seq<T>)
    ensures multiset(r) == multiset(s)
    ensures |r| == |s|
    ensures SortedBy(r, key, dir)
  {
    if |s| == 0 then []
    else
      assert s == [s[0]] + s[1..];
      var rest := SortBy(s[1..], key, dir);
      InsertSorted(s[0], rest, key, dir);
      Insert(s[0], rest, key, dir)
  }

  /** Two distinct present keys in a sorted sequence appear in strictly
      ascending order (Asc) or strictly descending order (Desc). */
  lemma SortedPresentKeys<T>(s: seq<T>, key: T -> Key, dir: Direction, i: int, j: int)
    requires SortedBy(s, key, dir)
    requires 0 <= i < j < |s|
    requires !key(s[i]).Missing? && !key(s[j]).Missing? && key(s[i]) != key(s[j])
    ensures dir == Asc ==> KeyLe(key(s[i]), key(s[j])) && !KeyLe(key(s[j]), key(s[i]))
    ensures dir == Desc ==> KeyLe(key(s[j]), key(s[i])) && !KeyLe(key(s[i]), key(s[j]))
  {
    var a, b := key(s[i]), key(s[j]);
    assert Before(dir, a, b);
    if a.Text? && b.Text? {
      if LexLe(a.s, b.s) && LexLe(b.s, a.s) {
        LexLeAntisym(a.s, b.s);
      }
    }
  }

  /** The key of a numeric metric. */
  function NumKey<T>(metric: T -> int): T -> Key
  {
    x => Num(metric(x))
  }

  /** On numeric keys the sort yields a monotone sequence of numbers. */
  lemma SortedNumbers<T>(s: seq<T>, f: T -> int, dir: Direction, i: int, j: int)
    requires SortedBy(s, NumKey(f), dir)
    requires 0 <= i < j < |s|
    ensures dir == Asc ==> f(s[i]) <= f(s[j])
    ensures dir == Desc ==> f(s[i]) >= f(s[j])
  {
    assert Before(dir, NumKey(f)(s[i]), NumKey(f)(s[j]));
  }

  /** Splitting a sorted sequence: everything in the prefix may precede
      everything in the suffix. */
  lemma SortedSplit<T>(s: seq<T>, metric: T -> int, k: nat, x: T, y: T)
    requires SortedBy(s, NumKey(metric), Desc) && k <= |s|
    requires x in s[..k] && y in s[k..]
    ensures metric(y) <= metric(x)
  {
    var i :| 0 <= i < k && s[..k][i] == x;
    var j :| 0 <= j < |s| - k && s[k..][j] == y;
    assert s[i] == x && s[k + j] == y;
    SortedNumbers(s, metric, Desc, i, k + j);
  }

  /** The first `n` elements of a sequence sorted on a numeric metric in
      descending order: at most `n` of them, and the metric does not
      increase (`TopNLeavesNoBetter` adds that nothing left behind beats
      anything kept). */
  function TopN<T>(s: seq<T>, metric: T -> int, n: nat): (r: seq<T>)
    ensures |r| == Min(n, |s|)
    ensures multiset(r) <= multiset(s)
    ensures forall i, j :: 0 <= i < j < |r| ==> metric(r[i]) >= metric(r[j])
  {
    var sorted := SortBy(s, NumKey(metric), Desc);
    var k := Min(n, |s|);
    TopNFacts(sorted, metric, k);
    assert multiset(sorted[..k]) <= multiset(s);
    sorted[..k]
  }

  /** Every element kept comes from the input. */
  lemma TopNFrom<T>(s: seq<T>, metric: T -> int, n: nat, i: nat)
    requires i < |TopN(s, metric, n)|
    ensures TopN(s, metric, n)[i] in s
  {
    var sorted := SortBy(s, NumKey(metric), Desc);
    assert TopN(s, metric, n)[i] == sorted[i];
    assert sorted[i] in multiset(s);
  }

  /** An element left out of the top `n` does not beat any element kept. */
  lemma TopNLeavesNoBetter<T>(s: seq<T>, metric: T -> int, n: nat, x: T, y: T)
    requires x in TopN(s, metric, n)
    requires y in s && y !in TopN(s, metric, n)
    ensures metric(y) <= metric(x)
  {
    var sorted := SortBy(s, NumKey(metric), Desc);
    var k := Min(n, |s|);
    TopNFacts(sorted, metric, k);
    assert multiset(sorted)[y] > 0 by {
      assert y in multiset(s);
    }
    assert multiset(sorted[..k])[y] == 0;
    assert y in multiset(sorted[k..]);
  }

  lemma TopNFacts<T>(sorted: seq<T>, metric: T -> int, k: nat)
    requires SortedBy(sorted, NumKey(metric), Desc) && k <= |sorted|
    ensures multiset(sorted) - multiset(sorted[..k]) == multiset(sorted[k..])
    ensures multiset(sorted[..k]) <= multiset(sorted)
    ensures forall i, j :: 0 <= i < j < k ==> metric(sorted[..k][i]) >= metric(sorted[..k][j])
    ensures forall x, y :: x in sorted[..k] && y in multiset(sorted[k..]) ==> metric(y) <= metric(x)
  {
    assert sorted == sorted[..k] + sorted[k..];
    forall i, j | 0 <= i < j < k ensures metric(sorted[..k][i]) >= metric(sorted[..k][j]) {
      SortedNumbers(sorted, metric, Desc, i, j);
    }
    forall x, y | x in sorted[..k] && y in multiset(sorted[k..]) ensures metric(y) <= metric(x) {
      SortedSplit(sorted, metric, k, x, y);
    }
  }

  /** Strictly ascending numbers. */
  predicate Increasing(s: seq<int>)
  {
    forall i, j :: 0 <= i < j < |s| ==> s[i] < s[j]
  }

  function InsertUnique(x: int, s: seq<int>): (r: seq<int>)
    requires Increasing(s)
    ensures Increasing(r)
    ensures forall y :: y in r <==> y == x || y in s
  {
    if |s| == 0 then [x]
    else if x < s[0] then [x] + s
    else if x == s[0] then s
    else
      var rest := InsertUnique(x, s[1..]);
      assert forall y :: y in s <==> y == s[0] || y in s[1..];
      AboveHead(s, x, rest);
      [s[0]] + rest
  }

  /** Whatever is built from `x` and the tail of an increasing list lies
      above its head when `x` does. */
  lemma AboveHead(s: seq<int>, x: int, rest: seq<int>)
    requires Increasing(s) && |s| > 0 && s[0] < x
    requires forall y :: y in rest ==> y == x || y in s[1..]
    ensures forall k :: 0 <= k < |rest| ==> s[0] < rest[k]
  {
    forall k | 0 <= k < |rest| ensures s[0] < rest[k] {
      if rest[k] != x {
        assert rest[k] in s[1..];
        var m :| 0 <= m < |s[1..]| && s[1..][m] == rest[k];
        assert s[m + 1] == rest[k];
      }
    }
  }

  /** The distinct keys of a grouping in ascending order, as the screens
      sort `Object.keys(groups)`. */
  function SortedKeys(ks: seq<int>): (r: seq<int>)
    ensures Increasing(r)
    ensures forall y :: y in r <==> y in ks
  {
    if |ks| == 0 then []
    else
      assert forall y :: y in ks <==> y in ks[..|ks| - 1] || y == ks[|ks| - 1] by {
        assert ks == ks[..|ks| - 1] + [ks[|ks| - 1]];
      }
      InsertUnique(ks[|ks| - 1], SortedKeys(ks[..|ks| - 1]))
  }
}
