/**
 Grouping records by a key, as the console does with a plain object used as
 a dictionary (`groups[key] = groups[key] || {...}`): one group per distinct
 key, groups in order of the key's first appearance, and each group's
 members in input order. The counters, totals and distinct-id sets the
 screens keep per group are functions of the members.
 */
module Grouping {
  import opened Common
  import opened View

  /** Distinct elements in order of first appearance (`[...new Set(s)]`). */
  function Dedup<K(==)>(s: seq<K>): (r: seq<K>)
    ensures forall i :: 0 <= i < |s| ==> s[i] in r
    ensures forall k :: 0 <= k < |r| ==> r[k] in s
    ensures forall i, j :: 0 <= i < j < |r| ==> r[i] != r[j]
    ensures |r| <= |s|
    ensures |s| > 0 ==> |r| > 0 && r[0] == s[0]
    decreases |s|
  {
    if |s| == 0 then []
    else
      var init := s[..|s| - 1];
      var last := s[|s| - 1];
      var d := Dedup(init);
      assert |init| > 0 ==> init[0] == s[0];
      if last in d then d else d + [last]
  }

  /** A sequence of one repeated value deduplicates to that value alone. */
  lemma {:induction false} DedupConstant<K>(s: seq<K>, k: K)
    requires |s| > 0
    requires forall i :: 0 <= i < |s| ==> s[i] == k
    ensures Dedup(s) == [k]
    decreases |s|
  {
    if |s| > 1 {
      DedupConstant(s[..|s| - 1], k);
    }
  }

  function Project<T, K>(s: seq<T>, key: T -> K): (r: seq<K>)
    ensures |r| == |s|
    ensures forall i :: 0 <= i < |s| ==> r[i] == key(s[i])
  {
    seq(|s|, i requires 0 <= i < |s| => key(s[i]))
  }

  /** One group: its key and its members in input order. */
  datatype Group<K, T> = Group(key: K, members: seq<T>)

  function KeyIs<T, K(==)>(key: T -> K, k: K): T -> bool
  {
    x => key(x) == k
  }

  function Keys<K, T>(gs: seq<Group<K, T>>): (r: seq<K>)
    ensures |r| == |gs|
    ensures forall i :: 0 <= i < |gs| ==> r[i] == gs[i].key
  {
    Project(gs, (g: Group<K, T>) => g.key)
  }

  /** Index of the group with key `k`, or `|gs|` when there is none. */
  function FindGroup<K(==), T>(gs: seq<Group<K, T>>, k: K): (i: nat)
    ensures i <= |gs|
    ensures i < |gs| ==> gs[i].key == k
    ensures i == |gs| <==> k !in Keys(gs)
  {
    if |gs| == 0 then 0
    else if gs[0].key == k then 0
    else
      var j := FindGroup(gs[1..], k);
      KeysCons(gs, k);
      assert j < |gs| - 1 ==> gs[1 + j] == gs[1..][j];
      1 + j
  }

  lemma KeysCons<K, T>(gs: seq<Group<K, T>>, k: K)
    requires |gs| > 0
    ensures k in Keys(gs) <==> gs[0].key == k || k in Keys(gs[1..])
  {
    assert Keys(gs) == [gs[0].key] + Keys(gs[1..]);
  }

  /** Adds `x` to the group of its key, opening a new group at the end
      when the key has not been seen. */
  function AddToGroup<T, K(==)>(gs: seq<Group<K, T>>, x: T, key: T -> K): seq<Group<K, T>>
  {
    var i := FindGroup(gs, key(x));
    if i < |gs| then gs[i := gs[i].(members := gs[i].members + [x])]
    else gs + [Group(key(x), [x])]
  }

  /** `gs` is the grouping of `s`: each group holds exactly the records of
      its key, and the keys are the distinct keys in order of appearance. */
  ghost predicate GroupsOf<T, K>(s: seq<T>, key: T -> K, gs: seq<Group<K, T>>)
  {
    && (forall i :: 0 <= i < |gs| ==> gs[i].members == Filter(s, KeyIs(key, gs[i].key)))
    && Keys(gs) == Dedup(Project(s, key))
  }

  /** Folds the records into groups one at a time, in input order. */
  function Grouping<T, K(==)>(s: seq<T>, key: T -> K): seq<Group<K, T>>
    decreases |s|
  {
    if |s| == 0 then [] else AddToGroup(Grouping(s[..|s| - 1], key), s[|s| - 1], key)
  }

  lemma {:induction false} GroupingIsGroupsOf<T, K>(s: seq<T>, key: T -> K)
    ensures GroupsOf(s, key, Grouping(s, key))
    decreases |s|
  {
    if |s| > 0 {
      var init := s[..|s| - 1];
      assert s == init + [s[|s| - 1]];
      GroupingIsGroupsOf(init, key);
      GroupByStep(init, s[|s| - 1], key, Grouping(init, key));
    }
  }

  /** Every group holds exactly the input records of its key, no two groups
      share a key, every record has a group, and the keys come in order of
      first appearance. */
  function GroupBy<T, K(==)>(s: seq<T>, key: T -> K): (gs: seq<Group<K, T>>)
    ensures forall i :: 0 <= i < |gs| ==> gs[i].members == Filter(s, KeyIs(key, gs[i].key))
    ensures Keys(gs) == Dedup(Project(s, key))
    ensures forall i, j :: 0 <= i < j < |gs| ==> gs[i].key != gs[j].key
    ensures forall n :: 0 <= n < |s| ==> key(s[n]) in Keys(gs)
  {
    GroupingIsGroupsOf(s, key);
    GroupsOfFacts(s, key, Grouping(s, key));
    Grouping(s, key)
  }

  /** What a grouping implies about its keys. */
  lemma GroupsOfFacts<T, K>(s: seq<T>, key: T -> K, gs: seq<Group<K, T>>)
    requires GroupsOf(s, key, gs)
    ensures forall i, j :: 0 <= i < j < |gs| ==> gs[i].key != gs[j].key
    ensures forall n :: 0 <= n < |s| ==> key(s[n]) in Keys(gs)
  {
    KeysDistinct(gs, Project(s, key));
    forall n | 0 <= n < |s| ensures key(s[n]) in Keys(gs) {
      assert Project(s, key)[n] == key(s[n]);
    }
  }

  lemma DedupSnoc<K>(init: seq<K>, last: K)
    ensures Dedup(init + [last]) == if last in Dedup(init) then Dedup(init) else Dedup(init) + [last]
  {
    assert (init + [last])[..|init|] == init;
  }

  lemma ProjectSnoc<T, K>(init: seq<T>, last: T, key: T -> K)
    ensures Project(init + [last], key) == Project(init, key) + [key(last)]
  {
  }

  lemma GroupByStep<T, K>(init: seq<T>, last: T, key: T -> K, gs: seq<Group<K, T>>)
    requires GroupsOf(init, key, gs)
    ensures GroupsOf(init + [last], key, AddToGroup(gs, last, key))
  {
    var f := FindGroup(gs, key(last));
    if f < |gs| {
      StepExisting(init, last, key, gs, f);
    } else {
      StepNew(init, last, key, gs);
    }
  }

  /** Appending a record extends the members of its own key only. */
  lemma MemberStep<T, K>(init: seq<T>, last: T, key: T -> K, members: seq<T>, k: K)
    requires members == Filter(init, KeyIs(key, k))
    ensures (if key(last) == k then members + [last] else members) == Filter(init + [last], KeyIs(key, k))
  {
    FilterSnoc(init, last, KeyIs(key, k));
  }

  lemma StepExisting<T, K>(init: seq<T>, last: T, key: T -> K, gs: seq<Group<K, T>>, f: nat)
    requires GroupsOf(init, key, gs)
    requires f == FindGroup(gs, key(last)) < |gs|
    ensures GroupsOf(init + [last], key, AddToGroup(gs, last, key))
  {
    var r := gs[f := gs[f].(members := gs[f].members + [last])];
    assert AddToGroup(gs, last, key) == r;
    KeysDistinct(gs, Project(init, key));
    ExistingKeys(init, last, key, gs, f);
    ExistingMembers(init, last, key, gs, f);
  }

  lemma KeysDistinct<K, T>(gs: seq<Group<K, T>>, s: seq<K>)
    requires Keys(gs) == Dedup(s)
    ensures forall i, j :: 0 <= i < j < |gs| ==> gs[i].key != gs[j].key
  {
    forall i, j | 0 <= i < j < |gs| ensures gs[i].key != gs[j].key {
      assert Keys(gs)[i] == gs[i].key && Keys(gs)[j] == gs[j].key;
    }
  }

  lemma ExistingKeys<T, K>(init: seq<T>, last: T, key: T -> K, gs: seq<Group<K, T>>, f: nat)
    requires Keys(gs) == Dedup(Project(init, key))
    requires f < |gs| && gs[f].key == key(last)
    ensures Keys(gs[f := gs[f].(members := gs[f].members + [last])]) == Dedup(Project(init + [last], key))
  {
    var k := key(last);
    assert k in Keys(gs) by {
      assert Keys(gs)[f] == k;
    }
    assert Dedup(Project(init + [last], key)) == Dedup(Project(init, key)) by {
      ProjectSnoc(init, last, key);
      DedupSnoc(Project(init, key), k);
    }
    KeysUpdate(gs, f, gs[f].(members := gs[f].members + [last]));
  }

  lemma KeysUpdate<K, T>(gs: seq<Group<K, T>>, f: nat, g: Group<K, T>)
    requires f < |gs| && g.key == gs[f].key
    ensures Keys(gs[f := g]) == Keys(gs)
  {
    assert forall i :: 0 <= i < |gs| ==> Keys(gs[f := g])[i] == Keys(gs)[i];
  }

  lemma ExistingMembers<T, K>(init: seq<T>, last: T, key: T -> K, gs: seq<Group<K, T>>, f: nat)
    requires forall i :: 0 <= i < |gs| ==> gs[i].members == Filter(init, KeyIs(key, gs[i].key))
    requires forall i, j :: 0 <= i < j < |gs| ==> gs[i].key != gs[j].key
    requires f < |gs| && gs[f].key == key(last)
    ensures var r := gs[f := gs[f].(members := gs[f].members + [last])];
      forall i :: 0 <= i < |r| ==> r[i].members == Filter(init + [last], KeyIs(key, r[i].key))
  {
    var r := gs[f := gs[f].(members := gs[f].members + [last])];
    forall i | 0 <= i < |r| ensures r[i].members == Filter(init + [last], KeyIs(key, r[i].key)) {
      assert i != f ==> gs[i].key != gs[f].key;
      MemberStep(init, last, key, gs[i].members, gs[i].key);
      assert r[i] == (if i == f then gs[f].(members := gs[f].members + [last]) else gs[i]);
    }
  }

  lemma StepNew<T, K>(init: seq<T>, last: T, key: T -> K, gs: seq<Group<K, T>>)
    requires GroupsOf(init, key, gs)
    requires FindGroup(gs, key(last)) == |gs|
    ensures GroupsOf(init + [last], key, AddToGroup(gs, last, key))
  {
    var r := gs + [Group(key(last), [last])];
    assert AddToGroup(gs, last, key) == r;
    NewKeys(init, last, key, gs);
    NoMember(init, key, key(last));
    NewMembers(init, last, key, gs);
  }

  lemma NewKeys<T, K>(init: seq<T>, last: T, key: T -> K, gs: seq<Group<K, T>>)
    requires Keys(gs) == Dedup(Project(init, key))
    requires key(last) !in Keys(gs)
    ensures Keys(gs + [Group(key(last), [last])]) == Dedup(Project(init + [last], key))
  {
    var k := key(last);
    assert Dedup(Project(init + [last], key)) == Dedup(Project(init, key)) + [k] by {
      ProjectSnoc(init, last, key);
      DedupSnoc(Project(init, key), k);
    }
    KeysSnoc(gs, Group(k, [last]));
  }

  lemma KeysSnoc<K, T>(gs: seq<Group<K, T>>, g: Group<K, T>)
    ensures Keys(gs + [g]) == Keys(gs) + [g.key]
  {
  }

  lemma NewMembers<T, K>(init: seq<T>, last: T, key: T -> K, gs: seq<Group<K, T>>)
    requires forall i :: 0 <= i < |gs| ==> gs[i].members == Filter(init, KeyIs(key, gs[i].key))
    requires forall i :: 0 <= i < |gs| ==> gs[i].key != key(last)
    requires Filter(init, KeyIs(key, key(last))) == []
    ensures var r := gs + [Group(key(last), [last])];
      forall i :: 0 <= i < |r| ==> r[i].members == Filter(init + [last], KeyIs(key, r[i].key))
  {
    var r := gs + [Group(key(last), [last])];
    forall i | 0 <= i < |r| ensures r[i].members == Filter(init + [last], KeyIs(key, r[i].key)) {
      if i < |gs| {
        assert r[i] == gs[i];
        MemberStep(init, last, key, gs[i].members, gs[i].key);
      } else {
        assert r[i] == Group(key(last), [last]);
        MemberStep(init, last, key, [], key(last));
      }
    }
  }

  /** A key that does not occur among the records selects none of them. */
  lemma {:induction false} NoMember<T, K>(init: seq<T>, key: T -> K, k: K)
    requires k !in Dedup(Project(init, key))
    ensures Filter(init, KeyIs(key, k)) == []
    decreases |init|
  {
    if |init| > 0 {
      var front, last := init[..|init| - 1], init[|init| - 1];
      assert init == front + [last];
      ProjectSnoc(front, last, key);
      DedupSnoc(Project(front, key), key(last));
      assert Project(init, key)[|init| - 1] == key(last);
      NoMember(front, key, k);
      FilterSnoc(front, last, KeyIs(key, k));
    }
  }

  /** No group is empty: its key was taken from one of the records. */
  lemma GroupNonEmpty<T, K>(s: seq<T>, key: T -> K, i: nat)
    requires i < |GroupBy(s, key)|
    ensures |GroupBy(s, key)[i].members| > 0
  {
    var gs := GroupBy(s, key);
    var k := gs[i].key;
    assert Keys(gs)[i] == k;
    var n :| 0 <= n < |s| && Project(s, key)[n] == k;
    assert s[n] in Filter(s, KeyIs(key, k));
  }

  /** Number of records over all groups. */
  function TotalSize<K, T>(gs: seq<Group<K, T>>): nat
  {
    if |gs| == 0 then 0 else TotalSize(gs[..|gs| - 1]) + |gs[|gs| - 1].members|
  }

  lemma {:induction false} TotalSizeUpdate<K, T>(gs: seq<Group<K, T>>, i: nat, g: Group<K, T>)
    requires i < |gs|
    ensures TotalSize(gs[i := g]) + |gs[i].members| == TotalSize(gs) + |g.members|
    decreases |gs|
  {
    var r := gs[i := g];
    assert r[..|r| - 1] == if i < |gs| - 1 then gs[..|gs| - 1][i := g] else gs[..|gs| - 1];
    if i < |gs| - 1 {
      TotalSizeUpdate(gs[..|gs| - 1], i, g);
    }
  }

  /** Grouping loses and duplicates nothing: the group sizes add up to the
      number of records. */
  lemma GroupSizesSum<T, K>(s: seq<T>, key: T -> K)
    ensures TotalSize(GroupBy(s, key)) == |s|
  {
    GroupingSizes(s, key);
  }

  lemma {:induction false} GroupingSizes<T, K>(s: seq<T>, key: T -> K)
    ensures TotalSize(Grouping(s, key)) == |s|
    decreases |s|
  {
    if |s| > 0 {
      GroupingSizes(s[..|s| - 1], key);
      AddToGroupSize(Grouping(s[..|s| - 1], key), s[|s| - 1], key);
    }
  }

  /** Adding a record to a grouping adds one to the total size. */
  lemma AddToGroupSize<T, K>(gs: seq<Group<K, T>>, x: T, key: T -> K)
    ensures TotalSize(AddToGroup(gs, x, key)) == TotalSize(gs) + 1
  {
    var f := FindGroup(gs, key(x));
    if f < |gs| {
      TotalSizeUpdate(gs, f, gs[f].(members := gs[f].members + [x]));
    } else {
      var r := gs + [Group(key(x), [x])];
      assert r[..|r| - 1] == gs;
    }
  }

  /** The size of each group, in group order. */
  function Sizes<K, T>(gs: seq<Group<K, T>>): (r: seq<int>)
    ensures |r| == |gs|
    ensures forall i :: 0 <= i < |gs| ==> r[i] == |gs[i].members|
  {
    seq(|gs|, i requires 0 <= i < |gs| => |gs[i].members|)
  }

  function Sum(s: seq<int>): int
  {
    if |s| == 0 then 0 else Sum(s[..|s| - 1]) + s[|s| - 1]
  }

  lemma {:induction false} SumSizes<K, T>(gs: seq<Group<K, T>>)
    ensures Sum(Sizes(gs)) == TotalSize(gs)
    decreases |gs|
  {
    if |gs| > 0 {
      assert Sizes(gs)[..|gs| - 1] == Sizes(gs[..|gs| - 1]);
      SumSizes(gs[..|gs| - 1]);
    }
  }

  /** A group's size is how often its key occurs among the records. */
  lemma {:induction false} FilterCountsKey<T, K>(s: seq<T>, key: T -> K, k: K)
    ensures |Filter(s, KeyIs(key, k))| == multiset(Project(s, key))[k]
    decreases |s|
  {
    if |s| > 0 {
      var init := s[..|s| - 1];
      FilterCountsKey(init, key, k);
      assert Project(s, key) == Project(init, key) + [key(s[|s| - 1])];
    }
  }

  /** The count per distinct key, in order of first appearance. */
  datatype Count<K> = Count(key: K, count: nat)

  function CountKeys<K>(cs: seq<Count<K>>): (r: seq<K>)
    ensures |r| == |cs|
    ensures forall i :: 0 <= i < |cs| ==> r[i] == cs[i].key
  {
    Project(cs, (c: Count<K>) => c.key)
  }

  function CountValues<K>(cs: seq<Count<K>>): (r: seq<int>)
    ensures |r| == |cs|
    ensures forall i :: 0 <= i < |cs| ==> r[i] == cs[i].count
  {
    seq(|cs|, i requires 0 <= i < |cs| => cs[i].count)
  }

  function Self<K>(): K -> K
  {
    x => x
  }

  /** `counts[k] = (counts[k] || 0) + 1` over all keys: one entry per
      distinct key in order of first appearance, holding its number of
      occurrences, the counts adding up to the number of keys. */
  function CountBy<K(==)>(keys: seq<K>): (cs: seq<Count<K>>)
    ensures CountKeys(cs) == Dedup(keys)
    ensures forall i :: 0 <= i < |cs| ==> cs[i].count == multiset(keys)[cs[i].key]
    ensures Sum(CountValues(cs)) == |keys|
  {
    var gs := GroupBy(keys, Self());
    CountByFacts(keys, gs);
    Counts(gs)
  }

  function Counts<K>(gs: seq<Group<K, K>>): (cs: seq<Count<K>>)
    ensures |cs| == |gs|
    ensures forall i :: 0 <= i < |gs| ==> cs[i] == Count(gs[i].key, |gs[i].members|)
  {
    seq(|gs|, i requires 0 <= i < |gs| => Count(gs[i].key, |gs[i].members|))
  }

  lemma CountByFacts<K>(keys: seq<K>, gs: seq<Group<K, K>>)
    requires gs == GroupBy(keys, Self())
    ensures CountKeys(Counts(gs)) == Dedup(keys)
    ensures forall i :: 0 <= i < |gs| ==> Counts(gs)[i].count == multiset(keys)[Counts(gs)[i].key]
    ensures Sum(CountValues(Counts(gs))) == |keys|
  {
    CountKeysFact(keys, gs);
    CountValuesFact(keys, gs);
    CountSumFact(keys, gs);
  }

  lemma CountKeysFact<K>(keys: seq<K>, gs: seq<Group<K, K>>)
    requires gs == GroupBy(keys, Self())
    ensures CountKeys(Counts(gs)) == Dedup(keys)
  {
    assert Project(keys, Self()) == keys;
    assert CountKeys(Counts(gs)) == Keys(gs);
  }

  lemma CountValuesFact<K>(keys: seq<K>, gs: seq<Group<K, K>>)
    requires gs == GroupBy(keys, Self())
    ensures forall i :: 0 <= i < |gs| ==> Counts(gs)[i].count == multiset(keys)[Counts(gs)[i].key]
  {
    assert Project(keys, Self()) == keys;
    forall i | 0 <= i < |gs| ensures Counts(gs)[i].count == multiset(keys)[Counts(gs)[i].key] {
      FilterCountsKey(keys, Self(), gs[i].key);
    }
  }

  lemma CountSumFact<K>(keys: seq<K>, gs: seq<Group<K, K>>)
    requires gs == GroupBy(keys, Self())
    ensures Sum(CountValues(Counts(gs))) == |keys|
  {
    GroupSizesSum(keys, Self());
    SumSizes(gs);
    assert CountValues(Counts(gs)) == Sizes(gs);
  }
}
