/** The result pipeline of `Omnibox.search`: query every provider in order,
    stamp each provider's name on its first result, concatenate, sort stably
    by descending relevance and keep the first `maxResults`. */
module Aggregation {
  import opened Results
  import opened Providers

  // ---------------------------------------------------------------------
  // Collecting the providers' lists

  /** The category stamp: with categories on, a non-empty list from a
      provider whose name is non-empty gets that name as the category of its
      first element only. */
  function Stamp(rs: seq<Result>, name: string, categories: bool): (r: seq<Result>)
    ensures |r| == |rs|
    ensures forall i :: 1 <= i < |rs| ==> r[i] == rs[i]
    ensures |rs| > 0 && categories && name != "" ==> r[0] == rs[0].(category := Some(name))
    ensures !categories || name == "" ==> r == rs
  {
    if categories && |rs| > 0 && name != "" then [rs[0].(category := Some(name))] + rs[1..]
    else rs
  }

  /** What one provider adds to the collected list: nothing when it throws,
      its stamped list otherwise. */
  function Contribution(p: Provider, query: string, categories: bool): (r: seq<Result>)
    ensures GetResults(p, query).Threw? ==> r == []
    ensures GetResults(p, query).Returned? ==> |r| == |GetResults(p, query).results|
  {
    match GetResults(p, query)
    case Threw => []
    case Returned(rs) => Stamp(rs, p.Name(), categories)
  }

  /** The list built by the provider loop: every provider's contribution, in
      provider order. */
  function Collected(ps: seq<Provider>, query: string, categories: bool): (r: seq<Result>)
    ensures ps == [] ==> r == []
    ensures |ps| == 1 ==> r == Contribution(ps[0], query, categories)
  {
    if ps == [] then []
    else Collected(ps[..|ps| - 1], query, categories) + Contribution(ps[|ps| - 1], query, categories)
  }

  /** When every provider throws, the search collects nothing. */
  lemma {:induction false} AllThrowingCollectNothing(ps: seq<Provider>, query: string, categories: bool)
    requires forall i :: 0 <= i < |ps| ==> GetResults(ps[i], query).Threw?
    ensures Collected(ps, query, categories) == []
  {
    if ps != [] {
      var front := ps[..|ps| - 1];
      assert forall i :: 0 <= i < |front| ==> front[i] == ps[i];
      AllThrowingCollectNothing(front, query, categories);
    }
  }

  /** Collecting over two runs of providers concatenates their lists. */
  lemma {:induction false} CollectedAppend(a: seq<Provider>, b: seq<Provider>, query: string, categories: bool)
    ensures Collected(a + b, query, categories) == Collected(a, query, categories) + Collected(b, query, categories)
    decreases |b|
  {
    if b == [] {
      assert a + b == a;
    } else {
      var b' := b[..|b| - 1];
      var last := b[|b| - 1];
      assert b == b' + [last];
      assert a + b == (a + b') + [last];
      CollectedAppend(a, b', query, categories);
      CollectedSnoc(a + b', last, query, categories);
      CollectedSnoc(b', last, query, categories);
      Regroup(Collected(a + b, query, categories), Collected(a, query, categories), Collected(b', query, categories),
              Collected(b, query, categories), Contribution(last, query, categories));
    }
  }

  lemma Regroup(ab: seq<Result>, xa: seq<Result>, xb': seq<Result>, xb: seq<Result>, c: seq<Result>)
    requires ab == (xa + xb') + c && xb == xb' + c
    ensures ab == xa + xb
  {
  }

  /** One provider more adds its contribution at the end. */
  lemma CollectedSnoc(a: seq<Provider>, p: Provider, query: string, categories: bool)
    ensures Collected(a + [p], query, categories) == Collected(a, query, categories) + Contribution(p, query, categories)
  {
    assert (a + [p])[..|a + [p]| - 1] == a;
    assert (a + [p])[|a + [p]| - 1] == p;
  }

  /** One step of the provider loop. */
  lemma CollectedStep(ps: seq<Provider>, i: nat, query: string, categories: bool)
    requires i < |ps|
    ensures Collected(ps[..i + 1], query, categories) == Collected(ps[..i], query, categories) + Contribution(ps[i], query, categories)
  {
    assert ps[..i + 1] == ps[..i] + [ps[i]];
    CollectedSnoc(ps[..i], ps[i], query, categories);
  }

  /** A provider that throws contributes nothing and the providers after it
      are still collected. */
  lemma ThrowingProviderSkipped(a: seq<Provider>, p: Provider, b: seq<Provider>, query: string, categories: bool)
    requires GetResults(p, query).Threw?
    ensures Collected(a + [p] + b, query, categories) == Collected(a, query, categories) + Collected(b, query, categories)
  {
    CollectedAppend(a + [p], b, query, categories);
    CollectedSnoc(a, p, query, categories);
    assert Contribution(p, query, categories) == [];
  }

  /** A provider that returns a list contributes it whole, after everything
      collected before it, stamped: only its first element may differ, by
      its category. */
  lemma ReturningProviderContributes(a: seq<Provider>, p: Provider, b: seq<Provider>, query: string, categories: bool)
    returns (before: seq<Result>, all: seq<Result>)
    requires GetResults(p, query).Returned?
    ensures before == Collected(a, query, categories) && all == Collected(a + [p] + b, query, categories)
    ensures |before| + |GetResults(p, query).results| <= |all| && all[..|before|] == before
    ensures forall i :: 1 <= i < |GetResults(p, query).results| ==>
      all[|before| + i] == GetResults(p, query).results[i]
    ensures all[|before|..|before| + |GetResults(p, query).results|] ==
      Stamp(GetResults(p, query).results, p.Name(), categories)
  {
    before := Collected(a, query, categories);
    all := Collected(a + [p] + b, query, categories);
    CollectedAppend(a + [p], b, query, categories);
    CollectedSnoc(a, p, query, categories);
    var rs := GetResults(p, query).results;
    assert Contribution(p, query, categories) == Stamp(rs, p.Name(), categories);
    StampedBetween(all, before, Contribution(p, query, categories), Collected(b, query, categories), rs, p.Name(), categories);
  }

  /** A stamped list placed between two others keeps its elements at their
      offsets. */
  lemma StampedBetween(all: seq<Result>, before: seq<Result>, mid: seq<Result>, rest: seq<Result>,
                       rs: seq<Result>, name: string, categories: bool)
    requires all == before + mid + rest && mid == Stamp(rs, name, categories)
    ensures |before| + |rs| <= |all| && all[..|before|] == before
    ensures forall i :: 1 <= i < |rs| ==> all[|before| + i] == rs[i]
    ensures all[|before|..|before| + |rs|] == mid
  {
    assert all[..|before|] == before;
    assert all[|before|..|before| + |mid|] == mid;
    forall i | 0 <= i < |rs|
      ensures all[|before| + i] == mid[i]
    {
    }
  }

  // ---------------------------------------------------------------------
  // `Array.prototype.sort((a, b) => (b.relevance || 0) - (a.relevance || 0))`

  /** Non-increasing relevance. */
  predicate SortedDesc(s: seq<Result>)
  {
    forall i, j :: 0 <= i < j < |s| ==> Key(s[j]) <= Key(s[i])
  }

  /** The entries of `s` whose sort key is `k`, in their order in `s`. */
  function WithKey(s: seq<Result>, k: real): (w: seq<Result>)
  {
    if s == [] then [] else (if Key(s[0]) == k then [s[0]] else []) + WithKey(s[1..], k)
  }

  lemma {:induction false} WithKeyAppend(a: seq<Result>, b: seq<Result>, k: real)
    ensures WithKey(a + b, k) == WithKey(a, k) + WithKey(b, k)
  {
    if a != [] {
      assert (a + b)[1..] == a[1..] + b;
      WithKeyAppend(a[1..], b, k);
    } else {
      assert a + b == b;
    }
  }

  /** Insert `x` before the first entry whose key is not above its own. */
  function Insert(x: Result, t: seq<Result>): (r: seq<Result>)
    ensures |r| == |t| + 1
  {
    if t == [] then [x]
    else if Key(x) >= Key(t[0]) then [x] + t
    else [t[0]] + Insert(x, t[1..])
  }

  lemma {:induction false} InsertPermutes(x: Result, t: seq<Result>)
    ensures multiset(Insert(x, t)) == multiset(t) + multiset{x}
  {
    if t != [] && Key(x) < Key(t[0]) {
      InsertPermutes(x, t[1..]);
      assert t == [t[0]] + t[1..];
    }
  }

  lemma {:induction false} InsertSorted(x: Result, t: seq<Result>)
    requires SortedDesc(t)
    ensures SortedDesc(Insert(x, t))
  {
    if t != [] && Key(x) < Key(t[0]) {
      var rest := Insert(x, t[1..]);
      InsertSorted(x, t[1..]);
      InsertPermutes(x, t[1..]);
      forall j | 0 <= j < |rest|
        ensures Key(rest[j]) <= Key(t[0])
      {
        assert rest[j] in multiset(rest);
        if rest[j] != x {
          assert rest[j] in t[1..];
        }
      }
    }
  }

  lemma {:induction false} InsertStable(x: Result, t: seq<Result>, k: real)
    ensures WithKey(Insert(x, t), k) == WithKey([x] + t, k)
  {
    if t != [] && Key(x) < Key(t[0]) {
      var t' := t[1..];
      InsertStable(x, t', k);
      calc {
        WithKey(Insert(x, t), k);
        { WithKeyAppend([t[0]], Insert(x, t'), k); }
        WithKey([t[0]], k) + WithKey(Insert(x, t'), k);
        { WithKeyAppend([x], t', k); }
        WithKey([t[0]], k) + WithKey([x], k) + WithKey(t', k);
        WithKey([x], k) + WithKey([t[0]], k) + WithKey(t', k);
        { WithKeyAppend([t[0]], t', k); assert [t[0]] + t' == t; }
        WithKey([x], k) + WithKey(t, k);
        { WithKeyAppend([x], t, k); }
        WithKey([x] + t, k);
      }
    }
  }

  /** The stable descending sort: sorted, a permutation of its input, and
      for every key the entries with that key in their input order. */
  function SortByRelevance(s: seq<Result>): (r: seq<Result>)
    ensures SortedDesc(r)
    ensures multiset(r) == multiset(s)
    ensures |r| == |s|
    ensures forall k :: WithKey(r, k) == WithKey(s, k)
  {
    if s == [] then []
    else
      var t := SortByRelevance(s[1..]);
      InsertExtends(s, t);
      Insert(s[0], t)
  }

  /** Inserting the head into a stable sort of the tail gives a stable sort
      of the whole. */
  lemma InsertExtends(s: seq<Result>, t: seq<Result>)
    requires s != []
    requires SortedDesc(t) && multiset(t) == multiset(s[1..]) && |t| == |s| - 1
    requires forall k :: WithKey(t, k) == WithKey(s[1..], k)
    ensures SortedDesc(Insert(s[0], t)) && multiset(Insert(s[0], t)) == multiset(s) && |Insert(s[0], t)| == |s|
    ensures forall k :: WithKey(Insert(s[0], t), k) == WithKey(s, k)
  {
    InsertSorted(s[0], t);
    InsertPermutes(s[0], t);
    assert s == [s[0]] + s[1..];
    forall k
      ensures WithKey(Insert(s[0], t), k) == WithKey(s, k)
    {
      InsertStable(s[0], t, k);
      WithKeyAppend([s[0]], t, k);
      WithKeyAppend([s[0]], s[1..], k);
    }
  }

  /** A key that has entries in `s` is the key of one of its elements. */
  lemma {:induction false} WithKeyOccurs(s: seq<Result>, k: real)
    requires WithKey(s, k) != []
    ensures exists i :: 0 <= i < |s| && Key(s[i]) == k
  {
    if Key(s[0]) != k {
      WithKeyOccurs(s[1..], k);
      var i :| 0 <= i < |s[1..]| && Key(s[1..][i]) == k;
      assert Key(s[i + 1]) == k;
    }
  }

  /** The first entry of a sorted list has the largest key, so two sorted
      lists with the same entries per key start with the same key. */
  lemma HeadKeysAgree(r: seq<Result>, q: seq<Result>)
    requires SortedDesc(r) && SortedDesc(q) && r != [] && q != []
    requires WithKey(r, Key(q[0])) == WithKey(q, Key(q[0]))
    requires WithKey(r, Key(r[0])) == WithKey(q, Key(r[0]))
    ensures Key(r[0]) == Key(q[0])
  {
    assert WithKey(q, Key(q[0])) != [];
    WithKeyOccurs(r, Key(q[0]));
    assert WithKey(r, Key(r[0])) != [];
    WithKeyOccurs(q, Key(r[0]));
  }

  /** The head of a list is among the entries with its key. */
  lemma WithKeyHead(s: seq<Result>)
    ensures s != [] ==> WithKey(s, Key(s[0])) != []
  {
  }

  /** Dropping equal heads keeps the entries per key equal. */
  lemma TailClasses(r: seq<Result>, q: seq<Result>, k: real)
    requires r != [] && q != [] && Key(r[0]) == Key(q[0])
    requires WithKey(r, k) == WithKey(q, k)
    ensures WithKey(r[1..], k) == WithKey(q[1..], k)
    ensures k == Key(r[0]) ==> r[0] == q[0]
  {
    if k == Key(r[0]) {
      assert WithKey(r, k) == [r[0]] + WithKey(r[1..], k);
      assert WithKey(q, k) == [q[0]] + WithKey(q[1..], k);
      assert WithKey(r, k)[0] == r[0];
      assert WithKey(r, k)[1..] == WithKey(r[1..], k);
      assert WithKey(q, k)[1..] == WithKey(q[1..], k);
    } else {
      assert WithKey(r, k) == WithKey(r[1..], k);
      assert WithKey(q, k) == WithKey(q[1..], k);
    }
  }

  /** Two lists sorted by non-increasing relevance that hold, key by key,
      the same entries in the same order are the same list. */
  lemma {:induction false} SortedClassesDetermine(r: seq<Result>, q: seq<Result>)
    requires SortedDesc(r) && SortedDesc(q)
    requires forall k :: WithKey(r, k) == WithKey(q, k)
    ensures r == q
    decreases |r|
  {
    if r == [] && q == [] {
    } else if r == [] || q == [] {
      WithKeyHead(r);
      WithKeyHead(q);
      assert false;
    } else {
      HeadKeysAgree(r, q);
      TailClasses(r, q, Key(r[0]));
      forall k
        ensures WithKey(r[1..], k) == WithKey(q[1..], k)
      {
        TailClasses(r, q, k);
      }
      SortedClassesDetermine(r[1..], q[1..]);
      assert r == [r[0]] + r[1..] && q == [q[0]] + q[1..];
    }
  }

  /** Sortedness and stability pin the result down: any stable sort by
      descending relevance, such as the engine's `Array.prototype.sort`,
      returns exactly `SortByRelevance`. */
  lemma StableSortUnique(s: seq<Result>, r: seq<Result>)
    requires SortedDesc(r)
    requires forall k :: WithKey(r, k) == WithKey(s, k)
    ensures r == SortByRelevance(s)
  {
    SortedClassesDetermine(r, SortByRelevance(s));
  }

  /** A list already in order is left as it is. */
  lemma SortSortedIsIdentity(s: seq<Result>)
    requires SortedDesc(s)
    ensures SortByRelevance(s) == s
  {
    StableSortUnique(s, s);
  }

  // ---------------------------------------------------------------------
  // `slice(0, maxResults)` and the whole pass

  /** `s.slice(0, end)`: a negative `end` counts back from the end. */
  function Slice(s: seq<Result>, end: int): (r: seq<Result>)
    ensures r <= s
    ensures 0 <= end ==> |r| == if end < |s| then end else |s|
    ensures end < 0 ==> |r| == if |s| + end > 0 then |s| + end else 0
  {
    var stop := if end < 0 then (if |s| + end > 0 then |s| + end else 0)
                else if end < |s| then end else |s|;
    s[..stop]
  }

  /** `currentResults` at the end of `search`. */
  function Aggregate(ps: seq<Provider>, query: string, maxResults: int, categories: bool): (r: seq<Result>)
    ensures SortedDesc(r) && |r| <= |Collected(ps, query, categories)|
  {
    var sorted := SortByRelevance(Collected(ps, query, categories));
    PrefixOfSorted(sorted, Slice(sorted, maxResults), Collected(ps, query, categories));
    Slice(sorted, maxResults)
  }

  /** The results are sorted by non-increasing relevance, drawn from what the
      providers returned, and no more than `maxResults` of them nor more than
      were collected. */
  lemma AggregateShape(ps: seq<Provider>, query: string, maxResults: int, categories: bool)
    ensures var all := Collected(ps, query, categories);
            var r := Aggregate(ps, query, maxResults, categories);
            SortedDesc(r) && multiset(r) <= multiset(all) && |r| <= |all| &&
            (0 <= maxResults ==> |r| == if maxResults < |all| then maxResults else |all|)
  {
    var all := Collected(ps, query, categories);
    var sorted := SortByRelevance(all);
    PrefixOfSorted(sorted, Slice(sorted, maxResults), all);
  }

  /** A prefix of a sorted permutation of `all` is sorted and drawn from
      `all`. */
  lemma PrefixOfSorted(sorted: seq<Result>, r: seq<Result>, all: seq<Result>)
    requires SortedDesc(sorted) && multiset(sorted) == multiset(all) && |sorted| == |all| && r <= sorted
    ensures SortedDesc(r) && multiset(r) <= multiset(all) && |r| <= |all|
  {
    assert sorted == r + sorted[|r|..];
    assert multiset(sorted) == multiset(r) + multiset(sorted[|r|..]);
    forall i, j | 0 <= i < j < |r|
      ensures Key(r[j]) <= Key(r[i])
    {
      assert r[i] == sorted[i] && r[j] == sorted[j];
    }
  }

  lemma {:induction false} WithKeyPrefix(s: seq<Result>, n: nat, k: real)
    requires n <= |s|
    ensures WithKey(s[..n], k) <= WithKey(s, k)
  {
    assert s == s[..n] + s[n..];
    WithKeyAppend(s[..n], s[n..], k);
  }

  /** Stability: the results with any given relevance come in the order in
      which the providers produced them (a prefix of that order, once the
      list is cut at `maxResults`). */
  lemma AggregateStable(ps: seq<Provider>, query: string, maxResults: int, categories: bool, k: real)
    ensures WithKey(Aggregate(ps, query, maxResults, categories), k) <= WithKey(Collected(ps, query, categories), k)
  {
    var sorted := SortByRelevance(Collected(ps, query, categories));
    var r := Aggregate(ps, query, maxResults, categories);
    assert r == sorted[..|r|];
    WithKeyPrefix(sorted, |r|, k);
  }

  /** The cut drops only the least relevant: an entry that was collected but
      is not among the results is no more relevant than any result. */
  lemma AggregateKeepsBest(ps: seq<Provider>, query: string, maxResults: int, categories: bool, x: Result, i: nat)
    requires x in multiset(Collected(ps, query, categories)) - multiset(Aggregate(ps, query, maxResults, categories))
    requires i < |Aggregate(ps, query, maxResults, categories)|
    ensures Key(x) <= Key(Aggregate(ps, query, maxResults, categories)[i])
  {
    var sorted := SortByRelevance(Collected(ps, query, categories));
    CutKeepsBest(sorted, Slice(sorted, maxResults), x, i);
  }

  /** Whatever a prefix of a sorted list leaves out is no more relevant than
      what it keeps. */
  lemma CutKeepsBest(sorted: seq<Result>, r: seq<Result>, x: Result, i: nat)
    requires SortedDesc(sorted) && r <= sorted
    requires x in multiset(sorted) - multiset(r) && i < |r|
    ensures Key(x) <= Key(r[i])
  {
    var rest := sorted[|r|..];
    assert sorted == r + rest;
    assert multiset(sorted) == multiset(r) + multiset(rest);
    assert x in multiset(rest);
    var j :| 0 <= j < |rest| && rest[j] == x;
    assert sorted[|r| + j] == x && sorted[i] == r[i];
  }
}
