/** Result providers: the base `ResultProvider`, which contributes nothing,
    the `NavigationProvider` and `CommandProvider` that filter and score a
    static list, and any other provider, known only by its name and its
    reply to a query. */
module Providers {
  import opened Text
  import opened Results

  /** What awaiting `provider.getResults(query)` gives: a list, or an
      exception. */
  datatype Outcome = Threw | Returned(results: seq<Result>)

  datatype Provider =
    | Base(baseName: string)
    | Navigation(routes: seq<Result>)
    | Commands(commands: seq<Result>)
    | External(externalName: string, reply: string -> Outcome)
  {
    /** `provider.name`. */
    function Name(): (n: string)
      ensures Navigation? ==> n == "Navigation"
      ensures Commands? ==> n == "Commands"
      ensures Base? ==> n == baseName
      ensures External? ==> n == externalName
    {
      match this
      case Base(n) => n
      case Navigation(_) => "Navigation"
      case Commands(_) => "Commands"
      case External(n, _) => n
    }
  }

  /** `provider.getResults(query)`. */
  function GetResults(p: Provider, query: string): (o: Outcome)
    ensures p.Base? ==> o == Returned([])
    ensures p.Navigation? ==> o == Returned(NavigationResults(p.routes, query))
    ensures p.Commands? ==> o == Returned(CommandResults(p.commands, query))
    ensures !p.External? ==> o.Returned?
  {
    match p
    case Base(_) => Returned([])
    case Navigation(routes) => Returned(NavigationResults(routes, query))
    case Commands(commands) => Returned(CommandResults(commands, query))
    case External(_, reply) => reply(query)
  }

  /** `{...item, relevance: v}`. */
  function Rescored(item: Result, v: real): (r: Result)
    ensures Key(r) == v
    ensures r.(relevance := item.relevance) == item
  {
    item.(relevance := Some(v))
  }

  /** `items.map(item => ({...item, relevance: v}))`. */
  function WithRelevance(items: seq<Result>, v: real): (r: seq<Result>)
    ensures |r| == |items|
    ensures forall i :: 0 <= i < |items| ==> r[i] == Rescored(items[i], v)
  {
    seq(|items|, i requires 0 <= i < |items| => Rescored(items[i], v))
  }

  /** `items.filter(keep).map(item => ({...item, relevance: score(item)}))`. */
  function Scored(items: seq<Result>, keep: Result -> bool, score: Result -> real): (r: seq<Result>)
    ensures |r| <= |items|
  {
    if items == [] then []
    else
      (if keep(items[0]) then [Rescored(items[0], score(items[0]))] else []) +
      Scored(items[1..], keep, score)
  }

  /** Strictly increasing positions. */
  predicate Ascending(idx: seq<nat>)
  {
    forall a, b :: 0 <= a < b < |idx| ==> idx[a] < idx[b]
  }

  /** Every position moved one place on. */
  function Shift(idx: seq<nat>): (r: seq<nat>)
    ensures |r| == |idx|
    ensures forall k :: 0 <= k < |idx| ==> r[k] == idx[k] + 1
  {
    seq(|idx|, k requires 0 <= k < |idx| => idx[k] + 1)
  }

  lemma ShiftAscending(idx: seq<nat>)
    requires Ascending(idx)
    ensures Ascending(Shift(idx)) && Ascending([0] + Shift(idx))
  {
    var s := [0] + Shift(idx);
    forall a, b | 0 <= a < b < |s|
      ensures s[a] < s[b]
    {
      if a > 0 {
        assert s[a] == idx[a - 1] + 1 && s[b] == idx[b - 1] + 1;
      }
    }
  }

  /** The positions of the items that pass `keep`, in order. */
  function Kept(items: seq<Result>, keep: Result -> bool): (idx: seq<nat>)
    ensures forall k :: 0 <= k < |idx| ==> idx[k] < |items| && keep(items[idx[k]])
  {
    if items == [] then []
    else
      var rest := Kept(items[1..], keep);
      ShiftKept(items, keep, rest);
      (if keep(items[0]) then [0] else []) + Shift(rest)
  }

  lemma ShiftKept(items: seq<Result>, keep: Result -> bool, rest: seq<nat>)
    requires items != []
    requires forall k :: 0 <= k < |rest| ==> rest[k] < |items[1..]| && keep(items[1..][rest[k]])
    ensures forall k :: 0 <= k < |rest| ==> rest[k] + 1 < |items| && keep(items[rest[k] + 1])
  {
    forall k | 0 <= k < |rest|
      ensures rest[k] + 1 < |items| && keep(items[rest[k] + 1])
    {
      assert items[1..][rest[k]] == items[rest[k] + 1];
    }
  }

  lemma {:induction false} KeptAscending(items: seq<Result>, keep: Result -> bool)
    ensures Ascending(Kept(items, keep))
  {
    if items != [] {
      KeptAscending(items[1..], keep);
      ShiftAscending(Kept(items[1..], keep));
    }
  }

  lemma {:induction false} KeptComplete(items: seq<Result>, keep: Result -> bool)
    ensures forall j :: 0 <= j < |items| && keep(items[j]) ==> j in Kept(items, keep)
  {
    if items != [] {
      var rest := Kept(items[1..], keep);
      KeptComplete(items[1..], keep);
      forall j | 1 <= j < |items| && keep(items[j])
        ensures j in Shift(rest)
      {
        assert items[1..][j - 1] == items[j];
        var m :| 0 <= m < |rest| && rest[m] == j - 1;
        assert Shift(rest)[m] == j;
      }
    }
  }

  /** `out[k]` is the item at position `idx[k]`, given its score. */
  predicate Selects(items: seq<Result>, score: Result -> real, idx: seq<nat>, out: seq<Result>)
  {
    |idx| == |out| &&
    forall k :: 0 <= k < |idx| ==> idx[k] < |items| && out[k] == Rescored(items[idx[k]], score(items[idx[k]]))
  }

  lemma SelectsCons(items: seq<Result>, keep: Result -> bool, score: Result -> real, idx: seq<nat>, out: seq<Result>)
    requires items != [] && Selects(items[1..], score, idx, out)
    ensures Selects(items, score,
                    (if keep(items[0]) then [0] else []) + Shift(idx),
                    (if keep(items[0]) then [Rescored(items[0], score(items[0]))] else []) + out)
  {
    var head: seq<nat> := if keep(items[0]) then [0] else [];
    var front := if keep(items[0]) then [Rescored(items[0], score(items[0]))] else [];
    var all := head + Shift(idx);
    forall k | 0 <= k < |all|
      ensures all[k] < |items| && (front + out)[k] == Rescored(items[all[k]], score(items[all[k]]))
    {
      if k >= |head| {
        var m := k - |head|;
        assert items[1..][idx[m]] == items[all[k]];
        assert (front + out)[k] == out[m];
      }
    }
  }

  lemma {:induction false} KeptScored(items: seq<Result>, keep: Result -> bool, score: Result -> real)
    ensures Selects(items, score, Kept(items, keep), Scored(items, keep, score))
  {
    if items != [] {
      KeptScored(items[1..], keep, score);
      SelectsCons(items, keep, score, Kept(items[1..], keep), Scored(items[1..], keep, score));
    }
  }

  /** The filtered-and-scored list is exactly the items that pass `keep`,
      in their original order, each given its score: `idx` lists the
      positions that survive, in ascending order, and holds every position
      that passes. */
  lemma ScoredSelects(items: seq<Result>, keep: Result -> bool, score: Result -> real)
    returns (idx: seq<nat>)
    ensures |idx| == |Scored(items, keep, score)|
    ensures Ascending(idx)
    ensures forall k :: 0 <= k < |idx| ==>
      idx[k] < |items| && keep(items[idx[k]]) &&
      Scored(items, keep, score)[k] == Rescored(items[idx[k]], score(items[idx[k]]))
    ensures forall j :: 0 <= j < |items| && keep(items[j]) ==> j in idx
  {
    idx := Kept(items, keep);
    KeptAscending(items, keep);
    KeptComplete(items, keep);
    KeptScored(items, keep, score);
  }

  /** The route filter: lower-cased title or description contains the
      lower-cased query. */
  function NavigationMatches(route: Result, query: string): (b: bool)
    ensures StartsWith(Lower(route.title), Lower(query)) ==> b
    ensures query == "" ==> b
  {
    if StartsWith(Lower(route.title), Lower(query)) then
      StartsWithIncludes(Lower(route.title), Lower(query));
      true
    else
      var description := match route.description case Some(d) => d case None => "";
      Includes(Lower(route.title), Lower(query)) || Includes(Lower(description), Lower(query))
  }

  /** 2 when the lower-cased title begins with the lower-cased query
      (`indexOf(q) === 0`), else 1. */
  function NavigationScore(route: Result, query: string): (v: real)
    ensures v == 2.0 <==> StartsWith(Lower(route.title), Lower(query))
    ensures v == 1.0 || v == 2.0
  {
    IndexOfZeroIffStartsWith(Lower(route.title), Lower(query));
    if IndexOf(Lower(route.title), Lower(query)) == 0 then 2.0 else 1.0
  }

  /** `NavigationProvider.getResults(query)`. */
  function NavigationResults(routes: seq<Result>, query: string): (r: seq<Result>)
    ensures query == "" ==>
      |r| == |routes| &&
      forall i :: 0 <= i < |routes| ==> r[i] == Rescored(routes[i], 1.0)
    ensures |r| <= |routes|
  {
    if query == "" then WithRelevance(routes, 1.0)
    else Scored(routes, route => NavigationMatches(route, query), route => NavigationScore(route, query))
  }

  /** For a non-empty query the navigation results are exactly the matching
      routes, in route order, each scored by `NavigationScore`. */
  lemma NavigationFilters(routes: seq<Result>, query: string) returns (idx: seq<nat>)
    requires query != ""
    ensures |idx| == |NavigationResults(routes, query)|
    ensures Ascending(idx)
    ensures forall k :: 0 <= k < |idx| ==>
      idx[k] < |routes| && NavigationMatches(routes[idx[k]], query) &&
      NavigationResults(routes, query)[k] ==
        Rescored(routes[idx[k]], NavigationScore(routes[idx[k]], query))
    ensures forall j :: 0 <= j < |routes| && NavigationMatches(routes[j], query) ==> j in idx
  {
    idx := ScoredSelects(routes, route => NavigationMatches(route, query), route => NavigationScore(route, query));
  }

  /** A route scores 2 exactly when its title starts with the query (case
      folded); so a route matched only through its description scores 1. */
  lemma NavigationScoreMeaning(route: Result, query: string)
    ensures NavigationScore(route, query) == 2.0 <==> StartsWith(Lower(route.title), Lower(query))
    ensures NavigationScore(route, query) != 2.0 ==> NavigationScore(route, query) == 1.0
    ensures !Includes(Lower(route.title), Lower(query)) ==> NavigationScore(route, query) == 1.0
  {
    IndexOfZeroIffStartsWith(Lower(route.title), Lower(query));
    if StartsWith(Lower(route.title), Lower(query)) {
      StartsWithIncludes(Lower(route.title), Lower(query));
    }
  }

  /** The command filter: the lower-cased title contains the lower-cased
      query, or some keyword (as written, not lower-cased) contains it. */
  function CommandMatches(command: Result, query: string): (b: bool)
    ensures StartsWith(Lower(command.title), Lower(query)) ==> b
    ensures query == "" ==> b
  {
    if StartsWith(Lower(command.title), Lower(query)) then
      StartsWithIncludes(Lower(command.title), Lower(query));
      true
    else
      Includes(Lower(command.title), Lower(query)) ||
      exists k :: k in command.keywords && Includes(k, Lower(query))
  }

  /** 3 for an exact (case-folded) title match, 2 for a title that starts
      with the query, else 1. */
  function CommandScore(command: Result, query: string): (v: real)
    ensures v == 3.0 <==> Lower(command.title) == Lower(query)
    ensures v == 2.0 <==> Lower(command.title) != Lower(query) && StartsWith(Lower(command.title), Lower(query))
    ensures v == 1.0 || v == 2.0 || v == 3.0
  {
    var title := Lower(command.title);
    var q := Lower(query);
    if title == q then 3.0
    else if StartsWith(title, q) then 2.0
    else 1.0
  }

  /** `CommandProvider.getResults(query)`. */
  function CommandResults(commands: seq<Result>, query: string): (r: seq<Result>)
    ensures query == "" ==>
      |r| == |commands| &&
      forall i :: 0 <= i < |commands| ==> r[i] == Rescored(commands[i], 0.5)
    ensures |r| <= |commands|
  {
    if query == "" then WithRelevance(commands, 0.5)
    else Scored(commands, command => CommandMatches(command, query), command => CommandScore(command, query))
  }

  /** For a non-empty query the command results are exactly the matching
      commands, in command order, each scored by `CommandScore`. */
  lemma CommandFilters(commands: seq<Result>, query: string) returns (idx: seq<nat>)
    requires query != ""
    ensures |idx| == |CommandResults(commands, query)|
    ensures Ascending(idx)
    ensures forall k :: 0 <= k < |idx| ==>
      idx[k] < |commands| && CommandMatches(commands[idx[k]], query) &&
      CommandResults(commands, query)[k] ==
        Rescored(commands[idx[k]], CommandScore(commands[idx[k]], query))
    ensures forall j :: 0 <= j < |commands| && CommandMatches(commands[j], query) ==> j in idx
  {
    idx := ScoredSelects(commands, command => CommandMatches(command, query), command => CommandScore(command, query));
  }

  /** An exact title match outranks a mere prefix match, which outranks a
      match anywhere else. */
  lemma CommandRanking(a: Result, b: Result, query: string)
    ensures Lower(a.title) == Lower(query) && Lower(b.title) != Lower(query) ==>
      CommandScore(a, query) > CommandScore(b, query)
    ensures StartsWith(Lower(a.title), Lower(query)) && !StartsWith(Lower(b.title), Lower(query)) ==>
      CommandScore(a, query) > CommandScore(b, query)
  {
    if Lower(a.title) == Lower(query) {
      assert StartsWith(Lower(a.title), Lower(query));
    }
  }
}
