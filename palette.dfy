/** The `Omnibox` itself: its open/closed lifecycle, the search that
    rebuilds the result list, the cyclic keyboard selection and the
    execution of the selected result.

    The transition functions below say what each operation does to the
    palette's state, a `Session`; the class `Omnibox` holds the same fields
    and its methods update them step by step as the source does, each proved
    to agree with its transition function. */
module Palette {
  import opened Text
  import opened Results
  import opened Providers
  import opened Aggregation

  /** The options the palette reads: its providers in registration order,
      `maxResults` and `categories`. */
  datatype Config = Config(providers: seq<Provider>, maxResults: int, categories: bool)

  /** The `options` a caller passes to the constructor; a field is `None`
      when the caller leaves it out. */
  datatype Options = Options(providers: Option<seq<Provider>>, maxResults: Option<int>, categories: Option<bool>)

  /** The defaults the constructor merges the caller's options over. */
  const DefaultMaxResults := 15

  /** `{maxResults: 15, providers: [], categories: true, ...options}`: a
      field the caller gives wins, and a field left out takes its default. */
  function Configure(o: Options): (c: Config)
    ensures o.providers.Some? ==> c.providers == o.providers.value
    ensures o.providers.None? ==> c.providers == []
    ensures o.maxResults.Some? ==> c.maxResults == o.maxResults.value
    ensures o.maxResults.None? ==> c.maxResults == DefaultMaxResults
    ensures o.categories.Some? ==> c.categories == o.categories.value
    ensures o.categories.None? ==> c.categories
  {
    Config(
      match o.providers case Some(ps) => ps case None => [],
      match o.maxResults case Some(m) => m case None => DefaultMaxResults,
      match o.categories case Some(b) => b case None => true)
  }

  /** `new Omnibox()` with no options: no providers, at most 15 results,
      category headers on. */
  lemma DefaultConfiguration()
    ensures Configure(Options(None, None, None)) == Config([], 15, true)
  {
  }

  /** The palette's state. `input` is the text field's value; `rows` are the
      titles of the result rows currently in the results element, so their
      number is the row count that navigation uses; `pendingClears` counts
      the clean-ups `close` has scheduled and that have not run yet;
      `executed` lists, in order, the actions that have been called. */
  datatype Session = Session(
    isOpen: bool,
    input: string,
    currentResults: seq<Result>,
    selectedIndex: int,
    rows: seq<string>,
    pendingClears: nat,
    executed: seq<nat>)

  /** The state every operation keeps: the selection is -1 or a row, and
      the rows are either gone (after the clean-up) or show exactly the
      current results. With no rows, Enter may have set the selection to 0. */
  predicate Consistent(s: Session)
  {
    -1 <= s.selectedIndex &&
    (s.rows == [] || s.rows == Titles(s.currentResults)) &&
    (s.rows == [] ==> s.selectedIndex <= 0) &&
    (s.rows != [] ==> s.selectedIndex < |s.rows|)
  }

  /** The state a new palette starts in. */
  function Initial(): (s: Session)
    ensures Consistent(s) && !s.isOpen && s.selectedIndex == -1 && s.currentResults == []
  {
    Session(false, "", [], -1, [], 0, [])
  }

  /** While there are results, the selection is -1 or one of them. */
  lemma SelectionInRange(s: Session)
    requires Consistent(s) && |s.currentResults| > 0
    ensures -1 <= s.selectedIndex < |s.currentResults|
  {
  }

  // ---------------------------------------------------------------------
  // Cyclic selection

  /** JavaScript's `a % n`, whose result has the sign of `a`. */
  function JsRem(a: int, n: int): (r: int)
    requires n > 0
    ensures 0 <= a ==> r == a % n && 0 <= r < n
    ensures a < 0 ==> -n < r <= 0
  {
    if a >= 0 then a % n else -((-a) % n)
  }

  /** `(i + 1) % n`. */
  function NextIndex(i: int, n: int): (j: int)
    requires n > 0
    ensures -1 <= i ==> 0 <= j < n
    ensures -1 <= i < n - 1 ==> j == i + 1
    ensures i == n - 1 ==> j == 0
  {
    JsRem(i + 1, n)
  }

  /** `i <= 0 ? n - 1 : i - 1`. */
  function PreviousIndex(i: int, n: int): (j: int)
    requires n > 0
    ensures i <= n ==> 0 <= j < n
    ensures i <= 0 ==> j == n - 1
    ensures 0 < i ==> j == i - 1
  {
    if i <= 0 then n - 1 else i - 1
  }

  /** `selectNext`: nothing without results or without rows; otherwise one
      row on, wrapping from the last row to the first and from "no
      selection" to the first. */
  function SelectNextState(s: Session): (t: Session)
    ensures t == s.(selectedIndex := t.selectedIndex)
    ensures |s.currentResults| == 0 || |s.rows| == 0 ==> t == s
    ensures |s.currentResults| > 0 && |s.rows| > 0 && -1 <= s.selectedIndex ==> 0 <= t.selectedIndex < |s.rows|
    ensures |s.currentResults| > 0 && s.selectedIndex == -1 && |s.rows| > 0 ==> t.selectedIndex == 0
    ensures |s.currentResults| > 0 && |s.rows| > 0 ==> t.selectedIndex == NextIndex(s.selectedIndex, |s.rows|)
    ensures Consistent(s) ==> Consistent(t)
  {
    if |s.currentResults| == 0 || |s.rows| == 0 then s
    else s.(selectedIndex := NextIndex(s.selectedIndex, |s.rows|))
  }

  /** `selectPrevious`: nothing without results or without rows; otherwise
      one row back, wrapping from the first row, or from "no selection", to
      the last. */
  function SelectPreviousState(s: Session): (t: Session)
    ensures t == s.(selectedIndex := t.selectedIndex)
    ensures |s.currentResults| == 0 || |s.rows| == 0 ==> t == s
    ensures |s.currentResults| > 0 && |s.rows| > 0 && s.selectedIndex <= 0 ==> t.selectedIndex == |s.rows| - 1
    ensures |s.currentResults| > 0 && |s.rows| > 0 && 0 < s.selectedIndex ==> t.selectedIndex == s.selectedIndex - 1
    ensures Consistent(s) ==> Consistent(t)
  {
    if |s.currentResults| == 0 || |s.rows| == 0 then s
    else s.(selectedIndex := PreviousIndex(s.selectedIndex, |s.rows|))
  }

  /** On a selected row, going back undoes going on. */
  lemma PreviousUndoesNext(s: Session)
    requires |s.currentResults| > 0 && 0 <= s.selectedIndex < |s.rows|
    ensures SelectPreviousState(SelectNextState(s)) == s
  {
  }

  /** On a selected row, going on undoes going back. */
  lemma NextUndoesPrevious(s: Session)
    requires |s.currentResults| > 0 && 0 <= s.selectedIndex < |s.rows|
    ensures SelectNextState(SelectPreviousState(s)) == s
  {
  }

  /** `k` presses of the down arrow. */
  function SelectNextTimes(s: Session, k: nat): (t: Session)
    ensures t == s.(selectedIndex := t.selectedIndex)
    decreases k
  {
    if k == 0 then s else SelectNextTimes(SelectNextState(s), k - 1)
  }

  /** The selection after `k` steps on from `i` among `n` rows. */
  function NextIndexTimes(i: int, n: int, k: nat): (j: int)
    requires n > 0
    ensures k == 0 ==> j == i
    ensures -1 <= i && k > 0 ==> 0 <= j < n
    decreases k
  {
    if k == 0 then i else NextIndexTimes(NextIndex(i, n), n, k - 1)
  }

  /** With results and rows, `k` presses change only the selection, which
      moves `k` steps on. */
  lemma {:induction false} SelectNextTimesIndex(s: Session, k: nat)
    requires |s.currentResults| > 0 && |s.rows| > 0
    ensures SelectNextTimes(s, k) == s.(selectedIndex := NextIndexTimes(s.selectedIndex, |s.rows|, k))
    decreases k
  {
    if k > 0 {
      SelectNextTimesIndex(SelectNextState(s), k - 1);
    }
  }

  /** `a + b` steps are `a` steps followed by `b` steps. */
  lemma {:induction false} NextIndexTimesAdd(i: int, n: int, a: nat, b: nat)
    requires n > 0
    ensures NextIndexTimes(i, n, a + b) == NextIndexTimes(NextIndexTimes(i, n, a), n, b)
    decreases a
  {
    if a > 0 {
      NextIndexTimesAdd(NextIndex(i, n), n, a - 1, b);
    }
  }

  /** Short of the last row, `k` steps move `k` rows down. */
  lemma {:induction false} NextIndexTimesWalks(i: int, n: int, k: nat)
    requires n > 0 && -1 <= i && i + k < n
    ensures NextIndexTimes(i, n, k) == i + k
    decreases k
  {
    if k > 0 {
      NextIndexTimesWalks(i + 1, n, k - 1);
    }
  }

  /** `n` steps among `n` rows come back to the starting row. */
  lemma NextIndexCycles(i: int, n: int)
    requires 0 <= i < n
    ensures NextIndexTimes(i, n, n) == i
  {
    NextIndexTimesWalks(i, n, n - 1 - i);
    NextIndexTimesAdd(i, n, n - 1 - i, 1 + i);
    NextIndexTimesAdd(n - 1, n, 1, i);
    assert NextIndexTimes(n - 1, n, 1) == 0;
    NextIndexTimesWalks(0, n, i);
    assert (n - 1 - i) + (1 + i) == n;
  }

  /** Pressing the down arrow once per row comes back to where it started. */
  lemma SelectNextCycles(s: Session)
    requires |s.currentResults| > 0 && 0 <= s.selectedIndex < |s.rows|
    ensures SelectNextTimes(s, |s.rows|) == s
  {
    SelectNextTimesIndex(s, |s.rows|);
    NextIndexCycles(s.selectedIndex, |s.rows|);
  }

  // ---------------------------------------------------------------------
  // Lifecycle

  /** `close`: nothing when already closed; otherwise closed, with the
      clean-up scheduled. */
  function CloseState(s: Session): (t: Session)
    ensures !t.isOpen
    ensures !s.isOpen ==> t == s
    ensures s.isOpen ==> t == s.(isOpen := false, pendingClears := s.pendingClears + 1)
    ensures Consistent(s) ==> Consistent(t)
  {
    if !s.isOpen then s
    else s.(isOpen := false, pendingClears := s.pendingClears + 1)
  }

  /** The clean-up `close` schedules: the text field, the rows and the
      selection are cleared, but not `currentResults`. */
  function ClearState(s: Session): (t: Session)
    requires s.pendingClears > 0
    ensures t.input == "" && t.rows == [] && t.selectedIndex == -1
    ensures t.currentResults == s.currentResults && t.isOpen == s.isOpen
    ensures t.pendingClears == s.pendingClears - 1 && t.executed == s.executed
    ensures Consistent(t)
  {
    s.(input := "", rows := [], selectedIndex := -1, pendingClears := s.pendingClears - 1)
  }

  /** `renderResults`: one row per result, nothing selected. */
  function RenderState(s: Session): (t: Session)
    ensures t == s.(selectedIndex := -1, rows := Titles(s.currentResults))
    ensures Consistent(t)
  {
    s.(selectedIndex := -1, rows := Titles(s.currentResults))
  }

  /** `search`: the aggregated results for the trimmed text, rendered, with
      nothing selected. */
  function SearchState(c: Config, s: Session): (t: Session)
    ensures t.currentResults == Aggregate(c.providers, Trim(s.input), c.maxResults, c.categories)
    ensures t.selectedIndex == -1 && t.rows == Titles(t.currentResults)
    ensures t.isOpen == s.isOpen && t.input == s.input
    ensures t.pendingClears == s.pendingClears && t.executed == s.executed
    ensures Consistent(t)
  {
    RenderState(s.(currentResults := Aggregate(c.providers, Trim(s.input), c.maxResults, c.categories)))
  }

  /** `open`: open, then search for what the text field holds. */
  function OpenState(c: Config, s: Session): (t: Session)
    ensures t.isOpen && t.input == s.input
    ensures t.currentResults == Aggregate(c.providers, Trim(s.input), c.maxResults, c.categories)
    ensures t.selectedIndex == -1 && t.rows == Titles(t.currentResults)
    ensures t.pendingClears == s.pendingClears && t.executed == s.executed
  {
    SearchState(c, s.(isOpen := true))
  }

  /** `toggle`. */
  function ToggleState(c: Config, s: Session): (t: Session)
    ensures t.isOpen == !s.isOpen
    ensures Consistent(s) ==> Consistent(t)
  {
    if s.isOpen then CloseState(s) else OpenState(c, s)
  }

  /** The input event: the text field's new value, then a search. */
  function InputState(c: Config, s: Session, text: string): (t: Session)
    ensures t.input == text && t.isOpen == s.isOpen
    ensures t.currentResults == Aggregate(c.providers, Trim(text), c.maxResults, c.categories)
    ensures t.selectedIndex == -1 && t.rows == Titles(t.currentResults)
    ensures t.pendingClears == s.pendingClears && t.executed == s.executed
  {
    SearchState(c, s.(input := text))
  }

  /** A clean-up left over from an earlier `close` still runs when the
      palette has been opened again in the meantime: the palette is open,
      the rows are gone while `currentResults` is not, so the arrow keys do
      nothing until the next search. */
  lemma ClearAfterReopen(c: Config, s: Session)
    requires s.isOpen
    ensures var t := ClearState(OpenState(c, CloseState(s)));
            t.isOpen && t.rows == [] && t.input == "" &&
            t.currentResults == Aggregate(c.providers, Trim(s.input), c.maxResults, c.categories) &&
            SelectNextState(t) == t && SelectPreviousState(t) == t
  {
  }

  // ---------------------------------------------------------------------
  // Executing results

  /** Calling the action of `r` throws. */
  predicate ActionRaises(r: Result)
  {
    r.action.Callable? && r.action.fails
  }

  /** `executeResult(r)`: a callable action is called (and logged); unless
      it throws, the palette then closes, except when `keepOpen` is `true`.
      A throwing action leaves the palette as it was. */
  function ExecuteResultState(s: Session, r: Result): (t: Session)
    ensures t.executed == if r.action.Callable? then s.executed + [r.action.id] else s.executed
    ensures ActionRaises(r) || r.keepOpen == Some(true) ==> t == s.(executed := t.executed)
    ensures !ActionRaises(r) && r.keepOpen != Some(true) ==> t == CloseState(s.(executed := t.executed))
    ensures Consistent(s) ==> Consistent(t)
  {
    var called := if r.action.Callable? then s.(executed := s.executed + [r.action.id]) else s;
    if ActionRaises(r) then called
    else if r.keepOpen != Some(true) then CloseState(called)
    else called
  }

  /** `keepOpen === true` keeps the palette open; anything else closes it
      once the action has returned. */
  lemma ExecuteKeepOpen(s: Session, r: Result)
    requires !ActionRaises(r)
    ensures r.keepOpen == Some(true) ==> ExecuteResultState(s, r).isOpen == s.isOpen
    ensures r.keepOpen != Some(true) ==> !ExecuteResultState(s, r).isOpen
  {
  }

  /** `currentResults.find(r => r.title === title)`: the position of the
      first result with that title. */
  function FindByTitle(rs: seq<Result>, title: string): (k: Option<nat>)
    ensures k.Some? ==> k.value < |rs| && rs[k.value].title == title &&
                        forall j :: 0 <= j < k.value ==> rs[j].title != title
    ensures k.None? ==> forall j :: 0 <= j < |rs| ==> rs[j].title != title
  {
    if rs == [] then None
    else if rs[0].title == title then Some(0)
    else match FindByTitle(rs[1..], title)
      case None => None
      case Some(k) => Some(k + 1)
  }

  /** The result `executeSelected` runs: the first result whose title is
      that of the selected row, if a row is selected. */
  function Selected(s: Session): (o: Option<Result>)
    ensures o.Some? ==> 0 <= s.selectedIndex < |s.rows| && o.value in s.currentResults &&
                        o.value.title == s.rows[s.selectedIndex]
  {
    if 0 <= s.selectedIndex < |s.rows| then
      match FindByTitle(s.currentResults, s.rows[s.selectedIndex])
      case None => None
      case Some(k) => Some(s.currentResults[k])
    else None
  }

  /** With a row selected, the result run is the first one that shares the
      selected result's title; when titles are distinct it is the selected
      result itself. */
  lemma SelectedResult(s: Session)
    requires Consistent(s) && 0 <= s.selectedIndex < |s.rows|
    ensures Selected(s).Some?
    ensures exists j ::
              0 <= j <= s.selectedIndex && Selected(s) == Some(s.currentResults[j]) &&
              s.currentResults[j].title == s.currentResults[s.selectedIndex].title &&
              forall j' :: 0 <= j' < j ==> s.currentResults[j'].title != s.currentResults[s.selectedIndex].title
    ensures (forall a, b :: 0 <= a < b < |s.currentResults| ==> s.currentResults[a].title != s.currentResults[b].title) ==>
      Selected(s) == Some(s.currentResults[s.selectedIndex])
  {
    var k := FindByTitle(s.currentResults, s.rows[s.selectedIndex]);
    assert k.Some?;
    assert k.value <= s.selectedIndex;
  }

  /** `executeSelected`. */
  function ExecuteSelectedState(s: Session): (t: Session)
    ensures Selected(s).None? ==> t == s
    ensures Consistent(s) ==> Consistent(t)
  {
    match Selected(s)
    case None => s
    case Some(r) => ExecuteResultState(s, r)
  }

  /** The Enter key: with results and nothing selected, select the first
      row; then execute the selection. */
  /** The first half of the Enter branch: with results and nothing
      selected, select the first result. */
  function EnterSelects(s: Session): (t: Session)
    ensures t == s.(selectedIndex := t.selectedIndex)
    ensures s.selectedIndex == -1 && |s.currentResults| > 0 ==> t.selectedIndex == 0
    ensures !(s.selectedIndex == -1 && |s.currentResults| > 0) ==> t == s
    ensures Consistent(s) ==> Consistent(t)
  {
    if s.selectedIndex == -1 && |s.currentResults| > 0 then s.(selectedIndex := 0) else s
  }

  function EnterState(s: Session): (t: Session)
    ensures Consistent(s) ==> Consistent(t)
  {
    ExecuteSelectedState(EnterSelects(s))
  }

  /** Whether the Enter key ends in an action that throws. */
  predicate EnterRaises(s: Session)
  {
    Selected(EnterSelects(s)).Some? && ActionRaises(Selected(EnterSelects(s)).value)
  }

  /** Enter with no results changes nothing. */
  lemma EnterWithoutResults(s: Session)
    requires |s.currentResults| == 0
    ensures EnterState(s) == s && !EnterRaises(s)
  {
  }

  /** Enter with results and nothing selected runs the first result. */
  lemma EnterRunsFirst(s: Session)
    requires Consistent(s) && s.selectedIndex == -1 && |s.currentResults| > 0 && s.rows != []
    ensures EnterState(s) == ExecuteResultState(s.(selectedIndex := 0), s.currentResults[0])
  {
    assert s.rows[0] == s.currentResults[0].title;
  }

  /** Enter on a selected row runs the selected result when titles are
      distinct. */
  lemma EnterRunsSelected(s: Session)
    requires Consistent(s) && 0 <= s.selectedIndex < |s.rows|
    requires forall a, b :: 0 <= a < b < |s.currentResults| ==> s.currentResults[a].title != s.currentResults[b].title
    ensures EnterState(s) == ExecuteResultState(s, s.currentResults[s.selectedIndex])
  {
    SelectedResult(s);
  }

  /** After the clean-up the rows are gone: Enter selects index 0 but runs
      nothing. */
  lemma EnterAfterClear(s: Session)
    requires s.rows == [] && s.selectedIndex == -1 && |s.currentResults| > 0
    ensures EnterState(s) == s.(selectedIndex := 0)
  {
  }

  /** The keys the text field handles. */
  datatype KeyName = ArrowDown | ArrowUp | Tab(shift: bool) | Enter | OtherKey

  /** The text field's keydown handler. */
  function KeyDownState(s: Session, key: KeyName): (t: Session)
    ensures key.OtherKey? ==> t == s
    ensures Consistent(s) ==> Consistent(t)
  {
    match key
    case ArrowDown => SelectNextState(s)
    case ArrowUp => SelectPreviousState(s)
    case Tab(shift) => if shift then SelectPreviousState(s) else SelectNextState(s)
    case Enter => EnterState(s)
    case OtherKey => s
  }

  // ---------------------------------------------------------------------
  // The object

  class Omnibox {
    const config: Config

    var isOpen: bool
    var input: string
    var currentResults: seq<Result>
    var selectedIndex: int
    var rows: seq<string>
    var pendingClears: nat
    var executed: seq<nat>

    function State(): (st: Session)
      reads this
    {
      Session(isOpen, input, currentResults, selectedIndex, rows, pendingClears, executed)
    }

    predicate Valid()
      reads this
    {
      Consistent(State())
    }

    constructor (options: Options)
      ensures config == Configure(options) && State() == Initial() && Valid()
    {
      config := Configure(options);
      isOpen := false;
      input := "";
      currentResults := [];
      selectedIndex := -1;
      rows := [];
      pendingClears := 0;
      executed := [];
    }

    method Toggle()
      modifies this
      ensures State() == ToggleState(config, old(State()))
      ensures old(Valid()) ==> Valid()
    {
      if isOpen {
        Close();
      } else {
        Open();
      }
    }

    method Open()
      modifies this
      ensures State() == OpenState(config, old(State()))
      ensures Valid()
    {
      isOpen := true;
      assert State() == old(State()).(isOpen := true);
      Search();
    }

    method Close()
      modifies this
      ensures State() == CloseState(old(State()))
      ensures old(Valid()) ==> Valid()
    {
      if !isOpen {
        return;
      }
      isOpen := false;
      pendingClears := pendingClears + 1;
    }

    /** The timer callback that `close` schedules. */
    method ClearAfterClose()
      requires pendingClears > 0
      modifies this
      ensures State() == ClearState(old(State()))
      ensures Valid()
    {
      input := "";
      rows := [];
      selectedIndex := -1;
      pendingClears := pendingClears - 1;
    }

    /** The input event. */
    method OnInput(text: string)
      modifies this
      ensures State() == InputState(config, old(State()), text)
      ensures Valid()
    {
      input := text;
      assert State() == old(State()).(input := text);
      Search();
    }

    method Search()
      modifies this
      ensures State() == SearchState(config, old(State()))
      ensures Valid()
    {
      var query := Trim(input);
      currentResults := [];
      for i := 0 to |config.providers|
        invariant currentResults == Collected(config.providers[..i], query, config.categories)
        invariant isOpen == old(isOpen) && input == old(input)
        invariant selectedIndex == old(selectedIndex) && rows == old(rows)
        invariant pendingClears == old(pendingClears) && executed == old(executed)
      {
        var provider := config.providers[i];
        var outcome := GetResults(provider, query);
        CollectedStep(config.providers, i, query, config.categories);
        if outcome.Returned? {
          var providerResults := outcome.results;
          if config.categories && |providerResults| > 0 {
            if provider.Name() != "" {
              providerResults := providerResults[0 := providerResults[0].(category := Some(provider.Name()))];
            }
          }
          assert providerResults == Contribution(provider, query, config.categories);
          currentResults := currentResults + providerResults;
        }
      }
      assert config.providers[..|config.providers|] == config.providers;
      currentResults := SortByRelevance(currentResults);
      currentResults := Slice(currentResults, config.maxResults);
      assert State() == old(State()).(currentResults := Aggregate(config.providers, query, config.maxResults, config.categories));
      RenderResults();
    }

    method RenderResults()
      modifies this
      ensures State() == RenderState(old(State()))
      ensures Valid()
    {
      selectedIndex := -1;
      rows := Titles(currentResults);
    }

    method SelectNext()
      modifies this
      ensures State() == SelectNextState(old(State()))
      ensures old(Valid()) ==> Valid()
    {
      if |currentResults| == 0 {
        return;
      }
      var rowCount := |rows|;
      if rowCount == 0 {
        return;
      }
      selectedIndex := JsRem(selectedIndex + 1, rowCount);
    }

    method SelectPrevious()
      modifies this
      ensures State() == SelectPreviousState(old(State()))
      ensures old(Valid()) ==> Valid()
    {
      if |currentResults| == 0 {
        return;
      }
      var rowCount := |rows|;
      if rowCount == 0 {
        return;
      }
      selectedIndex := if selectedIndex <= 0 then rowCount - 1 else selectedIndex - 1;
    }

    method ExecuteResult(r: Result) returns (raised: bool)
      modifies this
      ensures State() == ExecuteResultState(old(State()), r)
      ensures raised == ActionRaises(r)
      ensures old(Valid()) ==> Valid()
    {
      raised := false;
      if r.action.Callable? {
        executed := executed + [r.action.id];
        if r.action.fails {
          raised := true;
          return;
        }
      }
      if r.keepOpen != Some(true) {
        Close();
      }
    }

    method ExecuteSelected() returns (raised: bool)
      modifies this
      ensures State() == ExecuteSelectedState(old(State()))
      ensures raised == (Selected(old(State())).Some? && ActionRaises(Selected(old(State())).value))
      ensures old(Valid()) ==> Valid()
    {
      raised := false;
      if 0 <= selectedIndex < |rows| {
        var found := FindByTitle(currentResults, rows[selectedIndex]);
        if found.Some? {
          raised := ExecuteResult(currentResults[found.value]);
        }
      }
    }

    /** The text field's keydown handler; `raised` tells whether an action
        run by Enter threw. */
    method KeyDown(key: KeyName) returns (raised: bool)
      modifies this
      ensures State() == KeyDownState(old(State()), key)
      ensures raised == (key.Enter? && EnterRaises(old(State())))
      ensures old(Valid()) ==> Valid()
    {
      raised := false;
      match key {
        case ArrowDown =>
          SelectNext();
        case ArrowUp =>
          SelectPrevious();
        case Tab(shift) =>
          if shift {
            SelectPrevious();
          } else {
            SelectNext();
          }
        case Enter =>
          if selectedIndex == -1 && |currentResults| > 0 {
            selectedIndex := 0;
          }
          raised := ExecuteSelected();
        case OtherKey =>
      }
    }
  }
}
