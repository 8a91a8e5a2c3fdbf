# Omnibox: a verified model of the command palette's core

The Omnibox is a command-palette quick launcher for a web page: a text field
that asks a list of result providers for matches, merges and ranks what they
return, and lets the user move a selection through the list with the keyboard
and run the selected entry. This project models in Dafny the part of
`script.js` with real logic, and proves properties of that model:

- the two scoring providers (`NavigationProvider`, `CommandProvider`) and the
  base `ResultProvider`: pure filter-and-score functions over static lists
  (`providers.dfy`), on the string operations they use (`text.dfy`);
- the aggregation done by `Omnibox.search`: every provider in order, a
  provider that throws skipped, the provider's name stamped on its first
  result, concatenation, a stable sort by descending relevance, and the cut
  at `maxResults` (`aggregation.dfy`);
- the palette object: `open`, `close` and its deferred clean-up, `toggle`,
  `search`, `renderResults`, `selectNext`, `selectPrevious`, the text field's
  keydown handler with its Enter branch, `executeSelected` and
  `executeResult` (`palette.dfy`);
- a few concrete aggregation runs (`scenarios.dfy`).

`results.dfy` holds the result record shared by all of them.

The palette is modelled twice, on purpose. `Palette.Session` is its state as
a value, and one transition function per operation (`SelectNextState`,
`CloseState`, `EnterState`, ...) says what the operation does; the lemmas are
stated over these. The class `Palette.Omnibox` has the same fields as the
source object (`isOpen`, `currentResults`, `selectedIndex`, plus the text
field's value, the rendered rows, the pending clean-ups and a log of the
actions called) and methods that update them step by step as `script.js`
does; each method's postcondition ties its new state to the matching
transition function. `Omnibox.Search` runs the provider loop with its
invariant, then sorts, slices and renders.

Modelling choices:

- Result rows. Navigation counts the result rows in the page, not
  `currentResults`, and `executeSelected` reads the title shown in the
  selected row. The model keeps the rows as `rows`, the sequence of titles
  rendered. `renderResults` sets it to the titles of `currentResults`. The
  clean-up scheduled by `close` empties it and leaves `currentResults` as it
  was.
- Timers. `open` searches at once instead of after 50 ms. The 300 ms clean-up
  of `close` is its own operation (`ClearAfterClose`), which may run only
  while one is pending (`pendingClears > 0`).
- Providers. A provider is `Base(name)`, `Navigation(routes)`,
  `Commands(commands)` or `External(name, reply)`. `External` stands for any
  other provider; `reply` gives its outcome for a query, a list or "threw".
  Awaiting is modelled as one sequential pass.
- Actions are opaque, apart from what the palette observes: `Callable(id,
  fails)` is a function, with `fails` meaning that calling it throws, and
  `NotCallable` is any other value. The palette logs the id of every action
  it calls, in `executed`.
- Relevance is a `real`, and a missing relevance sorts as 0. The engine's
  `Array.prototype.sort` is stable, and it is modelled as an insertion sort.
  `Aggregation.StableSortUnique` shows that this choice decides nothing: every
  sort that is sorted and stable returns the same list.
- `%` in `selectNext` is JavaScript's remainder, whose sign follows the
  dividend (`Palette.JsRem`). `slice(0, maxResults)` is JavaScript's slice,
  where a negative end counts back from the end (`Aggregation.Slice`).
- Case folding is ASCII-only (`Text.Lower`). `trim` removes exactly
  ECMAScript's WhiteSpace and LineTerminator code points (`Text.Trim`).
- Keywords. A command without keywords has an empty `keywords` list, which
  matches nothing, as `command.keywords && ...` does.

Behaviour of the code that the model keeps:

- Closing does not clear `currentResults`; only the rows, the text field and
  the selection are cleared.
- Pressing Enter closes the palette only when `keepOpen` is not `true`.
- There is no stale-response guard, and providers are awaited one after the
  other.
- `selectPrevious` undoes `selectNext` only from a selected row. From "no
  selection" (-1), one step on reaches row 0, and one step back then reaches
  the last row.
- A non-positive `maxResults` is passed to `slice` unchecked.
- A clean-up left over from an earlier `close` still runs after the palette
  has been reopened. `Palette.ClearAfterReopen` covers one order of events:
  the reopened palette's search, which runs 50 ms after `open`, renders
  before the clean-up, which runs 300 ms after `close`. The palette is then
  open with no rows, and the arrow keys do nothing until the next search.
  Other orders behave differently. When the reopen comes within the last
  50 ms before the clean-up, the clean-up runs first, and the search then
  renders rows for the cleared text. A slow provider can also let the
  clean-up land in the middle of a search. The model has no interleaving
  within a search, so it states only the first order.

## Model

| member | source | states |
|---|---|---|
| `Results.Key` | script.js:254 | `relevance \|\| 0`: the relevance when present, 0 when missing |
| `Results.Titles` | script.js:300-309 | the titles the rendered rows show, one per result in order; `executeSelected` reads them back (script.js:391) |
| `Text.IndexOf` | script.js:474 | `indexOf`: -1 exactly when `sub` does not occur, otherwise an occurrence with no earlier one |
| `Text.Includes` | script.js:468 | `includes` holds exactly when some occurrence exists |
| `Text.StartsWith` | script.js:527 | `startsWith(p)` holds exactly when `p` occurs at index 0 |
| `Text.IndexOfZeroIffStartsWith` | script.js:474-477 | `indexOf(q) === 0` exactly when the string starts with `q` |
| `Text.StartsWithIncludes` | script.js:527 | a string that starts with `q` includes `q` |
| `Text.Lower` | script.js:464-466 | same length, each character ASCII-folded, no upper-case ASCII letter left |
| `Text.Trim` | script.js:223 | the result is a slice `s[a..b]` whose removed ends are whitespace and, when it is non-empty, whose first and last characters are not |
| `Providers.GetResults` | script.js:433-436 | the base provider returns `[]`; the navigation and command providers return their filtered lists and never throw |
| `Providers.Provider.Name` | script.js:448 | `provider.name`: `'Navigation'` for the navigation provider (script.js:448), `'Commands'` for the command provider (script.js:496), the given name otherwise |
| `Providers.WithRelevance` | script.js:455-458 | `items.map(x => ({...x, relevance: v}))`, used for the empty query here and at script.js:503-506: one result per item, in order, each `Rescored` to `v` |
| `Providers.Scored` | script.js:462-483 | `items.filter(keep).map(...)`, used here and at script.js:510-535: never longer than `items`; `ScoredSelects` states which items it keeps and with what score |
| `Providers.ScoredSelects` | script.js:462-483 | a filter-then-score chain keeps exactly the items that pass, in ascending original positions, each with its own score |
| `Providers.NavigationResults` | script.js:452-484 | empty query: every route in order with relevance 1; never more results than routes |
| `Providers.NavigationFilters` | script.js:461-483 | non-empty query: exactly the routes whose lower-cased title or description contains the query, in route order, each scored by `NavigationScore` |
| `Providers.Rescored` | script.js:479-482 | `{...item, relevance: v}`: the sort key becomes `v` and nothing but the relevance changes |
| `Providers.NavigationMatches` | script.js:463-468 | the route filter, lower-cased title or description includes the lower-cased query; a title that starts with the query, and the empty query, always match; `NavigationFilters` states which routes it lets through |
| `Providers.NavigationScore` | script.js:472-477 | `titleIndex === 0 ? 2 : 1`: 2 exactly when the lower-cased title starts with the lower-cased query, otherwise 1 |
| `Providers.NavigationScoreMeaning` | script.js:470-481 | relevance 2 exactly when the title starts with the query, else 1; a route matched only through its description gets 1 |
| `Providers.CommandResults` | script.js:500-536 | empty query: every command in order with relevance 0.5; never more results than commands |
| `Providers.CommandMatches` | script.js:512-516 | the command filter, lower-cased title or some keyword as written includes the lower-cased query; a title that starts with the query, and the empty query, always match; `CommandFilters` states which commands it lets through |
| `Providers.CommandFilters` | script.js:509-535 | non-empty query: exactly the commands whose lower-cased title, or some keyword as written, contains the query, in command order, each scored by `CommandScore` |
| `Providers.CommandScore` | script.js:518-530 | 3 exactly on a case-folded title match, 2 exactly on a prefix that is not a full match, otherwise 1 |
| `Providers.CommandRanking` | script.js:523-529 | an exact title match outranks every other match, and a prefix match outranks a non-prefix match |
| `Aggregation.Stamp` | script.js:236-242 | with categories on, a non-empty list and a non-empty name, element 0 gets the provider's name as its category; every other element, and the whole list otherwise, is unchanged |
| `Aggregation.Collected` | script.js:232-251 | `currentResults` after the provider loop: the contributions of the providers in order; no providers give `[]` and one provider gives its own contribution; `CollectedAppend`, `ThrowingProviderSkipped`, `ReturningProviderContributes` and `AllThrowingCollectNothing` state it for any number |
| `Aggregation.AllThrowingCollectNothing` | script.js:248-250 | when every provider throws, nothing is collected |
| `Aggregation.Contribution` | script.js:233-250 | a throwing provider contributes nothing; a returning one contributes as many results as it returned |
| `Aggregation.CollectedAppend` | script.js:232-251 | the collected list is the providers' contributions concatenated in provider order |
| `Aggregation.ThrowingProviderSkipped` | script.js:248-250 | a provider that throws adds nothing, and every later provider is still collected |
| `Aggregation.ReturningProviderContributes` | script.js:234-247 | a provider's list lands right after what came before it, exactly as `Stamp` makes it, so only its first element may gain the category |
| `Aggregation.SortByRelevance` | script.js:254 | sorted by non-increasing `relevance` (missing counts as 0), a permutation of the input, and stable: for every relevance, the entries with it keep their input order |
| `Aggregation.SortSortedIsIdentity` | script.js:254 | a list already sorted by descending relevance comes back from the sort unchanged |
| `Aggregation.StableSortUnique` | script.js:254 | any list that is sorted by descending relevance and is stable for its input equals `SortByRelevance` of that input |
| `Aggregation.SortedClassesDetermine` | script.js:254 | two sorted lists that agree, relevance by relevance, on their entries and their order are equal |
| `Aggregation.Slice` | script.js:257 | `slice(0, end)` is a prefix of length `min(end, n)` for `end >= 0`, or `max(n + end, 0)` for negative `end` |
| `Aggregation.Aggregate` | script.js:244-257 | `currentResults` at the end of `search`, defined as `Slice(SortByRelevance(Collected(..)), maxResults)`; sorted and no longer than the collected list; `AggregateShape`, `AggregateStable` and `AggregateKeepsBest` state the rest |
| `Aggregation.AggregateShape` | script.js:244-257 | the results are sorted, a sub-multiset of what was collected, and no longer than the collected list; for `maxResults >= 0` there are exactly `min(maxResults, total)` of them |
| `Aggregation.AggregateStable` | script.js:254-257 | for every relevance, the results with it are a prefix of the collected entries with it, in collection order |
| `Aggregation.AggregateKeepsBest` | script.js:254-257 | an entry cut off by `maxResults` is no more relevant than any result kept |
| `Scenarios.EmptyQueryOrdersNavigationFirst` | script.js:222-257 | with an empty query, `Home` (relevance 1, category `Navigation`) comes before `Toggle Dark Mode` (relevance 0.5, category `Commands`) |
| `Scenarios.ExactTitleRanksFirst` | script.js:518-530 | the query `about` gives the command `About` relevance 3, ranked above an earlier provider's relevance-1 entry |
| `Scenarios.ThrowingProviderIsIsolated` | script.js:233-250 | a provider that throws does not stop the next provider's results from appearing |
| `Palette.Configure` | script.js:8-16 | each option the caller gives wins; one left out takes its default: no providers, `maxResults` 15, categories on |
| `Palette.DefaultConfiguration` | script.js:8-16 | with no options the palette has no providers, at most 15 results and category headers |
| `Palette.Initial` | script.js:23-26 | a new palette is closed, has no results, has nothing selected, and is consistent |
| `Palette.SelectionInRange` | script.js:275 | while there are results, the selection lies in `[-1, len)` |
| `Palette.JsRem` | script.js:359 | JavaScript's `%`: the same as Dafny's on a non-negative dividend, in `(-n, 0]` on a negative one |
| `Palette.NextIndex` | script.js:359 | from -1 or from a row, the next index is a row; it is `i + 1`, wrapping from the last row to 0 |
| `Palette.PreviousIndex` | script.js:375-376 | `i <= 0`, including -1, goes to the last row, any other `i` to `i - 1`; the result is a row |
| `Palette.SelectNextState` | script.js:351-362 | no change without results or without rows; otherwise only the selection changes, to `NextIndex` of the row count, which is a row, with -1 going to 0; consistency is kept |
| `Palette.SelectPreviousState` | script.js:367-379 | no change without results or without rows; otherwise `i <= 0` goes to the last row and `i` to `i - 1`; consistency is kept |
| `Palette.PreviousUndoesNext` | script.js:351-379 | from a selected row, `selectPrevious` after `selectNext` restores the state |
| `Palette.NextUndoesPrevious` | script.js:351-379 | from a selected row, `selectNext` after `selectPrevious` restores the state |
| `Palette.SelectNextTimesIndex` | script.js:351-362 | with results and rows, repeated `selectNext` changes nothing but the selection |
| `Palette.NextIndexCycles` | script.js:359 | `n` steps on among `n` rows return to the starting row |
| `Palette.SelectNextCycles` | script.js:351-362 | from a selected row, pressing down once per row restores the state |
| `Palette.CloseState` | script.js:205-210 | afterwards the palette is closed; already closed, nothing changes; otherwise one clean-up is scheduled and nothing else changes |
| `Palette.ClearState` | script.js:212-216 | the clean-up empties the text field and the rows and resets the selection to -1, and leaves `currentResults` untouched |
| `Palette.RenderState` | script.js:270-275 | rendering shows one row per result and selects nothing |
| `Palette.SearchState` | script.js:222-265 | afterwards `currentResults` is the aggregation for the trimmed text, the rows show it, and `selectedIndex` is -1 |
| `Palette.OpenState` | script.js:188-200 | opening sets `isOpen`; the results are the aggregation for the trimmed text, all rendered, with nothing selected |
| `Palette.ToggleState` | script.js:177-183 | toggling flips `isOpen` and keeps consistency |
| `Palette.InputState` | script.js:90-92 | an input event stores the text; the results are the aggregation for the new trimmed text, all rendered, with nothing selected |
| `Palette.ClearAfterReopen` | script.js:188-216 | a clean-up pending from an earlier close, run after reopening, leaves an open palette with results but no rows, in which the arrow keys do nothing |
| `Palette.ExecuteResultState` | script.js:404-413 | a callable action is called; unless it throws, the palette closes when `keepOpen` is not `true`; a throwing action leaves the palette as it was |
| `Palette.ExecuteKeepOpen` | script.js:409-412 | `keepOpen === true` leaves `isOpen` as it was; any other value closes the palette |
| `Palette.FindByTitle` | script.js:390-392 | `find` by title returns the first position with that title, or none when no result has it |
| `Palette.Selected` | script.js:386-392 | the result `find` picks for the selected row: present only when a row is selected, and then a current result with the title that row shows; `SelectedResult` states which one |
| `Palette.SelectedResult` | script.js:384-398 | with a row selected, a result is found; it is at or before the selected position, has the selected result's title, and no earlier result has that title; it is the selected result itself when titles are distinct |
| `Palette.ExecuteSelectedState` | script.js:384-398 | with no matching row and result, nothing happens; consistency is kept |
| `Palette.EnterSelects` | script.js:116-119 | with results and nothing selected, the selection becomes 0; otherwise nothing changes; only the selection ever changes, and consistency is kept |
| `Palette.EnterState` | script.js:113-121 | Enter keeps consistency |
| `Palette.EnterWithoutResults` | script.js:113-121 | Enter with no results changes nothing and throws nothing |
| `Palette.EnterRunsFirst` | script.js:113-121 | Enter with results and nothing selected selects index 0 and runs the first result |
| `Palette.EnterRunsSelected` | script.js:113-121 | Enter on a selected row runs that row's result when titles are distinct |
| `Palette.EnterAfterClear` | script.js:113-121 | after the clean-up, Enter moves the selection from -1 to 0 and runs nothing |
| `Palette.KeyDownState` | script.js:95-123 | other keys change nothing; every key keeps consistency |
| `Palette.Omnibox.constructor` | script.js:6-30 | the configuration is the caller's options merged over the defaults; a new palette is closed, with no results, nothing selected and no rows |
| `Palette.Omnibox.Toggle` | script.js:177-183 | the new state is `ToggleState` of the old |
| `Palette.Omnibox.Open` | script.js:188-200 | the new state is `OpenState` of the old |
| `Palette.Omnibox.Close` | script.js:205-210 | the new state is `CloseState` of the old |
| `Palette.Omnibox.ClearAfterClose` | script.js:212-216 | the new state is `ClearState` of the old |
| `Palette.Omnibox.OnInput` | script.js:90-92 | the new state is `InputState` of the old |
| `Palette.Omnibox.Search` | script.js:222-265 | the provider loop keeps `currentResults` equal to the contributions so far; the new state is `SearchState` of the old |
| `Palette.Omnibox.RenderResults` | script.js:270-275 | the new state is `RenderState` of the old |
| `Palette.Omnibox.SelectNext` | script.js:351-362 | the new state is `SelectNextState` of the old |
| `Palette.Omnibox.SelectPrevious` | script.js:367-379 | the new state is `SelectPreviousState` of the old |
| `Palette.Omnibox.ExecuteResult` | script.js:404-413 | the new state is `ExecuteResultState` of the old; reports whether the action threw |
| `Palette.Omnibox.ExecuteSelected` | script.js:384-398 | the new state is `ExecuteSelectedState` of the old; reports whether the action run threw |
| `Palette.Omnibox.KeyDown` | script.js:95-123 | the new state is `KeyDownState` of the old; reports whether Enter ran an action that threw |

## Left out

- Rendering: the HTML built by `renderResults`, category headers,
  `highlightSelected` and `scrollIntoView`. These are presentation only; the
  model keeps the rendered rows' titles and the reset of the selection.
- The difference between a result's `title` and the row's `textContent`: an
  HTML-bearing title is taken to read back as itself.
- Icons, shortcut labels, `placeholder` and `emptyMessage`. They are read
  only by the HTML building in `renderResults` (script.js:280, 306, 312) and
  the input set-up in `initialize` (script.js:37), both left out.
- The `shortcut` option. It is key-binding configuration, read only by the
  document-level Ctrl/Cmd+K handler (script.js:54-56), and is left out with
  that handler under event wiring below.
- Timers. `open` searches at once; the clean-up of `close` is a separate
  operation. The hint's show/hide timers (`setupHint`) are not modelled.
- Interleaving of overlapping `search` calls. A search is one atomic,
  sequential pass over the providers' outcomes.
- Event wiring: the document-level Ctrl/Cmd+K and Escape handling, Mac
  detection, the click-outside and close-button handlers, the hint's handlers,
  and the result rows' click and key handlers. These only call the modelled
  operations (`Toggle`, `Close`, `Open`, `ExecuteResult`).
- What actions do. Theme handling, `localStorage`, navigation, `confirm` and
  `alert` belong to the sample actions. The sample routes and commands are
  data. An action that calls back into the palette is not modelled.
- `console.error` logging of a provider's failure.
- `Relevance` values that are not numbers, such as `NaN` or strings: relevance
  is a `real` or missing.
- `Text.Lower`: folds ASCII letters only, because Unicode case mapping is
  library behaviour.
- Aliasing of result objects. `search` stamps the category by assigning to
  the first returned object itself (script.js:240). If a provider's list
  holds one object twice, every reference is stamped. If a provider returns
  the same objects on a later search, the category stays on them.
  `Aggregation.Stamp`, `Aggregation.ReturningProviderContributes` and the loop
  in `Palette.Omnibox.Search` treat results as values, so they describe
  providers that return fresh objects. The navigation and command providers
  do build fresh objects (`{...item, relevance}`).
- Stateful providers. `External(name, reply)` gives the same outcome every
  time it is asked the same query. A provider whose answer changes from one
  call to the next, or depends on anything but the query, cannot be
  expressed.
- Palette.Configure: an option the caller passes explicitly as `undefined`
  overrides the default under JavaScript's spread; the model treats it as
  left out. The `placeholder` and `emptyMessage` defaults are read only
  by the HTML building and the input set-up, and the `shortcut` default is key-binding configuration for the
  event wiring; none of the three is modelled.
