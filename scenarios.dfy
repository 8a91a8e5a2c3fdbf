/** Concrete runs of the result pipeline on small provider setups. */
module Scenarios {
  import opened Text
  import opened Results
  import opened Providers
  import opened Aggregation

  function HomeRoute(): Result
  {
    Result("Home", Some("Return to the homepage"), [], None, None, Callable(0, false), None)
  }

  function ToggleDarkMode(): Result
  {
    Result("Toggle Dark Mode", Some("Switch between light and dark themes"),
           ["theme", "dark", "light", "mode"], None, None, Callable(1, false), None)
  }

  /** With an empty query and categories on, the navigation route (relevance
      1) comes before the command (relevance 0.5), each carrying its
      provider's name as its category. */
  lemma EmptyQueryOrdersNavigationFirst()
    ensures Aggregate([Navigation([HomeRoute()]), Commands([ToggleDarkMode()])], "", 15, true) ==
      [HomeRoute().(relevance := Some(1.0), category := Some("Navigation")),
       ToggleDarkMode().(relevance := Some(0.5), category := Some("Commands"))]
  {
    var home := HomeRoute().(relevance := Some(1.0), category := Some("Navigation"));
    var toggle := ToggleDarkMode().(relevance := Some(0.5), category := Some("Commands"));
    EmptyQueryCollects();
    assert SortedDesc([home, toggle]);
    SortSortedIsIdentity([home, toggle]);
  }

  /** Each built-in provider gives its entry for the empty query, stamped
      with its name. */
  lemma EmptyQueryCollects()
    ensures Collected([Navigation([HomeRoute()]), Commands([ToggleDarkMode()])], "", true) ==
      [HomeRoute().(relevance := Some(1.0), category := Some("Navigation")),
       ToggleDarkMode().(relevance := Some(0.5), category := Some("Commands"))]
  {
    var home := HomeRoute().(relevance := Some(1.0), category := Some("Navigation"));
    var toggle := ToggleDarkMode().(relevance := Some(0.5), category := Some("Commands"));
    var ps := [Navigation([HomeRoute()]), Commands([ToggleDarkMode()])];
    assert ps[..1] == [Navigation([HomeRoute()])];
    assert ps[..1][..0] == [];
    assert Contribution(ps[0], "", true) == [home];
    assert Contribution(ps[1], "", true) == [toggle];
  }

  function AboutCommand(): Result
  {
    Result("About", None, [], None, None, Callable(2, false), None)
  }

  function UnrelatedEntry(): Result
  {
    Result("Changelog", None, [], None, Some(1.0), NotCallable, None)
  }

  /** A command whose title is the query, in another case, scores 3 and is
      ranked above an entry of relevance 1 from a provider queried earlier. */
  lemma ExactTitleRanksFirst()
    ensures Aggregate([External("Other", q => Returned([UnrelatedEntry()])), Commands([AboutCommand()])], "about", 15, false) ==
      [AboutCommand().(relevance := Some(3.0)), UnrelatedEntry()]
  {
    var about := AboutCommand().(relevance := Some(3.0));
    var ps := [External("Other", q => Returned([UnrelatedEntry()])), Commands([AboutCommand()])];
    AboutMatchesExactly();
    assert ps[..1][..0] == [];
    assert Contribution(ps[0], "about", false) == [UnrelatedEntry()];
    assert Contribution(ps[1], "about", false) == [about];
    assert ps[..1] == [ps[0]];
    assert Collected(ps, "about", false) == [UnrelatedEntry(), about];
    assert Insert(about, []) == [about];
    assert SortByRelevance([UnrelatedEntry(), about]) == [about, UnrelatedEntry()];
  }

  /** The command provider answers `about` with `About` at relevance 3. */
  lemma AboutMatchesExactly()
    ensures CommandResults([AboutCommand()], "about") == [AboutCommand().(relevance := Some(3.0))]
  {
    assert Lower("About") == "about" by {
      assert LowerChar('A') == 'a';
    }
    assert CommandMatches(AboutCommand(), "about") by {
      assert OccursAt(Lower("About"), Lower("about"), 0);
    }
    assert CommandScore(AboutCommand(), "about") == 3.0;
  }

  /** A provider that throws is skipped; the others still contribute. */
  lemma ThrowingProviderIsIsolated()
    ensures Aggregate([External("Broken", q => Threw), Navigation([HomeRoute()])], "", 15, true) ==
      [HomeRoute().(relevance := Some(1.0), category := Some("Navigation"))]
  {
    var home := HomeRoute().(relevance := Some(1.0), category := Some("Navigation"));
    var ps := [External("Broken", q => Threw), Navigation([HomeRoute()])];
    assert ps[..1][..0] == [];
    assert ps[..1] == [ps[0]];
    assert Contribution(ps[0], "", true) == [];
    assert Contribution(ps[1], "", true) == [home];
    assert Collected(ps, "", true) == [home];
  }
}
