/** The repository list view of components/repositories-list.tsx: a
    case-insensitive search over names and descriptions, an optional
    exclusion of "tsk" repositories in dark mode, and a stable sort on a
    chosen key over a fresh copy of the filtered list. The view's state (the
    query, the sort key, the switch) and the resolved theme are read as
    inputs; parsing of the update timestamps is the parameter `timeOf`. */
module RepositoriesList {
  import opened Types
  import Text
  import StableSort
  import Lists
  import GitHub

  /** The filter and sort controls as the view reads them. */
  datatype Controls = Controls(searchQuery: string, sortBy: string, ignoreTskWork: bool, isDarkMode: bool)

  /** The search test: the lowercased query occurs in the lowercased name, or
      the description is present and its lowercased text contains it. */
  predicate MatchesSearch(repo: Repository, query: string)
  {
    var q := Text.ToLower(query);
    || Text.Includes(Text.ToLower(repo.name), q)
    || (Truthy(repo.description) && Text.Includes(Text.ToLower(repo.description.value), q))
  }

  predicate NameHasTsk(repo: Repository)
  {
    Text.Includes(Text.ToLower(repo.name), "tsk")
  }

  /** The predicate given to `filter`. */
  predicate Keep(c: Controls, repo: Repository)
  {
    if c.isDarkMode && c.ignoreTskWork then MatchesSearch(repo, c.searchQuery) && !NameHasTsk(repo)
    else MatchesSearch(repo, c.searchQuery)
  }

  /** The filter callback as a function value. */
  function KeepUnder(c: Controls): Repository -> bool
  {
    (repo: Repository) => Keep(c, repo)
  }

  /** `repositories.filter(...)`: the kept repositories, in their order. */
  function FilteredRepos(c: Controls, repos: seq<Repository>): (r: seq<Repository>)
    ensures multiset(r) <= multiset(repos)
    ensures forall x :: x in r <==> x in repos && Keep(c, x)
  {
    Lists.SelectCounts(repos, KeepUnder(c));
    Lists.Select(repos, KeepUnder(c))
  }

  /** Each kept repository occurs in the result as often as in the input;
      every other occurs not at all. */
  lemma FilteredCounts(c: Controls, repos: seq<Repository>)
    ensures forall x :: multiset(FilteredRepos(c, repos))[x] == if Keep(c, x) then multiset(repos)[x] else 0
  {
    Lists.SelectCounts(repos, KeepUnder(c));
  }

  /** Filtering works piecewise: the kept repositories of a list stay in the
      list's order. */
  lemma FilteredAppend(c: Controls, a: seq<Repository>, b: seq<Repository>)
    ensures FilteredRepos(c, a + b) == FilteredRepos(c, a) + FilteredRepos(c, b)
  {
    Lists.SelectAppend(a, b, KeepUnder(c));
  }

  /** A single repository is kept exactly when the filter keeps it. */
  lemma FilteredSingle(c: Controls, repo: Repository)
    ensures FilteredRepos(c, [repo]) == if Keep(c, repo) then [repo] else []
  {
    Lists.SelectSingle(repo, KeepUnder(c));
  }

  /** The comparator for a sort key; `a.name.localeCompare(b.name)` is taken
      as ordinal comparison. An unknown key compares everything as equal. */
  function CompareRepos(sortBy: string, timeOf: string -> int, a: Repository, b: Repository): real
  {
    if sortBy == "stars" then (b.stars - a.stars) as real
    else if sortBy == "forks" then (b.forks - a.forks) as real
    else if sortBy == "updated" then (timeOf(b.updatedAt) - timeOf(a.updatedAt)) as real
    else if sortBy == "name" then Text.CompareStrings(a.name, b.name) as real
    else 0.0
  }

  function Comparator(sortBy: string, timeOf: string -> int): (Repository, Repository) -> real
  {
    (a: Repository, b: Repository) => CompareRepos(sortBy, timeOf, a, b)
  }

  /** The list the view renders. */
  function VisibleRepos(c: Controls, timeOf: string -> int, repos: seq<Repository>): seq<Repository>
  {
    StableSort.Sort(FilteredRepos(c, repos), Comparator(c.sortBy, timeOf))
  }

  /** The rendered list rearranges a sub-list of the input: it holds each kept
      repository as often as the input does, and nothing else. */
  lemma VisibleIsPermutedSublist(c: Controls, timeOf: string -> int, repos: seq<Repository>)
    ensures multiset(VisibleRepos(c, timeOf, repos)) == multiset(FilteredRepos(c, repos))
    ensures multiset(VisibleRepos(c, timeOf, repos)) <= multiset(repos)
    ensures forall x :: x in VisibleRepos(c, timeOf, repos) <==> x in repos && Keep(c, x)
  {
    var f, v := FilteredRepos(c, repos), VisibleRepos(c, timeOf, repos);
    forall x ensures x in v <==> x in f {
      assert x in v <==> x in multiset(v);
      assert x in f <==> x in multiset(f);
    }
  }

  /** The empty query is contained in every name. */
  lemma EmptyQueryMatchesAll(repo: Repository)
    ensures MatchesSearch(repo, "")
  {
    Text.IncludesEmpty(Text.ToLower(repo.name));
  }

  /** With the empty query and the "tsk" switch inactive, nothing is filtered out. */
  lemma EmptyQueryKeepsAll(c: Controls, repos: seq<Repository>)
    requires c.searchQuery == "" && !(c.isDarkMode && c.ignoreTskWork)
    ensures FilteredRepos(c, repos) == repos
  {
    forall i | 0 <= i < |repos| ensures Keep(c, repos[i]) {
      EmptyQueryMatchesAll(repos[i]);
    }
    Lists.SelectAll(repos, KeepUnder(c));
  }

  /** In dark mode with the switch on, no rendered name contains "tsk". */
  lemma TskExcluded(c: Controls, timeOf: string -> int, repos: seq<Repository>)
    requires c.isDarkMode && c.ignoreTskWork
    ensures forall x :: x in VisibleRepos(c, timeOf, repos) ==> !NameHasTsk(x)
  {
    VisibleIsPermutedSublist(c, timeOf, repos);
  }

  /** Outside that mode the switch has no effect: the result is that of the
      search alone. */
  lemma TskSwitchInactive(c: Controls, repos: seq<Repository>)
    requires !(c.isDarkMode && c.ignoreTskWork)
    ensures FilteredRepos(c, repos) == FilteredRepos(Controls(c.searchQuery, c.sortBy, false, false), repos)
  {
    Lists.SelectAgree(repos, KeepUnder(c), KeepUnder(Controls(c.searchQuery, c.sortBy, false, false)));
  }

  /** The comparator of a known numeric key orders by that key, and the name
      comparator by name; each is a total preorder. */
  lemma ComparatorIsPreorder(sortBy: string, timeOf: string -> int)
    ensures StableSort.TotalPreorder(Comparator(sortBy, timeOf))
  {
    var cmp := Comparator(sortBy, timeOf);
    if sortBy == "name" {
      forall x: Repository, y: Repository ensures cmp(x, y) <= 0.0 || cmp(y, x) <= 0.0 {
        Text.CompareAntisymmetric(x.name, y.name);
      }
      forall x: Repository, y: Repository, z: Repository | cmp(x, y) <= 0.0 && cmp(y, z) <= 0.0
        ensures cmp(x, z) <= 0.0
      {
        Text.CompareTransitive(x.name, y.name, z.name);
      }
    }
  }

  /** Sorting by "stars" or "forks" gives non-increasing counts, by "updated"
      non-increasing timestamps, and by "name" ascending names. */
  lemma VisibleReposOrdered(c: Controls, timeOf: string -> int, repos: seq<Repository>)
    ensures var v := VisibleRepos(c, timeOf, repos);
      && (c.sortBy == "stars" ==> forall i, j :: 0 <= i < j < |v| ==> v[i].stars >= v[j].stars)
      && (c.sortBy == "forks" ==> forall i, j :: 0 <= i < j < |v| ==> v[i].forks >= v[j].forks)
      && (c.sortBy == "updated" ==> forall i, j :: 0 <= i < j < |v| ==> timeOf(v[i].updatedAt) >= timeOf(v[j].updatedAt))
      && (c.sortBy == "name" ==> forall i, j :: 0 <= i < j < |v| ==> Text.CompareStrings(v[i].name, v[j].name) <= 0)
  {
    var cmp := Comparator(c.sortBy, timeOf);
    var v := VisibleRepos(c, timeOf, repos);
    VisibleSorted(c, timeOf, repos);
    if c.sortBy == "stars" {
      forall i, j | 0 <= i < j < |v| ensures v[i].stars >= v[j].stars {
        assert cmp(v[i], v[j]) <= 0.0;
      }
    } else if c.sortBy == "forks" {
      forall i, j | 0 <= i < j < |v| ensures v[i].forks >= v[j].forks {
        assert cmp(v[i], v[j]) <= 0.0;
      }
    } else if c.sortBy == "updated" {
      forall i, j | 0 <= i < j < |v| ensures timeOf(v[i].updatedAt) >= timeOf(v[j].updatedAt) {
        assert cmp(v[i], v[j]) <= 0.0;
      }
    } else if c.sortBy == "name" {
      forall i, j | 0 <= i < j < |v| ensures Text.CompareStrings(v[i].name, v[j].name) <= 0 {
        assert cmp(v[i], v[j]) <= 0.0;
      }
    }
  }

  /** The rendered list is sorted by the comparator of its key. */
  lemma VisibleSorted(c: Controls, timeOf: string -> int, repos: seq<Repository>)
    ensures StableSort.SortedBy(VisibleRepos(c, timeOf, repos), Comparator(c.sortBy, timeOf))
  {
    ComparatorIsPreorder(c.sortBy, timeOf);
    StableSort.SortSorted(FilteredRepos(c, repos), Comparator(c.sortBy, timeOf));
  }

  /** An unrecognised sort key keeps the filtered order: the comparator says
      "equal" everywhere and the sort is stable. */
  lemma UnknownKeyKeepsOrder(c: Controls, timeOf: string -> int, repos: seq<Repository>)
    requires c.sortBy !in {"stars", "forks", "updated", "name"}
    ensures VisibleRepos(c, timeOf, repos) == FilteredRepos(c, repos)
  {
    StableSort.SortAllEqual(FilteredRepos(c, repos), Comparator(c.sortBy, timeOf));
  }

  /** Stability: repositories the comparator ties with `x` are rendered in
      their filtered order. */
  lemma TiesKeepFilteredOrder(c: Controls, timeOf: string -> int, repos: seq<Repository>, x: Repository)
    ensures var tied := (y: Repository) => StableSort.Tied(Comparator(c.sortBy, timeOf), x, y);
      Lists.Select(VisibleRepos(c, timeOf, repos), tied) == Lists.Select(FilteredRepos(c, repos), tied)
  {
    ComparatorIsPreorder(c.sortBy, timeOf);
    StableSort.SortStable(FilteredRepos(c, repos), Comparator(c.sortBy, timeOf), x);
  }

  /** Sorted by "stars", repositories with the same star count keep their
      filtered order. */
  lemma EqualStarsKeepFilteredOrder(c: Controls, timeOf: string -> int, repos: seq<Repository>, stars: nat)
    requires c.sortBy == "stars"
    ensures Lists.Select(VisibleRepos(c, timeOf, repos), (y: Repository) => y.stars == stars)
      == Lists.Select(FilteredRepos(c, repos), (y: Repository) => y.stars == stars)
  {
    StableSort.SortKeepsGroupOrder(FilteredRepos(c, repos), Comparator(c.sortBy, timeOf), (y: Repository) => y.stars == stars);
  }

  /** The language badge of a card: the language and its colour, shown only
      for a truthy language. */
  function LanguageBadge(repo: Repository): Option<(string, string)>
  {
    if Truthy(repo.language) then Some((repo.language.value, GitHub.LanguageColor(repo.language.value))) else None
  }

  /** A badge shows exactly for a truthy language; its colour is the table's
      for the 14 listed languages and the fallback for every other. */
  lemma LanguageBadgeColor(repo: Repository)
    ensures LanguageBadge(repo).Some? <==> Truthy(repo.language)
    ensures LanguageBadge(repo).Some? ==>
      var lang := repo.language.value;
      && LanguageBadge(repo).value.0 == lang
      && (lang in GitHub.LanguageColors ==> LanguageBadge(repo).value.1 == GitHub.LanguageColors[lang])
      && (lang !in GitHub.LanguageColors ==> LanguageBadge(repo).value.1 == GitHub.DefaultLanguageColor)
  {
    if Truthy(repo.language) {
      GitHub.LanguageColorLookup(repo.language.value);
    }
  }
}
