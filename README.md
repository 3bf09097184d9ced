# DevRank profile analyzer: a Dafny model

DevRank turns a GitHub user into a "developer profile". It fetches the user
record and the repositories and totals the stars and forks. It computes the
language distribution and four tiered sub-scores (repository quality,
contribution activity, community engagement, profile completeness), combines
them into a weighted Dev Score, and hands out achievement badges and
improvement tips. Four interface components then work on that profile:

- the repository list, with search, a "tsk" exclusion and sorting;
- the bookmark list, with removal and price-alert switches;
- the expandable tip cards;
- the contribution heatmap.

This project models that core in Dafny and proves what it promises.

Modules, one per source file plus four shared helpers:

- `Types`: the record shapes. Nullable JSON fields are `Option`s, and `Truthy`
  is JavaScript truthiness: `null` and `""` are falsy.
- `Lists`: `filter`, `filter(...).length` and the `reduce` sum, defined once
  over any element type, with the lemmas the filters of the views share.
- `Text`: ASCII `toLowerCase`, `includes`, an ordinal `localeCompare`, and
  decimal rendering with its inverse.
- `StableSort`: `Array.prototype.sort` with a comparator, as a stable
  insertion sort, with its ordering, permutation and sum lemmas, and
  stability: elements the comparator ties keep their input order.
- `GitHub` (lib/github.ts): the derivation of a profile from the
  already-fetched user record, repositories and contribution calendar. Each
  sub-score has a specification (50 plus 5 points per tier passed, capped at
  100; community engagement also gets 5 points from the originality
  cascade's final `else`, so with repositories it is never below 55) and a
  method that runs the source's `let score` cascade, proved equal to it. Averages and ratios are compared by exact cross-multiplication, and
  a division by zero follows JavaScript (0/0 is NaN, x/0 is Infinity). The
  language map is filled by a loop and specified by first-use order and
  per-language counts. Badges and tips are built by appending and specified
  by "present exactly when".
- `RepositoriesList` (components/repositories-list.tsx): the filter
  predicate, the sort comparators and the language badge.
- `BookmarkedProducts` (components/bookmarked-products.tsx): a class whose
  `bookmarks` field the two handlers replace, plus the card and empty-state
  rendering.
- `ImprovementTips` (components/improvement-tips.tsx): a class holding the
  `expandedTip` slot, plus the three priority lookups.
- `ContributionGraph` (components/contribution-graph.tsx): the colour scale,
  the intensity `count / max` as an exact rational, or NaN or Infinity where
  JavaScript gives them, and the drawing loop as the list of cells it fills.

## Model

| member | source | states |
|---|---|---|
| Types.Truthy | lib/github.ts:61 | JavaScript truthiness of a nullable string: false for `null` and for `""`, true otherwise |
| Lists.Select | components/repositories-list.tsx:33-45 | `filter`: the result is no longer than the input, holds only input elements the callback accepts, and holds every one it accepts |
| Lists.SelectAppend | components/repositories-list.tsx:33-45 | filtering a concatenation concatenates the filtered parts, so kept elements stay in input order |
| Lists.SelectSingle | components/repositories-list.tsx:33-45 | a one-element list is kept exactly when the callback accepts its element |
| Lists.SelectCounts | components/repositories-list.tsx:33-45 | an accepted element occurs as often as in the input, any other not at all |
| Lists.SelectAll | components/bookmarked-products.tsx:50 | a callback that accepts every element keeps the list unchanged |
| Lists.SelectAgree | components/repositories-list.tsx:40-44 | two callbacks that agree on every element select the same list |
| Lists.Count | lib/github.ts:254 | `filter(p).length` never exceeds the length of the list |
| Lists.Sum | lib/github.ts:55-56 | the `reduce` sum of a measure over a list, from 0; SumAppend and SumBoundsEach state its properties |
| Lists.SumAppend | lib/github.ts:55-56 | the `reduce` sum over a concatenation is the sum of the two sums |
| Lists.SumBoundsEach | lib/github.ts:55-56 | no element contributes more than the total |
| Text.ToLower | components/repositories-list.tsx:36-37 | lowercasing keeps the length and lowercases each ASCII letter in place |
| Text.Includes | components/repositories-list.tsx:36-37 | `s.includes(q)`: q occurs in s at some offset; IncludesEmpty states the empty-query case |
| Text.IncludesEmpty | components/repositories-list.tsx:36 | every string includes the empty string |
| Text.CompareStrings | components/repositories-list.tsx:57 | the name comparison returns -1, 0 or 1, and 0 exactly for equal strings |
| Text.CompareAntisymmetric | components/repositories-list.tsx:57 | swapping the two names negates the comparison |
| Text.CompareTransitive | components/repositories-list.tsx:57 | "sorts no later than" is transitive |
| Text.NatToString | lib/github.ts:334 | the `${n}` rendering is a non-empty digit string with no leading zero |
| Text.ParseNatToString | lib/github.ts:334 | reading the rendering back as decimal gives the number |
| Text.NatToStringInjective | lib/github.ts:334 | different counts render differently |
| StableSort.Insert | lib/github.ts:74 | inserting adds exactly one element and keeps the others |
| StableSort.Sort | lib/github.ts:74 | the sorted list is a permutation of the input |
| StableSort.InsertSorted | components/repositories-list.tsx:48-61 | inserting into an ordered list under a consistent comparator keeps it ordered |
| StableSort.SortSorted | components/repositories-list.tsx:48-61 | the sorted list is ordered by any consistent comparator |
| StableSort.SortAllEqual | components/repositories-list.tsx:58-59 | a comparator that calls everything equal keeps the input order (stability) |
| StableSort.InsertSelect | components/repositories-list.tsx:48-61 | inserting an element that sorts no later than every member of a group leaves that group in order, with the element in front when it belongs to it |
| StableSort.SortKeepsGroupOrder | components/repositories-list.tsx:48-61 | a group the comparator calls mutually equal keeps its input order in the sorted list |
| StableSort.SortStable | components/repositories-list.tsx:48-61 | under a total preorder, the elements tied with any given one appear in the sorted list in their input order (stability) |
| StableSort.InsertPreservesSum | lib/github.ts:68-74 | insertion adds the inserted element's measure to the sum |
| StableSort.SortPreservesSum | lib/github.ts:68-74 | sorting does not change the sum of any measure |
| StableSort.InsertKeepsKeysDistinct | lib/github.ts:74 | inserting an element with a new key keeps keys distinct |
| StableSort.SortKeepsKeysDistinct | lib/github.ts:74 | sorting keeps keys distinct |
| GitHub.TotalStars | lib/github.ts:55 | the star total, the sum of the star counts; DeriveProfile stores it |
| GitHub.TotalForks | lib/github.ts:56 | the fork total, the sum of the fork counts; DeriveProfile stores it |
| GitHub.TotalIssues | lib/github.ts:241 | the issue total, the sum of the open-issue counts; the engagement score and the profile's stats use it |
| GitHub.TotalContributions | lib/github.ts:215 | the sum of the daily counts; the activity score and the profile's stats use it |
| GitHub.ActiveDays | lib/github.ts:216 | the number of days with a positive count, a `Count`, so at most the number of days |
| GitHub.RatioAbove | lib/github.ts:198-208 | the test `total / n > t` of every tier cascade (also lines 204-208, 222-232, 247-260 and 371), decided as `t.den * total > t.num * n`; for n = 0 it is false for 0 / 0 (NaN) and true for a positive total (Infinity); RatioAboveMonotone and TiersPassedNaN state its behaviour |
| GitHub.TiersPassed | lib/github.ts:198-208 | a ratio passes at most as many tiers as there are |
| GitHub.RatioAboveMonotone | lib/github.ts:198-208 | a ratio at least as large passes every threshold the smaller one passes |
| GitHub.TiersPassedMonotone | lib/github.ts:198-208 | a larger ratio passes at least as many tiers |
| GitHub.TiersPassedNaN | lib/github.ts:217 | the NaN ratio 0/0 passes no tier |
| GitHub.RepositoryQuality | lib/github.ts:187-211 | repository quality lies in [50, 100] and is exactly 50 without repositories |
| GitHub.ContributionActivity | lib/github.ts:214-235 | contribution activity lies in [50, 100] |
| GitHub.CommunityEngagement | lib/github.ts:238-263 | engagement lies in [50, 100]; it is 50 exactly for no repositories and at least 55 otherwise |
| GitHub.PresentPoints | lib/github.ts:270-276 | the points of the present fields never exceed the points of all fields |
| GitHub.CompletenessPoints | lib/github.ts:270-276 | the seven fields are worth 50 in all: name 10, bio 10, location 5, company 5, blog 5, twitter 5, email 10 |
| GitHub.ProfileCompleteness | lib/github.ts:266-279 | profile completeness lies in [50, 100] |
| GitHub.CalculateRepositoryQuality | lib/github.ts:187-211 | the star and fork cascades give exactly the repository-quality specification |
| GitHub.CalculateContributionActivity | lib/github.ts:214-235 | the volume and consistency cascades give exactly the activity specification |
| GitHub.CalculateCommunityEngagement | lib/github.ts:238-263 | the issue and originality cascades, ending in +5, give exactly the engagement specification |
| GitHub.CalculateProfileCompleteness | lib/github.ts:266-279 | adding each present field's points gives exactly the completeness specification |
| GitHub.RepositoryQualityMonotone | lib/github.ts:187-211 | higher star and fork averages never lower repository quality |
| GitHub.ContributionActivityMonotone | lib/github.ts:214-235 | more contributions, or a higher share of active days, never lower activity |
| GitHub.PresentPointsMonotone | lib/github.ts:270-276 | having more fields present never lowers the points |
| GitHub.PresentPointsAll | lib/github.ts:270-276 | the present points equal all points exactly when every field is present |
| GitHub.ProfileCompletenessMonotone | lib/github.ts:266-279 | filling in more fields never lowers completeness |
| GitHub.ProfileCompletenessFull | lib/github.ts:266-279 | completeness is 100 exactly when all seven fields are present |
| GitHub.WeightedSum | lib/github.ts:85-87 | the weighted sum 0.4 q + 0.3 a + 0.2 e + 0.1 c, exactly; DevScore rounds it |
| GitHub.DevScore | lib/github.ts:85-87 | the Dev Score is the weighted sum rounded half up, and sub-scores in [50, 100] give a Dev Score in [50, 100] |
| GitHub.LanguageColorLookup | lib/github.ts:144-163 | a listed language gets its table colour; the fallback `#8257e5` is used exactly for unlisted languages |
| GitHub.LanguageColor | lib/github.ts:144-163 | the colour table lookup, falling back to `#8257e5` for a missing or empty entry; LanguageColorLookup states its result |
| GitHub.ReposWithLanguage | lib/github.ts:67 | the number of repositories with a truthy language, the denominator of every percentage |
| GitHub.LanguageCount | lib/github.ts:59-65 | the value the map holds for a language: the number of repositories with that language; CountsOverStep and LanguageCountsAddUp state it |
| GitHub.LanguageOrder | lib/github.ts:59-65 | the map keys are distinct, and a language is a key exactly when some repository uses it |
| GitHub.CountsOverStep | lib/github.ts:60-64 | one more repository adds one to the counts exactly when its language is among the keys |
| GitHub.CountsOverAppend | lib/github.ts:60-64 | one more key adds that language's count |
| GitHub.LanguageCountsAddUp | lib/github.ts:59-67 | the per-language counts add up to the number of repositories with a language |
| GitHub.Percentage | lib/github.ts:71 | `(count / total) * 100` for a positive total; SharesSum and WholeShare state its sums |
| GitHub.ByPercentage | lib/github.ts:74 | the comparator `b.percentage - a.percentage`; LanguageSharesSorted and EqualSharesKeepMapOrder state the order it gives |
| GitHub.SharesOf | lib/github.ts:68-73 | one entry per key: its name, count / total x 100 and its colour |
| GitHub.LanguageList | lib/github.ts:67-73 | the unsorted list built from the map entries, empty when no repository has a language; LanguageListEntries and LanguageListSum state its contents |
| GitHub.LanguageShares | lib/github.ts:59-74 | the distribution: that list sorted by decreasing percentage; the LanguageShares lemmas state its contents and order |
| GitHub.NoLanguageNoEntries | lib/github.ts:59-67 | the map is empty exactly when no repository has a language |
| GitHub.SharesSum | lib/github.ts:68-73 | the shares of a list of keys sum to their combined count over the total x 100 |
| GitHub.SortedSharesSum | lib/github.ts:74 | sorting the language list does not change the percentage sum |
| GitHub.LanguageListSum | lib/github.ts:67-73 | the unsorted percentages sum to 100 when some repository has a language |
| GitHub.LanguageSharesSumTo100 | lib/github.ts:59-74 | the distribution's percentages sum to 100 when some repository has a language |
| GitHub.LanguageSharesSorted | lib/github.ts:74 | the distribution is sorted by non-increasing percentage |
| GitHub.EqualSharesKeepMapOrder | lib/github.ts:74 | languages with the same percentage keep the map's first-use order in the sorted distribution |
| GitHub.LanguageListEntries | lib/github.ts:68-73 | the unsorted list holds, in key order, each language with count / with-language x 100 and its colour |
| GitHub.LanguageSharesNamesDistinct | lib/github.ts:59-74 | each language appears once in the distribution |
| GitHub.LanguageSharesEntries | lib/github.ts:59-74 | every entry is a used language with percentage = count / with-language x 100 and its colour |
| GitHub.LanguageSharesComplete | lib/github.ts:59-74 | every language some repository uses appears in the distribution |
| GitHub.LanguageSharesEmpty | lib/github.ts:59-74 | the distribution is empty exactly when no repository has a truthy language |
| GitHub.KeyIndex | lib/github.ts:62 | the lookup finds the first entry with the key, or reports that none has it |
| GitHub.TallyLanguages | lib/github.ts:59-65 | the map filled by the loop holds the languages in first-use order, each with its repository count |
| GitHub.ComputeLanguages | lib/github.ts:59-74 | the computed distribution is the specified one: shares of the tallied counts, sorted by decreasing share |
| GitHub.HasPopularRepository | lib/github.ts:304 | `repositories.some((repo) => repo.stars >= 100)`: some repository has 100 or more stars |
| GitHub.GenerateAchievements | lib/github.ts:282-322 | the badges are Arctic Code Vault first and Galaxy Brain last; Pull Shark appears exactly for 5 or more repositories and Starstruck exactly when a repository has 100 or more stars; no other badges; ids ascend |
| GitHub.DescriptionTip | lib/github.ts:330-345 | the tip1 object with the count of undescribed repositories in its description; DescriptionTipReportsCount states what the description shows |
| GitHub.DescriptionTipReportsCount | lib/github.ts:334 | the tip1 description opens with the number of undescribed repositories in decimal |
| GitHub.MissingDescriptions | lib/github.ts:329 | the number of repositories whose description is falsy |
| GitHub.MostlyForks | lib/github.ts:369-370 | the tip3 condition: forks / n > 0.7, by cross-multiplication (false for n = 0, where the ratio is NaN), and n > 3 |
| GitHub.PickInOrder | lib/github.ts:325-395 | appending a chosen subset of the three tips in order keeps exactly the chosen ones, in id order |
| GitHub.ChosenTips | lib/github.ts:325-395 | the tips whose conditions hold, in the order they are pushed; ChosenTipsMeetSpec states that it meets the tip specification |
| GitHub.ChosenTipsMeetSpec | lib/github.ts:325-395 | the tips whose conditions hold meet the tip specification, and tip3 never appears for no repositories |
| GitHub.GenerateImprovementTips | lib/github.ts:325-395 | tip1 appears exactly when some description is missing, tip2 exactly when the bio is falsy, tip3 exactly when forks/n > 0.7 and n > 3; no other tips; ids ascend; never tip3 for no repositories |
| GitHub.ComputeScores | lib/github.ts:80-87 | the four sub-scores are the specified ones, and the Dev Score is their rounded weighted sum, in [50, 100] |
| GitHub.DeriveProfile | lib/github.ts:55-136 | the profile holds the star and fork totals, the specified distribution, the four specified sub-scores, a Dev Score from them in [50, 100], the specified badges and tips, the name fallback to the login, `hireable` true only for `true`, the commit and issue totals, the repositories and calendar it was given, and the login, avatar, bio, company, location, blog, email, twitter name, follower and following counts, repository and gist counts and update time copied from the user record |
| RepositoriesList.NameHasTsk | components/repositories-list.tsx:41 | the lowercased name contains "tsk"; TskExcluded states that such names are hidden |
| RepositoriesList.Keep | components/repositories-list.tsx:33-45 | the filter predicate: the search match, and in dark mode with the switch on also no "tsk" in the lowercased name; FilteredRepos, TskExcluded and TskSwitchInactive state its effect |
| RepositoriesList.MatchesSearch | components/repositories-list.tsx:35-37 | the lowercased query occurs in the lowercased name, or the description is truthy and its lowercased text contains it; EmptyQueryMatchesAll states a consequence |
| RepositoriesList.FilteredRepos | components/repositories-list.tsx:33-45 | the filtered list is a sub-multiset of the input, and it holds a repository exactly when the input does and the filter keeps it |
| RepositoriesList.FilteredCounts | components/repositories-list.tsx:33-45 | a kept repository occurs in the filtered list as often as in the input, any other not at all |
| RepositoriesList.FilteredAppend | components/repositories-list.tsx:33-45 | filtering a concatenation concatenates the filtered parts, so the kept repositories stay in input order |
| RepositoriesList.FilteredSingle | components/repositories-list.tsx:33-45 | a one-repository list is kept exactly when the filter keeps its repository |
| RepositoriesList.VisibleIsPermutedSublist | components/repositories-list.tsx:33-61 | the rendered list is a permutation of the filtered list, so a sub-multiset of the input |
| RepositoriesList.EmptyQueryMatchesAll | components/repositories-list.tsx:35-37 | the empty query matches every repository |
| RepositoriesList.EmptyQueryKeepsAll | components/repositories-list.tsx:33-45 | with the empty query and the "tsk" switch inactive, nothing is filtered out |
| RepositoriesList.TskExcluded | components/repositories-list.tsx:40-44 | in dark mode with the switch on, no rendered lowercased name contains "tsk" |
| RepositoriesList.TskSwitchInactive | components/repositories-list.tsx:40-44 | outside dark mode, or with the switch off, the result is that of the search alone |
| RepositoriesList.CompareRepos | components/repositories-list.tsx:48-61 | the comparator of each sort key, and 0 for any other key; ComparatorIsPreorder and VisibleReposOrdered state what it orders by |
| RepositoriesList.VisibleRepos | components/repositories-list.tsx:33-61 | the rendered list: the filtered list sorted stably by the comparator; the lemmas below state its contents and order |
| RepositoriesList.ComparatorIsPreorder | components/repositories-list.tsx:48-61 | every sort key's comparator is a consistent total preorder |
| RepositoriesList.VisibleReposOrdered | components/repositories-list.tsx:48-61 | "stars" and "forks" give non-increasing counts, "updated" non-increasing timestamps, "name" ascending names |
| RepositoriesList.VisibleSorted | components/repositories-list.tsx:48-61 | the rendered list is ordered by the comparator of its sort key |
| RepositoriesList.UnknownKeyKeepsOrder | components/repositories-list.tsx:58-59 | an unknown sort key keeps the filtered order |
| RepositoriesList.TiesKeepFilteredOrder | components/repositories-list.tsx:48-61 | repositories the comparator ties with a given one are rendered in their filtered order |
| RepositoriesList.EqualStarsKeepFilteredOrder | components/repositories-list.tsx:50-51 | sorted by "stars", repositories with the same star count keep their filtered order |
| RepositoriesList.LanguageBadge | components/repositories-list.tsx:119-127 | the badge of a card: the language and its colour, only for a truthy language; LanguageBadgeColor states it |
| RepositoriesList.LanguageBadgeColor | components/repositories-list.tsx:119-127 | a badge shows exactly for a truthy language, coloured by the table or by the fallback (duplicate of lines 159-178) |
| BookmarkedProducts.Without | components/bookmarked-products.tsx:50 | removal keeps exactly the bookmarks whose id differs and never lengthens the list |
| BookmarkedProducts.WithoutAppend | components/bookmarked-products.tsx:50 | removal works piecewise, so the kept bookmarks stay in their order |
| BookmarkedProducts.WithoutAbsent | components/bookmarked-products.tsx:50 | removing an id no bookmark has leaves the list unchanged |
| BookmarkedProducts.RemoveOne | components/bookmarked-products.tsx:49-51 | removing the id of one bookmark drops exactly that one and keeps the rest in order |
| BookmarkedProducts.RemoveAt | components/bookmarked-products.tsx:49-51 | with distinct ids, removing the id of the bookmark at position i gives the list without position i |
| BookmarkedProducts.WithoutKeepsIdsDistinct | components/bookmarked-products.tsx:50 | removal keeps ids distinct |
| BookmarkedProducts.Flipped | components/bookmarked-products.tsx:55 | `{ ...bookmark, priceAlert: !bookmark.priceAlert }`: the bookmark with only its alert switched; Toggled states the effect on the list |
| BookmarkedProducts.Toggled | components/bookmarked-products.tsx:55 | switching keeps length and order, changes no field but `priceAlert`, and changes it exactly where the id matches |
| BookmarkedProducts.ToggleTwice | components/bookmarked-products.tsx:55 | switching the same id twice restores the list |
| BookmarkedProducts.ToggleCommutes | components/bookmarked-products.tsx:55 | switching two ids in either order gives the same list |
| BookmarkedProducts.BookmarkList.constructor | components/bookmarked-products.tsx:13-47 | the state starts as the three initial bookmarks, with distinct ids |
| BookmarkedProducts.BookmarkList.RemoveBookmark | components/bookmarked-products.tsx:49-51 | the new state is the old list without the id: when some bookmark has the id exactly that entry goes and the rest keep their order, an absent id changes nothing; ids stay distinct |
| BookmarkedProducts.BookmarkList.TogglePriceAlert | components/bookmarked-products.tsx:53-57 | the new state is the old list with the matching alerts switched; ids stay distinct |
| BookmarkedProducts.CardOf | components/bookmarked-products.tsx:86-116 | a card: name, current price, the "Lowest: $x" note, the "Lowest Price" badge and the alert label; CardPriceMarks states when each shows |
| BookmarkedProducts.CardPriceMarks | components/bookmarked-products.tsx:89-116 | the "Lowest: $x" note shows exactly above the lowest price, the badge exactly at it, never both, neither below; the alert label shows exactly when the alert is on |
| BookmarkedProducts.Render | components/bookmarked-products.tsx:59-71 | the empty state for no bookmarks, otherwise the cards; RenderShape states it |
| BookmarkedProducts.RenderShape | components/bookmarked-products.tsx:59-71 | an empty list renders the empty state; otherwise one card per bookmark, in order |
| BookmarkedProducts.RemovedNotRendered | components/bookmarked-products.tsx:49-71 | after a removal no card shows the removed id |
| ImprovementTips.Toggle | components/improvement-tips.tsx:17-23 | toggling clears the slot exactly when it named the tip, and otherwise names the tip |
| ImprovementTips.ToggleTwice | components/improvement-tips.tsx:17-23 | toggling a tip twice restores the slot exactly when it was empty or named that tip |
| ImprovementTips.TipsView.constructor | components/improvement-tips.tsx:15 | no tip is expanded at first |
| ImprovementTips.TipsView.ToggleTip | components/improvement-tips.tsx:17-23 | the new slot is the toggled old one, and it is empty exactly when it named the tip |
| ImprovementTips.ShowsDetails | components/improvement-tips.tsx:41 | `expandedTip === tip.id`: a card shows its details when the slot names its tip; AtMostOneExpanded and ToggleFlipsCard state it |
| ImprovementTips.AtMostOneExpanded | components/improvement-tips.tsx:15-41 | among tips with distinct ids at most one shows its details |
| ImprovementTips.GeneratedTipsRenderable | components/improvement-tips.tsx:27-41 | the generated tips have distinct ids, and each gets an icon |
| ImprovementTips.TipBorderColor | components/improvement-tips.tsx:91-102 | the border class per priority, gray for any other; the PriorityStyles lemmas state it |
| ImprovementTips.TipBadgeVariant | components/improvement-tips.tsx:104-115 | the badge variant per priority, outline for any other; the PriorityStyles lemmas state it |
| ImprovementTips.TipIcon | components/improvement-tips.tsx:117-128 | the icon per priority, none for any other; the PriorityStyles lemmas state it |
| ImprovementTips.IconColor | components/improvement-tips.tsx:117-128 | the colour class each icon is drawn in; PriorityStylesAgree states that it matches the border |
| ImprovementTips.PriorityStylesAgree | components/improvement-tips.tsx:91-128 | an unrecognised priority gets the gray border, the outline badge and no icon; a recognised one gets a border in its icon's colour |
| ImprovementTips.PriorityStylesDistinguish | components/improvement-tips.tsx:91-128 | different recognised priorities get different borders, badges and icons |
| ImprovementTips.CardOf | components/improvement-tips.tsx:28-83 | a tip card: border, icon, badge, details when expanded and the button label; ToggleFlipsCard states how toggling changes it |
| ImprovementTips.ToggleFlipsCard | components/improvement-tips.tsx:41-79 | toggling a tip flips whether its card shows details, labelled "Show Less" when shown; every other card is then closed |
| ContributionGraph.ContributionLevel | components/contribution-graph.tsx:103-118 | the colour index is always a valid palette position |
| ContributionGraph.ContributionColor | components/contribution-graph.tsx:103-118 | the palette entry of an intensity; ColorBands and LevelMonotone state it |
| ContributionGraph.ColorBands | components/contribution-graph.tsx:113-117 | 0 maps to `#ebedf0`, (0, 0.25) to `#9be9a8`, [0.25, 0.5) to `#40c463`, [0.5, 0.75) to `#30a14e`, 0.75 and above to `#216e39` |
| ContributionGraph.LevelMonotone | components/contribution-graph.tsx:113-117 | a higher intensity never gets a lighter colour |
| ContributionGraph.MaxCount | components/contribution-graph.tsx:37 | the maximum bounds every count and is attained by some day |
| ContributionGraph.Intensity | components/contribution-graph.tsx:49 | `count / max`: the exact quotient for a positive maximum, NaN for 0 / 0, Infinity for a positive count over 0; IntensityInRange states its range |
| ContributionGraph.IntensityInRange | components/contribution-graph.tsx:37-49 | with some contribution, every intensity is a finite number in [0, 1] |
| ContributionGraph.BusiestDayDarkest | components/contribution-graph.tsx:37-50 | a day with the maximum count gets the darkest colour |
| ContributionGraph.AllZeroDrawsDarkest | components/contribution-graph.tsx:37-50 | when every count is 0 each intensity is NaN and each cell gets the darkest colour |
| ContributionGraph.LegendLevels | components/contribution-graph.tsx:94-96 | the legend swatches show levels 1, 2, 3, 3 and 4, never the "no contributions" colour |
| ContributionGraph.CellAt | components/contribution-graph.tsx:40-55 | the cell of entry i: week i / 7, day i % 7, coloured by its intensity; DrawCells and CellLayout state it |
| ContributionGraph.DrawCells | components/contribution-graph.tsx:40-55 | the loop fills the cells of the first min(n, 364) entries, in order, each at (i / 7, i % 7) with its colour |
| ContributionGraph.CellLayout | components/contribution-graph.tsx:41-44 | entry i sits at week i / 7 < 52 and day i % 7 < 7, and no two entries share a square |

## Proof helpers

These lemmas only serve the proofs above and model nothing on their own:
`GitHub.TiersPassedAt`, `GitHub.TiersPassedFive`, `GitHub.TiersPassedFour`,
`GitHub.PointsAt`, `GitHub.AddShares`,
`GitHub.WholeShare`, `GitHub.TipsDiffer`, `GitHub.TipIdsAscending`,
`ContributionGraph.RatioAtMostOne` and `ContributionGraph.RatioOne`.

## Left out

- The network requests, the authorization header and the token read from the environment (lib/github.ts:4-35) are I/O; the derivation takes the parsed user record and repositories as inputs.
- The error path of the fetch (lib/github.ts:137-140), which logs and returns null, belongs to that I/O.
- `generateMockContributions` (lib/github.ts:166-184) depends on `Math.random` and the clock; the contribution calendar is an input.
- The locale-formatted `joinedAt` date (lib/github.ts:93-96) depends on the locale and `Date`; the profile record has no `joinedAt` field.
- The float-scaled statistics `pullRequests` and `codeReviews` (lib/github.ts:131, 133) are cosmetic multiplications of the repository count.
- GitHub.DevScore: rounds the exact rational weighted sum; binary floating point can make `0.4*q + 0.3*a + ...` land just below a .5 tie, which is not modelled.
- Percentages and the heatmap intensity are exact rationals, not binary floating point: the language shares sum to exactly 100 (with floating point, 100 up to rounding), and an intensity next to 0.25, 0.5 or 0.75 is compared without rounding.
- Text.ToLower: lowercases ASCII letters only, not the full Unicode case mapping of `toLowerCase`.
- Text.CompareStrings: is an ordinal comparison of code points, not the locale collation of `localeCompare`.
- The "updated" sort parses dates with `new Date(...)`; here the parse is a parameter `timeOf` to integer timestamps, so an invalid date (NaN) is not modelled.
- GitHub.LanguageColor: does not model keys inherited from `Object.prototype` (such as "constructor"), which the source's plain object literal would also find.
- GitHub.LanguageColorLookup: states the lookup over the 14 listed languages only, so an inherited key such as "constructor" counts as unlisted and gets the fallback, unlike in the source.
- Theme resolution and the mount flag (components/repositories-list.tsx:22-30) are reduced to the input `isDarkMode`; the search text, sort key and switch are inputs too.
- The canvas setup, cell geometry, month and day labels of the heatmap (components/contribution-graph.tsx:13-35, 45-46, 57-78) are drawing; cells are modelled by position and colour only.
- ContributionGraph.MaxCount: is 0 for an empty calendar, where `Math.max()` gives -Infinity; no cell is drawn then, so the value is never used.
- The `userData` parameter of `generateAchievements` and the `devScore` parameter of `generateImprovementTips` are never read, so they are dropped.
- The optional `actionItems` and `resources` lists of a tip card are carried in the tip record but not rendered as a list; only the details text and the button label are modelled.
- The remaining components and pages (language chart, Dev Score card, price history chart, product comparison, featured deals, AI recommendation, analyze page, token setup, profile header, search and home pages) are not part of this model.
