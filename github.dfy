/** The profile scoring engine of lib/github.ts: from a user record, its
    repositories and a contribution calendar it derives the totals, the
    language distribution, four tiered sub-scores, the weighted Dev Score, the
    achievement badges and the improvement tips. The network fetch and the
    random calendar generator are outside the model: the engine receives the
    parsed records and the calendar as inputs. */
module GitHub {
  import opened Types
  import Text
  import StableSort
  import opened Lists

  // ---------------------------------------------------------------------------
  // Reductions over the repository list and the calendar
  // ---------------------------------------------------------------------------

  function Stars(r: Repository): nat { r.stars }
  function Forks(r: Repository): nat { r.forks }
  function Issues(r: Repository): nat { r.issues }
  predicate IsForked(r: Repository) { r.isFork }
  predicate IsOriginal(r: Repository) { !r.isFork }
  predicate LacksDescription(r: Repository) { !Truthy(r.description) }
  predicate HasLanguage(r: Repository) { Truthy(r.language) }
  function DayCount(c: Contribution): nat { c.count }
  predicate IsActive(c: Contribution) { c.count > 0 }

  function TotalStars(repos: seq<Repository>): nat { Sum(repos, Stars) }
  function TotalForks(repos: seq<Repository>): nat { Sum(repos, Forks) }
  function TotalIssues(repos: seq<Repository>): nat { Sum(repos, Issues) }

  /** Sum of the daily counts of the calendar. */
  function TotalContributions(cs: seq<Contribution>): nat { Sum(cs, DayCount) }

  /** Number of days with at least one contribution. */
  function ActiveDays(cs: seq<Contribution>): nat { Count(cs, IsActive) }

  // ---------------------------------------------------------------------------
  // Tier thresholds
  // ---------------------------------------------------------------------------

  /** A rational threshold `num / den` (den > 0) on an average or a ratio. */
  datatype Fraction = Fraction(num: nat, den: nat)

  /** The JavaScript test `total / n > t`, decided exactly by cross-multiplication.
      With n == 0 the quotient is NaN when total is 0, which fails every
      comparison, and Infinity when total is positive. */
  predicate RatioAbove(total: int, n: nat, t: Fraction)
  {
    if n == 0 then total > 0 else t.den * total > t.num * n
  }

  function Passed(total: int, n: nat, t: Fraction): nat
  {
    if RatioAbove(total, n, t) then 1 else 0
  }

  /** How many of the thresholds `ts` the ratio `total / n` exceeds. */
  function TiersPassed(total: int, n: nat, ts: seq<Fraction>): (k: nat)
    ensures k <= |ts|
  {
    if ts == [] then 0 else Passed(total, n, ts[0]) + TiersPassed(total, n, ts[1..])
  }

  const StarTiers: seq<Fraction> := [Fraction(1, 1), Fraction(5, 1), Fraction(10, 1), Fraction(50, 1), Fraction(100, 1)]
  const ForkTiers: seq<Fraction> := [Fraction(0, 1), Fraction(1, 1), Fraction(5, 1), Fraction(10, 1), Fraction(20, 1)]
  const VolumeTiers: seq<Fraction> := [Fraction(50, 1), Fraction(100, 1), Fraction(200, 1), Fraction(500, 1), Fraction(1000, 1)]
  const ConsistencyTiers: seq<Fraction> := [Fraction(1, 10), Fraction(1, 5), Fraction(2, 5), Fraction(3, 5), Fraction(4, 5)]
  const IssueTiers: seq<Fraction> := [Fraction(0, 1), Fraction(1, 1), Fraction(2, 1), Fraction(5, 1), Fraction(10, 1)]
  const OriginalityTiers: seq<Fraction> := [Fraction(1, 5), Fraction(2, 5), Fraction(3, 5), Fraction(4, 5)]

  lemma TiersPassedAt(total: int, n: nat, ts: seq<Fraction>, i: nat)
    requires i < |ts|
    ensures TiersPassed(total, n, ts[i..]) == Passed(total, n, ts[i]) + TiersPassed(total, n, ts[i + 1..])
  {
  }

  lemma TiersPassedFive(total: int, n: nat, ts: seq<Fraction>)
    requires |ts| == 5
    ensures TiersPassed(total, n, ts) ==
      Passed(total, n, ts[0]) + Passed(total, n, ts[1]) + Passed(total, n, ts[2])
      + Passed(total, n, ts[3]) + Passed(total, n, ts[4])
  {
    assert ts[0..] == ts && ts[5..] == [];
    TiersPassedAt(total, n, ts, 0);
    TiersPassedAt(total, n, ts, 1);
    TiersPassedAt(total, n, ts, 2);
    TiersPassedAt(total, n, ts, 3);
    TiersPassedAt(total, n, ts, 4);
  }

  lemma TiersPassedFour(total: int, n: nat, ts: seq<Fraction>)
    requires |ts| == 4
    ensures TiersPassed(total, n, ts) ==
      Passed(total, n, ts[0]) + Passed(total, n, ts[1]) + Passed(total, n, ts[2]) + Passed(total, n, ts[3])
  {
    assert ts[0..] == ts && ts[4..] == [];
    TiersPassedAt(total, n, ts, 0);
    TiersPassedAt(total, n, ts, 1);
    TiersPassedAt(total, n, ts, 2);
    TiersPassedAt(total, n, ts, 3);
  }

  /** A ratio that is at least as large passes every threshold the smaller one passes. */
  lemma RatioAboveMonotone(x1: int, n1: nat, x2: int, n2: nat, t: Fraction)
    requires n1 > 0 && n2 > 0 && x1 * n2 <= x2 * n1
    requires RatioAbove(x1, n1, t)
    ensures RatioAbove(x2, n2, t)
  {
  }

  /** A larger ratio passes at least as many tiers. */
  lemma {:induction false} TiersPassedMonotone(x1: int, n1: nat, x2: int, n2: nat, ts: seq<Fraction>)
    requires n1 > 0 && n2 > 0 && x1 * n2 <= x2 * n1
    ensures TiersPassed(x1, n1, ts) <= TiersPassed(x2, n2, ts)
  {
    if ts != [] {
      if RatioAbove(x1, n1, ts[0]) {
        RatioAboveMonotone(x1, n1, x2, n2, ts[0]);
      }
      TiersPassedMonotone(x1, n1, x2, n2, ts[1..]);
    }
  }

  /** 0 / 0 is NaN: it passes no tier. */
  lemma {:induction false} TiersPassedNaN(ts: seq<Fraction>)
    ensures TiersPassed(0, 0, ts) == 0
  {
    if ts != [] {
      TiersPassedNaN(ts[1..]);
    }
  }

  // ---------------------------------------------------------------------------
  // The four sub-scores: specifications
  // ---------------------------------------------------------------------------

  /** Repository quality: 50, plus 5 points for every star-average threshold
      and every fork-average threshold passed, at most 100; exactly 50 without
      repositories. */
  function RepositoryQuality(repositories: seq<Repository>): (score: int)
    ensures 50 <= score <= 100
    ensures repositories == [] ==> score == 50
  {
    if |repositories| == 0 then 50
    else
      var n := |repositories|;
      Min(100, 50 + 5 * TiersPassed(TotalStars(repositories), n, StarTiers)
                  + 5 * TiersPassed(TotalForks(repositories), n, ForkTiers))
  }

  /** Contribution activity: 50, plus 5 points for every volume threshold the
      total passes and every consistency threshold the share of active days
      passes, at most 100. */
  function ContributionActivity(contributions: seq<Contribution>): (score: int)
    ensures 50 <= score <= 100
  {
    Min(100, 50 + 5 * TiersPassed(TotalContributions(contributions), 1, VolumeTiers)
                + 5 * TiersPassed(ActiveDays(contributions), |contributions|, ConsistencyTiers))
  }

  /** Community engagement: 50, plus 5 points for every issue-average threshold
      passed, plus 5 points and 5 more for every originality threshold the share
      of non-fork repositories passes, at most 100; exactly 50 without
      repositories. */
  function CommunityEngagement(repositories: seq<Repository>): (score: int)
    ensures 50 <= score <= 100
    ensures score == 50 <==> repositories == []
    ensures repositories != [] ==> score >= 55
  {
    if |repositories| == 0 then 50
    else
      var n := |repositories|;
      Min(100, 50 + 5 * TiersPassed(TotalIssues(repositories), n, IssueTiers)
                  + 5 + 5 * TiersPassed(Count(repositories, IsOriginal), n, OriginalityTiers))
  }

  /** The seven optional profile fields, each with the points it is worth. */
  function CompletenessFields(u: UserData): seq<(Option<string>, nat)>
  {
    [(u.name, 10), (u.bio, 10), (u.location, 5), (u.company, 5),
     (u.blog, 5), (u.twitterUsername, 5), (u.email, 10)]
  }

  /** Points of the truthy fields. */
  function PresentPoints(fields: seq<(Option<string>, nat)>): (p: nat)
    ensures p <= AllPoints(fields)
  {
    if fields == [] then 0
    else FieldPoints(fields[0]) + PresentPoints(fields[1..])
  }

  function AllPoints(fields: seq<(Option<string>, nat)>): nat
  {
    if fields == [] then 0 else fields[0].1 + AllPoints(fields[1..])
  }

  function FieldPoints(field: (Option<string>, nat)): nat
  {
    if Truthy(field.0) then field.1 else 0
  }

  lemma PointsAt(fields: seq<(Option<string>, nat)>, i: nat)
    requires i < |fields|
    ensures PresentPoints(fields[i..]) == FieldPoints(fields[i]) + PresentPoints(fields[i + 1..])
    ensures AllPoints(fields[i..]) == fields[i].1 + AllPoints(fields[i + 1..])
  {
  }

  /** The seven fields are worth 50 points together, and the present ones
      are worth the sum of their own points. */
  lemma CompletenessPoints(u: UserData)
    ensures AllPoints(CompletenessFields(u)) == 50
    ensures PresentPoints(CompletenessFields(u)) ==
      FieldPoints((u.name, 10)) + FieldPoints((u.bio, 10)) + FieldPoints((u.location, 5))
      + FieldPoints((u.company, 5)) + FieldPoints((u.blog, 5))
      + FieldPoints((u.twitterUsername, 5)) + FieldPoints((u.email, 10))
  {
    var fs := CompletenessFields(u);
    assert fs[0..] == fs && fs[7..] == [];
    PointsAt(fs, 0);
    PointsAt(fs, 1);
    PointsAt(fs, 2);
    PointsAt(fs, 3);
    PointsAt(fs, 4);
    PointsAt(fs, 5);
    PointsAt(fs, 6);
  }

  /** Profile completeness: 50 plus the points of the fields present, at most 100. */
  function ProfileCompleteness(userData: UserData): (score: int)
    ensures 50 <= score <= 100
  {
    CompletenessPoints(userData);
    Min(100, 50 + PresentPoints(CompletenessFields(userData)))
  }

  // ---------------------------------------------------------------------------
  // The four sub-scores: the source's score accumulation
  // ---------------------------------------------------------------------------

  /** Starts from 50 and adds one star bonus and one fork bonus, each chosen
      by a cascade from the highest average down. */
  method CalculateRepositoryQuality(repositories: seq<Repository>) returns (score: int)
    ensures score == RepositoryQuality(repositories)
  {
    if |repositories| == 0 {
      return 50;
    }
    var n := |repositories|;
    var totalStars := TotalStars(repositories);
    var totalForks := TotalForks(repositories);

    score := 50;

    if RatioAbove(totalStars, n, Fraction(100, 1)) { score := score + 25; }
    else if RatioAbove(totalStars, n, Fraction(50, 1)) { score := score + 20; }
    else if RatioAbove(totalStars, n, Fraction(10, 1)) { score := score + 15; }
    else if RatioAbove(totalStars, n, Fraction(5, 1)) { score := score + 10; }
    else if RatioAbove(totalStars, n, Fraction(1, 1)) { score := score + 5; }

    if RatioAbove(totalForks, n, Fraction(20, 1)) { score := score + 25; }
    else if RatioAbove(totalForks, n, Fraction(10, 1)) { score := score + 20; }
    else if RatioAbove(totalForks, n, Fraction(5, 1)) { score := score + 15; }
    else if RatioAbove(totalForks, n, Fraction(1, 1)) { score := score + 10; }
    else if RatioAbove(totalForks, n, Fraction(0, 1)) { score := score + 5; }

    score := Min(100, score);
    TiersPassedFive(totalStars, n, StarTiers);
    TiersPassedFive(totalForks, n, ForkTiers);
  }

  /** Starts from 50 and adds one volume bonus and one consistency bonus. */
  method CalculateContributionActivity(contributions: seq<Contribution>) returns (score: int)
    ensures score == ContributionActivity(contributions)
  {
    var totalContributions := TotalContributions(contributions);
    var daysWithContributions := ActiveDays(contributions);
    var days := |contributions|;

    score := 50;

    if totalContributions > 1000 { score := score + 25; }
    else if totalContributions > 500 { score := score + 20; }
    else if totalContributions > 200 { score := score + 15; }
    else if totalContributions > 100 { score := score + 10; }
    else if totalContributions > 50 { score := score + 5; }

    if RatioAbove(daysWithContributions, days, Fraction(4, 5)) { score := score + 25; }
    else if RatioAbove(daysWithContributions, days, Fraction(3, 5)) { score := score + 20; }
    else if RatioAbove(daysWithContributions, days, Fraction(2, 5)) { score := score + 15; }
    else if RatioAbove(daysWithContributions, days, Fraction(1, 5)) { score := score + 10; }
    else if RatioAbove(daysWithContributions, days, Fraction(1, 10)) { score := score + 5; }

    score := Min(100, score);
    TiersPassedFive(totalContributions, 1, VolumeTiers);
    TiersPassedFive(daysWithContributions, days, ConsistencyTiers);
  }

  /** Starts from 50 and adds one issue bonus and one originality bonus; the
      originality cascade ends in an unconditional +5. */
  method CalculateCommunityEngagement(repositories: seq<Repository>) returns (score: int)
    ensures score == CommunityEngagement(repositories)
  {
    if |repositories| == 0 {
      return 50;
    }
    var n := |repositories|;
    var totalIssues := TotalIssues(repositories);

    score := 50;

    if RatioAbove(totalIssues, n, Fraction(10, 1)) { score := score + 25; }
    else if RatioAbove(totalIssues, n, Fraction(5, 1)) { score := score + 20; }
    else if RatioAbove(totalIssues, n, Fraction(2, 1)) { score := score + 15; }
    else if RatioAbove(totalIssues, n, Fraction(1, 1)) { score := score + 10; }
    else if RatioAbove(totalIssues, n, Fraction(0, 1)) { score := score + 5; }

    var nonForks := Count(repositories, IsOriginal);

    if RatioAbove(nonForks, n, Fraction(4, 5)) { score := score + 25; }
    else if RatioAbove(nonForks, n, Fraction(3, 5)) { score := score + 20; }
    else if RatioAbove(nonForks, n, Fraction(2, 5)) { score := score + 15; }
    else if RatioAbove(nonForks, n, Fraction(1, 5)) { score := score + 10; }
    else { score := score + 5; }

    score := Min(100, score);
    TiersPassedFive(totalIssues, n, IssueTiers);
    TiersPassedFour(nonForks, n, OriginalityTiers);
  }

  /** Starts from 50 and adds the points of each truthy field in turn. */
  method CalculateProfileCompleteness(userData: UserData) returns (score: int)
    ensures score == ProfileCompleteness(userData)
  {
    score := 50;

    if Truthy(userData.name) { score := score + 10; }
    if Truthy(userData.bio) { score := score + 10; }
    if Truthy(userData.location) { score := score + 5; }
    if Truthy(userData.company) { score := score + 5; }
    if Truthy(userData.blog) { score := score + 5; }
    if Truthy(userData.twitterUsername) { score := score + 5; }
    if Truthy(userData.email) { score := score + 10; }

    score := Min(100, score);
    CompletenessPoints(userData);
  }

  // ---------------------------------------------------------------------------
  // Properties of the sub-scores
  // ---------------------------------------------------------------------------

  /** Higher star and fork averages never lower repository quality. */
  lemma RepositoryQualityMonotone(r1: seq<Repository>, r2: seq<Repository>)
    requires |r1| > 0 && |r2| > 0
    requires TotalStars(r1) * |r2| <= TotalStars(r2) * |r1|
    requires TotalForks(r1) * |r2| <= TotalForks(r2) * |r1|
    ensures RepositoryQuality(r1) <= RepositoryQuality(r2)
  {
    TiersPassedMonotone(TotalStars(r1), |r1|, TotalStars(r2), |r2|, StarTiers);
    TiersPassedMonotone(TotalForks(r1), |r1|, TotalForks(r2), |r2|, ForkTiers);
  }

  /** More contributions, or a higher share of active days, never lower the
      activity score; an empty calendar (0/0 active share) scores lowest. */
  lemma ContributionActivityMonotone(c1: seq<Contribution>, c2: seq<Contribution>)
    requires TotalContributions(c1) <= TotalContributions(c2)
    requires |c1| == 0 || (|c2| > 0 && ActiveDays(c1) * |c2| <= ActiveDays(c2) * |c1|)
    ensures ContributionActivity(c1) <= ContributionActivity(c2)
  {
    TiersPassedMonotone(TotalContributions(c1), 1, TotalContributions(c2), 1, VolumeTiers);
    if |c1| == 0 {
      TiersPassedNaN(ConsistencyTiers);
    } else {
      TiersPassedMonotone(ActiveDays(c1), |c1|, ActiveDays(c2), |c2|, ConsistencyTiers);
    }
  }

  /** Field by field, `more` has every field that `less` has. */
  predicate AtLeastAsComplete(less: UserData, more: UserData)
  {
    && (Truthy(less.name) ==> Truthy(more.name))
    && (Truthy(less.bio) ==> Truthy(more.bio))
    && (Truthy(less.location) ==> Truthy(more.location))
    && (Truthy(less.company) ==> Truthy(more.company))
    && (Truthy(less.blog) ==> Truthy(more.blog))
    && (Truthy(less.twitterUsername) ==> Truthy(more.twitterUsername))
    && (Truthy(less.email) ==> Truthy(more.email))
  }

  lemma {:induction false} PresentPointsMonotone(f1: seq<(Option<string>, nat)>, f2: seq<(Option<string>, nat)>)
    requires |f1| == |f2|
    requires forall i :: 0 <= i < |f1| ==> f1[i].1 == f2[i].1 && (Truthy(f1[i].0) ==> Truthy(f2[i].0))
    ensures PresentPoints(f1) <= PresentPoints(f2)
  {
    if f1 != [] {
      PresentPointsMonotone(f1[1..], f2[1..]);
    }
  }

  lemma {:induction false} PresentPointsAll(fields: seq<(Option<string>, nat)>)
    requires forall i :: 0 <= i < |fields| ==> fields[i].1 > 0
    ensures PresentPoints(fields) == AllPoints(fields) <==> forall i :: 0 <= i < |fields| ==> Truthy(fields[i].0)
  {
    if fields != [] {
      PresentPointsAll(fields[1..]);
      if forall i :: 0 <= i < |fields[1..]| ==> Truthy(fields[1..][i].0) {
        if Truthy(fields[0].0) {
          forall i | 0 <= i < |fields| ensures Truthy(fields[i].0) {
            if i > 0 { assert fields[i] == fields[1..][i - 1]; }
          }
        }
      } else {
        var i :| 0 <= i < |fields[1..]| && !Truthy(fields[1..][i].0);
        assert !Truthy(fields[i + 1].0);
      }
    }
  }

  /** Filling in more profile fields never lowers completeness. */
  lemma ProfileCompletenessMonotone(less: UserData, more: UserData)
    requires AtLeastAsComplete(less, more)
    ensures ProfileCompleteness(less) <= ProfileCompleteness(more)
  {
    PresentPointsMonotone(CompletenessFields(less), CompletenessFields(more));
  }

  /** Completeness is exactly 100 precisely when all seven fields are present. */
  lemma ProfileCompletenessFull(u: UserData)
    ensures ProfileCompleteness(u) == 100 <==>
      Truthy(u.name) && Truthy(u.bio) && Truthy(u.location) && Truthy(u.company)
      && Truthy(u.blog) && Truthy(u.twitterUsername) && Truthy(u.email)
  {
    var fs := CompletenessFields(u);
    CompletenessPoints(u);
    PresentPointsAll(fs);
    assert fs[0].0 == u.name && fs[1].0 == u.bio && fs[2].0 == u.location && fs[3].0 == u.company;
    assert fs[4].0 == u.blog && fs[5].0 == u.twitterUsername && fs[6].0 == u.email;
  }

  // ---------------------------------------------------------------------------
  // Dev Score
  // ---------------------------------------------------------------------------

  /** The weighted sum 0.4 q + 0.3 a + 0.2 e + 0.1 c, as an exact rational. */
  function WeightedSum(q: int, a: int, e: int, c: int): real
  {
    0.4 * q as real + 0.3 * a as real + 0.2 * e as real + 0.1 * c as real
  }

  /** `Math.round` of the weighted sum: the integer nearest to it, halves
      rounded up. Sub-scores in [50, 100] give a Dev Score in [50, 100]. */
  function DevScore(q: int, a: int, e: int, c: int): (score: int)
    ensures score as real - 0.5 <= WeightedSum(q, a, e, c) < score as real + 0.5
    ensures 50 <= q <= 100 && 50 <= a <= 100 && 50 <= e <= 100 && 50 <= c <= 100 ==> 50 <= score <= 100
  {
    (4 * q + 3 * a + 2 * e + c + 5) / 10
  }

  // ---------------------------------------------------------------------------
  // Language distribution
  // ---------------------------------------------------------------------------

  const LanguageColors: map<string, string> := map[
    "JavaScript" := "#f1e05a", "TypeScript" := "#3178c6", "Python" := "#3572A5",
    "Java" := "#b07219", "Go" := "#00ADD8", "Rust" := "#dea584", "C" := "#555555",
    "C++" := "#f34b7d", "C#" := "#178600", "Ruby" := "#701516", "PHP" := "#4F5D95",
    "HTML" := "#e34c26", "CSS" := "#563d7c", "Shell" := "#89e051"]

  const DefaultLanguageColor: string := "#8257e5"

  /** `colors[language] || "#8257e5"`: a missing entry reads as undefined,
      which is falsy, and so is an empty colour. */
  function LanguageColor(language: string): string
  {
    var found := if language in LanguageColors then LanguageColors[language] else "";
    if found != "" then found else DefaultLanguageColor
  }

  /** The table's colours are all truthy and differ from the fallback, so a
      language gets the fallback exactly when it is not one of the 14. */
  lemma LanguageColorLookup(language: string)
    ensures language in LanguageColors ==> LanguageColor(language) == LanguageColors[language]
    ensures LanguageColor(language) == DefaultLanguageColor <==> language !in LanguageColors
  {
  }

  predicate UsesLanguage(r: Repository, lang: string)
  {
    HasLanguage(r) && r.language.value == lang
  }

  /** Repositories counted in the denominator: those with a truthy language. */
  function ReposWithLanguage(repos: seq<Repository>): nat
  {
    Count(repos, HasLanguage)
  }

  /** The test for one language as a function value. */
  function UsesOf(lang: string): Repository -> bool
  {
    (r: Repository) => UsesLanguage(r, lang)
  }

  /** Number of repositories whose language is `lang`: the value the map
      holds for it. */
  function LanguageCount(repos: seq<Repository>, lang: string): nat
  {
    Count(repos, UsesOf(lang))
  }

  /** The keys of the language map in insertion order: every truthy language
      once, in order of first use. */
  function LanguageOrder(repos: seq<Repository>): (names: seq<string>)
    ensures forall i, j :: 0 <= i < j < |names| ==> names[i] != names[j]
    ensures forall lang :: lang in names <==> LanguageCount(repos, lang) > 0
  {
    if repos == [] then []
    else
      var prev := LanguageOrder(repos[..|repos| - 1]);
      var r := repos[|repos| - 1];
      if HasLanguage(r) && r.language.value !in prev then prev + [r.language.value] else prev
  }

  /** Sum of the counts of the given languages. */
  function CountsOver(repos: seq<Repository>, names: seq<string>): nat
  {
    if names == [] then 0 else LanguageCount(repos, names[0]) + CountsOver(repos, names[1..])
  }

  lemma {:induction false} CountsOverStep(repos: seq<Repository>, r: Repository, names: seq<string>)
    requires forall i, j :: 0 <= i < j < |names| ==> names[i] != names[j]
    ensures CountsOver(repos + [r], names)
      == CountsOver(repos, names) + (if HasLanguage(r) && r.language.value in names then 1 else 0)
  {
    assert (repos + [r])[..|repos|] == repos;
    if names != [] {
      CountsOverStep(repos, r, names[1..]);
      assert names == [names[0]] + names[1..];
    }
  }

  lemma {:induction false} CountsOverAppend(repos: seq<Repository>, names: seq<string>, lang: string)
    ensures CountsOver(repos, names + [lang]) == CountsOver(repos, names) + LanguageCount(repos, lang)
  {
    if names != [] {
      assert (names + [lang])[1..] == names[1..] + [lang];
      CountsOverAppend(repos, names[1..], lang);
    }
  }

  /** The language counts add up to the number of repositories with a language. */
  lemma {:induction false} LanguageCountsAddUp(repos: seq<Repository>)
    ensures CountsOver(repos, LanguageOrder(repos)) == ReposWithLanguage(repos)
  {
    if repos != [] {
      var p, r := repos[..|repos| - 1], repos[|repos| - 1];
      assert repos == p + [r];
      var prev := LanguageOrder(p);
      LanguageCountsAddUp(p);
      CountsOverStep(p, r, prev);
      if HasLanguage(r) && r.language.value !in prev {
        CountsOverAppend(repos, prev, r.language.value);
      }
    }
  }

  /** `(count / total) * 100`. */
  function Percentage(count: nat, total: nat): real
    requires total > 0
  {
    (count as real / total as real) * 100.0
  }

  /** The unsorted language list built from the map entries. */
  function SharesOf(repos: seq<Repository>, names: seq<string>, total: nat): (ls: seq<Language>)
    requires total > 0
    ensures |ls| == |names|
    ensures forall k :: 0 <= k < |names| ==>
      ls[k] == Language(names[k], Percentage(LanguageCount(repos, names[k]), total), LanguageColor(names[k]))
  {
    if names == [] then []
    else
      [Language(names[0], Percentage(LanguageCount(repos, names[0]), total), LanguageColor(names[0]))]
      + SharesOf(repos, names[1..], total)
  }

  /** The language list before sorting; with no language at all it is empty. */
  function LanguageList(repos: seq<Repository>): seq<Language>
  {
    var total := ReposWithLanguage(repos);
    if total == 0 then [] else SharesOf(repos, LanguageOrder(repos), total)
  }

  /** The comparator `b.percentage - a.percentage`. */
  function ByPercentage(a: Language, b: Language): real
  {
    b.percentage - a.percentage
  }

  function PercentageOf(l: Language): real { l.percentage }
  function NameOf(l: Language): string { l.name }

  /** The language distribution, sorted by decreasing percentage. */
  function LanguageShares(repos: seq<Repository>): seq<Language>
  {
    StableSort.Sort(LanguageList(repos), ByPercentage)
  }

  lemma NoLanguageNoEntries(repos: seq<Repository>)
    ensures ReposWithLanguage(repos) == 0 <==> LanguageOrder(repos) == []
  {
  }

  lemma AddShares(c: real, s: real, t: real)
    requires t > 0.0
    ensures (c / t) * 100.0 + (s / t) * 100.0 == ((c + s) / t) * 100.0
  {
  }

  lemma {:induction false} SharesSum(repos: seq<Repository>, names: seq<string>, total: nat)
    requires total > 0
    ensures StableSort.SumOf(SharesOf(repos, names, total), PercentageOf)
      == (CountsOver(repos, names) as real / total as real) * 100.0
  {
    if names != [] {
      SharesSum(repos, names[1..], total);
      AddShares(LanguageCount(repos, names[0]) as real, CountsOver(repos, names[1..]) as real, total as real);
    }
  }

  lemma SortedSharesSum(repos: seq<Repository>)
    ensures StableSort.SumOf(LanguageShares(repos), PercentageOf) == StableSort.SumOf(LanguageList(repos), PercentageOf)
  {
    StableSort.SortPreservesSum(LanguageList(repos), ByPercentage, PercentageOf);
  }

  lemma WholeShare(t: real)
    requires t > 0.0
    ensures (t / t) * 100.0 == 100.0
  {
  }

  lemma LanguageListSum(repos: seq<Repository>)
    requires ReposWithLanguage(repos) > 0
    ensures StableSort.SumOf(LanguageList(repos), PercentageOf) == 100.0
  {
    var total, names := ReposWithLanguage(repos), LanguageOrder(repos);
    assert LanguageList(repos) == SharesOf(repos, names, total);
    SharesSum(repos, names, total);
    LanguageCountsAddUp(repos);
    WholeShare(total as real);
  }

  /** With at least one repository that has a language, the percentages add up to 100. */
  lemma LanguageSharesSumTo100(repos: seq<Repository>)
    requires ReposWithLanguage(repos) > 0
    ensures StableSort.SumOf(LanguageShares(repos), PercentageOf) == 100.0
  {
    SortedSharesSum(repos);
    LanguageListSum(repos);
  }

  /** The distribution is sorted by non-increasing percentage. */
  lemma LanguageSharesSorted(repos: seq<Repository>)
    ensures forall i, j :: 0 <= i < j < |LanguageShares(repos)| ==>
      LanguageShares(repos)[i].percentage >= LanguageShares(repos)[j].percentage
  {
    StableSort.SortSorted(LanguageList(repos), ByPercentage);
  }

  /** Stability: languages with the same percentage keep the map's order,
      which is the order of first use. */
  lemma EqualSharesKeepMapOrder(repos: seq<Repository>, percentage: real)
    ensures Select(LanguageShares(repos), (l: Language) => l.percentage == percentage)
      == Select(LanguageList(repos), (l: Language) => l.percentage == percentage)
  {
    StableSort.SortKeepsGroupOrder(LanguageList(repos), ByPercentage, (l: Language) => l.percentage == percentage);
  }

  /** The unsorted list holds one entry per map key, in key order. */
  lemma LanguageListEntries(repos: seq<Repository>)
    ensures |LanguageList(repos)| == |LanguageOrder(repos)|
    ensures forall k :: 0 <= k < |LanguageList(repos)| ==>
      && ReposWithLanguage(repos) > 0
      && LanguageList(repos)[k] == Language(LanguageOrder(repos)[k],
           Percentage(LanguageCount(repos, LanguageOrder(repos)[k]), ReposWithLanguage(repos)),
           LanguageColor(LanguageOrder(repos)[k]))
  {
  }

  /** Each language in the distribution appears once. */
  lemma LanguageSharesNamesDistinct(repos: seq<Repository>)
    ensures forall i, j :: 0 <= i < j < |LanguageShares(repos)| ==>
      LanguageShares(repos)[i].name != LanguageShares(repos)[j].name
  {
    var list, names := LanguageList(repos), LanguageOrder(repos);
    LanguageListEntries(repos);
    assert StableSort.KeysDistinct(list, NameOf) by {
      forall i, j | 0 <= i < j < |list| ensures NameOf(list[i]) != NameOf(list[j]) {
        assert list[i].name == names[i] && list[j].name == names[j];
      }
    }
    StableSort.SortKeepsKeysDistinct(list, ByPercentage, NameOf);
  }

  /** Every entry of the distribution is a language some repository uses,
      with its share and its colour. */
  lemma LanguageSharesEntries(repos: seq<Repository>)
    ensures forall l :: l in LanguageShares(repos) ==>
      && LanguageCount(repos, l.name) > 0
      && ReposWithLanguage(repos) > 0
      && l.percentage == Percentage(LanguageCount(repos, l.name), ReposWithLanguage(repos))
      && l.color == LanguageColor(l.name)
  {
    var list, names := LanguageList(repos), LanguageOrder(repos);
    LanguageListEntries(repos);
    forall l | l in LanguageShares(repos)
      ensures LanguageCount(repos, l.name) > 0 && ReposWithLanguage(repos) > 0
      ensures l.percentage == Percentage(LanguageCount(repos, l.name), ReposWithLanguage(repos))
      ensures l.color == LanguageColor(l.name)
    {
      assert l in multiset(LanguageShares(repos));
      assert l in multiset(list);
      var k :| 0 <= k < |list| && list[k] == l;
      assert l.name == names[k];
    }
  }

  /** Every language some repository uses is in the distribution. */
  lemma LanguageSharesComplete(repos: seq<Repository>)
    ensures forall lang :: LanguageCount(repos, lang) > 0 ==>
      exists k :: 0 <= k < |LanguageShares(repos)| && LanguageShares(repos)[k].name == lang
  {
    var list, names, shares := LanguageList(repos), LanguageOrder(repos), LanguageShares(repos);
    LanguageListEntries(repos);
    forall lang | LanguageCount(repos, lang) > 0
      ensures exists k :: 0 <= k < |shares| && shares[k].name == lang
    {
      var k :| 0 <= k < |names| && names[k] == lang;
      assert list[k] in multiset(list);
      assert list[k] in multiset(shares);
      var m :| 0 <= m < |shares| && shares[m] == list[k];
    }
  }

  /** Without any repository that has a language the distribution is empty. */
  lemma LanguageSharesEmpty(repos: seq<Repository>)
    ensures LanguageShares(repos) == [] <==> ReposWithLanguage(repos) == 0
  {
    LanguageListEntries(repos);
    NoLanguageNoEntries(repos);
  }

  /** `languageMap.get(lang)`: the position of `lang` among the keys, or the
      number of entries when it is not a key. */
  function KeyIndex(entries: seq<(string, nat)>, lang: string): (i: nat)
    ensures i <= |entries|
    ensures i < |entries| ==> entries[i].0 == lang
    ensures forall k :: 0 <= k < i ==> entries[k].0 != lang
  {
    if entries == [] then 0
    else if entries[0].0 == lang then 0
    else 1 + KeyIndex(entries[1..], lang)
  }

  /** Fills the language map one repository at a time: a repository with a
      truthy language adds one to its entry, creating the entry (at the end)
      when the language is new. The map's entries, in insertion order, are the
      languages in order of first use with their repository counts. */
  method TallyLanguages(repositories: seq<Repository>) returns (entries: seq<(string, nat)>)
    ensures |entries| == |LanguageOrder(repositories)|
    ensures forall k :: 0 <= k < |entries| ==>
      entries[k] == (LanguageOrder(repositories)[k], LanguageCount(repositories, LanguageOrder(repositories)[k]))
  {
    entries := [];
    var i := 0;
    while i < |repositories|
      invariant 0 <= i <= |repositories|
      invariant |entries| == |LanguageOrder(repositories[..i])|
      invariant forall k :: 0 <= k < |entries| ==>
        entries[k] == (LanguageOrder(repositories[..i])[k], LanguageCount(repositories[..i], LanguageOrder(repositories[..i])[k]))
    {
      var repo := repositories[i];
      assert repositories[..i + 1][..i] == repositories[..i];
      if repo.language.Some? && repo.language.value != "" {
        var lang := repo.language.value;
        var j := KeyIndex(entries, lang);
        if j < |entries| {
          entries := entries[j := (lang, entries[j].1 + 1)];
        } else {
          assert lang !in LanguageOrder(repositories[..i]);
          entries := entries + [(lang, 1)];
        }
      }
      i := i + 1;
    }
    assert repositories[..i] == repositories;
  }

  /** Tallies the languages, turns each entry into its share of the
      repositories that have a language, and sorts by decreasing share. */
  method ComputeLanguages(repositories: seq<Repository>) returns (languages: seq<Language>)
    ensures languages == LanguageShares(repositories)
  {
    var entries := TallyLanguages(repositories);
    var totalReposWithLanguage := ReposWithLanguage(repositories);
    NoLanguageNoEntries(repositories);
    var unsorted := seq(|entries|, k requires 0 <= k < |entries| =>
      Language(entries[k].0, Percentage(entries[k].1, totalReposWithLanguage), LanguageColor(entries[k].0)));
    LanguageListEntries(repositories);
    assert unsorted == LanguageList(repositories);
    languages := StableSort.Sort(unsorted, ByPercentage);
  }

  // ---------------------------------------------------------------------------
  // Achievements
  // ---------------------------------------------------------------------------

  const ArcticCodeVault: Achievement :=
    Achievement("1", "Arctic Code Vault Contributor", "Contributed code to the 2020 GitHub Archive Program", "\U{1F3C6}")
  const PullShark: Achievement :=
    Achievement("2", "Pull Shark", "Had multiple pull requests merged", "\U{1F988}")
  const Starstruck: Achievement :=
    Achievement("3", "Starstruck", "Created a repository that has 100+ stars", "\U{1F31F}")
  const GalaxyBrain: Achievement :=
    Achievement("4", "Galaxy Brain", "Answered multiple questions with upvotes", "\U{1F9E0}")

  /** `repositories.some((repo) => repo.stars >= 100)`. */
  predicate HasPopularRepository(repos: seq<Repository>)
  {
    exists i :: 0 <= i < |repos| && repos[i].stars >= 100
  }

  /** Items in strictly increasing order of the identifiers `id` gives them;
      badges and tips are both listed this way. */
  predicate InIdOrder<T>(items: seq<T>, id: T -> string)
  {
    forall i, j :: 0 <= i < j < |items| ==> Text.CompareStrings(id(items[i]), id(items[j])) < 0
  }

  function AchievementId(a: Achievement): string { a.id }
  function TipId(t: ImprovementTip): string { t.id }

  /** What the badge list promises: the two placeholders first and last, the
      Pull Shark badge exactly for five or more repositories, the Starstruck
      badge exactly when some repository has 100 stars, in identifier order. */
  predicate AchievementsFor(repositories: seq<Repository>, achievements: seq<Achievement>)
  {
    && |achievements| >= 2
    && achievements[0] == ArcticCodeVault
    && achievements[|achievements| - 1] == GalaxyBrain
    && (PullShark in achievements <==> |repositories| >= 5)
    && (Starstruck in achievements <==> HasPopularRepository(repositories))
    && (forall a :: a in achievements ==> a in [ArcticCodeVault, PullShark, Starstruck, GalaxyBrain])
    && InIdOrder(achievements, AchievementId)
  }

  /** Builds the badge list by appending, in the source's order. */
  method GenerateAchievements(repositories: seq<Repository>) returns (achievements: seq<Achievement>)
    ensures AchievementsFor(repositories, achievements)
  {
    achievements := [];
    achievements := achievements + [ArcticCodeVault];
    if |repositories| >= 5 {
      achievements := achievements + [PullShark];
    }
    if HasPopularRepository(repositories) {
      achievements := achievements + [Starstruck];
    }
    achievements := achievements + [GalaxyBrain];
  }

  // ---------------------------------------------------------------------------
  // Improvement tips
  // ---------------------------------------------------------------------------

  const MissingDescriptionsSuffix: string := " repositories are missing descriptions."

  /** The High-priority tip about undescribed repositories. */
  function DescriptionTip(missing: nat): ImprovementTip
  {
    ImprovementTip(
      "tip1",
      "Add descriptions to repositories",
      Text.NatToString(missing) + MissingDescriptionsSuffix,
      "Repository descriptions help others understand what your projects do at a glance. They improve discoverability and make your profile more professional.",
      "High",
      Some([
        "Add concise descriptions to repositories that are missing them",
        "Focus on explaining the purpose and key features",
        "Use keywords relevant to the technology or domain"]),
      Some([Resource("GitHub Guide: Best Practices", "https://guides.github.com/")]))
  }

  /** The description opens with the count in decimal, which reads back as
      the count, so different counts give different tips. */
  lemma DescriptionTipReportsCount(missing: nat)
    ensures |DescriptionTip(missing).description| > |MissingDescriptionsSuffix|
    ensures var d := DescriptionTip(missing).description;
      var k := |d| - |MissingDescriptionsSuffix|;
      Text.AllDigits(d[..k]) && Text.ParseDecimal(d[..k]) == missing
  {
    var digits := Text.NatToString(missing);
    var d := digits + MissingDescriptionsSuffix;
    assert d[..|d| - |MissingDescriptionsSuffix|] == digits;
    Text.ParseNatToString(missing);
  }

  const BioTip: ImprovementTip := ImprovementTip(
    "tip2",
    "Add a bio to your profile",
    "Your GitHub profile is missing a bio.",
    "A bio helps others understand who you are, what you do, and what you're interested in. It makes your profile more approachable and professional.",
    "Medium",
    Some([
      "Add a concise bio that describes your skills and interests",
      "Mention your current role or status",
      "Include technologies you work with"]),
    Some([Resource("GitHub Docs: Customizing your profile",
      "https://docs.github.com/en/account-and-profile/setting-up-and-managing-your-github-profile/customizing-your-profile")]))

  const OriginalityTip: ImprovementTip := ImprovementTip(
    "tip3",
    "Create more original repositories",
    "Most of your repositories are forks rather than original projects.",
    "While forking is great for contributing to open source, having original repositories showcases your ability to create and maintain projects.",
    "Medium",
    Some([
      "Start a new project based on your interests or needs",
      "Convert a fork into an original project with significant changes",
      "Document your original projects thoroughly"]),
    Some([Resource("GitHub Guide: Creating a repository",
      "https://docs.github.com/en/repositories/creating-and-managing-repositories/creating-a-new-repository")]))

  /** Number of repositories whose description is falsy. */
  function MissingDescriptions(repos: seq<Repository>): nat
  {
    Count(repos, LacksDescription)
  }

  /** More than 70% forks among more than three repositories. */
  predicate MostlyForks(repos: seq<Repository>)
  {
    RatioAbove(Count(repos, IsForked), |repos|, Fraction(7, 10)) && |repos| > 3
  }

  /** What the tip list promises: each tip exactly under its condition, the
      description tip reporting the count of undescribed repositories, no other
      tips, in identifier order. */
  predicate TipsFor(userData: UserData, repositories: seq<Repository>, tips: seq<ImprovementTip>)
  {
    var missing := MissingDescriptions(repositories);
    && (DescriptionTip(missing) in tips <==> missing > 0)
    && (BioTip in tips <==> !Truthy(userData.bio))
    && (OriginalityTip in tips <==> MostlyForks(repositories))
    && (forall t :: t in tips ==> t in [DescriptionTip(missing), BioTip, OriginalityTip])
    && InIdOrder(tips, TipId)
  }

  /** The three tips are told apart by their identifiers. */
  lemma TipsDiffer(missing: nat)
    ensures DescriptionTip(missing) != BioTip && DescriptionTip(missing) != OriginalityTip
    ensures BioTip != OriginalityTip
  {
  }

  /** The identifiers of the three tips are in ascending order. */
  lemma TipIdsAscending(missing: nat)
    ensures Text.CompareStrings(DescriptionTip(missing).id, BioTip.id) < 0
    ensures Text.CompareStrings(DescriptionTip(missing).id, OriginalityTip.id) < 0
    ensures Text.CompareStrings(BioTip.id, OriginalityTip.id) < 0
  {
  }

  /** Picking some of three distinct items with ascending identifiers, in
      their order, keeps exactly the picked ones, in ascending order. */
  lemma PickInOrder(d: ImprovementTip, b: ImprovementTip, o: ImprovementTip, pd: bool, pb: bool, po: bool)
    requires d != b && d != o && b != o
    requires Text.CompareStrings(d.id, b.id) < 0 && Text.CompareStrings(d.id, o.id) < 0
    requires Text.CompareStrings(b.id, o.id) < 0
    ensures var tips := (if pd then [d] else []) + (if pb then [b] else []) + (if po then [o] else []);
      && (d in tips <==> pd) && (b in tips <==> pb) && (o in tips <==> po)
      && (forall t :: t in tips ==> t in [d, b, o])
      && InIdOrder(tips, TipId)
  {
  }

  /** The tips whose conditions hold, in the order the source appends them. */
  function ChosenTips(userData: UserData, repositories: seq<Repository>): seq<ImprovementTip>
  {
    var missing := MissingDescriptions(repositories);
    (if missing > 0 then [DescriptionTip(missing)] else [])
    + (if !Truthy(userData.bio) then [BioTip] else [])
    + (if MostlyForks(repositories) then [OriginalityTip] else [])
  }

  lemma ChosenTipsMeetSpec(userData: UserData, repositories: seq<Repository>)
    ensures TipsFor(userData, repositories, ChosenTips(userData, repositories))
    ensures repositories == [] ==> OriginalityTip !in ChosenTips(userData, repositories)
  {
    var missing := MissingDescriptions(repositories);
    TipsDiffer(missing);
    TipIdsAscending(missing);
    PickInOrder(DescriptionTip(missing), BioTip, OriginalityTip,
      missing > 0, !Truthy(userData.bio), MostlyForks(repositories));
  }

  /** Builds the tip list by appending, in the source's order. */
  method GenerateImprovementTips(userData: UserData, repositories: seq<Repository>) returns (tips: seq<ImprovementTip>)
    ensures TipsFor(userData, repositories, tips)
    ensures repositories == [] ==> OriginalityTip !in tips
  {
    tips := [];

    var reposWithoutDescription := MissingDescriptions(repositories);
    if reposWithoutDescription > 0 {
      tips := tips + [DescriptionTip(reposWithoutDescription)];
    }

    if !Truthy(userData.bio) {
      tips := tips + [BioTip];
    }

    var forks := Count(repositories, IsForked);
    if RatioAbove(forks, |repositories|, Fraction(7, 10)) && |repositories| > 3 {
      tips := tips + [OriginalityTip];
    }
    assert tips == ChosenTips(userData, repositories);
    ChosenTipsMeetSpec(userData, repositories);
  }

  // ---------------------------------------------------------------------------
  // The derivation
  // ---------------------------------------------------------------------------

  /** Computes the four sub-scores and rounds their weighted sum into the
      Dev Score. */
  method ComputeScores(userData: UserData, repositories: seq<Repository>, contributions: seq<Contribution>)
    returns (scores: Scores, devScore: int)
    ensures scores == Scores(
      RepositoryQuality(repositories), ContributionActivity(contributions),
      CommunityEngagement(repositories), ProfileCompleteness(userData))
    ensures devScore == DevScore(
      scores.repositoryQuality, scores.contributionActivity,
      scores.communityEngagement, scores.profileCompleteness)
    ensures 50 <= devScore <= 100
  {
    var repositoryQuality := CalculateRepositoryQuality(repositories);
    var contributionActivity := CalculateContributionActivity(contributions);
    var communityEngagement := CalculateCommunityEngagement(repositories);
    var profileCompleteness := CalculateProfileCompleteness(userData);

    scores := Scores(repositoryQuality, contributionActivity, communityEngagement, profileCompleteness);
    devScore := DevScore(repositoryQuality, contributionActivity, communityEngagement, profileCompleteness);
  }

  /** Derives the view-model from already-fetched records, step by step as the
      source does after its two requests succeed. */
  method DeriveProfile(userData: UserData, repositories: seq<Repository>, contributions: seq<Contribution>)
    returns (profile: GitHubProfile)
    ensures profile.totalStars == TotalStars(repositories)
    ensures profile.totalForks == TotalForks(repositories)
    ensures profile.languages == LanguageShares(repositories)
    ensures profile.scores == Scores(
      RepositoryQuality(repositories), ContributionActivity(contributions),
      CommunityEngagement(repositories), ProfileCompleteness(userData))
    ensures profile.devScore == DevScore(
      profile.scores.repositoryQuality, profile.scores.contributionActivity,
      profile.scores.communityEngagement, profile.scores.profileCompleteness)
    ensures 50 <= profile.devScore <= 100
    ensures AchievementsFor(repositories, profile.achievements)
    ensures TipsFor(userData, repositories, profile.improvementTips)
    ensures profile.name == if Truthy(userData.name) then userData.name.value else userData.login
    ensures profile.hireable == (userData.hireable == Some(true))
    ensures profile.stats == Stats(TotalContributions(contributions), TotalIssues(repositories))
    ensures profile.repositories == repositories && profile.contributions == contributions
    ensures profile.username == userData.login && profile.avatarUrl == userData.avatarUrl
    ensures profile.bio == userData.bio && profile.company == userData.company
    ensures profile.location == userData.location && profile.blog == userData.blog
    ensures profile.email == userData.email && profile.twitterUsername == userData.twitterUsername
    ensures profile.followers == userData.followers && profile.following == userData.following
    ensures profile.publicRepos == userData.publicRepos && profile.publicGists == userData.publicGists
    ensures profile.updatedAt == userData.updatedAt
  {
    var totalStars := TotalStars(repositories);
    var totalForks := TotalForks(repositories);

    var languages := ComputeLanguages(repositories);

    var scores, devScore := ComputeScores(userData, repositories, contributions);

    var improvementTips := GenerateImprovementTips(userData, repositories);
    var achievements := GenerateAchievements(repositories);

    profile := GitHubProfile(
      userData.login,
      if Truthy(userData.name) then userData.name.value else userData.login,
      userData.avatarUrl,
      userData.bio,
      userData.company,
      userData.location,
      userData.blog,
      userData.email,
      userData.hireable == Some(true),
      userData.twitterUsername,
      userData.followers,
      userData.following,
      userData.publicRepos,
      userData.publicGists,
      userData.updatedAt,
      totalStars,
      totalForks,
      repositories,
      languages,
      contributions,
      achievements,
      devScore,
      scores,
      Stats(TotalContributions(contributions), TotalIssues(repositories)),
      improvementTips);
  }
}
