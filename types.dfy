/** Record shapes of the profile analyzer (lib/types.ts) and of the raw user
    record the GitHub REST API returns. Nullable JSON fields are `Option`s. */
module Types {

  datatype Option<+T> = None | Some(value: T)

  /** `Math.min` on integers. */
  function Min(a: int, b: int): int
  {
    if a <= b then a else b
  }

  /** JavaScript truthiness of a nullable string: `null` and `""` are both falsy. */
  predicate Truthy(s: Option<string>)
  {
    s.Some? && s.value != ""
  }

  /** One repository, after the field renaming done when the API response is read. */
  datatype Repository = Repository(
    id: string,
    name: string,
    description: Option<string>,
    url: string,
    language: Option<string>,
    stars: nat,
    forks: nat,
    watchers: nat,
    issues: nat,
    createdAt: string,
    updatedAt: string,
    isArchived: bool,
    isFork: bool)

  /** The raw user record, restricted to the fields the analyzer reads. */
  datatype UserData = UserData(
    login: string,
    name: Option<string>,
    avatarUrl: string,
    bio: Option<string>,
    company: Option<string>,
    location: Option<string>,
    blog: Option<string>,
    email: Option<string>,
    hireable: Option<bool>,
    twitterUsername: Option<string>,
    followers: nat,
    following: nat,
    publicRepos: nat,
    publicGists: nat,
    createdAt: string,
    updatedAt: string)

  /** One slice of the language distribution; `percentage` is an exact rational. */
  datatype Language = Language(name: string, percentage: real, color: string)

  /** One day of the contribution calendar. */
  datatype Contribution = Contribution(date: string, count: nat)

  datatype Achievement = Achievement(id: string, name: string, description: string, icon: string)

  datatype Resource = Resource(title: string, url: string)

  datatype ImprovementTip = ImprovementTip(
    id: string,
    title: string,
    description: string,
    details: string,
    priority: string,
    actionItems: Option<seq<string>>,
    resources: Option<seq<Resource>>)

  datatype Scores = Scores(
    repositoryQuality: int,
    contributionActivity: int,
    communityEngagement: int,
    profileCompleteness: int)

  /** The integer-valued statistics; the float-scaled ones are not modelled. */
  datatype Stats = Stats(commits: nat, issues: nat)

  /** The derived view-model, without the locale-formatted join date. */
  datatype GitHubProfile = GitHubProfile(
    username: string,
    name: string,
    avatarUrl: string,
    bio: Option<string>,
    company: Option<string>,
    location: Option<string>,
    blog: Option<string>,
    email: Option<string>,
    hireable: bool,
    twitterUsername: Option<string>,
    followers: nat,
    following: nat,
    publicRepos: nat,
    publicGists: nat,
    updatedAt: string,
    totalStars: nat,
    totalForks: nat,
    repositories: seq<Repository>,
    languages: seq<Language>,
    contributions: seq<Contribution>,
    achievements: seq<Achievement>,
    devScore: int,
    scores: Scores,
    stats: Stats,
    improvementTips: seq<ImprovementTip>)
}
