/** The tip list of components/improvement-tips.tsx: one card per tip,
    styled by its priority, with a single state slot naming the one tip whose
    details are shown. */
module ImprovementTips {
  import opened Types
  import GitHub

  /** `toggleTip` on the slot: the named tip closes if it is the open one,
      and otherwise becomes the open one, replacing any other. */
  function Toggle(expanded: Option<string>, id: string): (r: Option<string>)
    ensures r.None? <==> expanded == Some(id)
    ensures r.Some? ==> r == Some(id)
  {
    if expanded == Some(id) then None else Some(id)
  }

  /** Toggling the same tip twice returns to the start exactly when the start
      was collapsed or had that tip open; from any other open tip it ends
      collapsed. */
  lemma ToggleTwice(expanded: Option<string>, id: string)
    ensures Toggle(Toggle(expanded, id), id) == expanded <==> expanded.None? || expanded == Some(id)
    ensures expanded.Some? && expanded != Some(id) ==> Toggle(Toggle(expanded, id), id).None?
  {
  }

  /** The view state of the tip list. */
  class TipsView {
    var expandedTip: Option<string>

    constructor ()
      ensures expandedTip.None?
    {
      expandedTip := None;
    }

    method ToggleTip(id: string)
      modifies this
      ensures expandedTip == Toggle(old(expandedTip), id)
      ensures expandedTip.None? <==> old(expandedTip) == Some(id)
    {
      if expandedTip == Some(id) {
        expandedTip := None;
      } else {
        expandedTip := Some(id);
      }
    }
  }

  /** A tip shows its details when the slot names it. */
  predicate ShowsDetails(expanded: Option<string>, tip: ImprovementTip)
  {
    expanded == Some(tip.id)
  }

  /** Among tips with distinct ids at most one shows its details. */
  lemma AtMostOneExpanded(expanded: Option<string>, tips: seq<ImprovementTip>)
    requires forall i, j :: 0 <= i < j < |tips| ==> tips[i].id != tips[j].id
    ensures forall i, j ::
      (0 <= i < |tips| && 0 <= j < |tips| && ShowsDetails(expanded, tips[i]) && ShowsDetails(expanded, tips[j])) ==> i == j
  {
  }

  /** The tips the scoring engine produces have distinct ids, so at most one
      of their cards is open, and each has a recognised priority, so each card
      gets an icon. */
  lemma GeneratedTipsRenderable(userData: UserData, repositories: seq<Repository>, tips: seq<ImprovementTip>)
    requires GitHub.TipsFor(userData, repositories, tips)
    ensures forall i, j :: 0 <= i < j < |tips| ==> tips[i].id != tips[j].id
    ensures forall t :: t in tips ==> TipIcon(t.priority).Some?
  {
    var missing := GitHub.MissingDescriptions(repositories);
    assert GitHub.DescriptionTip(missing).priority == "High";
    assert GitHub.BioTip.priority == "Medium" && GitHub.OriginalityTip.priority == "Medium";
  }

  /** The priorities the style lookups recognise. */
  datatype Priority = High | Medium | Low

  function ParsePriority(priority: string): Option<Priority>
  {
    if priority == "High" then Some(High)
    else if priority == "Medium" then Some(Medium)
    else if priority == "Low" then Some(Low)
    else None
  }

  function TipBorderColor(priority: string): string
  {
    if priority == "High" then "border-red-500"
    else if priority == "Medium" then "border-yellow-500"
    else if priority == "Low" then "border-blue-500"
    else "border-gray-500"
  }

  datatype BadgeVariant = Destructive | Default | Secondary | Outline

  function TipBadgeVariant(priority: string): BadgeVariant
  {
    if priority == "High" then Destructive
    else if priority == "Medium" then Default
    else if priority == "Low" then Secondary
    else Outline
  }

  /** The icons, each with the colour class it is drawn in. */
  datatype Icon = AlertTriangle | InfoCircle | CheckCircle

  function TipIcon(priority: string): Option<Icon>
  {
    if priority == "High" then Some(AlertTriangle)
    else if priority == "Medium" then Some(InfoCircle)
    else if priority == "Low" then Some(CheckCircle)
    else None
  }

  function IconColor(icon: Icon): string
  {
    match icon
    case AlertTriangle => "text-red-500"
    case InfoCircle => "text-yellow-500"
    case CheckCircle => "text-blue-500"
  }

  /** The three lookups agree: a recognised priority gets its own border,
      badge and icon, in matching colours; any other priority gets the gray
      border, the outline badge and no icon. */
  lemma PriorityStylesAgree(priority: string)
    ensures TipIcon(priority).None? <==> ParsePriority(priority).None?
    ensures ParsePriority(priority).None? <==>
      TipBorderColor(priority) == "border-gray-500" && TipBadgeVariant(priority) == Outline
    ensures TipIcon(priority).Some? ==>
      TipBorderColor(priority) == "border-" + IconColor(TipIcon(priority).value)[5..]
  {
  }

  /** Different recognised priorities look different. */
  lemma PriorityStylesDistinguish(p: string, q: string)
    requires ParsePriority(p).Some? && ParsePriority(q).Some? && p != q
    ensures TipBorderColor(p) != TipBorderColor(q)
    ensures TipBadgeVariant(p) != TipBadgeVariant(q)
    ensures TipIcon(p) != TipIcon(q)
  {
  }

  /** What a card shows for a tip. */
  datatype TipCard = TipCard(
    border: string,
    icon: Option<Icon>,
    badge: BadgeVariant,
    details: Option<string>,
    buttonLabel: string)

  function CardOf(expanded: Option<string>, tip: ImprovementTip): TipCard
  {
    TipCard(
      TipBorderColor(tip.priority),
      TipIcon(tip.priority),
      TipBadgeVariant(tip.priority),
      if expanded == Some(tip.id) then Some(tip.details) else None,
      if expanded == Some(tip.id) then "Show Less" else "Show More")
  }

  /** After toggling a tip its card flips between details shown ("Show
      Less") and hidden ("Show More"), and every card with another id is
      closed afterwards. */
  lemma ToggleFlipsCard(expanded: Option<string>, tip: ImprovementTip, other: ImprovementTip)
    requires other.id != tip.id
    ensures CardOf(Toggle(expanded, tip.id), tip).details.Some? <==> CardOf(expanded, tip).details.None?
    ensures CardOf(Toggle(expanded, tip.id), tip).buttonLabel == "Show Less" <==>
      CardOf(Toggle(expanded, tip.id), tip).details.Some?
    ensures CardOf(Toggle(expanded, tip.id), other).details.None?
  {
  }
}
