/** The contribution heatmap of components/contribution-graph.tsx: each day
    of the calendar is a cell at (week, day) of a 52 x 7 grid, coloured by
    its count relative to the largest count. Painting on the canvas is
    modelled as the list of cells the drawing loop fills, in order. */
module ContributionGraph {
  import opened Types

  const WeeksCount: nat := 52
  const DaysCount: nat := 7

  /** The values the intensity can take: an exact quotient (a rational, not a
      binary double), or the NaN and Infinity of a division by zero. */
  datatype Number = Finite(value: real) | NaN | Infinity

  /** `count / max`: 0 / 0 is NaN and a positive count over 0 is Infinity. */
  function Intensity(count: nat, max: nat): Number
  {
    if max == 0 then (if count == 0 then NaN else Infinity)
    else Finite(count as real / max as real)
  }

  /** The green scale, lightest (no contributions) to darkest. */
  const Palette: seq<string> := ["#ebedf0", "#9be9a8", "#40c463", "#30a14e", "#216e39"]

  /** Which palette entry `getContributionColor` returns. NaN and Infinity
      fail `=== 0` and every `<` test, so they fall through to the last. */
  function ContributionLevel(intensity: Number): (level: nat)
    ensures level < |Palette|
  {
    match intensity
    case Finite(v) =>
      if v == 0.0 then 0
      else if v < 0.25 then 1
      else if v < 0.5 then 2
      else if v < 0.75 then 3
      else 4
    case NaN => 4
    case Infinity => 4
  }

  function ContributionColor(intensity: Number): string
  {
    Palette[ContributionLevel(intensity)]
  }

  /** The colour bands over [0, 1]. */
  lemma ColorBands(v: real)
    requires 0.0 <= v
    ensures v == 0.0 <==> ContributionColor(Finite(v)) == "#ebedf0"
    ensures 0.0 < v < 0.25 <==> ContributionColor(Finite(v)) == "#9be9a8"
    ensures 0.25 <= v < 0.5 <==> ContributionColor(Finite(v)) == "#40c463"
    ensures 0.5 <= v < 0.75 <==> ContributionColor(Finite(v)) == "#30a14e"
    ensures 0.75 <= v <==> ContributionColor(Finite(v)) == "#216e39"
  {
    var level := ContributionLevel(Finite(v));
    assert Palette[0] != Palette[1] && Palette[0] != Palette[2] && Palette[0] != Palette[3] && Palette[0] != Palette[4];
    assert Palette[1] != Palette[2] && Palette[1] != Palette[3] && Palette[1] != Palette[4];
    assert Palette[2] != Palette[3] && Palette[2] != Palette[4] && Palette[3] != Palette[4];
  }

  /** A higher intensity never gets a lighter colour. */
  lemma LevelMonotone(x: real, y: real)
    requires 0.0 <= x <= y
    ensures ContributionLevel(Finite(x)) <= ContributionLevel(Finite(y))
  {
  }

  /** The largest daily count; 0 for an empty calendar, for which no cell is
      drawn and the value is never used. */
  function MaxCount(cs: seq<Contribution>): (m: nat)
    ensures forall i :: 0 <= i < |cs| ==> cs[i].count <= m
    ensures cs != [] ==> exists i :: 0 <= i < |cs| && cs[i].count == m
  {
    if cs == [] then 0
    else
      var rest := MaxCount(cs[1..]);
      assert forall i :: 1 <= i < |cs| ==> cs[i] == cs[1..][i - 1];
      if cs[0].count >= rest then cs[0].count else rest
  }

  lemma RatioAtMostOne(c: real, m: real)
    requires 0.0 <= c <= m && m > 0.0
    ensures 0.0 <= c / m <= 1.0
  {
    assert (c / m) * m == c;
  }

  lemma RatioOne(m: real)
    requires m > 0.0
    ensures m / m == 1.0
  {
  }

  /** Intensities of calendar days lie in [0, 1] unless every count is 0. */
  lemma IntensityInRange(cs: seq<Contribution>, i: nat)
    requires i < |cs| && MaxCount(cs) > 0
    ensures Intensity(cs[i].count, MaxCount(cs)).Finite?
    ensures 0.0 <= Intensity(cs[i].count, MaxCount(cs)).value <= 1.0
  {
    RatioAtMostOne(cs[i].count as real, MaxCount(cs) as real);
  }

  /** A day with the largest count gets the darkest colour. */
  lemma BusiestDayDarkest(cs: seq<Contribution>, i: nat)
    requires i < |cs| && cs[i].count == MaxCount(cs)
    ensures ContributionLevel(Intensity(cs[i].count, MaxCount(cs))) == 4
  {
    var m := MaxCount(cs);
    if m > 0 {
      RatioOne(m as real);
      assert Intensity(cs[i].count, m) == Finite(1.0);
    }
  }

  /** When every count is 0 each intensity is 0 / 0 = NaN, and each cell gets
      the darkest colour, not the "no contributions" one. */
  lemma AllZeroDrawsDarkest(cs: seq<Contribution>, i: nat)
    requires i < |cs|
    requires forall k :: 0 <= k < |cs| ==> cs[k].count == 0
    ensures Intensity(cs[i].count, MaxCount(cs)) == NaN
    ensures ContributionColor(Intensity(cs[i].count, MaxCount(cs))) == "#216e39"
  {
  }

  /** The legend swatches at 0.1, 0.3, 0.5, 0.7 and 0.9 show levels 1, 2, 3,
      3 and 4: the "no contributions" colour never appears in it. */
  lemma LegendLevels()
    ensures seq(5, k requires 0 <= k < 5 => ContributionLevel(Finite([0.1, 0.3, 0.5, 0.7, 0.9][k]))) == [1, 2, 3, 3, 4]
  {
  }

  /** One filled square. */
  datatype Cell = Cell(week: nat, day: nat, color: string)

  /** The cell for calendar entry i. */
  function CellAt(cs: seq<Contribution>, i: nat): Cell
    requires i < |cs|
  {
    Cell(i / DaysCount, i % DaysCount, ContributionColor(Intensity(cs[i].count, MaxCount(cs))))
  }

  /** The drawing loop: every entry whose week is inside the grid is filled
      at (index / 7, index % 7); the rest are skipped. The cells filled are the
      first 364 entries' cells, in calendar order. */
  method DrawCells(contributions: seq<Contribution>) returns (cells: seq<Cell>)
    ensures |cells| == Min(|contributions|, WeeksCount * DaysCount)
    ensures forall i :: 0 <= i < |cells| ==> cells[i] == CellAt(contributions, i)
  {
    var maxContribution := MaxCount(contributions);
    cells := [];
    var index := 0;
    while index < |contributions|
      invariant 0 <= index <= |contributions|
      invariant |cells| == Min(index, WeeksCount * DaysCount)
      invariant forall i :: 0 <= i < |cells| ==> cells[i] == CellAt(contributions, i)
    {
      var week := index / DaysCount;
      var day := index % DaysCount;
      if week < WeeksCount {
        var intensity := Intensity(contributions[index].count, maxContribution);
        cells := cells + [Cell(week, day, ContributionColor(intensity))];
      }
      index := index + 1;
    }
  }

  /** Entry i sits at week i / 7 and day i % 7 inside the 52 x 7 grid, and
      no two entries share a square. */
  lemma CellLayout(cs: seq<Contribution>, i: nat, j: nat)
    requires i < |cs| && j < |cs| && i < WeeksCount * DaysCount
    ensures CellAt(cs, i).day < DaysCount && CellAt(cs, i).week < WeeksCount
    ensures CellAt(cs, i).week * DaysCount + CellAt(cs, i).day == i
    ensures i != j ==> (CellAt(cs, i).week, CellAt(cs, i).day) != (CellAt(cs, j).week, CellAt(cs, j).day)
  {
  }
}
