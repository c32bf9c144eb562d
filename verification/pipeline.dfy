/**
  The script's data path from repository language breakdowns to the series a
  chart is drawn from: aggregate, rank, project, and convert to percentages.
 */
module Pipeline {
  import opened Config
  import opened Aggregate
  import opened Ranking
  import opened DictOrder
  import opened Shares

  /** The parallel series the bar chart is drawn from, highest count first. */
  datatype Chart = Chart(labels: seq<string>, sizes: seq<nat>, percentages: seq<real>)

  /** `sorted_langs`. */
  function SortedLangs(cfg: Settings, repos: seq<Repo>): seq<Entry>
  {
    Rank(Items(cfg, repos), cfg.topN)
  }

  /** `labels`, `sizes` and `percentages`, or the division error. */
  function TopLanguages(cfg: Settings, repos: seq<Repo>): Result<Chart>
  {
    var ranked := SortedLangs(cfg, repos);
    match Percentages(Sizes(ranked))
    case Err(e) => Err(e)
    case Ok(shares) => Ok(Chart(Labels(ranked), Sizes(ranked), shares))
  }

  /** A successful run's series are the projections of `sorted_langs`. */
  lemma ChartParts(cfg: Settings, repos: seq<Repo>)
    requires TopLanguages(cfg, repos).Ok?
    ensures var ranked := SortedLangs(cfg, repos);
      && Percentages(Sizes(ranked)).Ok?
      && TopLanguages(cfg, repos).value
         == Chart(Labels(ranked), Sizes(ranked), Percentages(Sizes(ranked)).value)
  {
  }

  /** What a successful run yields: `min(TOP_N, number of languages)` bars with
      distinct names, each carrying that language's total, highest first, no
      omitted language above a shown one, and percentages that add up to 100. */
  lemma TopLanguagesMeaning(cfg: Settings, repos: seq<Repo>)
    requires TopLanguages(cfg, repos).Ok?
    ensures var c := TopLanguages(cfg, repos).value;
      |c.labels| == Min(cfg.topN, |LangStats(cfg, repos)|)
      && |c.sizes| == |c.labels| && |c.percentages| == |c.labels|
    ensures var c := TopLanguages(cfg, repos).value;
      forall i :: 0 <= i < |c.labels| ==>
        c.labels[i] in LangStats(cfg, repos) && LangStats(cfg, repos)[c.labels[i]] == c.sizes[i]
    ensures Distinct(TopLanguages(cfg, repos).value.labels)
    ensures var c := TopLanguages(cfg, repos).value;
      forall i, j :: 0 <= i < j < |c.sizes| ==> c.sizes[i] >= c.sizes[j]
    ensures var c := TopLanguages(cfg, repos).value;
      forall k :: k in LangStats(cfg, repos) && k !in c.labels ==>
        forall i :: 0 <= i < |c.sizes| ==> c.sizes[i] >= LangStats(cfg, repos)[k]
    ensures var c := TopLanguages(cfg, repos).value;
      |c.labels| > 0 ==> RealSum(c.percentages) == 100.0
    ensures var c := TopLanguages(cfg, repos).value;
      forall i :: 0 <= i < |c.sizes| ==> Sum(c.sizes) > 0 && c.percentages[i] == Share(c.sizes[i], Sum(c.sizes))
  {
    var stats := LangStats(cfg, repos);
    var ranked := SortedLangs(cfg, repos);
    RankMeaning(Items(cfg, repos), stats, cfg.topN);
    ChartParts(cfg, repos);
    if Sizes(ranked) != [] {
      PercentagesAreShares(Sizes(ranked));
    }
  }

  /** The run fails exactly when there is a bar to draw and every language's
      total is zero: Python then divides by a zero total. */
  lemma TopLanguagesFails(cfg: Settings, repos: seq<Repo>)
    ensures TopLanguages(cfg, repos).Err? <==>
      cfg.topN > 0 && LangStats(cfg, repos) != map[]
      && forall k :: k in LangStats(cfg, repos) ==> LangStats(cfg, repos)[k] == 0
  {
    var stats := LangStats(cfg, repos);
    var ranked := SortedLangs(cfg, repos);
    RankMeaning(Items(cfg, repos), stats, cfg.topN);
    var sizes := Sizes(ranked);
    if cfg.topN > 0 && stats != map[] {
      assert |stats| > 0 by {
        var k :| k in stats;
      }
      assert |sizes| > 0;
      if forall i :: 0 <= i < |sizes| ==> sizes[i] == 0 {
        forall k | k in stats
          ensures stats[k] == 0
        {
          if k !in Labels(ranked) {
            assert sizes[0] >= stats[k];
          }
        }
      }
    } else {
      assert |sizes| == 0;
    }
  }

  /** No counted language at all (no repositories, or every reported name
      excluded) gives an empty chart, not an error: the script's percentage
      comprehension never divides. */
  lemma NoDataGivesEmptyChart(cfg: Settings, repos: seq<Repo>)
    requires forall i :: 0 <= i < |Flatten(repos)| ==> Flatten(repos)[i].0 in cfg.exclude
    ensures LangStats(cfg, repos) == map[]
    ensures TopLanguages(cfg, repos) == Ok(Chart([], [], []))
  {
    forall k
      ensures k !in LangStats(cfg, repos)
    {
      LangStatsMeaning(cfg, repos, k);
    }
    var items := Items(cfg, repos);
    EnumerationLength(items, LangStats(cfg, repos));
    assert SortedLangs(cfg, repos) == [];
  }

  /** With the shipped settings at most eight languages are shown. */
  lemma DefaultShowsAtMostEight(repos: seq<Repo>)
    ensures TopLanguages(Default, repos).Ok? ==> |TopLanguages(Default, repos).value.labels| <= 8
    ensures TopLanguages(Default, repos).Ok? && |LangStats(Default, repos)| >= 8 ==>
              |TopLanguages(Default, repos).value.labels| == 8
  {
    if TopLanguages(Default, repos).Ok? {
      TopLanguagesMeaning(Default, repos);
    }
  }
}
