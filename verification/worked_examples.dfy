/**
  The worked examples of the top-languages pipeline, computed end to end.
 */
module Examples {
  import opened Config
  import opened Aggregate
  import opened Ranking
  import opened DictOrder
  import opened Shares
  import opened Pipeline

  const ThreeRepos: seq<Repo> := [[("Python", 800), ("Go", 150), ("HTML", 50)]]
  const ThreeItems: seq<Entry> := [("Python", 800), ("Go", 150), ("HTML", 50)]

  /** A run's result from its ranking and percentages. */
  lemma ChartOf(cfg: Settings, repos: seq<Repo>, ranked: seq<Entry>, shares: seq<real>)
    requires SortedLangs(cfg, repos) == ranked
    requires Percentages(Sizes(ranked)) == Ok(shares)
    ensures TopLanguages(cfg, repos) == Ok(Chart(Labels(ranked), Sizes(ranked), shares))
  {
  }

  lemma ThreeStats()
    ensures LangStats(Default, ThreeRepos) == map["Python" := 800, "Go" := 150, "HTML" := 50]
    ensures KeyOrder(Default, ThreeRepos) == ["Python", "Go", "HTML"]
  {
    assert Flatten(ThreeRepos) == ThreeRepos[0];
  }

  lemma ThreeItemsListed()
    ensures Items(Default, ThreeRepos) == ThreeItems
  {
    ThreeStats();
  }

  lemma ThreeItemsRanked()
    ensures SortedLangs(Default, ThreeRepos) == ThreeItems
  {
    ThreeItemsListed();
    RankKeepsDescending(ThreeItems, 8);
  }

  lemma ThreeProjections()
    ensures Sizes(ThreeItems) == [800, 150, 50]
    ensures Labels(ThreeItems) == ["Python", "Go", "HTML"]
  {
  }

  lemma ThreeShares()
    ensures Percentages([800, 150, 50]) == Ok([80.0, 15.0, 5.0])
  {
    var sizes: seq<nat> := [800, 150, 50];
    assert sizes[1..][1..][1..] == [];
    assert Sum(sizes[1..][1..]) == 50;
    assert Sum(sizes[1..]) == 200;
    assert Sum(sizes) == 1000;
    assert Scale(sizes, 1000) == [Share(800, 1000), Share(150, 1000), Share(50, 1000)];
  }

  /** Python 800, Go 150 and HTML 50 bytes give 80, 15 and 5 percent. */
  lemma ExampleThreeLanguages()
    ensures TopLanguages(Default, ThreeRepos)
         == Ok(Chart(["Python", "Go", "HTML"], [800, 150, 50], [80.0, 15.0, 5.0]))
  {
    ThreeItemsRanked();
    ThreeProjections();
    ThreeShares();
    ChartOf(Default, ThreeRepos, ThreeItems, [80.0, 15.0, 5.0]);
  }

  /** An excluded language's bytes do not dilute the others' percentages. */
  lemma ExampleExclusion()
    ensures TopLanguages(Default, [[("Python", 500), ("JavaScript", 500)]]) == Ok(Chart(["Python"], [500], [100.0]))
  {
    var repos: seq<Repo> := [[("Python", 500), ("JavaScript", 500)]];
    var ranked: seq<Entry> := [("Python", 500)];
    assert Flatten(repos) == repos[0];
    assert LangStats(Default, repos) == map["Python" := 500];
    assert KeyOrder(Default, repos) == ["Python"];
    assert Items(Default, repos) == ranked;
    RankKeepsDescending(ranked, 8);
    assert Sizes(ranked) == [500];
    assert Labels(ranked) == ["Python"];
    assert Sum([500]) == 500;
    assert Scale([500], 500) == [Share(500, 500)];
    ChartOf(Default, repos, ranked, [100.0]);
  }

  /** Notebook bytes are added to Python's total. */
  lemma ExampleMerge()
    ensures LangStats(Default, [[("Python", 300), ("Jupyter Notebook", 200)]]) == map["Python" := 500]
  {
  }
}
