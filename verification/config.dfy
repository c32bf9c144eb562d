/**
  Configuration of the top-languages pipeline and the per-pair decision the
  aggregation loop makes: skip a reported language name that is excluded,
  otherwise rewrite it through the merge table.
 */
module Config {

  /** One entry of a repository's language breakdown: reported name and byte count. */
  type Pair = (string, nat)

  /** A repository's language breakdown, in the order the hosting API reports it. */
  type Repo = seq<Pair>

  /** Errors the pipeline can raise; both come from a modulo or division by zero. */
  datatype Error = ZeroDivision

  datatype Result<+T> = Ok(value: T) | Err(error: Error)

  /** The module-level constants of the script, passed around as one value. */
  datatype Settings = Settings(exclude: set<string>, merge: map<string, string>, topN: nat)

  /** The exclusion list, merge table and TOP_N the script ships with. */
  const Default: Settings :=
    Settings({"JavaScript", "Hack"}, map["Jupyter Notebook" := "Python"], 8)

  /** The name a reported language is counted under: its merge target, or itself. */
  function Canonical(cfg: Settings, lang: string): (name: string)
    ensures lang !in cfg.merge ==> name == lang
    ensures lang in cfg.merge ==> name == cfg.merge[lang] && name in cfg.merge.Values
    ensures name != lang ==> lang in cfg.merge
  {
    if lang in cfg.merge then cfg.merge[lang] else lang
  }

  /** Whether a pair takes part in the aggregation at all. The test is on the
      reported name, before merging. */
  predicate Counted(cfg: Settings, p: Pair)
  {
    p.0 !in cfg.exclude
  }

  /** The name under which a counted pair lands, as seen by any reader of the
      statistics: a merge source that is not itself a merge target never lands. */
  lemma MergeSourceNeverLands(cfg: Settings, lang: string, src: string)
    requires src in cfg.merge && src !in cfg.merge.Values
    ensures Canonical(cfg, lang) != src
  {
  }

  /** With the shipped settings, notebooks are counted as Python and the two
      excluded names are not counted at all. */
  lemma DefaultSettings(n: nat)
    ensures Canonical(Default, "Jupyter Notebook") == "Python"
    ensures !Counted(Default, ("JavaScript", n)) && !Counted(Default, ("Hack", n))
    ensures Counted(Default, ("Jupyter Notebook", n))
    ensures Default.topN == 8
  {
  }
}
