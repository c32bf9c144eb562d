/**
  The aggregation loop of the script: a left fold over every repository and,
  inside it, over every (language, bytes) pair, into one map from canonical
  language name to total bytes.
 */
module Aggregate {
  import opened Config

  /** The running total for a name, 0 when the name has not been seen
      (Python's `lang_stats.get(lang, 0)`). */
  function Get0(m: map<string, nat>, k: string): nat
  {
    if k in m then m[k] else 0
  }

  /** One iteration of the inner loop: an excluded pair is skipped; any other
      pair adds its bytes to the total of its canonical name and touches
      nothing else. */
  function Step(cfg: Settings, m: map<string, nat>, p: Pair): (r: map<string, nat>)
    ensures !Counted(cfg, p) ==> r == m
    ensures Counted(cfg, p) ==> r.Keys == m.Keys + {Canonical(cfg, p.0)}
    ensures Counted(cfg, p) ==> r[Canonical(cfg, p.0)] == Get0(m, Canonical(cfg, p.0)) + p.1
    ensures forall k :: k in m && k != Canonical(cfg, p.0) ==> k in r && r[k] == m[k]
  {
    if !Counted(cfg, p) then m
    else
      var name := Canonical(cfg, p.0);
      m[name := Get0(m, name) + p.1]
  }

  /** The inner loop over a sequence of pairs, first pair first. */
  function Accumulate(cfg: Settings, m: map<string, nat>, ps: seq<Pair>): map<string, nat>
    decreases |ps|
  {
    if ps == [] then m else Accumulate(cfg, Step(cfg, m, ps[0]), ps[1..])
  }

  /** The outer loop over the repositories, first repository first. */
  function AccumulateRepos(cfg: Settings, m: map<string, nat>, repos: seq<Repo>): map<string, nat>
    decreases |repos|
  {
    if repos == [] then m else AccumulateRepos(cfg, Accumulate(cfg, m, repos[0]), repos[1..])
  }

  /** `lang_stats` after the loop, starting from the empty dictionary. */
  function LangStats(cfg: Settings, repos: seq<Repo>): map<string, nat>
  {
    AccumulateRepos(cfg, map[], repos)
  }

  /** All pairs of all repositories, in visiting order. */
  function Flatten(repos: seq<Repo>): seq<Pair>
    decreases |repos|
  {
    if repos == [] then [] else repos[0] + Flatten(repos[1..])
  }

  // ---------------------------------------------------------------------------
  // Reference definition: what the loop computes, without the loop.
  // ---------------------------------------------------------------------------

  /** Some counted pair of `ps` lands on `k`. */
  predicate Contributes(cfg: Settings, ps: seq<Pair>, k: string)
  {
    exists i :: 0 <= i < |ps| && Counted(cfg, ps[i]) && Canonical(cfg, ps[i].0) == k
  }

  /** The bytes of the counted pairs of `ps` that land on `k`. */
  function Contribution(cfg: Settings, ps: seq<Pair>, k: string): nat
    decreases |ps|
  {
    if ps == [] then 0
    else
      (if Counted(cfg, ps[0]) && Canonical(cfg, ps[0].0) == k then ps[0].1 else 0)
      + Contribution(cfg, ps[1..], k)
  }

  /** The bytes of all counted pairs of `ps`. */
  function CountedBytes(cfg: Settings, ps: seq<Pair>): nat
    decreases |ps|
  {
    if ps == [] then 0
    else (if Counted(cfg, ps[0]) then ps[0].1 else 0) + CountedBytes(cfg, ps[1..])
  }

  // ---------------------------------------------------------------------------
  // The fold against the reference definition.
  // ---------------------------------------------------------------------------

  lemma {:induction false} AccumulateConcat(cfg: Settings, m: map<string, nat>, a: seq<Pair>, b: seq<Pair>)
    ensures Accumulate(cfg, m, a + b) == Accumulate(cfg, Accumulate(cfg, m, a), b)
    decreases |a|
  {
    if a == [] {
      assert a + b == b;
    } else {
      assert (a + b)[0] == a[0];
      assert (a + b)[1..] == a[1..] + b;
      AccumulateConcat(cfg, Step(cfg, m, a[0]), a[1..], b);
    }
  }

  lemma {:induction false} FlattenConcat(a: seq<Repo>, b: seq<Repo>)
    ensures Flatten(a + b) == Flatten(a) + Flatten(b)
    decreases |a|
  {
    if a == [] {
      assert a + b == b;
    } else {
      assert (a + b)[0] == a[0];
      assert (a + b)[1..] == a[1..] + b;
      FlattenConcat(a[1..], b);
    }
  }

  /** The nested loop is one fold over all pairs in visiting order. */
  lemma {:induction false} ReposAreFlattened(cfg: Settings, m: map<string, nat>, repos: seq<Repo>)
    ensures AccumulateRepos(cfg, m, repos) == Accumulate(cfg, m, Flatten(repos))
    decreases |repos|
  {
    if repos == [] {
    } else {
      ReposAreFlattened(cfg, Accumulate(cfg, m, repos[0]), repos[1..]);
      AccumulateConcat(cfg, m, repos[0], Flatten(repos[1..]));
    }
  }

  /** Every name's final total is its starting total plus the bytes of the
      counted pairs that land on it; a name is a key exactly when it started
      as one or some counted pair lands on it. */
  lemma {:induction false} AccumulateMeaning(cfg: Settings, m: map<string, nat>, ps: seq<Pair>, k: string)
    ensures k in Accumulate(cfg, m, ps) <==> k in m || Contributes(cfg, ps, k)
    ensures Get0(Accumulate(cfg, m, ps), k) == Get0(m, k) + Contribution(cfg, ps, k)
    decreases |ps|
  {
    if ps != [] {
      var m' := Step(cfg, m, ps[0]);
      AccumulateMeaning(cfg, m', ps[1..], k);
      if Contributes(cfg, ps[1..], k) {
        var i :| 0 <= i < |ps[1..]| && Counted(cfg, ps[1..][i]) && Canonical(cfg, ps[1..][i].0) == k;
        assert ps[i + 1] == ps[1..][i];
      }
      if Contributes(cfg, ps, k) && !Contributes(cfg, ps[1..], k) {
        var i :| 0 <= i < |ps| && Counted(cfg, ps[i]) && Canonical(cfg, ps[i].0) == k;
      }
    }
  }

  /** `lang_stats` against the reference definition over the flattened input. */
  lemma LangStatsMeaning(cfg: Settings, repos: seq<Repo>, k: string)
    ensures k in LangStats(cfg, repos) <==> Contributes(cfg, Flatten(repos), k)
    ensures k in LangStats(cfg, repos) ==> LangStats(cfg, repos)[k] == Contribution(cfg, Flatten(repos), k)
    ensures k !in LangStats(cfg, repos) ==> Contribution(cfg, Flatten(repos), k) == 0
  {
    ReposAreFlattened(cfg, map[], repos);
    AccumulateMeaning(cfg, map[], Flatten(repos), k);
  }

  // ---------------------------------------------------------------------------
  // Exclusion and merging.
  // ---------------------------------------------------------------------------

  /** An excluded pair may be inserted anywhere in the input without any effect. */
  lemma ExcludedPairIsInert(cfg: Settings, m: map<string, nat>, a: seq<Pair>, e: Pair, b: seq<Pair>)
    requires e.0 in cfg.exclude
    ensures Accumulate(cfg, m, a + [e] + b) == Accumulate(cfg, m, a + b)
  {
    AccumulateConcat(cfg, m, a + [e], b);
    AccumulateConcat(cfg, m, a, [e]);
    AccumulateConcat(cfg, m, a, b);
  }

  /** An excluded name that no name is merged into never becomes a key. */
  lemma ExcludedNameAbsent(cfg: Settings, repos: seq<Repo>, x: string)
    requires x in cfg.exclude && x !in cfg.merge.Values
    ensures x !in LangStats(cfg, repos)
  {
    LangStatsMeaning(cfg, repos, x);
  }

  /** A merge source that is not itself a merge target never becomes a key. */
  lemma MergeSourceAbsent(cfg: Settings, repos: seq<Repo>, src: string)
    requires src in cfg.merge && src !in cfg.merge.Values
    ensures src !in LangStats(cfg, repos)
  {
    LangStatsMeaning(cfg, repos, src);
  }

  /** A further repository reporting `n` bytes under a counted merge source adds
      exactly `n` to the merge target's total, adds no other key and changes no
      other total. */
  lemma MergedBytesLandOnTarget(cfg: Settings, repos: seq<Repo>, src: string, n: nat)
    requires src in cfg.merge && src !in cfg.exclude
    ensures LangStats(cfg, repos + [[(src, n)]]).Keys == LangStats(cfg, repos).Keys + {cfg.merge[src]}
    ensures LangStats(cfg, repos + [[(src, n)]])[cfg.merge[src]]
         == Get0(LangStats(cfg, repos), cfg.merge[src]) + n
    ensures forall k :: k in LangStats(cfg, repos) && k != cfg.merge[src] ==>
              k in LangStats(cfg, repos + [[(src, n)]])
              && LangStats(cfg, repos + [[(src, n)]])[k] == LangStats(cfg, repos)[k]
  {
    var p: Pair := (src, n);
    ReposAreFlattened(cfg, map[], repos + [[p]]);
    ReposAreFlattened(cfg, map[], repos);
    FlattenConcat(repos, [[p]]);
    assert [[p]][1..] == [];
    assert Flatten([[p]]) == [p];
    AccumulateConcat(cfg, map[], Flatten(repos), [p]);
    assert [p][1..] == [];
    assert Accumulate(cfg, Accumulate(cfg, map[], Flatten(repos)), [p])
        == Step(cfg, Accumulate(cfg, map[], Flatten(repos)), p);
  }

  /** With the shipped settings, JavaScript, Hack and "Jupyter Notebook" are never keys. */
  lemma DefaultAbsentNames(repos: seq<Repo>)
    ensures "JavaScript" !in LangStats(Default, repos)
    ensures "Hack" !in LangStats(Default, repos)
    ensures "Jupyter Notebook" !in LangStats(Default, repos)
  {
    forall v | v in Default.merge.Values
      ensures v == "Python"
    {
      var src :| src in Default.merge && Default.merge[src] == v;
    }
    ExcludedNameAbsent(Default, repos, "JavaScript");
    ExcludedNameAbsent(Default, repos, "Hack");
    MergeSourceAbsent(Default, repos, "Jupyter Notebook");
  }
}
