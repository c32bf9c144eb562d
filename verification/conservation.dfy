/**
  Conservation of bytes: the totals in `lang_stats` add up to the bytes of
  every counted pair of every repository; nothing is lost by merging.
 */
module Conservation {
  import opened Config
  import opened Aggregate

  /** Some key of a non-empty map. */
  ghost function Pick(m: map<string, nat>): (k: string)
    requires m != map[]
    ensures k in m
  {
    var k :| k in m.Keys; k
  }

  /** The sum of all values of a map. */
  ghost function Total(m: map<string, nat>): nat
    decreases |m|
  {
    if m == map[] then 0
    else
      var k := Pick(m);
      assert |(m - {k}).Keys| < |m.Keys| by {
        assert (m - {k}).Keys == m.Keys - {k};
      }
      m[k] + Total(m - {k})
  }

  /** The sum does not depend on which key is taken out first. */
  lemma {:induction false} TotalRemove(m: map<string, nat>, k: string)
    requires k in m
    ensures Total(m) == m[k] + Total(m - {k})
    decreases |m|
  {
    var j := Pick(m);
    if j != k {
      assert (m - {j}).Keys == m.Keys - {j};
      assert (m - {k}).Keys == m.Keys - {k};
      TotalRemove(m - {j}, k);
      TotalRemove(m - {k}, j);
      assert m - {j} - {k} == m - {k} - {j};
    }
  }

  /** Setting one key's value changes the sum by the difference. */
  lemma TotalUpdate(m: map<string, nat>, k: string, v: nat)
    ensures Total(m[k := v]) + Get0(m, k) == Total(m) + v
  {
    TotalRemove(m[k := v], k);
    assert m[k := v] - {k} == m - {k};
    if k in m {
      TotalRemove(m, k);
    } else {
      assert m - {k} == m;
    }
  }

  /** The fold adds exactly the counted bytes to the running sum. */
  lemma {:induction false} AccumulateConserves(cfg: Settings, m: map<string, nat>, ps: seq<Pair>)
    ensures Total(Accumulate(cfg, m, ps)) == Total(m) + CountedBytes(cfg, ps)
    decreases |ps|
  {
    if ps != [] {
      var p := ps[0];
      if Counted(cfg, p) {
        var name := Canonical(cfg, p.0);
        TotalUpdate(m, name, Get0(m, name) + p.1);
      }
      AccumulateConserves(cfg, Step(cfg, m, p), ps[1..]);
    }
  }

  /** The totals of `lang_stats` sum to the bytes of all non-excluded pairs. */
  lemma LangStatsConserves(cfg: Settings, repos: seq<Repo>)
    ensures Total(LangStats(cfg, repos)) == CountedBytes(cfg, Flatten(repos))
  {
    ReposAreFlattened(cfg, map[], repos);
    AccumulateConserves(cfg, map[], Flatten(repos));
  }
}
