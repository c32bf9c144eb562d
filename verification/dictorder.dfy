/**
  The iteration order of `lang_stats.items()`. A Python dictionary lists its
  keys in the order they were first inserted; the ranking's stable sort keeps
  that order among equal counts, so the model tracks it.
 */
module DictOrder {
  import opened Config
  import opened Aggregate
  import opened Ranking

  /** Appends each canonical name the first time a counted pair lands on it. */
  function FirstSeen(cfg: Settings, order: seq<string>, ps: seq<Pair>): seq<string>
    decreases |ps|
  {
    if ps == [] then order
    else if Counted(cfg, ps[0]) && Canonical(cfg, ps[0].0) !in order then
      FirstSeen(cfg, order + [Canonical(cfg, ps[0].0)], ps[1..])
    else
      FirstSeen(cfg, order, ps[1..])
  }

  /** The key order of `lang_stats` after the loop. */
  function KeyOrder(cfg: Settings, repos: seq<Repo>): seq<string>
  {
    FirstSeen(cfg, [], Flatten(repos))
  }

  /** The insertion order lists exactly the keys of the running map, once each. */
  lemma {:induction false} FirstSeenTracksKeys(cfg: Settings, order: seq<string>, m: map<string, nat>, ps: seq<Pair>)
    requires Distinct(order)
    requires forall k :: k in order <==> k in m
    ensures Distinct(FirstSeen(cfg, order, ps))
    ensures forall k :: k in FirstSeen(cfg, order, ps) <==> k in Accumulate(cfg, m, ps)
    decreases |ps|
  {
    if ps != [] {
      var m' := Step(cfg, m, ps[0]);
      if Counted(cfg, ps[0]) && Canonical(cfg, ps[0].0) !in order {
        var order' := order + [Canonical(cfg, ps[0].0)];
        assert forall k :: k in order' <==> k in order || k == Canonical(cfg, ps[0].0);
        FirstSeenTracksKeys(cfg, order', m', ps[1..]);
      } else {
        FirstSeenTracksKeys(cfg, order, m', ps[1..]);
      }
    }
  }

  lemma KeyOrderIsKeys(cfg: Settings, repos: seq<Repo>)
    ensures Distinct(KeyOrder(cfg, repos))
    ensures forall k :: k in KeyOrder(cfg, repos) <==> k in LangStats(cfg, repos)
  {
    ReposAreFlattened(cfg, map[], repos);
    FirstSeenTracksKeys(cfg, [], map[], Flatten(repos));
  }

  /** `lang_stats.items()`: every entry once, in insertion order. */
  function Items(cfg: Settings, repos: seq<Repo>): (r: seq<Entry>)
    ensures Enumerates(r, LangStats(cfg, repos))
  {
    var order := KeyOrder(cfg, repos);
    var stats := LangStats(cfg, repos);
    KeyOrderIsKeys(cfg, repos);
    var r := seq(|order|, i requires 0 <= i < |order| => (order[i], stats[order[i]]));
    assert Labels(r) == order;
    r
  }
}
