/**
  Order-independence of the aggregation: the final `lang_stats` map depends
  only on which pairs were reported, not on the order of the repositories or
  of the pairs inside a repository.
 */
module OrderIndependence {
  import opened Config
  import opened Aggregate

  /** Two loop iterations may be swapped. */
  lemma StepCommutes(cfg: Settings, m: map<string, nat>, a: Pair, b: Pair)
    ensures Step(cfg, Step(cfg, m, a), b) == Step(cfg, Step(cfg, m, b), a)
  {
    if Counted(cfg, a) && Counted(cfg, b) {
      var na, nb := Canonical(cfg, a.0), Canonical(cfg, b.0);
      var x, y := Step(cfg, Step(cfg, m, a), b), Step(cfg, Step(cfg, m, b), a);
      assert x.Keys == y.Keys;
      forall k | k in x
        ensures x[k] == y[k]
      {
        if k == na && k == nb {
          assert x[k] == Get0(m, k) + a.1 + b.1;
        }
      }
    }
  }

  /** Visiting `qs[i]` first and the rest in order gives the same map. */
  lemma {:induction false} MoveToFront(cfg: Settings, m: map<string, nat>, qs: seq<Pair>, i: nat)
    requires i < |qs|
    ensures Accumulate(cfg, m, qs) == Accumulate(cfg, Step(cfg, m, qs[i]), qs[..i] + qs[i + 1..])
    decreases i
  {
    if i == 0 {
      assert qs[..0] + qs[1..] == qs[1..];
    } else {
      var m0 := Step(cfg, m, qs[0]);
      MoveToFront(cfg, m0, qs[1..], i - 1);
      assert qs[1..][i - 1] == qs[i];
      assert qs[1..][..i - 1] + qs[1..][i..] == qs[1..i] + qs[i + 1..];
      StepCommutes(cfg, m, qs[0], qs[i]);
      var rest := qs[..i] + qs[i + 1..];
      assert rest[0] == qs[0];
      assert rest[1..] == qs[1..i] + qs[i + 1..];
    }
  }

  lemma SplitAt<T>(s: seq<T>, i: nat)
    requires i < |s|
    ensures s == (s[..i] + [s[i]]) + s[i + 1..]
  {
  }

  /** Taking out position `i` takes one copy of `s[i]` out of the multiset. */
  lemma RemoveAt<T>(s: seq<T>, i: nat)
    requires i < |s|
    ensures multiset(s[..i] + s[i + 1..]) == multiset(s) - multiset{s[i]}
  {
    SplitAt(s, i);
  }

  /** Matching the head of `rs` with position `i` of a permutation `ts`
      leaves permutations of each other. */
  lemma MatchHead<T>(rs: seq<T>, ts: seq<T>, i: nat)
    requires multiset(rs) == multiset(ts) && rs != []
    requires i < |ts| && ts[i] == rs[0]
    ensures multiset(rs[1..]) == multiset(ts[..i] + ts[i + 1..])
  {
    RemoveAt(ts, i);
    assert rs == [rs[0]] + rs[1..];
    assert multiset(rs) == multiset{rs[0]} + multiset(rs[1..]);
  }

  /** Any two visiting orders of the same multiset of pairs give the same map. */
  lemma {:induction false} AccumulatePermutation(cfg: Settings, m: map<string, nat>, ps: seq<Pair>, qs: seq<Pair>)
    requires multiset(ps) == multiset(qs)
    ensures Accumulate(cfg, m, ps) == Accumulate(cfg, m, qs)
    decreases |ps|
  {
    if ps == [] {
      assert |qs| == |multiset(qs)| == 0;
    } else {
      var a := ps[0];
      assert a in multiset(qs);
      var i :| 0 <= i < |qs| && qs[i] == a;
      MoveToFront(cfg, m, qs, i);
      MatchHead(ps, qs, i);
      AccumulatePermutation(cfg, Step(cfg, m, a), ps[1..], qs[..i] + qs[i + 1..]);
    }
  }

  /** The pairs of repository `i` and those of the others make up all pairs. */
  lemma FlattenAt(ts: seq<Repo>, i: nat)
    requires i < |ts|
    ensures multiset(Flatten(ts)) == multiset(ts[i]) + multiset(Flatten(ts[..i] + ts[i + 1..]))
  {
    var before, after := ts[..i], ts[i + 1..];
    var single: seq<Repo> := [ts[i]];
    SplitAt(ts, i);
    FlattenConcat(before + single, after);
    FlattenConcat(before, single);
    assert Flatten(single) == ts[i] by {
      assert single[1..] == [];
    }
    FlattenConcat(before, after);
    var fb, fa := Flatten(before), Flatten(after);
    assert Flatten(ts) == fb + ts[i] + fa;
    assert multiset(Flatten(ts)) == multiset(fb) + multiset(ts[i]) + multiset(fa);
    assert multiset(Flatten(before + after)) == multiset(fb) + multiset(fa);
  }

  /** Permuting the repositories permutes the flattened pairs. */
  lemma {:induction false} FlattenPermutation(rs: seq<Repo>, ts: seq<Repo>)
    requires multiset(rs) == multiset(ts)
    ensures multiset(Flatten(rs)) == multiset(Flatten(ts))
    decreases |rs|
  {
    if rs == [] {
      assert |ts| == |multiset(ts)| == 0;
    } else {
      var r := rs[0];
      assert r in multiset(ts);
      var i :| 0 <= i < |ts| && ts[i] == r;
      var others := ts[..i] + ts[i + 1..];
      MatchHead(rs, ts, i);
      FlattenPermutation(rs[1..], others);
      FlattenAt(ts, i);
      assert Flatten(rs) == r + Flatten(rs[1..]);
    }
  }

  /** Permuting the pairs inside each repository permutes the flattened pairs. */
  lemma {:induction false} FlattenPointwise(rs: seq<Repo>, ts: seq<Repo>)
    requires |rs| == |ts|
    requires forall i :: 0 <= i < |rs| ==> multiset(rs[i]) == multiset(ts[i])
    ensures multiset(Flatten(rs)) == multiset(Flatten(ts))
    decreases |rs|
  {
    if rs != [] {
      FlattenPointwise(rs[1..], ts[1..]);
    }
  }

  /** `lang_stats` is the same for any two inputs reporting the same pairs. */
  lemma LangStatsDependsOnPairsOnly(cfg: Settings, rs: seq<Repo>, ts: seq<Repo>)
    requires multiset(Flatten(rs)) == multiset(Flatten(ts))
    ensures LangStats(cfg, rs) == LangStats(cfg, ts)
  {
    ReposAreFlattened(cfg, map[], rs);
    ReposAreFlattened(cfg, map[], ts);
    AccumulatePermutation(cfg, map[], Flatten(rs), Flatten(ts));
  }

  /** Permuting the repository list does not change `lang_stats`. */
  lemma RepoOrderIrrelevant(cfg: Settings, rs: seq<Repo>, ts: seq<Repo>)
    requires multiset(rs) == multiset(ts)
    ensures LangStats(cfg, rs) == LangStats(cfg, ts)
  {
    FlattenPermutation(rs, ts);
    LangStatsDependsOnPairsOnly(cfg, rs, ts);
  }

  /** Permuting the language pairs within each repository does not change `lang_stats`. */
  lemma PairOrderIrrelevant(cfg: Settings, rs: seq<Repo>, ts: seq<Repo>)
    requires |rs| == |ts|
    requires forall i :: 0 <= i < |rs| ==> multiset(rs[i]) == multiset(ts[i])
    ensures LangStats(cfg, rs) == LangStats(cfg, ts)
  {
    FlattenPointwise(rs, ts);
    LangStatsDependsOnPairsOnly(cfg, rs, ts);
  }
}
