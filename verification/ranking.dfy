/**
  The ranking step: the dictionary's entries ordered by byte count, highest
  first, cut to the first TOP_N, and split into parallel `labels` and `sizes`
  lists.

  The sort is a stable insertion sort, highest count first, so that entries
  with equal counts keep their enumeration order as Python's stable sort does.
  The properties below hold for any enumeration of the map, so they do not
  depend on how ties are broken.
 */
module Ranking {

  /** A (language, total bytes) entry of `lang_stats.items()`. */
  type Entry = (string, nat)

  function Min(a: nat, b: nat): nat
  {
    if a <= b then a else b
  }

  /** Highest count first, comparing every pair of positions. */
  predicate Descending(s: seq<Entry>)
  {
    forall i, j :: 0 <= i < j < |s| ==> s[i].1 >= s[j].1
  }

  predicate Distinct(xs: seq<string>)
  {
    forall i, j :: 0 <= i < j < |xs| ==> xs[i] != xs[j]
  }

  /** `labels`: the first components, position by position. */
  function Labels(s: seq<Entry>): (r: seq<string>)
    ensures |r| == |s|
    ensures forall i :: 0 <= i < |s| ==> r[i] == s[i].0
  {
    seq(|s|, i requires 0 <= i < |s| => s[i].0)
  }

  /** `sizes`: the second components, position by position. */
  function Sizes(s: seq<Entry>): (r: seq<nat>)
    ensures |r| == |s|
    ensures forall i :: 0 <= i < |s| ==> r[i] == s[i].1
  {
    seq(|s|, i requires 0 <= i < |s| => s[i].1)
  }

  /** Pairs two parallel lists back up. */
  function Zip(labels: seq<string>, sizes: seq<nat>): (r: seq<Entry>)
    requires |labels| == |sizes|
    ensures |r| == |labels|
    ensures forall i :: 0 <= i < |r| ==> r[i].0 == labels[i] && r[i].1 == sizes[i]
  {
    seq(|labels|, i requires 0 <= i < |labels| => (labels[i], sizes[i]))
  }

  /** `items` lists every entry of `m` exactly once, in some order. */
  predicate Enumerates(items: seq<Entry>, m: map<string, nat>)
  {
    && Distinct(Labels(items))
    && (forall i :: 0 <= i < |items| ==> items[i].0 in m && m[items[i].0] == items[i].1)
    && (forall k :: k in m ==> k in Labels(items))
  }

  /** Places `x` in front of the first entry whose count does not exceed its
      own, so `x` precedes the equal entries that come after it. */
  function Insert(x: Entry, s: seq<Entry>): (r: seq<Entry>)
    ensures |r| == |s| + 1
    ensures multiset(r) == multiset(s) + multiset{x}
    decreases |s|
  {
    if s == [] || s[0].1 <= x.1 then [x] + s
    else
      assert s == [s[0]] + s[1..];
      [s[0]] + Insert(x, s[1..])
  }

  /** Every entry of `Insert(x, s)` is `x` or an entry of `s`. */
  lemma InsertMembers(x: Entry, s: seq<Entry>, y: Entry)
    requires y in Insert(x, s)
    ensures y == x || y in s
  {
    assert y in multiset(Insert(x, s));
  }

  lemma {:induction false} InsertDescending(x: Entry, s: seq<Entry>)
    requires Descending(s)
    ensures Descending(Insert(x, s))
    decreases |s|
  {
    if s != [] && s[0].1 > x.1 {
      var rest := Insert(x, s[1..]);
      InsertDescending(x, s[1..]);
      forall j | 0 <= j < |rest|
        ensures rest[j].1 <= s[0].1
      {
        InsertMembers(x, s[1..], rest[j]);
      }
      assert Insert(x, s) == [s[0]] + rest;
    }
  }

  lemma {:induction false} InsertDistinct(x: Entry, s: seq<Entry>)
    requires Distinct(Labels(s)) && x.0 !in Labels(s)
    ensures Distinct(Labels(Insert(x, s)))
    decreases |s|
  {
    if s != [] && s[0].1 > x.1 {
      var rest := Insert(x, s[1..]);
      assert Labels(s[1..]) == Labels(s)[1..];
      InsertDistinct(x, s[1..]);
      forall j | 0 <= j < |rest|
        ensures rest[j].0 != s[0].0
      {
        InsertMembers(x, s[1..], rest[j]);
        if rest[j] != x {
          var i :| 0 <= i < |s[1..]| && s[1..][i] == rest[j];
          assert Labels(s)[i + 1] == rest[j].0;
        }
      }
      assert Insert(x, s) == [s[0]] + rest;
      assert Labels(Insert(x, s)) == [s[0].0] + Labels(rest);
    }
  }

  /** Python's stable descending sort by count: a permutation of
      its input, highest count first. */
  function SortByBytes(s: seq<Entry>): (r: seq<Entry>)
    ensures |r| == |s|
    ensures multiset(r) == multiset(s)
    ensures Descending(r)
    decreases |s|
  {
    if s == [] then []
    else
      var rest := SortByBytes(s[1..]);
      assert s == [s[0]] + s[1..];
      InsertDescending(s[0], rest);
      Insert(s[0], rest)
  }

  /** Sorting never makes two entries share a name. */
  lemma {:induction false} SortKeepsNamesDistinct(s: seq<Entry>)
    requires Distinct(Labels(s))
    ensures Distinct(Labels(SortByBytes(s)))
    decreases |s|
  {
    if s != [] {
      var rest := SortByBytes(s[1..]);
      assert Labels(s[1..]) == Labels(s)[1..];
      SortKeepsNamesDistinct(s[1..]);
      forall i | 0 <= i < |s[1..]|
        ensures s[1..][i].0 != s[0].0
      {
        assert Labels(s)[i + 1] == s[1..][i].0;
      }
      forall j | 0 <= j < |rest|
        ensures rest[j].0 != s[0].0
      {
        assert rest[j] in multiset(s[1..]);
      }
      InsertDistinct(s[0], rest);
    }
  }

  /** `sorted_langs`: the first `n` entries of the sorted list, or all of them. */
  function Rank(items: seq<Entry>, n: nat): seq<Entry>
  {
    SortByBytes(items)[..Min(n, |items|)]
  }

  /** A sequence of distinct names has as many elements as its set. */
  lemma {:induction false} DistinctCardinality(xs: seq<string>)
    requires Distinct(xs)
    ensures |set x | x in xs| == |xs|
    decreases |xs|
  {
    if xs != [] {
      DistinctCardinality(xs[1..]);
      assert (set x | x in xs) == {xs[0]} + (set x | x in xs[1..]);
      assert xs[0] !in (set x | x in xs[1..]);
    }
  }

  /** An enumeration has one entry per key. */
  lemma EnumerationLength(items: seq<Entry>, m: map<string, nat>)
    requires Enumerates(items, m)
    ensures |items| == |m|
  {
    var names := Labels(items);
    DistinctCardinality(names);
    assert m.Keys == set x | x in names;
  }

  /** Every ranked entry is an entry of the map. */
  lemma RankedAreEntries(items: seq<Entry>, m: map<string, nat>, n: nat)
    requires Enumerates(items, m)
    ensures forall i :: 0 <= i < |Rank(items, n)| ==>
              Rank(items, n)[i].0 in m && m[Rank(items, n)[i].0] == Rank(items, n)[i].1
  {
    var sorted := SortByBytes(items);
    var r := Rank(items, n);
    forall i | 0 <= i < |r|
      ensures r[i].0 in m && m[r[i].0] == r[i].1
    {
      assert r[i] == sorted[i];
      assert sorted[i] in multiset(items);
    }
  }

  /** A name missing from the ranking was cut off by the truncation, below
      every kept entry. */
  lemma DroppedAreOutranked(items: seq<Entry>, m: map<string, nat>, n: nat, k: string)
    requires Enumerates(items, m)
    requires k in m && k !in Labels(Rank(items, n))
    ensures |Rank(items, n)| == n
    ensures forall i :: 0 <= i < |Rank(items, n)| ==> Rank(items, n)[i].1 >= m[k]
  {
    var sorted := SortByBytes(items);
    var r := Rank(items, n);
    assert r == sorted[..Min(n, |items|)];
    var a :| 0 <= a < |items| && items[a].0 == k;
    assert items[a] in multiset(sorted);
    var j :| 0 <= j < |sorted| && sorted[j] == items[a];
    forall i | 0 <= i < |r|
      ensures r[i] == sorted[i] && r[i].0 != k
    {
      assert Labels(r)[i] == r[i].0;
    }
    assert |r| <= j;
    forall i | 0 <= i < |r|
      ensures r[i].1 >= m[k]
    {
      assert sorted[i].1 >= sorted[j].1;
    }
  }

  /** What `sorted_langs` is, for any enumeration of `lang_stats`: at most `n`
      entries, each an entry of the map, no name twice, highest count first, and
      no dropped entry outranks a kept one. */
  lemma RankMeaning(items: seq<Entry>, m: map<string, nat>, n: nat)
    requires Enumerates(items, m)
    ensures |Rank(items, n)| == Min(n, |m|)
    ensures forall i :: 0 <= i < |Rank(items, n)| ==>
              Rank(items, n)[i].0 in m && m[Rank(items, n)[i].0] == Rank(items, n)[i].1
    ensures Distinct(Labels(Rank(items, n)))
    ensures Descending(Rank(items, n))
    ensures forall k :: k in m && k !in Labels(Rank(items, n)) ==>
              |Rank(items, n)| == n
              && forall i :: 0 <= i < |Rank(items, n)| ==> Rank(items, n)[i].1 >= m[k]
  {
    EnumerationLength(items, m);
    RankedAreEntries(items, m, n);
    var sorted := SortByBytes(items);
    var r := Rank(items, n);
    SortKeepsNamesDistinct(items);
    assert Distinct(Labels(r)) by {
      forall i, j | 0 <= i < j < |r|
        ensures Labels(r)[i] != Labels(r)[j]
      {
        assert Labels(r)[i] == Labels(sorted)[i];
        assert Labels(r)[j] == Labels(sorted)[j];
      }
    }
    forall k | k in m && k !in Labels(r)
      ensures |r| == n && forall i :: 0 <= i < |r| ==> r[i].1 >= m[k]
    {
      DroppedAreOutranked(items, m, n, k);
    }
  }

  /** An already highest-first list comes out of the sort unchanged, ties
      included: the sort is stable. */
  lemma {:induction false} SortKeepsDescending(s: seq<Entry>)
    requires Descending(s)
    ensures SortByBytes(s) == s
    decreases |s|
  {
    if s != [] {
      SortKeepsDescending(s[1..]);
      assert s == [s[0]] + s[1..];
    }
  }

  /** The entries of `s` with count `c`, in their order in `s`. */
  function WithCount(s: seq<Entry>, c: nat): seq<Entry>
    decreases |s|
  {
    if s == [] then [] else (if s[0].1 == c then [s[0]] else []) + WithCount(s[1..], c)
  }

  /** Inserting `x` puts it ahead of every entry with the same count. */
  lemma {:induction false} InsertWithCount(x: Entry, s: seq<Entry>, c: nat)
    ensures WithCount(Insert(x, s), c) == (if x.1 == c then [x] else []) + WithCount(s, c)
    decreases |s|
  {
    if s == [] || s[0].1 <= x.1 {
      assert ([x] + s)[1..] == s;
    } else {
      var rest := Insert(x, s[1..]);
      InsertWithCount(x, s[1..], c);
      assert ([s[0]] + rest)[1..] == rest;
    }
  }

  /** Stability: for every count, the entries with that count keep their
      relative order through the sort. */
  lemma {:induction false} SortIsStable(s: seq<Entry>, c: nat)
    ensures WithCount(SortByBytes(s), c) == WithCount(s, c)
    decreases |s|
  {
    if s != [] {
      SortIsStable(s[1..], c);
      InsertWithCount(s[0], SortByBytes(s[1..]), c);
    }
  }

  /** When nothing is cut off, a highest-first enumeration is its own ranking. */
  lemma RankKeepsDescending(s: seq<Entry>, n: nat)
    requires Descending(s) && |s| <= n
    ensures Rank(s, n) == s
  {
    SortKeepsDescending(s);
    assert SortByBytes(s)[..|s|] == s;
  }

  /** Pairing the projected lists back up gives the ranked list again. */
  lemma ProjectionRoundTrip(s: seq<Entry>)
    ensures |Labels(s)| == |Sizes(s)|
    ensures Zip(Labels(s), Sizes(s)) == s
  {
  }
}
