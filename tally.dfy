/**
 * Counting values into a dictionary (`acc[v] = (acc[v] || 0) + 1` inside
 * `forEach` / `reduce`), reading the dictionary back as entries in insertion
 * order (`Object.entries`), and ranking entries by count with the stable
 * `sort((a, b) => b[1] - a[1])`.
 */
module Tally {

  import opened Ranking

  /** The number of times `v` occurs in `xs`. */
  function Occurrences(xs: seq<string>, v: string): nat
  {
    if xs == [] then 0
    else Occurrences(xs[..|xs| - 1], v) + (if xs[|xs| - 1] == v then 1 else 0)
  }

  /** The distinct values of `xs` in order of first occurrence: the keys of the dictionary. */
  function Distinct(xs: seq<string>): seq<string>
  {
    if xs == [] then []
    else
      var d := Distinct(xs[..|xs| - 1]);
      if xs[|xs| - 1] in d then d else d + [xs[|xs| - 1]]
  }

  predicate NoDuplicates(keys: seq<string>) {
    forall i, j :: 0 <= i < j < |keys| ==> keys[i] != keys[j]
  }

  lemma {:induction false} DistinctProperties(xs: seq<string>)
    ensures NoDuplicates(Distinct(xs))
    ensures forall v :: v in Distinct(xs) <==> v in xs
  {
    if xs != [] {
      var init := xs[..|xs| - 1];
      DistinctProperties(init);
      assert xs == init + [xs[|xs| - 1]];
    }
  }

  lemma OccurrencesPositive(xs: seq<string>, v: string)
    ensures Occurrences(xs, v) > 0 <==> v in xs
  {
    if xs != [] {
      var init := xs[..|xs| - 1];
      OccurrencesPositive(init, v);
      assert xs == init + [xs[|xs| - 1]];
    }
  }

  /** One entry of `Object.entries(counts)`. */
  type Entry = (string, nat)

  /** Each key paired with its number of occurrences in `xs`. */
  function TallyOf(keys: seq<string>, xs: seq<string>): (entries: seq<Entry>)
    ensures |entries| == |keys|
    ensures forall i :: 0 <= i < |keys| ==> entries[i] == (keys[i], Occurrences(xs, keys[i]))
  {
    seq(|keys|, i requires 0 <= i < |keys| => (keys[i], Occurrences(xs, keys[i])))
  }

  /** The entries the dictionary built from `xs` yields, in insertion order. */
  function Tallied(xs: seq<string>): seq<Entry>
  {
    TallyOf(Distinct(xs), xs)
  }

  /** `Object.entries(counts)` for a dictionary holding exactly `keys`. */
  function EntriesOf(keys: seq<string>, counts: map<string, nat>): seq<Entry>
    requires forall k :: k in keys ==> k in counts
  {
    seq(|keys|, i requires 0 <= i < |keys| => (keys[i], counts[keys[i]]))
  }

  /**
   * The counting loop: one pass over the values, adding a key on its first
   * occurrence and incrementing it on every later one.
   */
  method Count(xs: seq<string>) returns (keys: seq<string>, counts: map<string, nat>)
    ensures keys == Distinct(xs)
    ensures forall v :: v in counts <==> v in xs
    ensures forall v :: v in counts ==> counts[v] == Occurrences(xs, v)
    ensures forall k :: k in keys ==> k in counts
    ensures EntriesOf(keys, counts) == Tallied(xs)
  {
    keys, counts := [], map[];
    var i := 0;
    while i < |xs|
      invariant 0 <= i <= |xs|
      invariant keys == Distinct(xs[..i])
      invariant forall v :: v in keys <==> v in counts
      invariant forall v :: v in counts <==> v in xs[..i]
      invariant forall v :: v in counts ==> counts[v] == Occurrences(xs[..i], v)
    {
      var v := xs[i];
      assert xs[..i + 1][..i] == xs[..i];
      if v in counts {
        counts := counts[v := counts[v] + 1];
      } else {
        OccurrencesPositive(xs[..i], v);
        keys := keys + [v];
        counts := counts[v := 1];
      }
      i := i + 1;
    }
    assert xs[..|xs|] == xs;
  }

  /** The sum of the counts of a list of entries. */
  function Total(entries: seq<Entry>): nat
  {
    if entries == [] then 0 else entries[0].1 + Total(entries[1..])
  }

  /** The sum over `keys` of the occurrences of each key in `xs`. */
  function SumOccurrences(keys: seq<string>, xs: seq<string>): nat
  {
    if keys == [] then 0 else Occurrences(xs, keys[0]) + SumOccurrences(keys[1..], xs)
  }

  lemma {:induction false} SumOccurrencesAppend(keys: seq<string>, xs: seq<string>, v: string)
    requires NoDuplicates(keys)
    ensures SumOccurrences(keys, xs + [v]) == SumOccurrences(keys, xs) + (if v in keys then 1 else 0)
  {
    if keys != [] {
      assert (xs + [v])[..|xs + [v]| - 1] == xs;
      SumOccurrencesAppend(keys[1..], xs, v);
      assert v in keys <==> v == keys[0] || v in keys[1..];
    }
  }

  lemma {:induction false} SumOccurrencesSnoc(keys: seq<string>, v: string, xs: seq<string>)
    ensures SumOccurrences(keys + [v], xs) == SumOccurrences(keys, xs) + Occurrences(xs, v)
  {
    if keys == [] {
      assert [v][1..] == [];
    } else {
      assert (keys + [v])[1..] == keys[1..] + [v];
      SumOccurrencesSnoc(keys[1..], v, xs);
    }
  }

  /** Every value is counted exactly once: the counts add up to the number of values. */
  lemma {:induction false} CountsSumToLength(xs: seq<string>)
    ensures SumOccurrences(Distinct(xs), xs) == |xs|
  {
    if xs != [] {
      var init, v := xs[..|xs| - 1], xs[|xs| - 1];
      assert xs == init + [v];
      CountsSumToLength(init);
      DistinctProperties(init);
      SumOccurrencesAppend(Distinct(init), init, v);
      if v !in Distinct(init) {
        SumOccurrencesSnoc(Distinct(init), v, xs);
        OccurrencesPositive(init, v);
      }
    }
  }

  lemma {:induction false} TotalTallyOf(keys: seq<string>, xs: seq<string>)
    ensures Total(TallyOf(keys, xs)) == SumOccurrences(keys, xs)
  {
    if keys != [] {
      assert TallyOf(keys, xs)[1..] == TallyOf(keys[1..], xs);
      TotalTallyOf(keys[1..], xs);
    }
  }

  /** The entries of the dictionary built from `xs` add up to `|xs|`. */
  lemma TalliedTotal(xs: seq<string>)
    ensures Total(Tallied(xs)) == |xs|
  {
    TotalTallyOf(Distinct(xs), xs);
    CountsSumToLength(xs);
  }

  // ---------------------------------------------------------------------------
  // Ranking by count

  /** The sort key of an entry: its count. */
  function CountKey(e: Entry): real {
    e.1 as real
  }

  /** `entries.sort(([, a], [, b]) => b - a)`. */
  function RankByCount(entries: seq<Entry>): seq<Entry>
  {
    RankBy(entries, CountKey)
  }

  lemma {:induction false} TotalAppend(a: seq<Entry>, b: seq<Entry>)
    ensures Total(a + b) == Total(a) + Total(b)
  {
    if a == [] {
      assert a + b == b;
    } else {
      assert (a + b)[1..] == a[1..] + b;
      TotalAppend(a[1..], b);
    }
  }

  /** Taking out the entry at `k` removes its count from the total. */
  lemma RemoveAt(b: seq<Entry>, k: nat)
    requires k < |b|
    ensures Total(b) == b[k].1 + Total(b[..k] + b[k + 1..])
  {
    var tail: seq<Entry> := [b[k]] + b[k + 1..];
    TotalAppend(b[..k], tail);
    TotalAppend(b[..k], b[k + 1..]);
    assert b == b[..k] + tail;
    assert tail[1..] == b[k + 1..];
  }

  /** Taking out the entry at `k` removes one copy of it from the multiset. */
  lemma RemoveAtMultiset<T>(b: seq<T>, k: nat)
    requires k < |b|
    ensures multiset(b[..k] + b[k + 1..]) == multiset(b) - multiset{b[k]}
  {
    assert b == b[..k] + [b[k]] + b[k + 1..];
  }

  /** Reordering entries does not change their total. */
  lemma {:induction false} TotalPermutation(a: seq<Entry>, b: seq<Entry>)
    requires multiset(a) == multiset(b)
    ensures Total(a) == Total(b)
    decreases |a|
  {
    if a == [] {
      assert |multiset(b)| == 0;
    } else {
      var e := a[0];
      assert e in multiset(b);
      assert e in b;
      var k :| 0 <= k < |b| && b[k] == e;
      var rest := b[..k] + b[k + 1..];
      RemoveAtMultiset(b, k);
      assert a == [e] + a[1..];
      assert multiset(a[1..]) == multiset(a) - multiset{e};
      TotalPermutation(a[1..], rest);
      RemoveAt(b, k);
      assert Total(a) == e.1 + Total(a[1..]);
    }
  }

  /** Entries with pairwise different keys each occur once. */
  lemma {:induction false} DistinctKeysOnce(entries: seq<Entry>)
    requires forall i, j :: 0 <= i < j < |entries| ==> entries[i].0 != entries[j].0
    ensures forall e :: multiset(entries)[e] <= 1
  {
    if entries != [] {
      DistinctKeysOnce(entries[1..]);
      assert entries == [entries[0]] + entries[1..];
      assert entries[0] !in entries[1..];
    }
  }

  /** An element at two positions occurs at least twice. */
  lemma TwoPositions<T>(r: seq<T>, i: nat, j: nat)
    requires i < j < |r|
    ensures r[i] == r[j] ==> multiset(r)[r[i]] >= 2
  {
    assert r == r[..j] + r[j..];
    assert r[i] in r[..j] && r[j] in r[j..];
  }

  /** Every ranked entry is a value of `xs` with its number of occurrences. */
  lemma RankedEntriesCounted(xs: seq<string>)
    ensures var r := RankByCount(Tallied(xs));
      forall i :: 0 <= i < |r| ==> r[i].0 in xs && r[i].1 == Occurrences(xs, r[i].0) >= 1
  {
    var t := Tallied(xs);
    var r := RankByCount(t);
    RankByPermutes(t, CountKey);
    DistinctProperties(xs);
    forall i | 0 <= i < |r| ensures r[i].0 in xs && r[i].1 == Occurrences(xs, r[i].0) >= 1 {
      assert r[i] in multiset(t);
      var m :| 0 <= m < |t| && t[m] == r[i];
      assert Distinct(xs)[m] in Distinct(xs);
      OccurrencesPositive(xs, r[i].0);
    }
  }

  /** Every value of `xs` has its entry in the ranking. */
  lemma RankedCoversValues(xs: seq<string>)
    ensures var r := RankByCount(Tallied(xs));
      forall v :: v in xs ==> (v, Occurrences(xs, v)) in r
  {
    var t := Tallied(xs);
    var r := RankByCount(t);
    RankByPermutes(t, CountKey);
    DistinctProperties(xs);
    forall v | v in xs ensures (v, Occurrences(xs, v)) in r {
      var m :| 0 <= m < |Distinct(xs)| && Distinct(xs)[m] == v;
      assert t[m] == (v, Occurrences(xs, v));
      assert t[m] in multiset(r);
    }
  }

  /** No value has two entries in the ranking. */
  lemma RankedKeysDistinct(xs: seq<string>)
    ensures var r := RankByCount(Tallied(xs));
      forall i, j :: 0 <= i < j < |r| ==> r[i].0 != r[j].0
  {
    var t := Tallied(xs);
    var r := RankByCount(t);
    RankByPermutes(t, CountKey);
    DistinctProperties(xs);
    DistinctKeysOnce(t);
    RankedEntriesCounted(xs);
    forall i, j | 0 <= i < j < |r| ensures r[i].0 != r[j].0 {
      // two entries with one key would carry the same count, so be one entry twice
      TwoPositions(r, i, j);
    }
  }

  /**
   * The ranked dictionary: non-increasing counts, one entry per distinct
   * value carrying its number of occurrences (at least one), totalling the
   * number of values.
   */
  lemma RankedTally(xs: seq<string>)
    ensures var r := RankByCount(Tallied(xs));
      && NonIncreasing(r, CountKey)
      && |r| == |Distinct(xs)|
      && (forall i :: 0 <= i < |r| ==> r[i].0 in xs && r[i].1 == Occurrences(xs, r[i].0) >= 1)
      && (forall v :: v in xs ==> (v, Occurrences(xs, v)) in r)
      && (forall i, j :: 0 <= i < j < |r| ==> r[i].0 != r[j].0)
      && Total(r) == |xs|
  {
    var t := Tallied(xs);
    RankBySorted(t, CountKey);
    RankByPermutes(t, CountKey);
    RankedEntriesCounted(xs);
    RankedCoversValues(xs);
    RankedKeysDistinct(xs);
    TotalPermutation(RankByCount(t), t);
    TalliedTotal(xs);
  }
}
