/**
 * The two sidebar aggregations of the blog page: the tag cloud (every
 * character's tags counted, ranked, the top 20 shown) and the category list
 * (each dinosaur's diet, period and locomotion type counted and ranked).
 */
module BlogCounts {

  import opened Options
  import opened Ranking
  import opened Tally
  import opened Records
  import CharacterSearch

  // ---------------------------------------------------------------------------
  // Tag cloud

  /** `characters.flatMap(char => char.tags || [])`. */
  function AllTags(characters: seq<CharacterSearch.Character>): seq<string>
  {
    if characters == [] then [] else characters[0].tags.GetOr([]) + AllTags(characters[1..])
  }

  /** A tag is collected exactly when some character carries it. */
  lemma {:induction false} AllTagsMembers(characters: seq<CharacterSearch.Character>, tag: string)
    ensures tag in AllTags(characters) <==>
      exists i :: 0 <= i < |characters| && tag in characters[i].tags.GetOr([])
  {
    if characters != [] {
      AllTagsMembers(characters[1..], tag);
      if tag in AllTags(characters[1..]) {
        var i :| 0 <= i < |characters[1..]| && tag in characters[1..][i].tags.GetOr([]);
        assert characters[1..][i] == characters[i + 1];
      }
      if exists i :: 0 <= i < |characters| && tag in characters[i].tags.GetOr([]) {
        var i :| 0 <= i < |characters| && tag in characters[i].tags.GetOr([]);
        if i > 0 {
          assert characters[1..][i - 1] == characters[i];
        }
      }
    }
  }

  const TagLimit: nat := 20

  /** `.slice(0, n)`. */
  function Take<T>(xs: seq<T>, n: nat): (r: seq<T>)
    ensures |r| <= n && |r| <= |xs|
    ensures |xs| <= n ==> r == xs
    ensures r == xs[..|r|]
  {
    if |xs| <= n then xs else xs[..n]
  }

  /** The tags shown: all tag counts ranked by count, cut to 20. */
  function TagCloudEntries(characters: seq<CharacterSearch.Character>): seq<Entry>
  {
    Take(RankByCount(Tallied(AllTags(characters))), TagLimit)
  }

  /** The tag cloud computation: flatten, count with the `reduce` loop, rank, cut. */
  method TagCloud(characters: seq<CharacterSearch.Character>) returns (sortedTags: seq<Entry>)
    ensures sortedTags == TagCloudEntries(characters)
  {
    var allTags := AllTags(characters);
    var keys, counts := Count(allTags);
    sortedTags := Take(RankByCount(EntriesOf(keys, counts)), TagLimit);
  }

  /**
   * At most 20 tags are shown, by non-increasing count, each once, each
   * with its number of occurrences (at least one) among all characters'
   * tags; no tag left out has a larger count than a shown one.
   */
  lemma TagCloudProperties(characters: seq<CharacterSearch.Character>)
    ensures var all := AllTags(characters);
      var ranked := RankByCount(Tallied(all));
      var shown := TagCloudEntries(characters);
      && |shown| <= TagLimit
      && NonIncreasing(shown, CountKey)
      && (forall i :: 0 <= i < |shown| ==> shown[i].0 in all && shown[i].1 == Occurrences(all, shown[i].0) >= 1)
      && (forall i, j :: 0 <= i < j < |shown| ==> shown[i].0 != shown[j].0)
      && (forall i, j :: 0 <= i < |shown| <= j < |ranked| ==> shown[i].1 >= ranked[j].1)
      && (|Distinct(all)| <= TagLimit ==> forall v :: v in all ==> (v, Occurrences(all, v)) in shown)
  {
    var all := AllTags(characters);
    var ranked := RankByCount(Tallied(all));
    RankedTally(all);
    var shown := TagCloudEntries(characters);
    assert shown == ranked[..|shown|];
    forall i | 0 <= i < |shown| ensures shown[i] == ranked[i] {
    }
    forall i, j | 0 <= i < |shown| <= j < |ranked| ensures shown[i].1 >= ranked[j].1 {
      assert CountKey(ranked[i]) >= CountKey(ranked[j]);
    }
  }

  // ---------------------------------------------------------------------------
  // Categories

  /** `[...diets, ...periods || '', ...locomotionTypes]`, before the falsy values are dropped. */
  function CollectedValues(dinosaurs: seq<Dinosaur>): seq<Option<string>>
  {
    seq(|dinosaurs|, i requires 0 <= i < |dinosaurs| => dinosaurs[i].diet)
    + seq(|dinosaurs|, i requires 0 <= i < |dinosaurs| => Some(OrDefault(dinosaurs[i].period, "")))
    + seq(|dinosaurs|, i requires 0 <= i < |dinosaurs| => dinosaurs[i].locomotionType)
  }

  /** `.filter(Boolean)`: missing and empty values are dropped. */
  function Kept(values: seq<Option<string>>): (r: seq<string>)
    ensures |r| <= |values|
    ensures forall v :: v in r <==> Some(v) in values && v != ""
  {
    if values == [] then []
    else (if Truthy(values[0]) then [values[0].value] else []) + Kept(values[1..])
  }

  function CategoryValues(dinosaurs: seq<Dinosaur>): seq<string> {
    Kept(CollectedValues(dinosaurs))
  }

  /** `v` is the diet, period or locomotion type of `d`. */
  predicate Classifies(d: Dinosaur, v: string) {
    d.diet == Some(v) || d.period == Some(v) || d.locomotionType == Some(v)
  }

  /** A value is counted exactly when it is some dinosaur's non-empty diet, period or locomotion type. */
  lemma CategoryValueSources(dinosaurs: seq<Dinosaur>, v: string)
    ensures v in CategoryValues(dinosaurs) <==>
      v != "" && exists i :: 0 <= i < |dinosaurs| && Classifies(dinosaurs[i], v)
  {
    var n := |dinosaurs|;
    var c := CollectedValues(dinosaurs);
    if v != "" && Some(v) in c {
      var k :| 0 <= k < |c| && c[k] == Some(v);
      if k < n {
        assert dinosaurs[k].diet == Some(v);
      } else if k < 2 * n {
        assert dinosaurs[k - n].period == Some(v);
      } else {
        assert dinosaurs[k - 2 * n].locomotionType == Some(v);
      }
    }
    if v != "" && exists i :: 0 <= i < n && Classifies(dinosaurs[i], v) {
      var i :| 0 <= i < n && Classifies(dinosaurs[i], v);
      if dinosaurs[i].diet == Some(v) {
        assert c[i] == Some(v);
      } else if dinosaurs[i].period == Some(v) {
        assert c[n + i] == Some(v);
      } else {
        assert c[2 * n + i] == Some(v);
      }
    }
  }

  /** The category list: collect, count with the `reduce` loop, rank; no cut. */
  method Categories(dinosaurs: seq<Dinosaur>) returns (sortedCategories: seq<Entry>)
    ensures sortedCategories == RankByCount(Tallied(CategoryValues(dinosaurs)))
  {
    var allCategories := CategoryValues(dinosaurs);
    var keys, counts := Count(allCategories);
    sortedCategories := RankByCount(EntriesOf(keys, counts));
  }

  /**
   * Every kept value appears exactly once with its count, by non-increasing
   * count; values from different fields share a bucket, so the counts add up
   * to the number of kept values.
   */
  lemma CategoriesProperties(dinosaurs: seq<Dinosaur>)
    ensures var values := CategoryValues(dinosaurs);
      var r := RankByCount(Tallied(values));
      && NonIncreasing(r, CountKey)
      && (forall v :: v in values ==> (v, Occurrences(values, v)) in r)
      && (forall i :: 0 <= i < |r| ==> r[i].0 in values && r[i].1 == Occurrences(values, r[i].0) >= 1)
      && (forall i, j :: 0 <= i < j < |r| ==> r[i].0 != r[j].0)
      && Total(r) == |values|
  {
    RankedTally(CategoryValues(dinosaurs));
  }
}
