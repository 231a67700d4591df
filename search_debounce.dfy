/**
 * The filter-change detector shared by the two dinosaur search boxes: when
 * the 300 ms quiet period after an edit ends, the values are compared with
 * the last applied snapshot; nothing happens when they are unchanged, an
 * all-blank selection only reports "not searching", and anything else is
 * sent as a search. The snapshot then records the values.
 */
module SearchFilters {

  import opened Text

  /** The three filter inputs of a search box. */
  datatype Snapshot = Snapshot(searchQuery: string, diet: string, locomotionType: string)

  /** A callback invocation: `onSearchStateChange(b)` or `onSearch(query, {diet, locomotionType})`. */
  datatype Call = StateChanged(isSearching: bool) | Searched(query: string, diet: string, locomotionType: string)

  const Blanks := Snapshot("", "", "")

  /** `!searchQuery.trim() && !diet && !locomotionType`. */
  predicate NoFilters(s: Snapshot) {
    IsBlank(s.searchQuery) && s.diet == "" && s.locomotionType == ""
  }

  /** What `applyFilters` does: the callbacks it makes and the snapshot it leaves. */
  datatype Decision = Decision(calls: seq<Call>, prev: Snapshot)

  /**
   * `applyFilters` against the snapshot `prev` for the values `current`;
   * `sent` is the locomotion value handed to `onSearch`.
   */
  function ApplyFilters(prev: Snapshot, current: Snapshot, sent: string): (d: Decision)
    ensures d.prev == current
    ensures |d.calls| <= 1
    ensures d.calls == [] <==> current == prev
    ensures current != prev && NoFilters(current) ==> d.calls == [StateChanged(false)]
    ensures current != prev && !NoFilters(current) ==>
      d.calls == [Searched(current.searchQuery, current.diet, sent)]
  {
    if current == prev then Decision([], prev)
    else if NoFilters(current) then Decision([StateChanged(false)], current)
    else Decision([Searched(current.searchQuery, current.diet, sent)], current)
  }

  /** Applying the same values a second time makes no callback. */
  lemma ApplyTwiceIsQuiet(prev: Snapshot, current: Snapshot, sent: string, sentAgain: string)
    ensures ApplyFilters(ApplyFilters(prev, current, sent).prev, current, sentAgain).calls == []
  {
  }

  /** Only `searchQuery` is trimmed: a space-only query with no other filter counts as blank. */
  lemma SpacesAreNoFilter(spaces: string)
    requires forall i :: 0 <= i < |spaces| ==> spaces[i] == ' '
    requires spaces != ""
    ensures ApplyFilters(Blanks, Snapshot(spaces, "", ""), "").calls == [StateChanged(false)]
    ensures ApplyFilters(Blanks, Snapshot("", spaces, ""), "").calls == [Searched("", spaces, "")]
  {
  }
}

/** `DinosaurSearchUnified`: the detector sends the locomotion value unchanged. */
module UnifiedSearch {

  import opened Options
  import opened SearchFilters

  class SearchBox {
    var searchQuery: string
    var diet: string
    var locomotionType: string
    /** `prevValuesRef.current`. */
    var prev: Snapshot
    /** `isInitialMount.current`. */
    var initialMount: bool
    /** The scheduled `applyFilters`, with the values of the render that scheduled it. */
    var timer: Option<Snapshot>
    /** The callbacks made so far, in order. */
    var calls: seq<Call>

    function Values(): Snapshot
      reads this
    {
      Snapshot(searchQuery, diet, locomotionType)
    }

    /** A scheduled apply always carries the latest values; none is scheduled before mount. */
    ghost predicate Valid()
      reads this
    {
      && (timer.Some? ==> timer.value == Values())
      && (initialMount ==> timer.None?)
    }

    /** Initial state from `initialValues`, each missing value becoming `''`. */
    constructor(search: Option<string>, diet: Option<string>, locomotionType: Option<string>)
      ensures Valid()
      ensures Values() == Snapshot(OrDefault(search, ""), OrDefault(diet, ""), OrDefault(locomotionType, ""))
      ensures prev == Values() && initialMount && timer.None? && calls == []
    {
      searchQuery := OrDefault(search, "");
      this.diet := OrDefault(diet, "");
      this.locomotionType := OrDefault(locomotionType, "");
      prev := Snapshot(OrDefault(search, ""), OrDefault(diet, ""), OrDefault(locomotionType, ""));
      initialMount := true;
      timer := None;
      calls := [];
    }

    /** One run of the debounce effect: skipped on mount, otherwise a fresh timer replaces the old one. */
    method RunEffect()
      modifies this
      ensures old(initialMount) ==> !initialMount && timer == old(timer)
      ensures !old(initialMount) ==> !initialMount && timer == Some(Values())
      ensures Values() == old(Values()) && prev == old(prev) && calls == old(calls)
    {
      if initialMount {
        initialMount := false;
        return;
      }
      timer := Some(Values());
    }

    /** The first render's effect. */
    method Mount()
      requires Valid()
      modifies this
      ensures Valid()
      ensures !initialMount
      ensures old(initialMount) ==> timer == old(timer) && calls == old(calls)
    {
      RunEffect();
    }

    /** The user changes the inputs; the effect re-runs only when a value differs. */
    method Edit(values: Snapshot)
      requires Valid()
      modifies this
      ensures Valid()
      ensures Values() == values && prev == old(prev) && calls == old(calls)
      ensures values == old(Values()) ==> timer == old(timer) && initialMount == old(initialMount)
      ensures values != old(Values()) && !old(initialMount) ==> timer == Some(values)
    {
      var changed := values != Values();
      searchQuery, diet, locomotionType := values.searchQuery, values.diet, values.locomotionType;
      if changed {
        RunEffect();
      }
    }

    /** The 300 ms quiet period ends: the scheduled `applyFilters` runs on the latest values. */
    method Elapse()
      requires Valid()
      modifies this
      ensures Valid() && timer.None?
      ensures Values() == old(Values()) && initialMount == old(initialMount)
      ensures old(timer).None? ==> calls == old(calls) && prev == old(prev)
      ensures old(timer).Some? ==>
        var d := ApplyFilters(old(prev), Values(), locomotionType);
        calls == old(calls) + d.calls && prev == d.prev == Values()
    {
      match timer {
        case None =>
        case Some(scheduled) =>
          var d := ApplyFilters(prev, scheduled, scheduled.locomotionType);
          calls := calls + d.calls;
          prev := d.prev;
          timer := None;
      }
    }

    /** `handleClear`: blank inputs, "not searching", an empty search, blank snapshot. */
    method Clear()
      requires Valid()
      modifies this
      ensures Valid()
      ensures Values() == Blanks && prev == Blanks
      ensures calls == old(calls) + [StateChanged(false), Searched("", "", "")]
      ensures timer.Some? ==> ApplyFilters(prev, timer.value, timer.value.locomotionType).calls == []
    {
      Edit(Blanks);
      calls := calls + [StateChanged(false), Searched("", "", "")];
      prev := Blanks;
    }
  }
}

/**
 * `DinosaurSearchFixed`: the same detector, but the locomotion value sent
 * is translated to the database spelling; the snapshot keeps the raw value.
 */
module FixedSearch {

  import opened Options
  import opened Text
  import opened SearchFilters

  /** `locomotionTypeMapping`. */
  const LocomotionTypeMapping: map<string, string> := map[
    "bipedal" := "Bipedal",
    "quadrupedal" := "Quadrupedal",
    "swimming" := "Swimming",
    "flying" := "Flying",
    "semi-aquatic" := "Semi-Aquatic"]

  /** The value sent for a selection: mapped when known, unchanged otherwise, `''` kept. */
  function MapLocomotion(locomotionType: string): (sent: string)
    ensures locomotionType == "" ==> sent == ""
    ensures locomotionType in LocomotionTypeMapping ==> sent == LocomotionTypeMapping[locomotionType]
    ensures locomotionType !in LocomotionTypeMapping ==> sent == locomotionType
  {
    if locomotionType == "" then ""
    else if locomotionType in LocomotionTypeMapping then LocomotionTypeMapping[locomotionType]
    else locomotionType
  }

  /** The mapping changes only letter case. */
  lemma MapLocomotionOnlyRecases(locomotionType: string)
    ensures ToLower(MapLocomotion(locomotionType)) == ToLower(locomotionType)
  {
    if locomotionType in LocomotionTypeMapping {
      var m := LocomotionTypeMapping;
      assert ToLower(m["bipedal"]) == "bipedal";
      assert ToLower(m["quadrupedal"]) == "quadrupedal";
      assert ToLower(m["swimming"]) == "swimming";
      assert ToLower(m["flying"]) == "flying";
      assert ToLower(m["semi-aquatic"]) == "semi-aquatic";
    }
  }

  /**
   * Change detection compares raw selections: switching between two
   * spellings that are sent alike still triggers a search.
   */
  lemma RawSelectionsCompared()
    ensures MapLocomotion("bipedal") == MapLocomotion("Bipedal")
    ensures ApplyFilters(Snapshot("", "", "bipedal"), Snapshot("", "", "Bipedal"), MapLocomotion("Bipedal")).calls
         == [Searched("", "", "Bipedal")]
  {
  }

  class SearchBox {
    var searchQuery: string
    var diet: string
    var locomotionType: string
    /** `prevValuesRef.current`: raw, unmapped values. */
    var prev: Snapshot
    var initialMount: bool
    var timer: Option<Snapshot>
    var calls: seq<Call>

    function Values(): Snapshot
      reads this
    {
      Snapshot(searchQuery, diet, locomotionType)
    }

    ghost predicate Valid()
      reads this
    {
      && (timer.Some? ==> timer.value == Values())
      && (initialMount ==> timer.None?)
    }

    constructor(search: Option<string>, diet: Option<string>, locomotionType: Option<string>)
      ensures Valid()
      ensures Values() == Snapshot(OrDefault(search, ""), OrDefault(diet, ""), OrDefault(locomotionType, ""))
      ensures prev == Values() && initialMount && timer.None? && calls == []
    {
      searchQuery := OrDefault(search, "");
      this.diet := OrDefault(diet, "");
      this.locomotionType := OrDefault(locomotionType, "");
      prev := Snapshot(OrDefault(search, ""), OrDefault(diet, ""), OrDefault(locomotionType, ""));
      initialMount := true;
      timer := None;
      calls := [];
    }

    method RunEffect()
      modifies this
      ensures old(initialMount) ==> !initialMount && timer == old(timer)
      ensures !old(initialMount) ==> !initialMount && timer == Some(Values())
      ensures Values() == old(Values()) && prev == old(prev) && calls == old(calls)
    {
      if initialMount {
        initialMount := false;
        return;
      }
      timer := Some(Values());
    }

    method Mount()
      requires Valid()
      modifies this
      ensures Valid()
      ensures !initialMount
      ensures old(initialMount) ==> timer == old(timer) && calls == old(calls)
    {
      RunEffect();
    }

    method Edit(values: Snapshot)
      requires Valid()
      modifies this
      ensures Valid()
      ensures Values() == values && prev == old(prev) && calls == old(calls)
      ensures values == old(Values()) ==> timer == old(timer) && initialMount == old(initialMount)
      ensures values != old(Values()) && !old(initialMount) ==> timer == Some(values)
    {
      var changed := values != Values();
      searchQuery, diet, locomotionType := values.searchQuery, values.diet, values.locomotionType;
      if changed {
        RunEffect();
      }
    }

    /** The quiet period ends: the search carries the mapped value, the snapshot the raw one. */
    method Elapse()
      requires Valid()
      modifies this
      ensures Valid() && timer.None?
      ensures Values() == old(Values()) && initialMount == old(initialMount)
      ensures old(timer).None? ==> calls == old(calls) && prev == old(prev)
      ensures old(timer).Some? ==>
        var d := ApplyFilters(old(prev), Values(), MapLocomotion(locomotionType));
        calls == old(calls) + d.calls && prev == d.prev == Values()
    {
      match timer {
        case None =>
        case Some(scheduled) =>
          var d := ApplyFilters(prev, scheduled, MapLocomotion(scheduled.locomotionType));
          calls := calls + d.calls;
          prev := d.prev;
          timer := None;
      }
    }

    /** `handleClear`: sends unmapped blanks. */
    method Clear()
      requires Valid()
      modifies this
      ensures Valid()
      ensures Values() == Blanks && prev == Blanks
      ensures calls == old(calls) + [StateChanged(false), Searched("", "", "")]
      ensures timer.Some? ==> ApplyFilters(prev, timer.value, MapLocomotion(timer.value.locomotionType)).calls == []
    {
      Edit(Blanks);
      calls := calls + [StateChanged(false), Searched("", "", "")];
      prev := Blanks;
    }
  }
}
