/**
 * The locomotion-type tables shared by the filters and cards: the four
 * database values, their icons and translation keys, the case-insensitive
 * icon lookup and the case-sensitive validity test.
 */
module LocomotionTypes {

  import opened Options
  import opened Text

  /** `LOCOMOTION_TYPES`: the values stored in the database. */
  const LocomotionTypeValues: seq<string> := ["quadruped", "biped", "gliding", "swimming"]

  const DefaultIcon := "🦕"

  /** `LOCOMOTION_ICONS`. */
  const LocomotionIcons: map<string, string> := map[
    "quadruped" := "🦏",
    "biped" := "🚶",
    "gliding" := "🦅",
    "swimming" := "🏊"]

  /** `LOCOMOTION_TRANSLATION_KEYS`. */
  const LocomotionTranslationKeys: map<string, string> := map[
    "quadruped" := "dinosaur.quadruped",
    "biped" := "dinosaur.biped",
    "gliding" := "dinosaur.gliding",
    "swimming" := "dinosaur.swimming"]

  /** `getLocomotionIcon`: the icon of the lower-cased type, the dinosaur when missing or unknown. */
  function GetLocomotionIcon(t: Option<string>): (icon: string)
    ensures !Truthy(t) ==> icon == DefaultIcon
    ensures Truthy(t) && ToLower(t.value) in LocomotionIcons ==> icon == LocomotionIcons[ToLower(t.value)]
    ensures Truthy(t) && ToLower(t.value) !in LocomotionIcons ==> icon == DefaultIcon
  {
    if !Truthy(t) then DefaultIcon
    else
      var normalized := ToLower(t.value);
      if normalized in LocomotionIcons then LocomotionIcons[normalized] else DefaultIcon
  }

  /**
   * `isValidLocomotionType`: exact, case-sensitive membership; the valid
   * types are the keys of the icon table, all in lower case.
   */
  function IsValidLocomotionType(t: string): (valid: bool)
    ensures valid <==> t in LocomotionIcons
    ensures valid ==> ToLower(t) == t
  {
    t in LocomotionTypeValues
  }

  /** The icon lookup ignores letter case. */
  lemma IconIgnoresCase(s: string)
    ensures GetLocomotionIcon(Some(s)) == GetLocomotionIcon(Some(ToLower(s)))
  {
    ToLowerIdempotent(s);
  }

  /**
   * The tables agree: a type has an icon exactly when it is valid, every
   * valid type has the key `dinosaur.<type>`, and its own icon is not the
   * fallback.
   */
  lemma TablesCoverValidTypes(t: string)
    ensures IsValidLocomotionType(t) <==> t in LocomotionIcons
    ensures IsValidLocomotionType(t) <==> t in LocomotionTranslationKeys
    ensures IsValidLocomotionType(t) ==> LocomotionTranslationKeys[t] == "dinosaur." + t
    ensures IsValidLocomotionType(t) ==> GetLocomotionIcon(Some(t)) == LocomotionIcons[t] != DefaultIcon
  {
    if IsValidLocomotionType(t) {
      assert ToLower(t) == t;
      assert t == "quadruped" || t == "biped" || t == "gliding" || t == "swimming";
    }
  }

  /** Validity is case-sensitive, the icon lookup is not. */
  lemma UpperCaseIsInvalidButHasIcon()
    ensures !IsValidLocomotionType("BIPED")
    ensures GetLocomotionIcon(Some("BIPED")) == "🚶"
  {
    assert ToLower("BIPED") == "biped";
  }
}

/**
 * The first-match badge classifiers of a dinosaur card: diet emoji and
 * colour, period colour and name, and the locomotion icon, each chosen by
 * the first keyword the lower-cased value contains.
 */
module PostBadges {

  import opened Options
  import opened Text

  /** No rule's keyword occurs in `text`. */
  predicate NoRule<T>(text: string, rules: seq<(string, T)>) {
    forall k :: 0 <= k < |rules| ==> !Contains(text, rules[k].0)
  }

  /** Rule `k` is the first whose keyword occurs in `text`. */
  predicate FirstRule<T>(text: string, rules: seq<(string, T)>, k: int) {
    0 <= k < |rules| && Contains(text, rules[k].0) && forall j :: 0 <= j < k ==> !Contains(text, rules[j].0)
  }

  /** The value of the first rule whose keyword `text` contains, else `fallback`. */
  function FirstMatch<T>(text: string, rules: seq<(string, T)>, fallback: T): (r: T)
    ensures NoRule(text, rules) ==> r == fallback
    ensures forall k :: FirstRule(text, rules, k) ==> r == rules[k].1
  {
    if rules == [] then fallback
    else if Contains(text, rules[0].0) then rules[0].1
    else FirstMatch(text, rules[1..], fallback)
  }

  datatype DietInfo = DietInfo(emoji: string, color: string)

  const UnknownDiet := DietInfo("🦴", "bg-gray-50 text-gray-700 border-gray-200")

  const DietRules: seq<(string, DietInfo)> := [
    ("carnivore", DietInfo("🥩", "bg-red-50 text-red-700 border-red-200")),
    ("herbivore", DietInfo("🌿", "bg-green-50 text-green-700 border-green-200")),
    ("omnivore", DietInfo("🍽️", "bg-yellow-50 text-yellow-700 border-yellow-200")),
    ("piscivore", DietInfo("🐟", "bg-blue-50 text-blue-700 border-blue-200"))]

  /**
   * `getDietInfo`: the badge of the first of carnivore, herbivore, omnivore,
   * piscivore that the lower-cased diet contains; the bone for a missing
   * diet or one containing none of them.
   */
  function GetDietInfo(diet: Option<string>): (info: DietInfo)
    ensures !Truthy(diet) ==> info == UnknownDiet
    ensures Truthy(diet) && NoRule(ToLower(diet.value), DietRules) ==> info == UnknownDiet
    ensures forall k :: Truthy(diet) && FirstRule(ToLower(diet.value), DietRules, k) ==> info == DietRules[k].1
  {
    if !Truthy(diet) then UnknownDiet else FirstMatch(ToLower(diet.value), DietRules, UnknownDiet)
  }

  /** The bone appears exactly for a missing diet or one naming none of the four diets. */
  lemma DietBoneIff(diet: Option<string>)
    ensures GetDietInfo(diet) == UnknownDiet <==>
      (!Truthy(diet) || forall k :: 0 <= k < |DietRules| ==> !Contains(ToLower(diet.value), DietRules[k].0))
  {
    if Truthy(diet) {
      var lower := ToLower(diet.value);
      if exists k :: 0 <= k < |DietRules| && Contains(lower, DietRules[k].0) {
        var k :| 0 <= k < |DietRules| && Contains(lower, DietRules[k].0);
        forall m | 0 <= m < |DietRules| ensures DietRules[m].1 != UnknownDiet {
          assert DietRules[m].1.emoji[0] != UnknownDiet.emoji[0];
        }
        MatchAvoidsFallback(lower, DietRules, UnknownDiet, k);
      }
    }
  }

  /** When some rule matches and no rule carries the fallback value, the fallback is not chosen. */
  lemma {:induction false} MatchAvoidsFallback<T>(text: string, rules: seq<(string, T)>, fallback: T, k: nat)
    requires k < |rules| && Contains(text, rules[k].0)
    requires forall m :: 0 <= m < |rules| ==> rules[m].1 != fallback
    ensures FirstMatch(text, rules, fallback) != fallback
  {
    if !Contains(text, rules[0].0) {
      MatchAvoidsFallback(text, rules[1..], fallback, k - 1);
    }
  }

  /** The diet badge ignores letter case. */
  lemma DietIgnoresCase(diet: string)
    ensures GetDietInfo(Some(diet)) == GetDietInfo(Some(ToLower(diet)))
  {
    ToLowerIdempotent(diet);
  }

  datatype PeriodInfo = PeriodInfo(color: string, name: string)

  /** The period rules; names come from the translation function `t`. */
  function PeriodRules(t: string -> string): seq<(string, PeriodInfo)> {
    [("triassic", PeriodInfo("bg-red-500", t("dinosaur.triassic"))),
     ("jurassic", PeriodInfo("bg-green-500", t("dinosaur.jurassic"))),
     ("cretaceous", PeriodInfo("bg-blue-500", t("dinosaur.cretaceous"))),
     ("early", PeriodInfo("bg-orange-500", "Early Period")),
     ("late", PeriodInfo("bg-purple-500", "Late Period"))]
  }

  /** `getPeriodInfo`: a missing period reads as `''`; the fallback shows the raw period or "unknown". */
  function GetPeriodInfo(period: Option<string>, t: string -> string): (info: PeriodInfo)
    ensures var lower := if Truthy(period) then ToLower(period.value) else "";
      && (forall k :: FirstRule(lower, PeriodRules(t), k) ==> info == PeriodRules(t)[k].1)
      && (NoRule(lower, PeriodRules(t)) ==> info == PeriodInfo("bg-gray-500", OrDefault(period, t("dinosaur.unknown"))))
  {
    var lowerPeriod := if Truthy(period) then ToLower(period.value) else "";
    FirstMatch(lowerPeriod, PeriodRules(t), PeriodInfo("bg-gray-500", OrDefault(period, t("dinosaur.unknown"))))
  }

  /** A period naming none of the keywords is gray and keeps its raw text; a missing one reads "unknown". */
  lemma PeriodFallback(period: Option<string>, t: string -> string)
    requires var lower := if Truthy(period) then ToLower(period.value) else "";
      forall k :: 0 <= k < 5 ==> !Contains(lower, PeriodRules(t)[k].0)
    ensures GetPeriodInfo(period, t).color == "bg-gray-500"
    ensures Truthy(period) ==> GetPeriodInfo(period, t).name == period.value
    ensures !Truthy(period) ==> GetPeriodInfo(period, t).name == t("dinosaur.unknown")
  {
  }

  /** A missing period is always the gray "unknown" badge. */
  lemma MissingPeriodIsUnknown(t: string -> string)
    ensures GetPeriodInfo(None, t) == PeriodInfo("bg-gray-500", t("dinosaur.unknown"))
  {
    var rules := PeriodRules(t);
    forall k | 0 <= k < |rules| ensures !Contains("", rules[k].0) {
      assert |rules[k].0| > 0;
    }
  }

  const TypeRules: seq<(string, string)> := [
    ("terrestrial", "🏃"),
    ("aquatic", "🏊"),
    ("semi-aquatic", "🏊"),
    ("flying", "🦅"),
    ("bipedal", "🚶"),
    ("quadrupedal", "🦏")]

  /**
   * `getTypeIcon`: the icon of the first of terrestrial, aquatic,
   * semi-aquatic, flying, bipedal, quadrupedal that the lower-cased type
   * contains; the dinosaur for a missing type or one containing none.
   */
  function GetTypeIcon(t: Option<string>): (icon: string)
    ensures !Truthy(t) ==> icon == "🦕"
    ensures Truthy(t) && NoRule(ToLower(t.value), TypeRules) ==> icon == "🦕"
    ensures forall k :: Truthy(t) && FirstRule(ToLower(t.value), TypeRules, k) ==> icon == TypeRules[k].1
  {
    if !Truthy(t) then "🦕" else FirstMatch(ToLower(t.value), TypeRules, "🦕")
  }

  /** Every text containing "semi-aquatic" contains "aquatic", so the second keyword never decides. */
  lemma SemiAquaticContainsAquatic(s: string)
    requires Contains(s, "semi-aquatic")
    ensures Contains(s, "aquatic")
  {
    ContainsIff(s, "semi-aquatic");
    var i :| OccursAt(s, "semi-aquatic", i);
    assert s[i + 5..i + 12] == s[i..i + 12][5..] == "aquatic";
    assert OccursAt(s, "aquatic", i + 5);
    ContainsIff(s, "aquatic");
  }

  /** A semi-aquatic type that is not terrestrial gets the swimmer. */
  lemma SemiAquaticSwims(t: string)
    requires Contains(ToLower(t), "semi-aquatic") && !Contains(ToLower(t), "terrestrial")
    ensures GetTypeIcon(Some(t)) == "🏊"
  {
    SemiAquaticContainsAquatic(ToLower(t));
    assert t != "";
    var lower := ToLower(t);
    assert Contains(lower, TypeRules[1].0) && !Contains(lower, TypeRules[0].0);
  }
}
