/**
 * The breed card: the compare-button state, the comparison toggle, the
 * weight and height captions, and the card's own copy of the trait colour.
 */
module BreedCard {
  import opened Wrappers
  import opened Text
  import opened Schema
  import opened Palette
  import opened RangeParser
  import opened Store
  import BreedComparison
  import RangeParserLemmas

  /** `isInComparison`: some compared breed has this breed's id. */
  function IsInComparison(compared: seq<Breed>, breed: Breed): (r: bool)
    ensures r <==> exists b :: b in compared && b.id == breed.id
  {
    HasId(compared, breed.id)
  }

  /** `canAddToComparison`: fewer than four breeds are compared. */
  function CanAddToComparison(compared: seq<Breed>): (r: bool)
    ensures r <==> |compared| < 4
  {
    |compared| < MaxCompared
  }

  /** The `disabled` attribute of the compare button: only a full list can disable it, and only for a breed not in it. */
  function CompareDisabled(compared: seq<Breed>, breed: Breed): (r: bool)
    ensures r ==> |compared| >= 4 && forall b :: b in compared ==> b.id != breed.id
    ensures !r ==> IsInComparison(compared, breed) || |compared| < 4
  {
    !IsInComparison(compared, breed) && !CanAddToComparison(compared)
  }

  /**
   * `handleComparisonToggle`: remove a compared breed, add a new one while
   * there is room, otherwise change nothing and report the limit.
   */
  function HandleComparisonToggle(s: StoreState, breed: Breed): (r: StoreState)
    ensures IsInComparison(s.comparedBreeds, breed) ==>
              !IsInComparison(r.comparedBreeds, breed)
              && r.comparedBreeds == RemoveBreedFromComparison(s, breed.id).comparedBreeds
              && (forall b :: b in r.comparedBreeds <==> b in s.comparedBreeds && b.id != breed.id)
              && r.toast == Toast(true, breed.name + " removed from comparison", Info)
    ensures !IsInComparison(s.comparedBreeds, breed) && CanAddToComparison(s.comparedBreeds) ==>
              IsInComparison(r.comparedBreeds, breed)
              && r.comparedBreeds == s.comparedBreeds + [breed]
              && r.toast == Toast(true, breed.name + " added to comparison", Success)
    ensures CompareDisabled(s.comparedBreeds, breed) ==>
              r.comparedBreeds == s.comparedBreeds
              && r.toast == Toast(true, "Maximum 4 breeds can be compared at once", Error)
    ensures r.toast.kind == Error <==> CompareDisabled(s.comparedBreeds, breed)
    ensures r == s.(comparedBreeds := r.comparedBreeds, toast := r.toast)
    ensures Valid(s) ==> Valid(r)
  {
    if IsInComparison(s.comparedBreeds, breed) then
      ShowToast(RemoveBreedFromComparison(s, breed.id), breed.name + " removed from comparison", Info)
    else if CanAddToComparison(s.comparedBreeds) then
      ShowToast(AddBreedToComparison(s, breed), breed.name + " added to comparison", Success)
    else
      ShowToast(s, "Maximum 4 breeds can be compared at once", Error)
  }

  /**
   * The compare button is in exactly one of three states (remove, add,
   * disabled), and it is disabled exactly when pressing it would leave the
   * comparison list as it is.
   */
  lemma CompareButtonCases(s: StoreState, breed: Breed)
    ensures IsInComparison(s.comparedBreeds, breed)
            || (CanAddToComparison(s.comparedBreeds) && !IsInComparison(s.comparedBreeds, breed))
            || CompareDisabled(s.comparedBreeds, breed)
    ensures CompareDisabled(s.comparedBreeds, breed) ==> !IsInComparison(s.comparedBreeds, breed) && !CanAddToComparison(s.comparedBreeds)
    ensures CompareDisabled(s.comparedBreeds, breed)
            <==> HandleComparisonToggle(s, breed).comparedBreeds == s.comparedBreeds
  {
  }

  /** Toggling a breed that was not compared, with room left, twice restores the comparison list. */
  lemma ToggleTwiceRestoresComparison(s: StoreState, breed: Breed)
    requires !IsInComparison(s.comparedBreeds, breed) && CanAddToComparison(s.comparedBreeds)
    ensures HandleComparisonToggle(HandleComparisonToggle(s, breed), breed).comparedBreeds == s.comparedBreeds
  {
    RemoveUndoesAdd(s, breed);
  }

  /** A caption `min-max unit` when both bounds are truthy, otherwise the fallback text. */
  function RangeText(lo: Option<int>, hi: Option<int>, unit: string, fallback: string): (r: string)
    requires |fallback| > 0 && !IsDigit(fallback[0]) && fallback[0] != '-'
    ensures r == fallback <==> !(Truthy(lo) && Truthy(hi))
  {
    if Truthy(lo) && Truthy(hi) then
      var r := IntToString(lo.value) + "-" + IntToString(hi.value) + unit;
      assert r[0] == IntToString(lo.value)[0];
      r
    else fallback
  }

  /** `getWeightRange`. */
  function WeightText(b: Breed): (r: string)
    ensures r == "Weight varies" <==> !(Truthy(b.weightMin) && Truthy(b.weightMax))
  {
    RangeText(b.weightMin, b.weightMax, " lbs", "Weight varies")
  }

  /** `getHeightRange`. */
  function HeightText(b: Breed): (r: string)
    ensures r == "Height varies" <==> !(Truthy(b.heightMin) && Truthy(b.heightMax))
  {
    RangeText(b.heightMin, b.heightMax, " in", "Height varies")
  }

  /** With positive bounds the caption parses back, under the ingestion's range parser, to the bounds. */
  lemma RangeTextRoundTrip(lo: nat, hi: nat, unit: string, fallback: string)
    requires lo > 0 && hi > 0 && (|unit| == 0 || !IsDigit(unit[0]))
    requires |fallback| > 0 && !IsDigit(fallback[0]) && fallback[0] != '-'
    ensures ParseRange(Some(RangeText(Some(lo), Some(hi), unit, fallback))) == Some(Range(lo, hi))
  {
    var a, b := NatToString(lo), NatToString(hi);
    assert RangeText(Some(lo), Some(hi), unit, fallback) == "" + a + "" + "-" + "" + b + unit;
    assert !HasDigit("");
    RangeParserLemmas.ParsesPrintedPair("", lo, "", "", hi, unit);
  }

  lemma WeightTextRoundTrip(b: Breed)
    requires b.weightMin.Some? && b.weightMax.Some? && b.weightMin.value > 0 && b.weightMax.value > 0
    ensures ParseRange(Some(WeightText(b))) == Some(Range(b.weightMin.value, b.weightMax.value))
  {
    RangeTextRoundTrip(b.weightMin.value, b.weightMax.value, " lbs", "Weight varies");
  }

  lemma HeightTextRoundTrip(b: Breed)
    requires b.heightMin.Some? && b.heightMax.Some? && b.heightMin.value > 0 && b.heightMax.value > 0
    ensures ParseRange(Some(HeightText(b))) == Some(Range(b.heightMin.value, b.heightMax.value))
  {
    RangeTextRoundTrip(b.heightMin.value, b.heightMax.value, " in", "Height varies");
  }

  /** The card's own `getTraitColor`. */
  function TraitColor(v: Option<int>): (c: Color)
    ensures c == SoftGray <==> !Truthy(v)
    ensures c == Lavender <==> Truthy(v) && v.value > 4
  {
    if !Truthy(v) then SoftGray
    else if v.value <= 2 then Mint
    else if v.value <= 4 then Mustard
    else Lavender
  }

  /** The card and the comparison view colour every value alike. */
  lemma TraitColorAgreesWithComparison(v: Option<int>)
    ensures TraitColor(v) == BreedComparison.TraitColor(v)
  {
  }
}
