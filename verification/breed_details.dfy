/**
 * The breed details page: trait colour and label, the daily-exercise and
 * grooming-frequency captions, the temperament badges and the similar-breeds
 * strip.
 */
module BreedDetails {
  import opened Wrappers
  import opened Text
  import opened Seqs
  import opened Schema
  import opened Palette
  import BreedComparison

  /** The page's own `getTraitColor`. */
  function TraitColor(v: Option<int>): (c: Color)
    ensures c == SoftGray <==> !Truthy(v)
  {
    if !Truthy(v) then SoftGray
    else if v.value <= 2 then Mint
    else if v.value <= 4 then Mustard
    else Lavender
  }

  lemma TraitColorAgreesWithComparison(v: Option<int>)
    ensures TraitColor(v) == BreedComparison.TraitColor(v)
  {
  }

  /** `getTraitLabel`: null and 0 are unknown, up to 2 low, up to 4 moderate, above that high. */
  function TraitLabel(v: Option<int>): (r: string)
    ensures r == "Unknown" <==> !Truthy(v)
    ensures r == "Low" <==> Truthy(v) && v.value <= 2
    ensures r == "Moderate" <==> Truthy(v) && 2 < v.value <= 4
    ensures r == "High" <==> Truthy(v) && v.value > 4
  {
    if !Truthy(v) then "Unknown"
    else if v.value <= 2 then "Low"
    else if v.value <= 4 then "Moderate"
    else "High"
  }

  /** Label and colour split the values at the same places: each label has exactly one colour. */
  lemma LabelMatchesColor(v: Option<int>)
    ensures TraitLabel(v) == "Unknown" <==> TraitColor(v) == SoftGray
    ensures TraitLabel(v) == "Low" <==> TraitColor(v) == Mint
    ensures TraitLabel(v) == "Moderate" <==> TraitColor(v) == Mustard
    ensures TraitLabel(v) == "High" <==> TraitColor(v) == Lavender
  {
  }

  /** The captions of the exercise card, from least to most. */
  const ExerciseCaptions: seq<string> := ["15-30 min", "30-60 min", "1-2 hours", "2+ hours"]

  /** The captions of the grooming card, from least to most. */
  const GroomingCaptions: seq<string> := ["Monthly", "Bi-weekly", "Weekly", "Daily"]

  /**
   * The bucket both cards use: the chained `v && v >= 4 ? … : v && v >= 3 ? …`
   * picks 3 from 4 up, 2 at 3, 1 at 2, and 0 for null and anything below 2.
   */
  function Tier(v: Option<int>): (k: nat)
    ensures k <= 3
    ensures k == 3 <==> v.Some? && v.value >= 4
    ensures k == 0 <==> v.None? || v.value < 2
  {
    if Truthy(v) && v.value >= 4 then 3
    else if Truthy(v) && v.value >= 3 then 2
    else if Truthy(v) && v.value >= 2 then 1
    else 0
  }

  /** A larger value never lands in a lower bucket. */
  lemma TierIsMonotone(v: Option<int>, w: Option<int>)
    requires w.Some? && (v.None? || v.value <= w.value)
    ensures Tier(v) <= Tier(w)
  {
  }

  /** Daily exercise caption. */
  function ExerciseText(v: Option<int>): (r: string)
    ensures r == "2+ hours" <==> v.Some? && v.value >= 4
    ensures r == "1-2 hours" <==> v.Some? && v.value == 3
    ensures r == "30-60 min" <==> v.Some? && v.value == 2
    ensures r == "15-30 min" <==> v.None? || v.value < 2
  {
    ExerciseCaptions[Tier(v)]
  }

  /** Grooming frequency caption. */
  function GroomingText(v: Option<int>): (r: string)
    ensures r == "Daily" <==> v.Some? && v.value >= 4
    ensures r == "Weekly" <==> v.Some? && v.value == 3
    ensures r == "Bi-weekly" <==> v.Some? && v.value == 2
    ensures r == "Monthly" <==> v.None? || v.value < 2
  {
    GroomingCaptions[Tier(v)]
  }

  /** A "High" trait always gets the top caption; an "Unknown" one the bottom caption. */
  lemma CaptionsFollowLabel(v: Option<int>)
    ensures TraitLabel(v) == "High" ==> ExerciseText(v) == "2+ hours" && GroomingText(v) == "Daily"
    ensures TraitLabel(v) == "Unknown" ==> ExerciseText(v) == "15-30 min" && GroomingText(v) == "Monthly"
  {
  }

  /** `temperament?.split(',').slice(0, 4).map(t => t.trim())`; a null temperament shows no badge. */
  function TemperamentBadges(t: Option<string>): (r: seq<string>)
    ensures |r| <= 4
    ensures t.None? ==> r == []
    ensures t.Some? ==> |r| == (if Count(t.value, ',') < 4 then Count(t.value, ',') + 1 else 4)
    ensures t.Some? ==> forall i :: 0 <= i < |r| ==> r[i] == Trim(Split(t.value, ',')[i])
    ensures forall i :: 0 <= i < |r| ==> |r[i]| == 0 || (!IsSpace(r[i][0]) && !IsSpace(r[i][|r[i]| - 1]))
  {
    match t
    case None => []
    case Some(text) =>
      var pieces := Take(Split(text, ','), 4);
      seq(|pieces|, i requires 0 <= i < |pieces| => Trim(pieces[i]))
  }

  /**
   * With at most four pieces that carry no surrounding blanks, joining the
   * badges with commas gives back the temperament: nothing is lost or reordered.
   */
  lemma BadgesRecoverTemperament(t: string)
    requires Count(t, ',') < 4
    requires forall i :: 0 <= i < |Split(t, ',')| ==>
               var p := Split(t, ',')[i]; |p| == 0 || (!IsSpace(p[0]) && !IsSpace(p[|p| - 1]))
    ensures Join(TemperamentBadges(Some(t)), ',') == t
  {
    var pieces := Split(t, ',');
    var r := TemperamentBadges(Some(t));
    forall i | 0 <= i < |r|
      ensures r[i] == pieces[i]
    {
      TrimOfTrimmed(pieces[i]);
    }
    assert r == pieces;
    JoinSplit(t, ',');
  }

  /** The breeds of `similar` other than the one on show, in the order received. */
  function OtherBreeds(similar: seq<Breed>, currentId: int): (r: seq<Breed>)
    ensures forall b :: b in r <==> b in similar && b.id != currentId
  {
    Filter(similar, (b: Breed) => b.id != currentId)
  }

  /** The similar-breeds strip: the first four other breeds, in the order received. */
  function SimilarBreeds(similar: seq<Breed>, currentId: int): (r: seq<Breed>)
    ensures r <= OtherBreeds(similar, currentId)
    ensures |r| == if |OtherBreeds(similar, currentId)| < 4 then |OtherBreeds(similar, currentId)| else 4
    ensures forall i :: 0 <= i < |r| ==> r[i].id != currentId
    ensures IsSubsequence(r, similar)
    ensures |r| < 4 ==> forall b :: b in similar && b.id != currentId ==> b in r
  {
    var others := OtherBreeds(similar, currentId);
    FilterIsSubsequence(similar, (b: Breed) => b.id != currentId);
    PrefixOfSubsequence(Take(others, 4), others, similar);
    Take(others, 4)
  }
}
