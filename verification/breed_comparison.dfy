/**
 * The side-by-side comparison view: which traits are compared, which breed
 * wins a trait (the `reduce` of `getBestInTrait`), where the crown is drawn,
 * the trait colour, and the guard in front of the save dialog.
 */
module BreedComparison {
  import opened Wrappers
  import opened Seqs
  import opened Schema
  import opened Palette
  import Store

  /** The compared traits in display order; `healthIssues` is not among them. */
  const ComparedTraits: seq<Trait> :=
    [EnergyLevel, Friendliness, Trainability, GroomingNeeds, ExerciseNeeds, SheddingLevel, BarkingLevel]

  lemma ComparedTraitsAreSeven()
    ensures |ComparedTraits| == 7 && NoDuplicates(ComparedTraits)
    ensures HealthIssues !in ComparedTraits
    ensures forall t: Trait :: t != HealthIssues ==> t in ComparedTraits
  {
  }

  /** The value of trait `t` of the `i`-th breed. */
  function V(bs: seq<Breed>, t: Trait, i: nat): Option<int>
    requires i < |bs|
  {
    TraitValue(bs[i], t)
  }

  /**
   * Reference definition of the winner: the earliest breed holding the
   * largest truthy value, or the first breed when no value is truthy.
   */
  ghost predicate IsWinner(bs: seq<Breed>, t: Trait, k: nat, n: nat)
    requires n <= |bs|
  {
    && k < n
    && ((exists j :: 0 <= j < n && Truthy(V(bs, t, j))) ==>
          && Truthy(V(bs, t, k))
          && (forall j :: 0 <= j < n && Truthy(V(bs, t, j)) ==> V(bs, t, j).value <= V(bs, t, k).value)
          && (forall j :: 0 <= j < k && Truthy(V(bs, t, j)) ==> V(bs, t, j).value < V(bs, t, k).value))
    && ((forall j :: 0 <= j < n ==> !Truthy(V(bs, t, j))) ==> k == 0)
  }

  /** One step of the reduce: keep `best` or take `cur`, exactly as the callback decides. */
  function Step(bs: seq<Breed>, t: Trait, best: nat, cur: nat): (k: nat)
    requires best < |bs| && cur < |bs|
    ensures k == best || k == cur
  {
    if !Truthy(V(bs, t, cur)) then best
    else if !Truthy(V(bs, t, best)) then cur
    else if V(bs, t, cur).value > V(bs, t, best).value then cur
    else best
  }

  /** The reduce from position `i` on, with the accumulator at index `best`. */
  function ReduceFrom(bs: seq<Breed>, t: Trait, best: nat, i: nat): (k: nat)
    requires best < i <= |bs| && IsWinner(bs, t, best, i)
    ensures IsWinner(bs, t, k, |bs|)
    decreases |bs| - i
  {
    if i == |bs| then best
    else
      var next := Step(bs, t, best, i);
      assert IsWinner(bs, t, next, i + 1);
      ReduceFrom(bs, t, next, i + 1)
  }

  /** The index the reduce returns on a non-empty list. */
  function BestIndex(bs: seq<Breed>, t: Trait): (k: nat)
    requires |bs| > 0
    ensures IsWinner(bs, t, k, |bs|)
  {
    ReduceFrom(bs, t, 0, 1)
  }

  /** `getBestInTrait`: null for an empty list, otherwise the winner. */
  function GetBestInTrait(bs: seq<Breed>, t: Trait): (r: Option<Breed>)
    ensures r.None? <==> |bs| == 0
    ensures r.Some? ==> r.value in bs
    ensures r.Some? && (exists j :: 0 <= j < |bs| && Truthy(V(bs, t, j))) ==>
              && Truthy(TraitValue(r.value, t))
              && (forall j :: 0 <= j < |bs| && Truthy(V(bs, t, j)) ==> V(bs, t, j).value <= TraitValue(r.value, t).value)
    ensures r.Some? && (forall j :: 0 <= j < |bs| ==> !Truthy(V(bs, t, j))) ==> r.value == bs[0]
  {
    if |bs| == 0 then None else Some(bs[BestIndex(bs, t)])
  }

  /** Two winners of the same list are the same index: ties go to the earliest breed. */
  lemma WinnerIsUnique(bs: seq<Breed>, t: Trait, k1: nat, k2: nat)
    requires |bs| > 0 && IsWinner(bs, t, k1, |bs|) && IsWinner(bs, t, k2, |bs|)
    ensures k1 == k2
  {
  }

  /** The crown condition of the `i`-th column: it is the winner by id and its value is truthy. */
  function HasCrown(bs: seq<Breed>, t: Trait, i: nat): (r: bool)
    requires i < |bs|
    ensures r ==> Truthy(V(bs, t, i))
    ensures r && UniqueIds(bs) ==>
              forall j :: 0 <= j < |bs| && Truthy(V(bs, t, j)) ==> V(bs, t, j).value <= V(bs, t, i).value
  {
    var best := GetBestInTrait(bs, t);
    if best.Some? && best.value.id == bs[i].id && Truthy(V(bs, t, i)) then
      SameIdSameBreed(bs, best.value, i);
      true
    else
      false
  }

  /** With distinct ids, a member of the list that shares the `i`-th id is the `i`-th breed. */
  lemma SameIdSameBreed(bs: seq<Breed>, b: Breed, i: nat)
    requires i < |bs| && b in bs && b.id == bs[i].id
    ensures UniqueIds(bs) ==> b == bs[i]
  {
    if UniqueIds(bs) {
      var m :| 0 <= m < |bs| && bs[m] == b;
      assert m == i;
    }
  }

  /** With distinct ids the crown is drawn on the winner's column only, and only when its value is truthy. */
  lemma CrownOnlyOnWinner(bs: seq<Breed>, t: Trait, i: nat)
    requires UniqueIds(bs) && i < |bs|
    ensures HasCrown(bs, t, i) <==> i == BestIndex(bs, t) && Truthy(V(bs, t, i))
  {
  }

  /** An all-null (or all-zero) trait shows no crown at all. */
  lemma NoCrownWhenAllFalsy(bs: seq<Breed>, t: Trait)
    requires forall j :: 0 <= j < |bs| ==> !Truthy(V(bs, t, j))
    ensures forall i :: 0 <= i < |bs| ==> !HasCrown(bs, t, i)
  {
  }

  /** With distinct ids a trait shows exactly one crown when some value is truthy. */
  lemma OneCrownWhenSomeTruthy(bs: seq<Breed>, t: Trait, j: nat)
    requires UniqueIds(bs) && j < |bs| && Truthy(V(bs, t, j))
    ensures HasCrown(bs, t, BestIndex(bs, t))
    ensures forall i :: 0 <= i < |bs| && HasCrown(bs, t, i) ==> i == BestIndex(bs, t)
  {
    forall i | 0 <= i < |bs| && HasCrown(bs, t, i)
      ensures i == BestIndex(bs, t)
    {
      CrownOnlyOnWinner(bs, t, i);
    }
  }

  /**
   * Energy levels [5, 5, 3]: the tie at the top goes to the first breed,
   * which alone wears the crown; the code does not withhold the crown on a tie.
   */
  lemma TieCrownsFirst(bs: seq<Breed>)
    requires |bs| == 3 && UniqueIds(bs)
    requires bs[0].energyLevel == Some(5) && bs[1].energyLevel == Some(5) && bs[2].energyLevel == Some(3)
    ensures HasCrown(bs, EnergyLevel, 0) && !HasCrown(bs, EnergyLevel, 1) && !HasCrown(bs, EnergyLevel, 2)
  {
    assert Truthy(V(bs, EnergyLevel, 0));
  }

  /** `getTraitColor`: null and 0 are grey, up to 2 mint, up to 4 mustard, above that lavender. */
  function TraitColor(v: Option<int>): (c: Color)
    ensures c == SoftGray <==> !Truthy(v)
    ensures c == Mint <==> Truthy(v) && v.value <= 2
    ensures c == Mustard <==> Truthy(v) && 2 < v.value <= 4
    ensures c == Lavender <==> Truthy(v) && v.value > 4
  {
    if !Truthy(v) then SoftGray
    else if v.value <= 2 then Mint
    else if v.value <= 4 then Mustard
    else Lavender
  }

  /** What pressing "save" does. */
  datatype SaveOutcome = SignInRequired | TooFewBreeds | OpenSaveDialog

  /** `handleSaveComparison`: sign-in first, then at least two breeds. */
  function HandleSaveComparison(isAuthenticated: bool, compared: nat): (r: SaveOutcome)
    ensures r == OpenSaveDialog <==> isAuthenticated && compared >= 2
    ensures r == SignInRequired <==> !isAuthenticated
  {
    if !isAuthenticated then SignInRequired
    else if compared < 2 then TooFewBreeds
    else OpenSaveDialog
  }

  /**
   * The toast side of `handleSaveComparison`: a refusal shows its message,
   * an "info" for signing in and an "error" for too few breeds; opening the
   * dialog leaves the store as it was.
   */
  function SaveToast(s: Store.StoreState, isAuthenticated: bool): (r: Store.StoreState)
    ensures r == s.(toast := r.toast)
    ensures HandleSaveComparison(isAuthenticated, |s.comparedBreeds|) == OpenSaveDialog ==> r == s
    ensures HandleSaveComparison(isAuthenticated, |s.comparedBreeds|) == SignInRequired ==>
              r.toast == Store.Toast(true, "Please sign in to save comparisons", Store.Info)
    ensures HandleSaveComparison(isAuthenticated, |s.comparedBreeds|) == TooFewBreeds ==>
              r.toast == Store.Toast(true, "Add at least 2 breeds to save a comparison", Store.Error)
    ensures Store.Valid(s) ==> Store.Valid(r)
  {
    match HandleSaveComparison(isAuthenticated, |s.comparedBreeds|)
    case SignInRequired => Store.ShowToast(s, "Please sign in to save comparisons", Store.Info)
    case TooFewBreeds => Store.ShowToast(s, "Add at least 2 breeds to save a comparison", Store.Error)
    case OpenSaveDialog => s
  }

  /**
   * Starting with no toast on screen, a toast appears exactly when saving is
   * refused, and it is an error exactly when a signed-in user compares fewer
   * than two breeds.
   */
  lemma SaveToastShownIffRefused(s: Store.StoreState, isAuthenticated: bool)
    requires !s.toast.show
    ensures var r := SaveToast(s, isAuthenticated);
            && (r.toast.show <==> !isAuthenticated || |s.comparedBreeds| < 2)
            && (r.toast.show && r.toast.kind == Store.Error <==> isAuthenticated && |s.comparedBreeds| < 2)
  {
  }
}
