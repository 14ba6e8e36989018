/**
 * The client state store: one immutable state record and one pure
 * state-to-state function per action. `Valid` is the invariant every action
 * keeps: at most four compared breeds with distinct ids, a duplicate-free
 * cart, and a quiz step within 1..totalSteps.
 */
module Store {
  import opened Wrappers
  import opened Seqs
  import opened Schema

  /** Maximum number of breeds in the comparison list. */
  const MaxCompared: nat := 4

  /** The breed filters. `apartmentFriendly` is absent from the initial filters and only added by a patch. */
  datatype Filters = Filters(
    size: seq<string>,
    energyLevel: int,
    goodWithChildren: bool,
    goodWithOtherDogs: bool,
    goodWithCats: bool,
    groomingNeeds: string,
    experience: string,
    apartmentFriendly: Option<bool>
  )

  /** A `Partial<filters>` argument: `None` marks a key that is not supplied. */
  datatype FilterPatch = FilterPatch(
    size: Option<seq<string>>,
    energyLevel: Option<int>,
    goodWithChildren: Option<bool>,
    goodWithOtherDogs: Option<bool>,
    goodWithCats: Option<bool>,
    groomingNeeds: Option<string>,
    experience: Option<string>,
    apartmentFriendly: Option<bool>
  )

  const InitialFilters := Filters([], 3, false, false, false, "", "", None)

  const EmptyPatch := FilterPatch(None, None, None, None, None, None, None, None)

  datatype ToastKind = Success | Error | Info
  datatype Toast = Toast(show: bool, message: string, kind: ToastKind)

  datatype StoreState = StoreState(
    selectedBreeds: seq<Breed>,
    comparedBreeds: seq<Breed>,
    searchQuery: string,
    filters: Filters,
    isFilterSidebarOpen: bool,
    currentStep: int,
    totalSteps: int,
    responses: map<string, string>,
    results: Option<seq<MatchResult>>,
    isCompleted: bool,
    isLoading: bool,
    currentPage: string,
    cartItems: seq<int>,
    toast: Toast
  )

  const Initial := StoreState(
    [], [], "", InitialFilters, false,
    1, 8, map[], None, false,
    false, "/", [], Toast(false, "", Info))

  /** The invariant the store's actions keep. */
  predicate Valid(s: StoreState)
  {
    && |s.comparedBreeds| <= MaxCompared
    && UniqueIds(s.comparedBreeds)
    && NoDuplicates(s.cartItems)
    && 1 <= s.currentStep <= s.totalSteps
  }

  lemma InitialIsValid()
    ensures Valid(Initial)
    ensures Initial.totalSteps == 8 && Initial.currentStep == 1
  {
  }

  // ---------------------------------------------------------------- comparison

  /**
   * `addBreedToComparison`: a no-op when four breeds are compared or the id
   * is already present, otherwise the breed is appended at the end.
   */
  function AddBreedToComparison(s: StoreState, breed: Breed): (r: StoreState)
    ensures r == s.(comparedBreeds := r.comparedBreeds)
    ensures |s.comparedBreeds| >= MaxCompared || HasId(s.comparedBreeds, breed.id) ==> r == s
    ensures |s.comparedBreeds| < MaxCompared && !HasId(s.comparedBreeds, breed.id) ==>
              |r.comparedBreeds| == |s.comparedBreeds| + 1
              && r.comparedBreeds[..|s.comparedBreeds|] == s.comparedBreeds
              && r.comparedBreeds[|s.comparedBreeds|] == breed
    ensures HasId(r.comparedBreeds, breed.id) <==> HasId(s.comparedBreeds, breed.id) || |s.comparedBreeds| < MaxCompared
    ensures Valid(s) ==> Valid(r)
  {
    if |s.comparedBreeds| >= MaxCompared then s
    else if HasId(s.comparedBreeds, breed.id) then s
    else
      var r := s.(comparedBreeds := s.comparedBreeds + [breed]);
      assert r.comparedBreeds[|s.comparedBreeds|] == breed;
      r
  }

  /** `removeBreedFromComparison`: every entry with the id goes, the rest keep their order. */
  function RemoveBreedFromComparison(s: StoreState, breedId: int): (r: StoreState)
    ensures r == s.(comparedBreeds := r.comparedBreeds)
    ensures !HasId(r.comparedBreeds, breedId)
    ensures forall b :: b in r.comparedBreeds <==> b in s.comparedBreeds && b.id != breedId
    ensures IsSubsequence(r.comparedBreeds, s.comparedBreeds)
    ensures Valid(s) ==> Valid(r)
  {
    var kept := Filter(s.comparedBreeds, (b: Breed) => b.id != breedId);
    FilterIsSubsequence(s.comparedBreeds, (b: Breed) => b.id != breedId);
    if Valid(s) then
      UniqueIdsOfSubsequence(kept, s.comparedBreeds);
      s.(comparedBreeds := kept)
    else
      s.(comparedBreeds := kept)
  }

  /** A subsequence of a list with distinct ids has distinct ids. */
  lemma {:induction false} UniqueIdsOfSubsequence(a: seq<Breed>, b: seq<Breed>)
    requires IsSubsequence(a, b) && UniqueIds(b)
    ensures UniqueIds(a)
    decreases |b|
  {
    if |a| > 0 {
      if a[0] == b[0] {
        UniqueIdsOfSubsequence(a[1..], b[1..]);
        forall j | 0 < j < |a|
          ensures a[0].id != a[j].id
        {
          SubsequenceMember(a[1..], b[1..], j - 1);
          var k :| 0 <= k < |b[1..]| && b[1..][k] == a[1..][j - 1];
          assert b[k + 1] == a[j];
        }
      } else {
        UniqueIdsOfSubsequence(a, b[1..]);
      }
    }
  }

  /** Every element of a subsequence occurs in the whole. */
  lemma {:induction false} SubsequenceMember(a: seq<Breed>, b: seq<Breed>, j: nat)
    requires IsSubsequence(a, b) && j < |a|
    ensures exists k :: 0 <= k < |b| && b[k] == a[j]
    decreases |b|
  {
    if a[0] == b[0] {
      if j > 0 {
        SubsequenceMember(a[1..], b[1..], j - 1);
        var k :| 0 <= k < |b[1..]| && b[1..][k] == a[1..][j - 1];
        assert b[k + 1] == a[j];
      }
    } else {
      SubsequenceMember(a, b[1..], j);
      var k :| 0 <= k < |b[1..]| && b[1..][k] == a[j];
      assert b[k + 1] == a[j];
    }
  }

  /** Adding a new breed with room left and removing its id again restores the state. */
  lemma RemoveUndoesAdd(s: StoreState, breed: Breed)
    requires |s.comparedBreeds| < MaxCompared && !HasId(s.comparedBreeds, breed.id)
    ensures RemoveBreedFromComparison(AddBreedToComparison(s, breed), breed.id) == s
  {
    var keep := (b: Breed) => b.id != breed.id;
    var added := s.comparedBreeds + [breed];
    assert Filter(added, keep) == Filter(s.comparedBreeds, keep) by {
      FilterAppendRejected(s.comparedBreeds, breed, keep);
    }
    FilterKeepsAll(s.comparedBreeds, keep);
  }

  /** `clearComparison`. */
  function ClearComparison(s: StoreState): (r: StoreState)
    ensures r == s.(comparedBreeds := [])
    ensures Valid(s) ==> Valid(r)
  {
    s.(comparedBreeds := [])
  }

  // ---------------------------------------------------------------- filters

  /** `{ ...filters, ...patch }`: each supplied key overwrites, every other key stays. */
  function Merge(f: Filters, p: FilterPatch): (r: Filters)
    ensures r.size == if p.size.Some? then p.size.value else f.size
    ensures r.energyLevel == if p.energyLevel.Some? then p.energyLevel.value else f.energyLevel
    ensures r.goodWithChildren == if p.goodWithChildren.Some? then p.goodWithChildren.value else f.goodWithChildren
    ensures r.goodWithOtherDogs == if p.goodWithOtherDogs.Some? then p.goodWithOtherDogs.value else f.goodWithOtherDogs
    ensures r.goodWithCats == if p.goodWithCats.Some? then p.goodWithCats.value else f.goodWithCats
    ensures r.groomingNeeds == if p.groomingNeeds.Some? then p.groomingNeeds.value else f.groomingNeeds
    ensures r.experience == if p.experience.Some? then p.experience.value else f.experience
    ensures r.apartmentFriendly == if p.apartmentFriendly.Some? then p.apartmentFriendly else f.apartmentFriendly
  {
    Filters(
      p.size.GetOr(f.size),
      p.energyLevel.GetOr(f.energyLevel),
      p.goodWithChildren.GetOr(f.goodWithChildren),
      p.goodWithOtherDogs.GetOr(f.goodWithOtherDogs),
      p.goodWithCats.GetOr(f.goodWithCats),
      p.groomingNeeds.GetOr(f.groomingNeeds),
      p.experience.GetOr(f.experience),
      if p.apartmentFriendly.Some? then p.apartmentFriendly else f.apartmentFriendly
    )
  }

  /** Two patches spread one after the other: the later key wins. */
  function ThenPatch(p: FilterPatch, q: FilterPatch): FilterPatch
  {
    FilterPatch(
      if q.size.Some? then q.size else p.size,
      if q.energyLevel.Some? then q.energyLevel else p.energyLevel,
      if q.goodWithChildren.Some? then q.goodWithChildren else p.goodWithChildren,
      if q.goodWithOtherDogs.Some? then q.goodWithOtherDogs else p.goodWithOtherDogs,
      if q.goodWithCats.Some? then q.goodWithCats else p.goodWithCats,
      if q.groomingNeeds.Some? then q.groomingNeeds else p.groomingNeeds,
      if q.experience.Some? then q.experience else p.experience,
      if q.apartmentFriendly.Some? then q.apartmentFriendly else p.apartmentFriendly
    )
  }

  /** `updateFilters`: only the filters change. */
  function UpdateFilters(s: StoreState, p: FilterPatch): (r: StoreState)
    ensures r == s.(filters := Merge(s.filters, p))
    ensures Valid(s) ==> Valid(r)
  {
    s.(filters := Merge(s.filters, p))
  }

  /** `resetFilters`: the filters become the initial filters and nothing else changes. */
  function ResetFilters(s: StoreState): (r: StoreState)
    ensures r.filters == InitialFilters && r == s.(filters := InitialFilters)
    ensures Valid(s) ==> Valid(r)
  {
    s.(filters := InitialFilters)
  }

  /** Applying the same patch twice is applying it once. */
  lemma UpdateFiltersIdempotent(s: StoreState, p: FilterPatch)
    ensures UpdateFilters(UpdateFilters(s, p), p) == UpdateFilters(s, p)
  {
  }

  /** The empty patch changes nothing. */
  lemma EmptyPatchIsIdentity(s: StoreState)
    ensures UpdateFilters(s, EmptyPatch) == s
  {
  }

  /** Two updates in a row are one update with the combined patch. */
  lemma UpdateFiltersComposes(s: StoreState, p: FilterPatch, q: FilterPatch)
    ensures UpdateFilters(UpdateFilters(s, p), q) == UpdateFilters(s, ThenPatch(p, q))
  {
  }

  /** A patch that supplies every key erases the previous filters. */
  lemma TotalPatchOverwritesEverything(f: Filters, g: Filters, p: FilterPatch)
    requires p.size.Some? && p.energyLevel.Some? && p.goodWithChildren.Some? && p.goodWithOtherDogs.Some?
    requires p.goodWithCats.Some? && p.groomingNeeds.Some? && p.experience.Some? && p.apartmentFriendly.Some?
    ensures Merge(f, p) == Merge(g, p)
  {
  }

  /** Reset discards any earlier update. */
  lemma ResetAbsorbsUpdate(s: StoreState, p: FilterPatch)
    ensures ResetFilters(UpdateFilters(s, p)) == ResetFilters(s)
  {
  }

  /** `toggleFilterSidebar`: flips the flag; two toggles cancel out. */
  function ToggleFilterSidebar(s: StoreState): (r: StoreState)
    ensures r.isFilterSidebarOpen != s.isFilterSidebarOpen
    ensures r == s.(isFilterSidebarOpen := r.isFilterSidebarOpen)
  {
    s.(isFilterSidebarOpen := !s.isFilterSidebarOpen)
  }

  lemma ToggleFilterSidebarTwice(s: StoreState)
    ensures ToggleFilterSidebar(ToggleFilterSidebar(s)) == s
  {
  }

  // ---------------------------------------------------------------- quiz

  /** `updateQuizResponse`: the answer for `step` becomes `value`; no other key changes. */
  function UpdateQuizResponse(s: StoreState, step: string, value: string): (r: StoreState)
    ensures step in r.responses && r.responses[step] == value
    ensures forall k :: k != step ==> (k in r.responses <==> k in s.responses)
    ensures forall k :: k != step && k in s.responses ==> r.responses[k] == s.responses[k]
    ensures r == s.(responses := r.responses)
    ensures Valid(s) ==> Valid(r)
  {
    s.(responses := s.responses[step := value])
  }

  /** `nextQuizStep`: one step forward, never past `totalSteps`. */
  function NextQuizStep(s: StoreState): (r: StoreState)
    ensures r.currentStep <= s.totalSteps
    ensures s.currentStep < s.totalSteps ==> r.currentStep == s.currentStep + 1
    ensures s.currentStep >= s.totalSteps ==> r.currentStep == s.totalSteps
    ensures r == s.(currentStep := r.currentStep)
    ensures Valid(s) ==> Valid(r)
  {
    s.(currentStep := if s.currentStep + 1 < s.totalSteps then s.currentStep + 1 else s.totalSteps)
  }

  /** `previousQuizStep`: one step back, never below 1. */
  function PreviousQuizStep(s: StoreState): (r: StoreState)
    ensures r.currentStep >= 1
    ensures s.currentStep > 1 ==> r.currentStep == s.currentStep - 1
    ensures s.currentStep <= 1 ==> r.currentStep == 1
    ensures r == s.(currentStep := r.currentStep)
    ensures Valid(s) ==> Valid(r)
  {
    s.(currentStep := if s.currentStep - 1 > 1 then s.currentStep - 1 else 1)
  }

  /** Inside the range, back undoes forward and forward undoes back. */
  lemma StepsAreInverse(s: StoreState)
    ensures 1 <= s.currentStep < s.totalSteps ==> PreviousQuizStep(NextQuizStep(s)) == s
    ensures 1 < s.currentStep <= s.totalSteps ==> NextQuizStep(PreviousQuizStep(s)) == s
  {
  }

  /** From a valid state, `totalSteps - 1` forward steps reach the last step, and more stay there. */
  lemma {:induction false} ForwardReachesLastStep(s: StoreState, n: nat)
    requires Valid(s) && n >= s.totalSteps - s.currentStep
    ensures StepForward(s, n).currentStep == s.totalSteps
    decreases n
  {
    if n > 0 {
      ForwardReachesLastStep(NextQuizStep(s), n - 1);
    }
  }

  function StepForward(s: StoreState, n: nat): StoreState
    decreases n
  {
    if n == 0 then s else StepForward(NextQuizStep(s), n - 1)
  }

  /** `resetQuiz`: back to step 1 with no answers and no results. */
  function ResetQuiz(s: StoreState): (r: StoreState)
    ensures r.currentStep == 1 && r.responses == map[] && r.results.None? && !r.isCompleted
    ensures r == s.(currentStep := 1, responses := map[], results := None, isCompleted := false)
    ensures Valid(s) ==> Valid(r)
  {
    s.(currentStep := 1, responses := map[], results := None, isCompleted := false)
  }

  /** `setQuizResults`: the results are stored and the quiz is marked completed. */
  function SetQuizResults(s: StoreState, results: seq<MatchResult>): (r: StoreState)
    ensures r.results == Some(results) && r.isCompleted
    ensures r == s.(results := Some(results), isCompleted := true)
    ensures Valid(s) ==> Valid(r)
  {
    s.(results := Some(results), isCompleted := true)
  }

  /** Resetting after a completed quiz forgets the results and the answers. */
  lemma ResetForgetsResults(s: StoreState, results: seq<MatchResult>)
    ensures ResetQuiz(SetQuizResults(s, results)) == ResetQuiz(s)
  {
  }

  // ---------------------------------------------------------------- cart and toast

  /** `addToCart`: appends the id unless it is already present. */
  function AddToCart(s: StoreState, productId: int): (r: StoreState)
    ensures productId in r.cartItems
    ensures productId in s.cartItems ==> r == s
    ensures productId !in s.cartItems ==> r.cartItems == s.cartItems + [productId]
    ensures NoDuplicates(s.cartItems) ==> NoDuplicates(r.cartItems)
    ensures r == s.(cartItems := r.cartItems)
    ensures Valid(s) ==> Valid(r)
  {
    if productId !in s.cartItems then s.(cartItems := s.cartItems + [productId]) else s
  }

  /** `removeFromCart`: no occurrence of the id is left; other ids keep their counts. */
  function RemoveFromCart(s: StoreState, productId: int): (r: StoreState)
    ensures productId !in r.cartItems
    ensures forall x :: x != productId ==> multiset(r.cartItems)[x] == multiset(s.cartItems)[x]
    ensures r == s.(cartItems := r.cartItems)
    ensures Valid(s) ==> Valid(r)
  {
    s.(cartItems := Without(s.cartItems, productId))
  }

  /** Removing a product just added to a cart that lacked it restores the cart. */
  lemma RemoveFromCartUndoesAdd(s: StoreState, productId: int)
    requires productId !in s.cartItems
    ensures RemoveFromCart(AddToCart(s, productId), productId) == s
  {
    WithoutAppended(s.cartItems, productId);
  }

  /** `showToast`. */
  function ShowToast(s: StoreState, message: string, kind: ToastKind): (r: StoreState)
    ensures r.toast.show && r.toast.message == message && r.toast.kind == kind
    ensures r == s.(toast := r.toast)
    ensures Valid(s) ==> Valid(r)
  {
    s.(toast := Toast(true, message, kind))
  }

  /** `hideToast`: only the visibility flag changes. */
  function HideToast(s: StoreState): (r: StoreState)
    ensures !r.toast.show && r.toast.message == s.toast.message && r.toast.kind == s.toast.kind
    ensures r == s.(toast := r.toast)
    ensures Valid(s) ==> Valid(r)
  {
    s.(toast := s.toast.(show := false))
  }
}
