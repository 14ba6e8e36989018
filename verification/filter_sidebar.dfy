/**
 * The filter sidebar: the size checkboxes toggle a size in the filters, and
 * a saved preset patches the filters and announces itself.
 */
module FilterSidebar {
  import opened Wrappers
  import opened Seqs
  import opened Store

  const SizeOptions: seq<string> := ["toy", "small", "medium", "large"]

  /** The size click: drop every occurrence of a chosen size, append an unchosen one. */
  function ToggleSize(sizes: seq<string>, size: string): (r: seq<string>)
    ensures size in sizes ==> size !in r && IsSubsequence(r, sizes)
    ensures size in sizes ==> forall x :: x != size ==> multiset(r)[x] == multiset(sizes)[x]
    ensures size !in sizes ==> |r| == |sizes| + 1 && r[..|sizes|] == sizes && r[|sizes|] == size
    ensures size in r <==> size !in sizes
    ensures NoDuplicates(sizes) ==> NoDuplicates(r)
  {
    if size in sizes then Without(sizes, size)
    else
      var r := sizes + [size];
      assert r[..|sizes|] == sizes;
      r
  }

  /** Toggling a size that was not chosen, twice, restores the list exactly. */
  lemma ToggleTwiceRestoresAbsent(sizes: seq<string>, size: string)
    requires size !in sizes
    ensures ToggleSize(ToggleSize(sizes, size), size) == sizes
  {
    WithoutAppended(sizes, size);
  }

  /**
   * Toggling a chosen size twice on a duplicate-free list restores its
   * contents, with that size moved to the end.
   */
  lemma ToggleTwiceRestoresPresent(sizes: seq<string>, size: string)
    requires NoDuplicates(sizes) && size in sizes
    ensures ToggleSize(ToggleSize(sizes, size), size) == Without(sizes, size) + [size]
    ensures multiset(ToggleSize(ToggleSize(sizes, size), size)) == multiset(sizes)
  {
    MoveToEndKeepsMultiset(sizes, size);
  }

  /** Two clicks on a chosen size that is not last reorder the list, so they do not undo each other. */
  lemma ToggleTwiceCanReorder()
    ensures ToggleSize(ToggleSize(["large", "small"], "large"), "large") == ["small", "large"]
  {
    var sizes := ["large", "small"];
    assert sizes[1..] == ["small"];
    assert ["small"][1..] == [];
    assert Without(sizes, "large") == ["small"];
    ToggleTwiceRestoresPresent(sizes, "large");
  }

  /** The size click on the store: only the size filter changes. */
  function ClickSize(s: StoreState, size: string): (r: StoreState)
    ensures r.filters.size == ToggleSize(s.filters.size, size)
    ensures r.filters == s.filters.(size := r.filters.size)
    ensures r == s.(filters := r.filters)
    ensures Valid(s) ==> Valid(r)
  {
    UpdateFilters(s, EmptyPatch.(size := Some(ToggleSize(s.filters.size, size))))
  }

  /** The "Family Friendly" preset. */
  const FamilyFriendly := EmptyPatch.(size := Some(["large"]), goodWithChildren := Some(true),
                                      energyLevel := Some(3), experience := Some("beginner"))

  /** The "Apartment Living" preset. */
  const ApartmentLiving := EmptyPatch.(size := Some(["small", "medium"]), energyLevel := Some(2),
                                       apartmentFriendly := Some(true))

  /** `filterPresets[filterId]` together with the saved filter's display name. */
  function Preset(filterId: string): (r: Option<(FilterPatch, string)>)
    ensures r.Some? <==> filterId == "family-friendly" || filterId == "apartment-living"
  {
    if filterId == "family-friendly" then Some((FamilyFriendly, "Family Friendly"))
    else if filterId == "apartment-living" then Some((ApartmentLiving, "Apartment Living"))
    else None
  }

  /** The toast text `"<name>" filter applied`. */
  function AppliedMessage(name: string): string
  {
    "\"" + name + "\" filter applied"
  }

  /**
   * `handleLoadSavedFilter`: a known preset is spread over the filters and a
   * success toast names it; an unknown id does nothing.
   */
  function HandleLoadSavedFilter(s: StoreState, filterId: string): (r: StoreState)
    ensures Preset(filterId).None? ==> r == s
    ensures Preset(filterId).Some? ==>
              && r.filters == Merge(s.filters, Preset(filterId).value.0)
              && r.toast == Toast(true, AppliedMessage(Preset(filterId).value.1), Success)
    ensures r == s.(filters := r.filters, toast := r.toast)
    ensures Valid(s) ==> Valid(r)
  {
    var preset := Preset(filterId);
    if preset.None? then s
    else ShowToast(UpdateFilters(s, preset.value.0), AppliedMessage(preset.value.1), Success)
  }

  lemma PresetLookups()
    ensures Preset("family-friendly") == Some((FamilyFriendly, "Family Friendly"))
    ensures Preset("apartment-living") == Some((ApartmentLiving, "Apartment Living"))
  {
  }

  lemma FamilyFriendlyMessage()
    ensures AppliedMessage("Family Friendly") == "\"Family Friendly\" filter applied"
  {
  }

  lemma ApartmentLivingMessage()
    ensures AppliedMessage("Apartment Living") == "\"Apartment Living\" filter applied"
  {
  }

  /** The family-friendly preset sets exactly its four keys and names itself in the toast. */
  lemma LoadsFamilyFriendly(s: StoreState)
    ensures var r := HandleLoadSavedFilter(s, "family-friendly");
            && r.filters == s.filters.(size := ["large"], goodWithChildren := true, energyLevel := 3, experience := "beginner")
            && r.toast == Toast(true, "\"Family Friendly\" filter applied", Success)
  {
    PresetLookups();
    FamilyFriendlyMessage();
  }

  /** The apartment-living preset sets exactly its three keys and names itself in the toast. */
  lemma LoadsApartmentLiving(s: StoreState)
    ensures var r := HandleLoadSavedFilter(s, "apartment-living");
            && r.filters == s.filters.(size := ["small", "medium"], energyLevel := 2, apartmentFriendly := Some(true))
            && r.toast == Toast(true, "\"Apartment Living\" filter applied", Success)
  {
    PresetLookups();
    ApartmentLivingMessage();
  }

  /** Loading the same preset again leaves the filters as the first load left them. */
  lemma LoadingPresetTwiceIsLoadingOnce(s: StoreState, filterId: string)
    ensures HandleLoadSavedFilter(HandleLoadSavedFilter(s, filterId), filterId).filters
         == HandleLoadSavedFilter(s, filterId).filters
  {
  }
}
