/**
 * The quiz results page: each recommendation is joined with the catalog
 * breed of the same name, ignoring case; the first three become the top
 * cards and the rest, when there are any, the "other matches".
 */
module QuizPage {
  import opened Wrappers
  import opened Text
  import opened Seqs
  import opened Schema

  /** A recommendation together with the catalog breed it names, if any. */
  datatype EnrichedResult = EnrichedResult(result: MatchResult, breed: Option<Breed>)

  /** `b.name.toLowerCase() === breedName.toLowerCase()`. */
  predicate NameMatches(b: Breed, breedName: string)
  {
    ToLower(b.name) == ToLower(breedName)
  }

  /** `allBreeds.find(...)` from position `i` on: the first matching breed. */
  function FindFrom(catalog: seq<Breed>, breedName: string, i: nat): (r: Option<Breed>)
    requires i <= |catalog|
    ensures r.None? <==> forall k :: i <= k < |catalog| ==> !NameMatches(catalog[k], breedName)
    ensures r.Some? ==> exists k :: i <= k < |catalog| && catalog[k] == r.value && NameMatches(r.value, breedName)
                                      && forall j :: i <= j < k ==> !NameMatches(catalog[j], breedName)
    decreases |catalog| - i
  {
    if i == |catalog| then None
    else if NameMatches(catalog[i], breedName) then Some(catalog[i])
    else FindFrom(catalog, breedName, i + 1)
  }

  /** The breed attached to a recommendation. */
  function FindBreed(catalog: seq<Breed>, breedName: string): (r: Option<Breed>)
    ensures r.None? <==> forall k :: 0 <= k < |catalog| ==> !NameMatches(catalog[k], breedName)
    ensures r.Some? ==> exists k :: 0 <= k < |catalog| && catalog[k] == r.value && NameMatches(r.value, breedName)
                                      && forall j :: 0 <= j < k ==> !NameMatches(catalog[j], breedName)
  {
    FindFrom(catalog, breedName, 0)
  }

  /** Names that differ only in letter case find the same breed. */
  lemma {:induction false} FindIgnoresCase(catalog: seq<Breed>, a: string, b: string, i: nat)
    requires ToLower(a) == ToLower(b) && i <= |catalog|
    ensures FindFrom(catalog, a, i) == FindFrom(catalog, b, i)
    decreases |catalog| - i
  {
    if i < |catalog| {
      FindIgnoresCase(catalog, a, b, i + 1);
    }
  }

  /** When no two catalog names agree ignoring case, a breed is found under its own name. */
  lemma FindsOwnName(catalog: seq<Breed>, k: nat)
    requires k < |catalog|
    requires forall i, j :: 0 <= i < j < |catalog| ==> ToLower(catalog[i].name) != ToLower(catalog[j].name)
    ensures FindBreed(catalog, catalog[k].name) == Some(catalog[k])
  {
  }

  /**
   * `enrichResults`: nothing when the catalog or the results are missing,
   * otherwise one entry per recommendation, in order, fields unchanged.
   */
  function EnrichResults(allBreeds: Option<seq<Breed>>, results: Option<seq<MatchResult>>): (r: seq<EnrichedResult>)
    ensures allBreeds.None? || results.None? ==> r == []
    ensures allBreeds.Some? && results.Some? ==>
              && |r| == |results.value|
              && forall i :: 0 <= i < |r| ==>
                   r[i].result == results.value[i] && r[i].breed == FindBreed(allBreeds.value, results.value[i].breedName)
  {
    if allBreeds.None? || results.None? then []
    else
      var catalog, rs := allBreeds.value, results.value;
      seq(|rs|, i requires 0 <= i < |rs| => EnrichedResult(rs[i], FindBreed(catalog, rs[i].breedName)))
  }

  /** The recommendations can be read back unchanged from the enriched list. */
  lemma EnrichKeepsResults(catalog: seq<Breed>, results: seq<MatchResult>)
    ensures var r := EnrichResults(Some(catalog), Some(results));
            seq(|r|, i requires 0 <= i < |r| => r[i].result) == results
  {
  }

  /** An empty catalog still yields one entry per recommendation, none with a breed. */
  lemma EmptyCatalogAttachesNothing(results: seq<MatchResult>)
    ensures var r := EnrichResults(Some([]), Some(results));
            |r| == |results| && forall i :: 0 <= i < |r| ==> r[i].breed.None?
  {
  }

  /** The three top cards: `slice(0, 3)`. */
  function TopCards(r: seq<EnrichedResult>): (top: seq<EnrichedResult>)
    ensures |top| == if |r| < 3 then |r| else 3
    ensures top <= r
  {
    Take(r, 3)
  }

  /** The "other matches" section: from index 3 on, and only when there are more than three. */
  function OtherMatches(r: seq<EnrichedResult>): (rest: seq<EnrichedResult>)
    ensures |r| <= 3 ==> rest == []
    ensures |r| > 3 ==> |rest| == |r| - 3
  {
    if |r| > 3 then r[3..] else []
  }

  /** Top cards and other matches together are the whole list, each entry shown once. */
  lemma TopAndOthersPartition(r: seq<EnrichedResult>)
    ensures TopCards(r) + OtherMatches(r) == r
  {
    if |r| <= 3 {
      assert TopCards(r) == r;
    } else {
      assert r[..3] + r[3..] == r;
    }
  }

  /** The other matches drawn as cards: only those with a breed attached, in order. */
  function OtherCards(r: seq<EnrichedResult>): (cards: seq<EnrichedResult>)
    ensures forall i :: 0 <= i < |cards| ==> cards[i].breed.Some?
    ensures IsSubsequence(cards, OtherMatches(r))
    ensures forall e :: e in OtherMatches(r) && e.breed.Some? ==> e in cards
  {
    FilterIsSubsequence(OtherMatches(r), (e: EnrichedResult) => e.breed.Some?);
    Filter(OtherMatches(r), (e: EnrichedResult) => e.breed.Some?)
  }

  /** The pros shown on a card: the first three. */
  function ShownPros(m: MatchResult): (r: seq<string>)
    ensures |r| <= 3 && r <= m.pros
    ensures |m.pros| <= 3 ==> r == m.pros
  {
    Take(m.pros, 3)
  }

  /** The cons shown on a card: the first two. */
  function ShownCons(m: MatchResult): (r: seq<string>)
    ensures |r| <= 2 && r <= m.cons
    ensures |m.cons| <= 2 ==> r == m.cons
  {
    Take(m.cons, 2)
  }
}
