# k9 breed explorer: a Dafny model of its core logic

This project models the parts of the k9 breed explorer that decide something:

- **Breed ingestion.** The server turns raw Dog API breed records into stored breed rows. It parses the metric weight and height text into `{min, max}`. It scores eight 1..5 traits from temperament keywords and the breed group. It derives four compatibility flags. It runs an idempotent sync loop that skips names already stored.
- **Client state store.** Covers the comparison list (at most four breeds, distinct ids), the duplicate-free cart, the quiz step counter clamped to 1..totalSteps, filter merging and reset, and the quiz answers and results.
- **Breed views.**
  - The comparison view picks a "best in trait" winner and draws the crown.
  - The breed card handles the compare toggle and the weight and height captions.
  - The details page has the trait colour and label, the exercise and grooming captions, the temperament badges and the similar-breeds strip.
- **Quiz flow.**
  - The questionnaire covers the question table, the next/previous/submit decision and the submission payload.
  - The results page joins recommendations to catalog breeds ignoring case and splits them into top cards and other matches.
- **Filter sidebar and article card.** Covers the size toggle, saved presets, author initials and category colours.

Every operation is a pure function over immutable datatypes. Store actions are state-to-state functions. Each has a contract, and lemmas relate operations to one another: inverses, idempotence, composition, and reference definitions.

Modules, one per source file, plus shared ones:

- `Wrappers`: the `Option` type, which stands for JavaScript `null`/`undefined`.
- `Text`: the JavaScript string operations the code relies on:
  - `includes`
  - ASCII `toLowerCase`/`toUpperCase`
  - `trim` with the `\s` whitespace set
  - `split`/`join` on one character
  - decimal digits and number printing
- `Seqs`: `filter`, `slice(0, n)`, subsequences and duplicate-freedom.
- `Schema`: the breed row, the trait names, JavaScript truthiness of nullable columns, and quiz match results.
- `Palette`: the four background colours.
- `RangeParser`, `TraitNormalizer`, `BreedSync`: `server/services/dogApi.ts`.
- `Store`: `client/src/store/useStore.ts`.
- `BreedComparison`, `BreedCard`, `BreedDetails`, `QuizPage`, `QuizComponent`, `FilterSidebar`, `ResourceCard`: the components and pages of the same names.

The two regular expressions of the range parser, `(\d+)\s*-\s*(\d+)` and `(\d+)`, are modelled by a scanner. A scanner `PairAt` tries to match at each index and `FindPairIndex` takes the leftmost index where it matches. The scanner is proved to agree with a relational description of what the backtracking matcher accepts (`PairMatch`). Truthiness matters throughout: `!value` holds for `null` and `0`, and `x || null` turns `0` and `""` into `null`. It is written out as `Truthy`, `TruthyText`, `TextOrNull` and `BoundOrNull`.

Three behaviours of the code are worth stating plainly:

- **Ties in "best in trait".** A tie at the maximum still has a winner. The code's `reduce` uses a strict `>`, so the earliest breed with the maximum wins and gets the crown (`BreedComparison.TieCrownsFirst`).
- **Order of parsed bounds.** Parsed bounds keep the text's order and are not re-sorted, so `"30 - 20"` gives `{min: 30, max: 20}` (`RangeParserLemmas.ExampleDescendingPair`).
- **Units.** The sync parses the *metric* text (`weight.metric`, `height.metric`, server/services/dogApi.ts:185-186). The breed card labels those numbers `lbs` and `in` (client/src/components/breed/BreedCard.tsx:83,90). The model keeps both as written; `BreedCard.WeightTextRoundTrip` shows that the card prints exactly the stored numbers.

## Model

| member | source | states |
|---|---|---|
| RangeParserLemmas.RegexAgreesWithScanner | server/services/dogApi.ts:65 | Every match the backtracking matcher can make at an index has the scanner's first group and second-group start. Greedy `\d+` makes group 2 the longest run, so the scanner returns exactly the regex captures |
| RangeParser.ScannerFindsRegexMatch | server/services/dogApi.ts:65 | Whatever the scanner returns is a match of the regular expression |
| RangeParser.PairAtShape | server/services/dogApi.ts:65 | The scanner `PairAt`: a match at i starts with a digit at i, ends group 1 before the dash, has a digit at the start of group 2, and ends group 2 at a non-digit or the end of the text |
| RangeParser.FindPairIndex | server/services/dogApi.ts:65-66 | `String.match` takes the leftmost match: the index found starts a match and no earlier index does |
| RangeParser.FindPairIndexNone | server/services/dogApi.ts:65-66 | `String.match` returns null iff no index of the text starts a match |
| RangeParser.FindNumber | server/services/dogApi.ts:73-76 | `(\d+)`: null iff the text has no digit; otherwise the value of the longest digit run at the first digit |
| RangeParser.ParseRange | server/services/dogApi.ts:62-80 | Null iff the text is absent, empty or digit-free. Without a hyphenated pair the result has min = max. Its values are stated by `RangeParserLemmas.ParsesFirstMatch` (with a pair) and `RangeParserLemmas.ParsesFirstNumber` (without one) |
| RangeParserLemmas.ParsesFirstMatch | server/services/dogApi.ts:65-71 | When the pattern matches at an index and at no earlier index, the parser returns that match's two numbers, whatever digits come before it |
| RangeParser.FindNumberAt | server/services/dogApi.ts:73-76 | `(\d+)` captures the whole digit run that starts at the first digit of the text |
| RangeParserLemmas.ParsesFirstNumber | server/services/dogApi.ts:73-77 | With no hyphenated pair anywhere, the result is {min: n, max: n} for n the digit run at the first digit |
| RangeParserLemmas.ExampleNumberBeforePair | server/services/dogApi.ts:65-71 | "1 to 10-20" gives {min: 10, max: 20}: the pair wins over an earlier lone number |
| RangeParserLemmas.ExampleTwoNumbers | server/services/dogApi.ts:73-77 | "5 or 6" gives {min: 5, max: 5}: only the first number is used |
| RangeParserLemmas.FindsMatchAt | server/services/dogApi.ts:65-66 | When the pattern matches at an index and at no earlier index, that index is the leftmost match |
| RangeParserLemmas.ParsesHyphenatedPair | server/services/dogApi.ts:65-71 | For text = digit-free prefix, digits A, blanks, `-`, blanks, digits B, then a non-digit: the result is {min: A, max: B} in textual order |
| RangeParserLemmas.ParsesPrintedPair | server/services/dogApi.ts:65-71 | Same as ParsesHyphenatedPair for numbers printed in decimal: printing then parsing returns the numbers |
| RangeParserLemmas.ParsesSingleNumber | server/services/dogApi.ts:73-77 | A lone number n surrounded by digit-free text parses to {min: n, max: n} |
| RangeParserLemmas.ExampleCompactPair | server/services/dogApi.ts:65-71 | "10-20" gives {min: 10, max: 20} |
| RangeParserLemmas.ExampleDescendingPair | server/services/dogApi.ts:65-71 | "30 - 20" gives {min: 30, max: 20}; the bounds are not re-sorted |
| RangeParserLemmas.ExampleSingle | server/services/dogApi.ts:73-77 | "15" gives {min: 15, max: 15} |
| RangeParserLemmas.ExampleNoDigit | server/services/dogApi.ts:79 | "varies" gives null |
| Text.ContainsIffOccurs | server/services/dogApi.ts:132 | `includes` holds iff the keyword occurs at some index |
| Text.ToLowerIdempotent | server/services/dogApi.ts:113-114 | Lower-casing lower-cased text changes nothing |
| Text.TrimOfTrimmed | client/src/pages/BreedDetails.tsx:251 | Text with no surrounding whitespace is its own trim |
| Text.Trim | client/src/pages/BreedDetails.tsx:251 | `trim` returns a contiguous piece of the text with only whitespace cut off either side, and the piece neither starts nor ends with whitespace |
| Text.TrimIdempotent | client/src/pages/BreedDetails.tsx:251 | Trimming twice is trimming once |
| Text.Split | client/src/pages/BreedDetails.tsx:249 | `split` on one character gives one more piece than there are separators, and no piece contains the separator |
| Text.JoinSplit | client/src/pages/BreedDetails.tsx:249 | Joining the pieces of a split with the same separator gives back the text |
| Text.NatToString | server/services/dogApi.ts:194 | Decimal printing is non-empty, all digits, and has no leading zero |
| Text.DecimalOfNatToString | server/services/dogApi.ts:68-69 | `parseInt` of a printed number gives the number back |
| TraitNormalizer.Clamp | server/services/dogApi.ts:139 | `Math.max(1, Math.min(5, v))` lies in 1..5, is v inside that range, and is the nearer end outside it |
| TraitNormalizer.AddHitsIsLinear | server/services/dogApi.ts:131-137 | The `forEach` loop adds delta once per listed keyword found |
| TraitNormalizer.HitsCountsKeywords | server/services/dogApi.ts:131-137 | On a duplicate-free list the loop counts distinct keywords found; repeats in the text count once |
| TraitNormalizer.ScoreFromTraits | server/services/dogApi.ts:128-140 | Always in 1..5. Equals clamp(3 + positive keywords included − negative keywords included) |
| TraitNormalizer.KeywordTableWellFormed | server/services/dogApi.ts:117-124 | Every keyword list of the table is duplicate-free with non-empty keywords, so the counting lemma applies to each |
| TraitNormalizer.HealthIssues | server/services/dogApi.ts:114-121 | 4 iff the lower-cased group contains "toy"; 2 iff it contains "working" but not "toy"; otherwise 3 |
| TraitNormalizer.HealthIgnoresTemperament | server/services/dogApi.ts:121 | The health score depends on the breed group only, never on the temperament |
| TraitNormalizer.GenerateTraitScores | server/services/dogApi.ts:102-126 | All eight scores lie in 1..5; the health score is the group lookup |
| TraitNormalizer.KeywordScoresOf | server/services/dogApi.ts:113-124 | Each of the seven keyword-scored traits is 3, plus one per distinct keyword of its raising list found in the lower-cased temperament, minus one per distinct keyword of its lowering list, clamped to 1..5 |
| TraitNormalizer.NoKeywordIsNeutral | server/services/dogApi.ts:128-140 | Text that contains no keyword of either list scores exactly 3 |
| TraitNormalizer.TableHasNoEmptyKeyword | server/services/dogApi.ts:117-124 | No keyword of any list of the table is empty |
| TraitNormalizer.EmptyTextIsNeutral | server/services/dogApi.ts:128-140 | Empty text scores exactly 3 against any pair of lists of non-empty keywords |
| TraitNormalizer.EmptyTemperamentIsNeutral | server/services/dogApi.ts:113-124 | An absent or empty temperament gives 3 on all seven keyword-scored traits, whatever the group |
| TraitNormalizer.ScoresIgnoreCase | server/services/dogApi.ts:113-114 | The scores of any text equal those of its lower-cased form |
| TraitNormalizer.GenerateBooleanTraits | server/services/dogApi.ts:142-157 | "gentle", "patient" or "friendly" makes the breed good with children. "social", "friendly" or the absence of "aggressive" makes it good with other dogs. "gentle" or a toy/non-sporting group makes it good with cats. Apartment-friendly iff the group has toy/non-sporting or the temperament has "calm". Good with cats outside those groups implies good with children |
| TraitNormalizer.EmptyTemperamentFlags | server/services/dogApi.ts:148-155 | An empty temperament gives: not good with children, good with other dogs, and the cat and apartment flags equal the group test |
| TraitNormalizer.FlagsIgnoreCase | server/services/dogApi.ts:148-149 | The flags of any text equal those of its lower-cased form |
| TraitNormalizer.MoreTemperamentKeepsFlags | server/services/dogApi.ts:152-155 | Appending text to the temperament never withdraws the children, cats or apartment flag |
| BreedSync.TextOrNull | server/services/dogApi.ts:195-198 | `text \|\| null` yields null exactly for absent or empty text |
| BreedSync.BoundOrNull | server/services/dogApi.ts:199-202 | `n \|\| null` stores a parsed 0 as null and keeps positive bounds |
| BreedSync.ImageUrl | server/services/dogApi.ts:177-182 | The URL is fetched by reference id when there is one, otherwise taken from the inline image. An empty result is null |
| BreedSync.NewBreed | server/services/dogApi.ts:192-208 | The created row carries the serial id and the record's name, with the API id printed in decimal, and the record's texts with "" as null. Each stored bound is the parsed metric bound with 0 as null, so stored bounds are positive or null. The eight scores are those of `GenerateTraitScores` and the four flags those of `GenerateBooleanTraits`; AI fields are null |
| BreedSync.RowNamesAndNumbers | server/services/dogApi.ts:192-210 | The row built by `NewBreed` carries the record's name and the serial id it is given |
| BreedSync.SyncOne | server/services/dogApi.ts:166-215 | A stored name or a record that throws changes nothing; otherwise exactly one built row is added under the record's name and the next id advances |
| BreedSync.SyncOnePreservesWellFormed | server/services/dogApi.ts:169-210 | One iteration keeps rows keyed by their own name with distinct ids below the next id, for any builder that names and numbers rows as `NewBreed` does |
| BreedSync.SyncOneKeepsRows | server/services/dogApi.ts:169-210 | One iteration keeps every stored row and adds at most the record's name, never a name that throws |
| BreedSync.SyncKeepsRows | server/services/dogApi.ts:166-216 | Stored rows are never changed. Afterwards the stored names are the old names plus every feed name whose processing does not throw |
| BreedSync.SyncBuildsNewRows | server/services/dogApi.ts:166-216 | Every row the loop adds is the builder's row for the first feed record with that name, a record that did not throw, with an id handed out during the run |
| BreedSync.SyncBreeds | server/services/dogApi.ts:166-216 | The loop never drops a stored name and never lowers the next id; an empty feed changes nothing |
| BreedSync.SyncPreservesWellFormed | server/services/dogApi.ts:166-216 | Rows stay keyed by their own name with distinct ids below the next id |
| BreedSync.SyncOfKnownNamesIsNoop | server/services/dogApi.ts:169-174 | A feed whose names are all stored, or all throw, changes nothing |
| BreedSync.SyncIsIdempotent | server/services/dogApi.ts:166-216 | Running the same feed again leaves the store as the first run left it |
| BreedSync.SyncComposes | server/services/dogApi.ts:166-216 | Syncing a + b is syncing a then b, so a failing record does not stop later ones |
| BreedSync.RunSync | server/services/dogApi.ts:160-223 | A failed fetch of the feed is reported as a failure and stores nothing. Otherwise stored rows are unchanged and the key set grows by exactly the processable names. Each new row is `NewBreed` of the first feed record with its name, with an id from this run, so its scores are in 1..5. The store invariant is kept |
| Store.InitialIsValid | client/src/store/useStore.ts:66-97 | The initial state satisfies the store invariant: step 1 of 8 |
| Store.AddBreedToComparison | client/src/store/useStore.ts:102-111 | No-op when four are compared or the id is present; otherwise appends at the end. The id is then present iff it was or there was room. Only the comparison list changes; the invariant is kept |
| Store.RemoveBreedFromComparison | client/src/store/useStore.ts:113-115 | No entry with the id remains. Every other entry stays, in its original order (a subsequence); the invariant is kept |
| Store.RemoveUndoesAdd | client/src/store/useStore.ts:102-115 | Adding a new breed with room left, then removing its id, restores the state |
| Store.ClearComparison | client/src/store/useStore.ts:117 | Empties the list and keeps the invariant |
| Store.Merge | client/src/store/useStore.ts:121-123 | Every supplied key overwrites; every other filter key keeps its value |
| Store.UpdateFilters | client/src/store/useStore.ts:121-123 | Only the filters change; the invariant is kept |
| Store.ResetFilters | client/src/store/useStore.ts:125 | The filters become the initial filters and nothing else changes |
| Store.UpdateFiltersIdempotent | client/src/store/useStore.ts:121-123 | Applying a patch twice is applying it once |
| Store.UpdateFiltersComposes | client/src/store/useStore.ts:121-123 | Two updates equal one update with the combined patch, the later key winning |
| Store.EmptyPatchIsIdentity | client/src/store/useStore.ts:121-123 | An update with no key supplied leaves the store as it was |
| Store.TotalPatchOverwritesEverything | client/src/store/useStore.ts:121-123 | A patch that supplies every key yields the same filters whatever came before |
| Store.ResetAbsorbsUpdate | client/src/store/useStore.ts:121-125 | Reset after an update equals reset alone |
| Store.ToggleFilterSidebar | client/src/store/useStore.ts:127-129 | Flips the sidebar flag and nothing else |
| Store.ToggleFilterSidebarTwice | client/src/store/useStore.ts:127-129 | Toggling the sidebar twice restores the store |
| Store.UpdateQuizResponse | client/src/store/useStore.ts:132-134 | The given key maps to the value; every other key keeps its presence and value |
| Store.NextQuizStep | client/src/store/useStore.ts:136-139 | Never past totalSteps. Advances by one below it and keeps the invariant |
| Store.PreviousQuizStep | client/src/store/useStore.ts:141-144 | Never below 1. Goes back by one above it and keeps the invariant |
| Store.StepsAreInverse | client/src/store/useStore.ts:136-144 | Inside the range, back undoes forward and forward undoes back |
| Store.ForwardReachesLastStep | client/src/store/useStore.ts:136-139 | From a valid state, enough forward steps reach totalSteps and stay there |
| Store.ResetQuiz | client/src/store/useStore.ts:146-151 | Step 1, no answers, no results, not completed; other state untouched and the invariant kept |
| Store.SetQuizResults | client/src/store/useStore.ts:153-156 | Stores the results and sets isCompleted |
| Store.ResetForgetsResults | client/src/store/useStore.ts:146-156 | Resetting after storing results is the same as resetting |
| Store.AddToCart | client/src/store/useStore.ts:163-168 | The id is in the cart afterwards; a no-op if it was present, otherwise appended; no duplicate is created |
| Store.RemoveFromCart | client/src/store/useStore.ts:170-172 | No occurrence of the id remains; every other id keeps its count |
| Store.RemoveFromCartUndoesAdd | client/src/store/useStore.ts:163-172 | Adding a product that was absent and removing it restores the cart |
| Store.ShowToast | client/src/store/useStore.ts:174-176 | The toast is shown with the given message and kind |
| Store.HideToast | client/src/store/useStore.ts:178-180 | Only the visibility flag is cleared; message and kind stay |
| Seqs.Filter | client/src/store/useStore.ts:114 | Keeps exactly the accepted elements, each with its full multiplicity |
| Seqs.FilterIsSubsequence | client/src/store/useStore.ts:114 | Filtering keeps the relative order |
| Seqs.FilterNoDuplicates | client/src/store/useStore.ts:171 | Filtering a duplicate-free list leaves it duplicate-free |
| Seqs.Without | client/src/components/breed/FilterSidebar.tsx:141 | Removes every occurrence of one value; other values keep their counts and order |
| Seqs.WithoutAppended | client/src/store/useStore.ts:163-172 | Removing a value just appended gives the list without it |
| Seqs.MoveToEndKeepsMultiset | client/src/components/breed/FilterSidebar.tsx:140-142 | Removing the only occurrence of a value and appending it again keeps the multiset |
| Seqs.Take | client/src/pages/Quiz.tsx:130 | `slice(0, n)` is a prefix of length min(n, length) |
| BreedComparison.ComparedTraitsAreSeven | client/src/components/breed/BreedComparison.tsx:21-29 | Seven distinct traits are compared: every trait except healthIssues |
| BreedComparison.Step | client/src/components/breed/BreedComparison.tsx:89-97 | One reduce step keeps the accumulator or takes the current breed |
| BreedComparison.ReduceFrom | client/src/components/breed/BreedComparison.tsx:89-97 | From a correct prefix winner, the reduce returns the list's reference winner: the earliest breed with the largest truthy value, or the first breed if none is truthy |
| BreedComparison.BestIndex | client/src/components/breed/BreedComparison.tsx:89-97 | The reduce over the whole list returns the reference winner |
| BreedComparison.GetBestInTrait | client/src/components/breed/BreedComparison.tsx:86-98 | Null iff the list is empty; otherwise a listed breed. Its value is truthy and maximal when any value is truthy, else it is the first breed |
| BreedComparison.WinnerIsUnique | client/src/components/breed/BreedComparison.tsx:93-96 | The reference winner is unique: ties are broken toward the earliest breed |
| BreedComparison.CrownOnlyOnWinner | client/src/components/breed/BreedComparison.tsx:196-220 | With distinct ids a column wears the crown iff it is the winner and its value is truthy |
| BreedComparison.HasCrown | client/src/components/breed/BreedComparison.tsx:197-221 | A crowned column has a truthy value; with distinct ids no truthy value in the trait exceeds it |
| BreedComparison.NoCrownWhenAllFalsy | client/src/components/breed/BreedComparison.tsx:218-220 | An all-null or all-zero trait shows no crown |
| BreedComparison.OneCrownWhenSomeTruthy | client/src/components/breed/BreedComparison.tsx:196-220 | If some value is truthy and ids are distinct, exactly one column wears the crown |
| BreedComparison.TieCrownsFirst | client/src/components/breed/BreedComparison.tsx:90-96 | For energy levels [5, 5, 3] the first breed alone wears the crown |
| BreedComparison.TraitColor | client/src/components/breed/BreedComparison.tsx:100-105 | Grey iff null/0; mint iff truthy and ≤ 2; mustard iff 3..4; lavender iff above 4 |
| BreedComparison.HandleSaveComparison | client/src/components/breed/BreedComparison.tsx:64-74 | The save dialog opens iff signed in and at least two breeds are compared; signing in is checked first |
| BreedComparison.SaveToast | client/src/components/breed/BreedComparison.tsx:64-74 | Only the toast changes. Without sign-in it is the "info" toast asking to sign in; signed in with fewer than two breeds it is the "error" toast; opening the dialog changes nothing |
| BreedComparison.SaveToastShownIffRefused | client/src/components/breed/BreedComparison.tsx:64-74 | With no toast on screen, a toast appears iff saving is refused, and it is an error iff a signed-in user compares fewer than two breeds |
| BreedCard.IsInComparison | client/src/components/breed/BreedCard.tsx:32 | True iff some compared breed has this breed's id |
| BreedCard.CanAddToComparison | client/src/components/breed/BreedCard.tsx:33 | True iff fewer than four breeds are compared |
| BreedCard.CompareDisabled | client/src/components/breed/BreedCard.tsx:283 | Disabled only when four or more breeds are compared and none has this id |
| BreedCard.CompareButtonCases | client/src/components/breed/BreedCard.tsx:277-286 | The button offers remove, offers add, or is disabled; it is disabled iff pressing it would leave the comparison list unchanged |
| BreedCard.HandleComparisonToggle | client/src/components/breed/BreedCard.tsx:61-71 | A compared breed is removed exactly as `removeBreedFromComparison` removes it: every entry with its id goes and the rest stay; a new one is appended while there is room; otherwise the list stays. An error toast appears iff the button is disabled. The invariant is kept |
| BreedCard.ToggleTwiceRestoresComparison | client/src/components/breed/BreedCard.tsx:61-71 | Toggling a new breed on and off again restores the comparison list |
| BreedCard.RangeText | client/src/components/breed/BreedCard.tsx:81-93 | The fallback text appears iff a bound is null or zero |
| BreedCard.WeightText | client/src/components/breed/BreedCard.tsx:81-86 | "Weight varies" iff a weight bound is null or zero |
| BreedCard.HeightText | client/src/components/breed/BreedCard.tsx:88-93 | "Height varies" iff a height bound is null or zero |
| BreedCard.RangeTextRoundTrip | client/src/components/breed/BreedCard.tsx:81-93 | With positive bounds the caption parses back, under the ingestion's range parser, to the same bounds |
| BreedCard.WeightTextRoundTrip | client/src/components/breed/BreedCard.tsx:83 | The weight caption of positive bounds parses back to those bounds |
| BreedCard.HeightTextRoundTrip | client/src/components/breed/BreedCard.tsx:90 | The height caption of positive bounds parses back to those bounds |
| BreedCard.TraitColor | client/src/components/breed/BreedCard.tsx:95-100 | Grey iff null/0; lavender iff above 4 |
| BreedCard.TraitColorAgreesWithComparison | client/src/components/breed/BreedCard.tsx:95-100 | The card colours every value exactly as the comparison view does |
| BreedDetails.TraitColor | client/src/pages/BreedDetails.tsx:137-142 | Grey iff null/0 |
| BreedDetails.TraitColorAgreesWithComparison | client/src/pages/BreedDetails.tsx:137-142 | The details page colours every value exactly as the comparison view does |
| BreedDetails.TraitLabel | client/src/pages/BreedDetails.tsx:144-149 | Unknown iff null/0; Low iff ≤ 2; Moderate iff 3..4; High iff above 4 |
| BreedDetails.LabelMatchesColor | client/src/pages/BreedDetails.tsx:137-149 | Each label has exactly one colour: the two partitions coincide |
| BreedDetails.Tier | client/src/pages/BreedDetails.tsx:497-521 | The shared bucket: top iff the value is at least 4, bottom iff null or below 2 |
| BreedDetails.TierIsMonotone | client/src/pages/BreedDetails.tsx:497-521 | A larger value never lands in a lower bucket |
| BreedDetails.ExerciseText | client/src/pages/BreedDetails.tsx:499-501 | "2+ hours" iff ≥ 4; "1-2 hours" iff 3; "30-60 min" iff 2; "15-30 min" iff null or below 2 |
| BreedDetails.GroomingText | client/src/pages/BreedDetails.tsx:519-521 | Daily iff ≥ 4; Weekly iff 3; Bi-weekly iff 2; Monthly iff null or below 2 |
| BreedDetails.CaptionsFollowLabel | client/src/pages/BreedDetails.tsx:497-521 | A High trait gets the top captions; an Unknown trait gets the bottom ones |
| BreedDetails.TemperamentBadges | client/src/pages/BreedDetails.tsx:249-251 | At most four badges, none for a null temperament. Badge i is the trimmed i-th comma piece, and no badge starts or ends with whitespace |
| BreedDetails.BadgesRecoverTemperament | client/src/pages/BreedDetails.tsx:249-251 | With at most four untrimmed-free pieces, joining the badges with commas gives the temperament back: nothing lost or reordered |
| BreedDetails.SimilarBreeds | client/src/pages/BreedDetails.tsx:590-592 | The first min(4, n) of the n breeds other than the current id, in the order received. Fewer than four means no other breed was left out |
| BreedDetails.OtherBreeds | client/src/pages/BreedDetails.tsx:590-591 | A breed is among the others iff it is in the similar list and its id differs from the current one |
| QuizPage.FindFrom | client/src/pages/Quiz.tsx:33-35 | `find` from an index: null iff no later breed matches ignoring case; otherwise the first match |
| QuizPage.FindBreed | client/src/pages/Quiz.tsx:33-35 | The attached breed is the first catalog entry whose name equals the recommendation's ignoring case; undefined when none does |
| QuizPage.FindsOwnName | client/src/pages/Quiz.tsx:33-35 | When no two catalog names agree ignoring case, every breed is found under its own name |
| QuizPage.FindIgnoresCase | client/src/pages/Quiz.tsx:34 | Names that differ only in case find the same breed |
| QuizPage.EnrichResults | client/src/pages/Quiz.tsx:29-42 | Empty if the catalog or the results are missing. Otherwise one entry per recommendation, same order and fields, with the found breed attached |
| QuizPage.EnrichKeepsResults | client/src/pages/Quiz.tsx:37-40 | The recommendations can be read back unchanged from the enriched list |
| QuizPage.EmptyCatalogAttachesNothing | client/src/pages/Quiz.tsx:30 | An empty catalog (truthy in JavaScript) still yields one entry per result, none with a breed |
| QuizPage.TopCards | client/src/pages/Quiz.tsx:130 | The first min(3, n) entries, as a prefix |
| QuizPage.OtherMatches | client/src/pages/Quiz.tsx:220-224 | Nothing unless there are more than three; otherwise the entries from index 3 on |
| QuizPage.TopAndOthersPartition | client/src/pages/Quiz.tsx:130-224 | Top cards followed by other matches are the whole list, each entry once |
| QuizPage.OtherCards | client/src/pages/Quiz.tsx:224-232 | Only other matches with a breed are drawn, in order, and none of those is dropped |
| QuizPage.ShownPros | client/src/pages/Quiz.tsx:174 | At most three pros, a prefix; all of them when there are at most three |
| QuizPage.ShownCons | client/src/pages/Quiz.tsx:183 | At most two cons, a prefix; all of them when there are at most two |
| QuizComponent.QuestionTableWellFormed | client/src/components/quiz/QuizComponent.tsx:14-107 | Eight questions (the store's totalSteps), all required, with distinct ids and distinct option values within each |
| QuizComponent.CurrentQuestion | client/src/components/quiz/QuizComponent.tsx:150 | Defined iff the step is 1..8, and then it is the step's question |
| QuizComponent.CanProceed | client/src/components/quiz/QuizComponent.tsx:177 | Proceeding needs a rendered question; in a valid store it is allowed iff the current question has a non-empty answer |
| QuizComponent.PreviousDisabled | client/src/components/quiz/QuizComponent.tsx:249 | In a valid store "Previous" is disabled iff pressing it would change nothing |
| QuizComponent.NextDisabled | client/src/components/quiz/QuizComponent.tsx:260 | "Next" is disabled while a submission is pending, otherwise iff the user cannot proceed |
| QuizComponent.ValidStepsRender | client/src/components/quiz/QuizComponent.tsx:150-175 | No step a valid store can hold leads to the empty render |
| QuizComponent.AnswerCurrent | client/src/components/quiz/QuizComponent.tsx:169-177 | Records the answer under the current question's id. A non-empty answer then enables "Next" |
| QuizComponent.BuildPayload | client/src/components/quiz/QuizComponent.tsx:130-134 | Never carries both ids. Anonymous sends the session id only; signed-in never sends the session id, and sends a non-empty user id |
| QuizComponent.HandleNext | client/src/components/quiz/QuizComponent.tsx:154-161 | Advances by one step iff below totalSteps; otherwise submits exactly the stored responses |
| QuizComponent.HandlePrevious | client/src/components/quiz/QuizComponent.tsx:163-167 | Goes back only after step 1; otherwise nothing changes |
| QuizComponent.PreviousUndoesNext | client/src/components/quiz/QuizComponent.tsx:154-167 | "Previous" after an advancing "Next" returns to the same state |
| QuizComponent.LastStepSubmits | client/src/components/quiz/QuizComponent.tsx:155-160 | In a valid store "Next" submits iff on the last step |
| QuizComponent.SubmitSucceeded | client/src/components/quiz/QuizComponent.tsx:137-143 | The results are stored, the quiz completed and the success toast shown; step and answers untouched |
| QuizComponent.SubmitFailed | client/src/components/quiz/QuizComponent.tsx:144-147 | Only the error toast changes |
| FilterSidebar.ToggleSize | client/src/components/breed/FilterSidebar.tsx:139-143 | A chosen size is removed everywhere and other sizes keep their counts and order. An unchosen size is appended. The size is chosen afterwards iff it was not before; duplicate-freedom is kept |
| FilterSidebar.ToggleTwiceRestoresAbsent | client/src/components/breed/FilterSidebar.tsx:139-143 | Two clicks on an unchosen size restore the list exactly |
| FilterSidebar.ToggleTwiceRestoresPresent | client/src/components/breed/FilterSidebar.tsx:139-143 | Two clicks on a chosen size of a duplicate-free list restore its contents, with that size moved to the end |
| FilterSidebar.ToggleTwiceCanReorder | client/src/components/breed/FilterSidebar.tsx:139-143 | ["large", "small"] clicked twice on "large" becomes ["small", "large"] |
| FilterSidebar.ClickSize | client/src/components/breed/FilterSidebar.tsx:139-143 | Only the size filter changes; the store invariant is kept |
| FilterSidebar.Preset | client/src/components/breed/FilterSidebar.tsx:64-78 | A preset exists exactly for "family-friendly" and "apartment-living" |
| FilterSidebar.HandleLoadSavedFilter | client/src/components/breed/FilterSidebar.tsx:62-83 | An unknown id changes nothing. A known preset is spread over the filters, a success toast names it, and nothing else in the store changes |
| FilterSidebar.LoadsFamilyFriendly | client/src/components/breed/FilterSidebar.tsx:64-82 | "family-friendly" sets size ["large"], good with children, energy 3 and experience "beginner", keeps every other filter, and toasts `"Family Friendly" filter applied` |
| FilterSidebar.LoadsApartmentLiving | client/src/components/breed/FilterSidebar.tsx:71-82 | "apartment-living" sets size ["small", "medium"], energy 2 and apartment-friendly, keeps every other filter, and toasts `"Apartment Living" filter applied` |
| FilterSidebar.LoadingPresetTwiceIsLoadingOnce | client/src/components/breed/FilterSidebar.tsx:62-83 | Loading a preset a second time leaves the filters unchanged |
| ResourceCard.FirstLettersAreWordStarts | client/src/components/resources/ResourceCard.tsx:17-20 | The first letters of the blank-separated words are exactly the non-blank characters that start the text or follow a blank; empty words contribute nothing |
| ResourceCard.WordStartsNonEmpty | client/src/components/resources/ResourceCard.tsx:17-20 | Word starts exist iff the text has a non-blank character |
| ResourceCard.AuthorInitials | client/src/components/resources/ResourceCard.tsx:15-23 | "A" for a missing or empty name. Otherwise at most two upper-cased word starts, empty exactly when the name is all blanks |
| ResourceCard.CategoryColor | client/src/components/resources/ResourceCard.tsx:34-47 | Decided on the lower-cased category: health and grooming mint, training mustard, nutrition lavender, anything else or missing grey |
| ResourceCard.CategoryColorIgnoresCase | client/src/components/resources/ResourceCard.tsx:35 | Categories that differ only in case get the same colour |

## Left out

- The network side of the ingestion (`fetchFromApi`, `getAllBreeds`, `getBreedImage`) is not modelled. The sync loop is stated for any row builder that names and numbers rows as `NewBreed` does; `BreedSync.RunSync` plugs `NewBreed` in. The image lookup is a function parameter that returns "" on failure; a failed feed fetch is an absent feed. Records whose processing throws are given as a set of names.
- Logging (`console.log`, `console.error`) is left out: it has no effect on state.
- server/storage.ts is not part of this model. The breed table is a map keyed by exact name (as `getBreedByName` compares names exactly). `createBreed` is assumed to assign the next serial id.
- server/openai.ts, server/routes.ts, Checkout, ProductCard, ProductGrid, Resources, Landing, Home, Products, Navigation, Footer and App are out of scope. They hold hosted-model calls, HTTP routing, payments, floating-point money, `localeCompare`/`Date` sorting and markup.
- Progress-bar widths and percentages are floating-point divisions and are not modelled.
- Strings are sequences of Unicode scalar values, not JavaScript's UTF-16 code units. `name[0]` and `slice(0, 2)` in `getAuthorInitials` (client/src/components/resources/ResourceCard.tsx:19-22) can split a surrogate pair such as an emoji in JavaScript; `ResourceCard.AuthorInitials` always takes whole characters.
- `Text.ToLower` and `Text.ToUpper` map ASCII letters only. JavaScript's full Unicode case mapping, which can change a string's length, is not modelled.
- `RangeParser.ParseRange` uses unbounded naturals. `parseInt` of a digit run beyond 2^53 loses precision in JavaScript, which the model does not reproduce.
- `RangeParser.ParseRange` stands for both `parseWeightRange` and `parseHeightRange`: the two functions are the same code.
- The store setters `setSelectedBreeds`, `setSearchQuery`, `setLoading` and `setCurrentPage` each assign one field and are not modelled.
- `Store.SetQuizResults` stores a list of match results. The source stores whatever the submit endpoint returns, and the results page reads `results.results || results`. Quiz answers (`Record<string, any>`) are strings.
- `Store.Merge`: a `Partial` argument is a record of optional fields. A key explicitly passed as `undefined`, which JavaScript's spread would copy, is treated as not supplied.
- `FilterSidebar.Preset` knows the two preset ids only. Inherited object keys such as "constructor", which JavaScript property lookup would also find, are not modelled.
- `FilterSidebar.ToggleTwiceRestoresPresent`: two clicks on a chosen size do not restore the exact list when that size is not last. The contract states the restored multiset and the exact result instead, and `FilterSidebar.ToggleTwiceCanReorder` gives an example.
- `QuizComponent.BuildPayload`: a signed-in user with an empty id sends neither id, because `user?.id || null` is null. The contract states this case as it is.
- The random session id, the mutation's pending flag and the submit request are parameters or separate outcomes (`SubmitSucceeded`, `SubmitFailed`), not modelled effects.
- `BreedComparison.HasCrown` compares ids as the code does. With duplicate ids, which the store's invariant rules out, several columns could wear the crown.
- The save and share mutations, clipboard access, saved-item toggling on the breed card, and `formatPublishDate` are not modelled: each is I/O or date formatting.
- The concrete keyword examples of the normalizer (e.g. "energetic, friendly") are covered by the general `TraitNormalizer.ScoreFromTraits` contract, not stated as separate literal lemmas.
