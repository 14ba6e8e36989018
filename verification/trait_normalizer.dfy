/**
 * The trait normalizer of the breed ingestion: keyword scoring of the
 * free-text temperament into 1..5 trait scores, the health score looked up
 * from the breed group, and four boolean compatibility flags.
 */
module TraitNormalizer {
  import opened Wrappers
  import opened Text
  import opened Seqs

  /** `Math.max(1, Math.min(5, v))`. */
  function Clamp(v: int): (r: int)
    ensures 1 <= r <= 5
    ensures 1 <= v <= 5 ==> r == v
    ensures v <= 1 ==> r == 1
    ensures v >= 5 ==> r == 5
  {
    if v > 5 then 5 else if v < 1 then 1 else v
  }

  /**
   * The `forEach` loop over a keyword list: starting from `score`, add
   * `delta` for every keyword of the list that `traits` includes.
   */
  function AddHits(traits: string, keywords: seq<string>, score: int, delta: int): int
    decreases |keywords|
  {
    if |keywords| == 0 then score
    else
      var next := if Contains(traits, keywords[0]) then score + delta else score;
      AddHits(traits, keywords[1..], next, delta)
  }

  /** How many entries of the keyword list `traits` includes. */
  function Hits(traits: string, keywords: seq<string>): nat
    decreases |keywords|
  {
    if |keywords| == 0 then 0
    else (if Contains(traits, keywords[0]) then 1 else 0) + Hits(traits, keywords[1..])
  }

  /** The loop adds `delta` once per keyword entry found. */
  lemma {:induction false} AddHitsIsLinear(traits: string, keywords: seq<string>, score: int, delta: int)
    ensures AddHits(traits, keywords, score, delta) == score + delta * Hits(traits, keywords)
    decreases |keywords|
  {
    if |keywords| > 0 {
      var next := if Contains(traits, keywords[0]) then score + delta else score;
      AddHitsIsLinear(traits, keywords[1..], next, delta);
      var h := Hits(traits, keywords[1..]);
      assert delta * (1 + h) == delta + delta * h;
    }
  }

  /** The keywords of the list that occur in `traits`. */
  ghost function HitSet(traits: string, keywords: seq<string>): set<string>
  {
    set k | k in keywords && Contains(traits, k)
  }

  /**
   * On a duplicate-free list the count is the number of distinct keywords
   * found: a keyword counts once however often it occurs in the text.
   */
  lemma {:induction false} HitsCountsKeywords(traits: string, keywords: seq<string>)
    requires NoDuplicates(keywords)
    ensures Hits(traits, keywords) == |HitSet(traits, keywords)|
    decreases |keywords|
  {
    if |keywords| > 0 {
      var k, rest := keywords[0], keywords[1..];
      assert NoDuplicates(rest);
      HitsCountsKeywords(traits, rest);
      assert k !in rest;
      if Contains(traits, k) {
        assert HitSet(traits, keywords) == {k} + HitSet(traits, rest);
        assert k !in HitSet(traits, rest);
      } else {
        assert HitSet(traits, keywords) == HitSet(traits, rest);
      }
    } else {
      assert HitSet(traits, keywords) == {};
    }
  }

  /** Text that contains no keyword of the list leaves the score unchanged. */
  lemma {:induction false} AddHitsNoneFound(traits: string, keywords: seq<string>, score: int, delta: int)
    requires forall i :: 0 <= i < |keywords| ==> !Contains(traits, keywords[i])
    ensures AddHits(traits, keywords, score, delta) == score
    decreases |keywords|
  {
    if |keywords| > 0 {
      AddHitsNoneFound(traits, keywords[1..], score, delta);
    }
  }

  /**
   * `scoreFromTraits`: 3, plus one per positive keyword included, minus one
   * per negative keyword included, clamped to 1..5.
   */
  function ScoreFromTraits(traits: string, positive: seq<string>, negative: seq<string>): (r: int)
    ensures 1 <= r <= 5
    ensures NoDuplicates(positive) && NoDuplicates(negative) ==>
              r == Clamp(3 + |HitSet(traits, positive)| - |HitSet(traits, negative)|)
  {
    var up := AddHits(traits, positive, 3, 1);
    var score := AddHits(traits, negative, up, -1);
    AddHitsIsLinear(traits, positive, 3, 1);
    AddHitsIsLinear(traits, negative, up, -1);
    assert NoDuplicates(positive) && NoDuplicates(negative) ==>
             Hits(traits, positive) == |HitSet(traits, positive)|
             && Hits(traits, negative) == |HitSet(traits, negative)| by {
      if NoDuplicates(positive) && NoDuplicates(negative) {
        HitsCountsKeywords(traits, positive);
        HitsCountsKeywords(traits, negative);
      }
    }
    Clamp(score)
  }

  // ---------------------------------------------------------------------------
  // The keyword table
  // ---------------------------------------------------------------------------

  const EnergyUp: seq<string> := ["energetic", "active", "lively"]
  const EnergyDown: seq<string> := ["calm", "gentle", "lazy"]
  const FriendlinessUp: seq<string> := ["friendly", "outgoing", "social"]
  const FriendlinessDown: seq<string> := ["aloof", "reserved", "aggressive"]
  const GroomingUp: seq<string> := ["long", "coat", "fluffy"]
  const GroomingDown: seq<string> := ["short", "smooth"]
  const TrainabilityUp: seq<string> := ["intelligent", "obedient", "eager"]
  const TrainabilityDown: seq<string> := ["stubborn", "independent"]
  const ExerciseUp: seq<string> := ["active", "energetic", "working"]
  const ExerciseDown: seq<string> := ["calm", "gentle"]
  const SheddingUp: seq<string> := ["double coat", "long"]
  const SheddingDown: seq<string> := ["short", "wire"]
  const BarkingUp: seq<string> := ["alert", "watchful"]
  const BarkingDown: seq<string> := ["quiet", "calm"]

  /** Every keyword list of the table. */
  function KeywordLists(): seq<seq<string>>
  {
    [EnergyUp, EnergyDown, FriendlinessUp, FriendlinessDown, GroomingUp, GroomingDown,
     TrainabilityUp, TrainabilityDown, ExerciseUp, ExerciseDown, SheddingUp, SheddingDown,
     BarkingUp, BarkingDown]
  }

  /** No entry of the keyword list is the empty string. */
  predicate NoEmptyKeyword(keywords: seq<string>)
  {
    forall i :: 0 <= i < |keywords| ==> |keywords[i]| > 0
  }

  /** Each pair of lists of the table holds only non-empty keywords. */
  lemma TableHasNoEmptyKeyword()
    ensures NoEmptyKeyword(EnergyUp) && NoEmptyKeyword(EnergyDown)
    ensures NoEmptyKeyword(FriendlinessUp) && NoEmptyKeyword(FriendlinessDown)
    ensures NoEmptyKeyword(GroomingUp) && NoEmptyKeyword(GroomingDown)
    ensures NoEmptyKeyword(TrainabilityUp) && NoEmptyKeyword(TrainabilityDown)
    ensures NoEmptyKeyword(ExerciseUp) && NoEmptyKeyword(ExerciseDown)
    ensures NoEmptyKeyword(SheddingUp) && NoEmptyKeyword(SheddingDown)
    ensures NoEmptyKeyword(BarkingUp) && NoEmptyKeyword(BarkingDown)
  {
  }

  /** Every list of the table is duplicate-free and holds only non-empty keywords. */
  lemma KeywordTableWellFormed()
    ensures forall i :: 0 <= i < |KeywordLists()| ==> NoDuplicates(KeywordLists()[i])
    ensures forall i, j :: 0 <= i < |KeywordLists()| && 0 <= j < |KeywordLists()[i]| ==> |KeywordLists()[i][j]| > 0
  {
  }

  // ---------------------------------------------------------------------------
  // Trait scores
  // ---------------------------------------------------------------------------

  datatype TraitScores = TraitScores(
    energyLevel: int,
    friendliness: int,
    groomingNeeds: int,
    trainability: int,
    healthIssues: int,
    exerciseNeeds: int,
    sheddingLevel: int,
    barkingLevel: int
  )

  /** All eight scores lie in 1..5. */
  predicate InRange(s: TraitScores)
  {
    && 1 <= s.energyLevel <= 5 && 1 <= s.friendliness <= 5 && 1 <= s.groomingNeeds <= 5
    && 1 <= s.trainability <= 5 && 1 <= s.healthIssues <= 5 && 1 <= s.exerciseNeeds <= 5
    && 1 <= s.sheddingLevel <= 5 && 1 <= s.barkingLevel <= 5
  }

  /** The seven keyword-scored traits all equal `v`. */
  predicate KeywordScoresAre(s: TraitScores, v: int)
  {
    && s.energyLevel == v && s.friendliness == v && s.groomingNeeds == v && s.trainability == v
    && s.exerciseNeeds == v && s.sheddingLevel == v && s.barkingLevel == v
  }

  /** `text?.toLowerCase() || ''`. */
  function Normalized(text: Option<string>): (r: string)
    ensures text.None? ==> r == ""
    ensures text.Some? ==> r == ToLower(text.value)
  {
    match text
    case None => ""
    case Some(t) => ToLower(t)
  }

  /**
   * `healthIssues`: 4 when the lower-cased group mentions "toy", otherwise 2
   * when it mentions "working", otherwise 3.
   */
  function HealthIssues(breedGroup: Option<string>): (r: int)
    ensures r == 4 <==> Contains(Normalized(breedGroup), "toy")
    ensures r == 2 <==> !Contains(Normalized(breedGroup), "toy") && Contains(Normalized(breedGroup), "working")
    ensures r == 3 || r == 2 || r == 4
  {
    var group := Normalized(breedGroup);
    if Contains(group, "toy") then 4 else if Contains(group, "working") then 2 else 3
  }

  /** `generateTraitScores`. */
  function GenerateTraitScores(temperament: Option<string>, breedGroup: Option<string>): (r: TraitScores)
    ensures InRange(r)
    ensures r.healthIssues == HealthIssues(breedGroup)
  {
    var traits := Normalized(temperament);
    TraitScores(
      ScoreFromTraits(traits, EnergyUp, EnergyDown),
      ScoreFromTraits(traits, FriendlinessUp, FriendlinessDown),
      ScoreFromTraits(traits, GroomingUp, GroomingDown),
      ScoreFromTraits(traits, TrainabilityUp, TrainabilityDown),
      HealthIssues(breedGroup),
      ScoreFromTraits(traits, ExerciseUp, ExerciseDown),
      ScoreFromTraits(traits, SheddingUp, SheddingDown),
      ScoreFromTraits(traits, BarkingUp, BarkingDown)
    )
  }

  /** With no keyword in the text the score is the neutral 3. */
  lemma NoKeywordIsNeutral(traits: string, positive: seq<string>, negative: seq<string>)
    requires forall i :: 0 <= i < |positive| ==> !Contains(traits, positive[i])
    requires forall i :: 0 <= i < |negative| ==> !Contains(traits, negative[i])
    ensures ScoreFromTraits(traits, positive, negative) == 3
  {
    AddHitsNoneFound(traits, positive, 3, 1);
    AddHitsNoneFound(traits, negative, 3, -1);
  }

  /**
   * An absent or empty temperament scores exactly 3 on every keyword-scored
   * trait, whatever the group.
   */
  lemma EmptyTemperamentIsNeutral(temperament: Option<string>, breedGroup: Option<string>)
    requires temperament.None? || temperament == Some("")
    ensures KeywordScoresAre(GenerateTraitScores(temperament, breedGroup), 3)
  {
    var t := Normalized(temperament);
    assert |t| == 0;
    TableHasNoEmptyKeyword();
    var r := GenerateTraitScores(temperament, breedGroup);
    assert r.energyLevel == 3 by { EmptyTextIsNeutral(t, EnergyUp, EnergyDown); }
    assert r.friendliness == 3 by { EmptyTextIsNeutral(t, FriendlinessUp, FriendlinessDown); }
    assert r.groomingNeeds == 3 by { EmptyTextIsNeutral(t, GroomingUp, GroomingDown); }
    assert r.trainability == 3 by { EmptyTextIsNeutral(t, TrainabilityUp, TrainabilityDown); }
    assert r.exerciseNeeds == 3 by { EmptyTextIsNeutral(t, ExerciseUp, ExerciseDown); }
    assert r.sheddingLevel == 3 by { EmptyTextIsNeutral(t, SheddingUp, SheddingDown); }
    assert r.barkingLevel == 3 by { EmptyTextIsNeutral(t, BarkingUp, BarkingDown); }
  }

  /** Every list of the table is duplicate-free, so each score counts distinct keywords found. */
  lemma TableHasNoDuplicates()
    ensures NoDuplicates(EnergyUp) && NoDuplicates(EnergyDown)
    ensures NoDuplicates(FriendlinessUp) && NoDuplicates(FriendlinessDown)
    ensures NoDuplicates(GroomingUp) && NoDuplicates(GroomingDown)
    ensures NoDuplicates(TrainabilityUp) && NoDuplicates(TrainabilityDown)
    ensures NoDuplicates(ExerciseUp) && NoDuplicates(ExerciseDown)
    ensures NoDuplicates(SheddingUp) && NoDuplicates(SheddingDown)
    ensures NoDuplicates(BarkingUp) && NoDuplicates(BarkingDown)
  {
  }

  /** The seven traits scored from keywords of the temperament. */
  datatype KeywordTrait = Energy | Friendliness | Grooming | Trainability | Exercise | Shedding | Barking

  /** The keywords that raise the trait's score. */
  function Raising(k: KeywordTrait): seq<string>
  {
    match k
    case Energy => EnergyUp
    case Friendliness => FriendlinessUp
    case Grooming => GroomingUp
    case Trainability => TrainabilityUp
    case Exercise => ExerciseUp
    case Shedding => SheddingUp
    case Barking => BarkingUp
  }

  /** The keywords that lower the trait's score. */
  function Lowering(k: KeywordTrait): seq<string>
  {
    match k
    case Energy => EnergyDown
    case Friendliness => FriendlinessDown
    case Grooming => GroomingDown
    case Trainability => TrainabilityDown
    case Exercise => ExerciseDown
    case Shedding => SheddingDown
    case Barking => BarkingDown
  }

  /** The field of the scores that holds the trait. */
  function ScoreOf(r: TraitScores, k: KeywordTrait): int
  {
    match k
    case Energy => r.energyLevel
    case Friendliness => r.friendliness
    case Grooming => r.groomingNeeds
    case Trainability => r.trainability
    case Exercise => r.exerciseNeeds
    case Shedding => r.sheddingLevel
    case Barking => r.barkingLevel
  }

  /**
   * Each keyword-scored trait is 3, plus one per distinct keyword of its
   * raising list found in the lower-cased temperament, minus one per
   * distinct keyword of its lowering list, clamped to 1..5.
   */
  lemma KeywordScoresOf(temperament: Option<string>, breedGroup: Option<string>, k: KeywordTrait)
    ensures var t := Normalized(temperament);
            ScoreOf(GenerateTraitScores(temperament, breedGroup), k)
              == Clamp(3 + |HitSet(t, Raising(k))| - |HitSet(t, Lowering(k))|)
  {
    TraitListsHaveNoDuplicates(k);
    TraitIsScoredFromItsLists(temperament, breedGroup, k);
  }

  /** Both lists of a keyword-scored trait are duplicate-free. */
  lemma TraitListsHaveNoDuplicates(k: KeywordTrait)
    ensures NoDuplicates(Raising(k)) && NoDuplicates(Lowering(k))
  {
    TableHasNoDuplicates();
  }

  /** `generateTraitScores` scores each keyword trait against its own pair of lists. */
  lemma TraitIsScoredFromItsLists(temperament: Option<string>, breedGroup: Option<string>, k: KeywordTrait)
    ensures ScoreOf(GenerateTraitScores(temperament, breedGroup), k)
         == ScoreFromTraits(Normalized(temperament), Raising(k), Lowering(k))
  {
  }

  /** Empty text holds no keyword, so every pair of non-empty keyword lists scores 3. */
  lemma EmptyTextIsNeutral(traits: string, positive: seq<string>, negative: seq<string>)
    requires |traits| == 0
    requires NoEmptyKeyword(positive) && NoEmptyKeyword(negative)
    ensures ScoreFromTraits(traits, positive, negative) == 3
  {
    forall i | 0 <= i < |positive| ensures !Contains(traits, positive[i]) {
      EmptyContainsNothing(positive[i]);
    }
    forall i | 0 <= i < |negative| ensures !Contains(traits, negative[i]) {
      EmptyContainsNothing(negative[i]);
    }
    NoKeywordIsNeutral(traits, positive, negative);
  }

  /** Matching ignores case: the text is lower-cased before any keyword is looked for. */
  lemma ScoresIgnoreCase(temperament: string, breedGroup: string)
    ensures GenerateTraitScores(Some(temperament), Some(breedGroup))
         == GenerateTraitScores(Some(ToLower(temperament)), Some(ToLower(breedGroup)))
  {
    ToLowerIdempotent(temperament);
    ToLowerIdempotent(breedGroup);
  }

  /** The health score depends on the breed group alone, never on the temperament. */
  lemma HealthIgnoresTemperament(t1: Option<string>, t2: Option<string>, breedGroup: Option<string>)
    ensures GenerateTraitScores(t1, breedGroup).healthIssues == GenerateTraitScores(t2, breedGroup).healthIssues
  {
  }

  // ---------------------------------------------------------------------------
  // Boolean compatibility flags
  // ---------------------------------------------------------------------------

  datatype BooleanTraits = BooleanTraits(
    goodWithChildren: bool,
    goodWithOtherDogs: bool,
    goodWithCats: bool,
    apartmentFriendly: bool
  )

  /** The breed group mentions "toy" or "non-sporting". */
  predicate SmallCompanionGroup(group: string)
  {
    Contains(group, "toy") || Contains(group, "non-sporting")
  }

  /** `generateBooleanTraits`. */
  function GenerateBooleanTraits(temperament: Option<string>, breedGroup: Option<string>): (r: BooleanTraits)
    ensures !Contains(Normalized(temperament), "aggressive") ==> r.goodWithOtherDogs
    ensures r.apartmentFriendly <==> SmallCompanionGroup(Normalized(breedGroup)) || Contains(Normalized(temperament), "calm")
    ensures r.goodWithCats && !SmallCompanionGroup(Normalized(breedGroup)) ==> r.goodWithChildren
    ensures Contains(Normalized(temperament), "friendly") ==> r.goodWithChildren && r.goodWithOtherDogs
    ensures Contains(Normalized(temperament), "gentle") || Contains(Normalized(temperament), "patient") ==> r.goodWithChildren
    ensures Contains(Normalized(temperament), "gentle") || SmallCompanionGroup(Normalized(breedGroup)) ==> r.goodWithCats
    ensures Contains(Normalized(temperament), "social") ==> r.goodWithOtherDogs
  {
    var traits := Normalized(temperament);
    var group := Normalized(breedGroup);
    BooleanTraits(
      Contains(traits, "gentle") || Contains(traits, "patient") || Contains(traits, "friendly"),
      Contains(traits, "social") || Contains(traits, "friendly") || !Contains(traits, "aggressive"),
      Contains(traits, "gentle") || Contains(group, "toy") || Contains(group, "non-sporting"),
      Contains(group, "toy") || Contains(group, "non-sporting") || Contains(traits, "calm")
    )
  }

  /**
   * An absent or empty temperament: not good with children, good with other
   * dogs, and the cat and apartment flags follow the group alone.
   */
  lemma EmptyTemperamentFlags(temperament: Option<string>, breedGroup: Option<string>)
    requires temperament.None? || temperament == Some("")
    ensures var r := GenerateBooleanTraits(temperament, breedGroup);
            && !r.goodWithChildren && r.goodWithOtherDogs
            && r.goodWithCats == SmallCompanionGroup(Normalized(breedGroup))
            && r.apartmentFriendly == SmallCompanionGroup(Normalized(breedGroup))
  {
    assert Normalized(temperament) == "";
    EmptyContainsNothing("gentle");
    EmptyContainsNothing("patient");
    EmptyContainsNothing("friendly");
    EmptyContainsNothing("aggressive");
    EmptyContainsNothing("calm");
  }

  /** Matching ignores case: the flags of any text equal those of its lower-cased form. */
  lemma FlagsIgnoreCase(temperament: string, breedGroup: string)
    ensures GenerateBooleanTraits(Some(temperament), Some(breedGroup))
         == GenerateBooleanTraits(Some(ToLower(temperament)), Some(ToLower(breedGroup)))
  {
    ToLowerIdempotent(temperament);
    ToLowerIdempotent(breedGroup);
  }

  /**
   * The children, cats and apartment flags only look for keywords, so more
   * temperament text never withdraws one of them.
   */
  lemma MoreTemperamentKeepsFlags(a: string, b: string, breedGroup: Option<string>)
    ensures var before := GenerateBooleanTraits(Some(a), breedGroup);
            var after := GenerateBooleanTraits(Some(a + b), breedGroup);
            && (before.goodWithChildren ==> after.goodWithChildren)
            && (before.goodWithCats ==> after.goodWithCats)
            && (before.apartmentFriendly ==> after.apartmentFriendly)
  {
    ToLowerAppend(a, b);
    var la, lb := ToLower(a), ToLower(b);
    if Contains(la, "gentle") { ContainsExtends(la, lb, "gentle"); }
    if Contains(la, "patient") { ContainsExtends(la, lb, "patient"); }
    if Contains(la, "friendly") { ContainsExtends(la, lb, "friendly"); }
    if Contains(la, "calm") { ContainsExtends(la, lb, "calm"); }
  }
}
