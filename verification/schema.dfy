/**
 * The records shared by the server and the client: a stored dog breed
 * (`breeds` table), the trait keys, and one quiz match as the client sees it.
 */
module Schema {
  import opened Wrappers

  /** `{pros: string[], cons: string[]}`, the JSON stored with a breed. */
  datatype ProsAndCons = ProsAndCons(pros: seq<string>, cons: seq<string>)

  /**
   * One row of the `breeds` table. Every nullable column is an Option; the
   * eight trait scores are integers that the ingestion keeps in 1..5.
   */
  datatype Breed = Breed(
    id: int,
    name: string,
    apiId: Option<string>,
    description: Option<string>,
    temperament: Option<string>,
    origin: Option<string>,
    lifeSpan: Option<string>,
    weightMin: Option<int>,
    weightMax: Option<int>,
    heightMin: Option<int>,
    heightMax: Option<int>,
    imageUrl: Option<string>,
    energyLevel: Option<int>,
    friendliness: Option<int>,
    groomingNeeds: Option<int>,
    trainability: Option<int>,
    healthIssues: Option<int>,
    exerciseNeeds: Option<int>,
    sheddingLevel: Option<int>,
    barkingLevel: Option<int>,
    goodWithChildren: Option<bool>,
    goodWithOtherDogs: Option<bool>,
    goodWithCats: Option<bool>,
    apartmentFriendly: Option<bool>,
    aiSummary: Option<string>,
    prosAndCons: Option<ProsAndCons>
  )

  /** The eight numeric trait columns of a breed. */
  datatype Trait =
    | EnergyLevel | Friendliness | GroomingNeeds | Trainability
    | HealthIssues | ExerciseNeeds | SheddingLevel | BarkingLevel

  /** `breed[traitKey]`: the value of one trait column. */
  function TraitValue(b: Breed, t: Trait): Option<int>
  {
    match t
    case EnergyLevel => b.energyLevel
    case Friendliness => b.friendliness
    case GroomingNeeds => b.groomingNeeds
    case Trainability => b.trainability
    case HealthIssues => b.healthIssues
    case ExerciseNeeds => b.exerciseNeeds
    case SheddingLevel => b.sheddingLevel
    case BarkingLevel => b.barkingLevel
  }

  /**
   * JavaScript truthiness of a `number | null` column: null and 0 are falsy,
   * every other integer is truthy.
   */
  predicate Truthy(v: Option<int>)
  {
    v.Some? && v.value != 0
  }

  /** JavaScript truthiness of a `string | null`: null and "" are falsy. */
  predicate TruthyText(v: Option<string>)
  {
    v.Some? && v.value != ""
  }

  /** One breed recommendation of a quiz result (`QuizResultBreed` without the attached breed). */
  datatype MatchResult = MatchResult(
    breedName: string,
    matchPercentage: int,
    reasoning: string,
    pros: seq<string>,
    cons: seq<string>
  )

  /** `comparedBreeds.some(b => b.id === id)`. */
  predicate HasId(bs: seq<Breed>, id: int)
  {
    exists i :: 0 <= i < |bs| && bs[i].id == id
  }

  /** No two breeds in the list share an id. */
  predicate UniqueIds(bs: seq<Breed>)
  {
    forall i, j :: 0 <= i < j < |bs| ==> bs[i].id != bs[j].id
  }
}
