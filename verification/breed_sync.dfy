/**
 * The breed sync of the ingestion: for each record of the Dog API feed,
 * skip it when a breed of that exact name is stored, otherwise normalize it
 * and create one breed row. Storage is a map from name to row plus the next
 * serial id; the image lookup is a parameter; records whose processing
 * throws are given as a set of names.
 */
module BreedSync {
  import opened Wrappers
  import opened Text
  import opened Schema
  import opened RangeParser
  import opened TraitNormalizer

  datatype Measure = Measure(imperial: string, metric: string)
  datatype ApiImage = ApiImage(url: string)

  /** One raw record of the Dog API `/breeds` feed. */
  datatype ApiBreed = ApiBreed(
    id: int,
    name: string,
    bredFor: Option<string>,
    breedGroup: Option<string>,
    lifeSpan: Option<string>,
    temperament: Option<string>,
    origin: Option<string>,
    referenceImageId: Option<string>,
    image: Option<ApiImage>,
    weight: Option<Measure>,
    height: Option<Measure>
  )

  /** The stored breeds keyed by their unique name, and the next serial id. */
  datatype Catalog = Catalog(rows: map<string, Breed>, nextId: int)

  /** Every row is stored under its own name and row ids are distinct and below `nextId`. */
  ghost predicate WellFormed(c: Catalog)
  {
    && (forall n :: n in c.rows ==> c.rows[n].name == n && c.rows[n].id < c.nextId)
    && (forall n, m :: n in c.rows && m in c.rows && n != m ==> c.rows[n].id != c.rows[m].id)
  }

  /** `text || null`: an empty string is stored as null. */
  function TextOrNull(v: Option<string>): (r: Option<string>)
    ensures r.Some? ==> r == v && r.value != ""
    ensures r.None? ==> v.None? || v.value == ""
  {
    if v.Some? && v.value != "" then v else None
  }

  /** `n || null`: a parsed bound of 0 is stored as null. */
  function BoundOrNull(v: Option<nat>): (r: Option<int>)
    ensures r.Some? ==> v.Some? && r.value == v.value && r.value > 0
    ensures r.None? ==> v.None? || v.value == 0
  {
    if v.Some? && v.value != 0 then Some(v.value) else None
  }

  function MinOf(r: Option<Range>): Option<nat>
  {
    if r.Some? then Some(r.value.min) else None
  }

  function MaxOf(r: Option<Range>): Option<nat>
  {
    if r.Some? then Some(r.value.max) else None
  }

  /** `measure?.metric`. */
  function Metric(m: Option<Measure>): Option<string>
  {
    if m.Some? then Some(m.value.metric) else None
  }

  /**
   * The image URL: fetched by reference id when the record has one (the
   * fetch yields "" on failure), otherwise the inline image URL; empty means null.
   */
  function ImageUrl(rec: ApiBreed, fetchImage: string -> string): (r: Option<string>)
    ensures TruthyText(rec.referenceImageId) ==> r == TextOrNull(Some(fetchImage(rec.referenceImageId.value)))
    ensures !TruthyText(rec.referenceImageId) && rec.image.Some? ==> r == TextOrNull(Some(rec.image.value.url))
    ensures !TruthyText(rec.referenceImageId) && rec.image.None? ==> r.None?
  {
    var url :=
      if TruthyText(rec.referenceImageId) then fetchImage(rec.referenceImageId.value)
      else if rec.image.Some? && rec.image.value.url != "" then rec.image.value.url
      else "";
    TextOrNull(Some(url))
  }

  /** Every trait score of `b` is set and lies in 1..5. */
  predicate ScoresInRange(b: Breed)
  {
    && b.energyLevel.Some? && 1 <= b.energyLevel.value <= 5
    && b.friendliness.Some? && 1 <= b.friendliness.value <= 5
    && b.groomingNeeds.Some? && 1 <= b.groomingNeeds.value <= 5
    && b.trainability.Some? && 1 <= b.trainability.value <= 5
    && b.healthIssues.Some? && 1 <= b.healthIssues.value <= 5
    && b.exerciseNeeds.Some? && 1 <= b.exerciseNeeds.value <= 5
    && b.sheddingLevel.Some? && 1 <= b.sheddingLevel.value <= 5
    && b.barkingLevel.Some? && 1 <= b.barkingLevel.value <= 5
  }

  lemma ScoresInRangeMeansEveryTrait(b: Breed)
    requires ScoresInRange(b)
    ensures forall t: Trait :: TraitValue(b, t).Some? && 1 <= TraitValue(b, t).value <= 5
  {
  }

  /**
   * The row created for a new record (`breedData`), with serial id `id`:
   * the bounds are the parsed metric ranges with 0 stored as null, the
   * scores and flags are the normalizer's, and the texts are `|| null`'d.
   */
  function NewBreed(rec: ApiBreed, id: int, fetchImage: string -> string): (b: Breed)
    ensures b.id == id && b.name == rec.name && b.apiId == Some(IntToString(rec.id))
    ensures b.description == TextOrNull(rec.bredFor) && b.temperament == TextOrNull(rec.temperament)
    ensures b.origin == TextOrNull(rec.origin) && b.lifeSpan == TextOrNull(rec.lifeSpan)
    ensures b.imageUrl == ImageUrl(rec, fetchImage)
    ensures var w := ParseRange(Metric(rec.weight));
            b.weightMin == BoundOrNull(MinOf(w)) && b.weightMax == BoundOrNull(MaxOf(w))
    ensures var h := ParseRange(Metric(rec.height));
            b.heightMin == BoundOrNull(MinOf(h)) && b.heightMax == BoundOrNull(MaxOf(h))
    ensures ParseRange(Metric(rec.weight)).None? ==> b.weightMin.None? && b.weightMax.None?
    ensures ParseRange(Metric(rec.height)).None? ==> b.heightMin.None? && b.heightMax.None?
    ensures b.weightMin.Some? ==> b.weightMin.value > 0
    ensures b.weightMax.Some? ==> b.weightMax.value > 0
    ensures b.heightMin.Some? ==> b.heightMin.value > 0
    ensures b.heightMax.Some? ==> b.heightMax.value > 0
    ensures var t := GenerateTraitScores(rec.temperament, rec.breedGroup);
            && b.energyLevel == Some(t.energyLevel) && b.friendliness == Some(t.friendliness)
            && b.groomingNeeds == Some(t.groomingNeeds) && b.trainability == Some(t.trainability)
            && b.healthIssues == Some(t.healthIssues) && b.exerciseNeeds == Some(t.exerciseNeeds)
            && b.sheddingLevel == Some(t.sheddingLevel) && b.barkingLevel == Some(t.barkingLevel)
    ensures var f := GenerateBooleanTraits(rec.temperament, rec.breedGroup);
            && b.goodWithChildren == Some(f.goodWithChildren) && b.goodWithOtherDogs == Some(f.goodWithOtherDogs)
            && b.goodWithCats == Some(f.goodWithCats) && b.apartmentFriendly == Some(f.apartmentFriendly)
    ensures ScoresInRange(b)
    ensures b.aiSummary.None? && b.prosAndCons.None?
  {
    var weight := ParseRange(Metric(rec.weight));
    var height := ParseRange(Metric(rec.height));
    var traits := GenerateTraitScores(rec.temperament, rec.breedGroup);
    var flags := GenerateBooleanTraits(rec.temperament, rec.breedGroup);
    Breed(
      id := id,
      name := rec.name,
      apiId := Some(IntToString(rec.id)),
      description := TextOrNull(rec.bredFor),
      temperament := TextOrNull(rec.temperament),
      origin := TextOrNull(rec.origin),
      lifeSpan := TextOrNull(rec.lifeSpan),
      weightMin := BoundOrNull(MinOf(weight)),
      weightMax := BoundOrNull(MaxOf(weight)),
      heightMin := BoundOrNull(MinOf(height)),
      heightMax := BoundOrNull(MaxOf(height)),
      imageUrl := ImageUrl(rec, fetchImage),
      energyLevel := Some(traits.energyLevel),
      friendliness := Some(traits.friendliness),
      groomingNeeds := Some(traits.groomingNeeds),
      trainability := Some(traits.trainability),
      healthIssues := Some(traits.healthIssues),
      exerciseNeeds := Some(traits.exerciseNeeds),
      sheddingLevel := Some(traits.sheddingLevel),
      barkingLevel := Some(traits.barkingLevel),
      goodWithChildren := Some(flags.goodWithChildren),
      goodWithOtherDogs := Some(flags.goodWithOtherDogs),
      goodWithCats := Some(flags.goodWithCats),
      apartmentFriendly := Some(flags.apartmentFriendly),
      aiSummary := None,
      prosAndCons := None
    )
  }

  /** The row builder of a sync: `NewBreed` with the given image lookup. */
  function Row(fetchImage: string -> string): (ApiBreed, int) -> Breed
  {
    (rec: ApiBreed, id: int) => NewBreed(rec, id, fetchImage)
  }

  /** `build` stores a record under the record's own name with the id it is given, as `NewBreed` does. */
  ghost predicate NamesAndNumbers(build: (ApiBreed, int) -> Breed)
  {
    forall rec, id :: build(rec, id).name == rec.name && build(rec, id).id == id
  }

  lemma RowNamesAndNumbers(fetchImage: string -> string)
    ensures NamesAndNumbers(Row(fetchImage))
  {
  }

  /**
   * One iteration of the sync loop. A stored name is skipped; a record whose
   * processing throws is logged and skipped; otherwise exactly one row, built
   * by `build`, is created under the record's name.
   */
  function SyncOne(c: Catalog, rec: ApiBreed, build: (ApiBreed, int) -> Breed, faults: set<string>): (r: Catalog)
    ensures rec.name in c.rows || rec.name in faults ==> r == c
    ensures rec.name !in c.rows && rec.name !in faults ==>
              r == Catalog(c.rows[rec.name := build(rec, c.nextId)], c.nextId + 1)
  {
    if rec.name in c.rows then c
    else if rec.name in faults then c
    else Catalog(c.rows[rec.name := build(rec, c.nextId)], c.nextId + 1)
  }

  /** One iteration keeps every stored row and adds at most the record's name. */
  lemma SyncOneKeepsRows(c: Catalog, rec: ApiBreed, build: (ApiBreed, int) -> Breed, faults: set<string>)
    ensures var r := SyncOne(c, rec, build, faults);
            && (forall n :: n in c.rows ==> n in r.rows && r.rows[n] == c.rows[n])
            && r.rows.Keys == c.rows.Keys + (if rec.name in faults then {} else {rec.name})
            && c.nextId <= r.nextId
  {
  }

  /** Inserting a row under its own, new name with id `nextId` and advancing `nextId` keeps the invariant. */
  lemma InsertPreservesWellFormed(c: Catalog, b: Breed)
    requires WellFormed(c)
    requires b.name !in c.rows && b.id == c.nextId
    ensures WellFormed(Catalog(c.rows[b.name := b], c.nextId + 1))
  {
  }

  lemma SyncOnePreservesWellFormed(c: Catalog, rec: ApiBreed, build: (ApiBreed, int) -> Breed, faults: set<string>)
    requires WellFormed(c) && NamesAndNumbers(build)
    ensures WellFormed(SyncOne(c, rec, build, faults))
  {
    if rec.name !in c.rows && rec.name !in faults {
      InsertPreservesWellFormed(c, build(rec, c.nextId));
    }
  }

  /** The names of the feed whose processing does not throw. */
  ghost function Processable(feed: seq<ApiBreed>, faults: set<string>): set<string>
  {
    set i | 0 <= i < |feed| && feed[i].name !in faults :: feed[i].name
  }

  lemma ProcessableCons(feed: seq<ApiBreed>, faults: set<string>)
    requires |feed| > 0
    ensures Processable(feed, faults) ==
      (if feed[0].name in faults then {} else {feed[0].name}) + Processable(feed[1..], faults)
  {
    forall n | n in Processable(feed, faults)
      ensures n in (if feed[0].name in faults then {} else {feed[0].name}) + Processable(feed[1..], faults)
    {
      var i :| 0 <= i < |feed| && feed[i].name !in faults && feed[i].name == n;
      if i > 0 {
        assert feed[1..][i - 1] == feed[i];
      }
    }
    forall n | n in Processable(feed[1..], faults)
      ensures n in Processable(feed, faults)
    {
      var i :| 0 <= i < |feed[1..]| && feed[1..][i].name !in faults && feed[1..][i].name == n;
      assert feed[i + 1] == feed[1..][i];
    }
  }

  /** The loop of `syncBreeds` over the fetched feed, one record after another. */
  function SyncBreeds(c: Catalog, feed: seq<ApiBreed>, build: (ApiBreed, int) -> Breed, faults: set<string>): (r: Catalog)
    ensures c.rows.Keys <= r.rows.Keys
    ensures c.nextId <= r.nextId
    ensures |feed| == 0 ==> r == c
    decreases |feed|
  {
    if |feed| == 0 then c
    else SyncBreeds(SyncOne(c, feed[0], build, faults), feed[1..], build, faults)
  }

  /**
   * Stored rows are never changed by a sync; afterwards every processable
   * name of the feed is stored; nothing else is added.
   */
  lemma {:induction false} SyncKeepsRows(c: Catalog, feed: seq<ApiBreed>, build: (ApiBreed, int) -> Breed, faults: set<string>)
    ensures var r := SyncBreeds(c, feed, build, faults);
            && (forall n :: n in c.rows ==> n in r.rows && r.rows[n] == c.rows[n])
            && r.rows.Keys == c.rows.Keys + Processable(feed, faults)
            && c.nextId <= r.nextId
    decreases |feed|
  {
    if |feed| == 0 {
      assert Processable(feed, faults) == {};
    } else {
      var next := SyncOne(c, feed[0], build, faults);
      SyncOneKeepsRows(c, feed[0], build, faults);
      SyncKeepsRows(next, feed[1..], build, faults);
      ProcessableCons(feed, faults);
    }
  }

  /** `feed[i]` is the first record of the feed named `n`. */
  ghost predicate FirstWithName(feed: seq<ApiBreed>, i: int, n: string)
  {
    0 <= i < |feed| && feed[i].name == n && forall j :: 0 <= j < i ==> feed[j].name != n
  }

  /**
   * Every row that `r` holds and `c` did not was built by `build` from the
   * first record of the feed with that name, which did not throw, with an
   * id handed out during the run.
   */
  ghost predicate BuiltFromFeed(c: Catalog, r: Catalog, feed: seq<ApiBreed>, build: (ApiBreed, int) -> Breed, faults: set<string>)
  {
    forall n :: n in r.rows && n !in c.rows ==>
      && n !in faults
      && exists i, id :: FirstWithName(feed, i, n) && c.nextId <= id < r.nextId && r.rows[n] == build(feed[i], id)
  }

  /** Each new row of a sync is the builder's row for the first record of its name. */
  lemma {:induction false} SyncBuildsNewRows(c: Catalog, feed: seq<ApiBreed>, build: (ApiBreed, int) -> Breed, faults: set<string>)
    ensures BuiltFromFeed(c, SyncBreeds(c, feed, build, faults), feed, build, faults)
    decreases |feed|
  {
    if |feed| > 0 {
      var next := SyncOne(c, feed[0], build, faults);
      var r := SyncBreeds(c, feed, build, faults);
      assert r == SyncBreeds(next, feed[1..], build, faults);
      SyncBuildsNewRows(next, feed[1..], build, faults);
      SyncKeepsRows(next, feed[1..], build, faults);
      forall n | n in r.rows && n !in c.rows
        ensures n !in faults
        ensures exists i, id :: FirstWithName(feed, i, n) && c.nextId <= id < r.nextId && r.rows[n] == build(feed[i], id)
      {
        if n in next.rows {
          assert n == feed[0].name && n !in faults;
          assert r.rows[n] == build(feed[0], c.nextId);
          assert FirstWithName(feed, 0, n);
        } else {
          var i, id :| FirstWithName(feed[1..], i, n) && next.nextId <= id < r.nextId
                       && r.rows[n] == build(feed[1..][i], id);
          assert feed[0].name != n;
          assert FirstWithName(feed, i + 1, n) by {
            forall j | 0 <= j < i + 1
              ensures feed[j].name != n
            {
              if j > 0 {
                assert feed[j] == feed[1..][j - 1];
              }
            }
          }
        }
      }
    }
  }

  /** A sync preserves the catalog invariant. */
  lemma {:induction false} SyncPreservesWellFormed(c: Catalog, feed: seq<ApiBreed>, build: (ApiBreed, int) -> Breed, faults: set<string>)
    requires WellFormed(c) && NamesAndNumbers(build)
    ensures WellFormed(SyncBreeds(c, feed, build, faults))
    decreases |feed|
  {
    if |feed| > 0 {
      var next := SyncOne(c, feed[0], build, faults);
      SyncOnePreservesWellFormed(c, feed[0], build, faults);
      SyncPreservesWellFormed(next, feed[1..], build, faults);
    }
  }

  /** A feed whose every name is stored or throws changes nothing. */
  lemma {:induction false} SyncOfKnownNamesIsNoop(c: Catalog, feed: seq<ApiBreed>, build: (ApiBreed, int) -> Breed, faults: set<string>)
    requires forall i :: 0 <= i < |feed| ==> feed[i].name in c.rows || feed[i].name in faults
    ensures SyncBreeds(c, feed, build, faults) == c
    decreases |feed|
  {
    if |feed| > 0 {
      SyncOfKnownNamesIsNoop(c, feed[1..], build, faults);
    }
  }

  /** Running the same feed a second time leaves the catalog as the first run left it. */
  lemma SyncIsIdempotent(c: Catalog, feed: seq<ApiBreed>, build: (ApiBreed, int) -> Breed, faults: set<string>)
    ensures var once := SyncBreeds(c, feed, build, faults);
            SyncBreeds(once, feed, build, faults) == once
  {
    var once := SyncBreeds(c, feed, build, faults);
    SyncKeepsRows(c, feed, build, faults);
    forall i | 0 <= i < |feed|
      ensures feed[i].name in once.rows || feed[i].name in faults
    {
      if feed[i].name !in faults {
        assert feed[i].name in Processable(feed, faults);
      }
    }
    SyncOfKnownNamesIsNoop(once, feed, build, faults);
  }

  /**
   * The loop runs the records one after another: syncing `a + b` is syncing
   * `a` and then `b`, so a record that throws does not stop the ones after it.
   */
  lemma {:induction false} SyncComposes(c: Catalog, a: seq<ApiBreed>, b: seq<ApiBreed>, build: (ApiBreed, int) -> Breed, faults: set<string>)
    ensures SyncBreeds(c, a + b, build, faults)
         == SyncBreeds(SyncBreeds(c, a, build, faults), b, build, faults)
    decreases |a|
  {
    if |a| == 0 {
      assert a + b == b;
    } else {
      assert (a + b)[0] == a[0];
      assert (a + b)[1..] == a[1..] + b;
      SyncComposes(SyncOne(c, a[0], build, faults), a[1..], b, build, faults);
    }
  }

  /** `syncBreeds` as a whole: a failed fetch of the feed is rethrown and stores nothing. */
  datatype SyncOutcome = Completed(catalog: Catalog) | FetchFailed

  /**
   * `syncBreeds` with the rows built by `NewBreed`: the sync stores every
   * processable new name, as the `NewBreed` row of the first record with that
   * name, leaves stored rows alone and keeps the invariant.
   */
  function RunSync(c: Catalog, fetched: Option<seq<ApiBreed>>, fetchImage: string -> string, faults: set<string>): (r: SyncOutcome)
    ensures fetched.None? <==> r.FetchFailed?
    ensures r.Completed? ==> r.catalog.rows.Keys == c.rows.Keys + Processable(fetched.value, faults)
    ensures r.Completed? ==> forall n :: n in c.rows ==> r.catalog.rows[n] == c.rows[n]
    ensures r.Completed? && WellFormed(c) ==> WellFormed(r.catalog)
    ensures r.Completed? ==>
              forall n :: n in r.catalog.rows && n !in c.rows ==>
                && n !in faults
                && exists i, id :: FirstWithName(fetched.value, i, n) && c.nextId <= id < r.catalog.nextId
                                   && r.catalog.rows[n] == NewBreed(fetched.value[i], id, fetchImage)
    ensures r.Completed? ==> forall n :: n in r.catalog.rows && n !in c.rows ==> ScoresInRange(r.catalog.rows[n])
  {
    match fetched
    case None => FetchFailed
    case Some(feed) =>
      SyncKeepsRows(c, feed, Row(fetchImage), faults);
      SyncBuildsNewRows(c, feed, Row(fetchImage), faults);
      assert WellFormed(c) ==> WellFormed(SyncBreeds(c, feed, Row(fetchImage), faults)) by {
        if WellFormed(c) {
          RowNamesAndNumbers(fetchImage);
          SyncPreservesWellFormed(c, feed, Row(fetchImage), faults);
        }
      }
      Completed(SyncBreeds(c, feed, Row(fetchImage), faults))
  }
}
