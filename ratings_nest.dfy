/** `RatingsService.submitRating` of the Nest server: a value outside 1..5
    is refused with BadRequest before anything is read; otherwise the
    existing rating entity of the pair is given the new value and saved, or
    a new entity is created and saved. Saving an entity whose value did not
    change writes nothing, so its `updatedAt` stays. The store is not looked up: a rating
    of a missing store is refused by the foreign key, with 500. The value is
    the JSON number as given: a fractional value in range passes the check
    and is then refused by the integer column, with 500. The generated uuid
    and the clock are parameters. */
module NestRatings {
  import opened Common
  import opened Records
  import opened Db
  import opened Ledger

  const OUT_OF_RANGE: string := "Rating must be between 1 and 5"

  /** The pair's rating already holds `value`: `save` then finds no changed
      column and writes nothing, so not even `updatedAt` moves. */
  predicate HoldsAlready(ratings: map<RatingKey, Rating>, userId: Id, storeId: Id, value: real) {
    (userId, storeId) in ratings && ratings[(userId, storeId)].value as real == value
  }

  method SubmitRating(db: Database, userId: Id, storeId: Id, value: real, newId: Id, now: Timestamp)
    returns (r: Result<Rating>)
    requires db.Valid() && db.dialect == Postgres
    modifies db
    ensures db.Valid()
    ensures db.users == old(db.users) && db.stores == old(db.stores)
    ensures (value < 1.0 || value > 5.0) ==> r == Err(Error(400, OUT_OF_RANGE))
    ensures 1.0 <= value <= 5.0 && !IsWhole(value) ==> r == Err(EngineError())
    ensures 1.0 <= value <= 5.0 && IsWhole(value) ==>
      (r.Ok? <==> Accepted(db.dialect, old(db.users), old(db.stores), old(db.ratings), userId, storeId, value.Floor, newId, now))
    ensures 1.0 <= value <= 5.0 && r.Err? ==> r.error == EngineError()
    ensures r.Ok? ==> && IsWhole(value) && storeId in db.stores && (userId, storeId) in db.ratings
                      && r.value == db.ratings[(userId, storeId)] && r.value.value == value.Floor
    ensures r.Ok? && !HoldsAlready(old(db.ratings), userId, storeId, value) ==>
      db.ratings == Upserted(old(db.ratings), userId, storeId, value.Floor, newId, now)
    ensures 1.0 <= value <= 5.0 && HoldsAlready(old(db.ratings), userId, storeId, value) ==>
      r.Ok? && db.ratings == old(db.ratings)
    ensures r.Err? ==> db.ratings == old(db.ratings)
  {
    if value < 1.0 || value > 5.0 {
      return Err(Error(400, OUT_OF_RANGE));
    }
    if !IsWhole(value) {
      // `save` writes the number into the integer column, which refuses it
      return Err(EngineError());
    }
    var v := value.Floor;
    var k := (userId, storeId);
    if k in db.ratings {
      // `existing.value = value; save(existing)` updates the row by its primary key
      var existing := db.ratings[k];
      if existing.value == v {
        return Ok(existing);
      }
      UpdateByIdIsUpsert(db.ratings, userId, storeId, v, newId, now);
      var w := db.UpdateRatingById(existing.id, v, now);
      assert w.Ok?;  // a value in 1..5 passes every CHECK
      r := Ok(db.ratings[k]);
    } else {
      var w := db.InsertRating(Rating(newId, userId, storeId, v, now, now));
      if w.Err? {
        return Err(w.error);
      }
      r := Ok(db.ratings[k]);
    }
  }
}
