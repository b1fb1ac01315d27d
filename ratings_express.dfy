/** `submitOrUpdate` of the Express server's ratings service: a missing store
    is refused with 404; otherwise the user's rating of the store is
    overwritten by `UPDATE ... WHERE id = existing.id` or created by an
    INSERT. The value range is not checked here: the route's validators
    check it, and the SQLite CHECK refuses what slips past them. The fresh
    uuid and the clock are parameters. */
module ExpressRatings {
  import opened Common
  import opened Records
  import opened Db
  import opened Ledger

  const STORE_NOT_FOUND: string := "Store not found"

  method SubmitOrUpdate(db: Database, userId: Id, storeId: Id, value: int, newId: Id, now: Timestamp)
    returns (r: Result<Rating>)
    requires db.Valid()
    modifies db
    ensures db.Valid()
    ensures db.users == old(db.users) && db.stores == old(db.stores)
    ensures storeId !in old(db.stores) ==> r == Err(Error(404, STORE_NOT_FOUND))
    ensures storeId in old(db.stores) ==>
      (r.Ok? <==> Accepted(db.dialect, old(db.users), old(db.stores), old(db.ratings), userId, storeId, value, newId, now))
    ensures r.Ok? ==> db.ratings == Upserted(old(db.ratings), userId, storeId, value, newId, now)
                      && r.value == db.ratings[(userId, storeId)]
    ensures r.Err? ==> db.ratings == old(db.ratings)
    ensures r.Err? && storeId in old(db.stores) ==> r.error == EngineError()
  {
    if storeId !in db.stores {
      return Err(Error(404, STORE_NOT_FOUND));
    }
    var k := (userId, storeId);
    if k in db.ratings {
      var existing := db.ratings[k];
      UpdateByIdIsUpsert(db.ratings, userId, storeId, value, newId, now);
      var w := db.UpdateRatingById(existing.id, value, now);
      if w.Err? {
        return Err(w.error);
      }
      r := Ok(db.ratings[k]);
    } else {
      var w := db.InsertRating(Rating(newId, userId, storeId, value, now, now));
      if w.Err? {
        return Err(w.error);
      }
      r := Ok(db.ratings[k]);
    }
  }
}
