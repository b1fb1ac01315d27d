/** The rating ledger: one rating per (user, store) pair, which a new
    submission either overwrites or creates. `Upserted` is the table after a
    submission; the lemmas state what both rating services promise about it. */
module Ledger {
  import opened Records
  import opened Db

  /** The ratings table after `userId` submits `value` for `storeId` at time
      `now`: the pair's row takes the value and the timestamp, or a new row
      `newId` is added for the pair. */
  function Upserted(ratings: map<RatingKey, Rating>, userId: Id, storeId: Id, value: int,
                    newId: Id, now: Timestamp): map<RatingKey, Rating>
  {
    var k := (userId, storeId);
    if k in ratings then ratings[k := ratings[k].(value := value, updatedAt := now)]
    else ratings[k := Rating(newId, userId, storeId, value, now, now)]
  }

  /** The engine accepts the write a submission makes: the UPDATE passes the
      CHECK, or the INSERT passes every constraint. */
  predicate Accepted(d: Dialect, users: map<Id, User>, stores: map<Id, Store>, ratings: map<RatingKey, Rating>,
                     userId: Id, storeId: Id, value: int, newId: Id, now: Timestamp)
  {
    if (userId, storeId) in ratings then d == Sqlite ==> 1 <= value <= 5
    else CanInsertRating(d, users, stores, ratings, Rating(newId, userId, storeId, value, now, now))
  }

  /** Afterwards the pair has exactly one rating and it holds `value`. */
  lemma UpsertedHoldsValue(ratings: map<RatingKey, Rating>, userId: Id, storeId: Id, value: int, newId: Id, now: Timestamp)
    requires KeyedByPair(ratings)
    ensures var r := Upserted(ratings, userId, storeId, value, newId, now);
      && KeyedByPair(r)
      && (userId, storeId) in r && r[(userId, storeId)].value == value
      && forall k | k in r && r[k].userId == userId && r[k].storeId == storeId :: k == (userId, storeId)
  {
  }

  /** The ratings of every other pair are untouched. */
  lemma UpsertedOthersUnchanged(ratings: map<RatingKey, Rating>, userId: Id, storeId: Id, value: int,
                                newId: Id, now: Timestamp, k: RatingKey)
    requires k != (userId, storeId)
    ensures var r := Upserted(ratings, userId, storeId, value, newId, now);
      (k in r <==> k in ratings) && (k in ratings ==> r[k] == ratings[k])
  {
  }

  /** An existing rating keeps its id and creation time; a new one carries
      the fresh id, the pair and `now` as both timestamps. */
  lemma UpsertedIdentity(ratings: map<RatingKey, Rating>, userId: Id, storeId: Id, value: int, newId: Id, now: Timestamp)
    ensures var k := (userId, storeId);
      var r := Upserted(ratings, userId, storeId, value, newId, now);
      && (k in ratings ==> r[k].id == ratings[k].id && r[k].createdAt == ratings[k].createdAt && r[k].updatedAt == now)
      && (k !in ratings ==> r[k] == Rating(newId, userId, storeId, value, now, now))
  {
  }

  /** An update adds no row; an insert adds exactly one. */
  lemma UpsertedCount(ratings: map<RatingKey, Rating>, userId: Id, storeId: Id, value: int, newId: Id, now: Timestamp)
    ensures |Upserted(ratings, userId, storeId, value, newId, now)| ==
            |ratings| + (if (userId, storeId) in ratings then 0 else 1)
  {
    var k := (userId, storeId);
    var r := Upserted(ratings, userId, storeId, value, newId, now);
    if k in ratings {
      assert r.Keys == ratings.Keys;
    } else {
      assert r.Keys == ratings.Keys + {k};
    }
  }

  /** Two tables equal but for the `updated_at` of their rows. */
  predicate SameUpToUpdatedAt(a: map<RatingKey, Rating>, b: map<RatingKey, Rating>) {
    a.Keys == b.Keys && forall k | k in a :: a[k].(updatedAt := b[k].updatedAt) == b[k]
  }

  /** Submitting the same value twice leaves the table the first submission
      left, up to `updated_at`. */
  lemma UpsertedIdempotent(ratings: map<RatingKey, Rating>, userId: Id, storeId: Id, value: int,
                           id1: Id, t1: Timestamp, id2: Id, t2: Timestamp)
    ensures var once := Upserted(ratings, userId, storeId, value, id1, t1);
      SameUpToUpdatedAt(Upserted(once, userId, storeId, value, id2, t2), once)
  {
  }

  /** With distinct rating ids, the JavaScript service's `UPDATE ... WHERE id =
      existing.id` is the upsert of the existing pair. */
  lemma UpdateByIdIsUpsert(ratings: map<RatingKey, Rating>, userId: Id, storeId: Id, value: int, newId: Id, now: Timestamp)
    requires (userId, storeId) in ratings
    requires forall a, b | a in ratings && b in ratings && a != b :: ratings[a].id != ratings[b].id
    ensures UpdatedById(ratings, ratings[(userId, storeId)].id, value, now) ==
            Upserted(ratings, userId, storeId, value, newId, now)
  {
    var k := (userId, storeId);
    var u := UpdatedById(ratings, ratings[k].id, value, now);
    var r := Upserted(ratings, userId, storeId, value, newId, now);
    forall k' | k' in ratings
      ensures u[k'] == r[k']
    {
      if k' != k {
        assert ratings[k'].id != ratings[k].id;
      }
    }
  }

  /** When the engine accepts the write, the upserted table satisfies the
      schema again. */
  lemma UpsertedKeepsSchema(d: Dialect, users: map<Id, User>, stores: map<Id, Store>, ratings: map<RatingKey, Rating>,
                            userId: Id, storeId: Id, value: int, newId: Id, now: Timestamp)
    requires Schema(d, users, stores, ratings)
    requires Accepted(d, users, stores, ratings, userId, storeId, value, newId, now)
    ensures Schema(d, users, stores, Upserted(ratings, userId, storeId, value, newId, now))
  {
    var k := (userId, storeId);
    var r := Upserted(ratings, userId, storeId, value, newId, now);
    forall a, b | a in r && b in r && a != b
      ensures r[a].id != r[b].id
    {
      if a != k && b != k {
        assert r[a] == ratings[a] && r[b] == ratings[b];
      }
    }
  }
}
