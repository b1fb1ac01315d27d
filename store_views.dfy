/** What the store queries of both servers return: a store with its rating
    aggregates and, for a viewer, the viewer's own rating; the owner
    dashboard with its list of raters; and the filters the queries apply. */
module StoreViews {
  import opened Common
  import opened Text
  import opened Records
  import opened Seqs
  import opened Aggregate
  import opened Db

  /** The viewer's own rating of a store: absent from the row (no viewer was
      given), `null` (the viewer has not rated the store), or the value. */
  datatype ViewerRating = NotRequested | NotRated | Rated(value: int)

  /** A store row enriched with `average_rating`/`averageRating`,
      `total_ratings`/`totalRatings` and `user_rating`/`userRating`. */
  datatype StoreView = StoreView(store: Store, averageRating: real, totalRatings: nat, userRating: ViewerRating)

  /** One entry of an owner dashboard's `raters`: the rater's id, name and
      email, the value and the rating's creation time. */
  datatype Rater = Rater(id: Id, name: Option<string>, email: Option<string>, rating: int, ratedAt: Timestamp)

  datatype OwnerDashboard = OwnerDashboard(store: Store, averageRating: real, totalRatings: nat, raters: seq<Rater>)

  function StoreOf(v: StoreView): Store {
    v.store
  }

  function Stores(vs: seq<StoreView>): seq<Store> {
    Map(vs, StoreOf)
  }

  /** The row's aggregates are the store's `AVG` (0 without ratings) and `COUNT`. */
  ghost predicate Aggregated(ratings: map<RatingKey, Rating>, v: StoreView) {
    v.averageRating == StoreAverage(ratings, v.store.id) && v.totalRatings == StoreCount(ratings, v.store.id)
  }

  /** `name LIKE '%n%' AND address LIKE '%a%'` (SQLite) or the same with
      ILIKE (PostgreSQL), each only when its filter is non-empty; a NULL
      address matches no address filter. */
  predicate MatchesStoreFilters(s: Store, name: string, address: string) {
    && (name == [] || ContainsNocase(s.name, name))
    && (address == [] || (s.address.Some? && ContainsNocase(s.address.value, address)))
  }

  function StoreFilter(name: string, address: string): Store -> bool {
    s => MatchesStoreFilters(s, name, address)
  }

  /** The viewer's rating of store `sid`, looked up by the pair. */
  function OwnRating(ratings: map<RatingKey, Rating>, userId: Id, sid: Id): ViewerRating {
    if (userId, sid) in ratings then Rated(ratings[(userId, sid)].value) else NotRated
  }

  /** `Object.fromEntries(pairs)`: later entries overwrite earlier ones. */
  function FromEntries(entries: seq<(Id, int)>): map<Id, int>
    decreases |entries|
  {
    if entries == [] then map[]
    else
      var last := entries[|entries| - 1];
      FromEntries(entries[..|entries| - 1])[last.0 := last.1]
  }

  /** The keys of the built object are the entries' keys, and where the keys
      are distinct each maps to its own entry's value. */
  lemma {:induction false} FromEntriesLookup(entries: seq<(Id, int)>)
    ensures forall x :: x in FromEntries(entries) <==> exists i :: 0 <= i < |entries| && entries[i].0 == x
    ensures (forall i, j :: 0 <= i < j < |entries| ==> entries[i].0 != entries[j].0) ==>
              forall i :: 0 <= i < |entries| ==> FromEntries(entries)[entries[i].0] == entries[i].1
    decreases |entries|
  {
    if entries != [] {
      var n := |entries| - 1;
      var front := entries[..n];
      FromEntriesLookup(front);
      forall x | x in FromEntries(entries)
        ensures exists i :: 0 <= i < |entries| && entries[i].0 == x
      {
        if x != entries[n].0 {
          assert x in FromEntries(front);
          var i :| 0 <= i < |front| && front[i].0 == x;
          assert entries[i].0 == x;
        }
      }
      forall x | exists i :: 0 <= i < |entries| && entries[i].0 == x
        ensures x in FromEntries(entries)
      {
        var i :| 0 <= i < |entries| && entries[i].0 == x;
        if i < n {
          assert front[i].0 == x;
        }
      }
      if forall i, j :: 0 <= i < j < |entries| ==> entries[i].0 != entries[j].0 {
        forall i | 0 <= i < |entries|
          ensures FromEntries(entries)[entries[i].0] == entries[i].1
        {
          if i < n {
            assert front[i] == entries[i];
            assert entries[i].0 != entries[n].0;
          }
        }
      }
    }
  }

  function EntryOf(r: Rating): (Id, int) {
    (r.storeId, r.value)
  }

  /** The viewer's ratings name each store at most once. */
  lemma UserRowsDistinctStores(rows: seq<Rating>, ratings: map<RatingKey, Rating>, userId: Id)
    requires Lists(rows, ratings, UserKeys(ratings, userId))
    ensures forall i, j :: 0 <= i < j < |rows| ==> rows[i].storeId != rows[j].storeId
  {
    forall i, j | 0 <= i < j < |rows|
      ensures rows[i].storeId != rows[j].storeId
    {
      assert KeyOf(rows[i]) in UserKeys(ratings, userId) && KeyOf(rows[j]) in UserKeys(ratings, userId);
    }
  }

  /** The `store_id -> value` object the Express service builds from the
      viewer's ratings answers, for every store, exactly what the Nest
      service's per-store `findOne({ storeId, userId })` answers. */
  lemma RatingMapIsLookup(rows: seq<Rating>, ratings: map<RatingKey, Rating>, userId: Id, sid: Id)
    requires Lists(rows, ratings, UserKeys(ratings, userId))
    ensures var m := FromEntries(Map(rows, EntryOf));
      && (sid in m <==> (userId, sid) in ratings)
      && (sid in m ==> m[sid] == ratings[(userId, sid)].value)
  {
    var es := Map(rows, EntryOf);
    UserRowsDistinctStores(rows, ratings, userId);
    assert forall i, j :: 0 <= i < j < |es| ==> es[i].0 != es[j].0;
    FromEntriesLookup(es);
    if (userId, sid) in ratings {
      assert (userId, sid) in UserKeys(ratings, userId);
      var i :| 0 <= i < |rows| && KeyOf(rows[i]) == (userId, sid);
      assert es[i].0 == sid;
    }
    if sid in FromEntries(es) {
      var i :| 0 <= i < |es| && es[i].0 == sid;
      assert KeyOf(rows[i]) in UserKeys(ratings, userId);
      assert ratings[KeyOf(rows[i])] == rows[i];
    }
  }

  /** The rater entry of a rating: the rating's user joined in. */
  function RaterOf(users: map<Id, User>, r: Rating): Rater {
    if r.userId in users then
      Rater(r.userId, Some(users[r.userId].name), Some(users[r.userId].email), r.value, r.createdAt)
    else
      Rater(r.userId, None, None, r.value, r.createdAt)
  }

  function RaterMap(users: map<Id, User>): Rating -> Rater {
    r => RaterOf(users, r)
  }

  /** The raters of store `sid`: one per rating of the store. */
  ghost function RatersOf(users: map<Id, User>, ratings: map<RatingKey, Rating>, sid: Id): set<Rater> {
    Image(ratings, StoreKeys(ratings, sid), RaterMap(users))
  }

  /** Listing a store's ratings and joining in their users lists each rater
      exactly once: two ratings of one store come from two users. */
  lemma ListedRaters(rows: seq<Rating>, users: map<Id, User>, ratings: map<RatingKey, Rating>, sid: Id)
    requires KeyedByPair(ratings)
    requires Lists(rows, ratings, StoreKeys(ratings, sid))
    ensures multiset(Map(rows, RaterMap(users))) == multiset(RatersOf(users, ratings, sid))
    ensures |rows| == StoreCount(ratings, sid)
  {
    var ks := StoreKeys(ratings, sid);
    forall a, b | a in ks && b in ks && a != b
      ensures RaterMap(users)(ratings[a]) != RaterMap(users)(ratings[b])
    {
      assert KeyOf(ratings[a]) == a && KeyOf(ratings[b]) == b;
    }
    ListsMap(rows, ratings, ks, RaterMap(users));
  }
}
