/** What the user queries of both servers share: the substring filters of a
    listing, and the dashboard counts. */
module UserViews {
  import opened Common
  import opened Text
  import opened Records
  import opened Aggregate
  import opened Db

  /** `col LIKE '%sub%'`: ASCII case-insensitive in SQLite, case-sensitive in
      PostgreSQL. */
  predicate LikeMatch(d: Dialect, s: string, sub: string) {
    if d == Sqlite then ContainsNocase(s, sub) else Contains(s, sub)
  }

  /** The conjunction of the given filters: substring tests on name, email
      and address, equality on role; an empty filter is not applied, and a
      NULL address matches no address filter. */
  predicate MatchesUserFilters(d: Dialect, u: User, name: string, email: string, address: string, role: string) {
    && (name == [] || LikeMatch(d, u.name, name))
    && (email == [] || LikeMatch(d, u.email, email))
    && (address == [] || (u.address.Some? && LikeMatch(d, u.address.value, address)))
    && (role == [] || u.role == role)
  }

  function UserFilter(d: Dialect, name: string, email: string, address: string, role: string): User -> bool {
    u => MatchesUserFilters(d, u, name, email, address, role)
  }

  /** `{ totalUsers, totalStores, totalRatings }`. */
  datatype Stats = Stats(totalUsers: nat, totalStores: nat, totalRatings: nat)

  /** The sizes of the three tables; the rating total is the sum of the
      stores' rating counts (`TotalRatingsAddUp`). */
  method DashboardStats(db: Database) returns (s: Stats)
    requires db.Valid()
    ensures s.totalUsers == |db.users| && s.totalStores == |db.stores| && s.totalRatings == |db.ratings|
    ensures s.totalRatings == CountsOver(db.ratings, db.stores.Keys)
  {
    TotalRatingsAddUp(db.ratings, db.stores.Keys);
    s := Stats(|db.users|, |db.stores|, |db.ratings|);
  }

  /** The sum of `StoreCount` over a set of stores. */
  ghost function CountsOver(ratings: map<RatingKey, Rating>, sids: set<Id>): nat
    decreases sids
  {
    if sids == {} then 0
    else
      var sid :| sid in sids;
      StoreCount(ratings, sid) + CountsOver(ratings, sids - {sid})
  }

  lemma {:induction false} CountsOverRemove(ratings: map<RatingKey, Rating>, sids: set<Id>, sid: Id)
    requires sid in sids
    ensures CountsOver(ratings, sids) == StoreCount(ratings, sid) + CountsOver(ratings, sids - {sid})
    decreases sids
  {
    var y :| y in sids && CountsOver(ratings, sids) == StoreCount(ratings, y) + CountsOver(ratings, sids - {y});
    if y != sid {
      CountsOverRemove(ratings, sids - {y}, sid);
      CountsOverRemove(ratings, sids - {sid}, y);
      assert sids - {y} - {sid} == sids - {sid} - {y};
    }
  }

  /** The ratings of the stores `sids`. */
  function KeysOfStores(ratings: map<RatingKey, Rating>, sids: set<Id>): set<RatingKey> {
    set k | k in ratings && k.1 in sids
  }

  lemma {:induction false} KeysOfStoresCount(ratings: map<RatingKey, Rating>, sids: set<Id>)
    ensures |KeysOfStores(ratings, sids)| == CountsOver(ratings, sids)
    decreases sids
  {
    if sids == {} {
      assert KeysOfStores(ratings, sids) == {};
    } else {
      var sid :| sid in sids;
      CountsOverRemove(ratings, sids, sid);
      KeysOfStoresCount(ratings, sids - {sid});
      assert KeysOfStores(ratings, sids) == KeysOfStores(ratings, sids - {sid}) + StoreKeys(ratings, sid);
      assert KeysOfStores(ratings, sids - {sid}) !! StoreKeys(ratings, sid);
    }
  }

  /** Every rating belongs to a stored store, so the number of ratings is
      the sum of every store's `total_ratings`. */
  lemma TotalRatingsAddUp(ratings: map<RatingKey, Rating>, sids: set<Id>)
    requires forall k | k in ratings :: k.1 in sids
    ensures |ratings| == CountsOver(ratings, sids)
  {
    KeysOfStoresCount(ratings, sids);
    assert KeysOfStores(ratings, sids) == ratings.Keys;
  }
}
