/** The owner dashboards' client-side sort of the raters: a copy of the
    fetched array is sorted with a comparator that subtracts numbers and
    compares everything else as text, negated unless the order is `ASC`.
    A rater arrives as a JSON object; reading a field it lacks gives
    `undefined`. `localeCompare` is modelled as code-point order, and the
    engine's sort as a sort by the comparator's key. */
module ClientSort {
  import opened Common
  import opened Text
  import opened Ordering
  import opened Records
  import opened Seqs
  import opened StoreViews

  datatype Json = JNum(n: int) | JStr(s: string) | JNull | JUndefined

  type Row = map<string, Json>

  /** `row[name]`. */
  function Field(row: Row, name: string): Json {
    if name in row then row[name] else JUndefined
  }

  /** The decimal text of an integer, as `String(n)` writes it. */
  function DecimalString(n: int): string
    decreases if n < 0 then -n + 1 else n
  {
    if n < 0 then "-" + DecimalString(-n)
    else if n < 10 then [(('0' as int) + n) as char]
    else DecimalString(n / 10) + [(('0' as int) + n % 10) as char]
  }

  /** `String(v ?? '')`: the owner dashboard's text of a value. */
  function OwnerText(v: Json): string {
    match v
    case JNum(n) => DecimalString(n)
    case JStr(s) => s
    case _ => ""
  }

  /** `String(v)`: the store-owner dashboard's text of a value. */
  function StoreOwnerText(v: Json): string {
    match v
    case JNum(n) => DecimalString(n)
    case JStr(s) => s
    case JNull => "null"
    case JUndefined => "undefined"
  }

  /** The multiplier: +1 for `'ASC'`, -1 for anything else. */
  function Multiplier(sortOrder: string): (m: int)
    ensures m == 1 <==> sortOrder == "ASC"
    ensures m == 1 || m == -1
  {
    if sortOrder == "ASC" then 1 else -1
  }

  function DirectionOf(sortOrder: string): Direction {
    if sortOrder == "ASC" then Asc else Desc
  }

  /** The number the subtraction `av - bv` turns a right operand into:
      `null` and a blank string become 0, `undefined` and any other string
      become NaN (`None`). */
  function NumberOf(v: Json): Option<int> {
    match v
    case JNum(n) => Some(n)
    case JNull => Some(0)
    case JStr(s) => if Trim(s) == [] then Some(0) else None
    case JUndefined => None
  }

  /** The comparator `(a, b) => ...`. A number minus a value that does not
      convert yields NaN, which the sort reads as 0. */
  function Compare(a: Row, b: Row, sortBy: string, sortOrder: string, text: Json -> string): int {
    var av := Field(a, sortBy);
    var bv := Field(b, sortBy);
    if av.JNum? then
      match NumberOf(bv)
      case Some(n) => (av.n - n) * Multiplier(sortOrder)
      case None => 0
    else LexCmp(text(av), text(bv)) * Multiplier(sortOrder)
  }

  /** The value a row is compared by. */
  function RowKey(sortBy: string, text: Json -> string): Row -> SortKey {
    (r: Row) => var v := Field(r, sortBy); if v.JNum? then Num(v.n as real) else Str(text(v))
  }

  /** Every row holds a number in the field, or none does: then the
      comparator is a consistent order. */
  predicate SameKind(rows: seq<Row>, sortBy: string) {
    (forall i :: 0 <= i < |rows| ==> Field(rows[i], sortBy).JNum?)
    || (forall i :: 0 <= i < |rows| ==> !Field(rows[i], sortBy).JNum?)
  }

  lemma LexCmpNonPositive(a: string, b: string)
    ensures LexCmp(a, b) <= 0 <==> LexLe(a, b)
  {
    if LexLe(a, b) && LexCmp(a, b) > 0 {
      LexLeAntisymmetric(a, b);
    }
    if LexCmp(a, b) == 0 {
      LexLeReflexive(a);
    }
  }

  /** On two rows of the same kind, the comparator says "not after" exactly
      when the key order puts the first row first. */
  lemma CompareIsKeyOrder(a: Row, b: Row, sortBy: string, sortOrder: string, text: Json -> string)
    requires Field(a, sortBy).JNum? == Field(b, sortBy).JNum?
    ensures Compare(a, b, sortBy, sortOrder, text) <= 0 <==>
            Before(RowKey(sortBy, text)(a), RowKey(sortBy, text)(b), NullsLow, DirectionOf(sortOrder))
  {
    var av := Field(a, sortBy);
    var bv := Field(b, sortBy);
    if !av.JNum? {
      LexCmpNonPositive(text(av), text(bv));
      LexCmpNonPositive(text(bv), text(av));
      if LexCmp(text(av), text(bv)) < 0 {
        assert LexCmp(text(bv), text(av)) > 0 || LexCmp(text(bv), text(av)) < 0;
      }
      if LexCmp(text(bv), text(av)) < 0 && LexCmp(text(av), text(bv)) < 0 {
        LexLeAntisymmetric(text(av), text(bv));
      }
    }
  }

  /** Copies the array and sorts the copy: the fetched array is not
      reordered, the copy holds the same raters, and when the sorted field
      holds values of one kind the comparator never puts a row after a
      later one. */
  method SortedCopy(raters: array<Row>, sortBy: string, sortOrder: string, text: Json -> string)
    returns (sorted: array<Row>)
    ensures fresh(sorted)
    ensures multiset(sorted[..]) == multiset(raters[..])
    ensures SameKind(raters[..], sortBy) ==>
      forall i, j :: 0 <= i < j < sorted.Length ==> Compare(sorted[i], sorted[j], sortBy, sortOrder, text) <= 0
  {
    var rows := SortRows(raters[..], RowKey(sortBy, text), NullsLow, DirectionOf(sortOrder));
    sorted := new Row[|rows|](i requires 0 <= i < |rows| => rows[i]);
    assert sorted[..] == rows;
    if SameKind(raters[..], sortBy) {
      forall i, j | 0 <= i < j < sorted.Length
        ensures Compare(sorted[i], sorted[j], sortBy, sortOrder, text) <= 0
      {
        assert sorted[i] in multiset(raters[..]) && sorted[j] in multiset(raters[..]);
        var p :| 0 <= p < raters.Length && raters[p] == sorted[i];
        var q :| 0 <= q < raters.Length && raters[q] == sorted[j];
        CompareIsKeyOrder(sorted[i], sorted[j], sortBy, sortOrder, text);
      }
    }
  }

  /** The JSON object of an Express dashboard rater
      (`u.id, u.name, u.email, r.value AS rating, r.created_at AS rated_at`). */
  function ExpressRow(r: Rater): Row {
    map["id" := JStr(r.id),
        "name" := (if r.name.Some? then JStr(r.name.value) else JNull),
        "email" := (if r.email.Some? then JStr(r.email.value) else JNull),
        "rating" := JNum(r.rating),
        "rated_at" := JStr(r.ratedAt)]
  }

  /** The JSON object of a Nest dashboard rater; a missing user leaves
      `name` and `email` out. */
  function NestRow(r: Rater): Row {
    var base := map["id" := JStr(r.id), "rating" := JNum(r.rating), "ratedAt" := JStr(r.ratedAt)];
    if r.name.Some? && r.email.Some? then base["name" := JStr(r.name.value)]["email" := JStr(r.email.value)]
    else base
  }

  /** Every column a dashboard offers holds values of one kind across the
      raters a server sends, so the sort is by the comparator's order. */
  lemma ExpressRowsSameKind(raters: seq<Rater>, sortBy: string)
    ensures SameKind(Map(raters, ExpressRow), sortBy)
  {
    var rows := Map(raters, ExpressRow);
    if sortBy != "rating" {
      forall i | 0 <= i < |rows| ensures !Field(rows[i], sortBy).JNum? {
        assert rows[i] == ExpressRow(raters[i]);
      }
    } else {
      forall i | 0 <= i < |rows| ensures Field(rows[i], sortBy).JNum? {
        assert rows[i] == ExpressRow(raters[i]);
      }
    }
  }

  lemma NestRowsSameKind(raters: seq<Rater>, sortBy: string)
    ensures SameKind(Map(raters, NestRow), sortBy)
  {
    var rows := Map(raters, NestRow);
    if sortBy != "rating" {
      forall i | 0 <= i < |rows| ensures !Field(rows[i], sortBy).JNum? {
        assert rows[i] == NestRow(raters[i]);
      }
    } else {
      forall i | 0 <= i < |rows| ensures Field(rows[i], sortBy).JNum? {
        assert rows[i] == NestRow(raters[i]);
      }
    }
  }
}
