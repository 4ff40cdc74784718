/**
 * `ListingsViewSet` of backend/listings/views.py. A queryset is the sequence
 * of its rows plus the ordering requested so far; `get_queryset` threads it
 * through the polygon, bounding box, custom sort and ranking sort steps, each
 * a function from queryset to queryset. GEOS is a parameter: `isValidWkt`
 * says whether `GEOSGeometry` accepts a text and `within` is the
 * `location__within` test; Python's `float()` is `parseFloat`.
 */
module ListingQuery {
  import opened Wrappers
  import opened ListingModel
  import opened Sorting
  import Text
  import Seqs
  import ListingFilters

  /** The geometries the view builds: a parsed WKT text, or `Polygon.from_bbox`. */
  datatype Geometry = Wkt(text: string) | Bbox(minLon: real, minLat: real, maxLon: real, maxLat: real)

  datatype Geos = Geos(isValidWkt: string -> bool, within: (Point, Geometry) -> bool)

  /** The `order_by` a queryset carries. */
  datatype Ordering =
    | Unordered
    | ByCustomMetric(numerator: string, denominator: string, descending: bool)
    | ByRankingScore(descending: bool)

  datatype QuerySet = QuerySet(rows: seq<Listing>, ordering: Ordering)

  /** The score of a listing without a `RankingScore` row. */
  const DefaultRankingScore: real := 1000.0

  const MetricsLimit: nat := 2000

  /** The names of `CurrentListing._meta.get_fields()`: the listing columns and the implicit `id`. */
  const ValidFields: set<string> := {
    "id", "scrape_timestamp", "status", "property_url", "property_id", "listing_id", "permalink", "mls",
    "mls_id", "mls_status", "text", "style", "formatted_address", "location", "latitude", "longitude",
    "full_street_line", "street", "unit", "city", "state", "zip_code", "neighborhoods", "county",
    "fips_code", "beds", "full_baths", "half_baths", "sqft", "year_built", "days_on_mls", "stories",
    "new_construction", "lot_sqft", "primary_photo", "alt_photos", "list_price", "list_price_min",
    "list_price_max", "list_date", "pending_date", "sold_price", "last_sold_date", "last_sold_price",
    "assessed_value", "estimated_value", "tax", "tax_history", "price_per_sqft", "hoa_fee", "agent_id",
    "agent_name", "agent_email", "agent_phones", "agent_mls_set", "agent_nrds_id", "broker_id",
    "broker_name", "builder_id", "builder_name", "office_id", "office_mls_set", "office_name",
    "office_email", "office_phones", "nearby_schools", "parking_garage"
  }

  /** `request.query_params.get(name, None)`. */
  function Param(params: map<string, string>, name: string): Option<string>
  {
    if name in params then Some(params[name]) else None
  }

  /** The row's location lies within the geometry; a NULL location never does. */
  predicate Within(geos: Geos, g: Geometry, l: Listing)
  {
    l.location.Some? && geos.within(l.location.value, g)
  }

  /** `qs.filter(location__within=g)`. */
  function FilterWithin(qs: QuerySet, geos: Geos, g: Geometry): (r: QuerySet)
    ensures r.ordering == qs.ordering
    ensures |r.rows| <= |qs.rows|
    ensures forall l :: l in r.rows <==> l in qs.rows && Within(geos, g, l)
    ensures forall l :: multiset(r.rows)[l] <= multiset(qs.rows)[l]
  {
    var kept := Seqs.Filter(qs.rows, l => Within(geos, g, l));
    assert forall l :: l in kept <==> l in qs.rows && Within(geos, g, l) by {
      forall l ensures l in kept <==> l in qs.rows && Within(geos, g, l) {
        Seqs.FilterMembership(qs.rows, l => Within(geos, g, l), l);
      }
    }
    qs.(rows := kept)
  }

  /** The polygon step: a WKT that GEOS refuses is logged and ignored. */
  function ApplyPolygon(qs: QuerySet, polygon: Option<string>, geos: Geos): (r: QuerySet)
    ensures !TruthyText(polygon) || !geos.isValidWkt(polygon.value) ==> r == qs
    ensures TruthyText(polygon) && geos.isValidWkt(polygon.value) ==> r == FilterWithin(qs, geos, Wkt(polygon.value))
  {
    if TruthyText(polygon) && geos.isValidWkt(polygon.value) then FilterWithin(qs, geos, Wkt(polygon.value))
    else qs
  }

  /** `[float(x) for x in parts]`, or None when some part is not a float. */
  function ParseFloats(parts: seq<string>, parseFloat: string -> Option<real>): (r: Option<seq<real>>)
    ensures r.None? <==> exists i :: 0 <= i < |parts| && parseFloat(parts[i]).None?
    ensures r.Some? ==> |r.value| == |parts| && forall i :: 0 <= i < |parts| ==> parseFloat(parts[i]) == Some(r.value[i])
  {
    if |parts| == 0 then Some([])
    else
      match (parseFloat(parts[0]), ParseFloats(parts[1..], parseFloat))
      case (Some(x), Some(xs)) =>
        assert forall i :: 1 <= i < |parts| ==> parts[i] == parts[1..][i - 1];
        Some([x] + xs)
      case (None, _) => None
      case (_, None) =>
        var i :| 0 <= i < |parts[1..]| && parseFloat(parts[1..][i]).None?;
        assert parts[i + 1] == parts[1..][i];
        None
  }

  /** The bounding box a `bbox` text describes: exactly four comma-separated floats. */
  function BboxOf(bbox: string, parseFloat: string -> Option<real>): (g: Option<Geometry>)
    ensures g.Some? <==> |Text.Split(bbox, ',')| == 4 && ParseFloats(Text.Split(bbox, ','), parseFloat).Some?
    ensures g.Some? ==> g.value.Bbox? && var parts := Text.Split(bbox, ',');
      && parseFloat(parts[0]) == Some(g.value.minLon) && parseFloat(parts[1]) == Some(g.value.minLat)
      && parseFloat(parts[2]) == Some(g.value.maxLon) && parseFloat(parts[3]) == Some(g.value.maxLat)
  {
    match ParseFloats(Text.Split(bbox, ','), parseFloat)
    case Some(v) => if |v| == 4 then Some(Bbox(v[0], v[1], v[2], v[3])) else None
    case None => None
  }

  /** The bounding box step: any value but four floats is logged and ignored. */
  function ApplyBbox(qs: QuerySet, bbox: Option<string>, geos: Geos, parseFloat: string -> Option<real>): (r: QuerySet)
    ensures !TruthyText(bbox) || BboxOf(bbox.value, parseFloat).None? ==> r == qs
    ensures TruthyText(bbox) && BboxOf(bbox.value, parseFloat).Some? ==>
      r == FilterWithin(qs, geos, BboxOf(bbox.value, parseFloat).value)
  {
    if TruthyText(bbox) then
      match BboxOf(bbox.value, parseFloat)
      case Some(g) => FilterWithin(qs, geos, g)
      case None => qs
    else qs
  }

  /**
   * The custom sort step: `num/denom` with two known field names orders by
   * `num / denom`, descending exactly when `direction` is "desc"; anything
   * else is ignored (a text with two or more slashes fails to unpack).
   */
  function ApplyCustomSort(qs: QuerySet, customSort: Option<string>, direction: Option<string>): (r: QuerySet)
    ensures r.rows == qs.rows
    ensures r != qs ==> r.ordering.ByCustomMetric?
  {
    if TruthyText(customSort) && '/' in customSort.value then
      var parts := Text.Split(customSort.value, '/');
      if |parts| == 2 && parts[0] in ValidFields && parts[1] in ValidFields then
        qs.(ordering := ByCustomMetric(parts[0], parts[1], direction.GetOr("asc") == "desc"))
      else qs
    else qs
  }

  /** The ranking sort step: only "ranking_score" and "-ranking_score" are honoured. */
  function ApplyRankingSort(qs: QuerySet, sort: Option<string>): (r: QuerySet)
    ensures r.rows == qs.rows
    ensures sort == Some("ranking_score") ==> r.ordering == ByRankingScore(false)
    ensures sort == Some("-ranking_score") ==> r.ordering == ByRankingScore(true)
    ensures sort != Some("ranking_score") && sort != Some("-ranking_score") ==> r == qs
  {
    if sort == Some("ranking_score") then qs.(ordering := ByRankingScore(false))
    else if sort == Some("-ranking_score") then qs.(ordering := ByRankingScore(true))
    else qs
  }

  /** `get_queryset`: every listing, then the four steps in the order the view applies them. */
  function GetQueryset(all: seq<Listing>, params: map<string, string>, geos: Geos,
                       parseFloat: string -> Option<real>): QuerySet
  {
    var qs := QuerySet(all, Unordered);
    var qs := ApplyPolygon(qs, Param(params, "polygon"), geos);
    var qs := ApplyBbox(qs, Param(params, "bbox"), geos, parseFloat);
    var qs := ApplyCustomSort(qs, Param(params, "custom_sort"), Param(params, "direction"));
    ApplyRankingSort(qs, Param(params, "sort"))
  }

  /** `Coalesce(score, 1000.0)`: the stored score, or the default when there is none. */
  function FinalRankingScore(scores: map<int, real>, l: Listing): real
  {
    GetOrDefault(scores, l.id, DefaultRankingScore)
  }

  function RankingKey(scores: map<int, real>): Listing -> ExtReal
  {
    l => Fin(FinalRankingScore(scores, l))
  }

  /**
   * The rows in the order the database returns them. `metric` is the value
   * of the custom `num / denom` expression per row (the SQL arithmetic is
   * not modelled); an unordered queryset keeps the stored order.
   */
  function Evaluate(qs: QuerySet, scores: map<int, real>, metric: Listing -> ExtReal): (r: seq<Listing>)
    ensures multiset(r) == multiset(qs.rows)
    ensures qs.ordering.ByRankingScore? ==> SortedBy(r, RankingKey(scores), qs.ordering.descending)
    ensures qs.ordering.ByCustomMetric? ==> SortedBy(r, metric, qs.ordering.descending)
    ensures qs.ordering.Unordered? ==> r == qs.rows
  {
    match qs.ordering
    case Unordered => qs.rows
    case ByCustomMetric(_, _, descending) => SortBy(qs.rows, metric, descending)
    case ByRankingScore(descending) => SortBy(qs.rows, RankingKey(scores), descending)
  }

  /** One row of `values('latitude', 'longitude', 'list_price', 'sqft')`. */
  datatype MetricRow = MetricRow(latitude: Option<real>, longitude: Option<real>, listPrice: Option<real>, sqft: Option<real>)

  function MetricOf(l: Listing): MetricRow
  {
    MetricRow(l.latitude, l.longitude, l.listPrice, l.sqft)
  }

  /** `metrics`: the first 2000 rows of the filtered queryset, four columns each. */
  function Metrics(rows: seq<Listing>): (r: seq<MetricRow>)
    ensures |r| <= MetricsLimit
    ensures |r| == if |rows| < MetricsLimit then |rows| else MetricsLimit
    ensures forall i :: 0 <= i < |r| ==> r[i] == MetricOf(rows[i])
  {
    var n := if |rows| < MetricsLimit then |rows| else MetricsLimit;
    seq(n, i requires 0 <= i < n => MetricOf(rows[i]))
  }

  /**
   * The `metrics` endpoint: `get_queryset`, then the filter set, then the
   * projection of the first 2000 rows. On success the rows are, position by
   * position, the projections of the leading matching rows of the ordered
   * queryset, and each comes from a listing that survived the polygon and
   * bounding box steps and passes the filter set.
   */
  function MetricsEndpoint(all: seq<Listing>, params: map<string, string>, geos: Geos,
                           parseFloat: string -> Option<real>, parseDecimal: string -> Option<real>,
                           scores: map<int, real>, metric: Listing -> ExtReal): (r: Result<seq<MetricRow>, string>)
    ensures r.Failure? <==> !ListingFilters.WellFormed(params, parseDecimal)
    ensures r.Success? ==> |r.value| <= MetricsLimit
    ensures r.Success? ==>
      var kept := Seqs.Filter(Evaluate(GetQueryset(all, params, geos, parseFloat), scores, metric),
                              ListingFilters.MatchesParams(params, parseDecimal));
      && |r.value| == (if |kept| < MetricsLimit then |kept| else MetricsLimit)
      && forall i :: 0 <= i < |r.value| ==> r.value[i] == MetricOf(kept[i])
    ensures r.Success? ==> forall m :: m in r.value ==>
      exists l :: l in GetQueryset(all, params, geos, parseFloat).rows && ListingFilters.Matches(l, params, parseDecimal)
                  && m == MetricOf(l)
    ensures r.Success? ==> forall m :: m in r.value ==>
      exists l :: l in all && ListingFilters.Matches(l, params, parseDecimal) && m == MetricOf(l)
  {
    var qs := GetQueryset(all, params, geos, parseFloat);
    var ordered := Evaluate(qs, scores, metric);
    match ListingFilters.ApplyFilter(ordered, params, parseDecimal)
    case Failure(e) => Failure(e)
    case Success(kept) =>
      var r := Metrics(kept);
      EvaluatedRowsFromAll(all, params, geos, parseFloat, scores, metric);
      MetricsFromRows(kept);
      forall m | m in r
        ensures exists l :: l in qs.rows && ListingFilters.Matches(l, params, parseDecimal) && m == MetricOf(l)
        ensures exists l :: l in all && ListingFilters.Matches(l, params, parseDecimal) && m == MetricOf(l)
      {
        var l :| l in kept && m == MetricOf(l);
        assert l in ordered;
        assert l in multiset(qs.rows) by { assert l in multiset(ordered); }
      }
      Success(r)
  }

  lemma EvaluatedRowsFromAll(all: seq<Listing>, params: map<string, string>, geos: Geos,
                             parseFloat: string -> Option<real>, scores: map<int, real>, metric: Listing -> ExtReal)
    ensures forall l :: l in Evaluate(GetQueryset(all, params, geos, parseFloat), scores, metric) ==> l in all
  {
    var ordered := Evaluate(GetQueryset(all, params, geos, parseFloat), scores, metric);
    GetQuerysetRowsFromAll(all, params, geos, parseFloat);
    forall l | l in ordered ensures l in all {
      assert l in multiset(ordered);
    }
  }

  lemma MetricsFromRows(rows: seq<Listing>)
    ensures forall m :: m in Metrics(rows) ==> exists l :: l in rows && m == MetricOf(l)
  {
    var r := Metrics(rows);
    forall m | m in r ensures exists l :: l in rows && m == MetricOf(l) {
      var i :| 0 <= i < |r| && r[i] == m;
      assert rows[i] in rows;
    }
  }

  function TimestampKey(h: Listing): ExtReal
  {
    Fin(h.scrapeTimestamp as real)
  }

  /**
   * `history`: nothing for a listing without a `listing_id`; otherwise every
   * history row with that `listing_id`, oldest first.
   */
  function History(instance: Listing, history: seq<Listing>): (r: seq<Listing>)
    ensures !TruthyText(instance.listingId) ==> r == []
    ensures TruthyText(instance.listingId) ==> SortedBy(r, TimestampKey, false)
    ensures TruthyText(instance.listingId) ==>
      (forall h :: multiset(r)[h] == if h.listingId == instance.listingId then multiset(history)[h] else 0)
  {
    if !TruthyText(instance.listingId) then []
    else SortBy(Seqs.Filter(history, (h: Listing) => h.listingId == instance.listingId), TimestampKey, false)
  }

  /** How `get_object()` fails: a filter value that is not a number, no row with the key (404), or several. */
  datatype ObjectError = InvalidFilter | NotFound | MultipleFound

  /** The test of `pk=pk` on one row. */
  function HasId(pk: int): Listing -> bool
  {
    (l: Listing) => l.id == pk
  }

  /**
   * `get_object()`: the row with primary key `pk` of the filtered
   * `get_queryset()`. A `pk` the key column cannot convert is None; the
   * lookup's `ValueError` is then turned into a 404 like a missing row.
   */
  function GetObject(all: seq<Listing>, params: map<string, string>, geos: Geos,
                     parseFloat: string -> Option<real>, parseDecimal: string -> Option<real>, pk: Option<int>)
    : (r: Result<Listing, ObjectError>)
    ensures r == Failure(InvalidFilter) <==> !ListingFilters.WellFormed(params, parseDecimal)
    ensures r.Success? ==>
      && pk.Some? && r.value.id == pk.value
      && r.value in GetQueryset(all, params, geos, parseFloat).rows
      && ListingFilters.Matches(r.value, params, parseDecimal)
    ensures ListingFilters.WellFormed(params, parseDecimal) && pk.None? ==> r == Failure(NotFound)
    ensures ListingFilters.WellFormed(params, parseDecimal) && pk.Some? ==>
      var rows := GetQueryset(all, params, geos, parseFloat).rows;
      && (r == Failure(NotFound) <==>
            forall l :: l in rows && ListingFilters.Matches(l, params, parseDecimal) ==> l.id != pk.value)
      && (UniqueIds(rows) ==> r != Failure(MultipleFound))
    ensures ListingFilters.WellFormed(params, parseDecimal) && pk.Some? ==>
      var rows := GetQueryset(all, params, geos, parseFloat).rows;
      UniqueIds(rows) && (exists l :: l in rows && ListingFilters.Matches(l, params, parseDecimal) && l.id == pk.value)
      ==> r.Success?
  {
    var rows := GetQueryset(all, params, geos, parseFloat).rows;
    match ListingFilters.ApplyFilter(rows, params, parseDecimal)
    case Failure(_) => Failure(InvalidFilter)
    case Success(kept) =>
      if pk.None? then Failure(NotFound) else FindById(rows, kept, pk.value)
  }

  /** The `pk=pk` lookup on the filtered rows `kept`, drawn from `rows`. */
  function FindById(rows: seq<Listing>, kept: seq<Listing>, pk: int): (r: Result<Listing, ObjectError>)
    requires forall l :: multiset(kept)[l] <= multiset(rows)[l]
    ensures r.Success? ==> r.value in kept && r.value.id == pk
    ensures r.Failure? ==> r.error == NotFound || r.error == MultipleFound
    ensures r == Failure(NotFound) <==> forall l :: l in kept ==> l.id != pk
    ensures UniqueIds(rows) ==> r != Failure(MultipleFound)
  {
    var matching := Seqs.Filter(kept, HasId(pk));
    assert forall l :: l in matching <==> l in kept && l.id == pk by {
      forall l ensures l in matching <==> l in kept && l.id == pk {
        Seqs.FilterMembership(kept, HasId(pk), l);
      }
    }
    AtMostOneWithId(rows, kept, pk);
    if |matching| == 0 then Failure(NotFound)
    else if |matching| > 1 then Failure(MultipleFound)
    else
      assert matching[0] in matching;
      Success(matching[0])
  }

  /** In rows with distinct ids, at most one kept row carries a given id. */
  lemma AtMostOneWithId(rows: seq<Listing>, kept: seq<Listing>, pk: int)
    requires forall l :: multiset(kept)[l] <= multiset(rows)[l]
    ensures UniqueIds(rows) ==> |Seqs.Filter(kept, HasId(pk))| <= 1
  {
    var matching := Seqs.Filter(kept, HasId(pk));
    if UniqueIds(rows) && |matching| > 0 {
      var x := matching[0];
      assert x in multiset(matching);
      assert x in multiset(rows);
      forall l | l in matching ensures l == x {
        assert l in multiset(matching);
        assert l in multiset(rows);
        SameIdSameRow(rows, l, x);
      }
      AllEqualCount(matching, x);
      UniqueCount(rows, x);
    }
  }

  /** Two rows of a sequence with distinct ids that share an id are the same row. */
  lemma SameIdSameRow(rows: seq<Listing>, x: Listing, y: Listing)
    requires UniqueIds(rows)
    requires x in rows && y in rows && x.id == y.id
    ensures x == y
  {
    var i :| 0 <= i < |rows| && rows[i] == x;
    var j :| 0 <= j < |rows| && rows[j] == y;
  }

  /** A sequence all of whose elements are `x` holds `x` once per position. */
  lemma {:induction false} AllEqualCount(s: seq<Listing>, x: Listing)
    requires forall l :: l in s ==> l == x
    ensures multiset(s)[x] == |s|
  {
    if |s| > 0 {
      assert s == [s[0]] + s[1..];
      assert s[0] in s;
      forall l | l in s[1..] ensures l == x {
        var k :| 0 <= k < |s[1..]| && s[1..][k] == l;
        assert s[k + 1] in s;
      }
      AllEqualCount(s[1..], x);
    }
  }

  /** In rows with distinct ids every row occurs at most once. */
  lemma {:induction false} UniqueCount(rows: seq<Listing>, x: Listing)
    requires UniqueIds(rows)
    ensures multiset(rows)[x] <= 1
  {
    if |rows| > 0 {
      var front, last := rows[..|rows| - 1], rows[|rows| - 1];
      assert rows == front + [last];
      assert UniqueIds(front) by {
        forall i, j | 0 <= i < j < |front| ensures front[i].id != front[j].id {
          assert front[i] == rows[i] && front[j] == rows[j];
        }
      }
      UniqueCount(front, x);
      forall k | 0 <= k < |front| ensures front[k] != last {
        assert front[k] == rows[k];
      }
      assert last !in multiset(front);
    }
  }

  /**
   * The `history` endpoint: `get_object()`, then every history row with the
   * object's `listing_id`, oldest first, or nothing when it has none.
   */
  function HistoryEndpoint(all: seq<Listing>, params: map<string, string>, geos: Geos,
                           parseFloat: string -> Option<real>, parseDecimal: string -> Option<real>,
                           pk: Option<int>, history: seq<Listing>): (r: Result<seq<Listing>, ObjectError>)
    ensures r.Failure? <==> GetObject(all, params, geos, parseFloat, parseDecimal, pk).Failure?
    ensures r.Failure? ==> r.error == GetObject(all, params, geos, parseFloat, parseDecimal, pk).error
    ensures r.Success? ==>
      var instance := GetObject(all, params, geos, parseFloat, parseDecimal, pk).value;
      && pk.Some? && instance.id == pk.value
      && (!TruthyText(instance.listingId) ==> r.value == [])
      && (TruthyText(instance.listingId) ==>
            && SortedBy(r.value, TimestampKey, false)
            && (forall h :: h in r.value <==> h in history && h.listingId == instance.listingId)
            && forall h :: multiset(r.value)[h] == if h.listingId == instance.listingId then multiset(history)[h] else 0)
  {
    match GetObject(all, params, geos, parseFloat, parseDecimal, pk)
    case Failure(e) => Failure(e)
    case Success(instance) =>
      var r := History(instance, history);
      forall h ensures TruthyText(instance.listingId) ==> (h in r <==> h in history && h.listingId == instance.listingId) {
        if TruthyText(instance.listingId) {
          HistoryMembership(instance, history, h);
        }
      }
      Success(r)
  }

  // ---------------------------------------------------------------------
  // Properties of get_queryset

  /** The steps only drop rows: the result is a sub-multiset of all listings. */
  lemma GetQuerysetRowsFromAll(all: seq<Listing>, params: map<string, string>, geos: Geos,
                               parseFloat: string -> Option<real>)
    ensures multiset(GetQueryset(all, params, geos, parseFloat).rows) <= multiset(all)
  {
  }

  /** A polygon GEOS refuses leaves the queryset as it was. */
  lemma InvalidPolygonIgnored(qs: QuerySet, wkt: string, geos: Geos)
    requires !geos.isValidWkt(wkt)
    ensures ApplyPolygon(qs, Some(wkt), geos) == qs
  {
  }

  /**
   * A bbox other than four comma-separated floats is ignored; four floats
   * keep exactly the rows within `Polygon.from_bbox` of them.
   */
  lemma BboxNeedsFourFloats(qs: QuerySet, bbox: string, geos: Geos, parseFloat: string -> Option<real>)
    ensures var parts := Text.Split(bbox, ',');
      |parts| != 4 || (exists i :: 0 <= i < |parts| && parseFloat(parts[i]).None?) ==>
        ApplyBbox(qs, Some(bbox), geos, parseFloat) == qs
    ensures var parts := Text.Split(bbox, ',');
      |parts| == 4 && (forall i :: 0 <= i < 4 ==> parseFloat(parts[i]).Some?) ==>
        ApplyBbox(qs, Some(bbox), geos, parseFloat) ==
          FilterWithin(qs, geos, Bbox(parseFloat(parts[0]).value, parseFloat(parts[1]).value,
                                      parseFloat(parts[2]).value, parseFloat(parts[3]).value))
  {
    var parts := Text.Split(bbox, ',');
    if |parts| == 4 && (forall i :: 0 <= i < 4 ==> parseFloat(parts[i]).Some?) {
      assert bbox != "" by {
        assert Text.Split("", ',') == [""];
      }
      var g := BboxOf(bbox, parseFloat);
      assert g.Some?;
    }
  }

  /** A custom sort that takes effect was a text `num/denom` of two known fields. */
  lemma CustomSortNeedsTwoKnownFields(qs: QuerySet, customSort: string, direction: Option<string>)
    requires ApplyCustomSort(qs, Some(customSort), direction) != qs
    ensures var o := ApplyCustomSort(qs, Some(customSort), direction).ordering;
      && o.numerator in ValidFields && o.denominator in ValidFields
      && customSort == o.numerator + "/" + o.denominator
      && (o.descending <==> direction == Some("desc"))
  {
    var parts := Text.Split(customSort, '/');
    Text.JoinSplit(customSort, '/');
    assert Text.Join(parts, '/') == parts[0] + "/" + Text.Join(parts[1..], '/');
  }

  /** Two known field names joined by a slash do order the queryset by their quotient. */
  lemma CustomSortHonoured(qs: QuerySet, num: string, denom: string, direction: Option<string>)
    requires num in ValidFields && denom in ValidFields
    requires '/' !in num && '/' !in denom
    ensures ApplyCustomSort(qs, Some(num + "/" + denom), direction)
      == qs.(ordering := ByCustomMetric(num, denom, direction == Some("desc")))
  {
    var text := num + "/" + denom;
    assert Text.Join([num, denom], '/') == text;
    Text.SplitJoin([num, denom], '/');
    assert text[|num|] == '/';
  }

  /** Whatever `custom_sort` asked for, a ranking sort decides the final order. */
  lemma RankingSortComesLast(all: seq<Listing>, params: map<string, string>, geos: Geos,
                             parseFloat: string -> Option<real>)
    requires "sort" in params && params["sort"] in {"ranking_score", "-ranking_score"}
    ensures GetQueryset(all, params, geos, parseFloat).ordering == ByRankingScore(params["sort"] == "-ranking_score")
  {
  }

  /** Other `sort` values change nothing. */
  lemma OtherSortIgnored(qs: QuerySet, sort: string)
    requires sort != "ranking_score" && sort != "-ranking_score"
    ensures ApplyRankingSort(qs, Some(sort)) == qs
  {
  }

  /**
   * Under a ranking sort, listings come in order of their score, a listing
   * without a score standing where a score of 1000.0 would.
   */
  lemma RankingOrder(qs: QuerySet, sort: string, scores: map<int, real>, metric: Listing -> ExtReal, i: int, j: int)
    requires sort in {"ranking_score", "-ranking_score"}
    requires var r := Evaluate(ApplyRankingSort(qs, Some(sort)), scores, metric); 0 <= i < j < |r|
    ensures var r := Evaluate(ApplyRankingSort(qs, Some(sort)), scores, metric);
      && multiset(r) == multiset(qs.rows)
      && (r[i].id !in scores ==> FinalRankingScore(scores, r[i]) == 1000.0)
      && (sort == "ranking_score" ==> FinalRankingScore(scores, r[i]) <= FinalRankingScore(scores, r[j]))
      && (sort == "-ranking_score" ==> FinalRankingScore(scores, r[i]) >= FinalRankingScore(scores, r[j]))
  {
    var q := ApplyRankingSort(qs, Some(sort));
    var r := Evaluate(q, scores, metric);
    assert InOrder(RankingKey(scores)(r[i]), RankingKey(scores)(r[j]), q.ordering.descending);
  }

  /** Metrics never returns more than 2000 rows. */
  lemma MetricsBounded(rows: seq<Listing>)
    ensures |Metrics(rows)| <= 2000
  {
  }

  /** History rows are exactly the rows sharing the listing's `listing_id`. */
  lemma HistoryMembership(instance: Listing, history: seq<Listing>, h: Listing)
    requires TruthyText(instance.listingId)
    ensures h in History(instance, history) <==> h in history && h.listingId == instance.listingId
  {
    var r := History(instance, history);
    assert h in r <==> multiset(r)[h] > 0;
    assert h in history <==> multiset(history)[h] > 0;
  }
}
