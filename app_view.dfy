/**
 * The non-rendering logic of frontend/src/App.jsx: the listing sort
 * comparator, the sort-order and attribute toggles, the heatmap point
 * mapping and the request parameters. Listings are the JSON objects the
 * listings endpoint returns.
 */
module AppView {
  import opened JsValues
  import opened Sorting
  import Seqs

  /** The fields the sort menu offers. */
  datatype SortField = ListPriceField | BedsField | FullBathsField | SqftField | PricePerSqftField | HoaFeeField

  function FieldName(f: SortField): string
  {
    match f
    case ListPriceField => "list_price"
    case BedsField => "beds"
    case FullBathsField => "full_baths"
    case SqftField => "sqft"
    case PricePerSqftField => "price_per_sqft"
    case HoaFeeField => "hoa_fee"
  }

  /** The derived price per square foot: `list_price / sqft` when both are truthy, else 0. */
  function PricePerSqft(l: JsObject, parseNumber: string -> JsNum): JsNum
  {
    if Truthy(Get(l, "list_price")) && Truthy(Get(l, "sqft")) then
      Div(ToNumber(Get(l, "list_price"), parseNumber), ToNumber(Get(l, "sqft"), parseNumber))
    else Finite(0.0)
  }

  /**
   * The value the comparator compares: the derived price per square foot or
   * `Number(l[field])`, with NaN replaced by minus infinity.
   */
  function SortKey(l: JsObject, f: SortField, parseNumber: string -> JsNum): ExtReal
  {
    if f == PricePerSqftField then NaNAsNegInf(PricePerSqft(l, parseNumber))
    else NaNAsNegInf(ToNumber(Get(l, FieldName(f)), parseNumber))
  }

  predicate Descending(sortOrder: JsValue)
  {
    sortOrder != Str("asc")
  }

  /** The comparator passed to `Array.prototype.sort`. */
  function Compare(a: JsObject, b: JsObject, f: SortField, sortOrder: JsValue, parseNumber: string -> JsNum): (c: int)
    ensures c in {-1, 0, 1}
    ensures c == 0 <==> SortKey(a, f, parseNumber) == SortKey(b, f, parseNumber)
  {
    var ka, kb := SortKey(a, f, parseNumber), SortKey(b, f, parseNumber);
    if Lt(ka, kb) then (if sortOrder == Str("asc") then -1 else 1)
    else if Lt(kb, ka) then (if sortOrder == Str("asc") then 1 else -1)
    else 0
  }

  /** The comparator's key as a function value. */
  function ListingKey(f: SortField, parseNumber: string -> JsNum): JsObject -> ExtReal
  {
    l => SortKey(l, f, parseNumber)
  }

  /** `getSortedListings`: a sorted copy; `listings` itself is a value and is left as it was. */
  function SortedListings(listings: seq<JsObject>, f: SortField, sortOrder: JsValue, parseNumber: string -> JsNum)
    : (r: seq<JsObject>)
    ensures |r| == |listings|
    ensures multiset(r) == multiset(listings)
    ensures forall i, j :: 0 <= i < j < |r| ==> Compare(r[i], r[j], f, sortOrder, parseNumber) <= 0
  {
    var r := SortBy(listings, ListingKey(f, parseNumber), Descending(sortOrder));
    assert |r| == |listings| by {
      assert |multiset(r)| == |multiset(listings)|;
    }
    forall i, j | 0 <= i < j < |r| ensures Compare(r[i], r[j], f, sortOrder, parseNumber) <= 0 {
      CompareFollowsOrder(r[i], r[j], f, sortOrder, parseNumber);
    }
    r
  }

  /**
   * `Array.prototype.sort` is stable: listings whose keys tie keep the order
   * they arrived in.
   */
  lemma SortedListingsStable(listings: seq<JsObject>, f: SortField, sortOrder: JsValue, parseNumber: string -> JsNum, k: ExtReal)
    ensures Seqs.Filter(SortedListings(listings, f, sortOrder, parseNumber), KeyIs(ListingKey(f, parseNumber), k))
         == Seqs.Filter(listings, KeyIs(ListingKey(f, parseNumber), k))
  {
    SortByStable(listings, ListingKey(f, parseNumber), Descending(sortOrder), k);
  }

  /** The comparator puts `a` first exactly when `a`'s key may precede `b`'s in the chosen direction. */
  lemma CompareFollowsOrder(a: JsObject, b: JsObject, f: SortField, sortOrder: JsValue, parseNumber: string -> JsNum)
    ensures Compare(a, b, f, sortOrder, parseNumber) <= 0 <==>
      InOrder(SortKey(a, f, parseNumber), SortKey(b, f, parseNumber), Descending(sortOrder))
  {
  }

  /** The comparator is antisymmetric. */
  lemma CompareAntisymmetric(a: JsObject, b: JsObject, f: SortField, sortOrder: JsValue, parseNumber: string -> JsNum)
    ensures Compare(a, b, f, sortOrder, parseNumber) == -Compare(b, a, f, sortOrder, parseNumber)
  {
  }

  /** Ascending order puts smaller keys first; any other `sortOrder` puts larger keys first. */
  lemma SortDirection(listings: seq<JsObject>, f: SortField, sortOrder: JsValue, parseNumber: string -> JsNum, i: int, j: int)
    requires 0 <= i < j < |listings|
    ensures var r := SortedListings(listings, f, sortOrder, parseNumber);
      var ki, kj := SortKey(r[i], f, parseNumber), SortKey(r[j], f, parseNumber);
      (sortOrder == Str("asc") ==> Le(ki, kj)) && (sortOrder != Str("asc") ==> Le(kj, ki))
  {
    var r := SortedListings(listings, f, sortOrder, parseNumber);
    CompareFollowsOrder(r[i], r[j], f, sortOrder, parseNumber);
  }

  /** Without a truthy price and area the derived key is 0, not minus infinity. */
  lemma PricePerSqftMissingIsZero(l: JsObject, parseNumber: string -> JsNum)
    requires !Truthy(Get(l, "list_price")) || !Truthy(Get(l, "sqft"))
    ensures SortKey(l, PricePerSqftField, parseNumber) == Fin(0.0)
  {
  }

  /**
   * A missing or non-numeric field sorts as minus infinity: first when
   * ascending, last otherwise. A JSON `null` converts to 0 instead.
   */
  lemma MissingFieldSortsFirst(a: JsObject, b: JsObject, f: SortField, sortOrder: JsValue, parseNumber: string -> JsNum)
    requires f != PricePerSqftField
    requires FieldName(f) !in a || (a[FieldName(f)].Str? && parseNumber(a[FieldName(f)].s) == NaN)
    ensures SortKey(a, f, parseNumber) == NegInf
    ensures sortOrder == Str("asc") ==> Compare(a, b, f, sortOrder, parseNumber) <= 0
    ensures sortOrder != Str("asc") ==> Compare(a, b, f, sortOrder, parseNumber) >= 0
  {
  }

  lemma NullSortsAsZero(a: JsObject, f: SortField, parseNumber: string -> JsNum)
    requires f != PricePerSqftField
    requires Get(a, FieldName(f)) == Null
    ensures SortKey(a, f, parseNumber) == Fin(0.0)
  {
  }

  // ---------------------------------------------------------------------
  // State updates

  /** The updater of `toggleSortOrder`. */
  function ToggledSortOrder(prev: JsValue): (next: JsValue)
    ensures next in {Str("asc"), Str("desc")}
  {
    if prev == Str("asc") then Str("desc") else Str("asc")
  }

  /** On 'asc' and 'desc' the toggle swaps them and twice is the identity; any other value becomes 'asc'. */
  lemma ToggleSortOrderInvolution(prev: JsValue)
    ensures prev in {Str("asc"), Str("desc")} ==> ToggledSortOrder(ToggledSortOrder(prev)) == prev && ToggledSortOrder(prev) != prev
    ensures prev !in {Str("asc"), Str("desc")} ==> ToggledSortOrder(prev) == Str("asc")
  {
  }

  /** The updater of `toggleAttribute(key)`: `{...prev, [key]: !prev[key]}`. */
  function ToggledAttribute(prev: JsObject, key: string): (next: JsObject)
    ensures next.Keys == prev.Keys + {key}
    ensures next[key] == Bool(!Truthy(Get(prev, key)))
    ensures forall k :: k in prev && k != key ==> next[k] == prev[k]
  {
    prev[key := Bool(!Truthy(Get(prev, key)))]
  }

  /** Toggling a boolean flag twice restores it. */
  lemma ToggleAttributeTwice(prev: JsObject, key: string)
    requires key in prev && prev[key].Bool?
    ensures ToggledAttribute(ToggledAttribute(prev, key), key) == prev
  {
  }

  /** The sort order and the card attribute flags, as React state. */
  class AppState {
    var sortOrder: JsValue
    var visibleAttributes: JsObject

    constructor(sortOrder: JsValue, visibleAttributes: JsObject)
      ensures this.sortOrder == sortOrder && this.visibleAttributes == visibleAttributes
    {
      this.sortOrder := sortOrder;
      this.visibleAttributes := visibleAttributes;
    }

    method ToggleSortOrder()
      modifies this
      ensures sortOrder == ToggledSortOrder(old(sortOrder))
      ensures visibleAttributes == old(visibleAttributes)
    {
      sortOrder := ToggledSortOrder(sortOrder);
    }

    method ToggleAttribute(key: string)
      modifies this
      ensures visibleAttributes == ToggledAttribute(old(visibleAttributes), key)
      ensures sortOrder == old(sortOrder)
    {
      visibleAttributes := ToggledAttribute(visibleAttributes, key);
    }
  }

  // ---------------------------------------------------------------------
  // Heatmap data and request parameters

  predicate HasCoordinates(row: JsObject)
  {
    Truthy(Get(row, "latitude")) && Truthy(Get(row, "longitude"))
  }

  /** `price / 1,000,000`, or 0.5 without a truthy price. */
  function Intensity(row: JsObject, parseNumber: string -> JsNum): JsNum
  {
    if Truthy(Get(row, "list_price")) then Div(ToNumber(Get(row, "list_price"), parseNumber), Finite(1000000.0))
    else Finite(0.5)
  }

  function HeatPoint(row: JsObject, parseNumber: string -> JsNum): JsObject
  {
    map["latitude" := Get(row, "latitude"), "longitude" := Get(row, "longitude"),
        "intensity" := Num(Intensity(row, parseNumber))]
  }

  /** The `map` step: one heat point per kept row, in order. */
  function HeatPoints(kept: seq<JsObject>, parseNumber: string -> JsNum): (points: seq<JsObject>)
    ensures |points| == |kept|
    ensures forall i :: 0 <= i < |kept| ==> points[i] == HeatPoint(kept[i], parseNumber)
    ensures forall p :: p in points ==> exists row :: row in kept && p == HeatPoint(row, parseNumber)
    ensures forall row :: row in kept ==> HeatPoint(row, parseNumber) in points
  {
    var points := seq(|kept|, i requires 0 <= i < |kept| => HeatPoint(kept[i], parseNumber));
    assert forall p :: p in points ==> exists row :: row in kept && p == HeatPoint(row, parseNumber) by {
      forall p | p in points ensures exists row :: row in kept && p == HeatPoint(row, parseNumber) {
        var i :| 0 <= i < |points| && points[i] == p;
        assert kept[i] in kept;
      }
    }
    assert forall row :: row in kept ==> HeatPoint(row, parseNumber) in points by {
      forall row | row in kept ensures HeatPoint(row, parseNumber) in points {
        var i :| 0 <= i < |kept| && kept[i] == row;
        assert points[i] == HeatPoint(row, parseNumber);
      }
    }
    points
  }

  /** The heatmap points built from the metrics rows: one per row with coordinates, in order. */
  function HeatmapData(rows: seq<JsObject>, parseNumber: string -> JsNum): (points: seq<JsObject>)
    ensures |points| <= |rows|
    ensures |points| == |Seqs.Filter(rows, HasCoordinates)|
    ensures forall i :: 0 <= i < |points| ==> points[i] == HeatPoint(Seqs.Filter(rows, HasCoordinates)[i], parseNumber)
    ensures forall p :: p in points ==> exists row :: row in rows && HasCoordinates(row) && p == HeatPoint(row, parseNumber)
    ensures forall row :: row in rows && HasCoordinates(row) ==> HeatPoint(row, parseNumber) in points
  {
    var kept := Seqs.Filter(rows, HasCoordinates);
    assert forall row :: row in kept <==> row in rows && HasCoordinates(row) by {
      forall row ensures row in kept <==> row in rows && HasCoordinates(row) {
        Seqs.FilterMembership(rows, HasCoordinates, row);
      }
    }
    HeatPoints(kept, parseNumber)
  }

  /**
   * Every heat point is built from one row with coordinates: it carries that
   * row's coordinates, and as intensity the row's price over 1,000,000, or 0.5
   * when the row has no truthy price.
   */
  lemma HeatmapIntensity(rows: seq<JsObject>, parseNumber: string -> JsNum, p: JsObject)
    requires p in HeatmapData(rows, parseNumber)
    ensures Truthy(p["latitude"]) && Truthy(p["longitude"])
    ensures exists row ::
              && row in rows && HasCoordinates(row) && p == HeatPoint(row, parseNumber)
              && p["latitude"] == Get(row, "latitude") && p["longitude"] == Get(row, "longitude")
              && (Truthy(Get(row, "list_price")) ==>
                    p["intensity"] == Num(Div(ToNumber(Get(row, "list_price"), parseNumber), Finite(1000000.0))))
              && (!Truthy(Get(row, "list_price")) ==> p["intensity"] == Num(Finite(0.5)))
  {
  }

  /** The query parameters: the filters, plus `polygon` when a polygon is drawn. */
  function RequestParams(filters: JsObject, polygonWkt: JsValue): (params: JsObject)
    ensures Truthy(polygonWkt) ==> "polygon" in params && params["polygon"] == polygonWkt
    ensures !Truthy(polygonWkt) ==> params == filters
    ensures forall k :: k != "polygon" ==> (k in params <==> k in filters) && (k in filters ==> params[k] == filters[k])
  {
    if Truthy(polygonWkt) then filters["polygon" := polygonWkt] else filters
  }
}
