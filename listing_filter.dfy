/**
 * `ListingFilter` of backend/listings/filters.py as a predicate over a
 * listing record. Query parameters arrive as text: a numeric filter reads its
 * value with `parseDecimal` (None for text that is not a number) and an empty
 * value counts as not supplied. An exact-match filter is a `CharFilter`, whose
 * form field strips the value first and skips it when nothing is left. A supplied bound on a NULL column fails, as
 * SQL comparisons with NULL do.
 */
module ListingFilters {
  import opened Wrappers
  import opened ListingModel
  import Seqs
  import Text

  /** The numeric columns the filter set compares. */
  datatype Column = ListPrice | Sqft | Beds | FullBaths | PricePerSqft

  datatype Lookup = Gte | Lte

  /** A `NumberFilter(field_name = column, lookup_expr = lookup)`. */
  datatype NumberFilter = NumberFilter(column: Column, lookup: Lookup)

  /** The exact-match fields of `Meta.fields`. */
  datatype ExactField = Status | City | ZipCode | State

  /** The numeric filter declared under the parameter `name`, if any. */
  function NumberFilterFor(name: string): Option<NumberFilter>
  {
    if name == "price_min" then Some(NumberFilter(ListPrice, Gte))
    else if name == "price_max" then Some(NumberFilter(ListPrice, Lte))
    else if name == "sqft_min" then Some(NumberFilter(Sqft, Gte))
    else if name == "sqft_max" then Some(NumberFilter(Sqft, Lte))
    else if name == "beds_min" then Some(NumberFilter(Beds, Gte))
    else if name == "beds_max" then Some(NumberFilter(Beds, Lte))
    else if name == "baths_min" then Some(NumberFilter(FullBaths, Gte))
    else if name == "baths_max" then Some(NumberFilter(FullBaths, Lte))
    else if name == "pps_min" then Some(NumberFilter(PricePerSqft, Gte))
    else if name == "pps_max" then Some(NumberFilter(PricePerSqft, Lte))
    else None
  }

  /** The query parameter of an exact-match field. */
  function ExactParam(f: ExactField): (p: string)
    ensures p in {"status", "city", "zip_code", "state"}
  {
    match f
    case Status => "status"
    case City => "city"
    case ZipCode => "zip_code"
    case State => "state"
  }

  /** The exact-match field of the parameter `name`, if any. */
  function ExactFieldFor(name: string): Option<ExactField>
  {
    if name == "status" then Some(Status)
    else if name == "city" then Some(City)
    else if name == "zip_code" then Some(ZipCode)
    else if name == "state" then Some(State)
    else None
  }

  function ColumnValue(l: Listing, c: Column): Option<real>
  {
    match c
    case ListPrice => l.listPrice
    case Sqft => l.sqft
    case Beds => l.beds
    case FullBaths => l.fullBaths
    case PricePerSqft => l.pricePerSqft
  }

  function ExactValue(l: Listing, f: ExactField): Option<string>
  {
    match f
    case Status => l.status
    case City => l.city
    case ZipCode => l.zipCode
    case State => l.state
  }

  /** A parameter with a non-empty value; an empty value is skipped like an absent one. */
  predicate Supplied(params: map<string, string>, name: string)
  {
    name in params && params[name] != ""
  }

  /** `column >= bound` or `column <= bound`; false on NULL. */
  predicate Compare(value: Option<real>, lookup: Lookup, bound: real)
  {
    value.Some? && (if lookup == Gte then value.value >= bound else value.value <= bound)
  }

  /** Every supplied numeric parameter is a number. */
  predicate WellFormed(params: map<string, string>, parseDecimal: string -> Option<real>)
  {
    forall name :: name in params && params[name] != "" && NumberFilterFor(name).Some? ==> parseDecimal(params[name]).Some?
  }

  /** The listing passes the filter of parameter `name` with value `text`; a parameter of no filter passes. */
  predicate PassesParam(l: Listing, name: string, text: string, parseDecimal: string -> Option<real>)
  {
    match NumberFilterFor(name)
    case Some(nf) => parseDecimal(text).Some? ==> Compare(ColumnValue(l, nf.column), nf.lookup, parseDecimal(text).value)
    case None =>
      match ExactFieldFor(name)
      case Some(f) => Text.Strip(text) != "" ==> ExactValue(l, f) == Some(Text.Strip(text))
      case None => true
  }

  /** The listing passes every supplied filter. */
  predicate Matches(l: Listing, params: map<string, string>, parseDecimal: string -> Option<real>)
  {
    forall name :: name in params && params[name] != "" ==> PassesParam(l, name, params[name], parseDecimal)
  }

  /** `Matches` for fixed parameters, as a test on one listing. */
  function MatchesParams(params: map<string, string>, parseDecimal: string -> Option<real>): Listing -> bool
  {
    l => Matches(l, params, parseDecimal)
  }

  /**
   * Filtering a queryset: rejected when a numeric parameter is not a number,
   * otherwise the matching rows in their original order.
   */
  function ApplyFilter(rows: seq<Listing>, params: map<string, string>, parseDecimal: string -> Option<real>)
    : (r: Result<seq<Listing>, string>)
    ensures r.Failure? <==> !WellFormed(params, parseDecimal)
    ensures r.Success? ==> |r.value| <= |rows|
    ensures r.Success? ==> forall l :: l in r.value <==> l in rows && Matches(l, params, parseDecimal)
    ensures r.Success? ==> forall l :: multiset(r.value)[l] == if Matches(l, params, parseDecimal) then multiset(rows)[l] else 0
    ensures r.Success? ==> r.value == Seqs.Filter(rows, MatchesParams(params, parseDecimal))
  {
    if !WellFormed(params, parseDecimal) then Failure("invalid number")
    else
      var kept := Seqs.Filter(rows, MatchesParams(params, parseDecimal));
      assert forall l :: l in kept <==> l in rows && Matches(l, params, parseDecimal) by {
        forall l ensures l in kept <==> l in rows && Matches(l, params, parseDecimal) {
          Seqs.FilterMembership(rows, MatchesParams(params, parseDecimal), l);
        }
      }
      Success(kept)
  }

  /** With no filter parameter supplied, every listing passes. */
  lemma NoParametersMatchAll(l: Listing, params: map<string, string>, parseDecimal: string -> Option<real>)
    requires forall name :: Supplied(params, name) ==> NumberFilterFor(name).None? && ExactFieldFor(name).None?
    ensures Matches(l, params, parseDecimal)
  {
  }

  /** A single numeric parameter is the inclusive bound its declaration names. */
  lemma OneNumberFilter(l: Listing, name: string, text: string, bound: real, parseDecimal: string -> Option<real>)
    requires NumberFilterFor(name).Some?
    requires text != "" && parseDecimal(text) == Some(bound)
    ensures var nf := NumberFilterFor(name).value;
      Matches(l, map[name := text], parseDecimal) <==> Compare(ColumnValue(l, nf.column), nf.lookup, bound)
  {
    var params := map[name := text];
    assert Supplied(params, name);
  }

  /** `price_min`/`price_max` bound `list_price`; a price equal to the bound passes both. */
  lemma PriceBoundsInclusive(l: Listing, text: string, bound: real, parseDecimal: string -> Option<real>)
    requires text != "" && parseDecimal(text) == Some(bound)
    ensures Matches(l, map["price_min" := text], parseDecimal) <==> l.listPrice.Some? && l.listPrice.value >= bound
    ensures Matches(l, map["price_max" := text], parseDecimal) <==> l.listPrice.Some? && l.listPrice.value <= bound
    ensures l.listPrice == Some(bound) ==>
      Matches(l, map["price_min" := text], parseDecimal) && Matches(l, map["price_max" := text], parseDecimal)
  {
    OneNumberFilter(l, "price_min", text, bound, parseDecimal);
    OneNumberFilter(l, "price_max", text, bound, parseDecimal);
  }

  /** `sqft_min`/`sqft_max` bound `sqft` inclusively. */
  lemma SqftBoundsInclusive(l: Listing, text: string, bound: real, parseDecimal: string -> Option<real>)
    requires text != "" && parseDecimal(text) == Some(bound)
    ensures Matches(l, map["sqft_min" := text], parseDecimal) <==> l.sqft.Some? && l.sqft.value >= bound
    ensures Matches(l, map["sqft_max" := text], parseDecimal) <==> l.sqft.Some? && l.sqft.value <= bound
  {
    OneNumberFilter(l, "sqft_min", text, bound, parseDecimal);
    OneNumberFilter(l, "sqft_max", text, bound, parseDecimal);
  }

  /** `beds_min`/`beds_max` bound `beds` inclusively. */
  lemma BedsBoundsInclusive(l: Listing, text: string, bound: real, parseDecimal: string -> Option<real>)
    requires text != "" && parseDecimal(text) == Some(bound)
    ensures Matches(l, map["beds_min" := text], parseDecimal) <==> l.beds.Some? && l.beds.value >= bound
    ensures Matches(l, map["beds_max" := text], parseDecimal) <==> l.beds.Some? && l.beds.value <= bound
  {
    OneNumberFilter(l, "beds_min", text, bound, parseDecimal);
    OneNumberFilter(l, "beds_max", text, bound, parseDecimal);
  }

  /** `baths_min`/`baths_max` bound `full_baths` inclusively. */
  lemma BathsBoundsInclusive(l: Listing, text: string, bound: real, parseDecimal: string -> Option<real>)
    requires text != "" && parseDecimal(text) == Some(bound)
    ensures Matches(l, map["baths_min" := text], parseDecimal) <==> l.fullBaths.Some? && l.fullBaths.value >= bound
    ensures Matches(l, map["baths_max" := text], parseDecimal) <==> l.fullBaths.Some? && l.fullBaths.value <= bound
  {
    OneNumberFilter(l, "baths_min", text, bound, parseDecimal);
    OneNumberFilter(l, "baths_max", text, bound, parseDecimal);
  }

  /**
   * `pps_min`/`pps_max` read the stored `price_per_sqft` column: a listing
   * without one fails them whatever its price and area.
   */
  lemma PricePerSqftUsesStoredColumn(l: Listing, text: string, bound: real, parseDecimal: string -> Option<real>)
    requires text != "" && parseDecimal(text) == Some(bound)
    ensures Matches(l, map["pps_min" := text], parseDecimal) <==> l.pricePerSqft.Some? && l.pricePerSqft.value >= bound
    ensures Matches(l, map["pps_max" := text], parseDecimal) <==> l.pricePerSqft.Some? && l.pricePerSqft.value <= bound
    ensures l.pricePerSqft.None? ==>
      !Matches(l, map["pps_min" := text], parseDecimal) && !Matches(l, map["pps_max" := text], parseDecimal)
  {
    OneNumberFilter(l, "pps_min", text, bound, parseDecimal);
    OneNumberFilter(l, "pps_max", text, bound, parseDecimal);
  }

  /** Each exact-match parameter names its field and no numeric filter. */
  lemma ExactParamDeclared(f: ExactField)
    ensures ExactFieldFor(ExactParam(f)) == Some(f) && NumberFilterFor(ExactParam(f)).None?
  {
  }

  /**
   * `status`, `city`, `zip_code` and `state` match their column exactly
   * against the stripped value, and a value that strips to "" is no filter.
   */
  lemma ExactFieldMatch(l: Listing, f: ExactField, value: string, parseDecimal: string -> Option<real>)
    ensures Matches(l, map[ExactParam(f) := value], parseDecimal) <==>
      Text.Strip(value) == "" || ExactValue(l, f) == Some(Text.Strip(value))
  {
    var params := map[ExactParam(f) := value];
    ExactParamDeclared(f);
    if value != "" {
      assert Supplied(params, ExactParam(f));
    }
  }

  /** Supplied parameters combine by conjunction: passing all is passing each alone. */
  lemma Conjunction(l: Listing, params: map<string, string>, parseDecimal: string -> Option<real>)
    ensures Matches(l, params, parseDecimal) <==>
      forall k :: k in params ==> Matches(l, map[k := params[k]], parseDecimal)
  {
    if forall k :: k in params ==> Matches(l, map[k := params[k]], parseDecimal) {
      forall name | Supplied(params, name) ensures PassesParam(l, name, params[name], parseDecimal) {
        assert Supplied(map[name := params[name]], name);
      }
    }
  }

  /** Parameters that name no filter are ignored. */
  lemma UnknownParametersIgnored(l: Listing, params: map<string, string>, name: string, value: string,
                                 parseDecimal: string -> Option<real>)
    requires NumberFilterFor(name).None? && ExactFieldFor(name).None?
    ensures Matches(l, params[name := value], parseDecimal) <==> Matches(l, params, parseDecimal)
  {
    var more := params[name := value];
    if Matches(l, params, parseDecimal) {
      forall k | Supplied(more, k) ensures PassesParam(l, k, more[k], parseDecimal) {
        if k != name {
          assert Supplied(params, k);
        }
      }
    }
    if Matches(l, more, parseDecimal) {
      forall k | Supplied(params, k) ensures PassesParam(l, k, params[k], parseDecimal) {
        if k != name {
          assert Supplied(more, k);
        }
      }
    }
  }
}
