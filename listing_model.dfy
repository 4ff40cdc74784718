/**
 * The listing record of backend/listings/models.py (`ListingBase`, shared by
 * `MlsHistory` and `CurrentListing`), restricted to the fields the modelled
 * code reads. Nullable columns are `Option`s; Decimal and float columns are
 * exact reals; `scrape_timestamp` is a timestamp counted in whole units.
 */
module ListingModel {
  import opened Wrappers

  /** A PostGIS point in SRID 4326: `x` is the longitude, `y` the latitude. */
  datatype Point = Point(x: real, y: real)

  datatype Listing = Listing(
    id: int,
    listingId: Option<string>,
    scrapeTimestamp: int,
    status: Option<string>,
    city: Option<string>,
    state: Option<string>,
    zipCode: Option<string>,
    neighborhoods: Option<string>,
    location: Option<Point>,
    latitude: Option<real>,
    longitude: Option<real>,
    beds: Option<real>,
    fullBaths: Option<real>,
    sqft: Option<real>,
    yearBuilt: Option<int>,
    lotSqft: Option<real>,
    parkingGarage: Option<real>,
    listPrice: Option<real>,
    pricePerSqft: Option<real>)

  /** Primary keys are unique within a table. */
  ghost predicate UniqueIds(rows: seq<Listing>)
  {
    forall i, j :: 0 <= i < j < |rows| ==> rows[i].id != rows[j].id
  }

  /** Python truthiness of a nullable number: neither None nor zero. */
  predicate TruthyNumber(v: Option<real>)
  {
    v.Some? && v.value != 0.0
  }

  /** Python truthiness of a nullable string: neither None nor empty. */
  predicate TruthyText(v: Option<string>)
  {
    v.Some? && v.value != ""
  }
}
