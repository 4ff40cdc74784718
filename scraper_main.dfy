/**
 * The logic of scraper/main.py around the scrape itself: the engine URL,
 * the location list of a run, the success and failure counters of a batch,
 * the column lookup and the `POINT(lon lat)` location column. Scraping and
 * the database insert are I/O: their outcome is a parameter.
 */
module ScraperMain {
  import opened Wrappers
  import opened ScraperConfig
  import Text

  /** The exit status of a run without a database URL. */
  const MissingUrlExitStatus: int := 1

  /** The URL the engine connects to, or the exit status when `DATABASE_URL` is unset or empty. */
  function EngineUrl(databaseUrl: Option<string>): (r: Result<string, int>)
    ensures r.Failure? <==> databaseUrl.None? || databaseUrl.value == ""
    ensures r.Failure? ==> r.error == MissingUrlExitStatus
    ensures r.Success? && Text.StartsWith(databaseUrl.value, PostgisScheme) ==>
      Text.StartsWith(r.value, PostgresqlScheme)
    ensures r.Success? && !Text.StartsWith(databaseUrl.value, PostgisScheme) ==> r.value == databaseUrl.value
  {
    match databaseUrl
    case None => Failure(MissingUrlExitStatus)
    case Some(url) =>
      if url == "" then Failure(MissingUrlExitStatus)
      else
        assert Text.StartsWith(url, PostgisScheme) ==> Text.StartsWith(RewriteDbUrl(url), PostgresqlScheme) by {
          if Text.StartsWith(url, PostgisScheme) {
            RewriteStartsWithPostgresql(url);
          }
        }
        Success(RewriteDbUrl(url))
  }

  /**
   * The locations of a run: the command-line arguments after the program
   * name when there are any, else those of the environment.
   */
  function ResolveLocations(args: seq<string>, scrapeLocations: Option<string>, scrapeLocation: Option<string>)
    : (locs: seq<string>)
    ensures |args| > 0 ==> locs == args
    ensures |args| == 0 ==> locs == EnvLocations(scrapeLocations, scrapeLocation)
  {
    if |args| > 0 then args else EnvLocations(scrapeLocations, scrapeLocation)
  }

  // ---------------------------------------------------------------------
  // The batch

  /** How many of `locations` raise, counted from the front. */
  function FailureCount(locations: seq<string>, raises: string -> bool): (n: nat)
    ensures n <= |locations|
  {
    if |locations| == 0 then 0
    else FailureCount(locations[..|locations| - 1], raises) + (if raises(locations[|locations| - 1]) then 1 else 0)
  }

  /** Counting over a concatenation adds the counts. */
  lemma {:induction false} FailureCountAppend(a: seq<string>, b: seq<string>, raises: string -> bool)
    ensures FailureCount(a + b, raises) == FailureCount(a, raises) + FailureCount(b, raises)
    decreases |b|
  {
    if |b| == 0 {
      assert a + b == a;
    } else {
      var last := b[|b| - 1];
      assert (a + b)[..|a + b| - 1] == a + b[..|b| - 1];
      FailureCountAppend(a, b[..|b| - 1], raises);
    }
  }

  /** No location that raises, no failure; every location raising, all fail. */
  lemma {:induction false} FailureCountExtremes(locations: seq<string>, raises: string -> bool)
    ensures (forall i :: 0 <= i < |locations| ==> !raises(locations[i])) ==> FailureCount(locations, raises) == 0
    ensures (forall i :: 0 <= i < |locations| ==> raises(locations[i])) ==> FailureCount(locations, raises) == |locations|
  {
    if |locations| > 0 {
      var front := locations[..|locations| - 1];
      FailureCountExtremes(front, raises);
      assert forall i :: 0 <= i < |front| ==> front[i] == locations[i];
    }
  }

  /** What the body of `run_scraper`'s `try` meets for one location; `Error` is any `Exception` it raises. */
  datatype ScrapeOutcome = NoProperties | Inserted(count: nat) | Error(message: string)

  /** What `run_scraper` logs before it returns. */
  datatype RunReport = ReportedEmpty | ReportedInserted(count: nat) | LoggedError(message: string)

  /** How a call of `run_scraper` ends: it returns after logging, or an exception leaves it. */
  datatype RunResult = Returned(report: RunReport) | Raised(message: string)

  /**
   * `run_scraper(location)` for the outcome its `try` body meets. The
   * `except Exception` clause catches every error of that body, so the call
   * always returns: with nothing found, after the insert, or after logging
   * the error.
   */
  function RunScraper(outcome: ScrapeOutcome): (r: RunResult)
    ensures r.Returned?
    ensures outcome.NoProperties? <==> r.report.ReportedEmpty?
    ensures outcome.Inserted? <==> r.report.ReportedInserted?
    ensures outcome.Error? <==> r.report.LoggedError?
    ensures outcome.Inserted? ==> r.report.count == outcome.count
    ensures outcome.Error? ==> r.report.message == outcome.message
  {
    match outcome
    case NoProperties => Returned(ReportedEmpty)
    case Inserted(n) => Returned(ReportedInserted(n))
    case Error(m) => Returned(LoggedError(m))
  }

  /** Whether `run_scraper(location)` lets an exception out, when scraping `location` meets `outcome(location)`. */
  function RunRaises(outcome: string -> ScrapeOutcome): string -> bool
  {
    location => RunScraper(outcome(location)).Raised?
  }

  /**
   * `run_scraper_for_locations`: every location is attempted, in order,
   * whatever the earlier ones did; a call of `run_scraper` that raises
   * counts as failed, any other as successful. Since `run_scraper` never
   * raises, every location counts as successful.
   */
  method RunScraperForLocations(locations: seq<string>, outcome: string -> ScrapeOutcome)
    returns (successful: nat, failed: nat, attempted: seq<string>)
    ensures attempted == locations
    ensures successful + failed == |locations|
    ensures failed == FailureCount(locations, RunRaises(outcome))
    ensures failed == 0 && successful == |locations|
  {
    successful, failed, attempted := 0, 0, [];
    for i := 0 to |locations|
      invariant attempted == locations[..i]
      invariant successful + failed == i
      invariant failed == FailureCount(locations[..i], RunRaises(outcome))
    {
      var location := locations[i];
      assert locations[..i + 1][..i] == locations[..i];
      var result := RunScraper(outcome(location));
      failed := failed + (if result.Raised? then 1 else 0);
      successful := successful + (if result.Raised? then 0 else 1);
      attempted := attempted + [location];
    }
    assert locations[..|locations|] == locations;
    SwallowedErrorsNeverFail(locations, outcome);
  }

  /** Since `run_scraper` returns on every outcome, no location of a batch counts as failed. */
  lemma SwallowedErrorsNeverFail(locations: seq<string>, outcome: string -> ScrapeOutcome)
    ensures FailureCount(locations, RunRaises(outcome)) == 0
  {
    forall i | 0 <= i < |locations| ensures !RunRaises(outcome)(locations[i]) {
      var r := RunScraper(outcome(locations[i]));
    }
    FailureCountExtremes(locations, RunRaises(outcome));
  }

  // ---------------------------------------------------------------------
  // Columns

  /** One cell of the scraped frame. */
  datatype Cell = Missing | Number(x: real) | TextCell(s: string)

  type Frame = map<string, seq<Cell>>

  /** `get_col(name)`: the column when the frame has it, else None. */
  function GetCol(frame: Frame, name: string): (col: Option<seq<Cell>>)
    ensures col.Some? <==> name in frame
    ensures col.Some? ==> col.value == frame[name]
  {
    if name in frame then Some(frame[name]) else None
  }

  /** `pd.to_numeric(col, errors='coerce')` on one cell: text that is not a number becomes missing. */
  function ToNumeric(c: Cell, parseFloat: string -> Option<real>): (v: Option<real>)
    ensures c.Number? ==> v == Some(c.x)
    ensures c.Missing? ==> v.None?
  {
    match c
    case Missing => None
    case Number(x) => Some(x)
    case TextCell(s) => parseFloat(s)
  }

  const PointPrefix: string := "POINT("
  const PointSuffix: string := ")"

  /** `f"POINT({x} {y})"`: longitude first. */
  function PointWkt(x: real, y: real, fmt: real -> string): string
  {
    PointPrefix + fmt(x) + " " + fmt(y) + PointSuffix
  }

  /** The `location` column: a point for every row whose two coordinates are both present, else None. */
  function LocationColumn(lon: seq<Option<real>>, lat: seq<Option<real>>, fmt: real -> string)
    : (location: seq<Option<string>>)
    ensures |location| == if |lon| <= |lat| then |lon| else |lat|
    ensures forall i :: 0 <= i < |location| ==> (location[i].Some? <==> lon[i].Some? && lat[i].Some?)
    ensures forall i :: 0 <= i < |location| && location[i].Some? ==>
      location[i].value == PointWkt(lon[i].value, lat[i].value, fmt)
  {
    var n := if |lon| <= |lat| then |lon| else |lat|;
    seq(n, i requires 0 <= i < n =>
      if lon[i].Some? && lat[i].Some? then Some(PointWkt(lon[i].value, lat[i].value, fmt)) else None)
  }

  /** The coordinate columns of the frame written for insertion. */
  datatype CoordinateColumns = CoordinateColumns(latitude: seq<Option<real>>, longitude: seq<Option<real>>,
                                                 location: seq<Option<string>>)

  /** The coordinate columns, or None when the scraped frame lacks `latitude` or `longitude`. */
  function Coordinates(frame: Frame, parseFloat: string -> Option<real>, fmt: real -> string)
    : (r: Option<CoordinateColumns>)
    ensures r.None? <==> "latitude" !in frame || "longitude" !in frame
    ensures r.Some? ==> |r.value.latitude| == |frame["latitude"]| && |r.value.longitude| == |frame["longitude"]|
    ensures r.Some? ==> forall i :: 0 <= i < |r.value.latitude| ==> r.value.latitude[i] == ToNumeric(frame["latitude"][i], parseFloat)
    ensures r.Some? ==> forall i :: 0 <= i < |r.value.longitude| ==> r.value.longitude[i] == ToNumeric(frame["longitude"][i], parseFloat)
    ensures r.Some? ==> r.value.location == LocationColumn(r.value.longitude, r.value.latitude, fmt)
  {
    if "latitude" in frame && "longitude" in frame then
      var latCol, lonCol := frame["latitude"], frame["longitude"];
      var lat := seq(|latCol|, i requires 0 <= i < |latCol| => ToNumeric(latCol[i], parseFloat));
      var lon := seq(|lonCol|, i requires 0 <= i < |lonCol| => ToNumeric(lonCol[i], parseFloat));
      Some(CoordinateColumns(lat, lon, LocationColumn(lon, lat, fmt)))
    else None
  }

  // ---------------------------------------------------------------------
  // Reading a point back

  /** Python's text for a float, which holds no space. */
  ghost predicate SpaceFree(fmt: real -> string)
  {
    forall x :: ' ' !in fmt(x)
  }

  /** The two number texts of a `POINT(x y)` text. */
  function ReadPoint(wkt: string): Option<(string, string)>
  {
    if |wkt| >= |PointPrefix| + |PointSuffix| && wkt[..|PointPrefix|] == PointPrefix && wkt[|wkt| - |PointSuffix|..] == PointSuffix then
      var parts := Text.Split(wkt[|PointPrefix|..|wkt| - |PointSuffix|], ' ');
      if |parts| == 2 then Some((parts[0], parts[1])) else None
    else None
  }

  /** A point reads back as its longitude, then its latitude. */
  lemma PointRoundTrip(x: real, y: real, fmt: real -> string)
    requires SpaceFree(fmt)
    ensures ReadPoint(PointWkt(x, y, fmt)) == Some((fmt(x), fmt(y)))
  {
    var a, b := fmt(x), fmt(y);
    var body := a + " " + b;
    var w := PointWkt(x, y, fmt);
    assert w == PointPrefix + body + PointSuffix;
    assert w[..|PointPrefix|] == PointPrefix;
    assert w[|w| - |PointSuffix|..] == PointSuffix;
    assert w[|PointPrefix|..|w| - |PointSuffix|] == body;
    assert ' ' !in a && ' ' !in b;
    assert Text.Join([a, b], ' ') == body;
    Text.SplitJoin([a, b], ' ');
  }

  /** A row whose latitude cell is missing or not a number gets no location. */
  lemma UnparsableCoordinateGivesNoLocation(frame: Frame, parseFloat: string -> Option<real>, fmt: real -> string, i: int)
    requires "latitude" in frame && "longitude" in frame
    requires 0 <= i < |frame["latitude"]| && i < |frame["longitude"]|
    requires ToNumeric(frame["latitude"][i], parseFloat).None?
    ensures Coordinates(frame, parseFloat, fmt).value.location[i] == None
  {
  }
}
