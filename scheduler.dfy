/**
 * The decisions of scraper/scheduler.py: the locations of the daily job,
 * the command it runs, and whether the database counts as empty, which
 * triggers one job at start-up. The two SQL queries are one probe
 * parameter; the schedule loop and the subprocess are I/O.
 */
module Scheduler {
  import opened Wrappers
  import opened ScraperConfig
  import ScraperMain
  import Text

  /** The command the job runs. */
  function JobCommand(locations: seq<string>): (cmd: seq<string>)
    ensures |cmd| == 2 + |locations|
    ensures cmd[0] == "python" && cmd[1] == "main.py"
    ensures cmd[2..] == locations
  {
    ["python", "main.py"] + locations
  }

  /** What the two queries of `is_database_empty` find, or that connecting or querying raised. */
  datatype Probe = ProbeError | TableMissing | RowCount(n: int)

  /**
   * `is_database_empty()`: false without a database URL; otherwise the
   * probe of the rewritten URL decides, and an error counts as not empty.
   */
  function IsDatabaseEmpty(databaseUrl: Option<string>, probe: string -> Probe): (empty: bool)
    ensures databaseUrl.None? || databaseUrl.value == "" ==> !empty
    ensures databaseUrl.Some? && databaseUrl.value != "" ==>
      var p := probe(RewriteDbUrl(databaseUrl.value));
      (empty <==> p.TableMissing? || (p.RowCount? && p.n == 0))
  {
    match databaseUrl
    case None => false
    case Some(url) =>
      if url == "" then false
      else
        match probe(RewriteDbUrl(url))
        case ProbeError => false
        case TableMissing => true
        case RowCount(n) => n == 0
  }

  /** The jobs started before the daily schedule: one exactly when the database is empty. */
  function InitialJobs(databaseUrl: Option<string>, probe: string -> Probe, locations: seq<string>)
    : (jobs: seq<seq<string>>)
    ensures |jobs| <= 1
    ensures |jobs| == 1 <==> IsDatabaseEmpty(databaseUrl, probe)
    ensures forall j :: j in jobs ==> j == JobCommand(locations)
  {
    if IsDatabaseEmpty(databaseUrl, probe) then [JobCommand(locations)] else []
  }

  /** Any probe error, or a table that has rows, means not empty. */
  lemma ProbeErrorOrRowsNotEmpty(url: string, probe: string -> Probe)
    requires probe(RewriteDbUrl(url)) == ProbeError || (probe(RewriteDbUrl(url)).RowCount? && probe(RewriteDbUrl(url)).n != 0)
    ensures !IsDatabaseEmpty(Some(url), probe)
    ensures InitialJobs(Some(url), probe, []) == []
  {
  }

  /** The probe sees a `postgresql://` URL in place of the `postgis://` one. */
  lemma PostgisProbedAsPostgresql(rest: string, probe: string -> Probe)
    requires !Text.Contains(rest, PostgisScheme)
    ensures IsDatabaseEmpty(Some(PostgisScheme + rest), probe) ==
      IsDatabaseEmpty(Some(PostgresqlScheme + rest), probe)
  {
    RewritePostgis(rest);
    assert !Text.StartsWith(PostgresqlScheme + rest, PostgisScheme) by {
      assert (PostgresqlScheme + rest)[6] != PostgisScheme[6];
    }
  }

  /**
   * The job hands its locations to main.py as arguments; under the same
   * environment main.py resolves them to the same list, including the
   * empty list, for which main.py falls back to the environment that
   * produced it.
   */
  lemma JobLocationsReachMain(scrapeLocations: Option<string>, scrapeLocation: Option<string>)
    ensures var locations := EnvLocations(scrapeLocations, scrapeLocation);
      ScraperMain.ResolveLocations(JobCommand(locations)[2..], scrapeLocations, scrapeLocation) == locations
  {
  }
}
