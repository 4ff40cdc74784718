/**
 * Configuration logic that scraper/main.py and scraper/scheduler.py both
 * carry: the location list read from the environment, and the rewrite of
 * a `postgis://` database URL into one SQLAlchemy accepts. An environment
 * variable is an `Option<string>`, None when it is unset.
 */
module ScraperConfig {
  import opened Wrappers
  import opened Text

  const DefaultLocation: string := "Boston, MA"
  const PostgisScheme: string := "postgis://"
  const PostgresqlScheme: string := "postgresql://"

  /** The stripped, non-empty pieces, in order. */
  function StrippedNonEmpty(parts: seq<string>): (locs: seq<string>)
    ensures |locs| <= |parts|
    ensures forall i :: 0 <= i < |locs| ==> locs[i] != "" && locs[i] == Strip(locs[i])
  {
    if |parts| == 0 then []
    else
      var s := Strip(parts[0]);
      StripIdempotent(parts[0]);
      (if s != "" then [s] else []) + StrippedNonEmpty(parts[1..])
  }

  /** `[loc.strip() for loc in s.split(";") if loc.strip()]`. */
  function ParseLocationList(s: string): (locs: seq<string>)
    ensures forall i :: 0 <= i < |locs| ==> locs[i] != "" && ';' !in locs[i] && locs[i] == Strip(locs[i])
  {
    var parts := Split(s, ';');
    StrippedNonEmptyAvoids(parts, ';');
    StrippedNonEmpty(parts)
  }

  /**
   * The locations of the environment: `SCRAPE_LOCATIONS` parsed when it is
   * set and non-empty, else the single `SCRAPE_LOCATION`, defaulting to
   * "Boston, MA" only when that variable is unset.
   */
  function EnvLocations(scrapeLocations: Option<string>, scrapeLocation: Option<string>): (locs: seq<string>)
    ensures TruthyLocations(scrapeLocations) ==> locs == ParseLocationList(scrapeLocations.value)
    ensures !TruthyLocations(scrapeLocations) ==> locs == [scrapeLocation.GetOr(DefaultLocation)]
    ensures TruthyLocations(scrapeLocations) ==>
      forall i :: 0 <= i < |locs| ==> locs[i] != "" && ';' !in locs[i] && locs[i] == Strip(locs[i])
    ensures !TruthyLocations(scrapeLocations) ==> |locs| == 1
  {
    if TruthyLocations(scrapeLocations) then ParseLocationList(scrapeLocations.value)
    else [scrapeLocation.GetOr(DefaultLocation)]
  }

  predicate TruthyLocations(v: Option<string>)
  {
    v.Some? && v.value != ""
  }

  /** `url.replace("postgis://", "postgresql://")` when the URL starts with the PostGIS scheme. */
  function RewriteDbUrl(url: string): string
  {
    if StartsWith(url, PostgisScheme) then ReplaceAll(url, PostgisScheme, PostgresqlScheme) else url
  }

  // ---------------------------------------------------------------------
  // Properties

  lemma StripIdempotent(s: string)
    ensures Strip(Strip(s)) == Strip(s)
  {
    var t := Strip(s);
    assert TrimStart(t) == t;
  }

  /** A stripped text is a piece of the original. */
  lemma StripIsInfix(s: string)
    ensures forall c :: c in Strip(s) ==> c in s
  {
    var t := TrimStart(s);
    assert forall c :: c in t ==> c in s by {
      forall c | c in t ensures c in s {
        var k :| 0 <= k < |t| && t[k] == c;
        assert s[|s| - |t| + k] == c;
      }
    }
  }

  /** Stripping and dropping pieces brings in no new character. */
  lemma {:induction false} StrippedNonEmptyAvoids(parts: seq<string>, c: char)
    requires forall i :: 0 <= i < |parts| ==> c !in parts[i]
    ensures forall i :: 0 <= i < |StrippedNonEmpty(parts)| ==> c !in StrippedNonEmpty(parts)[i]
  {
    if |parts| > 0 {
      var s := Strip(parts[0]);
      StripIsInfix(parts[0]);
      StrippedNonEmptyAvoids(parts[1..], c);
      PrependAvoids(if s != "" then [s] else [], StrippedNonEmpty(parts[1..]), c);
    }
  }

  /** Joining two lists of texts that avoid `c` gives a list that avoids `c`. */
  lemma PrependAvoids(head: seq<string>, rest: seq<string>, c: char)
    requires forall i :: 0 <= i < |head| ==> c !in head[i]
    requires forall i :: 0 <= i < |rest| ==> c !in rest[i]
    ensures forall i :: 0 <= i < |head + rest| ==> c !in (head + rest)[i]
  {
    forall i | 0 <= i < |head + rest| ensures c !in (head + rest)[i] {
      if i >= |head| {
        assert (head + rest)[i] == rest[i - |head|];
      }
    }
  }

  /** Every piece of a split is made of characters of the text. */
  lemma {:induction false} SplitPiecesFromText(s: string, sep: char)
    ensures forall i, c :: 0 <= i < |Split(s, sep)| && c in Split(s, sep)[i] ==> c in s
    decreases |s|
  {
    if sep in s {
      var k := IndexOf(s, sep);
      SplitPiecesFromText(s[k + 1..], sep);
      forall c | c in s[k + 1..] ensures c in s {
        var m :| 0 <= m < |s[k + 1..]| && s[k + 1..][m] == c;
        assert s[k + 1 + m] == c;
      }
      forall c | c in s[..k] ensures c in s {
        var m :| 0 <= m < k && s[..k][m] == c;
        assert s[m] == c;
      }
    }
  }

  lemma {:induction false} StrippedNonEmptyAllBlank(parts: seq<string>)
    requires forall i :: 0 <= i < |parts| ==> Strip(parts[i]) == ""
    ensures StrippedNonEmpty(parts) == []
  {
    if |parts| > 0 {
      StrippedNonEmptyAllBlank(parts[1..]);
    }
  }

  /** A `SCRAPE_LOCATIONS` of separators and whitespace only gives no location at all. */
  lemma OnlySeparatorsGiveNoLocations(s: string)
    requires forall k :: 0 <= k < |s| ==> s[k] == ';' || IsSpace(s[k])
    ensures ParseLocationList(s) == []
  {
    var parts := Split(s, ';');
    SplitPiecesFromText(s, ';');
    forall i | 0 <= i < |parts| ensures Strip(parts[i]) == "" {
      var p := parts[i];
      forall k | 0 <= k < |p| ensures IsSpace(p[k]) {
        assert p[k] in p;
        assert p[k] in s;
        var m :| 0 <= m < |s| && s[m] == p[k];
        assert p[k] != ';';
      }
      StripEmptyIff(p);
    }
    StrippedNonEmptyAllBlank(parts);
  }

  /** Clean names (non-empty, no ';', no surrounding whitespace) joined by ';' read back as themselves. */
  predicate CleanLocation(name: string)
  {
    name != "" && ';' !in name && !IsSpace(name[0]) && !IsSpace(name[|name| - 1])
  }

  lemma {:induction false} StrippedNonEmptyClean(names: seq<string>)
    requires forall i :: 0 <= i < |names| ==> CleanLocation(names[i])
    ensures StrippedNonEmpty(names) == names
  {
    if |names| > 0 {
      var n := names[0];
      assert TrimStart(n) == n;
      assert TrimEnd(n) == n;
      StrippedNonEmptyClean(names[1..]);
      assert names == [n] + names[1..];
    }
  }

  lemma ParseJoinedLocations(names: seq<string>)
    requires |names| >= 1
    requires forall i :: 0 <= i < |names| ==> CleanLocation(names[i])
    ensures ParseLocationList(Join(names, ';')) == names
  {
    SplitJoin(names, ';');
    StrippedNonEmptyClean(names);
  }

  /** Only the scheme is rewritten when `postgis://` occurs once, at the start. */
  lemma RewritePostgis(rest: string)
    requires !Contains(rest, PostgisScheme)
    ensures RewriteDbUrl(PostgisScheme + rest) == PostgresqlScheme + rest
  {
    var url := PostgisScheme + rest;
    assert url[..|PostgisScheme|] == PostgisScheme;
    assert url[|PostgisScheme|..] == rest;
    ReplaceAllAbsent(rest, PostgisScheme, PostgresqlScheme);
  }

  /** A URL that starts with `postgis://` ends up starting with `postgresql://`. */
  lemma RewriteStartsWithPostgresql(url: string)
    requires StartsWith(url, PostgisScheme)
    ensures StartsWith(RewriteDbUrl(url), PostgresqlScheme)
  {
    var r := ReplaceAll(url[|PostgisScheme|..], PostgisScheme, PostgresqlScheme);
    assert RewriteDbUrl(url) == PostgresqlScheme + r;
    assert (PostgresqlScheme + r)[..|PostgresqlScheme|] == PostgresqlScheme;
  }

  /** Any other URL is left alone. */
  lemma OtherUrlsUnchanged(url: string)
    requires !StartsWith(url, PostgisScheme)
    ensures RewriteDbUrl(url) == url
  {
  }
}
