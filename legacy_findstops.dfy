/**
 * The stop-id search of the older command line (underground/cli/findstops.py):
 * one archive, no buses, and `stop["location_type"]` read with a subscript,
 * so a stops.txt without that column raises a KeyError at its first row.
 *
 * Downloading and unzipping the archive is the oracle `download`: the rows of
 * its stops.txt, or None when `raise_for_status` raises.
 */
module LegacyFindStops {
  import opened Wrappers
  import opened Text
  import opened FindStops

  /** DATA_URL: the subway archive. */
  const DataUrl: string := "http://web.mta.info/developers/data/nyct/subway/google_transit.zip"

  /** What one row does to the stops matched so far. */
  function LegacyStep(q: string, matched: seq<MatchedStop>, row: StopRow): Result<seq<MatchedStop>, SearchError>
  {
    if row.locationType.None? then Failure(MissingColumn("location_type"))
    else if IsStation(row) then Success(matched)
    else match Direction(row.stopId, false)
      case Failure(e) => Failure(e)
      case Success(d) => Success(if Matches(q, row) then matched + [Record(row, d)] else matched)
  }

  /** The loop of `main` over the rows: the first error ends the search. */
  function LegacySearch(q: string, rows: seq<StopRow>): (r: Result<seq<MatchedStop>, SearchError>)
    ensures r.Success? ==> |r.value| <= |rows|
  {
    if rows == [] then Success([])
    else
      match LegacySearch(q, rows[..|rows| - 1])
      case Failure(e) => Failure(e)
      case Success(matched) => LegacyStep(q, matched, rows[|rows| - 1])
  }

  /**
   * `main(query, output_json)` up to its output: the download error before
   * any row is read, or the search over the rows of stops.txt.
   */
  method FindStopsCommand(query: seq<string>, download: Option<seq<StopRow>>) returns (r: Result<seq<MatchedStop>, SearchError>)
    ensures download.None? ==> r == Failure(RequestFailed(DataUrl))
    ensures download.Some? ==> r == LegacySearch(NormalizeQuery(query), download.value)
  {
    var q := NormalizeQuery(query);
    if download.None? {
      return Failure(RequestFailed(DataUrl));
    }
    var rows := download.value;
    var matchedStops: seq<MatchedStop> := [];
    var i := 0;
    while i < |rows|
      invariant 0 <= i <= |rows|
      invariant LegacySearch(q, rows[..i]) == Success(matchedStops)
    {
      var stop := rows[i];
      assert rows[..i + 1][..i] == rows[..i];
      if stop.locationType.None? {
        // stop["location_type"] raises KeyError
        LegacyFailed(q, rows[..i + 1], rows[i + 1..]);
        assert rows[..i + 1] + rows[i + 1..] == rows;
        return Failure(MissingColumn("location_type"));
      }
      if stop.locationType.value == "1" {
        i := i + 1;
        continue;
      }
      var direction;
      if EndsWith(stop.stopId, "N") {
        direction := "NORTH";
      } else if EndsWith(stop.stopId, "S") {
        direction := "SOUTH";
      } else {
        LegacyFailed(q, rows[..i + 1], rows[i + 1..]);
        assert rows[..i + 1] + rows[i + 1..] == rows;
        return Failure(CannotParseDirection(stop.stopId));
      }
      if Matches(q, stop) {
        matchedStops := matchedStops + [Record(stop, direction)];
      }
      i := i + 1;
    }
    assert rows[..|rows|] == rows;
    r := Success(matchedStops);
  }

  /** Once the search has failed, later rows change nothing. */
  lemma {:induction false} LegacyFailed(q: string, rows: seq<StopRow>, more: seq<StopRow>)
    requires LegacySearch(q, rows).Failure?
    ensures LegacySearch(q, rows + more) == LegacySearch(q, rows)
    decreases |more|
  {
    if more == [] {
      assert rows + more == rows;
    } else {
      var init := more[..|more| - 1];
      LegacyFailed(q, rows, init);
      assert (rows + more)[..|rows + more| - 1] == rows + init;
    }
  }

  /**
   * On a stops.txt that has the location_type column, the older search and
   * the current one without buses give the same records or the same error.
   */
  lemma {:induction false} AgreesWithCurrent(q: string, rows: seq<StopRow>)
    requires forall i :: 0 <= i < |rows| ==> rows[i].locationType.Some?
    ensures LegacySearch(q, rows) == Search(q, Rows(rows), false)
    decreases |rows|
  {
    if rows != [] {
      var init := rows[..|rows| - 1];
      AgreesWithCurrent(q, init);
      assert Rows(rows)[..|rows| - 1] == Rows(init);
    }
  }

  /**
   * A stops.txt without the location_type column makes the older search raise
   * the KeyError at its first row (once the rows before it were searched),
   * where the current search reads the row as a stop.
   */
  lemma MissingColumnAborts(q: string, rows: seq<StopRow>, k: nat)
    requires k < |rows| && rows[k].locationType.None?
    requires LegacySearch(q, rows[..k]).Success?
    ensures LegacySearch(q, rows) == Failure(MissingColumn("location_type"))
    ensures !IsStation(rows[k])
  {
    assert rows[..k + 1][..k] == rows[..k];
    LegacyFailed(q, rows[..k + 1], rows[k + 1..]);
    assert rows[..k + 1] + rows[k + 1..] == rows;
  }

  /** The Parkside Av rows of the current search, as a stops.txt with the location_type column. */
  function ParksideStops(): (rows: seq<StopRow>)
    ensures Rows(rows) == ParksideRows()
    ensures forall i :: 0 <= i < |rows| ==> rows[i].locationType.Some?
  {
    [ StopRow("D27", "Parkside Av", Some("1"), "40.655292", "-73.961495"),
      StopRow("D27N", "Parkside Av", Some(""), "40.655292", "-73.961495"),
      StopRow("D27S", "Parkside Av", Some(""), "40.655292", "-73.961495"),
      StopRow("D28N", "Church Av", Some(""), "40.650527", "-73.962982") ]
  }

  /** The Parkside Av rows carry the column, so the older search finds the same two platforms. */
  lemma LegacyParkside(query: seq<string>)
    requires query == ["PARKSIDE"] || query == ["parkside"] || query == ["PARKSIDE", "av"]
    ensures LegacySearch(NormalizeQuery(query), ParksideStops()) == Success([
      MatchedStop("D27N", "PARKSIDE AV", "NORTH", "40.655292", "-73.961495"),
      MatchedStop("D27S", "PARKSIDE AV", "SOUTH", "40.655292", "-73.961495")])
  {
    AgreesWithCurrent(NormalizeQuery(query), ParksideStops());
    ParksideExample(query);
  }
}
