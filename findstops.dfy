/**
 * The stop-id search of the current command line (src/underground/cli/findstops.py):
 * `get_stops` yields the rows of stops.txt from the subway archive and, when
 * buses are included, from every bus archive after it; `main` normalises the
 * query, skips stations, names each stop's direction from the last letter of
 * its id, and keeps, in order, the stops whose name contains the query.
 *
 * Downloading and unzipping an archive is the oracle `fetch`: the rows of its
 * stops.txt, or None when the download fails (`raise_for_status`).
 */
module FindStops {
  import opened Wrappers
  import opened Text

  /** DATA_URLS: the subway archive first, then the five boroughs' bus archives and the bus company's. */
  const DataUrls: seq<string> := [
    "http://web.mta.info/developers/data/nyct/subway/google_transit.zip",
    "https://rrgtfsfeeds.s3.amazonaws.com/gtfs_bx.zip",
    "https://rrgtfsfeeds.s3.amazonaws.com/gtfs_b.zip",
    "https://rrgtfsfeeds.s3.amazonaws.com/gtfs_m.zip",
    "https://rrgtfsfeeds.s3.amazonaws.com/gtfs_q.zip",
    "https://rrgtfsfeeds.s3.amazonaws.com/gtfs_si.zip",
    "https://rrgtfsfeeds.s3.amazonaws.com/gtfs_busco.zip"
  ]

  /**
   * A row of stops.txt as `csv.DictReader` gives it. `locationType` is None
   * when the file has no location_type column; latitude and longitude are
   * kept as the text of their cells.
   */
  datatype StopRow = StopRow(stopId: string, stopName: string, locationType: Option<string>,
                             stopLat: string, stopLon: string)

  /** A record of `matched_stops`. */
  datatype MatchedStop = MatchedStop(stopId: string, stopName: string, direction: string,
                                     stopLat: string, stopLon: string)

  /** Why a search stops: the ValueError for a direction, a failed download, or (older command) a KeyError. */
  datatype SearchError = CannotParseDirection(stopId: string) | RequestFailed(url: string) | MissingColumn(column: string)

  /** What the `get_stops` generator gives, in order: rows, then possibly the download error that ends it. */
  datatype Item = Row(row: StopRow) | Broken(url: string)

  /** `" ".join(query).lower().strip()`. */
  function NormalizeQuery(query: seq<string>): (q: string)
    ensures forall i :: 0 <= i < |q| ==> !IsUpperAscii(q[i])
    ensures q == [] || (!IsSpace(q[0]) && !IsSpace(q[|q| - 1]))
  {
    LowerIsLower(Join(query));
    StripNoUpper(Lower(Join(query)));
    Strip(Lower(Join(query)))
  }

  /** `stop.get("location_type") == "1"`: a station, which the search skips. A missing column is not a station. */
  predicate IsStation(row: StopRow)
  {
    row.locationType == Some("1")
  }

  /**
   * The direction of a stop: NORTH for an id ending in N, SOUTH for one ending
   * in S, "(BUS)" for any other id when buses are searched, and the
   * ValueError otherwise.
   */
  function Direction(stopId: string, includeBuses: bool): (r: Result<string, SearchError>)
    ensures r.Success? <==> EndsWith(stopId, "N") || EndsWith(stopId, "S") || includeBuses
    ensures r.Failure? ==> r.error == CannotParseDirection(stopId)
    ensures r.Success? ==> r.value == "NORTH" || r.value == "SOUTH" || r.value == "(BUS)"
    ensures r == Success("SOUTH") ==> EndsWith(stopId, "S") && !EndsWith(stopId, "N")
    ensures r == Success("(BUS)") ==> includeBuses && !EndsWith(stopId, "N") && !EndsWith(stopId, "S")
    ensures EndsWith(stopId, "N") ==> r == Success("NORTH")
    ensures !EndsWith(stopId, "N") && EndsWith(stopId, "S") ==> r == Success("SOUTH")
    ensures !EndsWith(stopId, "N") && !EndsWith(stopId, "S") && includeBuses ==> r == Success("(BUS)")
  {
    if EndsWith(stopId, "N") then Success("NORTH")
    else if EndsWith(stopId, "S") then Success("SOUTH")
    else if includeBuses then Success("(BUS)")
    else Failure(CannotParseDirection(stopId))
  }

  /**
   * The direction read off the last character of the stop id: 'N' gives
   * NORTH, 'S' gives SOUTH, and anything else (or an empty id) is a bus stop
   * when buses are searched and the ValueError otherwise.
   */
  lemma DirectionByLastChar(stopId: string, includeBuses: bool)
    ensures stopId != [] && stopId[|stopId| - 1] == 'N' ==> Direction(stopId, includeBuses) == Success("NORTH")
    ensures stopId != [] && stopId[|stopId| - 1] == 'S' ==> Direction(stopId, includeBuses) == Success("SOUTH")
    ensures (stopId == [] || (stopId[|stopId| - 1] != 'N' && stopId[|stopId| - 1] != 'S')) ==>
      Direction(stopId, includeBuses) == if includeBuses then Success("(BUS)") else Failure(CannotParseDirection(stopId))
  {
    EndsWithChar(stopId, 'N');
    EndsWithChar(stopId, 'S');
  }

  /** `query_str in stop["stop_name"].lower()`. */
  predicate Matches(q: string, row: StopRow)
  {
    Contains(q, Lower(row.stopName))
  }

  /** The record kept for a matching stop: its id, its name and direction upper-cased, its coordinates. */
  function Record(row: StopRow, direction: string): MatchedStop
  {
    MatchedStop(row.stopId, Upper(row.stopName), Upper(direction), row.stopLat, row.stopLon)
  }

  /** What one item does to the stops matched so far. */
  function Step(q: string, matched: seq<MatchedStop>, item: Item, includeBuses: bool): Result<seq<MatchedStop>, SearchError>
  {
    match item
    case Broken(url) => Failure(RequestFailed(url))
    case Row(row) =>
      if IsStation(row) then Success(matched)
      else match Direction(row.stopId, includeBuses)
        case Failure(e) => Failure(e)
        case Success(d) => Success(if Matches(q, row) then matched + [Record(row, d)] else matched)
  }

  /** The loop of `main` over the items: the first error ends the search. */
  function Search(q: string, items: seq<Item>, includeBuses: bool): (r: Result<seq<MatchedStop>, SearchError>)
    ensures r.Success? ==> |r.value| <= |items|
  {
    if items == [] then Success([])
    else
      match Search(q, items[..|items| - 1], includeBuses)
      case Failure(e) => Failure(e)
      case Success(matched) => Step(q, matched, items[|items| - 1], includeBuses)
  }

  /** The rows of a stops.txt, as items. */
  function Rows(rows: seq<StopRow>): (items: seq<Item>)
    ensures |items| == |rows|
    ensures forall i :: 0 <= i < |rows| ==> items[i] == Row(rows[i])
  {
    seq(|rows|, i requires 0 <= i < |rows| => Row(rows[i]))
  }

  /**
   * The items `get_stops` yields from `urls`: each archive's rows in order; a
   * failed download (naming its URL) ends the stream, and without buses only
   * the first archive is read.
   */
  function Stream(urls: seq<string>, includeBuses: bool, fetch: string -> Option<seq<StopRow>>): (items: seq<Item>)
    ensures forall i :: 0 <= i < |items| - 1 ==> items[i].Row?
    ensures forall i :: 0 <= i < |items| && items[i].Broken? ==> items[i].url in urls
  {
    if urls == [] then []
    else
      match fetch(urls[0])
      case None => [Broken(urls[0])]
      case Some(rows) => Rows(rows) + if includeBuses then Stream(urls[1..], includeBuses, fetch) else []
  }

  /** `get_stops(include_buses)`: the loop over DATA_URLS that breaks after the first archive when buses are not searched. */
  method GetStops(includeBuses: bool, fetch: string -> Option<seq<StopRow>>) returns (items: seq<Item>)
    ensures items == Stream(DataUrls, includeBuses, fetch)
  {
    items := [];
    var k := 0;
    while k < |DataUrls|
      invariant 0 <= k <= |DataUrls|
      invariant !includeBuses ==> k == 0
      invariant Stream(DataUrls, includeBuses, fetch) == items + Stream(DataUrls[k..], includeBuses, fetch)
      decreases |DataUrls| - k
    {
      var url := DataUrls[k];
      var stopsTxt := fetch(url);
      if stopsTxt.None? {
        // request_data raises: the generator ends with the error
        items := items + [Broken(url)];
        return;
      }
      assert DataUrls[k..][1..] == DataUrls[k + 1..];
      items := items + Rows(stopsTxt.value);
      if !includeBuses {
        return;
      }
      k := k + 1;
    }
    assert DataUrls[k..] == [];
  }

  /** Without buses the search reads the subway archive alone: no other archive is downloaded. */
  lemma SubwayOnly(fetch: string -> Option<seq<StopRow>>)
    ensures Stream(DataUrls, false, fetch) ==
      match fetch(DataUrls[0])
      case None => [Broken(DataUrls[0])]
      case Some(rows) => Rows(rows)
  {
  }

  /**
   * `main(query, output_json, include_buses)` up to its output: the matched
   * records, or the error that stopped the search.
   */
  method FindStopsCommand(query: seq<string>, includeBuses: bool, fetch: string -> Option<seq<StopRow>>)
    returns (r: Result<seq<MatchedStop>, SearchError>)
    ensures r == Search(NormalizeQuery(query), Stream(DataUrls, includeBuses, fetch), includeBuses)
  {
    var q := NormalizeQuery(query);
    var allStops := GetStops(includeBuses, fetch);
    r := MatchStops(q, allStops, includeBuses);
  }

  /** The loop of `main` over the stops `get_stops` yields, with the query already normalised. */
  method MatchStops(q: string, allStops: seq<Item>, includeBuses: bool) returns (r: Result<seq<MatchedStop>, SearchError>)
    ensures r == Search(q, allStops, includeBuses)
  {
    var matchedStops: seq<MatchedStop> := [];
    var i := 0;
    while i < |allStops|
      invariant 0 <= i <= |allStops|
      invariant Search(q, allStops[..i], includeBuses) == Success(matchedStops)
    {
      var item := allStops[i];
      SearchNext(q, allStops, i, includeBuses);
      if item.Broken? {
        SearchFailed(q, allStops[..i + 1], allStops[i + 1..], includeBuses);
        assert allStops[..i + 1] + allStops[i + 1..] == allStops;
        return Failure(RequestFailed(item.url));
      }
      var stop := item.row;
      if stop.locationType == Some("1") {
        i := i + 1;
        continue;
      }
      var direction;
      if EndsWith(stop.stopId, "N") {
        direction := "NORTH";
      } else if EndsWith(stop.stopId, "S") {
        direction := "SOUTH";
      } else if includeBuses {
        direction := "(BUS)";
      } else {
        SearchFailed(q, allStops[..i + 1], allStops[i + 1..], includeBuses);
        assert allStops[..i + 1] + allStops[i + 1..] == allStops;
        return Failure(CannotParseDirection(stop.stopId));
      }
      // stop["direction"] = direction; the record is built from it
      if Matches(q, stop) {
        matchedStops := matchedStops + [Record(stop, direction)];
      }
      i := i + 1;
    }
    assert allStops[..|allStops|] == allStops;
    r := Success(matchedStops);
  }

  /** One more item: the search of a longer prefix is the step of the last item after the shorter one. */
  lemma SearchNext(q: string, items: seq<Item>, i: int, includeBuses: bool)
    requires 0 <= i < |items|
    ensures Search(q, items[..i], includeBuses).Failure? ==>
      Search(q, items[..i + 1], includeBuses) == Search(q, items[..i], includeBuses)
    ensures Search(q, items[..i], includeBuses).Success? ==>
      Search(q, items[..i + 1], includeBuses) == Step(q, Search(q, items[..i], includeBuses).value, items[i], includeBuses)
  {
    assert items[..i + 1][..i] == items[..i];
  }

  /** Once the search has failed, later items change nothing: the first error is the one raised. */
  lemma {:induction false} SearchFailed(q: string, items: seq<Item>, more: seq<Item>, includeBuses: bool)
    requires Search(q, items, includeBuses).Failure?
    ensures Search(q, items + more, includeBuses) == Search(q, items, includeBuses)
    decreases |more|
  {
    if more == [] {
      assert items + more == items;
    } else {
      var init := more[..|more| - 1];
      SearchFailed(q, items, init, includeBuses);
      assert (items + more)[..|items + more| - 1] == items + init;
      assert Search(q, items + init, includeBuses).Failure?;
    }
  }

  /** The item makes the search fail: a failed download, or a stop (not a station) whose direction cannot be named. */
  predicate Blocks(item: Item, includeBuses: bool)
  {
    item.Broken? || (!IsStation(item.row) && Direction(item.row.stopId, includeBuses).Failure?)
  }

  /** The error a blocking item raises. */
  function BlockError(item: Item, includeBuses: bool): SearchError
  {
    if item.Broken? then RequestFailed(item.url) else CannotParseDirection(item.row.stopId)
  }

  /** The search succeeds when and only when no item blocks it. */
  lemma {:induction false} SearchSucceeds(q: string, items: seq<Item>, includeBuses: bool)
    ensures Search(q, items, includeBuses).Success? <==>
      forall i :: 0 <= i < |items| ==> !Blocks(items[i], includeBuses)
    decreases |items|
  {
    if items != [] {
      var init := items[..|items| - 1];
      SearchSucceeds(q, init, includeBuses);
      assert forall i :: 0 <= i < |init| ==> init[i] == items[i];
    }
  }

  /**
   * The first blocking item decides the error, wherever it stands: a stop id
   * without N or S aborts the whole search even when its name does not match.
   */
  lemma {:induction false} SearchFailsAtFirstBlock(q: string, items: seq<Item>, includeBuses: bool, k: nat)
    requires k < |items| && Blocks(items[k], includeBuses)
    requires forall i :: 0 <= i < k ==> !Blocks(items[i], includeBuses)
    ensures Search(q, items, includeBuses) == Failure(BlockError(items[k], includeBuses))
  {
    var pre := items[..k];
    SearchSucceeds(q, pre, includeBuses);
    assert items[..k + 1][..k] == pre;
    assert Search(q, items[..k + 1], includeBuses) == Failure(BlockError(items[k], includeBuses));
    SearchFailed(q, items[..k + 1], items[k + 1..], includeBuses);
    assert items[..k + 1] + items[k + 1..] == items;
  }

  /** The row is kept: not a station, a nameable direction, and a name containing the query. */
  predicate Kept(q: string, item: Item, includeBuses: bool)
  {
    item.Row? && !IsStation(item.row) && Direction(item.row.stopId, includeBuses).Success? && Matches(q, item.row)
  }

  /** The k-th record is the one made from the kept row at position `idx[k]`. */
  ghost predicate PickedAt(q: string, items: seq<Item>, includeBuses: bool, matched: seq<MatchedStop>, idx: seq<int>, k: int)
    requires 0 <= k < |idx| == |matched|
  {
    0 <= idx[k] < |items| && Kept(q, items[idx[k]], includeBuses) &&
    matched[k] == Record(items[idx[k]].row, Direction(items[idx[k]].row.stopId, includeBuses).value)
  }

  /**
   * `idx` lists, in increasing order, exactly the positions of the kept rows,
   * and the k-th record is the one made from the row at `idx[k]`.
   */
  ghost predicate Picks(q: string, items: seq<Item>, includeBuses: bool, matched: seq<MatchedStop>, idx: seq<int>)
  {
    |idx| == |matched| &&
    (forall k :: 0 <= k < |idx| ==> PickedAt(q, items, includeBuses, matched, idx, k)) &&
    (forall k, l :: 0 <= k < l < |idx| ==> idx[k] < idx[l]) &&
    (forall i :: 0 <= i < |items| && Kept(q, items[i], includeBuses) ==> i in idx)
  }

  /** A kept last row adds its record at the end, and its position at the end of the index list. */
  lemma PicksKept(q: string, items: seq<Item>, includeBuses: bool, matched: seq<MatchedStop>, idx: seq<int>)
    requires items != [] && Kept(q, items[|items| - 1], includeBuses)
    requires Picks(q, items[..|items| - 1], includeBuses, matched, idx)
    ensures
      var last := items[|items| - 1];
      Picks(q, items, includeBuses, matched + [Record(last.row, Direction(last.row.stopId, includeBuses).value)],
            idx + [|items| - 1])
  {
    var n := |items| - 1;
    var init := items[..n];
    var last := items[n];
    var result := matched + [Record(last.row, Direction(last.row.stopId, includeBuses).value)];
    var idx' := idx + [n];
    forall k | 0 <= k < |idx'| ensures PickedAt(q, items, includeBuses, result, idx', k) {
      if k < |idx| {
        assert PickedAt(q, init, includeBuses, matched, idx, k);
        assert idx'[k] == idx[k] && result[k] == matched[k];
        assert init[idx[k]] == items[idx[k]];
      }
    }
    forall k, l | 0 <= k < l < |idx'| ensures idx'[k] < idx'[l] {
      assert PickedAt(q, init, includeBuses, matched, idx, k);
    }
    forall i | 0 <= i < |items| && Kept(q, items[i], includeBuses) ensures i in idx' {
      if i < n {
        assert init[i] == items[i];
      }
    }
  }

  /** A last row that is not kept adds nothing. */
  lemma PicksSkipped(q: string, items: seq<Item>, includeBuses: bool, matched: seq<MatchedStop>, idx: seq<int>)
    requires items != [] && !Kept(q, items[|items| - 1], includeBuses)
    requires Picks(q, items[..|items| - 1], includeBuses, matched, idx)
    ensures Picks(q, items, includeBuses, matched, idx)
  {
    var n := |items| - 1;
    var init := items[..n];
    forall k | 0 <= k < |idx| ensures PickedAt(q, items, includeBuses, matched, idx, k) {
      assert PickedAt(q, init, includeBuses, matched, idx, k);
      assert init[idx[k]] == items[idx[k]];
    }
    forall i | 0 <= i < |items| && Kept(q, items[i], includeBuses) ensures i in idx {
      assert init[i] == items[i];
    }
  }

  /**
   * A successful search returns one record per kept row, in the order of the
   * rows, and nothing else.
   */
  lemma {:induction false} SearchPicks(q: string, items: seq<Item>, includeBuses: bool)
    requires Search(q, items, includeBuses).Success?
    ensures exists idx :: Picks(q, items, includeBuses, Search(q, items, includeBuses).value, idx)
    decreases |items|
  {
    if items == [] {
      assert Picks(q, items, includeBuses, [], []);
    } else {
      var n := |items| - 1;
      var init := items[..n];
      var matched := Search(q, init, includeBuses).value;
      SearchPicks(q, init, includeBuses);
      var idx :| Picks(q, init, includeBuses, matched, idx);
      var result := Search(q, items, includeBuses).value;
      assert result == Step(q, matched, items[n], includeBuses).value;
      if Kept(q, items[n], includeBuses) {
        PicksKept(q, items, includeBuses, matched, idx);
      } else {
        PicksSkipped(q, items, includeBuses, matched, idx);
      }
    }
  }

  /** A record's name has no lower-case letter, and its direction is one of the three. */
  lemma RecordUpper(row: StopRow, direction: string)
    requires direction == "NORTH" || direction == "SOUTH" || direction == "(BUS)"
    ensures forall i :: 0 <= i < |Record(row, direction).stopName| ==> !IsLowerAscii(Record(row, direction).stopName[i])
    ensures Record(row, direction).direction == direction
  {
    UpperIsUpper(row.stopName);
    assert Upper("NORTH") == "NORTH";
    assert Upper("SOUTH") == "SOUTH";
    assert Upper("(BUS)") == "(BUS)";
  }

  /** Every record's name and direction are upper-case. */
  lemma SearchUpper(q: string, items: seq<Item>, includeBuses: bool, m: MatchedStop)
    requires Search(q, items, includeBuses).Success? && m in Search(q, items, includeBuses).value
    ensures forall i :: 0 <= i < |m.stopName| ==> !IsLowerAscii(m.stopName[i])
    ensures m.direction == "NORTH" || m.direction == "SOUTH" || m.direction == "(BUS)"
  {
    SearchPicks(q, items, includeBuses);
    var matched := Search(q, items, includeBuses).value;
    var idx :| Picks(q, items, includeBuses, matched, idx);
    var k :| 0 <= k < |matched| && matched[k] == m;
    assert PickedAt(q, items, includeBuses, matched, idx, k);
    var row := items[idx[k]].row;
    RecordUpper(row, Direction(row.stopId, includeBuses).value);
  }

  /**
   * A station, then a northbound and a southbound platform that match, then
   * a northbound platform that does not: the search keeps the two matching
   * platforms, in order, and nothing else.
   */
  lemma {:induction false} StationAndPlatforms(q: string, station: StopRow, north: StopRow, south: StopRow, other: StopRow)
    requires IsStation(station)
    requires !IsStation(north) && Direction(north.stopId, false) == Success("NORTH") && Matches(q, north)
    requires !IsStation(south) && Direction(south.stopId, false) == Success("SOUTH") && Matches(q, south)
    requires !IsStation(other) && Direction(other.stopId, false).Success? && !Matches(q, other)
    ensures Search(q, [Row(station), Row(north), Row(south), Row(other)], false)
      == Success([Record(north, "NORTH"), Record(south, "SOUTH")])
  {
    var rows := [Row(station), Row(north), Row(south), Row(other)];
    var n := Record(north, "NORTH");
    var s := Record(south, "SOUTH");
    SearchNext(q, rows, 0, false);
    assert rows[..0] == [];
    assert Search(q, rows[..1], false) == Success([]);
    SearchNext(q, rows, 1, false);
    assert [] + [n] == [n];
    assert Search(q, rows[..2], false) == Success([n]);
    SearchNext(q, rows, 2, false);
    assert [n] + [s] == [n, s];
    assert Search(q, rows[..3], false) == Success([n, s]);
    SearchNext(q, rows, 3, false);
    assert rows[..4] == rows;
  }

  /** The Parkside Av station (D27), its two platforms, and the next stop's northbound platform. */
  function ParksideRows(): seq<Item>
  {
    [ Row(StopRow("D27", "Parkside Av", Some("1"), "40.655292", "-73.961495")),
      Row(StopRow("D27N", "Parkside Av", Some(""), "40.655292", "-73.961495")),
      Row(StopRow("D27S", "Parkside Av", Some(""), "40.655292", "-73.961495")),
      Row(StopRow("D28N", "Church Av", Some(""), "40.650527", "-73.962982")) ]
  }

  lemma LowerParkside()
    ensures Lower("PARKSIDE") == "parkside"
    ensures Lower("parkside") == "parkside"
  {
  }

  lemma LowerParksideAv()
    ensures Lower("PARKSIDE av") == "parkside av"
    ensures Lower("Parkside Av") == "parkside av"
  {
  }

  /** The queries "PARKSIDE" and "parkside" both normalise to "parkside". */
  lemma ParksideQuery(word: string)
    requires word == "PARKSIDE" || word == "parkside"
    ensures NormalizeQuery([word]) == "parkside"
  {
    LowerParkside();
    StripUnpadded("parkside");
  }

  /** The words "PARKSIDE" and "av" normalise to "parkside av". */
  lemma ParksideAvQuery()
    ensures NormalizeQuery(["PARKSIDE", "av"]) == "parkside av"
  {
    JoinSnoc(["PARKSIDE"], "av");
    assert ["PARKSIDE"] + ["av"] == ["PARKSIDE", "av"];
    LowerParksideAv();
    StripUnpadded("parkside av");
  }

  /** Both normalised queries occur in the lower-cased name "Parkside Av". */
  lemma ParksideMatches(q: string, row: StopRow)
    requires q == "parkside" || q == "parkside av"
    requires row.stopName == "Parkside Av"
    ensures Matches(q, row)
  {
    LowerParksideAv();
    assert "parkside av"[..|q|] == q;
  }

  /** A query starting with p does not occur in "church av", which has no p. */
  lemma ChurchDoesNotMatch(q: string, row: StopRow)
    requires q != [] && q[0] == 'p'
    requires row.stopName == "Church Av"
    ensures !Matches(q, row)
  {
    var lower := "church av";
    assert Lower("Church Av") == lower;
    ContainsFirstChar(q, lower);
  }

  /** The records of the two Parkside Av platforms. */
  lemma ParksideRecords()
    ensures Record(StopRow("D27N", "Parkside Av", Some(""), "40.655292", "-73.961495"), "NORTH")
      == MatchedStop("D27N", "PARKSIDE AV", "NORTH", "40.655292", "-73.961495")
    ensures Record(StopRow("D27S", "Parkside Av", Some(""), "40.655292", "-73.961495"), "SOUTH")
      == MatchedStop("D27S", "PARKSIDE AV", "SOUTH", "40.655292", "-73.961495")
  {
    assert Upper("Parkside Av") == "PARKSIDE AV";
    assert Upper("NORTH") == "NORTH";
    assert Upper("SOUTH") == "SOUTH";
  }

  /** A query that is "parkside" or "parkside av" finds the two platforms of Parkside Av and neither the station nor Church Av. */
  lemma ParksideSearch(q: string)
    requires q == "parkside" || q == "parkside av"
    ensures Search(q, ParksideRows(), false) == Success([
      MatchedStop("D27N", "PARKSIDE AV", "NORTH", "40.655292", "-73.961495"),
      MatchedStop("D27S", "PARKSIDE AV", "SOUTH", "40.655292", "-73.961495")])
  {
    var station := StopRow("D27", "Parkside Av", Some("1"), "40.655292", "-73.961495");
    var north := StopRow("D27N", "Parkside Av", Some(""), "40.655292", "-73.961495");
    var south := StopRow("D27S", "Parkside Av", Some(""), "40.655292", "-73.961495");
    var other := StopRow("D28N", "Church Av", Some(""), "40.650527", "-73.962982");
    ParksideMatches(q, north);
    ParksideMatches(q, south);
    ChurchDoesNotMatch(q, other);
    assert Direction("D27N", false) == Success("NORTH");
    assert Direction("D27S", false) == Success("SOUTH");
    assert Direction("D28N", false) == Success("NORTH");
    StationAndPlatforms(q, station, north, south, other);
    ParksideRecords();
  }

  /** Each of the queries "PARKSIDE", "parkside" and "PARKSIDE av" finds the two platforms of Parkside Av. */
  lemma ParksideExample(query: seq<string>)
    requires query == ["PARKSIDE"] || query == ["parkside"] || query == ["PARKSIDE", "av"]
    ensures Search(NormalizeQuery(query), ParksideRows(), false) == Success([
      MatchedStop("D27N", "PARKSIDE AV", "NORTH", "40.655292", "-73.961495"),
      MatchedStop("D27S", "PARKSIDE AV", "SOUTH", "40.655292", "-73.961495")])
  {
    if query == ["PARKSIDE", "av"] {
      ParksideAvQuery();
    } else {
      ParksideQuery(query[0]);
    }
    ParksideSearch(NormalizeQuery(query));
  }

  /**
   * A platform id without N or S ends the search with the ValueError when
   * buses are not searched, even though its name does not match the query;
   * with buses it is a bus stop and the search goes on.
   */
  lemma UnnamedDirectionAborts(q: string)
    ensures Search(q, [Row(StopRow("B01", "Bus Terminal", None, "", ""))] + ParksideRows(), false)
      == Failure(CannotParseDirection("B01"))
    ensures Search(q, [Row(StopRow("B01", "Bus Terminal", None, "", ""))], true).Success?
  {
    var items := [Row(StopRow("B01", "Bus Terminal", None, "", ""))] + ParksideRows();
    assert Blocks(items[0], false);
    SearchFailsAtFirstBlock(q, items, false, 0);
    SearchSucceeds(q, [Row(StopRow("B01", "Bus Terminal", None, "", ""))], true);
  }
}
