/**
 * The route/feed catalogue of the current package (src/underground/metadata.py):
 * the feed groups, the route-to-feed dictionary derived from them, the sets of
 * valid routes and feed URLs, and `resolve_url`.
 */
module Catalog {
  import opened Wrappers

  /** The single realtime feed shared by all buses. */
  const BusUrl: string := "https://gtfsrt.prod.obanyc.com/tripUpdates"

  const GtfsUrl: string := "https://api-endpoint.mta.info/Dataservice/mtagtfsfeeds/nyct%2Fgtfs"
  const AceUrl: string := "https://api-endpoint.mta.info/Dataservice/mtagtfsfeeds/nyct%2Fgtfs-ace"
  const BdfmUrl: string := "https://api-endpoint.mta.info/Dataservice/mtagtfsfeeds/nyct%2Fgtfs-bdfm"
  const GUrl: string := "https://api-endpoint.mta.info/Dataservice/mtagtfsfeeds/nyct%2Fgtfs-g"
  const JzUrl: string := "https://api-endpoint.mta.info/Dataservice/mtagtfsfeeds/nyct%2Fgtfs-jz"
  const LUrl: string := "https://api-endpoint.mta.info/Dataservice/mtagtfsfeeds/nyct%2Fgtfs-l"
  const NqrwUrl: string := "https://api-endpoint.mta.info/Dataservice/mtagtfsfeeds/nyct%2Fgtfs-nqrw"
  const SiUrl: string := "https://api-endpoint.mta.info/Dataservice/mtagtfsfeeds/nyct%2Fgtfs-si"

  /** One entry of FEED_GROUPS: a feed URL and the tuple of routes it serves. */
  datatype FeedGroup = FeedGroup(url: string, routes: seq<string>)

  /** FEED_GROUPS, in the source's insertion order. */
  const FeedGroups: seq<FeedGroup> := [
    FeedGroup(GtfsUrl, ["1", "2", "3", "4", "5", "6", "GS", "7", "SS", "5X", "6X", "7X"]),
    FeedGroup(AceUrl, ["A", "C", "E", "H"]),
    FeedGroup(BdfmUrl, ["B", "D", "F", "M", "FS", "FX"]),
    FeedGroup(GUrl, ["G"]),
    FeedGroup(JzUrl, ["J", "Z"]),
    FeedGroup(LUrl, ["L"]),
    FeedGroup(NqrwUrl, ["N", "R", "Q", "W"]),
    FeedGroup(SiUrl, ["SI"])
  ]

  /** Every route listed by some group. */
  function ListedRoutes(groups: seq<FeedGroup>): set<string>
  {
    if groups == [] then {}
    else
      var last := groups[|groups| - 1];
      ListedRoutes(groups[..|groups| - 1]) + set r | r in last.routes
  }

  /** The URL of every group that lists at least one route. */
  function ServingUrls(groups: seq<FeedGroup>): set<string>
  {
    set i | 0 <= i < |groups| && |groups[i].routes| > 0 :: groups[i].url
  }

  /** No route is listed under two groups. */
  ghost predicate Disjoint(groups: seq<FeedGroup>)
  {
    forall i, j, r :: 0 <= i < j < |groups| && r in groups[i].routes ==> r !in groups[j].routes
  }

  /**
   * The dictionary comprehension
   * `{route: url for url, routes in FEED_GROUPS.items() for route in routes}`:
   * groups are inserted in order, so a later group overwrites an earlier one.
   */
  function RouteFeedMapOf(groups: seq<FeedGroup>): map<string, string>
  {
    if groups == [] then map[]
    else
      var last := groups[|groups| - 1];
      RouteFeedMapOf(groups[..|groups| - 1]) + map r | r in last.routes :: last.url
  }

  /** A route is a key of the dictionary exactly when some group lists it. */
  lemma {:induction false} RouteFeedMapKeys(groups: seq<FeedGroup>, r: string)
    ensures r in RouteFeedMapOf(groups) <==> exists i :: 0 <= i < |groups| && r in groups[i].routes
    ensures RouteFeedMapOf(groups).Keys == ListedRoutes(groups)
  {
    if groups != [] {
      var init := groups[..|groups| - 1];
      RouteFeedMapKeys(init, r);
      assert forall i :: 0 <= i < |init| ==> init[i] == groups[i];
      forall r' ensures r' in RouteFeedMapOf(init) <==> r' in ListedRoutes(init) {
        RouteFeedMapKeys(init, r');
      }
    }
  }

  /** The value stored for a route is the URL of the last group that lists it. */
  lemma {:induction false} RouteFeedMapLastWins(groups: seq<FeedGroup>, i: nat, r: string)
    requires i < |groups| && r in groups[i].routes
    requires forall j :: i < j < |groups| ==> r !in groups[j].routes
    ensures r in RouteFeedMapOf(groups) && RouteFeedMapOf(groups)[r] == groups[i].url
  {
    var init := groups[..|groups| - 1];
    if i < |groups| - 1 {
      assert init[i] == groups[i];
      RouteFeedMapLastWins(init, i, r);
    }
  }

  /** Every stored value is the URL of a group that lists the route. */
  lemma {:induction false} RouteFeedMapValue(groups: seq<FeedGroup>, r: string)
    requires r in RouteFeedMapOf(groups)
    ensures exists i :: 0 <= i < |groups| && r in groups[i].routes && RouteFeedMapOf(groups)[r] == groups[i].url
  {
    var init, last := groups[..|groups| - 1], groups[|groups| - 1];
    if r !in last.routes {
      RouteFeedMapValue(init, r);
      var i :| 0 <= i < |init| && r in init[i].routes && RouteFeedMapOf(init)[r] == init[i].url;
      assert init[i] == groups[i];
    }
  }

  /** ROUTE_FEED_MAP, VALID_ROUTES and VALID_FEED_URLS. */
  const RouteFeedMap: map<string, string> := RouteFeedMapOf(FeedGroups)
  const ValidRoutes: set<string> := RouteFeedMap.Keys
  const ValidFeedUrls: set<string> := RouteFeedMap.Values

  /** UnknownRouteOrURL, carrying the rejected input. */
  datatype UnknownRouteOrUrl = UnknownRouteOrUrl(input: string)

  /**
   * `resolve_url`: a valid feed URL or the bus URL is returned as given, "BUS"
   * becomes the bus URL, a known route becomes its feed URL, and anything else
   * raises UnknownRouteOrURL.
   */
  function ResolveUrl(routeOrUrl: string): (r: Result<string, UnknownRouteOrUrl>)
    ensures r.Success? ==> r.value in ValidFeedUrls + {BusUrl}
    ensures r.Failure? <==>
      routeOrUrl !in ValidFeedUrls && routeOrUrl != BusUrl && routeOrUrl != "BUS" && routeOrUrl !in ValidRoutes
    ensures r.Failure? ==> r.error == UnknownRouteOrUrl(routeOrUrl)
  {
    if routeOrUrl in ValidFeedUrls then Success(routeOrUrl)
    else if routeOrUrl == BusUrl then Success(routeOrUrl)
    else if routeOrUrl == "BUS" then Success(BusUrl)
    else if routeOrUrl !in RouteFeedMap then Failure(UnknownRouteOrUrl(routeOrUrl))
    else Success(RouteFeedMap[routeOrUrl])
  }

  /** The route tuples of FEED_GROUPS are pairwise disjoint. */
  lemma FeedGroupsDisjoint()
    ensures Disjoint(FeedGroups)
  {
    forall i, j, r | 0 <= i < j < |FeedGroups| && r in FeedGroups[i].routes
      ensures r !in FeedGroups[j].routes
    {
      RouteCodes(i, r);
      if r in FeedGroups[j].routes {
        RouteCodes(j, r);
        CodesDisjoint(i, j, Code(r));
      }
    }
  }

  /** A number for a route id of one or two characters, told apart by its characters. */
  ghost function Code(r: string): int
  {
    if |r| == 1 then r[0] as int else if |r| == 2 then r[0] as int * 256 + r[1] as int else -1
  }

  /** The codes of the routes of each group, in FEED_GROUPS order. */
  ghost const GroupCodes: seq<set<int>> := [
    {49, 50, 51, 52, 53, 54, 18259, 55, 21331, 13656, 13912, 14168},
    {65, 67, 69, 72},
    {66, 68, 70, 77, 18003, 18008},
    {71},
    {74, 90},
    {76},
    {78, 82, 81, 87},
    {21321}
  ]

  /** Each route's code is among its group's codes. */
  lemma RouteCodes(k: nat, r: string)
    requires k < |FeedGroups| && r in FeedGroups[k].routes
    ensures Code(r) in GroupCodes[k]
  {
  }

  /** No code belongs to two groups. */
  lemma CodesDisjoint(i: nat, j: nat, c: int)
    requires i < j < |GroupCodes| && c in GroupCodes[i]
    ensures c !in GroupCodes[j]
  {
  }

  /** Every route listed under a group is mapped to that group's URL. */
  lemma RouteFeedMapMatchesGroups(i: nat, r: string)
    requires i < |FeedGroups| && r in FeedGroups[i].routes
    ensures r in RouteFeedMap && RouteFeedMap[r] == FeedGroups[i].url
  {
    FeedGroupsDisjoint();
    RouteFeedMapLastWins(FeedGroups, i, r);
  }

  /** Under disjointness the values are exactly the URLs of the non-empty groups. */
  lemma {:induction false} DisjointValues(groups: seq<FeedGroup>)
    requires Disjoint(groups)
    ensures RouteFeedMapOf(groups).Values == ServingUrls(groups)
  {
    var m := RouteFeedMapOf(groups);
    forall u | u in m.Values ensures u in ServingUrls(groups) {
      var r :| r in m && m[r] == u;
      RouteFeedMapValue(groups, r);
    }
    forall u | u in ServingUrls(groups) ensures u in m.Values {
      var i :| 0 <= i < |groups| && |groups[i].routes| > 0 && groups[i].url == u;
      RouteFeedMapLastWins(groups, i, groups[i].routes[0]);
    }
  }

  /**
   * VALID_ROUTES is the set of all listed routes and VALID_FEED_URLS is the set
   * of the URLs of all eight groups: every group URL is valid.
   */
  lemma ValidSets()
    ensures ValidRoutes == ListedRoutes(FeedGroups)
    ensures ValidFeedUrls == ServingUrls(FeedGroups)
    ensures forall i :: 0 <= i < |FeedGroups| ==> FeedGroups[i].url in ValidFeedUrls
  {
    RouteFeedMapKeys(FeedGroups, "");
    FeedGroupsDisjoint();
    DisjointValues(FeedGroups);
  }

  lemma GroupRouteLength(i: nat, r: string)
    requires i < |FeedGroups| && r in FeedGroups[i].routes
    ensures |r| <= 2
  {
  }

  lemma GroupUrlLength(i: nat)
    requires i < |FeedGroups|
    ensures |FeedGroups[i].url| > 20
  {
  }

  /** A route id is at most two characters long. */
  lemma RouteLength(r: string)
    requires r in ValidRoutes
    ensures |r| <= 2
  {
    RouteFeedMapKeys(FeedGroups, r);
    var i :| 0 <= i < |FeedGroups| && r in FeedGroups[i].routes;
    GroupRouteLength(i, r);
  }

  /** A valid feed URL is far longer than a route id. */
  lemma UrlLength(u: string)
    requires u in ValidFeedUrls
    ensures |u| > 20
  {
    ValidSets();
    var i :| 0 <= i < |FeedGroups| && |FeedGroups[i].routes| > 0 && FeedGroups[i].url == u;
    GroupUrlLength(i);
  }

  /** So no route id is mistaken for a URL, for the bus URL or for "BUS". */
  lemma RoutesAreNotUrls(r: string)
    requires r in ValidRoutes
    ensures r !in ValidFeedUrls && r != BusUrl && r != "BUS"
  {
    RouteLength(r);
    if r in ValidFeedUrls {
      UrlLength(r);
    }
  }

  /** Every known route resolves to its ROUTE_FEED_MAP entry. */
  lemma ResolveUrlOfRoute(r: string)
    requires r in ValidRoutes
    ensures ResolveUrl(r) == Success(RouteFeedMap[r])
  {
    RoutesAreNotUrls(r);
  }

  /** A string that is already a valid feed URL, or the bus URL, is returned unchanged. */
  lemma ResolveUrlOfUrl(u: string)
    requires u in ValidFeedUrls + {BusUrl}
    ensures ResolveUrl(u) == Success(u)
  {
  }

  /** Resolving a resolved URL changes nothing. */
  lemma ResolveUrlIdempotent(x: string)
    requires ResolveUrl(x).Success?
    ensures ResolveUrl(ResolveUrl(x).value) == ResolveUrl(x)
  {
    ResolveUrlOfUrl(ResolveUrl(x).value);
  }

  /** Route "1" resolves to the numbered-lines feed, which resolves to itself. */
  lemma ResolveUrlOfRouteOne()
    ensures ResolveUrl("1") == Success(GtfsUrl)
    ensures ResolveUrl(GtfsUrl) == Success(GtfsUrl)
  {
    RouteFeedMapMatchesGroups(0, "1");
    ResolveUrlOfRoute("1");
  }

  /** "BUS" and the bus URL both resolve to the bus URL. */
  lemma ResolveUrlOfBus()
    ensures ResolveUrl("BUS") == Success(BusUrl)
    ensures ResolveUrl(BusUrl) == Success(BusUrl)
  {
    if "BUS" in ValidFeedUrls {
      UrlLength("BUS");
    }
  }

  /** An unknown route raises UnknownRouteOrURL. */
  lemma ResolveUrlOfUnknown()
    ensures ResolveUrl("INVALID_ROUTE") == Failure(UnknownRouteOrUrl("INVALID_ROUTE"))
  {
    if "INVALID_ROUTE" in ValidRoutes {
      RouteLength("INVALID_ROUTE");
    }
    if "INVALID_ROUTE" in ValidFeedUrls {
      UrlLength("INVALID_ROUTE");
    }
  }
}
