# underground — a verified model of the NYC subway realtime-feed core

`underground` reads the New York City subway's GTFS-realtime feeds. It finds the
feed that serves a route, fetches the feed and retries while the feed is only
half written, validates the decoded message, and turns it into a table
`{route: {stop: [t1, t2, ...]}}` of upcoming departures. It also has a command
that searches the static stop list for a stop id.

The repository holds three generations of this logic, and each one is modelled
here because they differ in observable ways:

- **`src/underground`** (the current package). It has string feed URLs, the
  `resolve_url` catalogue, and a time-filtered extraction that maps express
  aliases to their parent route.
- **`underground`**. It has integer feed ids, the `ROUTE_REMAP` alias table, a
  recursive fetch and stricter models.
- **`mta`** (the first package). It has a recursive fetch, and an extraction
  that works on plain dictionaries.

One Dafny module models each source file. A few shared modules hold what the
versions have in common:

| module | models |
|---|---|
| `Wrappers` | `Option` and `Result` |
| `Gtfs` | the feed records, with optional fields as `Option` and instants as integer epoch seconds |
| `Catalog` | `src/underground/metadata.py` |
| `LegacyCatalog` | `underground/metadata.py` |
| `Validation` | the pydantic validators and required fields of the three `models.py` |
| `Grouping` | the grouping loop that every `extract_stop_dict` ends with, proved equal to a declarative table |
| `Models`, `LegacyModels`, `MtaModels` | the three `models.py` |
| `Transport` | `load_protobuf`/`parse_feed_data`, `raise_for_status`, the API-key fallback and the exceptions |
| `Retry` | the bounded `for attempt in range(retries + 1)` loop shared by both `feed.py` |
| `Feed`, `LegacyFeed` | the two `feed.py` |
| `RecursiveRetry` | the self-recursive `request_feed_data` shared by both `mta.py` |
| `Mta`, `LegacyMta` | `mta/mta.py` and `underground/mta.py` |
| `Text` | the ASCII string operations the stop search uses |
| `FindStops`, `LegacyFindStops` | the two `cli/findstops.py` |

The model works in terms of a few oracles:

- The network, the protobuf decoder and the zip/CSV reader are function
  parameters, such as `get`, `decode`, `fetch` and `download`. Their answers
  are given, not computed.
- Sleeps and requests are counted.
- A recursive retry that never gives up is seen through a finite list of
  replies. If the replies run out while the function is still retrying, the
  run ends as `Unfinished`.

Three places where the sources disagree with each other or with their
documentation are handled as follows:

- **`ROUTE_REMAP` in the current models.** `src/underground/models.py`
  validates and maps routes with `metadata.ROUTE_REMAP`, but
  `src/underground/metadata.py` does not define that table. The model uses the
  table of `underground/metadata.py`, exactly as its import-time loop leaves
  it.
- **`VALID_ROUTES` in the older models.** `underground/models.py` and
  `mta/models.py` check routes against a `VALID_ROUTES` set that their
  metadata modules do not provide. That set is a parameter.
- **Negative `retries` in the `for`-loop versions.** The documentation of
  `request_robust` says that `retries=-1` means unlimited retries. The code
  runs `range(0)`, so it decodes nothing: it returns the first payload
  undecoded, and with `return_dict=True` it fails on the unbound `feed_dict`.
  The model follows the code. `Retry.NegativeRetries` and
  `LegacyFeed.GetNegativeRetries` state what actually happens. The recursive
  versions never give up on their own account
  (`RecursiveRetry.NegativeNeverGivesUp`). The interpreter's recursion limit
  still ends a long enough run, as noted under "Left out".

## Model

| member | source | states |
|---|---|---|
| Catalog.RouteFeedMapKeys | src/underground/metadata.py:53 | a route is a key of ROUTE_FEED_MAP exactly when some group of FEED_GROUPS lists it, so the key set is the set of listed routes |
| Catalog.RouteFeedMapLastWins | src/underground/metadata.py:53 | the comprehension stores, for a route, the URL of the last group that lists it |
| Catalog.RouteFeedMapValue | src/underground/metadata.py:53 | every stored URL is the URL of a group that lists that route |
| Catalog.FeedGroupsDisjoint | src/underground/metadata.py:10-50 | the route tuples of FEED_GROUPS are pairwise disjoint |
| Catalog.RouteFeedMapMatchesGroups | src/underground/metadata.py:10-53 | for every group URL u and every route r listed under u, ROUTE_FEED_MAP[r] == u |
| Catalog.DisjointValues | src/underground/metadata.py:53-57 | when no route is listed twice, the value set of the dictionary is exactly the set of URLs of the groups that list a route |
| Catalog.ValidSets | src/underground/metadata.py:56-57 | VALID_ROUTES is the set of all listed routes and VALID_FEED_URLS the set of the group URLs; every group URL is valid |
| Catalog.RouteLength | src/underground/metadata.py:56 | every valid route id has at most two characters |
| Catalog.UrlLength | src/underground/metadata.py:57 | every valid feed URL is longer than twenty characters |
| Catalog.RoutesAreNotUrls | src/underground/metadata.py:64-78 | no route is a feed URL, the bus URL or "BUS", so the earlier branches of resolve_url never capture a route |
| Catalog.ResolveUrl | src/underground/metadata.py:64-78 | a result is in VALID_FEED_URLS or is BUS_URL; UnknownRouteOrURL is raised exactly when the input is not a valid URL, not BUS_URL, not "BUS" and not a known route, and it carries the input |
| Catalog.ResolveUrlOfRoute | src/underground/metadata.py:75-78 | every known route resolves to its ROUTE_FEED_MAP entry |
| Catalog.ResolveUrlOfUrl | src/underground/metadata.py:66-70 | a valid feed URL or the bus URL is returned unchanged |
| Catalog.ResolveUrlIdempotent | src/underground/metadata.py:64-78 | resolving a resolved URL gives the same result: resolve_url(resolve_url(x)) == resolve_url(x) |
| Catalog.ResolveUrlOfRouteOne | test/test_metadata.py:9-13 | route "1" resolves to the nyct%2Fgtfs URL, and that URL resolves to itself |
| Catalog.ResolveUrlOfBus | test/test_metadata.py:14-15 | "BUS" and BUS_URL both resolve to BUS_URL |
| Catalog.ResolveUrlOfUnknown | test/test_metadata.py:24-27 | "INVALID_ROUTE" raises UnknownRouteOrURL |
| LegacyCatalog.BuildRemap | underground/metadata.py:37-39 | the import-time loop, which starts from the alias literal and sets every ROUTE_FEED_MAP key to itself, yields the table Remap(aliases, keys) |
| LegacyCatalog.RemapSnoc | underground/metadata.py:38-39 | one more pass of the loop sets one more key to itself and changes nothing else |
| LegacyCatalog.RemapAt | underground/metadata.py:37-39 | after the loop a route key maps to itself and every other key to its alias target |
| LegacyCatalog.RemapKeys | underground/metadata.py:37-39 | the table's keys are the alias keys together with the loop's keys |
| LegacyCatalog.AliasesAreNotRoutes | underground/metadata.py:3-37 | none of 5X, 6X, 7X, FX and "" is a route, so the loop overwrites no alias |
| LegacyCatalog.RouteRemapAliases | underground/metadata.py:37 | ROUTE_REMAP sends 5X to 5, 6X to 6, 7X to 7, FX to F and "" to "" |
| LegacyCatalog.RouteRemapIdentity | underground/metadata.py:38-39 | every key of ROUTE_FEED_MAP is mapped to itself |
| LegacyCatalog.RouteRemapKeys | underground/metadata.py:3-39 | the key set of ROUTE_REMAP is the ROUTE_FEED_MAP keys plus 5X, 6X, 7X, FX and "" |
| LegacyCatalog.RouteRemapEmpty | underground/metadata.py:37-39 | only the unassigned route "" is mapped to "" |
| LegacyCatalog.RemapIdempotent | underground/metadata.py:37-39 | a table built this way is idempotent when every alias that the loop does not overwrite points at a key or at itself |
| LegacyCatalog.RouteRemapIdempotent | underground/metadata.py:37-39 | ROUTE_REMAP[ROUTE_REMAP[k]] == ROUTE_REMAP[k] for every key k |
| LegacyCatalog.GetFeedId | underground/metadata.py:42-44 | get_feed_id succeeds exactly when the route is a ROUTE_REMAP key whose image is a ROUTE_FEED_MAP key; an unknown route raises KeyError carrying that route |
| LegacyCatalog.GetFeedIdValid | underground/metadata.py:44-47 | a feed id that get_feed_id returns is in VALID_FEED_IDS |
| LegacyCatalog.GetFeedIdDomain | underground/metadata.py:3-44 | get_feed_id succeeds exactly on the ROUTE_FEED_MAP keys and on 5X, 6X, 7X and FX |
| LegacyCatalog.GetFeedIdOfAlias | underground/metadata.py:37-44 | an alias has a feed unless it is the unassigned route "" |
| LegacyCatalog.GetFeedIdCanonical | underground/metadata.py:42-44 | a route and its canonical id share a feed |
| LegacyCatalog.GetFeedIdOfExpress | underground/metadata.py:42-44 | get_feed_id("5X") == get_feed_id("5") == 1 |
| LegacyCatalog.GetFeedIdOfUnassigned | underground/metadata.py:37-44 | get_feed_id("") raises KeyError("") |
| LegacyCatalog.GetFeedIdOfUnknown | underground/metadata.py:42-44 | an unknown route such as "FAKE" is not in ROUTE_REMAP and raises KeyError("FAKE") |
| LegacyCatalog.FeedIdsBounded | underground/metadata.py:3-31 | every route's feed id is one of 1, 2, 11, 16, 21, 26, 31, 36 and 51 |
| LegacyCatalog.ValidFeedIdsValue | underground/metadata.py:47 | VALID_FEED_IDS is exactly {1, 2, 11, 16, 21, 26, 31, 36, 51} |
| Validation.TripErrors | src/underground/models.py:44-61 | a Trip validates exactly when start_date >= 19000101, the route is in the version's route set, and (in the older models) start_time is present; NotADate is reported exactly when start_date < 19000101 and InvalidRoute exactly when the route is not in the set |
| Validation.StopErrors | underground/models.py:72-74 | a StopTimeUpdate of the older models validates exactly when it has both arrival and departure; in the current models both are optional |
| Validation.StopsErrors | underground/models.py:89-90 | a stop_time_update list validates exactly when every element does |
| Validation.EntitiesErrors | underground/models.py:116-117 | an entity list validates exactly when every entity does |
| Validation.Construct | underground/models.py:110-117 | SubwayFeed(**d) succeeds exactly when the header and the entity list are present and every entity validates; the feed is then built from them; a missing header or entity list is reported |
| Validation.ValidEntityMeans | src/underground/models.py:121-166 | an entity is valid exactly when its vehicle's trip and its trip update's trip validate, every stop validates, and (in the older models) the vehicle has a stop_id |
| Validation.CurrentRoutesRemappable | src/underground/models.py:52-61 | in a feed that the current models accept, every trip update's route is a key of ROUTE_REMAP |
| Validation.StrictDeparturesPresent | underground/models.py:72-74 | in a feed that the older models accept, every stop of every trip update has a departure and an arrival |
| Validation.StartDateBoundary | src/underground/models.py:44-50 | 19000101 passes check_start_date and 19000100 is reported as not a date |
| Validation.CurrentAcceptsRoutes | src/underground/models.py:52-61 | the current models accept route "1", the express route "5X" and the unassigned route "" |
| Validation.CurrentRejectsTrips | src/underground/models.py:44-61 | the current models reject start_date 0 and route "FAKE", each with its own error |
| Validation.StrictRequiredFields | underground/models.py:36-74 | the older models reject a stop without departure or without arrival, and a trip without start_time; the current models accept a stop with neither |
| Grouping.TimesAt | src/underground/models.py:248-257 | a time is in the list for (route, stop) exactly when the stream holds that tuple |
| Grouping.TimesAtSnoc | src/underground/models.py:257 | appending a tuple appends its time to its own list and to no other |
| Grouping.GroupedSnoc | src/underground/models.py:250-257 | one turn of the loop creates the route's dictionary and the stop's list if they are missing, then appends the time |
| Grouping.AddStopTime | src/underground/models.py:250-257 | the three in-place updates of the loop body equal the single table update that GroupedSnoc describes |
| Grouping.GroupStops | src/underground/models.py:248-257 | the loop over stops_flat builds exactly the declarative table Grouped |
| Grouping.GroupedKeys | src/underground/models.py:250-255 | the route keys are the routes of the stream, and a route's stop keys are the stops seen with it |
| Grouping.GroupedNonEmpty | src/underground/models.py:250-257 | no route dictionary and no stop list is ever empty |
| Grouping.GroupedMembership | src/underground/models.py:248-257 | a time is listed under (route, stop) exactly when the stream holds that tuple |
| Grouping.TimesAtAppend | src/underground/models.py:257 | each tuple contributes exactly one value to its own list, in stream order |
| Grouping.GroupedSingle | src/underground/models.py:250-257 | one tuple gives one route with one stop and one time |
| Grouping.GroupedTwo | src/underground/models.py:250-257 | two tuples of one route at different stops give two one-element lists |
| Grouping.GroupedThree | src/underground/models.py:250-257 | with three tuples of one route, where the last two share a stop, that stop's list holds both times in stream order |
| Grouping.GroupedSameStop | underground/models.py:183-190 | two tuples at the same route and stop give one list of both times, in order |
| Models.RouteIdMapped | src/underground/models.py:63-69 | route_id_mapped is a canonical route (its own ROUTE_REMAP image), and it is "" exactly when the trip's route is "" |
| Models.AssignedRouteMapped | src/underground/models.py:63-74 | route_is_assigned holds exactly when the mapped route is not "" |
| Models.DepartOrArrive | src/underground/models.py:98-106 | depart_or_arrive is the departure if present, otherwise the arrival, and it is absent exactly when both are |
| Models.RouteIdMappedExpress | src/underground/models.py:63-69 | a 5X trip maps to route 5 |
| Models.TripUpdates | src/underground/models.py:226-227 | the trip-update pipeline is no longer than the entity list |
| Models.TripUpdatesMembership | src/underground/models.py:226-227 | the updates kept are exactly those of the entities that carry one |
| Models.AssignedWithStops | src/underground/models.py:230-233 | an update is kept exactly when it has an assigned route and a stop list |
| Models.StopEntries | src/underground/models.py:241-244 | every tuple of a trip update is under the update's route and has a time not before the header's |
| Models.StopEntriesMembership | src/underground/models.py:241-244 | a stop list yields a tuple exactly when one of its stops has that id and an effective time, and that time is not before the header's |
| Models.WellFormedRemappable | src/underground/models.py:52-61 | in a validated feed every trip update's route can be mapped |
| Models.ExtractStopDict | src/underground/models.py:210-259 | extract_stop_dict is the grouping loop over the filtered, time-bounded tuples under the mapped route |
| Models.StopsFlatMembership | src/underground/models.py:235-245 | the generator yields a tuple exactly when one of the kept updates does |
| Models.FlattenSound | src/underground/models.py:225-245 | every tuple produced comes from an entity with an assigned trip update, one of whose stops has that time, which is not before the header |
| Models.FlattenComplete | src/underground/models.py:225-245 | every such stop of every such entity is produced |
| Models.FlattenMembership | src/underground/models.py:225-245 | a tuple is produced exactly when some entity yields it |
| Models.TripUpdatesAppend | src/underground/models.py:226-227 | the first filter and map preserve order over concatenated entity lists |
| Models.AssignedWithStopsAppend | src/underground/models.py:230-233 | the assigned-route filter preserves order over concatenation |
| Models.StopsFlatAppend | src/underground/models.py:235-245 | the generator preserves order over concatenation |
| Models.FlattenAppend | src/underground/models.py:225-245 | the tuples of concatenated entity lists are the first list's tuples followed by the second's |
| Models.StopEntriesAppend | src/underground/models.py:241-244 | a stop list yields its stops' tuples in order |
| Models.StopEntriesSingle | src/underground/models.py:243-244 | one stop yields one tuple when it has a time not before the header's, and none otherwise |
| Models.FlattenSingle | src/underground/models.py:225-245 | one entity contributes its stops' tuples when it has an assigned trip update with a stop list, and nothing otherwise |
| Models.ExtractMembership | src/underground/models.py:210-259 | a time is listed under a route and stop exactly when some entity yields that tuple |
| Models.ExtractCanonical | src/underground/models.py:237-257 | every route key of the table is an assigned, canonical route, and no listed time is before the header |
| Models.BoundaryStops | src/underground/models.py:243-244 | with a bound of 100, a stop at 100 is kept, while a stop at 99 and a stop with no time are dropped |
| Models.HeaderBoundary | src/underground/models.py:243-244 | the header timestamp is an inclusive bound for a whole feed |
| Models.SampleFlatten | test/test_cli.py:31-62 | the command-line tests' sample feed yields ONE at 0, TWO at 1 and TWO at 3 under route 1 |
| Models.ExtractSample | test/test_cli.py:31-62 | the sample feed extracts to {"1": {"ONE": [0], "TWO": [1, 3]}} |
| Models.ExtractExpress | src/underground/models.py:237 | the stops of a 5X trip are listed under route 5 |
| LegacyModels.WithStops | underground/models.py:166-168 | an update is kept exactly when it has a stop list |
| LegacyModels.Departures | underground/models.py:170-178 | a trip update yields one tuple per stop, in order, each with its raw route, its stop id and its departure |
| LegacyModels.WellFormedDeparting | underground/models.py:72-74 | in a feed that the older models accept, every stop of every trip update has a departure |
| LegacyModels.ExtractStopDict | underground/models.py:146-192 | extract_stop_dict is the grouping loop over the departures of the updates with a stop list, under the raw route |
| LegacyModels.StopsFlatMembership | underground/models.py:170-178 | the generator yields a tuple exactly when a kept update lists it |
| LegacyModels.FlattenSound | underground/models.py:161-178 | every tuple produced is a stop's departure under the raw route of an entity's trip update |
| LegacyModels.FlattenComplete | underground/models.py:161-178 | every departure of every stop of every trip update with a stop list is produced, whatever its time |
| LegacyModels.FlattenMembership | underground/models.py:161-178 | a tuple is produced exactly when it is such a departure |
| LegacyModels.WithStopsCount | underground/models.py:166-168 | dropping the updates without a stop list removes no stop |
| LegacyModels.StopsFlatLength | underground/models.py:170-178 | the generator yields one tuple per stop of the kept updates |
| LegacyModels.FlattenLength | underground/models.py:161-190 | each (trip update, stop) pair contributes exactly one appended value |
| LegacyModels.WithStopsAppend | underground/models.py:166-168 | the stop-list filter preserves order over concatenation |
| LegacyModels.StopsFlatAppend | underground/models.py:170-178 | the generator preserves order over concatenation |
| LegacyModels.FlattenAppend | underground/models.py:161-178 | the tuples of concatenated entity lists are the first list's followed by the second's |
| LegacyModels.Route7Single | underground/models.py:170-178 | one route-7 update at 702N yields its one departure |
| LegacyModels.Route7Flatten | underground/models.py:170-178 | two route-7 updates at 702N yield their two departures in order |
| LegacyModels.Route7Example | test/test_models.py:25-33 | two route-7 updates at 702N give a list of length two under "7", whatever the header time |
| MtaModels.FromContent | mta/models.py:124-134 | from_content raises DecodeError for a payload that does not decode and GTFSEmptyError for a dictionary without "entity"; an error is one that the fetch loop retries exactly when load_protobuf fails; a feed it returns is valid and is the decoded dictionary |
| MtaModels.FromContentValid | mta/models.py:124-134 | a payload that decodes to a complete, valid dictionary gives the feed it describes |
| MtaModels.WithTripUpdate | mta/models.py:147 | an entity is kept exactly when it has a trip update |
| MtaModels.WithTripUpdateIdempotent | mta/models.py:147-148 | filtering a second time changes nothing |
| MtaModels.TripUpdatesFiltered | mta/models.py:147-149 | taking the trip updates after the filter gives the same updates as without it |
| MtaModels.ExtractStopDict | mta/models.py:136-174 | the doubled filter, the stop-list filter and the grouping loop give exactly the older models' table |
| Transport.LoadProtobuf | src/underground/feed.py:32-38 | load_protobuf returns the decoded dictionary exactly when it decodes and has "entity"; otherwise it raises EmptyFeedError or DecodeError, the two errors the loops retry |
| Transport.LoadProtobufNoEntity | src/underground/feed.py:35-36 | a dictionary without "entity", including the empty one, raises EmptyFeedError |
| Mta.ParseFeedData | mta/mta.py:18-27 | parse_feed_data gives the decoded dictionary exactly when the payload decodes and has "entity"; an undecodable payload raises DecodeError and one without "entity" GTFSEmptyError |
| Transport.RaiseForStatus | src/underground/feed.py:74-75 | a 4xx or 5xx status raises HTTPError with that status, a failed connection raises, and any other reply gives its body |
| Transport.ApiKey | src/underground/feed.py:66-71 | the key is the explicit one if it is a non-empty string, else the environment variable; the ValueError is raised exactly when neither is available |
| Transport.ApiKeyPrecedence | src/underground/feed.py:66 | a non-empty explicit key wins over the environment, and an empty one counts as none |
| Retry.Attempts | src/underground/feed.py:116-129 | from any iteration, requests equal sleeps and are at most the iterations left; a success is a dictionary exactly when return_dict is set |
| Retry.RequestRobust | src/underground/feed.py:114-131 | there is at least one request and one sleep fewer than requests; at most retries + 1 requests when retries >= 0, and exactly one when retries < 0 |
| Retry.RequestRobustLoop | src/underground/feed.py:114-131 | the attempt loop with break and raise returns what RequestRobust specifies, with the same numbers of requests and sleeps |
| Retry.AllFail | src/underground/feed.py:116-129 | with retries = N >= 0 and no payload decoding, there are N + 1 requests and N sleeps, and the last payload's EmptyFeedError or DecodeError is raised |
| Retry.FirstSuccess | src/underground/feed.py:116-122 | if payload k (k <= retries) is the first to decode, there are k + 1 requests and k sleeps, and that payload's dictionary or bytes is returned |
| Retry.RequestErrorNotRetried | src/underground/feed.py:121-129 | an error raised by request itself ends the run at once with that error |
| Retry.NegativeRetries | src/underground/feed.py:116-131 | with retries < 0 there is one request and nothing is decoded: the first payload is returned as bytes, and asking for the dictionary fails |
| Retry.ReturnDictIsLoad | src/underground/feed.py:103-131 | for retries >= 0, return_dict=True gives load_protobuf of the bytes that return_dict=False gives, with the same requests and sleeps |
| Feed.Request | src/underground/feed.py:62-77 | request raises UnknownRouteOrURL first, then the missing-key ValueError, and otherwise gives the reply from the resolved URL with the chosen key through raise_for_status |
| Feed.RequestRobust | src/underground/feed.py:114-131 | request_robust over route or URL runs the bounded retry loop with request as the k-th request |
| Feed.UnknownRouteFailsFirst | src/underground/feed.py:63 | an unknown route fails after one call, before the key lookup or any reply, whatever the retries |
| Feed.MissingKeyFails | src/underground/feed.py:66-71 | with no key (or an empty one) and no environment variable, the ValueError is raised before any reply is read |
| Feed.HttpErrorNotRetried | src/underground/feed.py:75 | a 4xx or 5xx reply to the first GET is raised, not retried |
| Feed.InvalidRouteExample | src/underground/feed.py:63 | request_robust("INVALID_ROUTE") raises UnknownRouteOrURL |
| LegacyFeed.Request | underground/feed.py:62-83 | request raises the ValueError for a feed id outside VALID_FEED_IDS, then the missing-key ValueError, and otherwise gives the reply through raise_for_status |
| LegacyFeed.RequestRobust | underground/feed.py:117-134 | request_robust over a feed id runs the bounded retry loop with request as the k-th request |
| LegacyFeed.InvalidFeedIdFailsFirst | underground/feed.py:62-66 | an invalid feed id fails after one call, before the key lookup or any reply |
| LegacyFeed.FeedIdExamples | underground/feed.py:63 | feed 3 is refused and feed 1 is requested |
| LegacyFeed.MissingKeyFails | underground/feed.py:69-74 | with no key and no environment variable the ValueError is raised before any reply |
| LegacyFeed.Get | underground/models.py:119-144 | SubwayFeed.get passes request_robust's error through unchanged; from a returned dictionary it gives the feed that validation builds, or ValidationError with validation's errors; a feed it returns is therefore valid and is the dictionary request_robust returned |
| LegacyFeed.GetFirstValid | underground/models.py:140-144 | when payload k (k <= retries) is the first to decode and it decodes to a valid feed, SubwayFeed.get returns exactly that feed |
| LegacyFeed.GetInvalidFeedId | underground/models.py:140-144 | SubwayFeed.get with an invalid feed id raises the ValueError of request |
| LegacyFeed.GetNegativeRetries | underground/feed.py:119-134 | with retries < 0, SubwayFeed.get never returns a feed |
| RecursiveRetry.RequestFeedData | mta/mta.py:49-68 | an invalid feed id is refused before any GET; there are never more GETs than replies; an unfinished run has slept after every reply; a finished run has slept once fewer than it requested |
| RecursiveRetry.AllFail | mta/mta.py:54-66 | with retries = N >= 0 and N + 1 payloads that do not decode, there are N + 1 GETs and N sleeps, and the last error is raised again |
| RecursiveRetry.NegativeNeverGivesUp | mta/mta.py:61-66 | a negative retries never reaches 0: after any number of payloads that do not decode, the function is still retrying, having slept after each, so it never gives up on its own account |
| RecursiveRetry.FirstStop | mta/mta.py:54-68 | the first reply that is not retried ends the run with its result, after k + 1 GETs and k sleeps |
| RecursiveRetry.FirstSuccess | mta/mta.py:59-68 | the first payload that decodes is returned unchanged |
| RecursiveRetry.ResultFromReply | mta/mta.py:54-68 | whatever a finished run returns or raises is the answer to one of the replies |
| RecursiveRetry.NoRetries | mta/mta.py:61-63 | with retries == 0 the first reply's result or error is final |
| Mta.RequestFeedData | mta/mta.py:30-68 | the recursive method computes what RecursiveRetry.RequestFeedData specifies with parse_feed_data as decoder; a dictionary it returns has "entity" |
| Mta.ExtractStopDict | mta/mta.py:71-116 | KeyError "entity" without an entity list, KeyError "departure" when a listed stop has no departure, and otherwise the departures grouped under the raw route |
| Mta.GetFeedStops | mta/mta.py:119-144 | get_feed_stops is extract_stop_dict of request_feed_data: fetch errors and an unfinished retry pass through, a fetched dictionary always has its entity list, and a missing departure is the only KeyError left |
| Mta.UnlimitedRetries | mta/mta.py:40-66 | with retries = -1 and payloads that never decode, the function is still retrying after any number of replies: it never gives up on its own account |
| LegacyMta.RequestFeedData | underground/mta.py:12-50 | an invalid feed id is refused before any GET, and a feed it returns is a valid one |
| LegacyMta.FromContent | underground/mta.py:41 | the from_content the loop calls returns only valid feeds, each the decoded payload; an undecodable payload raises DecodeError; an error is retried exactly when loading failed |
| LegacyMta.InvalidFeedIdExample | underground/mta.py:31-34 | feed 3 is refused with no GET |
| LegacyMta.ValidationErrorNotRetried | underground/mta.py:41-45 | a payload that decodes but fails validation raises at once, whatever the budget |
| LegacyMta.ZeroRetriesReraises | underground/mta.py:43-45 | with retries == 0 a DecodeError is raised again after one GET and no sleep |
| LegacyMta.BudgetExhausted | underground/mta.py:43-48 | with retries = N >= 0 and N + 1 payloads that do not decode, there are N + 1 GETs and N sleeps |
| LegacyMta.NegativeRetriesUnbounded | underground/mta.py:21-48 | a negative retries keeps retrying as long as payloads fail to decode, never giving up on its own account |
| LegacyMta.FeedReturnedUnchanged | underground/mta.py:41-50 | the first payload that decodes to a valid feed is returned unchanged, after k + 1 GETs and k sleeps |
| LegacyMta.GetStops | underground/mta.py:53-77 | get_stops is extract_stop_dict of the fetched feed, which cannot fail; errors and an unfinished retry pass through |
| LegacyMta.GetStopsMembership | underground/mta.py:76-77 | a time is in get_stops' table under (route, stop) exactly when some trip update of that route has a stop with that departure |
| Text.Lower | src/underground/cli/findstops.py:66 | lower() keeps the length and lower-cases every letter, leaving every other character alone |
| Text.Upper | src/underground/cli/findstops.py:94-95 | upper() keeps the length and upper-cases every letter, leaving every other character alone |
| Text.LowerIsLower | src/underground/cli/findstops.py:66 | a lower-cased string has no upper-case letter, and lower-casing it again changes nothing |
| Text.UpperIsUpper | src/underground/cli/findstops.py:94-95 | an upper-cased string has no lower-case letter, and upper-casing it again changes nothing |
| Text.CaseInsensitive | src/underground/cli/findstops.py:90 | spellings that differ only in case lower-case alike |
| Text.Strip | src/underground/cli/findstops.py:66 | strip() gives a string that neither starts nor ends with whitespace |
| Text.StripSlice | src/underground/cli/findstops.py:66 | what strip() keeps is a slice of its input, with only whitespace around it |
| Text.StripUnpadded | src/underground/cli/findstops.py:66 | a string without leading or trailing whitespace is its own strip |
| Text.StripIdempotent | src/underground/cli/findstops.py:66 | stripping twice is stripping once |
| Text.Join | src/underground/cli/findstops.py:66 | " ".join of no words is empty, of one word is that word, and of n >= 2 words has the words' total length plus n - 1 separators; JoinSnoc states that each further word adds one space and the word |
| Text.JoinSnoc | src/underground/cli/findstops.py:66 | adding a word adds a space and the word |
| Text.Contains | src/underground/cli/findstops.py:90 | the empty needle is always contained, and a contained needle is no longer than the haystack |
| Text.ContainsIff | src/underground/cli/findstops.py:90 | `needle in haystack` holds exactly when some position of the haystack starts the needle |
| Text.ContainsFirstChar | src/underground/cli/findstops.py:90 | a needle whose first character never occurs in the haystack is not contained |
| Text.EndsWithIff | src/underground/cli/findstops.py:78-80 | `s.endswith(suffix)` holds exactly when s is some prefix followed by suffix |
| Text.EndsWithChar | src/underground/cli/findstops.py:78-80 | a one-character suffix test checks exactly the last character of a non-empty string |
| FindStops.NormalizeQuery | src/underground/cli/findstops.py:66 | the normalised query has no upper-case letter and neither starts nor ends with whitespace |
| FindStops.Direction | src/underground/cli/findstops.py:78-85 | NORTH for an id ending in N, SOUTH for one ending in S, "(BUS)" otherwise when buses are searched, and the ValueError for the id exactly when none applies |
| FindStops.DirectionByLastChar | src/underground/cli/findstops.py:78-85 | a last character 'N' gives NORTH, 'S' gives SOUTH, and any other last character (or an empty id) gives "(BUS)" with buses on and the ValueError for that id with buses off |
| FindStops.Search | src/underground/cli/findstops.py:72-99 | the loop over the stops never returns more records than it read rows; SearchSucceeds and SearchPicks characterise it exactly |
| FindStops.Stream | src/underground/cli/findstops.py:34-42 | every item that get_stops yields before the last is a stop row, so a failed download ends the stream, and it names one of the URLs |
| FindStops.GetStops | src/underground/cli/findstops.py:34-42 | the loop over DATA_URLS yields each archive's rows in order, ends at a failed download, and stops after the first archive without buses |
| FindStops.SubwayOnly | src/underground/cli/findstops.py:41-42 | without buses only the subway archive is read |
| FindStops.FindStopsCommand | src/underground/cli/findstops.py:59-99 | main's result is the search of the normalised query over the stops get_stops yields |
| FindStops.MatchStops | src/underground/cli/findstops.py:70-99 | the loop over the stops, with continue and raise, computes the search |
| FindStops.SearchFailed | src/underground/cli/findstops.py:72-85 | once the search has failed, later rows change nothing: the first error is the one raised |
| FindStops.SearchSucceeds | src/underground/cli/findstops.py:72-99 | the search succeeds exactly when no row is a failed download or a non-station with no nameable direction |
| FindStops.SearchFailsAtFirstBlock | src/underground/cli/findstops.py:78-90 | the first such row decides the error, even when its name does not match, because the direction is parsed before the match test |
| FindStops.SearchPicks | src/underground/cli/findstops.py:89-99 | a successful search returns one record per kept row (a non-station with a direction whose name contains the query), in row order, and nothing else |
| FindStops.RecordUpper | src/underground/cli/findstops.py:91-99 | a record's name has no lower-case letter, and its direction is NORTH, SOUTH or (BUS) |
| FindStops.SearchUpper | src/underground/cli/findstops.py:91-99 | every returned record has an upper-case name and one of the three directions |
| FindStops.StationAndPlatforms | src/underground/cli/findstops.py:72-99 | a station is skipped, two matching platforms are kept in order, and a non-matching one is not |
| FindStops.ParksideExample | src/underground/cli/findstops.py:66-99 | "PARKSIDE", "parkside" and "PARKSIDE av" each find D27N and D27S at Parkside Av |
| FindStops.UnnamedDirectionAborts | src/underground/cli/findstops.py:78-90 | a non-matching id without N or S aborts the search when buses are off, and is a bus stop when they are on |
| LegacyFindStops.FindStopsCommand | underground/cli/findstops.py:30-70 | main fails on a failed download, and otherwise returns the older search of the normalised query over the rows of stops.txt |
| LegacyFindStops.LegacySearch | underground/cli/findstops.py:45-70 | the older loop never returns more records than stops.txt has rows; AgreesWithCurrent ties it to the current search |
| LegacyFindStops.LegacyFailed | underground/cli/findstops.py:45-56 | once the older search has failed, later rows change nothing |
| LegacyFindStops.AgreesWithCurrent | underground/cli/findstops.py:45-70 | when stops.txt has the location_type column, the older search gives the same records or error as the current one without buses |
| LegacyFindStops.MissingColumnAborts | underground/cli/findstops.py:47 | without the location_type column the older search raises KeyError at its first row, where the current one reads the row as a stop |
| LegacyFindStops.LegacyParkside | test/test_cli.py:175-188 | "PARKSIDE", "parkside" and "PARKSIDE av" find D27N and D27S in the older command |

## Left out

- HTTP (`requests.get`), the environment (`os.getenv`, `dotenv`), `time.sleep`, protobuf decoding (`ParseFromString`, `protobuf_to_dict`) and zip/CSV reading are outside the model. Replies, decodings and rows are oracle parameters, and sleeps and requests are counted.
- Transport.LoadProtobuf: a decoder never raises anything but DecodeError, and a decoded dictionary is taken already typed.
- Pydantic type coercion, such as the string "20190726" becoming an int or an epoch becoming a `datetime`, is left out. Inputs are already typed, and instants are integer epoch seconds.
- Models.ExtractStopDict: the time-zone conversion of each time (`astimezone` with `pytz`) and the `timezone` parameter are the identity on the instant. The comparison with the header uses the unconverted instant, as in the source.
- LegacyModels.ExtractStopDict: the time-zone conversion is the identity on the instant.
- Mta.ExtractStopDict: `dateutils.epoch_to_datetime` is the identity on the instant. The trip, route_id and stop_id keys are taken to be present, so only the "entity" and "departure" KeyErrors are modelled.
- The date utilities (underground/dateutils.py, mta_realtime/dateutils.py) are thin wrappers over the clock and time-zone libraries and are not part of this model.
- The command-line wiring is not part of this model: click/argparse, the output tables and JSON, and the sorting for display in the cli/stops.py, cli/feed.py, cli/cli.py and cli/version.py modules. The same goes for setup.py and the package `__init__` files.
- No stalled-train filter is modelled: the current `extract_stop_dict` takes no stall parameter and never reads `Vehicle.timestamp`.
- mta/metadata.py is not part of this model. The VALID_FEED_IDS of mta/mta.py is the parameter `validIds` of `Mta.RequestFeedData` and `Mta.GetFeedStops`.
- LegacyMta.RequestFeedData: underground/mta.py imports `SubwayFeed.from_content` and `GTFSEmptyError`, which underground/models.py does not define. The model uses the `from_content` of mta/models.py, with the older models' validation.
- Validation.TripErrors: the VALID_ROUTES set of the older models is a parameter, because their metadata modules do not define it.
- Retry.RequestRobust: with a negative `retries` it follows the code (one request, nothing decoded), not the documented unlimited retrying.
- RecursiveRetry.RequestFeedData: a retry that never ends is seen only up to the replies given, as `Unfinished`. An infinite run cannot be written as a terminating Dafny function.
- RecursiveRetry.RequestFeedData: the interpreter's recursion limit is not modelled. The recursive call at mta/mta.py:66 and underground/mta.py:48 sits inside the `except` handler. About a thousand consecutive decode failures therefore raise RecursionError. This happens with `retries=-1`, and also with a budget large enough, such as `retries=5000`, that the function would otherwise re-raise only at 0. `RecursiveRetry.NegativeNeverGivesUp`, `Mta.UnlimitedRetries` and `LegacyMta.NegativeRetriesUnbounded` state only that the function itself never gives up.
- Mta.RequestFeedData: the number of GETs and sleeps is a ghost output. The API key is only passed on to the GET, so it is not a parameter.
- Text.Lower: only ASCII letters are case-mapped. Python's Unicode case mapping is not modelled.
- Text.Upper: only ASCII letters are case-mapped, so its "same length" promise does not hold for Python on all of Unicode (`'ß'.upper() == 'SS'`).
- Text.Strip: only ASCII whitespace is stripped. Python's Unicode whitespace is not modelled.
- FindStops.GetStops: the `get_stops` generator is collected eagerly into a list of items. A failed download is an item at the point where the generator raised, so errors keep their order relative to the rows.
- FindStops.FindStopsCommand: `float(stop_lat)` and `float(stop_lon)` are not modelled. Coordinates stay as the text of their cells, so the ValueError of a malformed coordinate is not modelled.
- LegacyFindStops.FindStopsCommand: the same `float()` calls of underground/cli/findstops.py:67-68 are not modelled. Coordinates stay as text.
- The assignment `stop["direction"] = direction` mutates a row that is never read again. It is modelled as a local value.
- FindStops.ParksideExample: the rows are a four-row stand-in for the Parkside Av part of stops.txt, because the archive the tests read is not part of this model.
- LegacyFindStops.LegacyParkside: the rows are the same stand-in excerpt.
- The current package's `SubwayFeed.get` (src/underground/models.py:178-208) is not modelled separately. It is `request_robust` with `return_dict=True` followed by validation, which `LegacyFeed.Get` models for the older package.
