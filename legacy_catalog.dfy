/**
 * The integer-feed catalogue of the older package (underground/metadata.py):
 * ROUTE_FEED_MAP, the alias table ROUTE_REMAP built by a loop at import time,
 * `get_feed_id` and VALID_FEED_IDS.
 */
module LegacyCatalog {
  import opened Wrappers

  /** The keys of ROUTE_FEED_MAP in the dictionary's insertion order. */
  const RouteKeys: seq<string> := [
    "1", "2", "3", "4", "5", "6", "7", "A", "B", "C", "D", "E", "F", "FS",
    "G", "GS", "H", "J", "L", "M", "N", "Q", "R", "SI", "SS", "W", "Z"
  ]

  /** ROUTE_FEED_MAP: route id to integer feed id. */
  const RouteFeedMap: map<string, int> := map[
    "1" := 1, "2" := 1, "3" := 1, "4" := 1, "5" := 1, "6" := 1, "7" := 51,
    "A" := 26, "B" := 21, "C" := 26, "D" := 21, "E" := 26, "F" := 21, "FS" := 26,
    "G" := 31, "GS" := 1, "H" := 26, "J" := 36, "L" := 2, "M" := 21, "N" := 16,
    "Q" := 16, "R" := 16, "SI" := 11, "SS" := 51, "W" := 16, "Z" := 36
  ]

  /** The literal that ROUTE_REMAP starts from: express variants and the unassigned route "". */
  const Aliases: map<string, string> := map["5X" := "5", "6X" := "6", "7X" := "7", "FX" := "F", "" := ""]

  /** VALID_FEED_IDS: the value set of ROUTE_FEED_MAP. */
  const ValidFeedIds: set<int> := RouteFeedMap.Values

  /** The insertion order lists exactly the dictionary's keys. */
  lemma RouteKeysAreKeys()
    ensures forall k :: k in RouteKeys <==> k in RouteFeedMap
  {
  }

  /**
   * The table that results from starting with `aliases` and then setting every
   * key in `keys` to itself: a key of both ends up mapped to itself.
   */
  function Remap(aliases: map<string, string>, keys: seq<string>): (m: map<string, string>)
  {
    map k | k in aliases.Keys + (set k | k in keys) :: if k in keys then k else aliases[k]
  }

  /** ROUTE_REMAP, as the module leaves it after import. */
  const RouteRemap: map<string, string> := Remap(Aliases, RouteKeys)

  /**
   * The module-level loop `for k in ROUTE_FEED_MAP: ROUTE_REMAP[k] = k` that
   * completes the alias literal.
   */
  method BuildRemap(aliases: map<string, string>, keys: seq<string>) returns (remap: map<string, string>)
    ensures remap == Remap(aliases, keys)
  {
    remap := aliases;
    RemapNoKeys(aliases);
    for i := 0 to |keys|
      invariant remap == Remap(aliases, keys[..i])
    {
      RemapSnoc(aliases, keys[..i], keys[i]);
      remap := remap[keys[i] := keys[i]];
      assert keys[..i + 1] == keys[..i] + [keys[i]];
    }
    assert keys[..|keys|] == keys;
  }

  /** Before the loop, the table is the alias literal. */
  lemma RemapNoKeys(aliases: map<string, string>)
    ensures Remap(aliases, []) == aliases
  {
  }

  /** One more pass of the loop sets one more key to itself. */
  lemma RemapSnoc(aliases: map<string, string>, keys: seq<string>, k: string)
    ensures Remap(aliases, keys + [k]) == Remap(aliases, keys)[k := k]
  {
    var m, m' := Remap(aliases, keys), Remap(aliases, keys + [k]);
    assert m'.Keys == m.Keys + {k};
    forall j | j in m' ensures m'[j] == m[k := k][j] {
      if j != k {
        assert j in keys + [k] <==> j in keys;
      }
    }
  }

  /** What the loop leaves at a key: itself for a route, the alias target otherwise. */
  lemma RemapAt(aliases: map<string, string>, keys: seq<string>, k: string)
    requires k in aliases || k in keys
    ensures k in Remap(aliases, keys)
    ensures k in keys ==> Remap(aliases, keys)[k] == k
    ensures k !in keys ==> Remap(aliases, keys)[k] == aliases[k]
  {
  }

  /** The keys of the table are the alias keys and the loop's keys. */
  lemma RemapKeys(aliases: map<string, string>, keys: seq<string>, k: string)
    ensures k in Remap(aliases, keys) <==> k in aliases || k in keys
  {
  }

  /** Every route id has one or two characters, and none ends in 'X'. */
  lemma RouteKeysShape()
    ensures forall k :: k in RouteKeys ==> 1 <= |k| <= 2 && k[|k| - 1] != 'X'
  {
  }

  /** No alias is itself a route, so the loop overwrites none of them. */
  lemma AliasesAreNotRoutes()
    ensures "5X" !in RouteKeys && "6X" !in RouteKeys && "7X" !in RouteKeys
    ensures "FX" !in RouteKeys && "" !in RouteKeys
  {
    RouteKeysShape();
    assert "5X"[1] == 'X' && "6X"[1] == 'X' && "7X"[1] == 'X' && "FX"[1] == 'X';
  }

  /** The aliases: 5X, 6X, 7X and FX go to their base route, "" stays "". */
  lemma RouteRemapAliases()
    ensures "5X" in RouteRemap && RouteRemap["5X"] == "5"
    ensures "6X" in RouteRemap && RouteRemap["6X"] == "6"
    ensures "7X" in RouteRemap && RouteRemap["7X"] == "7"
    ensures "FX" in RouteRemap && RouteRemap["FX"] == "F"
    ensures "" in RouteRemap && RouteRemap[""] == ""
  {
    AliasesAreNotRoutes();
    RemapAt(Aliases, RouteKeys, "5X");
    RemapAt(Aliases, RouteKeys, "6X");
    RemapAt(Aliases, RouteKeys, "7X");
    RemapAt(Aliases, RouteKeys, "FX");
    RemapAt(Aliases, RouteKeys, "");
  }

  /** The loop maps every ROUTE_FEED_MAP key to itself. */
  lemma RouteRemapIdentity(k: string)
    requires k in RouteFeedMap
    ensures k in RouteRemap && RouteRemap[k] == k
  {
    RouteKeysAreKeys();
    RemapAt(Aliases, RouteKeys, k);
  }

  /** The keys are the routes plus the four express variants and "". */
  lemma RouteRemapKeys()
    ensures RouteRemap.Keys == RouteFeedMap.Keys + {"5X", "6X", "7X", "FX", ""}
  {
    RemapKeySet(Aliases, RouteKeys);
    RouteKeySet();
    AliasKeySet();
  }

  /** The table's keys: the alias keys and the loop's keys. */
  lemma RemapKeySet(aliases: map<string, string>, keys: seq<string>)
    ensures Remap(aliases, keys).Keys == aliases.Keys + set k | k in keys
  {
  }

  /** The insertion order, read as a set, is ROUTE_FEED_MAP's key set. */
  lemma RouteKeySet()
    ensures (set k | k in RouteKeys) == RouteFeedMap.Keys
  {
    RouteKeysAreKeys();
  }

  /** The alias literal's key set. */
  lemma AliasKeySet()
    ensures Aliases.Keys == {"5X", "6X", "7X", "FX", ""}
  {
  }

  /** The alias literal's keys. */
  lemma AliasKeys(k: string)
    ensures k in Aliases <==> k in {"5X", "6X", "7X", "FX", ""}
  {
  }

  /** Only the unassigned route "" is mapped to "". */
  lemma RouteRemapEmpty(k: string)
    requires k in RouteRemap
    ensures RouteRemap[k] == "" <==> k == ""
  {
    AliasesAreNotRoutes();
    RouteRemapAliases();
    RemapKeys(Aliases, RouteKeys, k);
    if k in RouteKeys {
      RemapAt(Aliases, RouteKeys, k);
    } else {
      assert k in {"5X", "6X", "7X", "FX", ""};
    }
  }

  /**
   * Remap is idempotent when every alias that is not overwritten by the loop
   * points at a key or at itself.
   */
  lemma RemapIdempotent(aliases: map<string, string>, keys: seq<string>, k: string)
    requires forall a :: a in aliases && a !in keys ==> aliases[a] in keys || aliases[a] == a
    requires k in Remap(aliases, keys)
    ensures Remap(aliases, keys)[k] in Remap(aliases, keys)
    ensures Remap(aliases, keys)[Remap(aliases, keys)[k]] == Remap(aliases, keys)[k]
  {
  }

  /** The alias targets 5, 6, 7 and F are routes. */
  lemma AliasTargetsAreRoutes()
    ensures "5" in RouteKeys && "6" in RouteKeys && "7" in RouteKeys && "F" in RouteKeys
  {
  }

  /** Mapping a route id twice gives the same canonical id as mapping it once. */
  lemma RouteRemapIdempotent(k: string)
    requires k in RouteRemap
    ensures RouteRemap[k] in RouteRemap && RouteRemap[RouteRemap[k]] == RouteRemap[k]
  {
    AliasTargetsAreRoutes();
    assert Aliases.Keys == {"5X", "6X", "7X", "FX", ""};
    RemapIdempotent(Aliases, RouteKeys, k);
  }

  /** KeyError, carrying the missing key. */
  datatype KeyError = KeyError(key: string)

  /**
   * `get_feed_id`: `ROUTE_FEED_MAP[ROUTE_REMAP[route_id]]`; either lookup can
   * raise KeyError.
   */
  function GetFeedId(routeId: string): (r: Result<int, KeyError>)
    ensures r.Success? <==> routeId in RouteRemap && RouteRemap[routeId] in RouteFeedMap
    ensures r.Failure? && routeId !in RouteRemap ==> r.error == KeyError(routeId)
  {
    if routeId !in RouteRemap then Failure(KeyError(routeId))
    else if RouteRemap[routeId] !in RouteFeedMap then Failure(KeyError(RouteRemap[routeId]))
    else Success(RouteFeedMap[RouteRemap[routeId]])
  }

  /** A feed id that get_feed_id returns is one of VALID_FEED_IDS. */
  lemma GetFeedIdValid(routeId: string)
    requires GetFeedId(routeId).Success?
    ensures GetFeedId(routeId).value in ValidFeedIds
  {
  }

  /** get_feed_id succeeds exactly on the routes and their express variants. */
  lemma GetFeedIdDomain(routeId: string)
    ensures GetFeedId(routeId).Success? <==> routeId in RouteFeedMap.Keys + {"5X", "6X", "7X", "FX"}
  {
    RouteKeysAreKeys();
    AliasKeys(routeId);
    if routeId in RouteKeys {
      RemapAt(Aliases, RouteKeys, routeId);
    } else if routeId in Aliases {
      GetFeedIdOfAlias(routeId);
    } else {
      RemapKeys(Aliases, RouteKeys, routeId);
    }
  }

  /** An alias has a feed unless it is the unassigned route "". */
  lemma GetFeedIdOfAlias(routeId: string)
    requires routeId in Aliases && routeId !in RouteKeys
    ensures GetFeedId(routeId).Success? <==> routeId != ""
  {
    RouteKeysAreKeys();
    AliasesAreNotRoutes();
    AliasTargetsAreRoutes();
    RouteRemapAliases();
    AliasKeys(routeId);
  }

  /** A route and its canonical id share a feed. */
  lemma GetFeedIdCanonical(routeId: string)
    requires GetFeedId(routeId).Success?
    ensures GetFeedId(RouteRemap[routeId]) == GetFeedId(routeId)
  {
    RouteRemapIdempotent(routeId);
  }

  /** Route 5 is served by feed 1. */
  lemma FeedOfFive()
    ensures "5" in RouteFeedMap && RouteFeedMap["5"] == 1
  {
  }

  /** 5X shares feed 1 with route 5. */
  lemma GetFeedIdOfExpress()
    ensures GetFeedId("5X") == GetFeedId("5") == Success(1)
  {
    FeedOfFive();
    RouteRemapAliases();
    RouteRemapIdentity("5");
  }

  /** The unassigned route "" is an alias but has no feed, so it raises KeyError. */
  lemma GetFeedIdOfUnassigned()
    ensures GetFeedId("") == Failure(KeyError(""))
  {
    RouteRemapAliases();
    RouteKeysAreKeys();
    AliasesAreNotRoutes();
  }

  /** An unknown route raises KeyError. */
  lemma GetFeedIdOfUnknown()
    ensures "FAKE" !in RouteRemap
    ensures GetFeedId("FAKE") == Failure(KeyError("FAKE"))
  {
    UnknownNotRoute();
    AliasKeys("FAKE");
    RemapKeys(Aliases, RouteKeys, "FAKE");
  }

  /** FAKE is not a route: it is too long to be one. */
  lemma UnknownNotRoute()
    ensures "FAKE" !in RouteKeys
  {
    RouteKeysShape();
    assert |"FAKE"| == 4;
  }

  /** Every route's feed is one of the nine ids. */
  lemma FeedIdsBounded()
    ensures forall k :: k in RouteFeedMap ==> RouteFeedMap[k] in {1, 2, 11, 16, 21, 26, 31, 36, 51}
  {
  }

  /** Feeds 1, 2 and 11 serve routes 1, L and SI. */
  lemma FeedIdsServedLow()
    ensures RouteFeedMap["1"] == 1 && RouteFeedMap["L"] == 2 && RouteFeedMap["SI"] == 11
  {
  }

  /** Feeds 16, 21 and 26 serve routes N, B and A. */
  lemma FeedIdsServedMiddle()
    ensures RouteFeedMap["N"] == 16 && RouteFeedMap["B"] == 21 && RouteFeedMap["A"] == 26
  {
  }

  /** Feeds 31, 36 and 51 serve routes G, J and 7. */
  lemma FeedIdsServedHigh()
    ensures RouteFeedMap["G"] == 31 && RouteFeedMap["J"] == 36 && RouteFeedMap["7"] == 51
  {
  }

  /** VALID_FEED_IDS holds the nine feed ids. */
  lemma ValidFeedIdsValue()
    ensures ValidFeedIds == {1, 2, 11, 16, 21, 26, 31, 36, 51}
  {
    FeedIdsBounded();
    FeedIdsServedLow();
    FeedIdsServedMiddle();
    FeedIdsServedHigh();
  }
}
