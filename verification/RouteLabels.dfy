/** The label logged for a route is a target text: when it can be read back as the route. */
module RouteLabels {
  import opened CatalogRouting
  import opened Json
  import opened ModelCatalog
  import opened ModelMappings
  import opened Routing

  predicate SlugsOrNone(pins: Pins)
  {
    pins.Some? ==> AreSlugs(pins.value)
  }

  /** A registered provider without a colon, parseable pins or the hints of the body, and the label of these. */
  predicate Sound(setup: Setup, route: Route, bodySlugs: Pins)
  {
    && route.provider in setup.registered && ':' !in route.provider
    && (SlugsOrNone(route.pinned) || route.pinned == bodySlugs)
    && route.routeLabel == FormatRouteLabel(route.provider, route.model, route.pinned)
  }

  predicate SoundOrNone(setup: Setup, route: Option<Route>, bodySlugs: Pins)
  {
    route.Some? ==> Sound(setup, route.value, bodySlugs)
  }

  lemma BuiltIsSound(setup: Setup, lookup: string, pattern: string, target: string, client: Pins)
    requires SlugsOrNone(client)
    ensures SoundOrNone(setup, BuildRoute(setup, lookup, pattern, target, client), None)
  {
    hide ParseMapping, AreSlugs, FormatRouteLabel, MappedModelName;
    ParsedShape(target);
  }

  lemma {:induction false} QualifiedIsSound(setup: Setup, lookup: string, slugs: seq<string>)
    ensures SoundOrNone(setup, FirstQualified(setup, lookup, slugs), None)
  {
    hide BuildRoute, KeyIgnoringCase, Sound, BuildQualifiedKey;
    if slugs != [] {
      QualifiedIsSound(setup, lookup, slugs[1..]);
      var wanted := Texts.Lower(BuildQualifiedKey(lookup, slugs[0]));
      var key := KeyIgnoringCase(setup.mappings, wanted);
      if key.Some? {
        KeyFound(setup.mappings, wanted);
        FlaggedIsSound(setup, lookup, key.value, TargetOf(setup.mappings, key.value).value);
      }
    }
  }

  lemma FlaggedIsSound(setup: Setup, lookup: string, key: string, target: string)
    ensures var route := BuildRoute(setup, lookup, key, target, None);
      route.Some? ==> Sound(setup, route.value.(providerAware := true), None)
  {
    hide BuildRoute;
    BuiltIsSound(setup, lookup, key, target, None);
  }

  lemma {:induction false} WildcardIsSound(setup: Setup, mappings: seq<Mapping>, lookup: string, client: Pins)
    requires SlugsOrNone(client)
    ensures SoundOrNone(setup, WildcardRoute(setup, mappings, lookup, client), None)
  {
    hide BuildRoute, Sound, SlugsOrNone;
    if mappings != [] {
      BuiltIsSound(setup, lookup, mappings[0].key, mappings[0].target, client);
      WildcardIsSound(setup, mappings[1..], lookup, client);
    }
  }

  lemma {:induction false} ExpandedShape(setup: Setup, listing: Listing, mappings: seq<Mapping>, id: string)
    ensures var entry := FirstExpansion(setup, listing, mappings, id);
      entry.Some? ==> ':' !in entry.value.provider && SlugsOrNone(entry.value.pinned)
  {
    hide ParseMapping, AreSlugs, Lists, Expands;
    if mappings != [] {
      var n := |mappings| - 1;
      ExpandedShape(setup, listing, mappings[..n], id);
      ParsedShape(mappings[n].target);
    }
  }

  lemma AdvertisedIsSound(setup: Setup, listing: Listing, id: string, client: Pins, bodySlugs: Pins)
    requires SlugsOrNone(client)
    ensures SoundOrNone(setup, EntryRoute(setup, Advertised(setup, listing, id), client, bodySlugs), bodySlugs)
  {
    hide ParseMapping, AreSlugs, FirstExpansion, FormatRouteLabel, TargetOf, CatalogModelName;
    ExpandedShape(setup, listing, setup.mappings, id);
    var target := TargetOf(setup.mappings, id);
    if target.Some? {
      ParsedShape(target.value);
    }
  }

  lemma SoundWithHints(setup: Setup, route: Option<Route>, bodySlugs: Pins)
    requires SoundOrNone(setup, route, None)
    ensures SoundOrNone(setup, route, bodySlugs)
  {
  }

  /** Whatever source a route comes from and whatever the body hints at, its provider has an adapter, its label is built
      from its own fields, and its pins are clean or the hints themselves. */
  lemma ResolvedIsSound(setup: Setup, listing: Listing, requested: string, bodySlugs: Pins)
    ensures SoundOrNone(setup, Resolve(setup, listing, requested, bodySlugs), bodySlugs)
  {
    hide StripClientProviderSuffix, AreSlugs, FirstQualified, BuildRoute, TargetOf, Advertised, EntryRoute,
      WildcardRoute, Sound;
    StripIsSplit(requested);
    var client := StripClientProviderSuffix(requested);
    if client.pinned.Some? {
      QualifiedIsSound(setup, client.base, client.pinned.value);
    }
    if bodySlugs.Some? {
      QualifiedIsSound(setup, client.base, bodySlugs.value);
    }
    SoundWithHints(setup, ProviderAware(setup, client.base, client.pinned, bodySlugs), bodySlugs);
    var target := TargetOf(setup.mappings, client.base);
    if target.Some? {
      BuiltIsSound(setup, client.base, client.base, target.value, client.pinned);
      SoundWithHints(setup, BuildRoute(setup, client.base, client.base, target.value, client.pinned), bodySlugs);
    }
    AdvertisedIsSound(setup, listing, client.base, client.pinned, bodySlugs);
    WildcardIsSound(setup, setup.mappings, client.base, client.pinned);
    SoundWithHints(setup, WildcardRoute(setup, setup.mappings, client.base, client.pinned), bodySlugs);
  }

  /** The request ends at a catalog entry, neither the entry nor the client pins anything, and the body has hints that
      are no slugs. */
  predicate TakesUncleanHints(setup: Setup, listing: Listing, requested: string, bodySlugs: Pins)
  {
    var client := StripClientProviderSuffix(requested);
    && Given(bodySlugs) && !AreSlugs(bodySlugs.value) && client.pinned.None?
    && ProviderAware(setup, client.base, None, bodySlugs).None? && ExactRoute(setup, client.base, None).None?
    && var entry := Advertised(setup, listing, client.base);
      entry.Some? && entry.value.provider in setup.registered && !Given(entry.value.pinned)
  }

  lemma AwareIsClean(setup: Setup, lookup: string, client: Pins, bodySlugs: Pins)
    ensures SoundOrNone(setup, ProviderAware(setup, lookup, client, bodySlugs), None)
  {
    hide FirstQualified, Sound;
    if client.Some? {
      QualifiedIsSound(setup, lookup, client.value);
    }
    if bodySlugs.Some? {
      QualifiedIsSound(setup, lookup, bodySlugs.value);
    }
  }

  lemma ExactIsClean(setup: Setup, lookup: string, client: Pins)
    requires SlugsOrNone(client)
    ensures SoundOrNone(setup, ExactRoute(setup, lookup, client), None)
  {
    var target := TargetOf(setup.mappings, lookup);
    if target.Some? {
      BuiltIsSound(setup, lookup, lookup, target.value, client);
    }
  }

  /** A catalog entry passes unclean pins on only if they are hints that nothing else takes precedence over. */
  lemma EntryPinsIff(setup: Setup, listing: Listing, id: string, client: Pins, bodySlugs: Pins)
    requires SlugsOrNone(client) && EntryRoute(setup, Advertised(setup, listing, id), client, bodySlugs).Some?
    ensures SlugsOrNone(EntryRoute(setup, Advertised(setup, listing, id), client, bodySlugs).value.pinned) <==>
      !(Given(bodySlugs) && !AreSlugs(bodySlugs.value)
        && client.None? && !Given(Advertised(setup, listing, id).value.pinned))
  {
    hide Advertised, FormatRouteLabel;
    AdvertisedIsSound(setup, listing, id, None, None);
    assert SlugsOrNone(EntryRoute(setup, Advertised(setup, listing, id), None, None).value.pinned);
  }

  /** The pins of a route are clean, or there are none, unless the request takes unclean hints. */
  lemma CleanPinsIff(setup: Setup, listing: Listing, requested: string, bodySlugs: Pins)
    requires Resolve(setup, listing, requested, bodySlugs).Some?
    ensures SlugsOrNone(Resolve(setup, listing, requested, bodySlugs).value.pinned) <==>
      !TakesUncleanHints(setup, listing, requested, bodySlugs)
  {
    hide StripClientProviderSuffix, AreSlugs, ProviderAware, ExactRoute, Advertised, WildcardRoute, FormatRouteLabel;
    StripIsSplit(requested);
    var client := StripClientProviderSuffix(requested);
    AwareIsClean(setup, client.base, client.pinned, bodySlugs);
    ExactIsClean(setup, client.base, client.pinned);
    if EntryRoute(setup, Advertised(setup, listing, client.base), client.pinned, bodySlugs).Some? {
      EntryPinsIff(setup, listing, client.base, client.pinned, bodySlugs);
    }
    WildcardIsSound(setup, setup.mappings, client.base, client.pinned);
  }

  /** Parsing the label of a resolved route gives back its provider, model and pins exactly when the request does not
      take unclean hints, and a route without pins has no `+` in its model. */
  lemma LabelReadsBackIff(setup: Setup, listing: Listing, requested: string, bodySlugs: Pins)
    requires Resolve(setup, listing, requested, bodySlugs).Some?
    ensures var r := Resolve(setup, listing, requested, bodySlugs).value;
      ParseMapping(r.routeLabel) == Target(r.provider, r.model, r.pinned) <==>
      !TakesUncleanHints(setup, listing, requested, bodySlugs) && (r.pinned.None? ==> '+' !in r.model)
  {
    hide Resolve, ParseMapping, FormatRouteLabel, AreSlugs, TakesUncleanHints;
    ResolvedIsSound(setup, listing, requested, bodySlugs);
    CleanPinsIff(setup, listing, requested, bodySlugs);
    var r := Resolve(setup, listing, requested, bodySlugs).value;
    ParseInvertsFormatIff(Target(r.provider, r.model, r.pinned));
  }

  function HintedSetup(matches: (string, string) -> bool): Setup
  {
    Setup([Mapping("*", "p:*")], {"p"}, matches)
  }

  lemma HintedEntry(matches: (string, string) -> bool, listing: Listing)
    requires matches("m", "*") && listing == map["p" := ["m"]]
    ensures Advertised(HintedSetup(matches), listing, "m") == Some(CatalogModel("p", "m", None))
    ensures TargetOf(HintedSetup(matches).mappings, "m") == None
  {
    hide ParseMapping;
    var setup := HintedSetup(matches);
    ParseText("p", "*", "p:*");
    assert "*"[0] == '*';
    assert setup.mappings[..0] == [];
    assert TargetOf([], "m") == None;
    assert FirstExpansion(setup, listing, [], "m") == None;
    assert FirstExpansion(setup, listing, setup.mappings, "m") == Some(CatalogModel("p", "m", None));
  }

  lemma HintFindsNoKey(matches: (string, string) -> bool)
    ensures FirstQualified(HintedSetup(matches), "m", ["a,b"]) == None
    ensures StripClientProviderSuffix("m") == ClientModel("m", None)
  {
    hide BuildRoute;
    var setup := HintedSetup(matches);
    assert |Texts.Lower("*")| == 1 && |Texts.Lower(BuildQualifiedKey("m", "a,b"))| == 5;
    hide Texts.Lower, BuildQualifiedKey;
    assert setup.mappings[..0] == [];
    assert KeyIgnoringCase([], Texts.Lower(BuildQualifiedKey("m", "a,b"))) == None;
    assert QualifiedRoute(setup, "m", "a,b") == None;
    assert ["a,b"][1..] == [];
  }

  lemma CommaIsNoSlug()
    ensures !AreSlugs(["a,b"])
  {
    assert "a,b"[1] == ',' && "a,b" in ["a,b"];
  }

  /** Hints from the body are passed on as they are: a comma inside one makes the label unreadable. */
  lemma HintedPins(matches: (string, string) -> bool)
    requires matches("m", "*")
    ensures var listing: Listing := map["p" := ["m"]];
      Resolve(HintedSetup(matches), listing, "m", Some(["a,b"])) == Some(RouteTo("p", "m", Some(["a,b"])))
    ensures !AreSlugs(["a,b"])
  {
    CommaIsNoSlug();
    hide AreSlugs, Advertised, TargetOf, FirstQualified, StripClientProviderSuffix, FormatRouteLabel, WildcardRoute,
      ParseMapping;
    HintedEntry(matches, map["p" := ["m"]]);
    HintFindsNoKey(matches);
  }
}
