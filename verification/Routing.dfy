/** How a requested model becomes a provider, an upstream model and pinned sub-providers. */
module Routing {
  import opened Json
  import opened ModelCatalog
  import opened ModelMappings
  import opened Texts

  datatype Route = Route(provider: string, model: string, pinned: Pins, routeLabel: string, providerAware: bool)

  function MappedModelName(setup: Setup, lookup: string, clientPattern: string, pattern: string): Option<string>
  {
    if pattern == clientPattern || pattern == "*" then Some(lookup)
    else if HasGlob(pattern) then if setup.matches(lookup, pattern) then Some(lookup) else None
    else Some(pattern)
  }

  function RouteTo(provider: string, model: string, pinned: Pins): Route
  {
    Route(provider, model, pinned, FormatRouteLabel(provider, model, pinned), false)
  }

  function BuildRoute(setup: Setup, lookup: string, clientPattern: string, target: string,
      clientPinned: Pins): Option<Route>
  {
    var t := ParseMapping(target);
    var model := MappedModelName(setup, lookup, clientPattern, t.model);
    if model.None? || t.provider !in setup.registered then None
    else Some(RouteTo(t.provider, model.value, MergePinned(t.pinned, clientPinned)))
  }

  // ----- provider-qualified keys

  /** The last key equal to `lowered` when its letters are lowered. */
  function KeyIgnoringCase(mappings: seq<Mapping>, lowered: string): Option<string>
  {
    if mappings == [] then None
    else
      var last := mappings[|mappings| - 1].key;
      if Lower(last) == lowered then Some(last) else KeyIgnoringCase(mappings[..|mappings| - 1], lowered)
  }

  lemma {:induction false} KeyFound(mappings: seq<Mapping>, lowered: string)
    ensures var k := KeyIgnoringCase(mappings, lowered);
      k.Some? ==> Lower(k.value) == lowered && TargetOf(mappings, k.value).Some?
  {
    if mappings != [] {
      KeyFound(mappings[..|mappings| - 1], lowered);
    }
  }

  function QualifiedRoute(setup: Setup, lookup: string, slug: string): Option<Route>
  {
    var key := KeyIgnoringCase(setup.mappings, Lower(BuildQualifiedKey(lookup, slug)));
    if key.None? then None
    else
      var target := TargetOf(setup.mappings, key.value);
      KeyFound(setup.mappings, Lower(BuildQualifiedKey(lookup, slug)));
      var route := BuildRoute(setup, lookup, key.value, target.value, None);
      if route.Some? then Some(route.value.(providerAware := true)) else None
  }

  /** The first slug that has a usable key. */
  function FirstQualified(setup: Setup, lookup: string, slugs: seq<string>): Option<Route>
  {
    if slugs == [] then None
    else
      var first := QualifiedRoute(setup, lookup, slugs[0]);
      if first.Some? then first else FirstQualified(setup, lookup, slugs[1..])
  }

  /** The client's suffix is asked first, then the hints in the body. */
  function ProviderAware(setup: Setup, lookup: string, clientPinned: Pins, bodySlugs: Pins): Option<Route>
  {
    var first := if Given(clientPinned) then FirstQualified(setup, lookup, clientPinned.value) else None;
    if first.Some? then first
    else if Given(bodySlugs) then FirstQualified(setup, lookup, bodySlugs.value)
    else None
  }

  // ----- the other sources

  function ExactRoute(setup: Setup, lookup: string, clientPinned: Pins): Option<Route>
  {
    var target := TargetOf(setup.mappings, lookup);
    if target.None? then None else BuildRoute(setup, lookup, lookup, target.value, clientPinned)
  }

  function EntryRoute(setup: Setup, entry: Option<CatalogModel>, clientPinned: Pins, bodySlugs: Pins): Option<Route>
  {
    if entry.None? || entry.value.provider !in setup.registered then None
    else
      var pinned := MergePinned(entry.value.pinned, clientPinned);
      Some(RouteTo(entry.value.provider, entry.value.model,
        if !Given(pinned) && Given(bodySlugs) then bodySlugs else pinned))
  }

  function RowRoute(setup: Setup, m: Mapping, lookup: string, clientPinned: Pins): Option<Route>
  {
    if setup.matches(lookup, m.key) then BuildRoute(setup, lookup, m.key, m.target, clientPinned) else None
  }

  /** The first row whose key matches and whose target can be used. */
  function WildcardRoute(setup: Setup, mappings: seq<Mapping>, lookup: string, clientPinned: Pins): Option<Route>
  {
    if mappings == [] then None
    else
      var first := RowRoute(setup, mappings[0], lookup, clientPinned);
      if first.Some? then first else WildcardRoute(setup, mappings[1..], lookup, clientPinned)
  }

  /** `None` stands for the "no route found" error. */
  function Resolve(setup: Setup, listing: Listing, requested: string, bodySlugs: Pins): Option<Route>
  {
    var client := StripClientProviderSuffix(requested);
    var aware := ProviderAware(setup, client.base, client.pinned, bodySlugs);
    if aware.Some? then aware
    else
      var exact := ExactRoute(setup, client.base, client.pinned);
      if exact.Some? then exact
      else
        var advertised := EntryRoute(setup, Advertised(setup, listing, client.base), client.pinned, bodySlugs);
        if advertised.Some? then advertised
        else WildcardRoute(setup, setup.mappings, client.base, client.pinned)
  }

  // ----- the searches as loops

  method KeysIgnoringCase(mappings: seq<Mapping>) returns (index: map<string, string>)
    ensures forall k :: InMap(index, k) == KeyIgnoringCase(mappings, k)
  {
    index := map[];
    for i := 0 to |mappings|
      invariant forall k :: InMap(index, k) == KeyIgnoringCase(mappings[..i], k)
    {
      NextRow(mappings, i);
      index := index[Lower(mappings[i].key) := mappings[i].key];
    }
    AllRows(mappings);
  }

  method SearchSlugs(setup: Setup, lookup: string, slugs: seq<string>, index: map<string, string>)
      returns (route: Option<Route>)
    requires forall k :: InMap(index, k) == KeyIgnoringCase(setup.mappings, k)
    ensures route == FirstQualified(setup, lookup, slugs)
  {
    for i := 0 to |slugs|
      invariant FirstQualified(setup, lookup, slugs[i..]) == FirstQualified(setup, lookup, slugs)
    {
      var wanted := Lower(BuildQualifiedKey(lookup, slugs[i]));
      if wanted in index {
        KeyFound(setup.mappings, wanted);
        var key := index[wanted];
        var found := BuildRoute(setup, lookup, key, TargetOf(setup.mappings, key).value, None);
        if found.Some? {
          return Some(found.value.(providerAware := true));
        }
      }
    }
    route := None;
  }

  method ResolveProviderAware(setup: Setup, lookup: string, clientPinned: Pins, bodySlugs: Pins)
      returns (route: Option<Route>)
    ensures route == ProviderAware(setup, lookup, clientPinned, bodySlugs)
  {
    var sources: seq<seq<string>> := [];
    if Given(clientPinned) {
      sources := sources + [clientPinned.value];
    }
    if Given(bodySlugs) && bodySlugs != clientPinned {
      sources := sources + [bodySlugs.value];
    }
    if sources == [] {
      return None;
    }
    var index := KeysIgnoringCase(setup.mappings);
    assert Given(clientPinned) ==> sources[0] == clientPinned.value;
    assert !Given(clientPinned) ==> sources[0] == bodySlugs.value;
    assert |sources| > 1 ==> sources[1] == bodySlugs.value;
    for i := 0 to |sources|
      invariant forall j | 0 <= j < i :: FirstQualified(setup, lookup, sources[j]).None?
    {
      route := SearchSlugs(setup, lookup, sources[i], index);
      if route.Some? {
        return;
      }
    }
    route := None;
  }

  method ResolveWildcardMapping(setup: Setup, lookup: string, clientPinned: Pins) returns (route: Option<Route>)
    ensures route == WildcardRoute(setup, setup.mappings, lookup, clientPinned)
  {
    for i := 0 to |setup.mappings|
      invariant WildcardRoute(setup, setup.mappings[i..], lookup, clientPinned) ==
        WildcardRoute(setup, setup.mappings, lookup, clientPinned)
    {
      route := RowRoute(setup, setup.mappings[i], lookup, clientPinned);
      if route.Some? {
        return;
      }
    }
    route := None;
  }

  method ResolveModel(setup: Setup, listing: Listing, requested: string, body: Dict) returns (route: Option<Route>)
    ensures route == Resolve(setup, listing, requested, ExtractBodyProviderSlugs(body))
  {
    hide StripClientProviderSuffix, ExtractBodyProviderSlugs, Advertised, ProviderAware, ExactRoute, EntryRoute,
      WildcardRoute;
    var client := StripClientProviderSuffix(requested);
    var bodySlugs := ExtractBodyProviderSlugs(body);
    route := ResolveProviderAware(setup, client.base, client.pinned, bodySlugs);
    if route.Some? {
      return;
    }
    route := ExactRoute(setup, client.base, client.pinned);
    if route.Some? {
      return;
    }
    var catalog := GetProxyModelCatalog(setup, listing);
    route := EntryRoute(setup, InMap(catalog, client.base), client.pinned, bodySlugs);
    if route.Some? {
      return;
    }
    route := ResolveWildcardMapping(setup, client.base, client.pinned);
  }
}
