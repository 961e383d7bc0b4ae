/** Whether the router sends a request for an advertised model where the catalog says it goes. */
module CatalogRouting {
  import opened Json
  import opened ModelCatalog
  import opened ModelMappings
  import opened Routing

  /** The route that follows an entry to the letter. */
  function AsAdvertised(entry: CatalogModel): Route
  {
    RouteTo(entry.provider, entry.model, entry.pinned)
  }

  /** The client's text asks for no sub-provider. */
  predicate Unpinned(id: string)
  {
    StripClientProviderSuffix(id).pinned.None?
  }

  /** `id` is itself a configured key, a wildcard or empty, and its own row leads elsewhere than the entry advertised
      under it. */
  predicate Shadowed(setup: Setup, id: string, entry: CatalogModel)
  {
    && (HasGlob(id) || id == "")
    && TargetOf(setup.mappings, id).Some?
    && var t := ParseMapping(TargetOf(setup.mappings, id).value);
      var model := MappedModelName(setup, id, id, t.model);
      && t.provider in setup.registered
      && model.Some?
      && CatalogModel(t.provider, model.value, t.pinned) != entry
  }

  lemma UnpinnedIsUnqualified(setup: Setup, listing: Listing, id: string)
    requires Unpinned(id)
    ensures StripClientProviderSuffix(id).base == id
    ensures Resolve(setup, listing, id, None)
      == (if ExactRoute(setup, id, None).Some? then ExactRoute(setup, id, None)
          else if EntryRoute(setup, Advertised(setup, listing, id), None, None).Some?
          then EntryRoute(setup, Advertised(setup, listing, id), None, None)
          else WildcardRoute(setup, setup.mappings, id, None))
  {
    hide ExactRoute, EntryRoute, WildcardRoute, Advertised;
  }

  lemma ParsedPinsMerge(target: string)
    ensures ParseMapping(target).pinned != Some([])
    ensures MergePinned(ParseMapping(target).pinned, None) == ParseMapping(target).pinned
  {
    ParsedShape(target);
    hide ParseMapping;
  }

  /** A literal key's own row builds the advertised route, or none when its target pattern does not match it. */
  lemma LiteralRowAgrees(setup: Setup, id: string, target: string)
    requires !HasGlob(id) && id != ""
    ensures var route := BuildRoute(setup, id, id, target, None);
      route.None? || route == Some(AsAdvertised(LiteralEntry(setup, id, target)))
  {
    ParsedPinsMerge(target);
    hide ParseMapping, FormatRouteLabel;
  }

  lemma OwnRowDiffers(setup: Setup, id: string, target: string, entry: CatalogModel)
    requires (HasGlob(id) || id == "") && TargetOf(setup.mappings, id) == Some(target)
    ensures var route := BuildRoute(setup, id, id, target, None);
      route.None? || route == Some(AsAdvertised(entry)) <==> !Shadowed(setup, id, entry)
  {
    ParsedPinsMerge(target);
    hide ParseMapping, FormatRouteLabel, TargetOf;
  }

  lemma {:induction false} ExpandedPins(setup: Setup, listing: Listing, mappings: seq<Mapping>, id: string)
    ensures var entry := FirstExpansion(setup, listing, mappings, id);
      entry.Some? ==> MergePinned(entry.value.pinned, None) == entry.value.pinned
  {
    if mappings != [] {
      ExpandedPins(setup, listing, mappings[..|mappings| - 1], id);
      ParsedPinsMerge(mappings[|mappings| - 1].target);
      hide ParseMapping;
    }
  }

  lemma AdvertisedPins(setup: Setup, listing: Listing, id: string)
    ensures var entry := Advertised(setup, listing, id);
      entry.Some? ==> MergePinned(entry.value.pinned, None) == entry.value.pinned
  {
    ExpandedPins(setup, listing, setup.mappings, id);
    var target := TargetOf(setup.mappings, id);
    if target.Some? {
      ParsedPinsMerge(target.value);
    }
    hide ParseMapping, FirstExpansion, TargetOf;
  }

  /** Every advertised model that asks for no sub-provider and whose provider is registered is routed exactly as the
      entry states, unless a wildcard or empty row bearing the very same name leads elsewhere. */
  lemma AdvertisedIsRoutedIff(setup: Setup, listing: Listing, id: string)
    requires Unpinned(id) && Advertised(setup, listing, id).Some?
    requires Advertised(setup, listing, id).value.provider in setup.registered
    ensures var entry := Advertised(setup, listing, id).value;
      Resolve(setup, listing, id, None) == Some(AsAdvertised(entry)) <==> !Shadowed(setup, id, entry)
  {
    var entry := Advertised(setup, listing, id).value;
    UnpinnedIsUnqualified(setup, listing, id);
    AdvertisedPins(setup, listing, id);
    var target := TargetOf(setup.mappings, id);
    if target.Some? {
      if HasGlob(id) || id == "" {
        OwnRowDiffers(setup, id, target.value, entry);
      } else {
        LiteralRowAgrees(setup, id, target.value);
      }
    }
    hide StripClientProviderSuffix, ParseMapping, FirstExpansion, FormatRouteLabel, TargetOf, MappedModelName;
  }

  lemma ParseText(provider: string, model: string, mapping: string)
    requires ':' !in provider && '+' !in model && mapping == provider + ([':'] + model)
    ensures ParseMapping(mapping) == Target(provider, model, None)
  {
    CutAtColon(provider, model);
  }

  /** Provider `p` lists a model whose name is also a wildcard key: it is advertised for `p` and routed to `q`. */
  lemma ShadowedExample(matches: (string, string) -> bool)
    requires matches("a[b]", "*")
    ensures var setup := Setup([Mapping("*", "p:*"), Mapping("a[b]", "q:x")], {"p", "q"}, matches);
      var listing: Listing := map["p" := ["a[b]"]];
      && Advertised(setup, listing, "a[b]") == Some(CatalogModel("p", "a[b]", None))
      && Shadowed(setup, "a[b]", CatalogModel("p", "a[b]", None))
      && Resolve(setup, listing, "a[b]", None) == Some(RouteTo("q", "x", None))
  {
    hide ParseMapping;
    var setup := Setup([Mapping("*", "p:*"), Mapping("a[b]", "q:x")], {"p", "q"}, matches);
    var listing: Listing := map["p" := ["a[b]"]];
    ParseText("p", "*", "p:*");
    ParseText("q", "x", "q:x");
    assert "a[b]"[1] == '[' && "*"[0] == '*';
    assert setup.mappings[..1] == [Mapping("*", "p:*")];
    assert FirstExpansion(setup, listing, [], "a[b]") == None;
    assert setup.mappings[..1][..0] == [];
    assert FirstExpansion(setup, listing, setup.mappings[..1], "a[b]") == Some(CatalogModel("p", "a[b]", None));
  }
}
