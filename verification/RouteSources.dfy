/** Where a route comes from, and what it takes from there: provider, model and pins, in the order of the sources. */
module RouteSources {
  import opened Json
  import opened ModelCatalog
  import opened ModelMappings
  import opened Routing
  import opened Texts

  /** `first`, unless it is empty. */
  predicate IsOr(pins: Pins, first: Pins, second: Pins)
  {
    pins == if first.Some? && first.value != [] then first else second
  }

  /** The upstream model for `lookup` under a target's model text: the client's own name when the text is the key or a
      bare star, or a pattern that matches, and otherwise the text, if it is no pattern. */
  predicate IsModel(setup: Setup, model: string, lookup: string, key: string, text: string)
  {
    if text == key || text == "*" then model == lookup
    else if exists c | c in text :: c in {'*', '?', '[', ']'} then setup.matches(lookup, text) && model == lookup
    else model == text
  }

  /** The route of a row: the target's provider, which must have an adapter, its model, and its pins or else `pins`. */
  ghost predicate FromRow(setup: Setup, route: Route, lookup: string, key: string, target: string, pins: Pins)
  {
    var t := ParseMapping(target);
    && t.provider in setup.registered && route.provider == t.provider
    && IsModel(setup, route.model, lookup, key, t.model) && IsOr(route.pinned, t.pinned, pins)
    && route.routeLabel == FormatRouteLabel(route.provider, route.model, route.pinned)
  }

  /** No route can be made of the row. */
  predicate Unusable(setup: Setup, lookup: string, key: string, target: string)
  {
    var t := ParseMapping(target);
    || t.provider !in setup.registered
    || (t.model != key && t.model != "*" && HasGlob(t.model) && !setup.matches(lookup, t.model))
  }

  lemma BuiltTells(setup: Setup, lookup: string, key: string, target: string, pins: Pins)
    ensures var route := BuildRoute(setup, lookup, key, target, pins);
      if route.Some? then FromRow(setup, route.value, lookup, key, target, pins) && !route.value.providerAware
      else Unusable(setup, lookup, key, target)
  {
    hide ParseMapping, FormatRouteLabel;
  }

  // ----- provider-qualified keys

  /** Row `i` is the last whose key is `lowered` when its letters are lowered. */
  ghost predicate LastKey(mappings: seq<Mapping>, lowered: string, i: nat)
  {
    && i < |mappings| && Lower(mappings[i].key) == lowered
    && forall j | i < j < |mappings| :: Lower(mappings[j].key) != lowered
  }

  lemma {:induction false} KeyTells(mappings: seq<Mapping>, lowered: string) returns (i: nat)
    requires KeyIgnoringCase(mappings, lowered).Some?
    ensures LastKey(mappings, lowered, i) && mappings[i].key == KeyIgnoringCase(mappings, lowered).value
  {
    hide Lower;
    var n := |mappings| - 1;
    if Lower(mappings[n].key) == lowered {
      i := n;
    } else {
      i := KeyTells(mappings[..n], lowered);
      assert forall j | 0 <= j < n :: mappings[j] == mappings[..n][j];
    }
  }

  /** The route of the last key that is `base+slug` but for the case of letters; the client's pins play no part. */
  ghost predicate ServedByKey(setup: Setup, route: Route, base: string, slug: string, i: nat)
  {
    && LastKey(setup.mappings, Lower(base + "+" + slug), i) && route.providerAware
    && var key := setup.mappings[i].key;
      var target := TargetOf(setup.mappings, key);
      target.Some? && FromRow(setup, route, base, key, target.value, None)
  }

  lemma QualifiedTells(setup: Setup, base: string, slug: string) returns (i: nat)
    requires QualifiedRoute(setup, base, slug).Some?
    ensures ServedByKey(setup, QualifiedRoute(setup, base, slug).value, base, slug, i)
  {
    var wanted := base + "+" + slug;
    assert BuildQualifiedKey(base, slug) == wanted;
    KeyFound(setup.mappings, Lower(wanted));
    i := KeyTells(setup.mappings, Lower(wanted));
    hide Lower, ParseMapping, TargetOf;
    var key := setup.mappings[i].key;
    BuiltTells(setup, base, key, TargetOf(setup.mappings, key).value, None);
  }

  /** There is none when no key is, or the last that is cannot be used. */
  lemma UnqualifiedTells(setup: Setup, base: string, slug: string, i: nat)
    requires QualifiedRoute(setup, base, slug).None? && LastKey(setup.mappings, Lower(base + "+" + slug), i)
    ensures var key := setup.mappings[i].key;
      var target := TargetOf(setup.mappings, key);
      target.Some? && Unusable(setup, base, key, target.value)
  {
    var wanted := base + "+" + slug;
    assert BuildQualifiedKey(base, slug) == wanted;
    KeyFound(setup.mappings, Lower(wanted));
    KeyIsLast(setup.mappings, Lower(wanted), i);
    hide Lower, ParseMapping, TargetOf;
    var key := setup.mappings[i].key;
    BuiltTells(setup, base, key, TargetOf(setup.mappings, key).value, None);
  }

  lemma {:induction false} KeyIsLast(mappings: seq<Mapping>, lowered: string, i: nat)
    requires LastKey(mappings, lowered, i)
    ensures KeyIgnoringCase(mappings, lowered) == Some(mappings[i].key)
  {
    hide Lower;
    var n := |mappings| - 1;
    if i < n {
      KeyIsLast(mappings[..n], lowered, i);
    }
  }

  /** The slugs in the order in which they are tried: the client's, then the body's. */
  function Tried(client: Pins, body: Pins): seq<string>
  {
    (if client.Some? then client.value else []) + (if body.Some? then body.value else [])
  }

  /** The first of the slugs that gives a route. */
  ghost predicate FirstToServe(setup: Setup, lookup: string, slugs: seq<string>, j: nat, route: Route)
  {
    && j < |slugs| && QualifiedRoute(setup, lookup, slugs[j]) == Some(route)
    && forall i | 0 <= i < j :: QualifiedRoute(setup, lookup, slugs[i]).None?
  }

  lemma {:induction false} FirstTells(setup: Setup, lookup: string, slugs: seq<string>)
    ensures var route := FirstQualified(setup, lookup, slugs);
      if route.None? then forall i | 0 <= i < |slugs| :: QualifiedRoute(setup, lookup, slugs[i]).None?
      else exists j :: FirstToServe(setup, lookup, slugs, j, route.value)
  {
    hide QualifiedRoute;
    if slugs != [] {
      var first := QualifiedRoute(setup, lookup, slugs[0]);
      FirstTells(setup, lookup, slugs[1..]);
      if first.Some? {
        assert FirstToServe(setup, lookup, slugs, 0, first.value);
      } else if FirstQualified(setup, lookup, slugs[1..]).Some? {
        var route := FirstQualified(setup, lookup, slugs[1..]).value;
        var j: nat :| FirstToServe(setup, lookup, slugs[1..], j, route);
        assert FirstToServe(setup, lookup, slugs, j + 1, route);
      }
    }
  }

  lemma {:induction false} FirstAppend(setup: Setup, lookup: string, a: seq<string>, b: seq<string>)
    ensures FirstQualified(setup, lookup, a + b) ==
      var first := FirstQualified(setup, lookup, a);
      if first.Some? then first else FirstQualified(setup, lookup, b)
  {
    hide QualifiedRoute;
    if a == [] {
      assert a + b == b;
    } else {
      assert (a + b)[1..] == a[1..] + b;
      FirstAppend(setup, lookup, a[1..], b);
    }
  }

  /** The first slug, the client's before the body's, that has a usable key. */
  lemma AwareTells(setup: Setup, lookup: string, client: Pins, body: Pins)
    ensures var route, slugs := ProviderAware(setup, lookup, client, body), Tried(client, body);
      if route.None? then forall i | 0 <= i < |slugs| :: QualifiedRoute(setup, lookup, slugs[i]).None?
      else exists j :: FirstToServe(setup, lookup, slugs, j, route.value)
  {
    hide QualifiedRoute;
    FirstTells(setup, lookup, Tried(client, body));
    FirstAppend(setup, lookup, if client.Some? then client.value else [], if body.Some? then body.value else []);
  }

  // ----- the other sources

  /** Row `i` is the first that matches and can be used. */
  ghost predicate FirstMatch(setup: Setup, mappings: seq<Mapping>, lookup: string, i: nat)
  {
    && i < |mappings| && setup.matches(lookup, mappings[i].key)
    && forall j | 0 <= j < i ::
      setup.matches(lookup, mappings[j].key) ==> Unusable(setup, lookup, mappings[j].key, mappings[j].target)
  }

  /** The route of row `i`, the first that matches and can be used. */
  ghost predicate ServedByMatch(setup: Setup, mappings: seq<Mapping>, route: Route, lookup: string, client: Pins,
      i: nat)
  {
    FirstMatch(setup, mappings, lookup, i) && FromRow(setup, route, lookup, mappings[i].key, mappings[i].target, client)
  }

  lemma {:induction false} WildcardTells(setup: Setup, mappings: seq<Mapping>, lookup: string, client: Pins)
    returns (i: nat)
    requires WildcardRoute(setup, mappings, lookup, client).Some?
    ensures ServedByMatch(setup, mappings, WildcardRoute(setup, mappings, lookup, client).value, lookup, client, i)
  {
    hide ParseMapping, BuildRoute, FromRow, Unusable;
    var m := mappings[0];
    BuiltTells(setup, lookup, m.key, m.target, client);
    if RowRoute(setup, m, lookup, client).Some? {
      i := 0;
    } else {
      i := WildcardTells(setup, mappings[1..], lookup, client);
      i := i + 1;
    }
  }

  /** The route of a catalog entry: its provider and model; its pins, or else the client's, or else the body's hints. */
  ghost predicate FromEntry(setup: Setup, route: Route, entry: CatalogModel, client: Pins, body: Pins)
  {
    && entry.provider in setup.registered && route.provider == entry.provider && route.model == entry.model
    && route.routeLabel == FormatRouteLabel(route.provider, route.model, route.pinned)
    && if entry.pinned.Some? && entry.pinned.value != [] then route.pinned == entry.pinned
       else if client.Some? && client.value != [] then route.pinned == client
       else IsOr(route.pinned, body, client)
  }

  lemma EntryTells(setup: Setup, entry: Option<CatalogModel>, client: Pins, body: Pins)
    ensures var route := EntryRoute(setup, entry, client, body);
      if route.Some? then entry.Some? && FromEntry(setup, route.value, entry.value, client, body)
      else entry.None? || entry.value.provider !in setup.registered
  {
    hide FormatRouteLabel;
  }

  /** A route comes from the first source that has one: a key with the client's or the body's slug, the row of the model
      itself, its catalog entry, or the first usable row that matches. A row's or an entry's own pins come before the
      client's, and these before the hints of the body, which only a catalog entry takes. */
  ghost predicate Routed(setup: Setup, entry: Option<CatalogModel>, client: ClientModel, body: Pins,
      result: Option<Route>)
  {
    var slugs, own := Tried(client.pinned, body), TargetOf(setup.mappings, client.base);
    if exists j :: 0 <= j < |slugs| && QualifiedRoute(setup, client.base, slugs[j]).Some? then
      result.Some? && exists j :: FirstToServe(setup, client.base, slugs, j, result.value)
    else if own.Some? && !Unusable(setup, client.base, client.base, own.value) then
      result.Some? && FromRow(setup, result.value, client.base, client.base, own.value, client.pinned)
    else if entry.Some? && entry.value.provider in setup.registered then
      result.Some? && FromEntry(setup, result.value, entry.value, client.pinned, body)
    else
      result.Some? ==> MatchServes(setup, result.value, client)
  }

  /** The first row that matches and can be used gives the route. */
  ghost predicate MatchServes(setup: Setup, route: Route, client: ClientModel)
  {
    exists i: nat :: ServedByMatch(setup, setup.mappings, route, client.base, client.pinned, i)
  }

  lemma MatchTells(setup: Setup, client: ClientModel)
    ensures var route := WildcardRoute(setup, setup.mappings, client.base, client.pinned);
      route.Some? ==> MatchServes(setup, route.value, client)
  {
    hide WildcardRoute;
    if WildcardRoute(setup, setup.mappings, client.base, client.pinned).Some? {
      var i := WildcardTells(setup, setup.mappings, client.base, client.pinned);
    }
  }

  lemma ResolveTells(setup: Setup, listing: Listing, requested: string, body: Pins)
    ensures var client := StripClientProviderSuffix(requested);
      Routed(setup, Advertised(setup, listing, client.base), client, body, Resolve(setup, listing, requested, body))
  {
    hide ParseMapping, StripClientProviderSuffix, Advertised, TargetOf, QualifiedRoute, WildcardRoute, FromRow,
      BuildRoute, EntryRoute, MatchServes, ProviderAware, Unusable, Tried;
    var client := StripClientProviderSuffix(requested);
    var entry, own := Advertised(setup, listing, client.base), TargetOf(setup.mappings, client.base);
    AwareTells(setup, client.base, client.pinned, body);
    if own.Some? {
      BuiltTells(setup, client.base, client.base, own.value, client.pinned);
      UnusableIsNotBuilt(setup, client.base, client.base, own.value, client.pinned);
    }
    EntryTells(setup, entry, client.pinned, body);
    MatchTells(setup, client);
    var slugs, result := Tried(client.pinned, body), Resolve(setup, listing, requested, body);
    var aware := ProviderAware(setup, client.base, client.pinned, body);
    if aware.Some? {
      var j: nat :| FirstToServe(setup, client.base, slugs, j, aware.value);
      assert QualifiedRoute(setup, client.base, slugs[j]).Some?;
      assert result == aware;
    } else if ExactRoute(setup, client.base, client.pinned).Some? {
      assert result == ExactRoute(setup, client.base, client.pinned);
    } else if EntryRoute(setup, entry, client.pinned, body).Some? {
      assert result == EntryRoute(setup, entry, client.pinned, body);
    } else {
      assert result.Some? ==> MatchServes(setup, result.value, client);
    }
  }

  lemma UnusableIsNotBuilt(setup: Setup, lookup: string, key: string, target: string, pins: Pins)
    ensures Unusable(setup, lookup, key, target) <==> BuildRoute(setup, lookup, key, target, pins).None?
  {
    hide ParseMapping;
  }
}
