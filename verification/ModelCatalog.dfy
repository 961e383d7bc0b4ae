/** The models the proxy advertises: wildcard targets expanded over the upstream listings, then literal client keys. */
module ModelCatalog {
  import opened Json
  import opened ModelMappings

  /** One row of `model_mappings`. */
  datatype Mapping = Mapping(key: string, target: string)

  /** The configured rows in order, the providers that have an adapter, and `fnmatch.fnmatch(name, pattern)`. */
  datatype Setup = Setup(mappings: seq<Mapping>, registered: set<string>, matches: (string, string) -> bool)

  /** The model ids each provider lists, in order. */
  type Listing = map<string, seq<string>>

  /** What the catalog says of a client model. */
  datatype CatalogModel = CatalogModel(provider: string, model: string, pinned: Pins)

  type Catalog = map<string, CatalogModel>

  /** `model_mappings.get(key)`. */
  function TargetOf(mappings: seq<Mapping>, key: string): Option<string>
  {
    if mappings == [] then None
    else
      var last := mappings[|mappings| - 1];
      if last.key == key then Some(last.target) else TargetOf(mappings[..|mappings| - 1], key)
  }

  lemma {:induction false} RowOfTarget(mappings: seq<Mapping>, key: string) returns (i: nat)
    requires TargetOf(mappings, key).Some?
    ensures i < |mappings| && mappings[i] == Mapping(key, TargetOf(mappings, key).value)
  {
    var n := |mappings| - 1;
    if mappings[n].key == key {
      i := n;
    } else {
      i := RowOfTarget(mappings[..n], key);
    }
  }

  // ----- names

  function CatalogModelName(setup: Setup, clientModel: string, pattern: string): Option<string>
  {
    if pattern == "*" then Some(clientModel)
    else if HasGlob(pattern) then if setup.matches(clientModel, pattern) then Some(clientModel) else None
    else Some(pattern)
  }

  function ExpandedClientModel(setup: Setup, clientPattern: string, pattern: string, upstreamId: string): Option<string>
  {
    if !setup.matches(upstreamId, pattern) then None
    else if !HasGlob(clientPattern) then Some(upstreamId)
    else if setup.matches(upstreamId, clientPattern) then Some(upstreamId)
    else None
  }

  // ----- what the catalog should say

  /** Row `m` advertises the upstream model `id` under its own name. */
  predicate Expands(setup: Setup, m: Mapping, id: string)
  {
    && HasGlob(ParseMapping(m.target).model)
    && ExpandedClientModel(setup, m.key, ParseMapping(m.target).model, id) == Some(id)
  }

  function ExpandedEntry(m: Mapping, id: string): CatalogModel
  {
    var t := ParseMapping(m.target);
    CatalogModel(t.provider, id, t.pinned)
  }

  predicate Lists(listing: Listing, m: Mapping, id: string)
  {
    var provider := ParseMapping(m.target).provider;
    provider in listing && id in listing[provider]
  }

  /** The first row that advertises `id`. */
  function FirstExpansion(setup: Setup, listing: Listing, mappings: seq<Mapping>, id: string): Option<CatalogModel>
  {
    if mappings == [] then None
    else
      var n := |mappings| - 1;
      var earlier := FirstExpansion(setup, listing, mappings[..n], id);
      if earlier.Some? then earlier
      else if Lists(listing, mappings[n], id) && Expands(setup, mappings[n], id) then
        Some(ExpandedEntry(mappings[n], id))
      else None
  }

  /** A target pattern that does not match the key stays as it is. */
  function LiteralEntry(setup: Setup, key: string, target: string): CatalogModel
  {
    var t := ParseMapping(target);
    var name := CatalogModelName(setup, key, t.model);
    CatalogModel(t.provider, if name.Some? && name.value != "" then name.value else t.model, t.pinned)
  }

  /** The catalog over the rows `mappings`, the wildcard part computed over all rows. */
  function LiteralOr(setup: Setup, mappings: seq<Mapping>, id: string,
      otherwise: Option<CatalogModel>): Option<CatalogModel>
  {
    var target := TargetOf(mappings, id);
    if target.Some? && !HasGlob(id) then Some(LiteralEntry(setup, id, target.value)) else otherwise
  }

  function Advertised(setup: Setup, listing: Listing, id: string): Option<CatalogModel>
  {
    LiteralOr(setup, setup.mappings, id, FirstExpansion(setup, listing, setup.mappings, id))
  }

  // ----- building it

  /** The entries a row adds by `setdefault`, after the first `j` listed models. */
  function AfterListed(setup: Setup, m: Mapping, ids: seq<string>, id: string,
      earlier: Option<CatalogModel>): Option<CatalogModel>
  {
    if earlier.Some? then earlier else if id in ids && Expands(setup, m, id) then Some(ExpandedEntry(m, id)) else None
  }

  lemma ListedStep(setup: Setup, m: Mapping, ids: seq<string>, j: nat, id: string, earlier: Option<CatalogModel>)
    requires j < |ids|
    ensures AfterListed(setup, m, ids[..j + 1], id, earlier) ==
      var before := AfterListed(setup, m, ids[..j], id, earlier);
      if before.Some? then before
      else if id == ids[j] && Expands(setup, m, id) then Some(ExpandedEntry(m, id))
      else None
  {
    hide Expands, ExpandedEntry;
    assert ids[..j + 1] == ids[..j] + [ids[j]];
  }

  /** A model is advertised under its own name or not at all. */
  lemma ExpandedName(setup: Setup, m: Mapping, id: string)
    requires HasGlob(ParseMapping(m.target).model)
    ensures var name := ExpandedClientModel(setup, m.key, ParseMapping(m.target).model, id);
      (name.Some? ==> name.value == id) && (name.Some? <==> Expands(setup, m, id))
  {
    hide ParseMapping, HasGlob;
  }

  method ExpandRow(setup: Setup, m: Mapping, ids: seq<string>, catalog: Catalog) returns (r: Catalog)
    requires HasGlob(ParseMapping(m.target).model)
    ensures forall id :: InMap(r, id) == AfterListed(setup, m, ids, id, InMap(catalog, id))
  {
    hide ParseMapping, HasGlob, Expands, ExpandedClientModel;
    r := catalog;
    var t := ParseMapping(m.target);
    for j := 0 to |ids|
      invariant forall id :: InMap(r, id) == AfterListed(setup, m, ids[..j], id, InMap(catalog, id))
    {
      ghost var before := r;
      ExpandedName(setup, m, ids[j]);
      var name := ExpandedClientModel(setup, m.key, t.model, ids[j]);
      if name.Some? && name.value !in r {
        r := r[name.value := CatalogModel(t.provider, ids[j], t.pinned)];
      }
      forall id
        ensures InMap(r, id) == AfterListed(setup, m, ids[..j + 1], id, InMap(catalog, id))
      {
        ListedStep(setup, m, ids, j, id, InMap(catalog, id));
        assert InMap(before, id) == AfterListed(setup, m, ids[..j], id, InMap(catalog, id));
      }
    }
    assert ids[..|ids|] == ids;
  }

  /** One row's part of the expansion. */
  lemma ExpansionStep(setup: Setup, listing: Listing, mappings: seq<Mapping>, i: nat, id: string)
    requires i < |mappings|
    ensures var m, before := mappings[i], FirstExpansion(setup, listing, mappings[..i], id);
      var provider := ParseMapping(m.target).provider;
      FirstExpansion(setup, listing, mappings[..i + 1], id) ==
      if HasGlob(ParseMapping(m.target).model) && provider in listing
      then AfterListed(setup, m, listing[provider], id, before)
      else before
  {
    hide ParseMapping, HasGlob, ExpandedClientModel;
    NextRow(mappings, i);
  }

  method ExpandWildcardCatalogEntries(setup: Setup, listing: Listing) returns (catalog: Catalog)
    ensures forall id :: InMap(catalog, id) == FirstExpansion(setup, listing, setup.mappings, id)
  {
    hide ParseMapping, HasGlob, AfterListed;
    catalog := map[];
    for i := 0 to |setup.mappings|
      invariant forall id :: InMap(catalog, id) == FirstExpansion(setup, listing, setup.mappings[..i], id)
    {
      hide FirstExpansion;
      ghost var before := catalog;
      var m := setup.mappings[i];
      var t := ParseMapping(m.target);
      if HasGlob(t.model) && t.provider in listing {
        catalog := ExpandRow(setup, m, listing[t.provider], catalog);
      }
      forall id
        ensures InMap(catalog, id) == FirstExpansion(setup, listing, setup.mappings[..i + 1], id)
      {
        ExpansionStep(setup, listing, setup.mappings, i, id);
        assert InMap(before, id) == FirstExpansion(setup, listing, setup.mappings[..i], id);
      }
    }
    AllRows(setup.mappings);
  }

  lemma NextRow(mappings: seq<Mapping>, i: nat)
    requires i < |mappings|
    ensures mappings[..i + 1] != [] && mappings[..i + 1][i] == mappings[i] && mappings[..i + 1][..i] == mappings[..i]
  {
  }

  lemma AllRows(mappings: seq<Mapping>)
    ensures mappings[..|mappings|] == mappings
  {
  }

  method GetProxyModelCatalog(setup: Setup, listing: Listing) returns (catalog: Catalog)
    ensures forall id :: InMap(catalog, id) == Advertised(setup, listing, id)
  {
    hide LiteralEntry, FirstExpansion;
    var expanded := ExpandWildcardCatalogEntries(setup, listing);
    catalog := expanded;
    for i := 0 to |setup.mappings|
      invariant forall id :: InMap(catalog, id) == LiteralOr(setup, setup.mappings[..i], id, InMap(expanded, id))
    {
      var m := setup.mappings[i];
      NextRow(setup.mappings, i);
      if !HasGlob(m.key) {
        catalog := catalog[m.key := LiteralEntry(setup, m.key, m.target)];
      }
    }
    AllRows(setup.mappings);
  }

  // ----- what the catalog says, row by row

  predicate IsPattern(text: string)
  {
    exists c | c in text :: c in {'*', '?', '[', ']'}
  }

  lemma {:induction false} TargetTells(mappings: seq<Mapping>, key: string)
    ensures TargetOf(mappings, key).None? <==> forall i | 0 <= i < |mappings| :: mappings[i].key != key
  {
    if mappings != [] {
      TargetTells(mappings[..|mappings| - 1], key);
    }
  }

  /** The row advertises the listed model: its target pattern matches the model, and its key does, too, unless the key
      is no pattern. */
  predicate Advertises(setup: Setup, listing: Listing, m: Mapping, id: string)
  {
    var t := ParseMapping(m.target);
    && IsPattern(t.model) && t.provider in listing && id in listing[t.provider]
    && setup.matches(id, t.model) && (IsPattern(m.key) ==> setup.matches(id, m.key))
  }

  /** Row `i` is the first that advertises the model. */
  ghost predicate FirstToAdvertise(setup: Setup, listing: Listing, mappings: seq<Mapping>, id: string, i: nat)
  {
    && i < |mappings| && Advertises(setup, listing, mappings[i], id)
    && forall j | 0 <= j < i :: !Advertises(setup, listing, mappings[j], id)
  }

  lemma RowAdvertises(setup: Setup, listing: Listing, m: Mapping, id: string)
    ensures Advertises(setup, listing, m, id) <==> Lists(listing, m, id) && Expands(setup, m, id)
  {
    hide ParseMapping;
  }

  lemma {:induction false} ExpansionTells(setup: Setup, listing: Listing, mappings: seq<Mapping>, id: string)
    ensures var entry := FirstExpansion(setup, listing, mappings, id);
      if entry.None? then forall i | 0 <= i < |mappings| :: !Advertises(setup, listing, mappings[i], id)
      else exists i :: AdvertisedBy(setup, listing, mappings, id, entry.value, i)
  {
    hide Lists, Expands, Advertises, ParseMapping;
    if mappings != [] {
      var n := |mappings| - 1;
      var front, m := mappings[..n], mappings[n];
      ExpansionTells(setup, listing, front, id);
      RowAdvertises(setup, listing, m, id);
      var earlier := FirstExpansion(setup, listing, front, id);
      if earlier.Some? {
        var i: nat :| AdvertisedBy(setup, listing, front, id, earlier.value, i);
        assert forall j | 0 <= j <= i :: mappings[j] == front[j];
        assert AdvertisedBy(setup, listing, mappings, id, earlier.value, i);
      } else if Advertises(setup, listing, m, id) {
        assert forall j | 0 <= j < n :: mappings[j] == front[j];
        assert AdvertisedBy(setup, listing, mappings, id, ExpandedEntry(m, id), n);
      }
    }
  }

  /** The entry is that of row `i`, the first that advertises the model, under its own name. */
  ghost predicate AdvertisedBy(setup: Setup, listing: Listing, mappings: seq<Mapping>, id: string, entry: CatalogModel,
      i: nat)
  {
    && FirstToAdvertise(setup, listing, mappings, id, i)
    && var t := ParseMapping(mappings[i].target); entry == CatalogModel(t.provider, id, t.pinned)
  }

  /** What a literal key stands for: its own name when the target is a bare star or a pattern that matches it, and
      otherwise the target's model as it is. */
  predicate StandsFor(setup: Setup, entry: CatalogModel, key: string, target: string)
  {
    var t := ParseMapping(target);
    && entry.provider == t.provider && entry.pinned == t.pinned
    && entry.model == if key != "" && (t.model == "*" || (IsPattern(t.model) && setup.matches(key, t.model))) then key
                      else t.model
  }

  /** A configured key that is no pattern stands for itself; any other name is what the first row advertises. */
  lemma AdvertisedTells(setup: Setup, listing: Listing, id: string)
    ensures var entry, own := Advertised(setup, listing, id), TargetOf(setup.mappings, id);
      if own.Some? && !IsPattern(id) then entry.Some? && StandsFor(setup, entry.value, id, own.value)
      else if entry.Some? then exists i :: AdvertisedBy(setup, listing, setup.mappings, id, entry.value, i)
      else forall i | 0 <= i < |setup.mappings| :: !Advertises(setup, listing, setup.mappings[i], id)
  {
    hide ParseMapping, FirstExpansion;
    ExpansionTells(setup, listing, setup.mappings, id);
  }
}
