/** The check of `model_mappings` at load time, and what a clean check promises about routing. */
module RoutingConflicts {
  import opened CatalogRouting
  import opened Json
  import opened ModelCatalog
  import opened ModelMappings
  import opened Routing
  import opened Texts

  function Gateway(m: Mapping): string
  {
    ParseMapping(m.target).provider
  }

  function NormKey(base: string, slug: string): string
  {
    BuildQualifiedKey(Lower(base), Lower(slug))
  }

  /** The row's key carries a sub-provider and is filed under `norm`. */
  predicate FiledUnder(m: Mapping, norm: string)
  {
    var c := StripClientProviderSuffix(m.key);
    Given(c.pinned) && NormKey(c.base, c.pinned.value[0]) == norm
  }

  predicate IsBase(m: Mapping)
  {
    !Given(StripClientProviderSuffix(m.key).pinned)
  }

  /** The qualified rows filed under `norm`, in order. */
  function QualifiedRows(mappings: seq<Mapping>, norm: string): seq<Mapping>
  {
    if mappings == [] then []
    else
      var n := |mappings| - 1;
      QualifiedRows(mappings[..n], norm) + if FiledUnder(mappings[n], norm) then [mappings[n]] else []
  }

  /** The last row without a sub-provider whose key is `lowered` but for case. */
  function BaseRow(mappings: seq<Mapping>, lowered: string): Option<Mapping>
  {
    if mappings == [] then None
    else
      var m := mappings[|mappings| - 1];
      if IsBase(m) && Lower(m.key) == lowered then Some(m) else BaseRow(mappings[..|mappings| - 1], lowered)
  }

  datatype Conflict =
    | Clash(norm: string, keys: seq<string>)
    | PinClash(baseKey: string, pin: string, baseGateway: string, qualifiedKey: string, qualifiedGateway: string)

  function Keys(rows: seq<Mapping>): (keys: seq<string>)
    ensures |keys| == |rows| && forall i | 0 <= i < |keys| :: keys[i] == rows[i].key
  {
    if rows == [] then [] else [rows[0].key] + Keys(rows[1..])
  }

  ghost predicate Diverge(rows: seq<Mapping>)
  {
    exists i, j | 0 <= i < j < |rows| :: Gateway(rows[i]) != Gateway(rows[j])
  }

  ghost predicate PinDiverges(mappings: seq<Mapping>, base: Mapping, pin: string, q: Mapping)
  {
    && Given(ParseMapping(base.target).pinned)
    && pin in ParseMapping(base.target).pinned.value
    && q in QualifiedRows(mappings, NormKey(base.key, pin))
    && Lower(Gateway(q)) != Lower(Gateway(base))
  }

  function PinClashOf(base: Mapping, pin: string, q: Mapping): Conflict
  {
    PinClash(base.key, pin, Gateway(base), q.key, Gateway(q))
  }

  ghost predicate PinClashAt(mappings: seq<Mapping>, base: Mapping, c: Conflict)
  {
    exists pin, q :: PinDiverges(mappings, base, pin, q) && c == PinClashOf(base, pin, q)
  }

  /** The conflicts a configuration has. */
  ghost predicate IsConflict(mappings: seq<Mapping>, c: Conflict)
  {
    match c
    case Clash(norm, keys) => Diverge(QualifiedRows(mappings, norm)) && keys == Keys(QualifiedRows(mappings, norm))
    case PinClash(_, _, _, _, _) =>
      exists lowered :: BaseRow(mappings, lowered).Some? && PinClashAt(mappings, BaseRow(mappings, lowered).value, c)
  }

  // ----- the check

  /** The rows of a dict of lists, an absent key standing for the empty list. */
  function Rows(index: map<string, seq<Mapping>>, key: string): seq<Mapping>
  {
    if key in index then index[key] else []
  }

  /** A dict's keys in insertion order. */
  ghost predicate Orders<V>(order: seq<string>, index: map<string, V>)
  {
    forall k :: k in order <==> k in index
  }

  method FileRows(mappings: seq<Mapping>)
    returns (qualified: map<string, seq<Mapping>>, norms: seq<string>, bases: map<string, Mapping>,
      lowereds: seq<string>)
    ensures forall k :: Rows(qualified, k) == QualifiedRows(mappings, k)
    ensures forall k :: InMap(bases, k) == BaseRow(mappings, k)
    ensures Orders(norms, qualified) && Orders(lowereds, bases)
  {
    hide StripClientProviderSuffix, NormKey, Lower;
    qualified, norms, bases, lowereds := map[], [], map[], [];
    for i := 0 to |mappings|
      invariant forall k :: Rows(qualified, k) == QualifiedRows(mappings[..i], k)
      invariant forall k :: InMap(bases, k) == BaseRow(mappings[..i], k)
      invariant Orders(norms, qualified) && Orders(lowereds, bases)
    {
      NextRow(mappings, i);
      var m := mappings[i];
      var c := StripClientProviderSuffix(m.key);
      if Given(c.pinned) {
        var norm := NormKey(c.base, c.pinned.value[0]);
        if norm !in qualified {
          norms := norms + [norm];
        }
        qualified := qualified[norm := Rows(qualified, norm) + [m]];
      } else {
        if Lower(m.key) !in bases {
          lowereds := lowereds + [Lower(m.key)];
        }
        bases := bases[Lower(m.key) := m];
      }
    }
    AllRows(mappings);
  }

  /** `len({gateway ...}) > 1`. */
  method GatewaysDiverge(rows: seq<Mapping>) returns (diverge: bool)
    ensures diverge <==> Diverge(rows)
  {
    hide Gateway;
    var gateways: set<string> := {};
    for i := 0 to |rows|
      invariant forall g :: g in gateways <==> exists j | 0 <= j < i :: Gateway(rows[j]) == g
    {
      gateways := gateways + {Gateway(rows[i])};
    }
    diverge := |gateways| > 1;
    if rows != [] {
      var first := Gateway(rows[0]);
      OneElement(gateways, first);
      if diverge {
        ghost var g :| g in gateways && g != first;
        ghost var j :| 0 <= j < |rows| && Gateway(rows[j]) == g;
        assert 0 < j;
      } else {
        assert forall j | 0 <= j < |rows| :: Gateway(rows[j]) in gateways;
      }
    }
  }

  lemma OneElement<T>(s: set<T>, x: T)
    requires x in s
    ensures |s| > 1 <==> exists y :: y in s && y != x
  {
    assert s == {x} + (s - {x});
    if s - {x} != {} {
      var y :| y in s - {x};
      assert {x, y} <= s;
    }
  }

  ghost predicate IsClash(qualified: map<string, seq<Mapping>>, norm: string, c: Conflict)
  {
    Diverge(Rows(qualified, norm)) && c == Clash(norm, Keys(Rows(qualified, norm)))
  }

  lemma DivergingRows(rows: seq<Mapping>)
    requires Diverge(rows)
    ensures rows != []
  {
  }

  method ReportClashes(qualified: map<string, seq<Mapping>>, norms: seq<string>) returns (conflicts: seq<Conflict>)
    requires Orders(norms, qualified)
    ensures forall c :: c in conflicts <==> exists norm :: IsClash(qualified, norm, c)
  {
    hide Diverge, Keys;
    conflicts := [];
    for i := 0 to |norms|
      invariant forall c :: c in conflicts <==> exists j :: 0 <= j < i && IsClash(qualified, norms[j], c)
    {
      var rows := qualified[norms[i]];
      var diverge := GatewaysDiverge(rows);
      if diverge {
        conflicts := conflicts + [Clash(norms[i], Keys(rows))];
      }
    }
    forall c, norm | IsClash(qualified, norm, c)
      ensures c in conflicts
    {
      DivergingRows(Rows(qualified, norm));
      assert norm in norms;
      var j :| 0 <= j < |norms| && norms[j] == norm;
      assert IsClash(qualified, norms[j], c);
    }
  }

  /** The conflicts of one base row and one pin with the rows filed under both. */
  method ReportPin(base: Mapping, pin: string, matched: seq<Mapping>) returns (conflicts: seq<Conflict>)
    ensures forall c :: c in conflicts <==>
      exists q :: q in matched && Lower(Gateway(q)) != Lower(Gateway(base)) && c == PinClashOf(base, pin, q)
  {
    hide Gateway, Lower;
    conflicts := [];
    for i := 0 to |matched|
      invariant forall c :: c in conflicts <==>
        exists j :: 0 <= j < i && Lower(Gateway(matched[j])) != Lower(Gateway(base))
          && c == PinClashOf(base, pin, matched[j])
    {
      if Lower(Gateway(matched[i])) != Lower(Gateway(base)) {
        conflicts := conflicts + [PinClashOf(base, pin, matched[i])];
      }
    }
  }

  method ReportBase(mappings: seq<Mapping>, base: Mapping, qualified: map<string, seq<Mapping>>)
      returns (conflicts: seq<Conflict>)
    requires forall k :: Rows(qualified, k) == QualifiedRows(mappings, k)
    ensures forall c :: c in conflicts <==> PinClashAt(mappings, base, c)
  {
    hide Gateway, Lower, NormKey, QualifiedRows, ParseMapping;
    conflicts := [];
    var pinned := ParseMapping(base.target).pinned;
    if !Given(pinned) {
      return;
    }
    for i := 0 to |pinned.value|
      invariant forall c :: c in conflicts <==>
        exists j, q :: 0 <= j < i && PinDiverges(mappings, base, pinned.value[j], q)
          && c == PinClashOf(base, pinned.value[j], q)
    {
      var pin := pinned.value[i];
      var more := ReportPin(base, pin, Rows(qualified, NormKey(base.key, pin)));
      assert forall c :: c in more <==>
        exists q :: PinDiverges(mappings, base, pin, q) && c == PinClashOf(base, pin, q);
      conflicts := conflicts + more;
    }
    forall c | PinClashAt(mappings, base, c)
      ensures c in conflicts
    {
      var pin, q :| PinDiverges(mappings, base, pin, q) && c == PinClashOf(base, pin, q);
      var j :| 0 <= j < |pinned.value| && pinned.value[j] == pin;
      assert PinDiverges(mappings, base, pinned.value[j], q);
    }
  }

  lemma OnlyPinClashes(mappings: seq<Mapping>, c: Conflict)
    ensures c.Clash? ==> forall base :: !PinClashAt(mappings, base, c)
  {
  }

  lemma BasesCovered(mappings: seq<Mapping>, bases: map<string, Mapping>, lowereds: seq<string>, c: Conflict)
    requires c.PinClash? && Orders(lowereds, bases) && forall k :: InMap(bases, k) == BaseRow(mappings, k)
    ensures IsConflict(mappings, c) <==> exists j :: 0 <= j < |lowereds| && PinClashAt(mappings, bases[lowereds[j]], c)
  {
    hide BaseRow, PinClashAt;
    if IsConflict(mappings, c) {
      var lowered :| BaseRow(mappings, lowered).Some? && PinClashAt(mappings, BaseRow(mappings, lowered).value, c);
      assert InMap(bases, lowered).Some?;
      var j :| 0 <= j < |lowereds| && lowereds[j] == lowered;
    } else {
      forall j | 0 <= j < |lowereds|
        ensures !PinClashAt(mappings, bases[lowereds[j]], c)
      {
        assert InMap(bases, lowereds[j]) == BaseRow(mappings, lowereds[j]);
      }
    }
  }

  /** Reports exactly the conflicts the configuration has. */
  method DetectProviderRoutingConflicts(mappings: seq<Mapping>) returns (conflicts: seq<Conflict>)
    ensures forall c :: c in conflicts <==> IsConflict(mappings, c)
  {
    hide Diverge, Keys, QualifiedRows, BaseRow, PinClashAt;
    var qualified, norms, bases, lowereds := FileRows(mappings);
    var clashes := ReportClashes(qualified, norms);
    var pinClashes: seq<Conflict> := [];
    for i := 0 to |lowereds|
      invariant forall c :: c in pinClashes <==> exists j :: 0 <= j < i && PinClashAt(mappings, bases[lowereds[j]], c)
    {
      var more := ReportBase(mappings, bases[lowereds[i]], qualified);
      pinClashes := pinClashes + more;
    }
    conflicts := clashes + pinClashes;
    forall c
      ensures c in conflicts <==> IsConflict(mappings, c)
    {
      OnlyPinClashes(mappings, c);
      match c
      case Clash(norm, _) =>
        assert c in clashes <==> IsClash(qualified, norm, c);
      case PinClash(_, _, _, _, _) =>
        BasesCovered(mappings, bases, lowereds, c);
    }
  }

  // ----- what a clean check promises

  lemma TrimUnchanged(s: string, space: char -> bool)
    requires s != "" ==> !space(s[0]) && !space(s[|s| - 1])
    ensures Trim(s, space) == s
  {
  }

  /** Lowering the letters of a text moves neither its delimiters nor its white space. */
  lemma LoweredSlug(s: string, slug: string)
    requires IsSlug(slug) && Lower(s) == Lower(slug)
    ensures IsSlug(s)
  {
    hide Lower, Trim;
    assert |s| == |slug|;
    forall i | 0 <= i < |s|
      ensures SameDelimiters(s[i], slug[i])
    {
      assert Lower(s)[i] == Lower(slug)[i];
    }
    TrimUnchanged(s, PySpace);
  }

  predicate SameDelimiters(c: char, d: char)
  {
    (c == ',' <==> d == ',') && (c == '+' <==> d == '+') && (PySpace(c) <==> PySpace(d))
  }

  lemma LowerSlice(s: string, i: nat, j: nat)
    requires i <= j <= |s|
    ensures Lower(s[i..j]) == Lower(s)[i..j]
  {
  }

  lemma WholeParts(base: string, slug: string)
    ensures var whole := BuildQualifiedKey(base, slug);
      whole[|base|] == '+' && whole[..|base|] == base && whole[|base| + 1..] == slug
  {
  }

  lemma LoweredParts(key: string, base: string, slug: string) returns (head: string, tail: string)
    requires Lower(key) == Lower(BuildQualifiedKey(base, slug))
    ensures key == BuildQualifiedKey(head, tail) && Lower(head) == Lower(base) && Lower(tail) == Lower(slug)
  {
    hide Lower;
    var n := |base|;
    var whole := BuildQualifiedKey(base, slug);
    WholeParts(base, slug);
    assert LowerChar(key[n]) == Lower(key)[n] == Lower(whole)[n] == LowerChar(whole[n]) == '+';
    head, tail := key[..n], key[n + 1..];
    LowerSlice(key, 0, n);
    LowerSlice(whole, 0, n);
    LowerSlice(key, n + 1, |key|);
    LowerSlice(whole, n + 1, |whole|);
  }

  /** A key equal to `base+slug` but for case is a qualified key filed under both. */
  lemma QualifiedKeyShape(key: string, target: string, base: string, slug: string)
    requires IsSlug(slug) && Lower(key) == Lower(BuildQualifiedKey(base, slug))
    ensures FiledUnder(Mapping(key, target), NormKey(base, slug))
  {
    var head, tail := LoweredParts(key, base, slug);
    LoweredSlug(tail, slug);
    assert Join([tail], ",") == tail;
    StripUndoesAppend(head, [tail]);
    hide Lower, StripClientProviderSuffix, IsSlug, Join;
  }

  lemma {:induction false} RowIsFiled(mappings: seq<Mapping>, i: nat, norm: string)
    requires i < |mappings| && FiledUnder(mappings[i], norm)
    ensures mappings[i] in QualifiedRows(mappings, norm)
  {
    var n := |mappings| - 1;
    if i < n {
      RowIsFiled(mappings[..n], i, norm);
    }
  }

  /** The check filed another row than the one that serves `base`: a later key is equal to it but for case. */
  predicate Hidden(mappings: seq<Mapping>, base: string)
  {
    var target := TargetOf(mappings, base);
    target.Some? && BaseRow(mappings, Lower(base)) != Some(Mapping(base, target.value))
  }

  /** A base row with no later key equal but for case is the one the check filed. */
  lemma {:induction false} FiledUnlessLater(mappings: seq<Mapping>, b: nat)
    requires b < |mappings| && IsBase(mappings[b])
    requires forall j | b < j < |mappings| && IsBase(mappings[j]) :: Lower(mappings[j].key) != Lower(mappings[b].key)
    ensures BaseRow(mappings, Lower(mappings[b].key)) == Some(mappings[b])
  {
    hide IsBase, Lower;
    var n := |mappings| - 1;
    if b < n {
      FiledUnlessLater(mappings[..n], b);
    }
  }

  /** The key that `base+slug` finds without regard to case can be used and leads to another gateway than `base`. */
  predicate Diverted(setup: Setup, base: string, slug: string)
  {
    var key := KeyIgnoringCase(setup.mappings, Lower(BuildQualifiedKey(base, slug)));
    && key.Some?
    && TargetOf(setup.mappings, key.value).Some? && TargetOf(setup.mappings, base).Some?
    && var t := ParseMapping(TargetOf(setup.mappings, key.value).value);
      && t.provider in setup.registered
      && MappedModelName(setup, base, key.value, t.model).Some?
      && Lower(t.provider) != Lower(ParseMapping(TargetOf(setup.mappings, base).value).provider)
  }

  lemma IsReported(mappings: seq<Mapping>, base: Mapping, pin: string, q: Mapping)
    requires BaseRow(mappings, Lower(base.key)) == Some(base) && PinDiverges(mappings, base, pin, q)
    ensures IsConflict(mappings, PinClashOf(base, pin, q))
  {
    assert PinClashAt(mappings, base, PinClashOf(base, pin, q));
  }

  /** A clean check: a row whose key is `base+slug` but for case leads to the gateway `base` is pinned to. */
  lemma QualifiedGateway(mappings: seq<Mapping>, b: nat, q: nat, slug: string)
    requires forall c :: !IsConflict(mappings, c)
    requires b < |mappings| && q < |mappings| && BaseRow(mappings, Lower(mappings[b].key)) == Some(mappings[b])
    requires Given(ParseMapping(mappings[b].target).pinned) && slug in ParseMapping(mappings[b].target).pinned.value
    requires Lower(mappings[q].key) == Lower(BuildQualifiedKey(mappings[b].key, slug))
    ensures Lower(Gateway(mappings[q])) == Lower(Gateway(mappings[b]))
  {
    hide Lower, Gateway, FiledUnder, QualifiedRows, BaseRow, ParseMapping, NormKey, BuildQualifiedKey, IsSlug;
    var base, row := mappings[b], mappings[q];
    ParsedShape(base.target);
    QualifiedKeyShape(row.key, row.target, base.key, slug);
    RowIsFiled(mappings, q, NormKey(base.key, slug));
    if Lower(Gateway(row)) != Lower(Gateway(base)) {
      IsReported(mappings, base, slug, row);
    }
  }

  lemma PinIsStripped(base: string, slug: string)
    requires IsSlug(slug)
    ensures StripClientProviderSuffix(BuildQualifiedKey(base, slug)) == ClientModel(base, Some([slug]))
  {
    hide StripClientProviderSuffix;
    assert Join([slug], ",") == slug;
    StripUndoesAppend(base, [slug]);
  }

  lemma RequestForPin(setup: Setup, listing: Listing, base: string, slug: string)
    requires IsSlug(slug) && ExactRoute(setup, base, Some([slug])).Some?
    ensures Resolve(setup, listing, BuildQualifiedKey(base, slug), None) ==
      if QualifiedRoute(setup, base, slug).Some? then QualifiedRoute(setup, base, slug)
      else ExactRoute(setup, base, Some([slug]))
  {
    hide QualifiedRoute, ExactRoute, EntryRoute, WildcardRoute, Advertised, StripClientProviderSuffix,
      BuildQualifiedKey, IsSlug;
    PinIsStripped(base, slug);
    assert [slug][1..] == [];
    assert FirstQualified(setup, base, [slug]) == QualifiedRoute(setup, base, slug);
  }

  /** A base model that resolves by its own row, which pins `slug`. */
  predicate PinsByOwnRow(setup: Setup, base: string, slug: string)
  {
    && Unpinned(base) && ExactRoute(setup, base, None).Some?
    && TargetOf(setup.mappings, base).Some?
    && var pinned := ParseMapping(TargetOf(setup.mappings, base).value).pinned;
      Given(pinned) && slug in pinned.value
  }

  ghost predicate SameGateway(setup: Setup, listing: Listing, base: string, slug: string)
  {
    var plain := Resolve(setup, listing, base, None);
    var pinned := Resolve(setup, listing, BuildQualifiedKey(base, slug), None);
    plain.Some? && pinned.Some? && Lower(pinned.value.provider) == Lower(plain.value.provider)
  }

  /** Whatever the check says, the two requests part exactly when the key of the second leads elsewhere. */
  lemma PartsIffDiverted(setup: Setup, listing: Listing, base: string, slug: string)
    requires PinsByOwnRow(setup, base, slug)
    ensures SameGateway(setup, listing, base, slug) <==> !Diverted(setup, base, slug)
  {
    hide Lower, BuildQualifiedKey, ParseMapping, KeyIgnoringCase, TargetOf, MappedModelName, FormatRouteLabel, Resolve,
      StripClientProviderSuffix, IsSlug;
    ParsedShape(TargetOf(setup.mappings, base).value);
    UnpinnedIsUnqualified(setup, listing, base);
    RequestForPin(setup, listing, base, slug);
    KeyFound(setup.mappings, Lower(BuildQualifiedKey(base, slug)));
  }

  /** A clean check rules this out for every row it filed. */
  lemma CleanMeansUndiverted(setup: Setup, base: string, slug: string)
    requires forall c :: !IsConflict(setup.mappings, c)
    requires PinsByOwnRow(setup, base, slug) && !Hidden(setup.mappings, base)
    ensures !Diverted(setup, base, slug)
  {
    hide Lower, BuildQualifiedKey, ParseMapping, KeyIgnoringCase, IsConflict, TargetOf, MappedModelName, IsSlug,
      ExactRoute, Unpinned, BaseRow;
    var mappings := setup.mappings;
    var b := RowOfTarget(mappings, base);
    var wanted := Lower(BuildQualifiedKey(base, slug));
    var key := KeyIgnoringCase(mappings, wanted);
    KeyFound(mappings, wanted);
    if key.Some? {
      var q := RowOfTarget(mappings, key.value);
      QualifiedGateway(mappings, b, q, slug);
    }
  }

  /** With a clean check, a base model that resolves by its own row and a request that spells out one of the row's pins
      reach the same gateway, whatever rows, listings and patterns there are besides, unless a later key equal but for
      case hides the row from the check and a usable key leads the second request elsewhere. */
  lemma CleanCheckAgreesIff(setup: Setup, listing: Listing, base: string, slug: string)
    requires forall c :: !IsConflict(setup.mappings, c)
    requires PinsByOwnRow(setup, base, slug)
    ensures SameGateway(setup, listing, base, slug)
      <==> !(Hidden(setup.mappings, base) && Diverted(setup, base, slug))
  {
    hide SameGateway, Hidden, Diverted, PinsByOwnRow, IsConflict;
    PartsIffDiverted(setup, listing, base, slug);
    if !Hidden(setup.mappings, base) {
      CleanMeansUndiverted(setup, base, slug);
    }
  }

  // ----- a hidden row

  lemma ParsePinned(provider: string, model: string, slug: string, mapping: string)
    requires ':' !in provider && IsSlug(slug) && mapping == provider + ([':'] + (model + (['+'] + slug)))
    ensures ParseMapping(mapping) == Target(provider, model, Some([slug]))
  {
    CutAtColon(provider, model + (['+'] + slug));
    CutAtLastPlus(model, slug);
    assert Join([slug], ",") == slug;
    SlugsOfJoin([slug]);
  }

  function Colliding(): seq<Mapping>
  {
    [Mapping("M", "g:x+p"), Mapping("m", "h:y"), Mapping("m+p", "k:z")]
  }

  lemma PIsSlug()
    ensures IsSlug("p")
  {
    TrimUnchanged("p", PySpace);
  }

  lemma CollidingTargets()
    ensures ParseMapping("g:x+p") == Target("g", "x", Some(["p"]))
    ensures ParseMapping("h:y") == Target("h", "y", None)
    ensures ParseMapping("k:z") == Target("k", "z", None)
  {
    hide ParseMapping, IsSlug;
    PIsSlug();
    ParsePinned("g", "x", "p", "g:x+p");
    ParseText("h", "y", "h:y");
    ParseText("k", "z", "k:z");
  }

  lemma CollidingKeys()
    ensures StripClientProviderSuffix("M") == ClientModel("M", None)
      && StripClientProviderSuffix("m") == ClientModel("m", None)
    ensures StripClientProviderSuffix("m+p") == ClientModel("m", Some(["p"]))
    ensures BuildQualifiedKey("M", "p") == "M+p"
    ensures Lower("M") == "m" && Lower("m") == "m" && Lower("m+p") == "m+p" && Lower("M+p") == "m+p"
      && Lower("p") == "p"
  {
    hide IsSlug;
    PIsSlug();
    assert BuildQualifiedKey("m", "p") == "m+p";
    PinIsStripped("m", "p");
  }

  lemma CollidingPrefixes()
    ensures Colliding()[..2] == [Mapping("M", "g:x+p"), Mapping("m", "h:y")]
    ensures Colliding()[..2][..1] == [Mapping("M", "g:x+p")]
    ensures Colliding()[..2][..1][..0] == []
  {
  }

  lemma CollidingRows(norm: string, lowered: string)
    ensures QualifiedRows(Colliding(), norm) == if norm == "m+p" then [Mapping("m+p", "k:z")] else []
    ensures BaseRow(Colliding(), lowered) == if lowered == "m" then Some(Mapping("m", "h:y")) else None
  {
    hide StripClientProviderSuffix, Lower;
    CollidingKeys();
    CollidingPrefixes();
    var rows := Colliding();
    assert !FiledUnder(rows[0], norm) && !FiledUnder(rows[1], norm);
    assert FiledUnder(rows[2], norm) <==> norm == "m+p" by {
      assert NormKey("m", "p") == "m+p";
    }
    assert QualifiedRows([], norm) == [];
    assert QualifiedRows(rows[..2][..1], norm) == [];
    assert QualifiedRows(rows[..2], norm) == [];
    assert BaseRow([], lowered) == None;
    assert BaseRow(rows[..2][..1], lowered) == if lowered == "m" then Some(rows[0]) else None;
    assert BaseRow(rows[..2], lowered) == if lowered == "m" then Some(rows[1]) else None;
  }

  lemma CollidingClean(c: Conflict)
    ensures !IsConflict(Colliding(), c)
  {
    hide QualifiedRows, BaseRow, ParseMapping, Lower, NormKey, Colliding;
    CollidingTargets();
    match c
    case Clash(norm, _) => CollidingRows(norm, "");
    case PinClash(_, _, _, _, _) =>
      forall lowered | BaseRow(Colliding(), lowered).Some?
        ensures !PinClashAt(Colliding(), BaseRow(Colliding(), lowered).value, c)
      {
        CollidingRows("", lowered);
      }
  }

  lemma CollidingGateways()
    ensures Lower("k") != Lower("g")
  {
    assert Lower("k")[0] == 'k' && Lower("g")[0] == 'g';
  }

  lemma CollidingLookups()
    ensures TargetOf(Colliding(), "M") == Some("g:x+p") && TargetOf(Colliding(), "m+p") == Some("k:z")
    ensures KeyIgnoringCase(Colliding(), "m+p") == Some("m+p")
  {
    hide Lower;
    CollidingKeys();
    CollidingPrefixes();
  }

  /** Two base keys that differ in case only hide a conflict from the check: `M` is pinned to `p` on gateway `g`, and
      the request `M+p` goes to `k`. */
  lemma CollidingBasesEscape(listing: Listing, matches: (string, string) -> bool)
    ensures var setup := Setup(Colliding(), {"g", "h", "k"}, matches);
      && (forall c :: !IsConflict(Colliding(), c))
      && Hidden(Colliding(), "M") && Diverted(setup, "M", "p")
      && Resolve(setup, listing, "M", None) == Some(RouteTo("g", "x", Some(["p"])))
      && Resolve(setup, listing, "M+p", None) == Some(RouteTo("k", "z", None).(providerAware := true))
  {
    hide IsConflict, ParseMapping, TargetOf, KeyIgnoringCase, Lower, BuildQualifiedKey, StripClientProviderSuffix,
      Advertised, EntryRoute, WildcardRoute, FormatRouteLabel, Colliding, IsSlug, Resolve;
    var setup := Setup(Colliding(), {"g", "h", "k"}, matches);
    forall c
      ensures !IsConflict(Colliding(), c)
    {
      CollidingClean(c);
    }
    CollidingTargets();
    CollidingKeys();
    CollidingLookups();
    CollidingRows("m+p", "m");
    CollidingGateways();
    PIsSlug();
    UnpinnedIsUnqualified(setup, listing, "M");
    assert "x"[0] != '*';
    assert "z"[0] != '*';
    assert !HasGlob("x") && !HasGlob("z");
    RequestForPin(setup, listing, "M", "p");
  }
}
