/** The `provider:model+pin1,pin2` syntax of routing targets and of the models clients ask for. */
module ModelMappings {
  import opened Json
  import opened Texts

  /** Python's `str.strip` removes these. */
  predicate PySpace(c: char)
  {
    || '\t' <= c <= '\r' || '\U{001c}' <= c <= ' ' || c == '\U{0085}' || c == '\U{00a0}' || c == '\U{1680}'
    || '\U{2000}' <= c <= '\U{200a}' || c == '\U{2028}' || c == '\U{2029}' || c == '\U{202f}'
    || c == '\U{205f}' || c == '\U{3000}'
  }

  /** A list of provider slugs, or `None`. */
  type Pins = Option<seq<string>>

  /** Python's truth value of a list or `None`. */
  predicate Given(pins: Pins)
  {
    pins.Some? && pins.value != []
  }

  predicate HasGlob(s: string)
  {
    '*' in s || '?' in s || '[' in s || ']' in s
  }

  /** The stripped non-empty parts. */
  function NonBlank(parts: seq<string>): seq<string>
  {
    if parts == [] then []
    else
      var slug := Trim(parts[0], PySpace);
      (if slug == "" then [] else [slug]) + NonBlank(parts[1..])
  }

  function Slugs(pinPart: string): seq<string>
  {
    NonBlank(Split(pinPart, ','))
  }

  datatype Target = Target(provider: string, model: string, pinned: Pins)

  /** The text before and after the last `+`. */
  function BeforePlus(s: string): string
    requires '+' in s
  {
    s[..LastIndexOf(s, '+')]
  }

  function AfterPlus(s: string): string
    requires '+' in s
  {
    s[LastIndexOf(s, '+') + 1..]
  }

  function ProviderText(mapping: string): string
  {
    mapping[..IndexOf(mapping, ':')]
  }

  /** What follows the first colon; a mapping without one names the provider and the model at once. */
  function ModelText(mapping: string): string
  {
    var colon := IndexOf(mapping, ':');
    if colon == |mapping| then mapping else mapping[colon + 1..]
  }

  function ParseMapping(mapping: string): Target
  {
    var model := ModelText(mapping);
    if '+' in model then
      var slugs := Slugs(AfterPlus(model));
      Target(ProviderText(mapping), BeforePlus(model), if slugs == [] then None else Some(slugs))
    else Target(ProviderText(mapping), model, None)
  }

  datatype ClientModel = ClientModel(base: string, pinned: Pins)

  function StripClientProviderSuffix(model: string): ClientModel
  {
    if '+' !in model then ClientModel(model, None)
    else
      var slugs := Slugs(AfterPlus(model));
      if slugs == [] then ClientModel(model, None) else ClientModel(BeforePlus(model), Some(slugs))
  }

  function MergePinned(config: Pins, client: Pins): Pins
  {
    if Given(config) then config else client
  }

  function FormatRouteLabel(provider: string, model: string, pinned: Pins): string
  {
    provider + ([':'] + if Given(pinned) then model + (['+'] + Join(pinned.value, ",")) else model)
  }

  function BuildQualifiedKey(model: string, slug: string): string
  {
    model + (['+'] + slug)
  }

  /** The non-empty strings of a list. */
  function NamedSlugs(values: seq<Value>): seq<string>
  {
    if values == [] then []
    else (if values[0].Str? && values[0].s != "" then [values[0].s] else []) + NamedSlugs(values[1..])
  }

  function ListedSlugs(provider: Dict, name: string): seq<string>
  {
    var v := Get(provider, name);
    if v.Some? && v.value.Arr? then NamedSlugs(v.value.items) else []
  }

  /** `provider.only`, or else `provider.order`. */
  function ExtractBodyProviderSlugs(body: Dict): Pins
  {
    var provider := Get(body, "provider");
    if provider.None? || !provider.value.Obj? then None
    else if ListedSlugs(provider.value.fields, "only") != [] then Some(ListedSlugs(provider.value.fields, "only"))
    else if ListedSlugs(provider.value.fields, "order") != [] then Some(ListedSlugs(provider.value.fields, "order"))
    else None
  }

  // ----- slugs

  /** A slug that survives being joined and parsed. */
  predicate IsSlug(s: string)
  {
    s != "" && Trim(s, PySpace) == s && ',' !in s && '+' !in s
  }

  predicate AreSlugs(slugs: seq<string>)
  {
    slugs != [] && forall s | s in slugs :: IsSlug(s)
  }

  lemma {:induction false} NonBlankOfSlugs(parts: seq<string>)
    requires forall p | p in parts :: IsSlug(p)
    ensures NonBlank(parts) == parts
  {
    if parts != [] {
      NonBlankOfSlugs(parts[1..]);
      assert IsSlug(parts[0]);
      assert parts == [parts[0]] + parts[1..];
    }
  }

  lemma {:induction false} NonBlankAreSlugs(parts: seq<string>)
    requires forall p | p in parts :: ',' !in p && '+' !in p
    ensures forall s | s in NonBlank(parts) :: IsSlug(s)
  {
    if parts != [] {
      NonBlankAreSlugs(parts[1..]);
      TrimIdempotent(parts[0], PySpace);
    }
  }

  lemma {:induction false} SplitContents(s: string, c: char, d: char)
    requires d !in s
    ensures forall p | p in Split(s, c) :: d !in p
    decreases |s|
  {
    var n := IndexOf(s, c);
    if n < |s| {
      SplitContents(s[n + 1..], c, d);
    }
  }

  /** What comes out of the parser is made of slugs. */
  lemma SlugsAreSlugs(pinPart: string)
    requires '+' !in pinPart
    ensures forall s | s in Slugs(pinPart) :: IsSlug(s)
  {
    SplitContents(pinPart, ',', '+');
    NonBlankAreSlugs(Split(pinPart, ','));
  }

  lemma SlugsOfJoin(slugs: seq<string>)
    requires AreSlugs(slugs)
    ensures Slugs(Join(slugs, ",")) == slugs
  {
    SplitJoin(slugs, ',');
    NonBlankOfSlugs(slugs);
  }

  lemma CutAtLastPlus(base: string, pinPart: string)
    requires '+' !in pinPart
    ensures var s := base + (['+'] + pinPart); '+' in s && BeforePlus(s) == base && AfterPlus(s) == pinPart
  {
    var s := base + (['+'] + pinPart);
    assert s[|base|] == '+';
    var n := LastIndexOf(s, '+');
    assert forall i | n < i < |s| :: s[i] == s[n + 1..][i - n - 1];
    assert forall i | |base| < i < |s| :: s[i] == pinPart[i - |base| - 1];
    assert n == |base|;
  }

  lemma RejoinAtLastPlus(s: string)
    requires '+' in s
    ensures s == BeforePlus(s) + (['+'] + AfterPlus(s)) && '+' !in AfterPlus(s)
  {
  }

  lemma CutAtColon(provider: string, model: string)
    requires ':' !in provider
    ensures ProviderText(provider + ([':'] + model)) == provider && ModelText(provider + ([':'] + model)) == model
  {
    var s := provider + ([':'] + model);
    assert s[|provider|] == ':';
    assert forall i | 0 <= i < |provider| :: s[i] == provider[i];
    IndexOfIsFirst(s, ':', |provider|);
  }

  // ----- the parser and the printer of targets

  /** The targets that have a text of their own. */
  predicate WellFormed(t: Target)
  {
    ':' !in t.provider && (t.pinned.None? ==> '+' !in t.model) && (t.pinned.Some? ==> AreSlugs(t.pinned.value))
  }

  function Format(t: Target): string
  {
    FormatRouteLabel(t.provider, t.model, t.pinned)
  }

  lemma ParseUndoesFormat(t: Target)
    requires WellFormed(t)
    ensures ParseMapping(Format(t)) == t
  {
    if t.pinned.None? {
      CutAtColon(t.provider, t.model);
    } else {
      var pinPart := Join(t.pinned.value, ",");
      CutAtColon(t.provider, t.model + (['+'] + pinPart));
      JoinContents(t.pinned.value, ",", '+');
      CutAtLastPlus(t.model, pinPart);
      SlugsOfJoin(t.pinned.value);
    }
  }

  /** Every parsed target is well formed, but for a `+` that can stay in an unpinned model. */
  lemma ParsedShape(mapping: string)
    ensures var t := ParseMapping(mapping);
      ':' !in t.provider && (t.pinned.Some? ==> AreSlugs(t.pinned.value))
  {
    NotBefore(mapping, ':');
    var model := ModelText(mapping);
    if '+' in model {
      SlugsAreSlugs(AfterPlus(model));
    }
  }

  lemma UnpinnedPlusIsLost(t: Target)
    requires ':' !in t.provider && t.pinned.None? && '+' in t.model
    ensures ParseMapping(Format(t)) != t
  {
    CutAtColon(t.provider, t.model);
  }

  /** The parser inverts the printer on a target exactly when the target is well formed. */
  lemma ParseInvertsFormatIff(t: Target)
    ensures ParseMapping(Format(t)) == t <==> WellFormed(t)
  {
    if WellFormed(t) {
      ParseUndoesFormat(t);
    } else {
      ParsedShape(Format(t));
      if ':' !in t.provider && t.pinned.None? {
        UnpinnedPlusIsLost(t);
      }
    }
  }

  /** The model part has a `+` with no slug behind it, and another `+` before. */
  predicate LeavesPlus(mapping: string)
  {
    var model := ModelText(mapping);
    '+' in model && Slugs(AfterPlus(model)) == [] && '+' in BeforePlus(model)
  }

  /** Printing a parsed mapping and parsing it again gives the same target exactly when no `+` is left in an unpinned
      model. */
  lemma NormalFormIff(mapping: string)
    ensures ParseMapping(Format(ParseMapping(mapping))) == ParseMapping(mapping) <==> !LeavesPlus(mapping)
  {
    var t := ParseMapping(mapping);
    ParseInvertsFormatIff(t);
    ParsedShape(mapping);
  }

  lemma LeavesPlusExample()
    ensures LeavesPlus("p:a+b+")
  {
    CutAtColon("p", "a+b+");
    assert "p:a+b+" == "p" + ([':'] + "a+b+");
    CutAtLastPlus("a+b", "");
    assert "a+b+" == "a+b" + (['+'] + "");
    assert "a+b"[1] == '+';
    assert Split("", ',') == [""];
    assert Trim("", PySpace) == "";
  }

  // ----- the client's suffix

  /** A model with a list of slugs appended is taken apart again, whatever the model is. */
  lemma StripUndoesAppend(base: string, slugs: seq<string>)
    requires AreSlugs(slugs)
    ensures StripClientProviderSuffix(base + (['+'] + Join(slugs, ","))) == ClientModel(base, Some(slugs))
  {
    JoinContents(slugs, ",", '+');
    CutAtLastPlus(base, Join(slugs, ","));
    SlugsOfJoin(slugs);
  }

  ghost predicate Suffixed(model: string, base: string, pinPart: string, slugs: seq<string>)
  {
    '+' !in pinPart && model == BuildQualifiedKey(base, pinPart) && Slugs(pinPart) == slugs
  }

  /** Nothing is lost by stripping: the text is the base alone, or the base, a `+` and a list that holds the slugs. */
  lemma StripIsSplit(model: string)
    ensures var c := StripClientProviderSuffix(model);
      && (c.pinned.None? ==> c.base == model)
      && (c.pinned.Some? ==>
            AreSlugs(c.pinned.value) && exists pinPart :: Suffixed(model, c.base, pinPart, c.pinned.value))
  {
    var c := StripClientProviderSuffix(model);
    if c.pinned.Some? {
      RejoinAtLastPlus(model);
      SlugsAreSlugs(AfterPlus(model));
      assert Suffixed(model, c.base, AfterPlus(model), c.pinned.value);
    }
  }

  /** A mapping without colon and plus names the provider and the model at once. */
  lemma BareMapping(mapping: string)
    requires ':' !in mapping && '+' !in mapping
    ensures ParseMapping(mapping) == Target(mapping, mapping, None)
  {
    assert IndexOf(mapping, ':') == |mapping|;
  }

  // ----- the body's hints

  lemma {:induction false} NamedSnoc(values: seq<Value>, v: Value)
    ensures NamedSlugs(values + [v]) == NamedSlugs(values) + if v.Str? && v.s != "" then [v.s] else []
    decreases |values|
  {
    hide NamedSlugs;
    if values == [] {
      assert values + [v] == [v] + [];
      NamedCons(v, []);
      NothingNamed();
    } else {
      var head, tail := values[0], values[1..];
      assert values + [v] == [head] + (tail + [v]) && values == [head] + tail;
      NamedSnoc(tail, v);
      NamedCons(head, tail);
      NamedCons(head, tail + [v]);
    }
  }

  lemma NamedCons(head: Value, tail: seq<Value>)
    ensures NamedSlugs([head] + tail) == (if head.Str? && head.s != "" then [head.s] else []) + NamedSlugs(tail)
  {
    assert ([head] + tail)[1..] == tail;
  }

  lemma NothingNamed()
    ensures NamedSlugs([]) == []
  {
  }

  /** `slugs` are what the list under the name holds, and not nothing. */
  ghost predicate Listed(body: Dict, name: string, slugs: seq<string>)
  {
    slugs != [] &&
    match Get(body, "provider")
    case Some(Obj(fields)) =>
      (match Get(fields, name)
       case Some(Arr(items)) => slugs == NamedSlugs(items)
       case _ => false)
    case _ => false
  }

  /** `only` comes before `order`; without names in either there are no hints. */
  lemma HintsTell(body: Dict)
    ensures forall slugs | Listed(body, "only", slugs) :: ExtractBodyProviderSlugs(body) == Some(slugs)
    ensures forall slugs | Listed(body, "order", slugs) && !(exists only :: Listed(body, "only", only)) ::
      ExtractBodyProviderSlugs(body) == Some(slugs)
    ensures var hints := ExtractBodyProviderSlugs(body);
      hints.Some? ==> Listed(body, "only", hints.value) || Listed(body, "order", hints.value)
  {
    var provider := Get(body, "provider");
    if provider.Some? && provider.value.Obj? && ListedSlugs(provider.value.fields, "only") != [] {
      assert Listed(body, "only", ListedSlugs(provider.value.fields, "only"));
    }
  }
}
