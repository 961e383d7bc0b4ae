/** The conflicts of a configuration, row by row. */
module ConflictRows {
  import opened Json
  import opened ModelCatalog
  import opened ModelMappings
  import opened RoutingConflicts
  import opened Texts

  /** The key has a suffix of slugs, and is `norm` with the first of them, but for case. */
  predicate Files(m: Mapping, norm: string)
  {
    var c := StripClientProviderSuffix(m.key);
    c.pinned.Some? && c.pinned.value != [] && Lower(c.base) + "+" + Lower(c.pinned.value[0]) == norm
  }

  lemma FilesIs(m: Mapping, norm: string)
    ensures Files(m, norm) <==> FiledUnder(m, norm)
  {
    hide StripClientProviderSuffix, Lower;
    var c := StripClientProviderSuffix(m.key);
    if c.pinned.Some? && c.pinned.value != [] {
      var base, slug := Lower(c.base), Lower(c.pinned.value[0]);
      assert BuildQualifiedKey(base, slug) == base + "+" + slug;
    }
  }

  lemma {:induction false} FiledRows(mappings: seq<Mapping>, norm: string, q: Mapping)
    ensures q in QualifiedRows(mappings, norm) <==> q in mappings && Files(q, norm)
  {
    hide Files, FiledUnder;
    if mappings != [] {
      var n := |mappings| - 1;
      FiledRows(mappings[..n], norm, q);
      FilesIs(mappings[n], norm);
      FilesIs(q, norm);
      assert mappings == mappings[..n] + [mappings[n]];
    }
  }

  /** Two rows filed under `norm` lead to different providers. */
  ghost predicate RowsPart(mappings: seq<Mapping>, norm: string, a: Mapping, b: Mapping)
  {
    && a in mappings && b in mappings && Files(a, norm) && Files(b, norm)
    && ParseMapping(a.target).provider != ParseMapping(b.target).provider
  }

  /** A clash is reported for a base and slug exactly when two of its rows lead to different providers. */
  lemma ClashTells(mappings: seq<Mapping>, norm: string, keys: seq<string>)
    ensures IsConflict(mappings, Clash(norm, keys)) <==>
      && (exists a, b :: RowsPart(mappings, norm, a, b)) && keys == Keys(QualifiedRows(mappings, norm))
  {
    hide Files, ParseMapping, Keys, QualifiedRows;
    var rows := QualifiedRows(mappings, norm);
    if Diverge(rows) {
      var i, j :| 0 <= i < j < |rows| && Gateway(rows[i]) != Gateway(rows[j]);
      FiledRows(mappings, norm, rows[i]);
      FiledRows(mappings, norm, rows[j]);
      assert RowsPart(mappings, norm, rows[i], rows[j]);
    }
    if a, b :| RowsPart(mappings, norm, a, b) {
      FiledRows(mappings, norm, a);
      FiledRows(mappings, norm, b);
      var i :| 0 <= i < |rows| && rows[i] == a;
      var j :| 0 <= j < |rows| && rows[j] == b;
      assert i < j || j < i;
    }
  }

  /** The report names the keys of all its rows, and no others. */
  lemma ClashNames(mappings: seq<Mapping>, norm: string, key: string)
    ensures key in Keys(QualifiedRows(mappings, norm)) <==>
      exists m :: m in mappings && Files(m, norm) && m.key == key
  {
    hide Files, QualifiedRows;
    var rows := QualifiedRows(mappings, norm);
    if key in Keys(rows) {
      var i :| 0 <= i < |rows| && Keys(rows)[i] == key;
      FiledRows(mappings, norm, rows[i]);
    }
    if m :| m in mappings && Files(m, norm) && m.key == key {
      FiledRows(mappings, norm, m);
      var i :| 0 <= i < |rows| && rows[i] == m;
      assert Keys(rows)[i] == key;
    }
  }

  /** Row `i` has a key without slugs, and none of the later ones equals it but for case. */
  ghost predicate LastBase(mappings: seq<Mapping>, i: nat)
  {
    && i < |mappings| && Plain(mappings[i].key)
    && forall j | i < j < |mappings| && Plain(mappings[j].key) :: Lower(mappings[j].key) != Lower(mappings[i].key)
  }

  predicate Plain(key: string)
  {
    StripClientProviderSuffix(key).pinned.None? || StripClientProviderSuffix(key).pinned == Some([])
  }

  lemma PlainIsBase(m: Mapping)
    ensures Plain(m.key) <==> IsBase(m)
  {
    hide StripClientProviderSuffix;
  }

  lemma {:induction false} BaseTells(mappings: seq<Mapping>, lowered: string) returns (i: nat)
    requires BaseRow(mappings, lowered).Some?
    ensures LastBase(mappings, i) && BaseRow(mappings, lowered) == Some(mappings[i])
    ensures Lower(mappings[i].key) == lowered
  {
    hide Plain, IsBase, Lower;
    var n := |mappings| - 1;
    PlainIsBase(mappings[n]);
    if IsBase(mappings[n]) && Lower(mappings[n].key) == lowered {
      i := n;
    } else {
      i := BaseTells(mappings[..n], lowered);
      assert forall j | 0 <= j < n :: mappings[j] == mappings[..n][j];
    }
  }

  /** Row `i` pins to `pin`, and row `q`, filed under both, leads to another provider. */
  ghost predicate PinsApart(mappings: seq<Mapping>, i: nat, pin: string, q: Mapping)
  {
    && LastBase(mappings, i) && q in mappings && Files(q, Lower(mappings[i].key) + "+" + Lower(pin))
    && var t := ParseMapping(mappings[i].target);
      t.pinned.Some? && pin in t.pinned.value && Lower(ParseMapping(q.target).provider) != Lower(t.provider)
  }

  /** A pin is reported exactly for a base row that no later one hides and a row filed under base and pin that lead to
      different providers, ignoring case. */
  lemma PinClashTells(mappings: seq<Mapping>, c: Conflict)
    requires c.PinClash?
    ensures IsConflict(mappings, c) <==>
      exists i: nat, q :: PinsApart(mappings, i, c.pin, q) && Named(mappings, c, i, q)
  {
    hide Files, ParseMapping, Plain, StripClientProviderSuffix, Lower, BaseRow, QualifiedRows, IsBase;
    if lowered :| BaseRow(mappings, lowered).Some? && PinClashAt(mappings, BaseRow(mappings, lowered).value, c) {
      var i := BaseTells(mappings, lowered);
      var pin, q :| PinDiverges(mappings, mappings[i], pin, q) && c == PinClashOf(mappings[i], pin, q);
      NormTells(mappings, mappings[i].key, pin, q);
      assert PinsApart(mappings, i, c.pin, q) && Named(mappings, c, i, q);
    }
    if i: nat, q :| PinsApart(mappings, i, c.pin, q) && Named(mappings, c, i, q) {
      forall j | i <= j < |mappings|
        ensures Plain(mappings[j].key) <==> IsBase(mappings[j])
      {
        PlainIsBase(mappings[j]);
      }
      FiledUnlessLater(mappings, i);
      NormTells(mappings, mappings[i].key, c.pin, q);
      assert PinDiverges(mappings, mappings[i], c.pin, q);
      assert PinClashAt(mappings, mappings[i], c);
    }
  }

  /** The report names the two rows. */
  ghost predicate Named(mappings: seq<Mapping>, c: Conflict, i: nat, q: Mapping)
    requires c.PinClash?
  {
    && i < |mappings| && c.baseKey == mappings[i].key && c.qualifiedKey == q.key
    && c.baseGateway == ParseMapping(mappings[i].target).provider
    && c.qualifiedGateway == ParseMapping(q.target).provider
  }

  lemma NormTells(mappings: seq<Mapping>, key: string, pin: string, q: Mapping)
    ensures q in QualifiedRows(mappings, NormKey(key, pin)) <==>
      q in mappings && Files(q, Lower(key) + "+" + Lower(pin))
  {
    hide Files, Lower, QualifiedRows;
    assert NormKey(key, pin) == Lower(key) + "+" + Lower(pin);
    FiledRows(mappings, NormKey(key, pin), q);
  }
}
