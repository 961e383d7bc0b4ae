/** JSON values as Python's json module yields them, and ordered dictionaries. */
module Json {

  datatype Option<+T> = None | Some(value: T)

  /** `m.get(key)`. */
  function InMap<K, V>(m: map<K, V>, key: K): Option<V>
  {
    if key in m then Some(m[key]) else None
  }

  /** The text of a number: what Python prints for an int or a float, NaN and infinities included. */
  type Lexeme = s: string | IsLexeme(s) witness "0"

  predicate IsLexeme(s: string)
  {
    s != [] && s[0] in "-0123456789NI" && forall c | c in s :: IsNumberChar(c)
  }

  predicate IsNumberChar(c: char)
  {
    c in "-+.0123456789eENaInfity"
  }

  datatype Field = Field(key: string, value: Value)

  /** A Python dict: its items in insertion order. */
  type Dict = seq<Field>

  datatype Value =
    | Null
    | Bool(b: bool)
    | Num(lexeme: Lexeme)
    | Str(s: string)
    | Arr(items: seq<Value>)
    | Obj(fields: Dict)

  predicate Has(d: Dict, k: string)
  {
    exists i | 0 <= i < |d| :: d[i].key == k
  }

  /** `d.get(k)`; a stored `None` is `Some(Null)`. */
  function Get(d: Dict, k: string): (r: Option<Value>)
    ensures r.Some? <==> Has(d, k)
  {
    if d == [] then None
    else if d[0].key == k then assert Has(d, k); Some(d[0].value)
    else
      var r := Get(d[1..], k);
      assert r.Some? ==> Has(d, k) by {
        if r.Some? {
          var i :| 0 <= i < |d[1..]| && d[1..][i].key == k;
          assert d[i + 1].key == k;
        }
      }
      assert Has(d, k) ==> Has(d[1..], k) by {
        if Has(d, k) {
          var i :| 0 <= i < |d| && d[i].key == k;
          assert d[1..][i - 1].key == k;
        }
      }
      r
  }

  /** `d[k] = v`: in place for a present key, at the end for a new one. */
  function Set(d: Dict, k: string, v: Value): Dict
  {
    if d == [] then [Field(k, v)]
    else if d[0].key == k then [Field(k, v)] + d[1..]
    else [d[0]] + Set(d[1..], k, v)
  }

  ghost predicate DistinctKeys(d: Dict)
  {
    forall i, j | 0 <= i < j < |d| :: d[i].key != d[j].key
  }

  /** Where a key is found first. */
  lemma {:induction false} GetWhere(d: Dict, k: string) returns (i: nat)
    requires Has(d, k)
    ensures i < |d| && d[i].key == k && Get(d, k) == Some(d[i].value) && forall j | 0 <= j < i :: d[j].key != k
  {
    assert Get(d, k).Some?;
    if d[0].key == k {
      i := 0;
    } else {
      i := GetWhere(d[1..], k);
      i := i + 1;
    }
  }

  lemma {:induction false} GetSet(d: Dict, k: string, v: Value, q: string)
    ensures Get(Set(d, k, v), q) == if q == k then Some(v) else Get(d, q)
  {
    if d != [] && d[0].key != k {
      GetSet(d[1..], k, v, q);
      assert Set(d, k, v)[1..] == Set(d[1..], k, v);
    }
  }

  /** A second write to a key hides the first. */
  lemma {:induction false} SetSet(d: Dict, k: string, v: Value, w: Value)
    ensures Set(Set(d, k, v), k, w) == Set(d, k, w)
  {
    if d != [] && d[0].key != k {
      SetSet(d[1..], k, v, w);
      assert Set(d, k, v)[1..] == Set(d[1..], k, v);
    }
  }

  /** A write to a present key commutes with any write to another key. */
  lemma {:induction false} SetCommutes(d: Dict, k: string, v: Value, q: string, w: Value)
    requires k != q && Has(d, k)
    ensures Set(Set(d, q, w), k, v) == Set(Set(d, k, v), q, w)
  {
    assert Get(d, k).Some?;
    if d[0].key == k {
      assert Set(d, k, v)[1..] == d[1..];
      assert Set(d, q, w)[1..] == Set(d[1..], q, w);
    } else if d[0].key == q {
      assert Set(d, q, w)[1..] == d[1..];
      assert Set(d, k, v)[1..] == Set(d[1..], k, v);
    } else {
      assert Get(d[1..], k).Some?;
      SetCommutes(d[1..], k, v, q, w);
      assert Set(d, q, w)[1..] == Set(d[1..], q, w);
      assert Set(d, k, v)[1..] == Set(d[1..], k, v);
    }
  }
}
