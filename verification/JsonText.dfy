/** The compact, key-sorted, ASCII JSON text that identifies a message, and why it can be read in only one way. */
module JsonText {
  import opened Sorting
  import opened Json

  // ----- key order

  predicate KeyLeq(a: Field, b: Field)
  {
    LexLeq(a.key, b.key)
  }

  /** `sort_keys=True`: every object's fields in key order, at every depth. */
  function SortKeys(v: Value): Value
    decreases v
  {
    match v
    case Arr(items) => Arr(SortItems(items))
    case Obj(fields) => Obj(SortBy(KeyLeq, SortValues(fields)))
    case _ => v
  }

  function SortItems(items: seq<Value>): (r: seq<Value>)
    ensures |r| == |items|
    ensures forall i | 0 <= i < |items| :: r[i] == SortKeys(items[i])
    decreases items
  {
    if items == [] then [] else [SortKeys(items[0])] + SortItems(items[1..])
  }

  function SortValues(fields: Dict): (r: Dict)
    ensures |r| == |fields|
    ensures forall i | 0 <= i < |fields| :: r[i] == Field(fields[i].key, SortKeys(fields[i].value))
    decreases fields
  {
    if fields == [] then []
    else
      assert fields[0].value < fields[0];
      [Field(fields[0].key, SortKeys(fields[0].value))] + SortValues(fields[1..])
  }

  // ----- text

  function HexDigit(n: nat): char
    requires n < 16
  {
    "0123456789abcdef"[n]
  }

  function Hex4(n: nat): (r: string)
    requires n < 0x1_0000
    ensures |r| == 4
  {
    [HexDigit(n / 4096), HexDigit(n / 256 % 16), HexDigit(n / 16 % 16), HexDigit(n % 16)]
  }

  function UnicodeEscape(n: nat): string
    requires n < 0x1_0000
  {
    "\\u" + Hex4(n)
  }

  /** `ensure_ascii=True`: printable ASCII stands for itself, anything else becomes an escape. */
  function EscapeChar(c: char): string
  {
    if c == '"' then "\\\""
    else if c == '\\' then "\\\\"
    else if c == '\n' then "\\n"
    else if c == '\r' then "\\r"
    else if c == '\t' then "\\t"
    else if c == '\U{000c}' then "\\f"
    else if c == '\U{0008}' then "\\b"
    else if ' ' <= c <= '~' then [c]
    else if c as int < 0x1_0000 then UnicodeEscape(c as int)
    else UnicodeEscape(0xd800 + (c as int - 0x1_0000) / 0x400) + UnicodeEscape(0xdc00 + (c as int - 0x1_0000) % 0x400)
  }

  function EscapeAll(s: string): string
  {
    if s == [] then "" else EscapeChar(s[0]) + EscapeAll(s[1..])
  }

  function QuoteText(s: string): string
  {
    "\"" + EscapeAll(s) + "\""
  }

  /** The text with separators `,` and `:` and no blanks. */
  function Text(v: Value): string
    decreases v
  {
    match v
    case Null => "null"
    case Bool(b) => if b then "true" else "false"
    case Num(n) => n
    case Str(s) => QuoteText(s)
    case Arr(items) => "[" + ItemsText(items) + "]"
    case Obj(fields) => "{" + FieldsText(fields) + "}"
  }

  function ItemsText(items: seq<Value>): string
    decreases items
  {
    if items == [] then ""
    else if |items| == 1 then Text(items[0])
    else Text(items[0]) + "," + ItemsText(items[1..])
  }

  function FieldsText(fields: Dict): string
    decreases fields
  {
    if fields == [] then ""
    else
      assert fields[0].value < fields[0];
      var first := QuoteText(fields[0].key) + ":" + Text(fields[0].value);
      if |fields| == 1 then first else first + "," + FieldsText(fields[1..])
  }

  /** `json.dumps(v, sort_keys=True, ensure_ascii=True, separators=(",", ":"))`. */
  function Dumps(v: Value): string
  {
    Text(SortKeys(v))
  }

  // ----- reading strings back

  function HexValue(c: char): nat
  {
    if '0' <= c <= '9' then c as int - '0' as int else if 'a' <= c <= 'f' then c as int - 'a' as int + 10 else 0
  }

  lemma HexDigitValue(n: nat)
    requires n < 16
    ensures HexValue(HexDigit(n)) == n
  {
  }

  lemma FourDigits(n: nat)
    requires n < 0x1_0000
    ensures n == 4096 * (n / 4096) + 256 * (n / 256 % 16) + 16 * (n / 16 % 16) + n % 16
  {
    assert n == 16 * (n / 16) + n % 16;
    assert n / 16 / 16 == n / 256 && n / 256 / 16 == n / 4096;
    assert n / 16 == 16 * (n / 256) + n / 16 % 16;
    assert n / 256 == 16 * (n / 4096) + n / 256 % 16;
  }

  lemma Hex4Value(n: nat)
    requires n < 0x1_0000
    ensures var h := Hex4(n);
      n == 4096 * HexValue(h[0]) + 256 * HexValue(h[1]) + 16 * HexValue(h[2]) + HexValue(h[3])
  {
    FourDigits(n);
    HexDigitValue(n / 4096);
    HexDigitValue(n / 256 % 16);
    HexDigitValue(n / 16 % 16);
    HexDigitValue(n % 16);
  }

  lemma Hex4Injective(m: nat, n: nat)
    requires m < 0x1_0000 && n < 0x1_0000 && Hex4(m) == Hex4(n)
    ensures m == n
  {
    Hex4Value(m);
    Hex4Value(n);
  }

  lemma UnicodeEscapeUnique(m: nat, n: nat, x: string, y: string)
    requires m < 0x1_0000 && n < 0x1_0000
    requires UnicodeEscape(m) + x == UnicodeEscape(n) + y
    ensures m == n && x == y
  {
    var l, r := UnicodeEscape(m) + x, UnicodeEscape(n) + y;
    assert l[2..6] == Hex4(m) && r[2..6] == Hex4(n);
    assert l[6..] == x && r[6..] == y;
    Hex4Injective(m, n);
  }

  predicate IsLong(c: char)
  {
    !(' ' <= c <= '~') && c !in ['\n', '\r', '\t', '\U{000c}', '\U{0008}']
  }

  /** The first code unit that `c` is escaped as. */
  function LeadUnit(c: char): nat
    requires IsLong(c)
  {
    if c as int < 0x1_0000 then c as int else 0xd800 + (c as int - 0x1_0000) / 0x400
  }

  /** What the escape of `c` still holds after its first unit. */
  function SecondUnit(c: char): string
    requires IsLong(c)
  {
    if c as int < 0x1_0000 then "" else UnicodeEscape(0xdc00 + (c as int - 0x1_0000) % 0x400)
  }

  lemma LongEscape(c: char)
    requires IsLong(c)
    ensures EscapeChar(c) == UnicodeEscape(LeadUnit(c)) + SecondUnit(c)
  {
  }

  /** Characters never have surrogate code points, so the first unit tells which form was used. */
  lemma LeadUnitForm(c: char, d: char)
    requires IsLong(c) && IsLong(d) && LeadUnit(c) == LeadUnit(d)
    ensures c as int < 0x1_0000 <==> d as int < 0x1_0000
  {
  }

  lemma LongEscapeUnique(c: char, d: char, x: string, y: string)
    requires IsLong(c) && IsLong(d)
    requires EscapeChar(c) + x == EscapeChar(d) + y
    ensures c == d && x == y
  {
    LongEscape(c);
    LongEscape(d);
    Associate(UnicodeEscape(LeadUnit(c)), SecondUnit(c), x);
    Associate(UnicodeEscape(LeadUnit(d)), SecondUnit(d), y);
    UnicodeEscapeUnique(LeadUnit(c), LeadUnit(d), SecondUnit(c) + x, SecondUnit(d) + y);
    LeadUnitForm(c, d);
    SecondUnitUnique(c, d, x, y);
  }

  lemma SecondUnitUnique(c: char, d: char, x: string, y: string)
    requires IsLong(c) && IsLong(d) && LeadUnit(c) == LeadUnit(d)
    requires c as int < 0x1_0000 <==> d as int < 0x1_0000
    requires SecondUnit(c) + x == SecondUnit(d) + y
    ensures c == d && x == y
  {
    hide Hex4, HexDigit;
    if c as int >= 0x1_0000 {
      AstralUnique(c as int - 0x1_0000, d as int - 0x1_0000, x, y);
    } else {
      Cancel("", x, y);
    }
  }

  lemma AstralUnique(m: nat, n: nat, x: string, y: string)
    requires m / 0x400 == n / 0x400
    requires UnicodeEscape(0xdc00 + m % 0x400) + x == UnicodeEscape(0xdc00 + n % 0x400) + y
    ensures m == n && x == y
  {
    UnicodeEscapeUnique(0xdc00 + m % 0x400, 0xdc00 + n % 0x400, x, y);
  }

  lemma EscapeCharShape(c: char)
    ensures EscapeChar(c) != [] && EscapeChar(c)[0] != '"'
    ensures IsLong(c) ==> |EscapeChar(c)| >= 2 && EscapeChar(c)[0] == '\\' && EscapeChar(c)[1] == 'u'
    ensures !IsLong(c) && |EscapeChar(c)| == 1 ==> EscapeChar(c)[0] != '\\' && EscapeChar(c)[0] == c
    ensures !IsLong(c) && |EscapeChar(c)| != 1 ==>
      |EscapeChar(c)| == 2 && EscapeChar(c)[0] == '\\' && EscapeChar(c)[1] != 'u'
  {
  }

  lemma EscapeCharUnique(c: char, d: char, x: string, y: string)
    requires EscapeChar(c) + x == EscapeChar(d) + y
    ensures c == d && x == y
  {
    EscapeCharShape(c);
    EscapeCharShape(d);
    var l, r := EscapeChar(c) + x, EscapeChar(d) + y;
    assert l[0] == EscapeChar(c)[0] && r[0] == EscapeChar(d)[0];
    if IsLong(c) {
      assert l[1] == 'u';
      assert IsLong(d);
      LongEscapeUnique(c, d, x, y);
    } else if |EscapeChar(c)| == 1 {
      assert l[1..] == x && r[1..] == y;
    } else {
      assert l[1] == EscapeChar(c)[1] && r[1] == EscapeChar(d)[1];
      assert l[2..] == x && r[2..] == y;
    }
  }

  /** `EscapeAll(s)`, a closing quote and `x`, split after the first character's escape. */
  lemma EscapeAllSplit(s: string, x: string)
    ensures s == [] ==> EscapeAll(s) + "\"" + x == "\"" + x
    ensures s != [] ==> EscapeAll(s) + "\"" + x == EscapeChar(s[0]) + (EscapeAll(s[1..]) + "\"" + x)
    ensures EscapeAll(s) + "\"" + x != [] && ((EscapeAll(s) + "\"" + x)[0] == '"' <==> s == [])
  {
    if s != [] {
      EscapeCharShape(s[0]);
      var e, rest := EscapeChar(s[0]), EscapeAll(s[1..]);
      assert EscapeAll(s) == e + rest;
      Associate(e, rest, "\"");
      Associate(e, rest + "\"", x);
      Lead(e, rest + "\"" + x);
    }
  }

  /** A quoted string ends where its closing quote says, whatever follows it. */
  lemma {:induction false} EscapeAllUnique(s: string, t: string, x: string, y: string)
    requires EscapeAll(s) + "\"" + x == EscapeAll(t) + "\"" + y
    ensures s == t && x == y
  {
    EscapeAllSplit(s, x);
    EscapeAllSplit(t, y);
    if s == [] {
      Cancel("\"", x, y);
    } else {
      EscapeCharUnique(s[0], t[0], EscapeAll(s[1..]) + "\"" + x, EscapeAll(t[1..]) + "\"" + y);
      EscapeAllUnique(s[1..], t[1..], x, y);
      SameCons(s, t);
    }
  }

  lemma Associate(a: string, b: string, c: string)
    ensures (a + b) + c == a + (b + c)
  {
  }

  lemma SameCons<T>(xs: seq<T>, ys: seq<T>)
    requires xs != [] && ys != [] && xs[0] == ys[0] && xs[1..] == ys[1..]
    ensures xs == ys
  {
    assert xs == [xs[0]] + xs[1..] && ys == [ys[0]] + ys[1..];
  }

  lemma Lead(a: string, x: string)
    ensures a == [] ==> a + x == x
    ensures a != [] ==> (a + x)[0] == a[0]
  {
  }

  lemma Cancel(a: string, x: string, y: string)
    requires a + x == a + y
    ensures x == y
  {
    assert (a + x)[|a|..] == x && (a + y)[|a|..] == y;
  }

  lemma QuoteUnique(s: string, t: string, x: string, y: string)
    requires QuoteText(s) + x == QuoteText(t) + y
    ensures s == t && x == y
  {
    QuoteSplit(s, x);
    QuoteSplit(t, y);
    Cancel("\"", EscapeAll(s) + "\"" + x, EscapeAll(t) + "\"" + y);
    EscapeAllUnique(s, t, x, y);
  }

  lemma QuoteSplit(s: string, x: string)
    ensures QuoteText(s) + x == "\"" + (EscapeAll(s) + "\"" + x)
  {
    Associate("\"", EscapeAll(s), "\"");
    Associate("\"", EscapeAll(s) + "\"", x);
  }

  // ----- reading values back

  /** What may follow a value inside an array or object, or at the end of the text. */
  predicate Delimited(x: string)
  {
    x == [] || x[0] in ",]}"
  }

  lemma NumberNotDelimited(m: string, x: string)
    requires m != [] && forall c | c in m :: IsNumberChar(c)
    ensures !Delimited(m + x)
  {
    assert IsNumberChar(m[0]);
    assert (m + x)[0] == m[0];
  }

  lemma {:induction false} LexemeUnique(m: string, n: string, x: string, y: string)
    requires (forall c | c in m :: IsNumberChar(c)) && (forall c | c in n :: IsNumberChar(c))
    requires Delimited(x) && Delimited(y) && m + x == n + y
    ensures m == n && x == y
  {
    Lead(m, x);
    Lead(n, y);
    if m == [] && n != [] {
      NumberNotDelimited(n, y);
    } else if n == [] && m != [] {
      NumberNotDelimited(m, x);
    } else if m != [] {
      assert (m + x)[1..] == m[1..] + x && (n + y)[1..] == n[1..] + y;
      LexemeUnique(m[1..], n[1..], x, y);
      SameCons(m, n);
    }
  }

  /** The first character of a value's text tells its kind. */
  lemma TextHead(v: Value)
    ensures Text(v) != []
    ensures var c := Text(v)[0];
      match v
      case Null => c == 'n'
      case Bool(b) => c == if b then 't' else 'f'
      case Num(_) => c in "-0123456789NI"
      case Str(_) => c == '"'
      case Arr(_) => c == '['
      case Obj(_) => c == '{'
  {
  }

  /** Texts of different kinds start differently. */
  lemma SameKind(v: Value, w: Value, x: string, y: string)
    requires Text(v) + x == Text(w) + y
    ensures v.Null? == w.Null? && v.Bool? == w.Bool? && v.Num? == w.Num?
    ensures v.Str? == w.Str? && v.Arr? == w.Arr? && v.Obj? == w.Obj?
    ensures v.Bool? ==> v == w
  {
    TextHead(v);
    TextHead(w);
    assert (Text(v) + x)[0] == Text(v)[0] && (Text(w) + y)[0] == Text(w)[0];
  }

  /** Unique reading: a text followed by anything determines the value and where its text stops.
      Only a number needs to know that a delimiter comes next. */
  lemma {:induction false} TextUnique(v: Value, w: Value, x: string, y: string)
    requires Text(v) + x == Text(w) + y
    requires v.Obj? || (Delimited(x) && Delimited(y))
    ensures v == w && x == y
    decreases v, 1
  {
    SameKind(v, w, x, y);
    match v
    case Null => Cancel("null", x, y);
    case Bool(b) => Cancel(Text(v), x, y);
    case Num(n) => LexemeUnique(n, w.lexeme, x, y);
    case Str(s) => QuoteUnique(s, w.s, x, y);
    case Arr(items) =>
      BracketSplit("[", ItemsText(items), "]", x);
      BracketSplit("[", ItemsText(w.items), "]", y);
      Cancel("[", ItemsText(items) + "]" + x, ItemsText(w.items) + "]" + y);
      ItemsUnique(items, w.items, x, y);
    case Obj(fields) =>
      BracketSplit("{", FieldsText(fields), "}", x);
      BracketSplit("{", FieldsText(w.fields), "}", y);
      Cancel("{", FieldsText(fields) + "}" + x, FieldsText(w.fields) + "}" + y);
      FieldsUnique(fields, w.fields, x, y);
  }

  lemma BracketSplit(open: string, inside: string, close: string, x: string)
    ensures open + inside + close + x == open + (inside + close + x)
  {
    Associate(open, inside, close);
    Associate(open, inside + close, x);
  }

  /** What follows the first of some array elements, closing bracket included. */
  function AfterItem(items: seq<Value>, x: string): (r: string)
    requires items != []
    ensures Delimited(r) && r != [] && (r[0] == ']' <==> |items| == 1)
    ensures r[1..] == if |items| == 1 then x else ItemsText(items[1..]) + "]" + x
  {
    if |items| == 1 then "]" + x else "," + (ItemsText(items[1..]) + "]" + x)
  }

  lemma ItemsSplit(items: seq<Value>, x: string)
    requires items != []
    ensures ItemsText(items) + "]" + x == Text(items[0]) + AfterItem(items, x)
  {
    var t := Text(items[0]);
    if |items| == 1 {
      Associate(t, "]", x);
    } else {
      var rest := ItemsText(items[1..]);
      Associate(t, ",", rest);
      Associate(t, "," + rest, "]");
      Associate(t, "," + rest + "]", x);
      Associate(",", rest, "]");
      Associate(",", rest + "]", x);
    }
  }

  lemma ItemsHead(items: seq<Value>, x: string)
    ensures ItemsText(items) + "]" + x != []
    ensures (ItemsText(items) + "]" + x)[0] == ']' <==> items == []
  {
    if items != [] {
      ItemsSplit(items, x);
      TextHead(items[0]);
      Lead(Text(items[0]), AfterItem(items, x));
    }
  }

  lemma {:induction false} ItemsUnique(xs: seq<Value>, ys: seq<Value>, x: string, y: string)
    requires ItemsText(xs) + "]" + x == ItemsText(ys) + "]" + y
    ensures xs == ys && x == y
    decreases xs, 0
  {
    ItemsHead(xs, x);
    ItemsHead(ys, y);
    if xs == [] {
      assert ItemsText(xs) + "]" == "]" && ItemsText(ys) + "]" == "]";
      Cancel("]", x, y);
    } else {
      ItemsSplit(xs, x);
      ItemsSplit(ys, y);
      TextUnique(xs[0], ys[0], AfterItem(xs, x), AfterItem(ys, y));
      if |xs| > 1 {
        ItemsUnique(xs[1..], ys[1..], x, y);
      }
      SameCons(xs, ys);
    }
  }

  /** What follows the first of some object fields, closing brace included. */
  function AfterField(fields: Dict, x: string): (r: string)
    requires fields != []
    ensures Delimited(r) && r != [] && (r[0] == '}' <==> |fields| == 1)
    ensures r[1..] == if |fields| == 1 then x else FieldsText(fields[1..]) + "}" + x
  {
    if |fields| == 1 then "}" + x else "," + (FieldsText(fields[1..]) + "}" + x)
  }

  lemma FieldsSplit(fields: Dict, x: string)
    requires fields != []
    ensures FieldsText(fields) + "}" + x ==
      QuoteText(fields[0].key) + (":" + (Text(fields[0].value) + AfterField(fields, x)))
  {
    var k, t := QuoteText(fields[0].key), Text(fields[0].value);
    if |fields| == 1 {
      assert k + ":" + t + "}" + x == k + (":" + (t + ("}" + x)));
    } else {
      Reassociate(k, t, FieldsText(fields[1..]), x);
    }
  }

  lemma Reassociate(k: string, t: string, rest: string, x: string)
    ensures k + ":" + t + "," + rest + "}" + x == k + (":" + (t + ("," + (rest + "}" + x))))
  {
  }

  lemma FieldsHead(fields: Dict, x: string)
    ensures FieldsText(fields) + "}" + x != []
    ensures (FieldsText(fields) + "}" + x)[0] == if fields == [] then '}' else '"'
  {
    if fields != [] { FieldsSplit(fields, x); }
  }

  lemma {:induction false} FieldsUnique(fs: Dict, gs: Dict, x: string, y: string)
    requires FieldsText(fs) + "}" + x == FieldsText(gs) + "}" + y
    ensures fs == gs && x == y
    decreases fs, 1
  {
    FieldsHead(fs, x);
    FieldsHead(gs, y);
    if fs == [] {
      assert FieldsText(fs) + "}" == "}" && FieldsText(gs) + "}" == "}";
      Cancel("}", x, y);
    } else {
      FirstFieldUnique(fs, gs, x, y);
      if |fs| > 1 {
        FieldsUnique(fs[1..], gs[1..], x, y);
      }
      SameCons(fs, gs);
    }
  }

  lemma {:induction false} FirstFieldUnique(fs: Dict, gs: Dict, x: string, y: string)
    requires fs != [] && gs != []
    requires FieldsText(fs) + "}" + x == FieldsText(gs) + "}" + y
    ensures fs[0] == gs[0] && AfterField(fs, x) == AfterField(gs, y)
    decreases fs, 0
  {
    FieldsSplit(fs, x);
    FieldsSplit(gs, y);
    var x', y' := Text(fs[0].value) + AfterField(fs, x), Text(gs[0].value) + AfterField(gs, y);
    QuoteUnique(fs[0].key, gs[0].key, ":" + x', ":" + y');
    Cancel(":", x', y');
    assert fs[0].value < fs[0];
    TextUnique(fs[0].value, gs[0].value, AfterField(fs, x), AfterField(gs, y));
  }
}
