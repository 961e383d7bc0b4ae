/** What JSON text says to whoever reads it: strings read back as RFC 8259 has them, keys come in code point order. */
module JsonReader {
  import opened Sorting
  import opened Json
  import opened JsonText
  import opened JsonEquality

  // ----- strings

  datatype Reading = Bad | End(rest: string) | Next(c: char, rest: string)

  function Unit(t: string): nat
    requires |t| == 4
  {
    4096 * HexValue(t[0]) + 256 * HexValue(t[1]) + 16 * HexValue(t[2]) + HexValue(t[3])
  }

  /** One character of a JSON string, or its end (section 7 of RFC 8259). */
  function ReadChar(t: string): Reading
  {
    if t == [] then Bad
    else if t[0] == '"' then End(t[1..])
    else if t[0] != '\\' then Next(t[0], t[1..])
    else if |t| < 2 then Bad
    else
      match t[1]
      case '"' => Next('"', t[2..])
      case '\\' => Next('\\', t[2..])
      case '/' => Next('/', t[2..])
      case 'b' => Next('\U{0008}', t[2..])
      case 'f' => Next('\U{000c}', t[2..])
      case 'n' => Next('\n', t[2..])
      case 'r' => Next('\r', t[2..])
      case 't' => Next('\t', t[2..])
      case 'u' => if |t| < 6 then Bad else ReadUnit(Unit(t[2..6]), t[6..])
      case _ => Bad
  }

  /** A code unit stands for itself, unless it is the first of a surrogate pair. */
  function ReadUnit(unit: nat, rest: string): Reading
  {
    if unit < 0xd800 || 0xe000 <= unit < 0x1_0000 then Next(unit as char, rest)
    else if unit < 0xdc00 && |rest| >= 6 && rest[0] == '\\' && rest[1] == 'u' then
      var low := Unit(rest[2..6]);
      if 0xdc00 <= low < 0xe000 then Next((0x1_0000 + 0x400 * (unit - 0xd800) + (low - 0xdc00)) as char, rest[6..])
      else Bad
    else Bad
  }

  lemma ReadEscapedUnit(n: nat, x: string)
    requires n < 0x1_0000
    ensures ReadChar(UnicodeEscape(n) + x) == ReadUnit(n, x)
  {
    hide HexDigit, HexValue, ReadUnit;
    var t := UnicodeEscape(n) + x;
    assert t[0] == '\\' && t[1] == 'u' && t[2..6] == Hex4(n) && t[6..] == x;
    Hex4Value(n);
  }

  lemma ReadPair(high: nat, low: nat, x: string)
    requires 0xd800 <= high < 0xdc00 <= low < 0xe000
    ensures ReadChar(UnicodeEscape(high) + UnicodeEscape(low) + x) ==
      Next((0x1_0000 + 0x400 * (high - 0xd800) + (low - 0xdc00)) as char, x)
  {
    hide HexDigit, HexValue, Hex4;
    var rest := UnicodeEscape(low) + x;
    Associate(UnicodeEscape(high), UnicodeEscape(low), x);
    ReadEscapedUnit(high, rest);
    assert rest[0] == '\\' && rest[1] == 'u' && rest[2..6] == Hex4(low) && rest[6..] == x;
    Hex4Value(low);
  }

  lemma ReadEscape(c: char, x: string)
    ensures ReadChar(EscapeChar(c) + x) == Next(c, x)
  {
    if IsLong(c) {
      LongEscape(c);
      if c as int < 0x1_0000 {
        assert UnicodeEscape(c as int) + "" == UnicodeEscape(c as int);
        hide UnicodeEscape, EscapeChar;
        ReadEscapedUnit(c as int, x);
      } else {
        var n := c as int - 0x1_0000;
        hide UnicodeEscape, EscapeChar;
        ReadPair(0xd800 + n / 0x400, 0xdc00 + n % 0x400, x);
      }
    } else {
      var t := EscapeChar(c) + x;
      EscapeCharShape(c);
      assert t[|EscapeChar(c)|..] == x;
      assert t[0] == EscapeChar(c)[0] && (|EscapeChar(c)| == 2 ==> t[1] == EscapeChar(c)[1]);
    }
  }

  /** The string up to its closing quote, and what follows. */
  function ReadString(t: string): Option<(string, string)>
    decreases |t|
  {
    match ReadChar(t)
    case Bad => None
    case End(rest) => Some(("", rest))
    case Next(c, rest) =>
      if |rest| >= |t| then None
      else
        match ReadString(rest)
        case None => None
        case Some(read) => Some(([c] + read.0, read.1))
  }

  /** A string in quotes reads back as it was, whatever follows it. */
  lemma {:induction false} StringsReadBack(s: string, x: string)
    ensures ReadString(EscapeAll(s) + "\"" + x) == Some((s, x))
  {
    hide ReadChar, EscapeChar;
    EscapeAllSplit(s, x);
    if s == [] {
      ReadQuote(x);
    } else {
      var rest := EscapeAll(s[1..]) + "\"" + x;
      ReadEscape(s[0], rest);
      EscapeCharShape(s[0]);
      StringsReadBack(s[1..], x);
      assert [s[0]] + s[1..] == s;
    }
  }

  lemma ReadQuote(x: string)
    ensures ReadChar("\"" + x) == End(x)
  {
    assert ("\"" + x)[1..] == x;
  }

  // ----- everything else

  /** The text of a value, form by form, without blanks. */
  lemma TextForms(s: string, items: seq<Value>, fields: Dict)
    ensures Text(Null) == "null" && Text(Bool(true)) == "true" && Text(Bool(false)) == "false"
    ensures Text(Str(s)) == "\"" + EscapeAll(s) + "\""
    ensures Text(Arr(items)) == "[" + ItemsText(items) + "]" && Text(Obj(fields)) == "{" + FieldsText(fields) + "}"
    ensures items != [] ==>
      ItemsText(items) == Text(items[0]) + if |items| > 1 then "," + ItemsText(items[1..]) else ""
    ensures fields != [] ==>
      FieldsText(fields) ==
      "\"" + EscapeAll(fields[0].key) + "\"" + ":" + Text(fields[0].value)
      + if |fields| > 1 then "," + FieldsText(fields[1..]) else ""
    ensures ItemsText([]) == "" && FieldsText([]) == ""
  {
    if |items| == 1 { NothingAfter(Text(items[0])); }
    if |fields| == 1 { NothingAfter(FieldsText(fields)); }
    if |items| > 1 { Associate(Text(items[0]), ",", ItemsText(items[1..])); }
    if |fields| > 1 {
      Associate(QuoteText(fields[0].key) + ":" + Text(fields[0].value), ",", FieldsText(fields[1..]));
    }
  }

  lemma NothingAfter(s: string)
    ensures s + "" == s
  {
  }

  /** `a` comes first where they differ, or `b` goes on where `a` ends. */
  ghost predicate Precedes(a: string, b: string)
  {
    a <= b || exists k :: DiffersAt(a, b, k)
  }

  ghost predicate DiffersAt(a: string, b: string, k: nat)
  {
    k < |a| && k < |b| && a[..k] == b[..k] && a[k] < b[k]
  }

  lemma {:induction false} LexIsPrecedes(a: string, b: string)
    ensures LexLeq(a, b) ==> Precedes(a, b)
  {
    if LexLeq(a, b) && a != [] {
      if a[0] < b[0] {
        assert DiffersAt(a, b, 0);
      } else {
        LexIsPrecedes(a[1..], b[1..]);
        if a[1..] <= b[1..] {
          SameCons(a, [b[0]] + a[1..]);
        } else {
          var k: nat :| DiffersAt(a[1..], b[1..], k);
          assert a[..k + 1] == [a[0]] + a[1..][..k] && b[..k + 1] == [b[0]] + b[1..][..k];
          assert DiffersAt(a, b, k + 1);
        }
      }
    }
  }

  /** The keys of a sorted object come in code point order. */
  lemma KeysInOrder(fields: Dict)
    ensures SortKeys(Obj(fields)).Obj?
    ensures var sorted := SortKeys(Obj(fields)).fields;
      forall i, j | 0 <= i < j < |sorted| :: Precedes(sorted[i].key, sorted[j].key)
  {
    KeyOrder();
    SortBySorted(KeyLeq, SortValues(fields));
    var sorted := SortKeys(Obj(fields)).fields;
    forall i, j | 0 <= i < j < |sorted|
      ensures Precedes(sorted[i].key, sorted[j].key)
    {
      assert KeyLeq(sorted[i], sorted[j]);
      LexIsPrecedes(sorted[i].key, sorted[j].key);
    }
  }
}
