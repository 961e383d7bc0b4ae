/** What the printed arguments say to whoever reads them: strings read back as Python's own literals, lengths as
    numbers, and a text that is cut off is taken to its end. */
module ToolArgsReader {
  import opened Json
  import opened JsonText
  import opened JsonReader
  import opened Texts
  import opened ToolArgs
  import opened ToolArgsRoundTrip
  import ModelMappings

  // ----- strings

  predicate IsCode(n: nat)
  {
    n < 0xd800 || 0xe000 <= n < 0x11_0000
  }

  function Coded(n: nat, rest: string): Reading
  {
    if IsCode(n) then Reading.Next(n as char, rest) else Bad
  }

  /** One character of a Python string literal in these quotes, or its end. */
  function ReadLiteral(t: string, quote: char): Reading
  {
    if t == [] then Bad
    else if t[0] == quote then End(t[1..])
    else if t[0] != '\\' then Reading.Next(t[0], t[1..])
    else if |t| < 2 then Bad
    else
      match t[1]
      case '\\' => Reading.Next('\\', t[2..])
      case '\'' => Reading.Next('\'', t[2..])
      case '"' => Reading.Next('"', t[2..])
      case 't' => Reading.Next('\t', t[2..])
      case 'n' => Reading.Next('\n', t[2..])
      case 'r' => Reading.Next('\r', t[2..])
      case 'x' => if |t| < 4 then Bad else Coded(16 * HexValue(t[2]) + HexValue(t[3]), t[4..])
      case 'u' => if |t| < 6 then Bad else Coded(Unit(t[2..6]), t[6..])
      case 'U' => if |t| < 10 then Bad else Coded(0x1_0000 * Unit(t[2..6]) + Unit(t[6..10]), t[10..])
      case _ => Bad
  }

  lemma ReadByte(n: nat, x: string, quote: char)
    requires n < 0x100 && (quote == '\'' || quote == '"')
    ensures ReadLiteral(NumericEscape(n) + x, quote) == Coded(n, x)
  {
    hide HexDigit, HexValue, Coded;
    var t := NumericEscape(n) + x;
    assert t[0] == '\\' && t[1] == 'x' && t[2] == HexDigit(n / 16) && t[3] == HexDigit(n % 16) && t[4..] == x;
    HexDigitValue(n / 16);
    HexDigitValue(n % 16);
  }

  lemma ReadShort(n: nat, x: string, quote: char)
    requires 0x100 <= n < 0x1_0000 && (quote == '\'' || quote == '"')
    ensures ReadLiteral(NumericEscape(n) + x, quote) == Coded(n, x)
  {
    hide HexDigit, HexValue, Coded, Hex4;
    var t := NumericEscape(n) + x;
    assert t[0] == '\\' && t[1] == 'u' && t[2..6] == Hex4(n) && t[6..] == x;
    Hex4Value(n);
  }

  lemma ReadLong(n: nat, x: string, quote: char)
    requires 0x1_0000 <= n < 0x11_0000 && (quote == '\'' || quote == '"')
    ensures ReadLiteral(NumericEscape(n) + x, quote) == Coded(n, x)
  {
    hide HexDigit, HexValue, Coded, Hex4;
    var t := NumericEscape(n) + x;
    assert t[0] == '\\' && t[1] == 'U' && t[2..6] == Hex4(n / 0x1_0000) && t[6..10] == Hex4(n % 0x1_0000);
    assert t[10..] == x;
    Hex4Value(n / 0x1_0000);
    Hex4Value(n % 0x1_0000);
  }

  lemma ReadRepr(c: char, x: string, quote: char, printable: char -> bool)
    requires quote == '\'' || quote == '"'
    ensures ReadLiteral(ReprChar(c, quote, printable) + x, quote) == Reading.Next(c, x)
  {
    var r, n := ReprChar(c, quote, printable), c as int;
    var t := r + x;
    if r == NumericEscape(n) {
      if n < 0x100 {
        ReadByte(n, x, quote);
      } else if n < 0x1_0000 {
        ReadShort(n, x, quote);
      } else {
        ReadLong(n, x, quote);
      }
    } else {
      assert t[|r|..] == x && t[0] == r[0] && (|r| == 2 ==> t[1] == r[1]);
    }
  }

  function ReadLiteralText(t: string, quote: char): Option<(string, string)>
    decreases |t|
  {
    match ReadLiteral(t, quote)
    case Bad => None
    case End(rest) => Some(("", rest))
    case Next(c, rest) =>
      if |rest| >= |t| then None
      else
        match ReadLiteralText(rest, quote)
        case None => None
        case Some(read) => Some(([c] + read.0, read.1))
  }

  lemma {:induction false} BodyReadsBack(s: string, quote: char, printable: char -> bool, x: string)
    requires quote == '\'' || quote == '"'
    ensures ReadLiteralText(ReprBody(s, quote, printable) + ([quote] + x), quote) == Some((s, x))
  {
    hide ReadLiteral, ReprChar;
    if s == [] {
      LiteralEnds(quote, x);
      assert "" + ([quote] + x) == [quote] + x;
    } else {
      var r, rest := ReprChar(s[0], quote, printable), ReprBody(s[1..], quote, printable) + ([quote] + x);
      ReadRepr(s[0], rest, quote, printable);
      ReprCharIsUnit(s[0], quote, printable);
      BodyReadsBack(s[1..], quote, printable, x);
      Associate(r, ReprBody(s[1..], quote, printable), [quote] + x);
      assert [s[0]] + s[1..] == s;
    }
  }

  lemma LiteralEnds(quote: char, x: string)
    ensures ReadLiteral([quote] + x, quote) == End(x)
  {
    assert ([quote] + x)[1..] == x;
  }

  /** A printed string stands in single quotes, or in double ones if it has single ones only, and between them reads
      back as it was. */
  lemma StringsPrint(s: string, printable: char -> bool, x: string)
    ensures var text, q := CompactValue(Str(s), printable) + x, if '\'' in s && '"' !in s then '"' else '\'';
      text != [] && text[0] == q && ReadLiteralText(text[1..], q) == Some((s, x))
  {
    var q := QuoteFor(s);
    var body := ReprBody(s, q, printable);
    BodyReadsBack(s, q, printable, x);
    hide ReprBody, ReadLiteralText;
    Unquote(q, body, x);
  }

  lemma Unquote(q: char, body: string, x: string)
    ensures var text := [q] + (body + [q]) + x; text != [] && text[0] == q && text[1..] == body + ([q] + x)
  {
  }

  // ----- everything else

  function Value10(digits: string): int
  {
    if digits == [] then 0
    else 10 * Value10(digits[..|digits| - 1]) + (digits[|digits| - 1] as int - '0' as int)
  }

  lemma {:induction false} DecimalReads(n: nat)
    ensures Value10(Decimal(n)) == n
  {
    var digit := ('0' as int + n % 10) as char;
    if n < 10 {
      assert Decimal(n) == [digit] && [digit][..0] == [];
    } else {
      DecimalReads(n / 10);
      assert Decimal(n) == Decimal(n / 10) + [digit];
      assert (Decimal(n / 10) + [digit])[..|Decimal(n / 10)|] == Decimal(n / 10);
    }
  }

  /** Truth values and null by their JSON names, numbers as Python prints them, containers by their size. */
  lemma OthersPrint(v: Value, printable: char -> bool)
    ensures CompactValue(Bool(true), printable) == "true" && CompactValue(Bool(false), printable) == "false"
    ensures CompactValue(Null, printable) == "null"
    ensures v.Num? && v.lexeme !in {"NaN", "Infinity", "-Infinity"} ==> CompactValue(v, printable) == v.lexeme
    ensures CompactValue(Num("NaN"), printable) == "nan" && CompactValue(Num("Infinity"), printable) == "inf"
    ensures CompactValue(Num("-Infinity"), printable) == "-inf"
    ensures v.Arr? ==> exists d :: CompactValue(v, printable) == "[" + d + " items]" && Value10(d) == |v.items|
    ensures v.Obj? ==> exists d :: CompactValue(v, printable) == "{" + d + " keys}" && Value10(d) == |v.fields|
  {
    if v.Arr? {
      DecimalReads(|v.items|);
    } else if v.Obj? {
      DecimalReads(|v.fields|);
    }
  }

  // ----- values in any text

  /** A bare value ends before the first comma with a blank behind it. */
  lemma {:induction false} SeparatorTells(u: string)
    ensures forall i | 0 <= i < IndexOfSeparator(u) :: !(i + 1 < |u| && u[i] == ',' && u[i + 1] == ' ')
    ensures var n := IndexOfSeparator(u); n < |u| ==> n + 1 < |u| && u[n] == ',' && u[n + 1] == ' '
  {
    if u != [] && !CommaBlankAt(u, 0) {
      var t := u[1..];
      SeparatorTells(t);
      forall i | 0 <= i < IndexOfSeparator(u)
        ensures !(i + 1 < |u| && u[i] == ',' && u[i + 1] == ' ')
      {
        if i > 0 { assert i - 1 + 1 < |t| ==> t[i - 1] == u[i] && t[i] == u[i + 1]; }
      }
    }
  }

  /** A quoted value goes to its closing quote, one in brackets to the first closing bracket, a bare one to the first
      comma with a blank; without such an end it goes to the end of the text. */
  lemma ValueTells(u: string)
    requires u != []
    ensures (u[0] == '\'' || u[0] == '"') && QuoteFree(u[1..], u[0]) ==> ValueLength(u) == |u|
    ensures u[0] == '[' || u[0] == '{' ==>
      var n, close := ValueLength(u), if u[0] == '[' then ']' else '}';
      n > 0 && close !in u[..n - 1] && (u[n - 1] == close || (n == |u| && close !in u))
    ensures u[0] !in {'\'', '"', '[', '{'} ==>
      var n := ValueLength(u);
      && (forall i | 0 <= i < n :: !(i + 1 < |u| && u[i] == ',' && u[i + 1] == ' '))
      && (n < |u| ==> n + 1 < |u| && u[n] == ',' && u[n + 1] == ' ')
  {
    SeparatorTells(u);
    if (u[0] == '\'' || u[0] == '"') && QuoteFree(u[1..], u[0]) {
      NeverCloses(u, 1, u[0]);
    } else if u[0] == '[' || u[0] == '{' {
      var close := if u[0] == '[' then ']' else '}';
      NotBefore(u, close);
      if IndexOf(u, close) == |u| {
        assert u[..|u|] == u;
        assert close !in u[..|u| - 1];
      }
    }
  }

  lemma {:induction false} NeverCloses(u: string, i: nat, quote: char)
    requires u != [] && i <= |u| && QuoteFree(u[i..], quote)
    ensures ClosingQuote(u, i, quote) == |u| - 1
    decreases |u| - i
  {
    if i < |u| {
      var n := if u[i] == '\\' then 2 else 1;
      assert u[i..][n..] == u[i + n..];
      NeverCloses(u, i + n, quote);
    }
  }

  /** The browser trims what Python strips, but for four separators and the next line, and the byte order mark as
      well. */
  lemma SpacesDiffer(c: char)
    ensures JsSpace(c) != ModelMappings.PySpace(c) <==>
      '\U{001c}' <= c <= '\U{001f}' || c == '\U{0085}' || c == '\U{feff}'
    ensures JsSpace(c) && c <= '~' <==> c in {' ', '\t', '\n', '\r', '\U{000b}', '\U{000c}'}
  {
  }
}
