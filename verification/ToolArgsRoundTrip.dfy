/** The scanner undoes the printer: which argument keys survive being printed and taken apart again. */
module ToolArgsRoundTrip {
  import opened Json
  import opened JsonText
  import opened Texts
  import opened ToolArgs

  /** What the printed form of a value is followed by. */
  predicate Ends(rest: string)
  {
    rest == "" || CommaBlankAt(rest, 0)
  }

  predicate Clean(key: string)
  {
    '=' !in key && Trim(key, JsSpace) == key
  }

  /** No quote ends the text early: each stands behind a backslash. */
  predicate QuoteFree(body: string, quote: char)
  {
    if body == [] then true
    else if body[0] == '\\' then |body| >= 2 && QuoteFree(body[2..], quote)
    else body[0] != quote && QuoteFree(body[1..], quote)
  }

  /** One plain character, or a backslash, any character, and plain ones. */
  predicate IsUnit(r: string, quote: char)
  {
    && r != []
    && (r[0] == '\\' ==> |r| >= 2)
    && (r[0] != '\\' ==> r[0] != quote && |r| == 1)
    && forall j | 2 <= j < |r| :: r[j] != '\\' && r[j] != quote
  }

  predicate Plain(text: string, quote: char)
  {
    forall i | 0 <= i < |text| :: text[i] != '\\' && text[i] != quote
  }

  lemma HexDigitPlain(n: nat)
    requires n < 16
    ensures HexDigit(n) != '\\' && HexDigit(n) != '\'' && HexDigit(n) != '"'
  {
  }

  lemma HexBytePlain(n: nat, quote: char)
    requires n < 0x100 && (quote == '\'' || quote == '"')
    ensures Plain(HexByte(n), quote)
  {
    HexDigitPlain(n / 16);
    HexDigitPlain(n % 16);
  }

  lemma Hex4Plain(n: nat, quote: char)
    requires n < 0x1_0000 && (quote == '\'' || quote == '"')
    ensures Plain(Hex4(n), quote)
  {
    HexDigitPlain(n / 4096);
    HexDigitPlain(n / 256 % 16);
    HexDigitPlain(n / 16 % 16);
    HexDigitPlain(n % 16);
  }

  lemma EscapeIsUnit(c: char, tail: string, quote: char)
    requires Plain(tail, quote)
    ensures IsUnit(['\\', c] + tail, quote)
  {
    var r := ['\\', c] + tail;
    assert forall j | 2 <= j < |r| :: r[j] == tail[j - 2];
  }

  lemma NumericEscapeIsUnit(n: nat, quote: char)
    requires n < 0x11_0000 && (quote == '\'' || quote == '"')
    ensures IsUnit(NumericEscape(n), quote)
  {
    if n < 0x100 {
      HexBytePlain(n, quote);
      EscapeIsUnit('x', HexByte(n), quote);
    } else if n < 0x1_0000 {
      Hex4Plain(n, quote);
      EscapeIsUnit('u', Hex4(n), quote);
    } else {
      Hex4Plain(n / 0x1_0000, quote);
      Hex4Plain(n % 0x1_0000, quote);
      EscapeIsUnit('U', Hex4(n / 0x1_0000) + Hex4(n % 0x1_0000), quote);
    }
  }

  lemma ReprCharIsUnit(c: char, quote: char, printable: char -> bool)
    requires quote == '\'' || quote == '"'
    ensures IsUnit(ReprChar(c, quote, printable), quote)
  {
    NumericEscapeIsUnit(c as int, quote);
  }

  lemma {:induction false} PlainFree(r: string, x: string, quote: char)
    requires QuoteFree(x, quote) && forall j | 0 <= j < |r| :: r[j] != '\\' && r[j] != quote
    ensures QuoteFree(r + x, quote)
  {
    if r == [] {
      assert r + x == x;
    } else {
      assert (r + x)[1..] == r[1..] + x;
      PlainFree(r[1..], x, quote);
    }
  }

  lemma UnitFree(r: string, x: string, quote: char)
    requires IsUnit(r, quote) && QuoteFree(x, quote)
    ensures QuoteFree(r + x, quote)
  {
    if r[0] == '\\' {
      PlainFree(r[2..], x, quote);
      assert (r + x)[2..] == r[2..] + x;
    } else {
      assert (r + x)[1..] == x;
    }
  }

  lemma {:induction false} ReprBodyFree(s: string, quote: char, printable: char -> bool)
    requires quote == '\'' || quote == '"'
    ensures QuoteFree(ReprBody(s, quote, printable), quote)
  {
    if s != [] {
      ReprCharIsUnit(s[0], quote, printable);
      ReprBodyFree(s[1..], quote, printable);
      UnitFree(ReprChar(s[0], quote, printable), ReprBody(s[1..], quote, printable), quote);
    }
  }

  lemma {:induction false} QuoteScan(u: string, i: nat, body: string, quote: char)
    requires QuoteFree(body, quote)
    requires i + |body| < |u| && u[i..i + |body|] == body && u[i + |body|] == quote && quote != '\\'
    ensures ClosingQuote(u, i, quote) == i + |body|
    decreases |body|
  {
    if body != [] {
      assert u[i] == body[0];
      var n := if body[0] == '\\' then 2 else 1;
      assert u[i + n..i + |body|] == body[n..];
      QuoteScan(u, i + n, body[n..], quote);
    }
  }

  lemma QuotedLength(body: string, quote: char, rest: string)
    requires QuoteFree(body, quote) && (quote == '\'' || quote == '"')
    ensures ValueLength([quote] + (body + [quote]) + rest) == |body| + 2
  {
    var u := [quote] + (body + [quote]) + rest;
    assert u[1..1 + |body|] == body;
    QuoteScan(u, 1, body, quote);
  }

  lemma BracketedLength(open: char, digits: string, tail: string, close: char, rest: string)
    requires (open == '[' && close == ']') || (open == '{' && close == '}')
    requires close !in digits && tail != [] && tail[|tail| - 1] == close && close !in tail[..|tail| - 1]
    ensures ValueLength([open] + digits + tail + rest) == |[open] + digits + tail|
  {
    var u := [open] + digits + tail + rest;
    var end := |digits| + |tail|;
    assert u[end] == close;
    forall i | 0 <= i < end
      ensures u[i] != close
    {
      if 1 <= i <= |digits| {
        assert u[i] == digits[i - 1];
      } else if i > |digits| {
        assert u[i] == tail[..|tail| - 1][i - 1 - |digits|];
      }
    }
    IndexOfIsFirst(u, close, end);
  }

  predicate OpensBare(t: string)
  {
    t != "" && t[0] != '\'' && t[0] != '"' && t[0] != '[' && t[0] != '{'
  }

  lemma {:induction false} SeparatorAfter(t: string, rest: string)
    requires ',' !in t && Ends(rest)
    ensures IndexOfSeparator(t + rest) == |t|
  {
    if t == [] {
      assert t + rest == rest;
    } else {
      assert (t + rest)[1..] == t[1..] + rest;
      SeparatorAfter(t[1..], rest);
    }
  }

  lemma BareLength(t: string, rest: string)
    requires OpensBare(t) && ',' !in t && Ends(rest)
    ensures ValueLength(t + rest) == |t|
  {
    SeparatorAfter(t, rest);
    assert (t + rest)[0] == t[0];
  }

  lemma NumberIsBare(lexeme: Lexeme)
    ensures var t := NumberText(lexeme); OpensBare(t) && ',' !in t
  {
    assert !IsNumberChar(',');
  }

  lemma ValueExtent(v: Value, rest: string, printable: char -> bool)
    requires Ends(rest)
    ensures ValueLength(CompactValue(v, printable) + rest) == |CompactValue(v, printable)|
  {
    match v
    case Str(s) =>
      ReprBodyFree(s, QuoteFor(s), printable);
      QuotedLength(ReprBody(s, QuoteFor(s), printable), QuoteFor(s), rest);
    case Arr(items) => BracketedLength('[', Decimal(|items|), " items]", ']', rest);
    case Obj(fields) => BracketedLength('{', Decimal(|fields|), " keys}", '}', rest);
    case Num(lexeme) =>
      NumberIsBare(lexeme);
      BareLength(NumberText(lexeme), rest);
    case Bool(b) => BareLength(if b then "true" else "false", rest);
    case Null => BareLength("null", rest);
  }

  lemma SplitAtEquals(key: string, u: string)
    requires '=' !in key
    ensures var t := key + (['='] + u); IndexOf(t, '=') == |key| < |t| && t[..|key|] == key && t[|key| + 1..] == u
  {
    var t := key + (['='] + u);
    assert t[|key|] == '=';
    assert forall i | 0 <= i < |key| :: t[i] == key[i];
    IndexOfIsFirst(t, '=', |key|);
  }

  lemma TakeFront(v: string, rest: string)
    ensures (v + rest)[..|v|] == v && (v + rest)[|v|..] == rest
  {
  }

  lemma Regroup(key: string, v: string, rest: string)
    ensures key + ("=" + v) + rest == key + (['='] + (v + rest))
  {
  }

  lemma PairScanned(key: string, v: string, rest: string)
    requires Clean(key) && ValueLength(v + rest) == |v|
    ensures Next(key + ("=" + v) + rest) == Found(Param(key, v), SkipSeparator(rest))
  {
    Regroup(key, v, rest);
    SplitAtEquals(key, v + rest);
    TakeFront(v, rest);
  }

  /** One printed pair is scanned as one parameter, whatever pairs follow. */
  lemma OnePair(f: Field, rest: string, printable: char -> bool)
    requires Clean(f.key) && Ends(rest)
    ensures Params(Pair(f, printable) + rest) ==
      [Param(f.key, CompactValue(f.value, printable))] + Params(SkipSeparator(rest))
  {
    ValueExtent(f.value, rest, printable);
    PairScanned(f.key, CompactValue(f.value, printable), rest);
  }

  function Printed(fields: Dict, printable: char -> bool): (r: seq<Param>)
    ensures |r| == |fields|
    ensures forall i | 0 <= i < |r| :: r[i] == Param(fields[i].key, CompactValue(fields[i].value, printable))
  {
    if fields == [] then []
    else [Param(fields[0].key, CompactValue(fields[0].value, printable))] + Printed(fields[1..], printable)
  }

  lemma JoinedHead(fields: Dict, printable: char -> bool)
    requires fields != [] && Clean(fields[0].key)
    ensures Joined(fields, printable) != "" && Joined(fields, printable)[0] != ' '
  {
    var key := fields[0].key;
    assert Pair(fields[0], printable)[0] == if key == [] then '=' else key[0];
  }

  lemma NextPair(text: string)
    requires text != "" && text[0] != ' '
    ensures SkipSeparator(", " + text) == text
  {
    var t := ", " + text;
    assert t[0] == ',' && t[1..] == " " + text;
    assert t[1..][0] == ' ' && t[1..][1..] == text;
    assert SkipBlanks(text) == text;
  }

  lemma {:induction false} CleanKeysRoundTrip(fields: Dict, printable: char -> bool)
    requires forall f | f in fields :: Clean(f.key)
    ensures Params(Joined(fields, printable)) == Printed(fields, printable)
  {
    if |fields| == 1 {
      AppendNothing(Pair(fields[0], printable));
      OnePair(fields[0], "", printable);
    } else if fields != [] {
      var text := Joined(fields[1..], printable);
      CleanKeysRoundTrip(fields[1..], printable);
      JoinedHead(fields[1..], printable);
      NextPair(text);
      OnePair(fields[0], ", " + text, printable);
    }
  }

  lemma AppendNothing(s: string)
    ensures s + "" == s
  {
  }

  lemma ScannedKeyIsClean(t: string)
    ensures Next(t).Found? ==> Clean(Next(t).param.key)
  {
    NotBefore(t, '=');
    TrimIdempotent(t[..IndexOf(t, '=')], JsSpace);
  }

  /** The scanner only ever yields keys without `=` or outer white space. */
  lemma {:induction false} ScannedKeysAreClean(t: string)
    ensures forall p | p in Params(t) :: Clean(p.key)
    decreases |t|
  {
    ScannedKeyIsClean(t);
    match Next(t)
    case Done =>
    case Found(_, rest) => ScannedKeysAreClean(rest);
  }

  /** The scan of the printed arguments gives back every key with its printed value, in order, exactly when no key
      contains `=` or starts or ends with white space. */
  lemma RoundTripIff(fields: Dict, printable: char -> bool)
    ensures Params(Joined(fields, printable)) == Printed(fields, printable) <==> forall f | f in fields :: Clean(f.key)
  {
    var params := Params(Joined(fields, printable));
    if params == Printed(fields, printable) {
      ScannedKeysAreClean(Joined(fields, printable));
      forall f | f in fields
        ensures Clean(f.key)
      {
        var i :| 0 <= i < |fields| && fields[i] == f;
        assert params[i].key == f.key;
      }
    } else if forall f | f in fields :: Clean(f.key) {
      CleanKeysRoundTrip(fields, printable);
    }
  }
}
