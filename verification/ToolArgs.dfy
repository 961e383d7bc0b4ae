/** How the request list prints a tool call's arguments, and how the browser takes the text apart again.
    Positions count characters; every delimiter is a single one in UTF-16 too. */
module ToolArgs {
  import opened Json
  import opened JsonText
  import opened Texts

  // ----- the printer

  /** Decimal digits of a length. */
  function Decimal(n: nat): (r: string)
    ensures r != [] && forall i | 0 <= i < |r| :: '0' <= r[i] <= '9'
  {
    var digit := [('0' as int + n % 10) as char];
    if n < 10 then digit else Decimal(n / 10) + digit
  }

  /** Python's `str` of a number: JSON spells the special floats differently. */
  function NumberText(lexeme: Lexeme): string
  {
    if lexeme == "NaN" then "nan"
    else if lexeme == "Infinity" then "inf"
    else if lexeme == "-Infinity" then "-inf"
    else lexeme
  }

  function HexByte(n: nat): string
    requires n < 0x100
  {
    [HexDigit(n / 16), HexDigit(n % 16)]
  }

  /** `repr` prefers single quotes, unless only they occur inside. */
  function QuoteFor(s: string): char
  {
    if '\'' in s && '"' !in s then '"' else '\''
  }

  function NumericEscape(n: nat): string
    requires n < 0x11_0000
  {
    if n < 0x100 then ['\\', 'x'] + HexByte(n)
    else if n < 0x1_0000 then ['\\', 'u'] + Hex4(n)
    else ['\\', 'U'] + (Hex4(n / 0x1_0000) + Hex4(n % 0x1_0000))
  }

  /** One character inside `repr`. Which characters beyond ASCII are printable is left open. */
  function ReprChar(c: char, quote: char, printable: char -> bool): string
  {
    if c == quote || c == '\\' then ['\\', c]
    else if c == '\t' then "\\t"
    else if c == '\n' then "\\n"
    else if c == '\r' then "\\r"
    else if ' ' <= c <= '~' then [c]
    else if c as int > 0x7f && printable(c) then [c]
    else NumericEscape(c as int)
  }

  function ReprBody(s: string, quote: char, printable: char -> bool): string
  {
    if s == [] then "" else ReprChar(s[0], quote, printable) + ReprBody(s[1..], quote, printable)
  }

  function Repr(s: string, printable: char -> bool): string
  {
    var q := QuoteFor(s);
    [q] + (ReprBody(s, q, printable) + [q])
  }

  function CompactValue(v: Value, printable: char -> bool): string
  {
    match v
    case Str(s) => Repr(s, printable)
    case Bool(b) => if b then "true" else "false"
    case Num(lexeme) => NumberText(lexeme)
    case Arr(items) => "[" + Decimal(|items|) + " items]"
    case Obj(fields) => "{" + Decimal(|fields|) + " keys}"
    case Null => "null"
  }

  function Pair(f: Field, printable: char -> bool): string
  {
    f.key + ("=" + CompactValue(f.value, printable))
  }

  /** The pairs joined by a comma and a blank. */
  function Joined(fields: Dict, printable: char -> bool): string
  {
    if fields == [] then ""
    else if |fields| == 1 then Pair(fields[0], printable)
    else Pair(fields[0], printable) + (", " + Joined(fields[1..], printable))
  }

  // ----- the scanner

  predicate JsSpace(c: char)
  {
    || '\t' <= c <= '\r' || c == ' ' || c == '\U{00a0}' || c == '\U{1680}' || '\U{2000}' <= c <= '\U{200a}'
    || c == '\U{2028}' || c == '\U{2029}' || c == '\U{202f}' || c == '\U{205f}' || c == '\U{3000}' || c == '\U{feff}'
  }

  predicate CommaBlankAt(s: string, i: nat)
  {
    i + 1 < |s| && s[i] == ',' && s[i + 1] == ' '
  }

  /** Position of the first comma followed by a blank, or the length. */
  function IndexOfSeparator(s: string): (n: nat)
    ensures n <= |s|
  {
    if s == [] || CommaBlankAt(s, 0) then 0 else 1 + IndexOfSeparator(s[1..])
  }

  /** The closing quote at or after `i`, skipping whatever follows a backslash; the last position when there is none. */
  function ClosingQuote(s: string, i: nat, quote: char): (n: nat)
    requires s != []
    ensures n < |s| && (i < |s| ==> i <= n)
    decreases |s| - i
  {
    if i >= |s| then |s| - 1
    else if s[i] == '\\' then ClosingQuote(s, i + 2, quote)
    else if s[i] == quote then i
    else ClosingQuote(s, i + 1, quote)
  }

  method FindClosingQuote(s: string, start: nat, quote: char) returns (n: nat)
    requires start < |s|
    ensures n == ClosingQuote(s, start + 1, quote)
  {
    var i := start + 1;
    while i < |s|
      invariant ClosingQuote(s, i, quote) == ClosingQuote(s, start + 1, quote)
    {
      if s[i] == '\\' {
        i := i + 2;
      } else if s[i] == quote {
        return i;
      } else {
        i := i + 1;
      }
    }
    n := |s| - 1;
  }

  datatype Param = Param(key: string, value: string)

  /** How much of the text belongs to the value it starts with. */
  function ValueLength(u: string): (n: nat)
    ensures n <= |u|
  {
    if u != [] && (u[0] == '\'' || u[0] == '"') then ClosingQuote(u, 1, u[0]) + 1
    else if u != [] && (u[0] == '[' || u[0] == '{') then
      var end := IndexOf(u, if u[0] == '[' then ']' else '}');
      if end == |u| then |u| else end + 1
    else IndexOfSeparator(u)
  }

  function SkipBlanks(s: string): (r: string)
    ensures |r| <= |s|
  {
    if s != [] && s[0] == ' ' then SkipBlanks(s[1..]) else s
  }

  /** Past one comma, if there is one, and any blanks. */
  function SkipSeparator(s: string): (r: string)
    ensures |r| <= |s|
  {
    SkipBlanks(if s != [] && s[0] == ',' then s[1..] else s)
  }

  datatype Round = Done | Found(param: Param, rest: string)

  /** One round of the scan; it consumes at least the `=`. */
  function Next(t: string): (r: Round)
    ensures r.Found? ==> |r.rest| < |t|
  {
    var eq := IndexOf(t, '=');
    if eq == |t| then Done
    else
      var u := t[eq + 1..];
      var n := ValueLength(u);
      Found(Param(Trim(t[..eq], JsSpace), u[..n]), SkipSeparator(u[n..]))
  }

  /** The parameters in a text. */
  function Params(t: string): seq<Param>
    decreases |t|
  {
    match Next(t)
    case Done => []
    case Found(p, rest) => [p] + Params(rest)
  }

  // ----- the loops

  lemma {:induction false} JoinPairs(parts: seq<string>, fields: Dict, printable: char -> bool)
    requires |parts| == |fields| && forall i | 0 <= i < |parts| :: parts[i] == Pair(fields[i], printable)
    ensures Join(parts, ", ") == Joined(fields, printable)
  {
    if |parts| > 1 {
      JoinPairs(parts[1..], fields[1..], printable);
    }
  }

  /** `args` is the decoded value, or nothing when the text was not JSON. */
  method SummarizeToolArgs(args: Option<Value>, printable: char -> bool) returns (text: string)
    ensures text == if args.Some? && args.value.Obj? then Joined(args.value.fields, printable) else ""
  {
    if args.None? || !args.value.Obj? || args.value.fields == [] {
      return "";
    }
    var fields := args.value.fields;
    var parts: seq<string> := [];
    for i := 0 to |fields|
      invariant |parts| == i && forall k | 0 <= k < i :: parts[k] == Pair(fields[k], printable)
    {
      parts := parts + [Pair(fields[i], printable)];
    }
    JoinPairs(parts, fields, printable);
    text := Join(parts, ", ");
  }

  lemma DropDrop<T>(s: seq<T>, i: nat, n: nat)
    requires i + n <= |s|
    ensures s[i..][n..] == s[i + n..]
  {
  }

  lemma {:induction false} ShiftQuote(s: string, k: nat, i: nat, quote: char)
    requires k < |s|
    ensures ClosingQuote(s, k + i, quote) == k + ClosingQuote(s[k..], i, quote)
    decreases |s| - i
  {
    if k + i < |s| {
      assert s[k..][i] == s[k + i];
      if s[k + i] == '\\' {
        ShiftQuote(s, k, i + 2, quote);
      } else if s[k + i] != quote {
        ShiftQuote(s, k, i + 1, quote);
      }
    }
  }

  method SkipToNext(s: string, start: nat) returns (i: nat)
    requires start <= |s|
    ensures start <= i <= |s| && s[i..] == SkipSeparator(s[start..])
  {
    i := start;
    if i < |s| && s[i] == ',' {
      DropDrop(s, i, 1);
      i := i + 1;
    }
    while i < |s| && s[i] == ' '
      invariant start <= i <= |s| && SkipBlanks(s[i..]) == SkipSeparator(s[start..])
    {
      DropDrop(s, i, 1);
      i := i + 1;
    }
  }

  /** The value at `i`, and where it ends. */
  method TakeValue(s: string, i: nat) returns (end: nat)
    requires i <= |s|
    ensures end == i + ValueLength(s[i..]) && end <= |s|
  {
    if i < |s| && (s[i] == '\'' || s[i] == '"') {
      end := FindClosingQuote(s, i, s[i]);
      ShiftQuote(s, i, 1, s[i]);
      end := end + 1;
    } else if i < |s| && (s[i] == '[' || s[i] == '{') {
      var n := IndexOf(s[i..], if s[i] == '[' then ']' else '}');
      end := if n == |s| - i then |s| else i + n + 1;
    } else {
      end := i + IndexOfSeparator(s[i..]);
    }
  }

  lemma Slices(s: string, i: nat, eq: nat, end: nat)
    requires i <= eq < end <= |s|
    ensures s[i..][..eq - i] == s[i..eq] && s[i..][eq - i + 1..] == s[eq + 1..]
    ensures s[eq + 1..][..end - (eq + 1)] == s[eq + 1..end] && s[eq + 1..][end - (eq + 1)..] == s[end..]
  {
  }

  /** The definition of `Next`, its parts named. */
  lemma NextIs(t: string, eq: nat, key: string, u: string, n: nat, value: string, w: string, rest: string)
    requires eq == IndexOf(t, '=') < |t| && key == Trim(t[..eq], JsSpace) && u == t[eq + 1..]
    requires n == ValueLength(u) && value == u[..n] && w == u[n..] && rest == SkipSeparator(w)
    ensures Next(t) == Found(Param(key, value), rest)
  {
    hide IndexOf, Trim, ValueLength, SkipSeparator;
  }

  lemma NoMoreRounds(t: string)
    requires IndexOf(t, '=') == |t|
    ensures Next(t) == Done
  {
  }

  /** One round of the scan from `i` on, and where the next one starts. */
  method TakeParam(s: string, i: nat) returns (p: Option<Param>, next: nat)
    requires i <= |s|
    ensures p.None? ==> Next(s[i..]) == Done
    ensures p.Some? ==> i < next <= |s| && Next(s[i..]) == Found(p.value, s[next..])
  {
    var eq := i + IndexOf(s[i..], '=');
    if eq == |s| {
      NoMoreRounds(s[i..]);
      return None, i;
    }
    var key := Trim(s[i..eq], JsSpace);
    var end := TakeValue(s, eq + 1);
    var value := s[eq + 1..end];
    next := SkipToNext(s, end);
    Slices(s, i, eq, end);
    NextIs(s[i..], eq - i, key, s[eq + 1..], end - (eq + 1), value, s[end..], s[next..]);
    p := Some(Param(key, value));
  }

  lemma MoveOne(done: seq<Param>, p: Param, rest: seq<Param>)
    ensures done + ([p] + rest) == done + [p] + rest
  {
  }

  lemma NothingLeft(done: seq<Param>)
    ensures done + [] == done
  {
  }

  method ParseParams(s: string) returns (result: seq<Param>)
    ensures result == Params(s)
  {
    result := [];
    var i := 0;
    ghost var todo := Params(s);
    while i < |s|
      invariant i <= |s| && todo == Params(s[i..]) && result + todo == Params(s)
    {
      var p, next := TakeParam(s, i);
      if p.None? {
        NothingLeft(result);
        return;
      }
      todo := Params(s[next..]);
      MoveOne(result, p.value, todo);
      result := result + [p.value];
      i := next;
    }
    NothingLeft(result);
  }
}
