/** JSON texts: the ASCII encoder used for checkpoint records and the strict decoder that reads them
    back, after the grammar of RFC 8259. */
module JsonText {
  import opened JsonTree

  // ----- strings -----

  predicate Printable(s: string) { forall i :: 0 <= i < |s| ==> ' ' <= s[i] <= '~' }

  function HexDigit(d: nat): (r: char)
    requires d < 16
    ensures ' ' <= r <= '~'
  {
    "0123456789abcdef"[d]
  }

  predicate IsHex(c: char) { '0' <= c <= '9' || 'a' <= c <= 'f' || 'A' <= c <= 'F' }

  function HexValue(c: char): (r: nat)
    requires IsHex(c)
    ensures r < 16
  {
    if '0' <= c <= '9' then c as int - '0' as int
    else if 'a' <= c <= 'f' then c as int - 'a' as int + 10
    else c as int - 'A' as int + 10
  }

  /** A UTF-16 code unit as a six-character escape. */
  function UnitText(n: nat): (r: string)
    requires n < 0x10000
    ensures |r| == 6 && Printable(r)
  {
    ['\\', 'u', HexDigit(n / 4096), HexDigit(n / 256 % 16), HexDigit(n / 16 % 16), HexDigit(n % 16)]
  }

  /** A character beyond the basic plane, by its offset, as two escapes. */
  function SurrogatePair(n: nat): (r: string)
    requires n < 0x100000
    ensures |r| == 12 && Printable(r)
  {
    UnitText(0xD800 + n / 1024) + UnitText(0xDC00 + n % 1024)
  }

  function UnitAt(s: string): (r: int)
    ensures r == -1 || (0 <= r < 0x10000 && |s| >= 6)
  {
    if |s| >= 6 && s[0] == '\\' && s[1] == 'u' && IsHex(s[2]) && IsHex(s[3]) && IsHex(s[4]) && IsHex(s[5])
    then HexValue(s[2]) * 4096 + HexValue(s[3]) * 256 + HexValue(s[4]) * 16 + HexValue(s[5])
    else -1
  }

  function ShortEscape(c: char): (r: char)
    ensures r == ' ' || r in "\"\\nrtfb"
  {
    if c == '"' then '"' else if c == '\\' then '\\' else if c == '\n' then 'n' else if c == '\r' then 'r'
    else if c == '\t' then 't' else if c == '\U{0C}' then 'f' else if c == '\U{08}' then 'b' else ' '
  }

  function EncodeChar(c: char): (r: string)
    ensures r != [] && Printable(r)
  {
    if ShortEscape(c) != ' ' then ['\\', ShortEscape(c)]
    else if ' ' <= c <= '~' then [c]
    else if c < '\U{10000}' then UnitText(c as int)
    else SurrogatePair(c as int - 0x10000)
  }

  function EncodeChars(s: string): string {
    if s == [] then [] else EncodeChar(s[0]) + EncodeChars(s[1..])
  }

  function Quoted(s: string): string { "\"" + EncodeChars(s) + "\"" }

  /** The next character inside a string literal and how much text it takes. */
  datatype Scanned = EndQuote | Broken | Char(c: char, width: nat)

  function EscapeAt(s: string): (r: Scanned)
    requires s != [] && s[0] == '\\'
    ensures r.Char? ==> 2 <= r.width <= |s|
  {
    if |s| < 2 then Broken
    else if s[1] == '"' || s[1] == '\\' || s[1] == '/' then Char(s[1], 2)
    else if s[1] == 'n' then Char('\n', 2) else if s[1] == 'r' then Char('\r', 2)
    else if s[1] == 't' then Char('\t', 2) else if s[1] == 'f' then Char('\U{0C}', 2)
    else if s[1] == 'b' then Char('\U{08}', 2)
    else UnicodeEscapeAt(s)
  }

  function UnicodeEscapeAt(s: string): (r: Scanned)
    ensures r.Char? ==> 6 <= r.width <= |s|
  {
    var u := UnitAt(s);
    if u == -1 then Broken
    else if u < 0xD800 || 0xE000 <= u then Char(u as char, 6)
    else
      var l := UnitAt(s[6..]);
      if u < 0xDC00 && 0xDC00 <= l < 0xE000
      then Char((0x10000 + (u - 0xD800) * 1024 + (l - 0xDC00)) as char, 12)
      else Broken
  }

  function ScanChar(s: string): (r: Scanned)
    ensures r.Char? ==> 1 <= r.width <= |s|
    ensures r.EndQuote? ==> s != []
  {
    if s == [] || s[0] < ' ' then Broken
    else if s[0] == '"' then EndQuote
    else if s[0] == '\\' then EscapeAt(s)
    else Char(s[0], 1)
  }

  // ----- results -----

  /** `Malformed` is a syntax error; `Refused` a well-formed text the strict decoder rejects all the
      same: a repeated key or a number that is not finite. */
  datatype Parsed<T> = Ok(value: T, rest: string) | Malformed | Refused

  /** Reads up to the closing quote. */
  function ParseChars(s: string): (r: Parsed<string>)
    ensures r.Ok? ==> |r.rest| < |s|
    ensures !r.Refused?
    decreases |s|
  {
    match ScanChar(s)
    case Broken => Malformed
    case EndQuote => Ok([], s[1..])
    case Char(c, width) =>
      var tail := ParseChars(s[width..]);
      if tail.Ok? then Ok([c] + tail.value, tail.rest) else Malformed
  }

  // ----- numbers -----

  predicate NumberChar(c: char) { IsDigit(c) || c == '-' || c == '+' || c == '.' || c == 'e' || c == 'E' }

  /** The longest run of number characters. */
  function NumberRun(s: string): (r: string)
    ensures |r| <= |s|
  {
    if s != [] && NumberChar(s[0]) then [s[0]] + NumberRun(s[1..]) else []
  }

  predicate AllDigits(s: string) { forall i :: 0 <= i < |s| ==> IsDigit(s[i]) }

  function DigitValue(c: char): nat
    requires IsDigit(c)
  {
    c as int - '0' as int
  }

  function DigitsValue(s: string): nat
    requires AllDigits(s)
  {
    if s == [] then 0 else DigitsValue(s[..|s| - 1]) * 10 + DigitValue(s[|s| - 1])
  }

  lemma {:induction false} SkipDigitsAll(s: string)
    ensures SkipDigits(s) == [] <==> AllDigits(s)
  {
    if s != [] { SkipDigitsAll(s[1..]); }
  }

  function Unsigned(s: string): string { if s != [] && s[0] == '-' then s[1..] else s }

  lemma IntegerDigits(s: string)
    requires IsInteger(s)
    ensures AllDigits(Unsigned(s))
  {
    var t := Unsigned(s);
    if t[0] != '0' { SkipDigitsAll(t); }
  }

  function IntValue(s: string): int
    requires IsInteger(s)
  {
    IntegerDigits(s);
    if s[0] == '-' then -(DigitsValue(s[1..]) as int) else DigitsValue(s)
  }

  function ParseNumber(s: string): (r: Parsed<Json>)
    ensures r.Ok? ==> |r.rest| < |s|
    ensures !r.Refused?
  {
    var run := NumberRun(s);
    if IsInteger(run) then Ok(Int(IntValue(run)), s[|run|..])
    else if IsDecimal(run) then Ok(Dec(run), s[|run|..])
    else Malformed
  }

  // ----- values -----

  predicate IsSpace(c: char) { c == ' ' || c == '\t' || c == '\n' || c == '\r' }

  function Skip(s: string): (r: string)
    ensures |r| <= |s|
    ensures r != [] ==> !IsSpace(r[0])
  {
    if s != [] && IsSpace(s[0]) then Skip(s[1..]) else s
  }

  predicate StartsWith(s: string, w: string) { |w| <= |s| && forall i :: 0 <= i < |w| ==> s[i] == w[i] }

  predicate NotFinite(s: string) { StartsWith(s, "NaN") || StartsWith(s, "Infinity") || StartsWith(s, "-Infinity") }

  predicate DistinctKeys(fields: seq<Field>) {
    forall i, j :: 0 <= i < j < |fields| ==> fields[i].key != fields[j].key
  }

  /** A word or a number. */
  function ParseScalar(s: string): (r: Parsed<Json>)
    ensures r.Ok? ==> |r.rest| < |s|
  {
    if StartsWith(s, "null") then Ok(Null, s[4..])
    else if StartsWith(s, "true") then Ok(Bool(true), s[4..])
    else if StartsWith(s, "false") then Ok(Bool(false), s[5..])
    else if NotFinite(s) then Refused
    else ParseNumber(s)
  }

  function ParseValue(s: string): (r: Parsed<Json>)
    ensures r.Ok? ==> |r.rest| < |s|
    decreases |s|, 1
  {
    if s == [] then Malformed
    else if s[0] == '"' then
      (match ParseChars(s[1..])
       case Ok(text, rest) => Ok(Str(text), rest)
       case _ => Malformed)
    else if s[0] == '{' then ParseObject(Skip(s[1..]))
    else if s[0] == '[' then ParseArray(Skip(s[1..]))
    else ParseScalar(s)
  }

  /** After the opening brace. */
  function ParseObject(s: string): (r: Parsed<Json>)
    ensures r.Ok? ==> |r.rest| < |s|
    decreases |s|, 4
  {
    if s != [] && s[0] == '}' then Ok(Obj([]), s[1..])
    else
      match ParseFields(s)
      case Ok(fields, rest) => if DistinctKeys(fields) then Ok(Obj(fields), rest) else Refused
      case Malformed => Malformed
      case Refused => Refused
  }

  /** A key, a colon and a value. */
  function ParseField(s: string): (r: Parsed<Field>)
    ensures r.Ok? ==> |r.rest| < |s|
    decreases |s|, 2
  {
    if s == [] || s[0] != '"' then Malformed
    else
      var key := ParseChars(s[1..]);
      if !key.Ok? then Malformed
      else
        var colon := Skip(key.rest);
        if colon == [] || colon[0] != ':' then Malformed
        else
          match ParseValue(Skip(colon[1..]))
          case Ok(value, rest) => Ok(Field(key.value, value), rest)
          case Malformed => Malformed
          case Refused => Refused
  }

  function ParseFields(s: string): (r: Parsed<seq<Field>>)
    ensures r.Ok? ==> |r.rest| < |s|
    decreases |s|, 3
  {
    match ParseField(s)
    case Malformed => Malformed
    case Refused => Refused
    case Ok(field, afterField) =>
      var next := Skip(afterField);
      if next == [] then Malformed
      else if next[0] == '}' then Ok([field], next[1..])
      else if next[0] != ',' then Malformed
      else
        match ParseFields(Skip(next[1..]))
        case Ok(fields, rest) => Ok([field] + fields, rest)
        case Malformed => Malformed
        case Refused => Refused
  }

  /** After the opening bracket. */
  function ParseArray(s: string): (r: Parsed<Json>)
    ensures r.Ok? ==> |r.rest| < |s|
    decreases |s|, 3
  {
    if s != [] && s[0] == ']' then Ok(Arr([]), s[1..])
    else
      match ParseItems(s)
      case Ok(items, rest) => Ok(Arr(items), rest)
      case Malformed => Malformed
      case Refused => Refused
  }

  function ParseItems(s: string): (r: Parsed<seq<Json>>)
    ensures r.Ok? ==> |r.rest| < |s|
    decreases |s|, 2
  {
    match ParseValue(s)
    case Malformed => Malformed
    case Refused => Refused
    case Ok(value, afterValue) =>
      var next := Skip(afterValue);
      if next == [] then Malformed
      else if next[0] == ']' then Ok([value], next[1..])
      else if next[0] != ',' then Malformed
      else
        match ParseItems(Skip(next[1..]))
        case Ok(items, rest) => Ok([value] + items, rest)
        case Malformed => Malformed
        case Refused => Refused
  }

  /** A whole text, with white space around the value. */
  function ParseText(s: string): Parsed<Json> {
    match ParseValue(Skip(s))
    case Ok(value, rest) => if Skip(rest) == [] then Ok(value, []) else Malformed
    case bad => bad
  }

  // ----- the encoder -----

  /** `gap` follows every comma and colon: empty in page records, one space in the header. */
  predicate Gap(gap: string) { gap == "" || gap == " " }

  function Encode(v: Json, gap: string): string
    decreases v
  {
    match v
    case Null => "null"
    case Bool(b) => if b then "true" else "false"
    case Int(n) => IntText(n)
    case Dec(text) => text
    case Str(s) => Quoted(s)
    case Arr(items) => "[" + EncodeItems(items, gap) + "]"
    case Obj(fields) => "{" + EncodeFields(fields, gap) + "}"
  }

  function EncodeItems(items: seq<Json>, gap: string): string
    decreases items
  {
    if items == [] then ""
    else Encode(items[0], gap) + (if |items| == 1 then "" else "," + gap + EncodeItems(items[1..], gap))
  }

  function EncodeField(f: Field, gap: string): string
    decreases f
  {
    Quoted(f.key) + ":" + gap + Encode(f.value, gap)
  }

  function EncodeFields(fields: seq<Field>, gap: string): string
    decreases fields
  {
    if fields == [] then ""
    else EncodeField(fields[0], gap) + (if |fields| == 1 then "" else "," + gap + EncodeFields(fields[1..], gap))
  }

  /** What the encoder can print: finite numbers and dictionaries, whose keys are distinct. */
  predicate Encodable(v: Json)
    decreases v
  {
    match v
    case Dec(text) => IsDecimal(text)
    case Arr(items) => forall i :: 0 <= i < |items| ==> Encodable(items[i])
    case Obj(fields) => DistinctKeys(fields) && forall i :: 0 <= i < |fields| ==> Encodable(fields[i].value)
    case _ => true
  }
}
