/** JSON values. An object lists its fields in key order, the order in which every encoder of the
    program (`sort_keys=True`) writes them. Integers are unbounded; any other number is kept as the
    text its encoder prints. */
module JsonTree {

  datatype Json =
    | Null
    | Bool(b: bool)
    | Int(n: int)
    | Dec(text: string)
    | Str(s: string)
    | Arr(items: seq<Json>)
    | Obj(fields: seq<Field>)

  datatype Field = Field(key: string, value: Json)

  predicate IsDigit(c: char) { '0' <= c <= '9' }

  /** Leading decimal digits. */
  function SkipDigits(s: string): (r: string)
    ensures |r| <= |s|
  {
    if s != [] && IsDigit(s[0]) then SkipDigits(s[1..]) else s
  }

  /** The integer part of a number, section 6 of RFC 8259: no superfluous leading zero. */
  function SkipInteger(s: string): (r: string)
    ensures |r| <= |s|
  {
    var t := if s != [] && s[0] == '-' then s[1..] else s;
    if t != [] && t[0] == '0' then t[1..] else SkipDigits(t)
  }

  predicate HasInteger(s: string) {
    var t := if s != [] && s[0] == '-' then s[1..] else s;
    t != [] && IsDigit(t[0])
  }

  function SkipFraction(s: string): (r: string) {
    if |s| >= 2 && s[0] == '.' && IsDigit(s[1]) then SkipDigits(s[1..]) else s
  }

  function SkipExponent(s: string): (r: string) {
    if |s| >= 2 && s[0] in "eE" && IsDigit(s[1]) then SkipDigits(s[1..])
    else if |s| >= 3 && s[0] in "eE" && s[1] in "+-" && IsDigit(s[2]) then SkipDigits(s[2..])
    else s
  }

  predicate IsInteger(s: string) { HasInteger(s) && SkipInteger(s) == [] }

  /** A number with a fraction or an exponent. */
  predicate IsDecimal(s: string) {
    HasInteger(s) && SkipInteger(s) != [] && SkipExponent(SkipFraction(SkipInteger(s))) == []
  }

  // ----- decimal digits of an integer -----

  function DigitChar(d: nat): char
    requires d < 10
  {
    "0123456789"[d]
  }

  function Digits(n: nat): (r: string)
    ensures r != [] && (forall i :: 0 <= i < |r| ==> IsDigit(r[i]))
    ensures r[0] == '0' ==> n == 0 && |r| == 1
  {
    if n < 10 then [DigitChar(n)] else Digits(n / 10) + [DigitChar(n % 10)]
  }

  function IntText(n: int): (r: string)
    ensures r != []
  {
    if n >= 0 then Digits(n) else "-" + Digits(-n)
  }
}
