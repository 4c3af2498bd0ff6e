/** The UTF-8 encoding that the size of a stored result counts: compact, keys in order, characters beyond
    ASCII written as themselves. */
module ResultBytes {
  import opened JsonTree
  import opened JsonText
  import opened MutationResult

  type Byte = b: int | 0 <= b < 256

  function Ascii(s: string): seq<Byte>
    requires Printable(s)
  {
    seq(|s|, i requires 0 <= i < |s| => s[i] as int)
  }

  /** A code point in UTF-8. */
  function Utf8(n: nat): (r: seq<Byte>)
    requires n < 0x110000
  {
    if n < 0x80 then [n]
    else if n < 0x800 then [0xC0 + n / 64, 0x80 + n % 64]
    else if n < 0x10000 then [0xE0 + n / 4096, 0x80 + n / 64 % 64, 0x80 + n % 64]
    else [0xF0 + n / 262144, 0x80 + n / 4096 % 64, 0x80 + n / 64 % 64, 0x80 + n % 64]
  }

  /** What the byte at `i` adds to its mark. */
  function Bits(r: seq<Byte>, i: nat, mark: int): int
    requires i < |r|
  {
    var b: int := r[i];
    b - mark
  }

  /** The code point those bytes stand for, by the number of bytes. */
  function Utf8Value(r: seq<Byte>): int
    requires 1 <= |r| <= 4
  {
    if |r| == 1 then Bits(r, 0, 0)
    else if |r| == 2 then Bits(r, 0, 0xC0) * 64 + Bits(r, 1, 0x80)
    else if |r| == 3 then Bits(r, 0, 0xE0) * 4096 + Bits(r, 1, 0x80) * 64 + Bits(r, 2, 0x80)
    else Bits(r, 0, 0xF0) * 262144 + Bits(r, 1, 0x80) * 4096 + Bits(r, 2, 0x80) * 64 + Bits(r, 3, 0x80)
  }

  lemma Base64Digits(n: nat)
    ensures n == n / 64 * 64 + n % 64
    ensures n == n / 4096 * 4096 + n / 64 % 64 * 64 + n % 64
    ensures n == n / 262144 * 262144 + n / 4096 % 64 * 4096 + n / 64 % 64 * 64 + n % 64
  {
    var a, b := n / 64, n / 4096;
    assert b == a / 64 && a == b * 64 + a % 64;
    assert n / 262144 == b / 64 && b == b / 64 * 64 + b % 64;
  }

  lemma Utf8Round(n: nat)
    requires n < 0x110000
    ensures Utf8Value(Utf8(n)) == n
  {
    Base64Digits(n);
  }

  /** One character inside a string: escaped if it is a quote, a backslash or a control character. */
  function CharOut(c: char): seq<Byte> {
    if ShortEscape(c) != ' ' then ['\\' as int, ShortEscape(c) as int]
    else if c < ' ' then Ascii(UnitText(c as int))
    else Utf8(c as int)
  }

  function TextOut(s: string): seq<Byte> { if s == [] then [] else CharOut(s[0]) + TextOut(s[1..]) }

  function QuotedOut(s: string): seq<Byte> { ['"' as int] + TextOut(s) + ['"' as int] }

  function NumberOut(s: string): seq<Byte> {
    seq(|s|, i requires 0 <= i < |s| => if s[i] < '\U{80}' then s[i] as int else 0)
  }

  function ValueOut(v: Json): seq<Byte>
    decreases v
  {
    match v
    case Null => Ascii("null")
    case Bool(b) => if b then Ascii("true") else Ascii("false")
    case Int(n) => NumberOut(IntText(n))
    case Dec(text) => NumberOut(text)
    case Str(s) => QuotedOut(s)
    case Arr(items) => ['[' as int] + ItemsOut(items) + [']' as int]
    case Obj(fields) => ['{' as int] + FieldsOut(fields) + ['}' as int]
  }

  function ItemsOut(items: seq<Json>): seq<Byte>
    decreases items
  {
    if items == [] then []
    else ValueOut(items[0]) + (if |items| > 1 then [',' as int] else []) + ItemsOut(items[1..])
  }

  function FieldsOut(fields: seq<Field>): seq<Byte>
    decreases fields
  {
    if fields == [] then []
    else QuotedOut(fields[0].key) + [':' as int] + ValueOut(fields[0].value)
         + (if |fields| > 1 then [',' as int] else []) + FieldsOut(fields[1..])
  }

  lemma CharLength(c: char)
    ensures |CharOut(c)| == CharBytes(c)
  {
  }

  lemma {:induction false} TextLength(s: string)
    ensures |TextOut(s)| == TextBytes(s)
  {
    if s != [] {
      CharLength(s[0]);
      TextLength(s[1..]);
    }
  }

  /** The size of a value is the number of bytes of its encoding. */
  lemma {:induction false} SizeIsLength(v: Json)
    ensures |ValueOut(v)| == Size(v)
    decreases v
  {
    match v
    case Str(s) => TextLength(s);
    case Arr(items) => ItemsLength(items);
    case Obj(fields) => FieldsLength(fields);
    case _ =>
  }

  lemma {:induction false} ItemsLength(items: seq<Json>)
    ensures |ItemsOut(items)| == ItemsSize(items)
    decreases items
  {
    if items != [] {
      SizeIsLength(items[0]);
      ItemsLength(items[1..]);
    }
  }

  lemma {:induction false} FieldsLength(fields: seq<Field>)
    ensures |FieldsOut(fields)| == FieldsSize(fields)
    decreases fields
  {
    if fields != [] {
      TextLength(fields[0].key);
      SizeIsLength(fields[0].value);
      FieldsLength(fields[1..]);
    }
  }
}
