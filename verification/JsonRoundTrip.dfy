/** Decoding undoes encoding, for strings, numbers and whole values. */
module JsonRoundTrip {
  import opened JsonTree
  import opened JsonText

  // ----- strings -----

  lemma HexRound(d: nat)
    requires d < 16
    ensures IsHex(HexDigit(d)) && HexValue(HexDigit(d)) == d
  {
    if d < 8 {
      assert d == 0 || d == 1 || d == 2 || d == 3 || d == 4 || d == 5 || d == 6 || d == 7;
    } else {
      assert d == 8 || d == 9 || d == 10 || d == 11 || d == 12 || d == 13 || d == 14 || d == 15;
    }
  }

  lemma HexDigitsOf(n: nat)
    requires n < 0x10000
    ensures n / 4096 * 4096 + n / 256 % 16 * 256 + n / 16 % 16 * 16 + n % 16 == n
  {
    var a, b, c := n / 16, n / 256, n / 4096;
    assert n == a * 16 + n % 16;
    assert b == a / 16 && a == b * 16 + a % 16;
    assert c == b / 16 && b == c * 16 + b % 16;
  }

  lemma UnitRound(n: nat, rest: string)
    requires n < 0x10000
    ensures UnitAt(UnitText(n) + rest) == n
  {
    HexRound(n / 4096);
    HexRound(n / 256 % 16);
    HexRound(n / 16 % 16);
    HexRound(n % 16);
    HexDigitsOf(n);
  }

  lemma CharRound(c: char, rest: string)
    ensures ScanChar(EncodeChar(c) + rest) == Char(c, |EncodeChar(c)|)
  {
    if ShortEscape(c) != ' ' {
      ShortRound(c, rest);
    } else if ' ' <= c <= '~' {
      assert (EncodeChar(c) + rest)[0] == c;
    } else {
      LongRound(c, rest);
    }
  }

  lemma ShortRound(c: char, rest: string)
    requires ShortEscape(c) != ' '
    ensures ScanChar(['\\', ShortEscape(c)] + rest) == Char(c, 2)
  {
  }

  lemma EscapeScans(s: string)
    requires |s| >= 2 && s[0] == '\\' && s[1] == 'u'
    ensures ScanChar(s) == UnicodeEscapeAt(s)
  {
  }

  lemma LongRound(c: char, rest: string)
    requires ShortEscape(c) == ' ' && !(' ' <= c <= '~')
    ensures ScanChar(EncodeChar(c) + rest) == Char(c, |EncodeChar(c)|)
  {
    if c < '\U{10000}' {
      UnitRound(c as int, rest);
      EscapeScans(UnitText(c as int) + rest);
    } else {
      PairRound(c as int - 0x10000, rest);
      PairStarts(c as int - 0x10000);
      EscapeScans(SurrogatePair(c as int - 0x10000) + rest);
    }
  }

  lemma PairDecodes(s: string, h: nat, l: nat)
    requires h < 1024 && l < 1024 && UnitAt(s) == 0xD800 + h && UnitAt(s[6..]) == 0xDC00 + l
    ensures UnicodeEscapeAt(s) == Char((0x10000 + h * 1024 + l) as char, 12)
  {
  }

  /** A character beyond the basic plane is written as a surrogate pair and read back as one. */
  lemma PairRound(n: nat, rest: string)
    requires n < 0x100000
    ensures UnicodeEscapeAt(SurrogatePair(n) + rest) == Char((0x10000 + n) as char, 12)
  {
    UnitsRound(n / 1024, n % 1024, rest);
    PairDecodes(SurrogatePair(n) + rest, n / 1024, n % 1024);
  }

  lemma PairStarts(n: nat)
    requires n < 0x100000
    ensures SurrogatePair(n)[0] == '\\' && SurrogatePair(n)[1] == 'u'
  {
    assert UnitText(0xD800 + n / 1024)[0] == '\\' && UnitText(0xD800 + n / 1024)[1] == 'u';
  }

  lemma UnitsRound(h: nat, l: nat, rest: string)
    requires h < 1024 && l < 1024
    ensures var s := UnitText(0xD800 + h) + UnitText(0xDC00 + l) + rest;
            UnitAt(s) == 0xD800 + h && UnitAt(s[6..]) == 0xDC00 + l
  {
    var high, low := UnitText(0xD800 + h), UnitText(0xDC00 + l);
    assert high + low + rest == high + (low + rest);
    UnitRound(0xD800 + h, low + rest);
    assert (high + low + rest)[6..] == low + rest;
    UnitRound(0xDC00 + l, rest);
  }

  lemma CharsStep(c: char, tail: string, text: string, rest: string)
    requires ParseChars(tail) == Ok(text, rest)
    ensures ParseChars(EncodeChar(c) + tail) == Ok([c] + text, rest)
  {
    var head := EncodeChar(c);
    CharRound(c, tail);
    assert (head + tail)[|head|..] == tail;
  }

  lemma {:induction false} CharsRound(s: string, rest: string)
    ensures ParseChars(EncodeChars(s) + "\"" + rest) == Ok(s, rest)
  {
    if s == [] {
      assert EncodeChars(s) + "\"" + rest == "\"" + rest;
      assert ("\"" + rest)[1..] == rest;
    } else {
      CharsRound(s[1..], rest);
      CharsStep(s[0], EncodeChars(s[1..]) + "\"" + rest, s[1..], rest);
      Reassociate(EncodeChar(s[0]), EncodeChars(s[1..]), "\"", rest);
      assert s == [s[0]] + s[1..];
    }
  }

  lemma Reassociate(a: string, b: string, c: string, d: string)
    ensures a + b + c + d == a + (b + c + d)
  {
  }

  // ----- numbers -----

  ghost predicate AllNumber(s: string) { forall i :: 0 <= i < |s| ==> NumberChar(s[i]) }

  /** A number ends where the text ends or another character follows. */
  predicate Stops(rest: string) { rest == [] || !NumberChar(rest[0]) }

  lemma {:induction false} RunRound(t: string, rest: string)
    requires AllNumber(t) && Stops(rest)
    ensures NumberRun(t + rest) == t
  {
    if t == [] {
      assert t + rest == rest;
    } else {
      assert (t + rest)[1..] == t[1..] + rest;
      RunRound(t[1..], rest);
    }
  }

  lemma DigitRound(d: nat)
    requires d < 10
    ensures IsDigit(DigitChar(d)) && DigitValue(DigitChar(d)) == d
  {
    if d < 5 {
      assert d == 0 || d == 1 || d == 2 || d == 3 || d == 4;
    } else {
      assert d == 5 || d == 6 || d == 7 || d == 8 || d == 9;
    }
  }

  lemma {:induction false} DigitsRound(n: nat)
    ensures DigitsValue(Digits(n)) == n
  {
    if n < 10 {
      DigitRound(n);
      assert Digits(n)[..0] == [];
    } else {
      DigitsRound(n / 10);
      DigitRound(n % 10);
      assert Digits(n)[..|Digits(n)| - 1] == Digits(n / 10);
    }
  }

  lemma IntTextRound(n: int)
    ensures AllNumber(IntText(n)) && IsInteger(IntText(n)) && IntValue(IntText(n)) == n
  {
    var d := Digits(if n >= 0 then n else -n);
    SkipDigitsAll(d);
    DigitsRound(if n >= 0 then n else -n);
    if n < 0 { assert IntText(n)[1..] == d; }
  }

  lemma {:induction false} DigitsAreNumber(s: string)
    requires AllNumber(SkipDigits(s))
    ensures AllNumber(s)
  {
    if s != [] && IsDigit(s[0]) {
      DigitsAreNumber(s[1..]);
      assert s == [s[0]] + s[1..];
    }
  }

  lemma TailIsNumber(s: string, n: nat)
    requires n <= |s| && AllNumber(s[n..]) && forall i :: 0 <= i < n ==> NumberChar(s[i])
    ensures AllNumber(s)
  {
    forall i | 0 <= i < |s| ensures NumberChar(s[i]) {
      if i >= n { assert s[n..][i - n] == s[i]; }
    }
  }

  lemma DecimalIsNumber(s: string)
    requires IsDecimal(s)
    ensures AllNumber(s)
  {
    var a := SkipInteger(s);
    var b := SkipFraction(a);
    assert AllNumber(b) by {
      if |b| >= 2 && b[0] in "eE" && IsDigit(b[1]) {
        DigitsAreNumber(b[1..]);
        TailIsNumber(b, 1);
      } else if |b| >= 3 && b[0] in "eE" && b[1] in "+-" && IsDigit(b[2]) {
        DigitsAreNumber(b[2..]);
        TailIsNumber(b, 2);
      }
    }
    assert AllNumber(a) by {
      if b != a {
        DigitsAreNumber(a[1..]);
        TailIsNumber(a, 1);
      }
    }
    IntegerIsNumber(s);
  }

  lemma IntegerIsNumber(s: string)
    requires HasInteger(s) && AllNumber(SkipInteger(s))
    ensures AllNumber(s)
  {
    var t := Unsigned(s);
    if t[0] == '0' { TailIsNumber(t, 1); } else { DigitsAreNumber(t); }
    if t != s { TailIsNumber(s, 1); }
  }

  lemma NumberDispatch(s: string)
    requires s != [] && NumberChar(s[0]) && !StartsWith(s, "-Infinity")
    ensures ParseScalar(s) == ParseNumber(s)
  {
    NotWord(s, "null");
    NotWord(s, "true");
    NotWord(s, "false");
    NotWord(s, "NaN");
    NotWord(s, "Infinity");
  }

  lemma NotWord(s: string, w: string)
    requires s != [] && w != [] && s[0] != w[0]
    ensures !StartsWith(s, w)
  {
  }

  lemma NumberRound(v: Json, gap: string, rest: string)
    requires (v.Int? || v.Dec?) && Encodable(v) && Stops(rest)
    ensures ParseValue(Encode(v, gap) + rest) == Ok(v, rest)
  {
    var t := Encode(v, gap);
    if v.Int? { IntTextRound(v.n); } else { DecimalIsNumber(v.text); }
    RunRound(t, rest);
    var all := t + rest;
    assert all[|t|..] == rest;
    assert HasInteger(t) && NumberChar(t[0]) && all[0] == t[0] && (t[0] == '-' ==> all[1] == t[1]);
    NumberDispatch(all);
    assert ParseValue(all) == ParseScalar(all);
  }

  // ----- shapes of encoded containers -----

  lemma Chain(head: string, gap: string, more: string, close: string, rest: string)
    ensures head + ("," + gap + more) + close + rest == head + ("," + (gap + (more + close + rest)))
  {
    assert "," + gap + more + (close + rest) == "," + (gap + (more + close + rest));
  }

  lemma ItemsShape(items: seq<Json>, gap: string, rest: string)
    requires items != []
    ensures EncodeItems(items, gap) + "]" + rest
         == Encode(items[0], gap)
          + (if |items| == 1 then "]" + rest else "," + (gap + (EncodeItems(items[1..], gap) + "]" + rest)))
  {
    if |items| > 1 { Chain(Encode(items[0], gap), gap, EncodeItems(items[1..], gap), "]", rest); }
  }

  lemma FieldsShape(fields: seq<Field>, gap: string, rest: string)
    requires fields != []
    ensures EncodeFields(fields, gap) + "}" + rest
         == EncodeField(fields[0], gap)
          + (if |fields| == 1 then "}" + rest else "," + (gap + (EncodeFields(fields[1..], gap) + "}" + rest)))
  {
    if |fields| > 1 { Chain(EncodeField(fields[0], gap), gap, EncodeFields(fields[1..], gap), "}", rest); }
  }

  lemma QuoteChain(chars: string, gap: string, value: string, rest: string)
    ensures ("\"" + chars + "\"") + ":" + gap + value + rest
         == "\"" + (chars + "\"" + (":" + (gap + (value + rest))))
  {
    assert chars + "\"" + ":" + gap + value + rest == chars + "\"" + (":" + (gap + (value + rest)));
  }

  // ----- values -----

  lemma SkipGap(gap: string, s: string)
    requires Gap(gap) && s != [] && !IsSpace(s[0])
    ensures Skip(gap + s) == s
  {
    if gap == "" { assert gap + s == s; } else { assert (gap + s)[1..] == s; }
  }

  /** An encoded value starts with a visible character. */
  lemma EncodeStarts(v: Json, gap: string)
    requires Encodable(v)
    ensures Encode(v, gap) != [] && !IsSpace(Encode(v, gap)[0]) && Encode(v, gap)[0] !in "]}"
  {
    if v.Int? { IntTextRound(v.n); } else if v.Dec? { DecimalIsNumber(v.text); }
    assert v.Int? || v.Dec? ==> NumberChar(Encode(v, gap)[0]);
  }

  /** Decoding an encoded value gives it back, whatever follows. */
  lemma {:induction false} ValueRound(v: Json, gap: string, rest: string)
    requires Encodable(v) && Gap(gap) && Stops(rest)
    ensures ParseValue(Encode(v, gap) + rest) == Ok(v, rest)
    decreases v
  {
    match v
    case Str(s) => StringRound(s, gap, rest);
    case Arr(items) => ArrayRound(items, gap, rest);
    case Obj(fields) => ObjectRound(fields, gap, rest);
    case Null => WordRound(v, gap, rest);
    case Bool(_) => WordRound(v, gap, rest);
    case _ => NumberRound(v, gap, rest);
  }

  lemma StringStep(chars: string, s: string, rest: string)
    requires ParseChars(chars) == Ok(s, rest)
    ensures ParseValue("\"" + chars) == Ok(Str(s), rest)
  {
    assert ("\"" + chars)[1..] == chars;
  }

  lemma StringRound(s: string, gap: string, rest: string)
    ensures ParseValue(Encode(Str(s), gap) + rest) == Ok(Str(s), rest)
  {
    CharsRound(s, rest);
    StringStep(EncodeChars(s) + "\"" + rest, s, rest);
    QuotedShape(EncodeChars(s), rest);
  }

  lemma QuotedShape(chars: string, rest: string)
    ensures "\"" + chars + "\"" + rest == "\"" + (chars + "\"" + rest)
  {
  }

  lemma WordRound(v: Json, gap: string, rest: string)
    requires v.Null? || v.Bool?
    ensures ParseValue(Encode(v, gap) + rest) == Ok(v, rest)
  {
    var w := Encode(v, gap);
    var t := w + rest;
    assert t[|w|..] == rest && t[0] == w[0] && StartsWith(t, w);
    if v.Bool? {
      NotWord(t, "null");
      if !v.b { NotWord(t, "true"); }
    }
    assert ParseValue(t) == ParseScalar(t);
  }

  lemma {:induction false} ArrayRound(items: seq<Json>, gap: string, rest: string)
    requires Encodable(Arr(items)) && Gap(gap)
    ensures ParseValue(Encode(Arr(items), gap) + rest) == Ok(Arr(items), rest)
    decreases items, 1
  {
    var t := Encode(Arr(items), gap) + rest;
    var body := EncodeItems(items, gap) + "]" + rest;
    assert t[0] == '[' && t[1..] == body;
    if items == [] {
      assert body == "]" + rest && Skip(body) == body && body[1..] == rest;
    } else {
      EncodeStarts(items[0], gap);
      assert body[0] == Encode(items[0], gap)[0];
      ItemsRound(items, gap, rest);
      assert Skip(body) == body;
    }
  }

  lemma ItemsStep(s: string, value: Json, after: string)
    requires ParseValue(s) == Ok(value, after) && after != [] && !IsSpace(after[0])
    ensures after[0] == ']' ==> ParseItems(s) == Ok([value], after[1..])
    ensures after[0] == ',' && ParseItems(Skip(after[1..])).Ok? ==>
      ParseItems(s) == Ok([value] + ParseItems(Skip(after[1..])).value, ParseItems(Skip(after[1..])).rest)
  {
  }

  lemma {:induction false} ItemsRound(items: seq<Json>, gap: string, rest: string)
    requires items != [] && (forall i :: 0 <= i < |items| ==> Encodable(items[i])) && Gap(gap)
    ensures ParseItems(EncodeItems(items, gap) + "]" + rest) == Ok(items, rest)
    decreases items, 0
  {
    ItemsShape(items, gap, rest);
    if |items| == 1 {
      ValueRound(items[0], gap, "]" + rest);
      ItemsLast(Encode(items[0], gap), items[0], rest);
      assert [items[0]] == items;
    } else {
      ItemsRound(items[1..], gap, rest);
      ValueRound(items[0], gap, "," + (gap + (EncodeItems(items[1..], gap) + "]" + rest)));
      ItemsJoin(items, gap, rest);
    }
  }

  lemma ItemsJoin(items: seq<Json>, gap: string, rest: string)
    requires |items| > 1 && Encodable(items[1]) && Gap(gap)
    requires var more := EncodeItems(items[1..], gap) + "]" + rest;
             && ParseItems(more) == Ok(items[1..], rest)
             && ParseValue(Encode(items[0], gap) + ("," + (gap + more))) == Ok(items[0], "," + (gap + more))
    ensures var more := EncodeItems(items[1..], gap) + "]" + rest;
            ParseItems(Encode(items[0], gap) + ("," + (gap + more))) == Ok(items, rest)
  {
    ItemsStart(items[1..], gap, rest);
    ItemsCons(Encode(items[0], gap), items[0], items[1..], gap, EncodeItems(items[1..], gap) + "]" + rest, rest);
    assert [items[0]] + items[1..] == items;
  }

  lemma ItemsLast(text: string, v: Json, rest: string)
    requires ParseValue(text + ("]" + rest)) == Ok(v, "]" + rest)
    ensures ParseItems(text + ("]" + rest)) == Ok([v], rest)
  {
    ItemsStep(text + ("]" + rest), v, "]" + rest);
    assert ("]" + rest)[1..] == rest;
  }

  lemma ItemsStart(items: seq<Json>, gap: string, rest: string)
    requires items != [] && Encodable(items[0])
    ensures var t := EncodeItems(items, gap) + "]" + rest; !IsSpace(t[0])
  {
    EncodeStarts(items[0], gap);
    assert EncodeItems(items, gap)[0] == Encode(items[0], gap)[0];
  }

  lemma ItemsCons(text: string, v: Json, items: seq<Json>, gap: string, more: string, rest: string)
    requires more != [] && !IsSpace(more[0]) && ParseItems(more) == Ok(items, rest) && Gap(gap)
    requires ParseValue(text + ("," + (gap + more))) == Ok(v, "," + (gap + more))
    ensures ParseItems(text + ("," + (gap + more))) == Ok([v] + items, rest)
  {
    var tail := "," + (gap + more);
    SkipGap(gap, more);
    assert tail[1..] == gap + more;
    ItemsStep(text + tail, v, tail);
  }

  lemma {:induction false} ObjectRound(fields: seq<Field>, gap: string, rest: string)
    requires Encodable(Obj(fields)) && Gap(gap)
    ensures ParseValue(Encode(Obj(fields), gap) + rest) == Ok(Obj(fields), rest)
    decreases fields, 1
  {
    var t := Encode(Obj(fields), gap) + rest;
    var body := EncodeFields(fields, gap) + "}" + rest;
    assert t[0] == '{' && t[1..] == body;
    if fields == [] {
      assert body == "}" + rest && Skip(body) == body && body[1..] == rest;
    } else {
      FieldsStart(fields, gap, "}" + rest);
      assert body == EncodeFields(fields, gap) + ("}" + rest);
      FieldsRound(fields, gap, rest);
      assert Skip(body) == body;
    }
  }

  lemma FieldStep(s: string, key: string, colon: string, value: Json, rest: string)
    requires s != [] && s[0] == '"' && ParseChars(s[1..]) == Ok(key, colon)
    requires colon != [] && colon[0] == ':' && ParseValue(Skip(colon[1..])) == Ok(value, rest)
    ensures ParseField(s) == Ok(Field(key, value), rest)
  {
  }

  lemma {:induction false} FieldRound(f: Field, gap: string, rest: string)
    requires Encodable(f.value) && Gap(gap) && Stops(rest)
    ensures ParseField(EncodeField(f, gap) + rest) == Ok(f, rest)
    decreases f
  {
    var value := Encode(f.value, gap) + rest;
    var colon := ":" + (gap + value);
    var t := "\"" + (EncodeChars(f.key) + "\"" + colon);
    QuoteChain(EncodeChars(f.key), gap, Encode(f.value, gap), rest);
    CharsRound(f.key, colon);
    ValueRound(f.value, gap, rest);
    EncodeStarts(f.value, gap);
    assert value[0] == Encode(f.value, gap)[0];
    SkipGap(gap, value);
    assert colon[1..] == gap + value && t[1..] == EncodeChars(f.key) + "\"" + colon;
    FieldStep(t, f.key, colon, f.value, rest);
  }

  lemma FieldsStep(s: string, field: Field, after: string)
    requires ParseField(s) == Ok(field, after) && after != [] && !IsSpace(after[0])
    ensures after[0] == '}' ==> ParseFields(s) == Ok([field], after[1..])
    ensures after[0] == ',' && ParseFields(Skip(after[1..])).Ok? ==>
      ParseFields(s) == Ok([field] + ParseFields(Skip(after[1..])).value, ParseFields(Skip(after[1..])).rest)
  {
  }

  lemma FieldsStart(fields: seq<Field>, gap: string, rest: string)
    requires fields != []
    ensures EncodeFields(fields, gap) != [] && (EncodeFields(fields, gap) + rest)[0] == '"'
  {
    assert Quoted(fields[0].key)[0] == '"';
    assert EncodeField(fields[0], gap)[0] == '"';
    assert EncodeFields(fields, gap)[0] == '"';
  }

  lemma FieldsCons(f: Field, fields: seq<Field>, gap: string, more: string, rest: string)
    requires more != [] && more[0] == '"' && ParseFields(more) == Ok(fields, rest) && Gap(gap)
    requires ParseField(EncodeField(f, gap) + ("," + (gap + more))) == Ok(f, "," + (gap + more))
    ensures ParseFields(EncodeField(f, gap) + ("," + (gap + more))) == Ok([f] + fields, rest)
  {
    var tail := "," + (gap + more);
    SkipGap(gap, more);
    assert tail[1..] == gap + more;
    FieldsStep(EncodeField(f, gap) + tail, f, tail);
  }

  lemma {:induction false} FieldsRound(fields: seq<Field>, gap: string, rest: string)
    requires fields != [] && (forall i :: 0 <= i < |fields| ==> Encodable(fields[i].value)) && Gap(gap)
    ensures ParseFields(EncodeFields(fields, gap) + "}" + rest) == Ok(fields, rest)
    decreases fields, 0
  {
    var f := fields[0];
    var head := EncodeField(f, gap);
    FieldsShape(fields, gap, rest);
    if |fields| == 1 {
      var tail := "}" + rest;
      FieldRound(f, gap, tail);
      FieldsStep(head + tail, f, tail);
      assert tail[1..] == rest && [f] == fields;
    } else {
      var more := EncodeFields(fields[1..], gap) + "}" + rest;
      FieldsRound(fields[1..], gap, rest);
      FieldsStart(fields[1..], gap, "}");
      FieldRound(f, gap, "," + (gap + more));
      FieldsCons(f, fields[1..], gap, more, rest);
      assert [f] + fields[1..] == fields;
    }
  }
}
