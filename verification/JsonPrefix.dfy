/** Reading more text never changes what a decoded container was, so a text cut off before its closing
    brace cannot decode. */
module JsonPrefix {
  import opened JsonTree
  import opened JsonText
  import opened JsonRoundTrip

  /** `r'` is `r` read from a text with `t` appended. */
  ghost predicate Extends<T>(r: Parsed<T>, r': Parsed<T>, t: string) {
    && (r.Ok? ==> r' == Ok(r.value, r.rest + t))
    && (r.Refused? ==> r'.Refused?)
  }

  lemma {:induction false} SkipStable(p: string, t: string)
    requires Skip(p) != []
    ensures Skip(p + t) == Skip(p) + t
  {
    if IsSpace(p[0]) {
      assert (p + t)[1..] == p[1..] + t;
      SkipStable(p[1..], t);
    }
  }

  lemma DropStable(p: string, t: string, n: nat)
    requires n <= |p|
    ensures (p + t)[n..] == p[n..] + t
  {
  }

  lemma UnitStable(p: string, t: string)
    requires UnitAt(p) != -1
    ensures UnitAt(p + t) == UnitAt(p)
  {
  }

  lemma UnicodeStable(p: string, t: string)
    requires UnicodeEscapeAt(p).Char?
    ensures UnicodeEscapeAt(p + t) == UnicodeEscapeAt(p)
  {
    UnitStable(p, t);
    DropStable(p, t, 6);
    if UnitAt(p[6..]) != -1 { UnitStable(p[6..], t); }
  }

  lemma ScanStable(p: string, t: string)
    requires !ScanChar(p).Broken?
    ensures ScanChar(p + t) == ScanChar(p)
  {
    if p[0] == '\\' && UnicodeEscapeAt(p).Char? { UnicodeStable(p, t); }
  }

  lemma {:induction false} CharsStable(p: string, t: string)
    ensures Extends(ParseChars(p), ParseChars(p + t), t)
    decreases |p|
  {
    if !ScanChar(p).Broken? {
      ScanStable(p, t);
      var n := if ScanChar(p).Char? then ScanChar(p).width else 1;
      DropStable(p, t, n);
      if ScanChar(p).Char? { CharsStable(p[n..], t); }
    }
  }

  lemma {:induction false} RunStable(p: string, t: string)
    requires |NumberRun(p)| < |p|
    ensures NumberRun(p + t) == NumberRun(p)
  {
    if NumberChar(p[0]) {
      DropStable(p, t, 1);
      RunStable(p[1..], t);
    }
  }

  lemma RunStarts(p: string, n: nat)
    requires n < |NumberRun(p)|
    ensures n < |p| && NumberRun(p)[n] == p[n]
  {
    if n > 0 { RunStarts(p[1..], n - 1); }
  }

  lemma NumberStable(p: string, t: string)
    requires ParseNumber(p).Ok? && ParseNumber(p).rest != []
    ensures ParseNumber(p + t) == Ok(ParseNumber(p).value, ParseNumber(p).rest + t)
  {
    RunStable(p, t);
    DropStable(p, t, |NumberRun(p)|);
  }

  /** A text that decodes as a number starts like one, also when extended. */
  lemma NumberStarts(p: string, t: string)
    requires ParseNumber(p).Ok?
    ensures p != [] && NumberChar(p[0]) && !StartsWith(p + t, "-Infinity")
  {
    var run := NumberRun(p);
    assert HasInteger(run);
    RunStarts(p, 0);
    assert (p + t)[0] == run[0] && "-Infinity"[0] == '-';
    if run[0] == '-' {
      RunStarts(p, 1);
      assert (p + t)[1] != "-Infinity"[1];
    }
  }

  predicate IsNumber(v: Json) { v.Int? || v.Dec? }

  /** A decoded value that does not end the text as a number is decoded the same from any longer text. */
  ghost predicate ValueExtends(p: string, t: string) {
    var r, r' := ParseValue(p), ParseValue(p + t);
    && (r.Ok? && (r.rest != [] || !IsNumber(r.value)) ==> r' == Ok(r.value, r.rest + t))
    && (r.Refused? ==> r'.Refused?)
  }

  lemma NothingDecodes()
    ensures ParseField([]).Malformed? && ParseFields([]).Malformed? && ParseItems([]).Malformed?
    ensures ParseObject([]).Malformed? && ParseArray([]).Malformed? && ParseValue([]).Malformed?
  {
    assert ParseField([]).Malformed? && ParseValue([]).Malformed?;
    assert ParseFields([]).Malformed? && ParseItems([]).Malformed?;
  }

  lemma ScalarStable(p: string, t: string)
    requires p != [] && p[0] != '{' && p[0] != '['
    ensures ValueExtends(p, t)
  {
    if p[0] == '"' {
      DropStable(p, t, 1);
      CharsStable(p[1..], t);
    } else if StartsWith(p, "null") || StartsWith(p, "true") {
      DropStable(p, t, 4);
    } else if StartsWith(p, "false") {
      DropStable(p, t, 5);
    } else if NotFinite(p) {
      assert NotFinite(p + t);
    } else if ParseNumber(p).Ok? {
      NumberStarts(p, "");
      NumberStarts(p, t);
      NumberDispatch(p + t);
      if ParseNumber(p).rest != [] { NumberStable(p, t); }
    }
  }

  lemma {:induction false} ValueStable(p: string, t: string)
    ensures ValueExtends(p, t)
    decreases |p|, 1
  {
    NothingDecodes();
    if p != [] && (p[0] == '{' || p[0] == '[') {
      DropStable(p, t, 1);
      var body := Skip(p[1..]);
      if body != [] {
        SkipStable(p[1..], t);
        if p[0] == '{' { ObjectStable(body, t); } else { ArrayStable(body, t); }
      }
    } else if p != [] {
      ScalarStable(p, t);
    }
  }

  lemma {:induction false} ObjectStable(p: string, t: string)
    ensures Extends(ParseObject(p), ParseObject(p + t), t)
    decreases |p|, 4
  {
    if p != [] {
      if p[0] == '}' { DropStable(p, t, 1); } else { FieldsStable(p, t); }
    }
  }

  lemma {:induction false} FieldStable(p: string, t: string)
    ensures var r, r' := ParseField(p), ParseField(p + t);
            && (r.Ok? && r.rest != [] ==> r' == Ok(r.value, r.rest + t))
            && (r.Refused? ==> r'.Refused?)
    decreases |p|, 2
  {
    if p != [] && p[0] == '"' {
      DropStable(p, t, 1);
      CharsStable(p[1..], t);
      var key := ParseChars(p[1..]);
      if key.Ok? && Skip(key.rest) != [] {
        SkipStable(key.rest, t);
        var colon := Skip(key.rest);
        DropStable(colon, t, 1);
        if Skip(colon[1..]) != [] {
          SkipStable(colon[1..], t);
          ValueStable(Skip(colon[1..]), t);
        }
      }
    }
  }

  lemma {:induction false} FieldsStable(p: string, t: string)
    ensures Extends(ParseFields(p), ParseFields(p + t), t)
    decreases |p|, 3
  {
    NothingDecodes();
    FieldStable(p, t);
    var field := ParseField(p);
    if field.Ok? && Skip(field.rest) != [] {
      SkipStable(field.rest, t);
      var next := Skip(field.rest);
      DropStable(next, t, 1);
      if next[0] == ',' && Skip(next[1..]) != [] {
        SkipStable(next[1..], t);
        FieldsStable(Skip(next[1..]), t);
      }
    }
  }

  lemma {:induction false} ArrayStable(p: string, t: string)
    ensures Extends(ParseArray(p), ParseArray(p + t), t)
    decreases |p|, 4
  {
    if p != [] {
      if p[0] == ']' { DropStable(p, t, 1); } else { ItemsStable(p, t); }
    }
  }

  lemma {:induction false} ItemsStable(p: string, t: string)
    ensures Extends(ParseItems(p), ParseItems(p + t), t)
    decreases |p|, 3
  {
    NothingDecodes();
    ValueStable(p, t);
    var value := ParseValue(p);
    if value.Ok? && Skip(value.rest) != [] {
      SkipStable(value.rest, t);
      var next := Skip(value.rest);
      DropStable(next, t, 1);
      if next[0] == ',' && Skip(next[1..]) != [] {
        SkipStable(next[1..], t);
        ItemsStable(Skip(next[1..]), t);
      }
    }
  }

  // ----- consequences for records -----

  /** An encoded object decodes to itself, alone or as a line of its own. */
  lemma TextRound(v: Json, gap: string, rest: string)
    requires v.Obj? && Encodable(v) && Gap(gap) && (rest == "" || rest == "\n")
    ensures ParseText(Encode(v, gap) + rest) == Ok(v, [])
  {
    ValueRound(v, gap, rest);
    assert (Encode(v, gap) + rest)[0] == '{';
    assert rest == "\n" ==> rest[1..] == [];
  }

  /** No proper prefix of an encoded object is a JSON text, and the decoder reports a syntax error for
      it, never a refusal. */
  lemma CutObjectIsMalformed(v: Json, gap: string, n: nat)
    requires v.Obj? && Encodable(v) && Gap(gap) && n < |Encode(v, gap)|
    ensures ParseText(Encode(v, gap)[..n]) == Malformed
  {
    var whole := Encode(v, gap);
    var cut, tail := whole[..n], whole[n..];
    ValueRound(v, gap, []);
    assert cut + tail == whole && whole + [] == whole;
    if n > 0 {
      assert cut[0] == '{' && Skip(cut) == cut;
      ObjectValue(cut);
      ValueStable(cut, tail);
      assert forall r: string :: r + tail != [];
    }
  }

  lemma ObjectValue(s: string)
    requires s != [] && s[0] == '{'
    ensures ParseValue(s).Ok? ==> ParseValue(s).value.Obj?
  {
  }

  // ----- encoded text is printable -----

  lemma {:induction false} CharsPrintable(s: string)
    ensures Printable(EncodeChars(s))
  {
    if s != [] {
      CharsPrintable(s[1..]);
    }
  }

  lemma NumberPrintable(s: string)
    requires AllNumber(s)
    ensures Printable(s)
  {
  }

  /** An encoded value is one line of printable ASCII. */
  lemma {:induction false} EncodePrintable(v: Json, gap: string)
    requires Encodable(v) && Gap(gap)
    ensures Printable(Encode(v, gap))
    decreases v
  {
    match v
    case Int(n) => IntTextRound(n); NumberPrintable(IntText(n));
    case Dec(text) => DecimalIsNumber(text); NumberPrintable(text);
    case Str(s) => CharsPrintable(s); Enclosed("\"", EncodeChars(s), "\"");
    case Arr(items) => ItemsPrintable(items, gap); Enclosed("[", EncodeItems(items, gap), "]");
    case Obj(fields) => FieldsPrintable(fields, gap); Enclosed("{", EncodeFields(fields, gap), "}");
    case _ =>
  }

  lemma Enclosed(open: string, s: string, close: string)
    requires Printable(open) && Printable(s) && Printable(close)
    ensures Printable(open + s + close)
  {
  }

  lemma {:induction false} ItemsPrintable(items: seq<Json>, gap: string)
    requires (forall i :: 0 <= i < |items| ==> Encodable(items[i])) && Gap(gap)
    ensures Printable(EncodeItems(items, gap))
    decreases items
  {
    if items != [] {
      EncodePrintable(items[0], gap);
      ItemsPrintable(items[1..], gap);
      AfterComma(EncodeItems(items[1..], gap), gap);
    }
  }

  lemma {:induction false} FieldsPrintable(fields: seq<Field>, gap: string)
    requires (forall i :: 0 <= i < |fields| ==> Encodable(fields[i].value)) && Gap(gap)
    ensures Printable(EncodeFields(fields, gap))
    decreases fields
  {
    if fields != [] {
      EncodePrintable(fields[0].value, gap);
      FieldPrintable(fields[0], gap);
      FieldsPrintable(fields[1..], gap);
      AfterComma(EncodeFields(fields[1..], gap), gap);
    }
  }

  lemma FieldPrintable(f: Field, gap: string)
    requires Printable(Encode(f.value, gap)) && Gap(gap)
    ensures Printable(EncodeField(f, gap))
  {
    CharsPrintable(f.key);
    PrintableConcat(Quoted(f.key) + ":" + gap, Encode(f.value, gap));
  }

  lemma AfterComma(s: string, gap: string)
    requires Printable(s) && Gap(gap)
    ensures Printable("," + gap + s)
  {
  }

  lemma PrintableConcat(a: string, b: string)
    requires Printable(a) && Printable(b)
    ensures Printable(a + b)
  {
  }
}
