/** What a loaded checkpoint proves about its own text: it belongs to this scan, every record says what a
    page record must say, and nothing damaged was passed over. */
module CheckpointIdentity {
  import opened JsonTree
  import opened JsonText
  import opened JsonRoundTrip
  import opened JsonPrefix
  import opened LineLog
  import opened Checkpoint
  import opened CheckpointRecord

  // ----- equality of settings -----

  function Keys(fields: seq<Field>): set<string> { set i | 0 <= i < |fields| :: fields[i].key }

  lemma {:induction false} KeysCount(fields: seq<Field>)
    requires DistinctKeys(fields)
    ensures |Keys(fields)| == |fields|
  {
    if fields != [] {
      var rest := fields[1..];
      KeysCount(rest);
      assert Keys(fields) == {fields[0].key} + Keys(rest) by {
        forall k | k in Keys(fields) ensures k in {fields[0].key} + Keys(rest) {
          var i :| 0 <= i < |fields| && fields[i].key == k;
          if i > 0 { assert rest[i - 1] == fields[i]; }
        }
      }
    }
  }

  lemma {:induction false} GetFinds(fields: seq<Field>, k: string)
    ensures Get(fields, k).Absent? <==> k !in Keys(fields)
  {
    if fields != [] {
      GetFinds(fields[1..], k);
      forall i | 1 <= i < |fields| ensures fields[i] == fields[1..][i - 1] { }
    }
  }

  /** Every key has the same value in both, or in neither. */
  ghost predicate Alike(a: seq<Field>, b: seq<Field>) { forall k :: Get(a, k) == Get(b, k) }

  lemma SameLookups(a: seq<Field>, b: seq<Field>)
    requires DistinctKeys(a) && DistinctKeys(b) && Alike(a, b)
    ensures |a| == |b|
  {
    forall k ensures k in Keys(a) <==> k in Keys(b) {
      GetFinds(a, k);
      GetFinds(b, k);
    }
    assert Keys(a) == Keys(b);
    KeysCount(a);
    KeysCount(b);
  }

  lemma SubsetOfSize(a: set<string>, b: set<string>)
    requires a <= b && |a| == |b|
    ensures a == b
  {
    assert |b - a| == |b| - |a|;
  }

  /** Dictionaries compare equal exactly when every key has the same value in both, or in neither. */
  lemma SameObjectMeans(a: Json, b: Json)
    requires a.Obj? && b.Obj? && DistinctKeys(a.fields) && DistinctKeys(b.fields)
    ensures SameObject(a, b) <==> Alike(a.fields, b.fields)
  {
    if SameObject(a, b) {
      forall k ensures Get(a.fields, k) == Get(b.fields, k) { SameObjectAt(a, b, k); }
    }
    if Alike(a.fields, b.fields) {
      SameLookups(a.fields, b.fields);
      forall i | 0 <= i < |a.fields| ensures Get(b.fields, a.fields[i].key) == Present(a.fields[i].value) {
        GetAt(a.fields, i);
      }
    }
  }

  lemma SameObjectAt(a: Json, b: Json, k: string)
    requires SameObject(a, b) && DistinctKeys(a.fields) && DistinctKeys(b.fields)
    ensures Get(a.fields, k) == Get(b.fields, k)
  {
    GetFinds(a.fields, k);
    GetFinds(b.fields, k);
    forall x | x in Keys(a.fields) ensures x in Keys(b.fields) {
      var i :| 0 <= i < |a.fields| && a.fields[i].key == x;
      GetFinds(b.fields, x);
    }
    KeysCount(a.fields);
    KeysCount(b.fields);
    SubsetOfSize(Keys(a.fields), Keys(b.fields));
    if k in Keys(a.fields) {
      var i :| 0 <= i < |a.fields| && a.fields[i].key == k;
      GetAt(a.fields, i);
    }
  }

  // ----- the header -----

  /** A checkpoint written for settings `a` is refused under settings `b` as soon as one setting differs,
      whatever records follow. */
  lemma OtherSettingsRejected(a: Json, b: Json, rest: string, rowOk: Json -> bool, k: string)
    requires ValidSignature(a) && ValidSignature(b) && Get(a.fields, k) != Get(b.fields, k)
    ensures Load(HeaderLine(a) + rest, b, rowOk) == Failed(OtherSettings)
  {
    var h := HeaderLine(a);
    var v := HeaderJson(a);
    HeaderAccepted(a);
    assert LineLength(h + rest) == |h| && (h + rest)[..|h|] == h;
    HeaderKeys(a);
    assert Encodable(v);
    TextRound(v, " ", "\n");
    GetAt(v.fields, 0);
    GetAt(v.fields, 1);
    GetAt(v.fields, 2);
    SameObjectMeans(a, b);
  }

  /** A load succeeds only if the first line decodes to an object of type leaderboard_scan, version 2, whose
      signature holds exactly the caller's fields, and the caller's settings are bound to source version 2. */
  lemma LoadedMeansSameScan(file: string, signature: Json, rowOk: Json -> bool)
    requires Load(file, signature, rowOk).Loaded?
    ensures var line := ParseText(file[..LineLength(file)]);
            && line.Ok? && line.value.Obj?
            && Get(line.value.fields, "type") == Present(Str("leaderboard_scan"))
            && Get(line.value.fields, "version") == Present(Int(2))
            && var stored := Get(line.value.fields, "signature");
            && stored.Present? && stored.value.Obj? && signature.Obj?
            && |stored.value.fields| == |signature.fields|
            && (forall i :: 0 <= i < |stored.value.fields| ==>
                  Get(signature.fields, stored.value.fields[i].key) == Present(stored.value.fields[i].value))
            && Get(signature.fields, "source_api_version") == Present(Int(2))
  {
  }

  // ----- the records -----

  /** The record says of itself that it is a version 2 page, which one, how many rows it holds within its
      limit, and two cursors of the right shape. */
  ghost predicate SaysPage(v: Json, p: Page) {
    && v.Obj?
    && Get(v.fields, "type") == Present(Str("leaderboard_page"))
    && Get(v.fields, "source_api_version") == Present(Int(2))
    && Get(v.fields, "page_index") == Present(Int(p.index))
    && Get(v.fields, "limit") == Present(Int(p.limit)) && 1 <= p.limit <= 1000
    && Get(v.fields, "rows") == Present(Arr(p.rows)) && |p.rows| <= p.limit
    && Get(v.fields, "row_count") == Present(Int(|p.rows|))
    && SaysCursor(Get(v.fields, "source_cursor"), p.source) && SaysCursor(Get(v.fields, "next_cursor"), p.next)
  }

  predicate SaysCursor(l: Lookup, c: Cursor) {
    match c
    case None => l == Present(Null)
    case Some(token) => l == Present(Str(token)) && 1 <= |token| <= 8192
  }

  lemma SaysOnePage(v: Json, p: Page)
    requires SaysPage(v, p)
    ensures var s, n := Get(v.fields, "source_cursor"), Get(v.fields, "next_cursor");
            && s.Present? && n.Present? && IsCursorJson(s.value) && IsCursorJson(n.value)
            && ToCursor(s.value) == p.source && ToCursor(n.value) == p.next
  {
  }

  /** It is the next page: the pages so far are not complete, it was fetched with their continuation, leads
      to no cursor used before, and all its rows are valid. */
  ghost predicate Continues(pages: seq<Page>, p: Page, rowOk: Json -> bool) {
    && p.index == |pages|
    && (pages != [] ==> pages[|pages| - 1].next.Some?)
    && p.source == (if pages == [] then None else pages[|pages| - 1].next)
    && (p.next.Some? ==> p.next != p.source && forall i :: 0 <= i < |pages| ==> p.next != pages[i].source)
    && (forall i :: 0 <= i < |p.rows| ==> rowOk(p.rows[i]))
  }

  lemma ContinuesMeans(pages: seq<Page>, p: Page, rowOk: Json -> bool)
    requires p.index == |pages|
    ensures JudgeChain(pages, p, rowOk) == Admitted(p) <==> Continues(pages, p, rowOk)
  {
    if p.next.Some? && p.next.token in Consumed(pages) {
      var i :| 0 <= i < |pages| && pages[i].source == Some(p.next.token);
      assert p.next == pages[i].source;
    }
    forall i | 0 <= i < |pages| && p.next.Some? && p.next == pages[i].source ensures p.next.token in Consumed(pages) {
      assert pages[i].source.token in Consumed(pages);
    }
  }

  /** A record is admitted as a page exactly if it says that page and the page comes next. */
  lemma AdmittedMeans(pages: seq<Page>, v: Json, rowOk: Json -> bool, p: Page)
    ensures Admit(pages, v, rowOk) == Admitted(p) <==> SaysPage(v, p) && Continues(pages, p, rowOk)
  {
    if SaysPage(v, p) && Continues(pages, p, rowOk) {
      SaysOnePage(v, p);
      ContinuesMeans(pages, p, rowOk);
    } else if Admit(pages, v, rowOk) == Admitted(p) {
      AdmittedSays(pages, v, rowOk, p);
      ContinuesMeans(pages, p, rowOk);
    }
  }

  lemma AdmittedSays(pages: seq<Page>, v: Json, rowOk: Json -> bool, p: Page)
    requires Admit(pages, v, rowOk) == Admitted(p)
    ensures SaysPage(v, p) && p.index == |pages| && JudgeChain(pages, p, rowOk) == Admitted(p)
  {
  }

  /** A line that ends in a newline and does not decode fails the whole load, wherever it stands: only an
      unterminated tail may be discarded. */
  lemma CorruptRecordFails(pages: seq<Page>, texts: seq<string>, text: string, offset: nat, rowOk: Json -> bool)
    requires AllFaithful([], pages, texts, Reader(rowOk))
    requires OneLine(text) && !Blank(text) && !ParseText(text + "\n").Ok?
    ensures LoadFrom(Joined(texts) + (text + "\n"), offset, [], Reader(rowOk)).Failed?
  {
    var why := if ParseText(text + "\n").Refused? then RefusedRecord else CorruptRecord;
    NotBlankLine(text);
    assert Reader(rowOk)(pages, text + "\n") == BadLine(why);
    LoadThenRejected(pages, texts, text, why, offset, Reader(rowOk));
  }

  lemma NotBlankLine(text: string)
    requires !Blank(text)
    ensures !Blank(text + "\n")
  {
    var i :| 0 <= i < |text| && !BlankChar(text[i]);
    assert (text + "\n")[i] == text[i];
  }

  // ----- what the strict decoder refuses -----

  /** An object text that repeats a key is refused, not merged. */
  lemma RepeatedKeyRefused(fields: seq<Field>, gap: string, rest: string)
    requires fields != [] && Gap(gap) && (forall i :: 0 <= i < |fields| ==> Encodable(fields[i].value))
    requires exists i, j :: 0 <= i < j < |fields| && fields[i].key == fields[j].key
    ensures ParseValue("{" + (EncodeFields(fields, gap) + "}" + rest)).Refused?
  {
    FieldsRound(fields, gap, rest);
    FieldsStart(fields, gap, "}");
    OpenedObject(EncodeFields(fields, gap) + "}" + rest, fields, rest);
  }

  lemma OpenedObject(body: string, fields: seq<Field>, rest: string)
    requires body != [] && body[0] == '"' && ParseFields(body) == Ok(fields, rest) && !DistinctKeys(fields)
    ensures ParseValue("{" + body).Refused?
  {
    assert ("{" + body)[1..] == body && Skip(body) == body;
    assert ParseObject(body).Refused?;
  }

  /** Anything but white space after an object makes the text malformed. */
  lemma TrailingTextMalformed(v: Json, gap: string, rest: string)
    requires v.Obj? && Encodable(v) && Gap(gap) && Skip(rest) != [] && (rest != [] ==> !NumberChar(rest[0]))
    ensures ParseText(Encode(v, gap) + rest).Malformed?
  {
    ValueRound(v, gap, rest);
    assert (Encode(v, gap) + rest)[0] == '{';
  }

  /** Elements need commas, and a list needs its bracket. */
  lemma MissingCommaMalformed(v: Json, gap: string, rest: string)
    requires Encodable(v) && Gap(gap) && (rest == [] || !NumberChar(rest[0]))
    requires Skip(rest) == [] || (Skip(rest)[0] != ',' && Skip(rest)[0] != ']')
    ensures ParseItems(Encode(v, gap) + rest).Malformed?
  {
    ValueRound(v, gap, rest);
  }

  /** Fields need commas, and an object needs its brace. */
  lemma MissingFieldCommaMalformed(f: Field, gap: string, rest: string)
    requires Encodable(f.value) && Gap(gap) && (rest == [] || !NumberChar(rest[0]))
    requires Skip(rest) == [] || (Skip(rest)[0] != ',' && Skip(rest)[0] != '}')
    ensures ParseFields(EncodeField(f, gap) + rest).Malformed?
  {
    FieldRound(f, gap, rest);
  }

  /** A key needs its colon. */
  lemma MissingColonMalformed(key: string, rest: string)
    requires Skip(rest) == [] || Skip(rest)[0] != ':'
    ensures ParseField("\"" + (EncodeChars(key) + "\"" + rest)).Malformed?
  {
    CharsRound(key, rest);
    KeyOnly(EncodeChars(key) + "\"" + rest, key, rest);
  }

  lemma KeyOnly(chars: string, key: string, rest: string)
    requires ParseChars(chars) == Ok(key, rest) && (Skip(rest) == [] || Skip(rest)[0] != ':')
    ensures ParseField("\"" + chars).Malformed?
  {
    assert ("\"" + chars)[1..] == chars;
  }

  /** A raw control character inside a string makes it malformed. */
  lemma {:induction false} RawControlMalformed(s: string, c: char, rest: string)
    requires c < ' '
    ensures ParseChars(EncodeChars(s) + ([c] + rest)).Malformed?
  {
    var bad := [c] + rest;
    if s == [] {
      ControlFirst(bad);
      assert EncodeChars(s) + bad == bad;
    } else {
      RawControlMalformed(s[1..], c, rest);
      MalformedBehind(s[0], EncodeChars(s[1..]) + bad);
      Grouped(EncodeChar(s[0]), EncodeChars(s[1..]), bad);
    }
  }

  lemma ControlFirst(s: string)
    requires s != [] && s[0] < ' '
    ensures ParseChars(s).Malformed?
  {
  }

  lemma Grouped(a: string, b: string, c: string)
    ensures a + b + c == a + (b + c)
  {
  }

  lemma MalformedBehind(c: char, tail: string)
    requires ParseChars(tail).Malformed?
    ensures ParseChars(EncodeChar(c) + tail).Malformed?
  {
    CharRound(c, tail);
    assert (EncodeChar(c) + tail)[|EncodeChar(c)|..] == tail;
  }

  /** Numbers that are not finite are refused. */
  lemma NotFiniteRefused(rest: string)
    ensures ParseValue("NaN" + rest).Refused? && ParseValue("Infinity" + rest).Refused?
    ensures ParseValue("-Infinity" + rest).Refused?
  {
    Words("NaN", rest);
    Words("Infinity", rest);
    Words("-Infinity", rest);
  }

  lemma Words(w: string, rest: string)
    requires w == "NaN" || w == "Infinity" || w == "-Infinity"
    ensures ParseValue(w + rest).Refused?
  {
    var s := w + rest;
    assert s[0] == w[0] && StartsWith(s, w);
    NotWord(s, "null");
    NotWord(s, "true");
    NotWord(s, "false");
    assert ParseValue(s) == ParseScalar(s);
  }
}
