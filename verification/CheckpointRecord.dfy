/** The texts the checkpoint writer emits, and why the loader reads each of them back. */
module CheckpointRecord {
  import opened JsonTree
  import opened JsonText
  import opened JsonPrefix
  import opened LineLog
  import opened Checkpoint

  function CursorJson(c: Cursor): Json { if c.Some? then Str(c.token) else Null }

  /** The record of one page, in key order; the time of writing is the only part the loader ignores. */
  function PageJson(p: Page, writtenAt: int): Json {
    Obj([Field("limit", Int(p.limit)), Field("next_cursor", CursorJson(p.next)), Field("page_index", Int(p.index)),
         Field("row_count", Int(|p.rows|)), Field("rows", Arr(p.rows)), Field("source_api_version", Int(2)),
         Field("source_cursor", CursorJson(p.source)), Field("type", Str("leaderboard_page")),
         Field("written_at", Int(writtenAt))])
  }

  function RecordText(p: Page, writtenAt: int): string { Encode(PageJson(p, writtenAt), "") }

  function HeaderJson(signature: Json): Json {
    Obj([Field("signature", signature), Field("type", Str("leaderboard_scan")), Field("version", Int(2))])
  }

  function HeaderLine(signature: Json): string { Encode(HeaderJson(signature), " ") + "\n" }

  /** Scan settings: a dictionary bound to the second source version. */
  ghost predicate ValidSignature(signature: Json) {
    signature.Obj? && Encodable(signature) && Get(signature.fields, "source_api_version") == Present(Int(2))
  }

  lemma {:induction false} GetAt(fields: seq<Field>, i: nat)
    requires DistinctKeys(fields) && i < |fields|
    ensures Get(fields, fields[i].key) == Present(fields[i].value)
  {
    if i > 0 { GetAt(fields[1..], i - 1); }
  }

  lemma PageKeys(p: Page, t: int)
    ensures DistinctKeys(PageJson(p, t).fields)
  {
  }

  lemma PageEncodable(p: Page, t: int)
    requires forall i :: 0 <= i < |p.rows| ==> Encodable(p.rows[i])
    ensures Encodable(PageJson(p, t))
  {
    PageKeys(p, t);
    assert Encodable(Arr(p.rows));
  }

  /** Reading a written record judges the page itself. */
  lemma AdmitWritten(before: seq<Page>, p: Page, t: int, rowOk: Json -> bool)
    requires p.index == |before| && 1 <= p.limit <= MAX_PAGE_ROWS && |p.rows| <= p.limit
    requires ValidCursor(p.source) && ValidCursor(p.next)
    ensures Admit(before, PageJson(p, t), rowOk) == JudgeChain(before, p, rowOk)
  {
    var f := PageJson(p, t).fields;
    PageKeys(p, t);
    GetAt(f, 0);
    GetAt(f, 1);
    GetAt(f, 2);
    GetAt(f, 3);
    GetAt(f, 4);
    GetAt(f, 5);
    GetAt(f, 6);
    GetAt(f, 7);
  }

  lemma ObjectNotBlank(s: string)
    requires s != [] && s[0] == '{'
    ensures !Blank(s)
  {
    assert !BlankChar(s[0]);
  }

  function EffectOf(a: Admission): Effect<Page, Reject> {
    if a.Rejected? then BadLine(a.why) else NewPage(a.page)
  }

  /** An encoded object on its own line, terminated or not, is judged by its value; a cut one is torn. */
  lemma ObjectLine(before: seq<Page>, v: Json, rowOk: Json -> bool)
    requires v.Obj? && Encodable(v)
    ensures var text := Encode(v, "");
            && OneLine(text) && ReadLine(before, text, rowOk) == EffectOf(Admit(before, v, rowOk))
            && ReadLine(before, text + "\n", rowOk) == EffectOf(Admit(before, v, rowOk))
  {
    var text := Encode(v, "");
    EncodePrintable(v, "");
    ObjectNotBlank(text);
    ObjectNotBlank(text + "\n");
    TextRound(v, "", "");
    TextRound(v, "", "\n");
    assert text + "" == text;
  }

  lemma CutLine(before: seq<Page>, v: Json, n: nat, rowOk: Json -> bool)
    requires v.Obj? && Encodable(v) && 0 < n < |Encode(v, "")|
    ensures ReadLine(before, Encode(v, "")[..n], rowOk) == TornTail
  {
    var cut := Encode(v, "")[..n];
    EncodePrintable(v, "");
    ObjectNotBlank(cut);
    CutObjectIsMalformed(v, "", n);
    assert cut[n - 1] == Encode(v, "")[n - 1];
  }

  /** A record the loader would admit is written faithfully. */
  lemma RecordFaithful(before: seq<Page>, p: Page, t: int, rowOk: Json -> bool)
    requires p.index == |before| && SoundPage(p, rowOk) && JudgeChain(before, p, rowOk) == Admitted(p)
    requires forall i :: 0 <= i < |p.rows| ==> Encodable(p.rows[i])
    ensures Faithful(before, p, RecordText(p, t), Reader(rowOk))
  {
    var v := PageJson(p, t);
    PageEncodable(p, t);
    AdmitWritten(before, p, t, rowOk);
    ObjectLine(before, v, rowOk);
    forall n | 0 < n < |RecordText(p, t)| ensures Reader(rowOk)(before, RecordText(p, t)[..n]) == TornTail {
      CutLine(before, v, n, rowOk);
    }
  }

  lemma SameAsItself(v: Json)
    requires v.Obj? && DistinctKeys(v.fields)
    ensures SameObject(v, v)
  {
    forall i | 0 <= i < |v.fields| ensures Get(v.fields, v.fields[i].key) == Present(v.fields[i].value) {
      GetAt(v.fields, i);
    }
  }

  lemma HeaderKeys(signature: Json)
    ensures DistinctKeys(HeaderJson(signature).fields)
  {
  }

  /** The published header identifies the scan. */
  lemma HeaderAccepted(signature: Json)
    requires ValidSignature(signature)
    ensures CheckHeader(HeaderLine(signature), signature) == HeaderOk
    ensures forall rest :: LineLength(HeaderLine(signature) + rest) == |HeaderLine(signature)|
  {
    var v := HeaderJson(signature);
    HeaderKeys(signature);
    assert Encodable(v);
    TextRound(v, " ", "\n");
    GetAt(v.fields, 0);
    GetAt(v.fields, 1);
    GetAt(v.fields, 2);
    SameAsItself(signature);
    EncodePrintable(v, " ");
    forall rest ensures LineLength(HeaderLine(signature) + rest) == |HeaderLine(signature)| {
      LineOf(Encode(v, " "), rest);
    }
  }

  /** Loading a file that starts with the header is reading the records behind it. */
  lemma LoadBehindHeader(signature: Json, rest: string, rowOk: Json -> bool)
    requires ValidSignature(signature)
    ensures Load(HeaderLine(signature) + rest, signature, rowOk)
         == LoadFrom(rest, |HeaderLine(signature)|, [], Reader(rowOk))
  {
    var h := HeaderLine(signature);
    HeaderAccepted(signature);
    assert LineLength(h + rest) == |h| && (h + rest)[..|h|] == h && (h + rest)[|h|..] == rest;
  }
}
