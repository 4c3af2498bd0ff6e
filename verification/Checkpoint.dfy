/** The append-only leaderboard checkpoint: its records, the loader that validates a file and finds a
    torn tail, and what every accepted file is. The file is its text; everything the writer emits is
    ASCII, so offsets are byte offsets. */
module Checkpoint {
  import opened JsonTree
  import opened JsonText
  import opened LineLog

  // ----- pages -----

  /** `None` asks for the first page, and as a continuation means that there is no further page. */
  datatype Cursor = None | Some(token: string)

  datatype Page = Page(index: int, limit: int, rows: seq<Json>, source: Cursor, next: Cursor)

  const MAX_CURSOR: nat := 8192
  const MAX_PAGE_ROWS: nat := 1000

  predicate ValidCursor(c: Cursor) { c.Some? ==> 1 <= |c.token| <= MAX_CURSOR }

  function RowsOf(pages: seq<Page>): seq<Json> {
    if pages == [] then [] else RowsOf(pages[..|pages| - 1]) + pages[|pages| - 1].rows
  }

  /** The cursor of the page after these. */
  function Continuation(pages: seq<Page>): Cursor {
    if pages == [] then None else pages[|pages| - 1].next
  }

  predicate Complete(pages: seq<Page>) { pages != [] && pages[|pages| - 1].next.None? }

  function Token(c: Cursor): set<string> { if c.Some? then {c.token} else {} }

  /** The cursors these pages were fetched with. */
  function Consumed(pages: seq<Page>): set<string> {
    set i | 0 <= i < |pages| && pages[i].source.Some? :: pages[i].source.token
  }

  // ----- reading one record -----

  datatype Lookup = Absent | Present(value: Json)

  function Get(fields: seq<Field>, key: string): Lookup {
    if fields == [] then Absent
    else if fields[0].key == key then Present(fields[0].value)
    else Get(fields[1..], key)
  }

  datatype Reject =
    | NoIdentity | Legacy | OtherSettings | UnboundSettings | CorruptRecord | RefusedRecord
    | SecondIdentity | UnexpectedRecord | BadPage | NoProvenance | BadCursor | BrokenChain
    | RepeatedCursor | BadRow

  datatype Admission = Rejected(why: Reject) | Admitted(page: Page)

  predicate IsCursorJson(v: Json) { v.Null? || (v.Str? && 1 <= |v.s| <= MAX_CURSOR) }

  function ToCursor(v: Json): Cursor
    requires IsCursorJson(v)
  {
    if v.Str? then Some(v.s) else None
  }

  predicate PageBounds(fields: seq<Field>, expected: nat) {
    var limit, rows := Get(fields, "limit"), Get(fields, "rows");
    && Get(fields, "page_index") == Present(Int(expected))
    && limit.Present? && limit.value.Int? && 1 <= limit.value.n <= MAX_PAGE_ROWS
    && rows.Present? && rows.value.Arr? && |rows.value.items| <= limit.value.n
    && Get(fields, "row_count") == Present(Int(|rows.value.items|))
  }

  /** The continuation is a cursor already used, this page's own included. */
  predicate LeadsBack(pages: seq<Page>, p: Page) {
    p.next.Some? && (p.next == p.source || p.next.token in Consumed(pages))
  }

  /** Whether a page continues the pages before it. */
  function JudgeChain(pages: seq<Page>, p: Page, rowOk: Json -> bool): Admission {
    if Complete(pages) || p.source != Continuation(pages) then Rejected(BrokenChain)
    else if LeadsBack(pages, p) then Rejected(RepeatedCursor)
    else if exists i :: 0 <= i < |p.rows| && !rowOk(p.rows[i]) then Rejected(BadRow)
    else Admitted(p)
  }

  function Admit(pages: seq<Page>, v: Json, rowOk: Json -> bool): Admission {
    if v.Obj? && Get(v.fields, "type") == Present(Str("leaderboard_scan")) then Rejected(SecondIdentity)
    else if !v.Obj? || Get(v.fields, "type") != Present(Str("leaderboard_page"))
         || Get(v.fields, "source_api_version") != Present(Int(2)) then Rejected(UnexpectedRecord)
    else if !PageBounds(v.fields, |pages|) then Rejected(BadPage)
    else
      var source, next := Get(v.fields, "source_cursor"), Get(v.fields, "next_cursor");
      if source.Absent? || next.Absent? then Rejected(NoProvenance)
      else if !IsCursorJson(source.value) || !IsCursorJson(next.value) then Rejected(BadCursor)
      else
        JudgeChain(pages, Page(|pages|, Get(v.fields, "limit").value.n, Get(v.fields, "rows").value.items,
                               ToCursor(source.value), ToCursor(next.value)), rowOk)
  }

  // ----- reading a file -----

  predicate BlankChar(c: char) { IsSpace(c) || c == '\U{0B}' || c == '\U{0C}' }

  predicate Blank(line: string) { forall i :: 0 <= i < |line| ==> BlankChar(line[i]) }

  /** What one line, with its newline if it has one, means after the pages accepted so far. Only an
      unterminated line may be torn. */
  function ReadLine(pages: seq<Page>, line: string, rowOk: Json -> bool): Effect<Page, Reject> {
    if Blank(line) then SkipLine
    else
      match ParseText(line)
      case Malformed => if line[|line| - 1] == '\n' then BadLine(CorruptRecord) else TornTail
      case Refused => BadLine(RefusedRecord)
      case Ok(v, _) =>
        var admission := Admit(pages, v, rowOk);
        if admission.Rejected? then BadLine(admission.why) else NewPage(admission.page)
  }

  function Reader(rowOk: Json -> bool): (seq<Page>, string) -> Effect<Page, Reject> {
    (pages, line) => ReadLine(pages, line, rowOk)
  }

  /** Dictionaries are equal when they hold the same fields, in whatever order. */
  predicate SameObject(a: Json, b: Json) {
    && a.Obj? && b.Obj? && |a.fields| == |b.fields|
    && forall i :: 0 <= i < |a.fields| ==> Get(b.fields, a.fields[i].key) == Present(a.fields[i].value)
  }

  datatype HeaderCheck = HeaderBad(why: Reject) | HeaderOk

  function CheckHeader(line: string, signature: Json): HeaderCheck {
    match ParseText(line)
    case Malformed => HeaderBad(NoIdentity)
    case Refused => HeaderBad(NoIdentity)
    case Ok(v, _) =>
      if !v.Obj? || Get(v.fields, "type") != Present(Str("leaderboard_scan"))
         || Get(v.fields, "version") != Present(Int(2)) then HeaderBad(Legacy)
      else if Get(v.fields, "signature").Absent? || !SameObject(Get(v.fields, "signature").value, signature)
      then HeaderBad(OtherSettings)
      else if Get(signature.fields, "source_api_version") != Present(Int(2)) then HeaderBad(UnboundSettings)
      else HeaderOk
  }

  function Load(file: string, signature: Json, rowOk: Json -> bool): Loaded<Page, Reject> {
    var n := LineLength(file);
    match CheckHeader(file[..n], signature)
    case HeaderBad(why) => Failed(why)
    case HeaderOk => LoadFrom(file[n..], n, [], Reader(rowOk))
  }

  // ----- the loader's loop -----

  /** What the loader hands to the scan. */
  datatype State = State(rows: seq<Json>, nextPage: nat, ignored: nat, cursor: Cursor, complete: bool, tail: Tail)

  datatype LoadOutcome = LoadError(why: Reject) | LoadOk(state: State)

  /** What the loader reports for a load. */
  ghost predicate Reports(r: LoadOutcome, l: Loaded<Page, Reject>) {
    match l
    case Failed(why) => r == LoadError(why)
    case Loaded(pages, ignored, tail) =>
      r == LoadOk(State(RowsOf(pages), |pages|, ignored, Continuation(pages), Complete(pages), tail))
  }

  method LoadCheckpoint(file: string, signature: Json, rowOk: Json -> bool) returns (r: LoadOutcome)
    ensures Reports(r, Load(file, signature, rowOk))
  {
    var position := LineLength(file);
    var header := CheckHeader(file[..position], signature);
    if header.HeaderBad? { return LoadError(header.why); }
    r := LoadRecords(file, position, rowOk, Reader(rowOk));
  }

  /** The loop over the records that follow the header. */
  method LoadRecords(file: string, start: nat, rowOk: Json -> bool,
                     ghost read: (seq<Page>, string) -> Effect<Page, Reject>) returns (r: LoadOutcome)
    requires start <= |file|
    requires forall ps, s {:trigger ReadLine(ps, s, rowOk)} :: read(ps, s) == ReadLine(ps, s, rowOk)
    ensures Reports(r, LoadFrom(file[start..], start, [], read))
  {
    var position := start;
    var rows: seq<Json> := [];
    var expectedPage := 0;
    var expectedCursor: Cursor := None;
    var complete := false;
    var visited: set<string> := {};
    ghost var pages: seq<Page> := [];
    ghost var goal := LoadFrom(file[start..], start, [], read);
    while position < |file|
      invariant 0 <= position <= |file|
      invariant rows == RowsOf(pages) && expectedPage == |pages| && expectedCursor == Continuation(pages)
      invariant complete == Complete(pages) && visited == Consumed(pages)
      invariant goal == LoadFrom(file[position..], position, pages, read)
      decreases |file| - position
    {
      var rest := file[position..];
      var n := LineLength(rest);
      assert rest[n..] == file[position + n..];
      var effect := ReadRecord(rest[..n], expectedPage, expectedCursor, complete, visited, pages, rowOk, read);
      match effect {
        case SkipLine =>
        case TornTail =>
          return LoadOk(State(rows, expectedPage, 1, expectedCursor, complete, CutAt(position)));
        case BadLine(why) =>
          return LoadError(why);
        case NewPage(p) =>
          PagesStep(pages, p);
          pages := pages + [p];
          rows := rows + p.rows;
          expectedPage := expectedPage + 1;
          visited := visited + Token(p.source);
          expectedCursor := p.next;
          complete := p.next.None?;
      }
      position := position + n;
    }
    return LoadOk(State(rows, expectedPage, 0, expectedCursor, complete, Whole));
  }

  /** One line checked against the loop's running state. */
  method ReadRecord(line: string, expectedPage: nat, expectedCursor: Cursor, complete: bool, visited: set<string>,
                    ghost pages: seq<Page>, rowOk: Json -> bool,
                    ghost read: (seq<Page>, string) -> Effect<Page, Reject>) returns (r: Effect<Page, Reject>)
    requires expectedPage == |pages| && expectedCursor == Continuation(pages)
    requires complete == Complete(pages) && visited == Consumed(pages)
    requires forall ps, s {:trigger ReadLine(ps, s, rowOk)} :: read(ps, s) == ReadLine(ps, s, rowOk)
    ensures r == read(pages, line)
  {
    assert read(pages, line) == ReadLine(pages, line, rowOk);
    if Blank(line) { return SkipLine; }
    var parsed := ParseText(line);
    if parsed.Malformed? {
      return if line[|line| - 1] == '\n' then BadLine(CorruptRecord) else TornTail;
    }
    if parsed.Refused? { return BadLine(RefusedRecord); }
    var v := parsed.value;
    if !v.Obj? { return BadLine(UnexpectedRecord); }
    var kind := Get(v.fields, "type");
    if kind == Present(Str("leaderboard_scan")) { return BadLine(SecondIdentity); }
    if kind != Present(Str("leaderboard_page")) || Get(v.fields, "source_api_version") != Present(Int(2)) {
      return BadLine(UnexpectedRecord);
    }
    if !PageBounds(v.fields, expectedPage) { return BadLine(BadPage); }
    var source, next := Get(v.fields, "source_cursor"), Get(v.fields, "next_cursor");
    if source.Absent? || next.Absent? { return BadLine(NoProvenance); }
    if !IsCursorJson(source.value) || !IsCursorJson(next.value) { return BadLine(BadCursor); }
    var p := Page(expectedPage, Get(v.fields, "limit").value.n, Get(v.fields, "rows").value.items,
                  ToCursor(source.value), ToCursor(next.value));
    if complete || p.source != expectedCursor { return BadLine(BrokenChain); }
    if p.next.Some? && (p.next == p.source || p.next.token in visited) { return BadLine(RepeatedCursor); }
    if exists i :: 0 <= i < |p.rows| && !rowOk(p.rows[i]) { return BadLine(BadRow); }
    return NewPage(p);
  }

  lemma PagesStep(pages: seq<Page>, p: Page)
    ensures RowsOf(pages + [p]) == RowsOf(pages) + p.rows
    ensures Consumed(pages + [p]) == Consumed(pages) + Token(p.source)
    ensures Continuation(pages + [p]) == p.next && Complete(pages + [p]) == p.next.None?
  {
    var all := pages + [p];
    assert all[..|all| - 1] == pages;
    assert forall i :: 0 <= i < |pages| ==> all[i] == pages[i];
    assert all[|pages|] == p;
  }

  // ----- what every accepted file is -----

  predicate SoundPage(p: Page, rowOk: Json -> bool) {
    && 1 <= p.limit <= MAX_PAGE_ROWS && |p.rows| <= p.limit && ValidCursor(p.source) && ValidCursor(p.next)
    && forall i :: 0 <= i < |p.rows| ==> rowOk(p.rows[i])
  }

  /** Page `i` was fetched with the continuation of the page before it. */
  ghost predicate LinkAt(pages: seq<Page>, i: int)
    requires 0 <= i < |pages|
  {
    pages[i].source == if i == 0 then None else pages[i - 1].next
  }

  /** Pages 0..n-1, each fetched with the continuation of the one before, no continuation leading back
      to a cursor already used, none missing except after the last page. */
  ghost predicate ValidChain(pages: seq<Page>, rowOk: Json -> bool) {
    && (forall i :: 0 <= i < |pages| ==> pages[i].index == i && SoundPage(pages[i], rowOk))
    && (forall i :: 0 <= i < |pages| ==> LinkAt(pages, i))
    && (forall i :: 0 <= i < |pages| - 1 ==> pages[i].next.Some?)
    && (forall i, j :: 0 <= i <= j < |pages| && pages[i].source.Some? ==> pages[i].source != pages[j].next)
  }

  lemma AdmitExtends(pages: seq<Page>, v: Json, rowOk: Json -> bool)
    requires ValidChain(pages, rowOk) && Admit(pages, v, rowOk).Admitted?
    ensures ValidChain(pages + [Admit(pages, v, rowOk).page], rowOk)
  {
    var p := Admit(pages, v, rowOk).page;
    ChainExtends(pages, p, rowOk);
  }

  lemma ChainExtends(pages: seq<Page>, p: Page, rowOk: Json -> bool)
    requires ValidChain(pages, rowOk) && SoundPage(p, rowOk) && p.index == |pages|
    requires !Complete(pages) && p.source == Continuation(pages) && !LeadsBack(pages, p)
    ensures ValidChain(pages + [p], rowOk)
  {
    var all := pages + [p];
    forall i | 0 <= i < |all| ensures LinkAt(all, i) {
      if i < |pages| { assert LinkAt(pages, i); }
    }
    forall i | 0 <= i < |all| && all[i].source.Some? ensures all[i].source != p.next {
      if i < |pages| { assert pages[i].source.token in Consumed(pages); }
    }
  }

  lemma {:induction false} LoadFromValid(s: string, offset: nat, pages: seq<Page>, rowOk: Json -> bool,
                                        read: (seq<Page>, string) -> Effect<Page, Reject>)
    requires ValidChain(pages, rowOk) && LoadFrom(s, offset, pages, read).Loaded?
    requires read == Reader(rowOk)
    ensures ValidChain(LoadFrom(s, offset, pages, read).pages, rowOk)
    decreases |s|
  {
    if s != [] {
      var n := LineLength(s);
      match read(pages, s[..n])
      case SkipLine => LoadFromValid(s[n..], offset + n, pages, rowOk, read);
      case NewPage(p) =>
        LineExtends(pages, s[..n], rowOk);
        LoadFromValid(s[n..], offset + n, pages + [p], rowOk, read);
      case _ =>
    }
  }

  lemma LineExtends(pages: seq<Page>, line: string, rowOk: Json -> bool)
    requires ValidChain(pages, rowOk) && ReadLine(pages, line, rowOk).NewPage?
    ensures ValidChain(pages + [ReadLine(pages, line, rowOk).page], rowOk)
  {
    AdmitExtends(pages, ParseText(line).value, rowOk);
  }

  /** Every accepted file holds pages 0..n-1 in cursor order, with pairwise distinct source cursors and
      an absent continuation on the last page only. */
  lemma AcceptedFileIsChain(file: string, signature: Json, rowOk: Json -> bool)
    requires Load(file, signature, rowOk).Loaded?
    ensures var pages := Load(file, signature, rowOk).pages;
            && ValidChain(pages, rowOk)
            && (forall i, j :: 0 <= i < j < |pages| ==> pages[i].source != pages[j].source)
  {
    LoadFromValid(file[LineLength(file)..], LineLength(file), [], rowOk, Reader(rowOk));
    var pages := Load(file, signature, rowOk).pages;
    forall i, j | 0 <= i < j < |pages| ensures pages[i].source != pages[j].source {
      assert LinkAt(pages, j) && pages[j - 1].next.Some?;
    }
  }
}
