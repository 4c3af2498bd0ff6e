/** An append-only file of one-line records behind a header: reading it line by line, repairing it
    after a crash, and why a crash never costs more than the records it cut off. `P` is what a record
    stands for, `E` why one is rejected. */
module LineLog {

  datatype Effect<P, E> = SkipLine | TornTail | BadLine(why: E) | NewPage(page: P)

  datatype Tail = Whole | CutAt(offset: nat)

  /** `ignored` counts the discarded tail record; the writer truncates the file at `tail`. */
  datatype Loaded<P, E> = Failed(why: E) | Loaded(pages: seq<P>, ignored: nat, tail: Tail)

  /** Up to and including the first newline, or all of it. */
  function LineLength(s: string): (n: nat)
    ensures n <= |s| && (s != [] ==> n >= 1)
  {
    if s == [] then 0 else if s[0] == '\n' then 1 else 1 + LineLength(s[1..])
  }

  /** The records from `offset` on, given the pages already accepted. */
  function LoadFrom<P, E>(s: string, offset: nat, pages: seq<P>, read: (seq<P>, string) -> Effect<P, E>): Loaded<P, E>
    decreases |s|
  {
    if s == [] then Loaded(pages, 0, Whole)
    else
      var n := LineLength(s);
      match read(pages, s[..n])
      case SkipLine => LoadFrom(s[n..], offset + n, pages, read)
      case TornTail => Loaded(pages, 1, CutAt(offset))
      case BadLine(why) => Failed(why)
      case NewPage(p) => LoadFrom(s[n..], offset + n, pages + [p], read)
  }

  /** What the writer makes of a loaded file before it appends: the torn tail goes, and a complete
      last record that lost only its newline gets it back. */
  function Repaired(file: string, tail: Tail): string {
    var kept := if tail.CutAt? && tail.offset <= |file| then file[..tail.offset] else file;
    if kept != [] && kept[|kept| - 1] != '\n' then kept + "\n" else kept
  }

  /** A load only ever cuts inside the file. */
  lemma {:induction false} TailInside<P, E>(s: string, offset: nat, pages: seq<P>,
                                            read: (seq<P>, string) -> Effect<P, E>)
    ensures var l := LoadFrom(s, offset, pages, read); l.Loaded? && l.tail.CutAt? ==> l.tail.offset <= offset + |s|
    decreases |s|
  {
    if s != [] {
      var n := LineLength(s);
      match read(pages, s[..n])
      case SkipLine => TailInside(s[n..], offset + n, pages, read);
      case NewPage(p) => TailInside(s[n..], offset + n, pages + [p], read);
      case _ =>
    }
  }

  // ----- written files -----

  predicate OneLine(s: string) { s != [] && forall i :: 0 <= i < |s| ==> s[i] != '\n' }

  function Joined(texts: seq<string>): string {
    if texts == [] then [] else texts[0] + "\n" + Joined(texts[1..])
  }

  /** After `before`, the text of page `p` is read as that page with or without its newline, and any
      cut of it as a torn tail. */
  ghost predicate Faithful<P(!new), E(!new)>(before: seq<P>, p: P, text: string,
                                             read: (seq<P>, string) -> Effect<P, E>) {
    && OneLine(text)
    && read(before, text) == NewPage(p) && read(before, text + "\n") == NewPage(p)
    && forall n :: 0 < n < |text| ==> read(before, text[..n]) == TornTail
  }

  ghost predicate AllFaithful<P(!new), E(!new)>(before: seq<P>, pages: seq<P>, texts: seq<string>,
                                                read: (seq<P>, string) -> Effect<P, E>)
    decreases |pages|
  {
    && |pages| == |texts|
    && (pages == [] || (Faithful(before, pages[0], texts[0], read)
                        && AllFaithful(before + [pages[0]], pages[1..], texts[1..], read)))
  }

  lemma {:induction false} LineOf(text: string, rest: string)
    requires forall i :: 0 <= i < |text| ==> text[i] != '\n'
    ensures LineLength(text + "\n" + rest) == |text| + 1 && LineLength(text) == |text|
  {
    if text != [] {
      assert (text + "\n" + rest)[1..] == text[1..] + "\n" + rest;
      LineOf(text[1..], rest);
    }
  }

  /** Reading past one written record. */
  lemma LoadRecord<P(!new), E(!new)>(before: seq<P>, p: P, text: string, rest: string, offset: nat,
                                     read: (seq<P>, string) -> Effect<P, E>)
    requires OneLine(text) && read(before, text + "\n") == NewPage(p)
    ensures LoadFrom(text + "\n" + rest, offset, before, read)
         == LoadFrom(rest, offset + |text| + 1, before + [p], read)
  {
    var s := text + "\n" + rest;
    LineOf(text, rest);
    assert s[..|text| + 1] == text + "\n" && s[|text| + 1..] == rest;
  }

  /** A rejected record fails the load. */
  lemma LoadRejected<P(!new), E(!new)>(before: seq<P>, text: string, why: E, offset: nat,
                                       read: (seq<P>, string) -> Effect<P, E>)
    requires OneLine(text) && read(before, text + "\n") == BadLine(why)
    ensures LoadFrom(text + "\n", offset, before, read) == Failed(why)
  {
    var s := text + "\n";
    LineOf(text, []);
    assert text + "\n" + [] == s && s[..|s|] == s;
  }

  /** So does a rejected record behind accepted ones. */
  lemma LoadThenRejected<P(!new), E(!new)>(pages: seq<P>, texts: seq<string>, text: string, why: E, offset: nat,
                                           read: (seq<P>, string) -> Effect<P, E>)
    requires AllFaithful([], pages, texts, read) && OneLine(text) && read(pages, text + "\n") == BadLine(why)
    ensures LoadFrom(Joined(texts) + (text + "\n"), offset, [], read) == Failed(why)
  {
    LoadWhole([], pages, texts, text + "\n", offset, read);
    assert [] + pages == pages;
    LoadRejected(pages, text, why, offset + |Joined(texts)|, read);
  }

  /** Reading what a crash left of the last record. */
  lemma LoadTorn<P(!new), E(!new)>(before: seq<P>, p: P, text: string, n: nat, offset: nat,
                                   read: (seq<P>, string) -> Effect<P, E>)
    requires Faithful(before, p, text, read) && 0 < n <= |text|
    ensures LoadFrom(text[..n], offset, before, read)
         == if n == |text| then Loaded(before + [p], 0, Whole) else Loaded(before, 1, CutAt(offset))
  {
    var s := text[..n];
    LineOf(s, []);
    assert s[..n] == s && s[n..] == [] && (n == |text| ==> s == text);
  }

  /** Where a cut falls: after `m` whole lines, then `j` characters of the next text. */
  ghost predicate CutPoint(texts: seq<string>, k: nat, m: nat, j: nat) {
    && m <= |texts| && k == |Joined(texts[..m])| + j
    && (j > 0 ==> m < |texts| && j <= |texts[m]|)
  }

  lemma {:induction false} FindCut(texts: seq<string>, k: nat) returns (m: nat, j: nat)
    requires k <= |Joined(texts)|
    ensures CutPoint(texts, k, m, j)
  {
    if texts == [] || k == 0 {
      m, j := 0, 0;
      assert texts[..0] == [];
    } else if k <= |texts[0]| {
      m, j := 0, k;
      assert texts[..0] == [];
    } else {
      m, j := FindCut(texts[1..], k - |texts[0]| - 1);
      m := m + 1;
      assert texts[..m][1..] == texts[1..][..m - 1];
    }
  }

  lemma {:induction false} JoinedSplit(texts: seq<string>, m: nat)
    requires m <= |texts|
    ensures Joined(texts) == Joined(texts[..m]) + Joined(texts[m..])
  {
    if m == 0 {
      assert texts[..0] == [] && texts[0..] == texts;
    } else {
      JoinedSplit(texts[1..], m - 1);
      assert texts[..m][1..] == texts[1..][..m - 1] && texts[1..][m - 1..] == texts[m..];
      assert texts[0] + "\n" + (Joined(texts[1..][..m - 1]) + Joined(texts[m..]))
          == texts[0] + "\n" + Joined(texts[1..][..m - 1]) + Joined(texts[m..]);
    }
  }

  /** The text of a cut file. */
  lemma CutText(texts: seq<string>, k: nat, m: nat, j: nat)
    requires CutPoint(texts, k, m, j)
    ensures k <= |Joined(texts)|
    ensures Joined(texts)[..k] == Joined(texts[..m]) + (if j == 0 then [] else texts[m][..j])
  {
    JoinedSplit(texts, m);
    var rest := Joined(texts[m..]);
    if j > 0 {
      assert texts[m..][0] == texts[m];
      assert rest == texts[m] + ("\n" + Joined(texts[m..][1..]));
      assert rest[..j] == texts[m][..j];
    }
    assert (Joined(texts[..m]) + rest)[..k] == Joined(texts[..m]) + rest[..j];
  }

  /** Whole records are read back one by one. */
  lemma {:induction false} LoadWhole<P(!new), E(!new)>(before: seq<P>, pages: seq<P>, texts: seq<string>, rest: string,
                                                       offset: nat, read: (seq<P>, string) -> Effect<P, E>)
    requires AllFaithful(before, pages, texts, read)
    ensures LoadFrom(Joined(texts) + rest, offset, before, read)
         == LoadFrom(rest, offset + |Joined(texts)|, before + pages, read)
    decreases |pages|
  {
    if pages == [] {
      assert Joined(texts) + rest == rest && before + pages == before;
    } else {
      var more := Joined(texts[1..]) + rest;
      assert Joined(texts) + rest == texts[0] + "\n" + more;
      LoadRecord(before, pages[0], texts[0], more, offset, read);
      LoadWhole(before + [pages[0]], pages[1..], texts[1..], rest, offset + |texts[0]| + 1, read);
      assert before + [pages[0]] + pages[1..] == before + pages;
    }
  }

  lemma {:induction false} FaithfulPrefix<P(!new), E(!new)>(before: seq<P>, pages: seq<P>, texts: seq<string>, m: nat,
                                                            read: (seq<P>, string) -> Effect<P, E>)
    requires AllFaithful(before, pages, texts, read) && m <= |pages|
    ensures AllFaithful(before, pages[..m], texts[..m], read)
    ensures m < |pages| ==> Faithful(before + pages[..m], pages[m], texts[m], read)
    decreases |pages|
  {
    if m == 0 {
      assert before + pages[..0] == before;
    } else {
      FaithfulPrefix(before + [pages[0]], pages[1..], texts[1..], m - 1, read);
      assert pages[..m][1..] == pages[1..][..m - 1] && texts[..m][1..] == texts[1..][..m - 1];
      assert before + [pages[0]] + pages[1..][..m - 1] == before + pages[..m];
    }
  }

  lemma {:induction false} FaithfulAppend<P(!new), E(!new)>(before: seq<P>, pages: seq<P>, texts: seq<string>,
                                                            p: P, text: string,
                                                            read: (seq<P>, string) -> Effect<P, E>)
    requires AllFaithful(before, pages, texts, read) && Faithful(before + pages, p, text, read)
    ensures AllFaithful(before, pages + [p], texts + [text], read)
    decreases |pages|
  {
    var all, lines := pages + [p], texts + [text];
    if pages == [] {
      assert before + pages == before && all == [p] && lines == [text];
      assert all[1..] == [] && lines[1..] == [];
    } else {
      assert before + [pages[0]] + pages[1..] == before + pages;
      FaithfulAppend(before + [pages[0]], pages[1..], texts[1..], p, text, read);
      assert all[1..] == pages[1..] + [p] && lines[1..] == texts[1..] + [text];
    }
  }

  lemma {:induction false} JoinedAppend(texts: seq<string>, text: string)
    ensures Joined(texts + [text]) == Joined(texts) + text + "\n"
  {
    JoinedSplit(texts + [text], |texts|);
    assert (texts + [text])[..|texts|] == texts && (texts + [text])[|texts|..] == [text];
    assert Joined([text]) == text + "\n" + [] by { assert [text][1..] == []; }
  }

  /** The three shapes of a cut file and their repairs. */
  lemma RepairShapes(base: string, text: string, n: nat)
    requires base != [] && base[|base| - 1] == '\n' && OneLine(text) && 0 < n <= |text|
    ensures Repaired(base, Whole) == base
    ensures Repaired(base + text[..n], CutAt(|base|)) == base
    ensures Repaired(base + text, Whole) == base + text + "\n"
  {
    assert (base + text[..n])[..|base|] == base;
    assert (base + text)[|base + text| - 1] == text[|text| - 1];
  }

  /** What a load makes of `m` whole records and, perhaps, `j` characters of the next. */
  lemma LoadAtBoundary<P(!new), E(!new)>(pages: seq<P>, texts: seq<string>, m: nat, offset: nat,
                                         read: (seq<P>, string) -> Effect<P, E>)
    requires AllFaithful([], pages, texts, read) && m <= |pages|
    ensures LoadFrom(Joined(texts[..m]) + [], offset, [], read) == Loaded(pages[..m], 0, Whole)
  {
    FaithfulPrefix([], pages, texts, m, read);
    LoadWhole([], pages[..m], texts[..m], [], offset, read);
    assert [] + pages[..m] == pages[..m];
  }

  lemma LoadInRecord<P(!new), E(!new)>(pages: seq<P>, texts: seq<string>, m: nat, j: nat, offset: nat,
                                       read: (seq<P>, string) -> Effect<P, E>)
    requires AllFaithful([], pages, texts, read) && m < |pages| && 0 < j <= |texts[m]|
    ensures LoadFrom(Joined(texts[..m]) + texts[m][..j], offset, [], read)
         == if j < |texts[m]| then Loaded(pages[..m], 1, CutAt(offset + |Joined(texts[..m])|))
            else Loaded(pages[..m + 1], 0, Whole)
  {
    FaithfulPrefix([], pages, texts, m, read);
    LoadWhole([], pages[..m], texts[..m], texts[m][..j], offset, read);
    assert [] + pages[..m] == pages[..m];
    LoadTorn(pages[..m], pages[m], texts[m], j, offset + |Joined(texts[..m])|, read);
    assert pages[..m + 1] == pages[..m] + [pages[m]];
  }

  lemma JoinedNext(header: string, texts: seq<string>, m: nat)
    requires m < |texts|
    ensures header + Joined(texts[..m + 1]) == header + Joined(texts[..m]) + texts[m] + "\n"
  {
    assert texts[..m + 1] == texts[..m] + [texts[m]];
    JoinedAppend(texts[..m], texts[m]);
  }

  /** A file cut anywhere behind its header reads as the first `m` pages, and repairing it gives
      exactly the file that was written for those pages. */
  lemma CutFileRecovers<P(!new), E(!new)>(header: string, pages: seq<P>, texts: seq<string>, k: nat,
                                          read: (seq<P>, string) -> Effect<P, E>) returns (m: nat, l: Loaded<P, E>)
    requires AllFaithful([], pages, texts, read) && k <= |Joined(texts)|
    requires header != [] && header[|header| - 1] == '\n'
    ensures m <= |pages| && (k == |Joined(texts)| ==> m == |pages|)
    ensures l == LoadFrom(Joined(texts)[..k], |header|, [], read) && l.Loaded? && l.pages == pages[..m]
    ensures Repaired(header + Joined(texts)[..k], l.tail) == header + Joined(texts[..m])
  {
    var j;
    m, j := FindCut(texts, k);
    CutText(texts, k, m, j);
    l := LoadFrom(Joined(texts)[..k], |header|, [], read);
    FaithfulTexts([], pages, texts, read);
    if j == 0 {
      LoadAtBoundary(pages, texts, m, |header|, read);
      RepairAtBoundary(header, texts, k, m);
    } else {
      LoadInRecord(pages, texts, m, j, |header|, read);
      RepairInRecord(header, texts, k, m, j);
      if j == |texts[m]| { m := m + 1; }
    }
  }

  lemma {:induction false} FaithfulTexts<P(!new), E(!new)>(before: seq<P>, pages: seq<P>, texts: seq<string>,
                                                           read: (seq<P>, string) -> Effect<P, E>)
    requires AllFaithful(before, pages, texts, read)
    ensures AllOneLine(texts)
    decreases |pages|
  {
    if pages != [] { FaithfulTexts(before + [pages[0]], pages[1..], texts[1..], read); }
  }

  predicate AllOneLine(texts: seq<string>) { forall i :: 0 <= i < |texts| ==> OneLine(texts[i]) }

  lemma RepairAtBoundary(header: string, texts: seq<string>, k: nat, m: nat)
    requires CutPoint(texts, k, m, 0) && k <= |Joined(texts)|
    requires header != [] && header[|header| - 1] == '\n'
    ensures k == |Joined(texts)| ==> m == |texts|
    ensures Repaired(header + Joined(texts)[..k], Whole) == header + Joined(texts[..m])
  {
    CutText(texts, k, m, 0);
    EndsInNewline(header, texts[..m]);
    CutAtBoundary(texts, k, m);
    RepairBoundary(header, Joined(texts[..m]));
  }

  lemma RepairInRecord(header: string, texts: seq<string>, k: nat, m: nat, j: nat)
    requires 0 < j && CutPoint(texts, k, m, j) && k <= |Joined(texts)| && OneLine(texts[m])
    requires header != [] && header[|header| - 1] == '\n'
    ensures k < |Joined(texts)|
    ensures Repaired(header + Joined(texts)[..k], CutAt(|header| + |Joined(texts[..m])|)) == header + Joined(texts[..m])
    ensures j == |texts[m]| ==> Repaired(header + Joined(texts)[..k], Whole) == header + Joined(texts[..m + 1])
  {
    CutText(texts, k, m, j);
    EndsInNewline(header, texts[..m]);
    TornIsShort(texts, m, j);
    JoinedNext(header, texts, m);
    RepairInside(header, Joined(texts[..m]), texts[m], j);
  }

  lemma RepairBoundary(header: string, whole: string)
    requires header + whole != [] && (header + whole)[|header + whole| - 1] == '\n'
    ensures Repaired(header + (whole + []), Whole) == header + whole
  {
    assert whole + [] == whole;
  }

  lemma RepairInside(header: string, whole: string, text: string, n: nat)
    requires header + whole != [] && (header + whole)[|header + whole| - 1] == '\n'
    requires OneLine(text) && 0 < n <= |text|
    ensures Repaired(header + (whole + text[..n]), CutAt(|header| + |whole|)) == header + whole
    ensures n == |text| ==> Repaired(header + (whole + text[..n]), Whole) == header + whole + text + "\n"
  {
    RepairShapes(header + whole, text, n);
    assert header + (whole + text[..n]) == header + whole + text[..n];
    assert n == |text| ==> text[..n] == text;
  }

  lemma EndsInNewline(header: string, texts: seq<string>)
    requires header != [] && header[|header| - 1] == '\n'
    ensures var s := header + Joined(texts); s[|s| - 1] == '\n'
  {
    if texts != [] {
      var last := |texts| - 1;
      assert texts == texts[..last] + [texts[last]];
      JoinedAppend(texts[..last], texts[last]);
    }
  }

  lemma CutAtBoundary(texts: seq<string>, k: nat, m: nat)
    requires CutPoint(texts, k, m, 0)
    ensures k == |Joined(texts)| ==> m == |texts|
  {
    JoinedSplit(texts, m);
  }

  /** A cut inside a text is not at the end of the file. */
  lemma TornIsShort(texts: seq<string>, m: nat, j: nat)
    requires m < |texts| && j <= |texts[m]|
    ensures |Joined(texts[..m])| + j < |Joined(texts)|
  {
    JoinedSplit(texts, m);
    assert texts[m..][0] == texts[m];
  }
}
