/** Scans that crash and resume over one checkpoint file: what they leave is a prefix of the
    uninterrupted walk, exactly as long as no page of the source leads back to an older cursor. */
module CheckpointRuns {
  import opened JsonTree
  import opened LineLog
  import opened Checkpoint
  import opened CheckpointRecord
  import opened BoardWalk
  import opened Walks

  /** A running scan knows the pages loaded or committed, and the continuations it has seen itself. */
  datatype Run = Down | Up(pages: seq<Page>, visited: set<string>)

  datatype Machine = Machine(file: string, run: Run)

  datatype Step =
    | Resume              // load and repair the file, then go on from its continuation
    | Commit(now: int)    // fetch the next page and append its record
    | Crash(size: nat)    // stop at any point; any part of the file behind the header may be lost

  ghost predicate Enabled(src: Source, sig: Json, m: Machine, s: Step) {
    match s
    case Resume => m.run.Down? && Load(m.file, sig, src.rowOk).Loaded?
    case Commit(_) => m.run.Up? && Decide(src, m.run.pages, m.run.visited).Take?
    case Crash(size) => |HeaderLine(sig)| <= size <= |m.file|
  }

  ghost function Apply(src: Source, sig: Json, m: Machine, s: Step): Machine
    requires Enabled(src, sig, m, s)
  {
    match s
    case Resume =>
      var l := Load(m.file, sig, src.rowOk);
      Machine(Repaired(m.file, l.tail), Up(l.pages, Token(Continuation(l.pages))))
    case Commit(now) =>
      var p := Decide(src, m.run.pages, m.run.visited).page;
      Machine(m.file + RecordText(p, now) + "\n", Up(m.run.pages + [p], m.run.visited + Token(p.next)))
    case Crash(size) => Machine(m.file[..size], Down)
  }

  /** A new scan publishes the header first. */
  function Start(sig: Json): Machine { Machine(HeaderLine(sig), Up([], {})) }

  ghost predicate Reaches(src: Source, sig: Json, m: Machine, steps: seq<Step>, m': Machine)
    decreases |steps|
  {
    if steps == [] then m == m'
    else Enabled(src, sig, m, steps[0]) && Reaches(src, sig, Apply(src, sig, m, steps[0]), steps[1..], m')
  }

  // ----- the invariant -----

  /** The file is the header and the records of `pages`, cut after `k` characters of the records. */
  ghost predicate Holds(src: Source, sig: Json, file: string, pages: seq<Page>, texts: seq<string>, k: nat) {
    && AllFaithful([], pages, texts, Reader(src.rowOk)) && k <= |Joined(texts)|
    && file == HeaderLine(sig) + Joined(texts)[..k]
  }

  ghost predicate InvAt(src: Source, sig: Json, m: Machine, n: nat, texts: seq<string>, k: nat) {
    && |BoardPages(src, n)| == n && Holds(src, sig, m.file, BoardPages(src, n), texts, k)
    && (m.run.Up? ==>
          && k == |Joined(texts)| && m.run.pages == BoardPages(src, n)
          && Token(Continuation(m.run.pages)) <= m.run.visited <= Handed(m.run.pages))
  }

  ghost predicate Inv(src: Source, sig: Json, m: Machine) {
    exists n: nat, texts: seq<string>, k: nat :: InvAt(src, sig, m, n, texts, k)
  }

  lemma HeaderEnds(sig: Json)
    ensures HeaderLine(sig) != [] && HeaderLine(sig)[|HeaderLine(sig)| - 1] == '\n'
  {
  }

  /** A held file loads as its first `i` pages, all of them if nothing was cut, and is repaired to the
      file of those pages. */
  lemma HeldFileLoads(src: Source, sig: Json, file: string, pages: seq<Page>, texts: seq<string>, k: nat)
      returns (i: nat, l: Loaded<Page, Reject>)
    requires ValidSignature(sig) && Holds(src, sig, file, pages, texts, k)
    ensures i <= |pages| == |texts| && (k == |Joined(texts)| ==> i == |pages|)
    ensures l == Load(file, sig, src.rowOk) && l.Loaded? && l.pages == pages[..i]
    ensures Repaired(file, l.tail) == HeaderLine(sig) + Joined(texts[..i])
    ensures Holds(src, sig, HeaderLine(sig) + Joined(texts[..i]), pages[..i], texts[..i], |Joined(texts[..i])|)
  {
    HeaderEnds(sig);
    i, l := CutFileRecovers(HeaderLine(sig), pages, texts, k, Reader(src.rowOk));
    LoadBehindHeader(sig, Joined(texts)[..k], src.rowOk);
    FaithfulPrefix([], pages, texts, i, Reader(src.rowOk));
    assert Joined(texts[..i])[..|Joined(texts[..i])|] == Joined(texts[..i]);
  }

  lemma ResumeKeepsInv(src: Source, sig: Json, m: Machine, n: nat, texts: seq<string>, k: nat)
    requires ValidSignature(sig) && InvAt(src, sig, m, n, texts, k) && Enabled(src, sig, m, Resume)
    ensures Inv(src, sig, Apply(src, sig, m, Resume))
  {
    var i, l := HeldFileLoads(src, sig, m.file, BoardPages(src, n), texts, k);
    WalkPrefix(Steady(src), i, n);
    WalkIsChain(src, i);
    ChainCursors(BoardPages(src, i), src.rowOk);
    assert InvAt(src, sig, Apply(src, sig, m, Resume), i, texts[..i], |Joined(texts[..i])|);
  }

  /** The page a run commits is the next one of the walk, and its record is faithful. */
  lemma CommittedPage(src: Source, n: nat, visited: set<string>, now: int)
    requires |BoardPages(src, n)| == n && !Returns(src, BoardPages(src, n))
    requires Decide(src, BoardPages(src, n), visited).Take?
    requires Token(Continuation(BoardPages(src, n))) <= visited <= Handed(BoardPages(src, n))
    ensures var p := Decide(src, BoardPages(src, n), visited).page;
            && BoardPages(src, n + 1) == BoardPages(src, n) + [p]
            && Faithful(BoardPages(src, n), p, RecordText(p, now), Reader(src.rowOk))
            && Token(Continuation(BoardPages(src, n + 1))) <= visited + Token(p.next) <= Handed(BoardPages(src, n + 1))
  {
    var pages := BoardPages(src, n);
    var p := Decide(src, pages, visited).page;
    WalkIsChain(src, n);
    TakenIsSound(src, pages, visited);
    DecideForgets(src, pages, visited);
    RecordFaithful(pages, p, now, src.rowOk);
    HandedStep(pages, p);
    PagesStep(pages, p);
  }

  lemma HeldFileGrows(src: Source, sig: Json, file: string, pages: seq<Page>, texts: seq<string>, p: Page, text: string)
    requires Holds(src, sig, file, pages, texts, |Joined(texts)|) && Faithful(pages, p, text, Reader(src.rowOk))
    ensures Holds(src, sig, file + text + "\n", pages + [p], texts + [text], |Joined(texts + [text])|)
  {
    assert [] + pages == pages;
    FaithfulAppend([], pages, texts, p, text, Reader(src.rowOk));
    CommittedFile(HeaderLine(sig), texts, text);
  }

  lemma CommitKeepsInv(src: Source, sig: Json, m: Machine, now: int, n: nat, texts: seq<string>, k: nat)
    requires InvAt(src, sig, m, n, texts, k) && Enabled(src, sig, m, Commit(now)) && !Returns(src, BoardPages(src, n))
    ensures Inv(src, sig, Apply(src, sig, m, Commit(now)))
  {
    var p := Decide(src, BoardPages(src, n), m.run.visited).page;
    var text := RecordText(p, now);
    CommittedPage(src, n, m.run.visited, now);
    HeldFileGrows(src, sig, m.file, BoardPages(src, n), texts, p, text);
    assert InvAt(src, sig, Apply(src, sig, m, Commit(now)), n + 1, texts + [text], |Joined(texts + [text])|);
  }

  lemma CommittedFile(header: string, texts: seq<string>, text: string)
    ensures var all := texts + [text];
            header + Joined(texts)[..|Joined(texts)|] + text + "\n" == header + Joined(all)[..|Joined(all)|]
  {
    JoinedAppend(texts, text);
    var all := texts + [text];
    assert Joined(texts)[..|Joined(texts)|] == Joined(texts);
    assert Joined(all)[..|Joined(all)|] == Joined(all);
  }

  lemma CrashKeepsInv(src: Source, sig: Json, m: Machine, size: nat, n: nat, texts: seq<string>, k: nat)
    requires InvAt(src, sig, m, n, texts, k) && Enabled(src, sig, m, Crash(size))
    ensures Inv(src, sig, Apply(src, sig, m, Crash(size)))
  {
    var h := HeaderLine(sig);
    assert m.file[..size] == h + Joined(texts)[..size - |h|];
    assert InvAt(src, sig, Apply(src, sig, m, Crash(size)), n, texts, size - |h|);
  }

  lemma StepKeepsInv(src: Source, sig: Json, m: Machine, s: Step)
    requires ValidSignature(sig) && NeverReturns(src) && Inv(src, sig, m) && Enabled(src, sig, m, s)
    ensures Inv(src, sig, Apply(src, sig, m, s))
  {
    var n: nat, texts: seq<string>, k: nat :| InvAt(src, sig, m, n, texts, k);
    match s
    case Resume => ResumeKeepsInv(src, sig, m, n, texts, k);
    case Commit(now) => CommitKeepsInv(src, sig, m, now, n, texts, k);
    case Crash(size) => CrashKeepsInv(src, sig, m, size, n, texts, k);
  }

  lemma StartInv(src: Source, sig: Json)
    ensures InvAt(src, sig, Start(sig), 0, [], 0)
  {
    assert HeaderLine(sig) + Joined([])[..0] == HeaderLine(sig);
  }

  lemma {:induction false} RunKeepsInv(src: Source, sig: Json, m: Machine, steps: seq<Step>, m': Machine)
    requires ValidSignature(sig) && NeverReturns(src) && Inv(src, sig, m) && Reaches(src, sig, m, steps, m')
    ensures Inv(src, sig, m')
    decreases |steps|
  {
    if steps != [] {
      StepKeepsInv(src, sig, m, steps[0]);
      RunKeepsInv(src, sig, Apply(src, sig, m, steps[0]), steps[1..], m');
    }
  }

  // ----- resuming refines the uninterrupted walk -----

  lemma InvLoads(src: Source, sig: Json, m: Machine) returns (l: Loaded<Page, Reject>)
    requires ValidSignature(sig) && Inv(src, sig, m)
    ensures l == Load(m.file, sig, src.rowOk) && l.Loaded? && l.pages == BoardPages(src, |l.pages|)
    ensures m.run.Up? ==> l.pages == m.run.pages
  {
    var n: nat, texts: seq<string>, k: nat :| InvAt(src, sig, m, n, texts, k);
    var i;
    i, l := HeldFileLoads(src, sig, m.file, BoardPages(src, n), texts, k);
    WalkPrefix(Steady(src), i, n);
    assert BoardPages(src, n)[..n] == BoardPages(src, n);
  }

  /** After any number of crashes and resumes, at any points, the file loads, and what it holds is a
      prefix of the uninterrupted walk: no page is lost out of the middle, repeated or reordered. A
      running scan has committed exactly what the file holds; when it finds nothing more to take, it
      holds the whole walk. */
  lemma ResumeRefinesWalk(src: Source, sig: Json, steps: seq<Step>, m: Machine)
    requires ValidSignature(sig) && NeverReturns(src) && Reaches(src, sig, Start(sig), steps, m)
    ensures var l := Load(m.file, sig, src.rowOk);
            && l.Loaded?
            && (forall n :: n >= |l.pages| ==> l.pages <= BoardPages(src, n))
            && (m.run.Up? ==> m.run.pages == l.pages)
            && (m.run.Up? && Decide(src, m.run.pages, m.run.visited).Halt? ==>
                 forall n :: n >= |l.pages| ==> BoardPages(src, n) == l.pages)
  {
    StartInv(src, sig);
    RunKeepsInv(src, sig, Start(sig), steps, m);
    var l := InvLoads(src, sig, m);
    var pages := l.pages;
    forall n: nat | n >= |pages| ensures pages <= BoardPages(src, n) {
      WalkGrows(Steady(src), |pages|, n);
      WalkPrefix(Steady(src), |pages|, n);
    }
    if m.run.Up? && Decide(src, m.run.pages, m.run.visited).Halt? {
      var k: nat, texts: seq<string>, c: nat :| InvAt(src, sig, m, k, texts, c);
      WalkIsChain(src, k);
      DecideForgets(src, pages, m.run.visited);
      forall n: nat | n >= |pages| ensures BoardPages(src, n) == pages {
        WalkStalls(Steady(src), |pages|, n);
      }
    }
  }
}
