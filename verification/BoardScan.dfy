/** The checkpoint writer and the scan loop that feeds it, tied to the steps of `CheckpointRuns`. */
module BoardScan {
  import opened JsonTree
  import opened JsonText
  import opened LineLog
  import opened Checkpoint
  import opened CheckpointRecord
  import opened BoardWalk
  import opened Walks
  import opened CheckpointRuns
  import opened CheckpointReturns

  class CheckpointWriter {
    var file: string
    var written: nat

    /** Opens a file for appending: truncates the torn tail and ends an unterminated last line. */
    constructor (file: string, tail: Tail)
      requires tail.CutAt? ==> tail.offset <= |file|
      ensures this.file == Repaired(file, tail) && written == 0
    {
      var kept := if tail.CutAt? then file[..tail.offset] else file;
      var needsNewline := kept != [] && kept[|kept| - 1] != '\n';
      this.file := if needsNewline then kept + "\n" else kept;
      written := 0;
    }

    /** Appends one page as a single line, or raises before touching the file. */
    method Record(p: Page, now: int, rowOk: Json -> bool) returns (ok: bool)
      modifies this
      ensures ok <==> (ValidCursor(p.source) && ValidCursor(p.next)
                       && forall i :: 0 <= i < |p.rows| ==> rowOk(p.rows[i]) && Encodable(p.rows[i]))
      ensures ok ==> file == old(file) + RecordText(p, now) + "\n" && written == old(written) + 1
      ensures !ok ==> file == old(file) && written == old(written)
    {
      ok := ValidCursor(p.source) && ValidCursor(p.next)
         && forall i :: 0 <= i < |p.rows| ==> rowOk(p.rows[i]) && Encodable(p.rows[i]);
      if ok {
        file := file + RecordText(p, now) + "\n";
        written := written + 1;
      }
    }
  }

  /** The process starts with the loaded pages and remembers only their continuation. */
  ghost function Resumed(file: string, pages: seq<Page>): Machine {
    Machine(file, Up(pages, Token(Continuation(pages))))
  }

  lemma WalletsConcat(src: Source, a: seq<Json>, b: seq<Json>)
    ensures Wallets(src, a + b) == Wallets(src, a) + Wallets(src, b)
  {
    var all := a + b;
    assert forall i :: 0 <= i < |a| ==> all[i] == a[i];
    assert forall i :: 0 <= i < |b| ==> all[|a| + i] == b[i];
    forall x | x in Wallets(src, a) + Wallets(src, b) ensures x in Wallets(src, all) {
      if x in Wallets(src, a) {
        var i :| 0 <= i < |a| && src.wallet(a[i]) == x;
        assert src.wallet(all[i]) == x;
      } else {
        var i :| 0 <= i < |b| && src.wallet(b[i]) == x;
        assert src.wallet(all[|a| + i]) == x;
      }
    }
  }

  /** What this process has seen of earlier pages says nothing beyond the observed wallets. */
  ghost predicate Subsumed(src: Source, fingerprints: set<seq<Json>>, memberships: set<set<string>>,
                           observed: set<string>) {
    && (forall f :: f in fingerprints ==> Wallets(src, f) <= observed)
    && (forall s :: s in memberships ==> s <= observed)
  }

  /** The loop's variables describe the pages so far. */
  ghost predicate Knows(src: Source, pages: seq<Page>, rows: seq<Json>, pageIndex: nat, cursor: Cursor,
                        fingerprints: set<seq<Json>>, memberships: set<set<string>>, observed: set<string>) {
    && rows == RowsOf(pages) && pageIndex == |pages| && cursor == Continuation(pages) && ValidCursor(cursor)
    && observed == Wallets(src, rows) && Subsumed(src, fingerprints, memberships, observed)
  }

  lemma KnowsNext(src: Source, pages: seq<Page>, rows: seq<Json>, pageIndex: nat, cursor: Cursor,
                  fingerprints: set<seq<Json>>, memberships: set<set<string>>, observed: set<string>, p: Page)
    requires Knows(src, pages, rows, pageIndex, cursor, fingerprints, memberships, observed) && ValidCursor(p.next)
    ensures var seen := if p.rows == [] then memberships else memberships + {Wallets(src, p.rows)};
            Knows(src, pages + [p], rows + p.rows, pageIndex + 1, p.next, fingerprints + {p.rows}, seen,
                  observed + Wallets(src, p.rows))
  {
    PagesStep(pages, p);
    SubsumedStep(src, fingerprints, memberships, rows, p.rows);
  }

  lemma CompleteHalts(src: Source, pages: seq<Page>, visited: set<string>, p: Page)
    ensures Complete(pages + [p]) <==> p.next.None?
    ensures p.next.None? ==> Decide(src, pages + [p], visited).Halt?
  {
  }

  /** One iteration's checks, on what the process knows of the pages so far. */
  method NextPage(src: Source, rows: seq<Json>, pageIndex: nat, cursor: Cursor, visited: set<string>,
                  fingerprints: set<seq<Json>>, memberships: set<set<string>>, observed: set<string>,
                  ghost pages: seq<Page>) returns (d: Move<Page>)
    requires !Complete(pages) && Knows(src, pages, rows, pageIndex, cursor, fingerprints, memberships, observed)
    ensures d == Decide(src, pages, visited)
    ensures d.Take? ==> d.page.source == cursor && ValidCursor(d.page.next)
    ensures d.Take? ==> forall i :: 0 <= i < |d.page.rows| ==> src.rowOk(d.page.rows[i]) && Encodable(d.page.rows[i])
  {
    if src.limit.AtMost? && |rows| >= src.limit.rows { return Halt; }
    var reply := src.fetch(cursor);
    if !UsableReply(src, reply) || Hits(reply.next, visited) { return Halt; }
    var wallets := Wallets(src, reply.rows);
    if reply.rows != [] && (reply.rows in fingerprints || wallets in memberships || wallets <= observed) {
      return Halt;
    }
    return Take(Page(pageIndex, reply.limit, reply.rows, cursor, reply.next));
  }

  lemma CommitReaches(src: Source, sig: Json, from: Machine, steps: seq<Step>, file: string, pages: seq<Page>,
                      visited: set<string>, p: Page, now: int)
    requires Reaches(src, sig, from, steps, Machine(file, Up(pages, visited))) && Decide(src, pages, visited) == Take(p)
    ensures Reaches(src, sig, from, steps + [Commit(now)],
                    Machine(file + RecordText(p, now) + "\n", Up(pages + [p], visited + Token(p.next))))
  {
    ReachesAppend(src, sig, from, steps, Machine(file, Up(pages, visited)), Commit(now));
  }

  lemma SubsumedStep(src: Source, fingerprints: set<seq<Json>>, memberships: set<set<string>>,
                     rows: seq<Json>, page: seq<Json>)
    requires Subsumed(src, fingerprints, memberships, Wallets(src, rows))
    ensures Wallets(src, rows + page) == Wallets(src, rows) + Wallets(src, page)
    ensures Subsumed(src, fingerprints + {page}, memberships + {Wallets(src, page)}, Wallets(src, rows + page))
  {
    WalletsConcat(src, rows, page);
  }

  /** `scan_leaderboard_v2` for at most `budget` pages: every page it commits is a commit step, and if
      it stops by itself nothing more can be taken. Although it forgets, across restarts, the page
      fingerprints and wallet memberships it also compares, they never change its decision. */
  method ScanBoard(src: Source, sig: Json, w: CheckpointWriter, loaded: State, budget: nat, now: int,
                   ghost start: seq<Page>)
      returns (rows: seq<Json>, halted: bool, ghost steps: seq<Step>, ghost pages: seq<Page>, visited: set<string>)
    requires loaded.rows == RowsOf(start) && loaded.nextPage == |start| && loaded.cursor == Continuation(start)
    requires loaded.complete == Complete(start) && ValidCursor(Continuation(start))
    modifies w
    ensures Reaches(src, sig, Resumed(old(w.file), start), steps, Machine(w.file, Up(pages, visited)))
    ensures rows == RowsOf(pages)
    ensures halted ==> Decide(src, pages, visited).Halt?
    ensures !halted ==> |pages| == |start| + budget
  {
    if loaded.complete { return loaded.rows, true, [], start, Token(loaded.cursor); }
    rows, halted, steps, pages, visited := ScanPages(src, sig, w, loaded, budget, now, start);
  }

  /** The loop over the pages of a board that is not complete. */
  method ScanPages(src: Source, sig: Json, w: CheckpointWriter, loaded: State, budget: nat, now: int,
                   ghost start: seq<Page>)
      returns (rows: seq<Json>, halted: bool, ghost steps: seq<Step>, ghost pages: seq<Page>, visited: set<string>)
    requires loaded.rows == RowsOf(start) && loaded.nextPage == |start| && loaded.cursor == Continuation(start)
    requires !Complete(start) && ValidCursor(Continuation(start))
    modifies w
    ensures Reaches(src, sig, Resumed(old(w.file), start), steps, Machine(w.file, Up(pages, visited)))
    ensures rows == RowsOf(pages)
    ensures halted ==> Decide(src, pages, visited).Halt?
    ensures !halted ==> |pages| == |start| + budget
  {
    rows, pages, steps, visited := loaded.rows, start, [], Token(loaded.cursor);
    var pageIndex, cursor, taken := loaded.nextPage, loaded.cursor, 0;
    var fingerprints: set<seq<Json>>, memberships: set<set<string>> := {}, {};
    var observed := Wallets(src, rows);
    halted := false;
    while taken < budget && !halted
      invariant Reaches(src, sig, Resumed(old(w.file), start), steps, Machine(w.file, Up(pages, visited)))
      invariant taken <= budget && |pages| == |start| + taken
      invariant Knows(src, pages, rows, pageIndex, cursor, fingerprints, memberships, observed)
      invariant halted ==> Decide(src, pages, visited).Halt?
      invariant !halted ==> !Complete(pages)
      decreases budget - taken, !halted
    {
      var d := NextPage(src, rows, pageIndex, cursor, visited, fingerprints, memberships, observed, pages);
      if d.Halt? {
        halted := true;
      } else {
        var p := d.page;
        CommitReaches(src, sig, Resumed(old(w.file), start), steps, w.file, pages, visited, p, now);
        KnowsNext(src, pages, rows, pageIndex, cursor, fingerprints, memberships, observed, p);
        CompleteHalts(src, pages, visited + Token(p.next), p);
        var _ := w.Record(p, now, src.rowOk);
        fingerprints := fingerprints + {p.rows};
        if p.rows != [] { memberships := memberships + {Wallets(src, p.rows)}; }
        observed := observed + Wallets(src, p.rows);
        rows, pages, steps := rows + p.rows, pages + [p], steps + [Commit(now)];
        pageIndex, cursor, taken := pageIndex + 1, p.next, taken + 1;
        visited := visited + Token(p.next);
        halted := p.next.None?;
      }
    }
  }

  // ----- resuming from a file -----

  lemma LoadedIsUsable(file: string, sig: Json, rowOk: Json -> bool)
    requires Load(file, sig, rowOk).Loaded?
    ensures var l := Load(file, sig, rowOk);
            && ValidCursor(Continuation(l.pages)) && (l.tail.CutAt? ==> l.tail.offset <= |file|)
  {
    AcceptedFileIsChain(file, sig, rowOk);
    var n := LineLength(file);
    TailInside(file[n..], n, [], Reader(rowOk));
    var pages := Load(file, sig, rowOk).pages;
    assert pages != [] ==> SoundPage(pages[|pages| - 1], rowOk);
  }

  lemma ResumeReaches(src: Source, sig: Json, file: string, steps: seq<Step>, m: Machine)
    requires Load(file, sig, src.rowOk).Loaded?
    requires var l := Load(file, sig, src.rowOk);
             Reaches(src, sig, Resumed(Repaired(file, l.tail), l.pages), steps, m)
    ensures Reaches(src, sig, Machine(file, Down), [Resume] + steps, m)
  {
    assert ([Resume] + steps)[1..] == steps;
  }

  /** The resume path: load the file, repair it, scan on. A file the loader rejects stays untouched;
      otherwise the new file is reached by a resume and commits, and holds exactly the rows returned. */
  method ResumeScan(src: Source, sig: Json, file: string, budget: nat, now: int)
      returns (ok: bool, rows: seq<Json>, file': string, halted: bool, ghost steps: seq<Step>, ghost m: Machine)
    ensures ok <==> Load(file, sig, src.rowOk).Loaded?
    ensures !ok ==> file' == file
    ensures ok ==> Reaches(src, sig, Machine(file, Down), steps, m) && m.file == file' && m.run.Up?
    ensures ok ==> rows == RowsOf(m.run.pages) && (halted ==> Decide(src, m.run.pages, m.run.visited).Halt?)
  {
    var outcome := LoadCheckpoint(file, sig, src.rowOk);
    ghost var l := Load(file, sig, src.rowOk);
    if outcome.LoadError? { return false, [], file, false, [], Machine(file, Down); }
    LoadedIsUsable(file, sig, src.rowOk);
    var w := new CheckpointWriter(file, outcome.state.tail);
    ghost var more, pages;
    var visited;
    rows, halted, more, pages, visited := ScanBoard(src, sig, w, outcome.state, budget, now, l.pages);
    file' := w.file;
    steps, m := [Resume] + more, Machine(w.file, Up(pages, visited));
    ResumeReaches(src, sig, file, more, m);
    ok := true;
  }
}
