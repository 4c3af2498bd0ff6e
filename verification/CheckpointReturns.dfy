/** The condition on the source is exact: if a page of the walk leads back to an older cursor, a restart
    at the wrong moment leaves a checkpoint that no longer loads. */
module CheckpointReturns {
  import opened JsonTree
  import opened LineLog
  import opened Checkpoint
  import opened CheckpointRecord
  import opened BoardWalk
  import opened Walks
  import opened CheckpointRuns

  lemma {:induction false} ReachesAppend(src: Source, sig: Json, m: Machine, steps: seq<Step>, mid: Machine, s: Step)
    requires Reaches(src, sig, m, steps, mid) && Enabled(src, sig, mid, s)
    ensures Reaches(src, sig, m, steps + [s], Apply(src, sig, mid, s))
    decreases |steps|
  {
    var all := steps + [s];
    if steps == [] {
      assert all == [s] && all[1..] == [];
    } else {
      assert all[1..] == steps[1..] + [s];
      ReachesAppend(src, sig, Apply(src, sig, m, steps[0]), steps[1..], mid, s);
    }
  }

  lemma SteadyNeverReturns(src: Source, n: nat)
    requires Steady(src)(BoardPages(src, n)).Take?
    ensures !Returns(src, BoardPages(src, n))
  {
    WalkIsChain(src, n);
    ChainCursors(BoardPages(src, n), src.rowOk);
  }

  /** One uninterrupted run commits the first `n` pages of the walk. */
  lemma {:induction false} StraightRun(src: Source, sig: Json, n: nat)
      returns (steps: seq<Step>, texts: seq<string>, m: Machine)
    requires |BoardPages(src, n)| == n
    ensures Reaches(src, sig, Start(sig), steps, m) && InvAt(src, sig, m, n, texts, |Joined(texts)|)
    ensures m.run == Up(BoardPages(src, n), Handed(BoardPages(src, n)))
  {
    if n == 0 {
      steps, texts, m := [], [], Start(sig);
      StartInv(src, sig);
      assert Handed([]) == {};
    } else {
      var pages := BoardPages(src, n - 1);
      WalkPrefix(Steady(src), n - 1, n);
      steps, texts, m := StraightRun(src, sig, n - 1);
      assert Steady(src)(pages).Take?;
      SteadyNeverReturns(src, n - 1);
      var p := Decide(src, pages, Handed(pages)).page;
      CommitInv(src, sig, m, n - 1, texts);
      ReachesAppend(src, sig, Start(sig), steps, m, Commit(0));
      HandedStep(pages, p);
      steps, texts, m := steps + [Commit(0)], texts + [RecordText(p, 0)], Apply(src, sig, m, Commit(0));
    }
  }

  lemma CommitInv(src: Source, sig: Json, m: Machine, n: nat, texts: seq<string>)
    requires InvAt(src, sig, m, n, texts, |Joined(texts)|) && Enabled(src, sig, m, Commit(0))
    requires !Returns(src, BoardPages(src, n))
    ensures var all := texts + [RecordText(Decide(src, BoardPages(src, n), m.run.visited).page, 0)];
            InvAt(src, sig, Apply(src, sig, m, Commit(0)), n + 1, all, |Joined(all)|)
  {
    var p := Decide(src, BoardPages(src, n), m.run.visited).page;
    CommittedPage(src, n, m.run.visited, 0);
    HeldFileGrows(src, sig, m.file, BoardPages(src, n), texts, p, RecordText(p, 0));
  }

  /** A restarted process remembers only its current cursor, so it takes the page that leads back. */
  lemma RestartTakes(src: Source, pages: seq<Page>)
    requires ValidChain(pages, src.rowOk) && Returns(src, pages)
    ensures Decide(src, pages, Token(Continuation(pages))) == Propose(src, pages)
  {
    ChainCursors(pages, src.rowOk);
  }

  /** The loader refuses the record of that page. */
  lemma ReturnIsRejected(src: Source, pages: seq<Page>, now: int)
    requires ValidChain(pages, src.rowOk) && Returns(src, pages)
    ensures var text := RecordText(Propose(src, pages).page, now);
            OneLine(text) && Reader(src.rowOk)(pages, text + "\n") == BadLine(RepeatedCursor)
  {
    var p := Propose(src, pages).page;
    RestartTakes(src, pages);
    TakenIsSound(src, pages, Token(Continuation(pages)));
    AdmitWritten(pages, p, now, src.rowOk);
    PageEncodable(p, now);
    ObjectLine(pages, PageJson(p, now), src.rowOk);
  }

  lemma BadRecordFails(src: Source, sig: Json, file: string, pages: seq<Page>, texts: seq<string>, text: string)
    requires ValidSignature(sig) && Holds(src, sig, file, pages, texts, |Joined(texts)|)
    requires OneLine(text) && Reader(src.rowOk)(pages, text + "\n") == BadLine(RepeatedCursor)
    ensures Load(file + text + "\n", sig, src.rowOk) == Failed(RepeatedCursor)
  {
    AppendedFile(HeaderLine(sig), Joined(texts), text);
    LoadBehindHeader(sig, Joined(texts) + (text + "\n"), src.rowOk);
    LoadThenRejected(pages, texts, text, RepeatedCursor, |HeaderLine(sig)|, Reader(src.rowOk));
  }

  lemma AppendedFile(header: string, whole: string, text: string)
    ensures header + whole[..|whole|] + text + "\n" == header + (whole + (text + "\n"))
  {
    assert whole[..|whole|] == whole;
  }

  /** Crash and resume without losing anything. */
  lemma Restart(src: Source, sig: Json, m: Machine, n: nat, texts: seq<string>) returns (m': Machine)
    requires ValidSignature(sig) && InvAt(src, sig, m, n, texts, |Joined(texts)|)
    ensures Enabled(src, sig, m, Crash(|m.file|)) && Enabled(src, sig, Apply(src, sig, m, Crash(|m.file|)), Resume)
    ensures m' == Apply(src, sig, Apply(src, sig, m, Crash(|m.file|)), Resume)
    ensures m' == Machine(m.file, Up(BoardPages(src, n), Token(Continuation(BoardPages(src, n)))))
  {
    assert m.file[..|m.file|] == m.file;
    var i, l := HeldFileLoads(src, sig, m.file, BoardPages(src, n), texts, |Joined(texts)|);
    assert texts[..i] == texts && BoardPages(src, n)[..i] == BoardPages(src, n);
    assert Joined(texts)[..|Joined(texts)|] == Joined(texts);
    m' := Apply(src, sig, Apply(src, sig, m, Crash(|m.file|)), Resume);
  }

  /** If some page of the walk leads back, one restart suffices to spoil the checkpoint. */
  lemma ReturnSpoils(src: Source, sig: Json, n: nat) returns (steps: seq<Step>, m: Machine)
    requires ValidSignature(sig) && Returns(src, BoardPages(src, n))
    ensures Reaches(src, sig, Start(sig), steps, m) && Load(m.file, sig, src.rowOk) == Failed(RepeatedCursor)
  {
    var k := |BoardPages(src, n)|;
    WalkPrefix(Steady(src), k, n);
    var pages := BoardPages(src, k);
    assert BoardPages(src, n)[..k] == BoardPages(src, n) == pages;
    WalkIsChain(src, k);
    var texts;
    steps, texts, m := StraightRun(src, sig, k);
    var up := Restart(src, sig, m, k, texts);
    ReachesAppend(src, sig, Start(sig), steps, m, Crash(|m.file|));
    ReachesAppend(src, sig, Start(sig), steps + [Crash(|m.file|)], Apply(src, sig, m, Crash(|m.file|)), Resume);
    RestartTakes(src, pages);
    ReturnIsRejected(src, pages, 0);
    BadRecordFails(src, sig, m.file, pages, texts, RecordText(Propose(src, pages).page, 0));
    steps := steps + [Crash(|m.file|)] + [Resume];
    ReachesAppend(src, sig, Start(sig), steps, up, Commit(0));
    steps, m := steps + [Commit(0)], Apply(src, sig, up, Commit(0));
  }

  /** A source that answers every cursor with an empty page and goes from the start to a, to b and back
      to a. */
  function CircularSource(): Source {
    Source(c => if c == Some("a") then Reply(1, [], Some("b")) else Reply(1, [], Some("a")),
           row => true, row => "", Unlimited)
  }

  lemma FirstPages()
    ensures BoardPages(CircularSource(), 2)
         == [Page(0, 1, [], None, Some("a")), Page(1, 1, [], Some("a"), Some("b"))]
  {
    var src := CircularSource();
    var p := Page(0, 1, [], None, Some("a"));
    assert BoardPages(src, 0) == [] && Handed([]) == {};
    assert Steady(src)([]) == Take(p);
    assert BoardPages(src, 1) == [p];
    HandedStep([], p);
    assert [] + [p] == [p] && Handed([p]) == {"a"};
    assert Steady(src)([p]) == Take(Page(1, 1, [], Some("a"), Some("b")));
  }

  /** With that source one restart after two pages spoils the checkpoint. */
  lemma CircularSourceSpoils(sig: Json) returns (steps: seq<Step>, m: Machine)
    requires ValidSignature(sig)
    ensures Reaches(CircularSource(), sig, Start(sig), steps, m)
    ensures Load(m.file, sig, CircularSource().rowOk) == Failed(RepeatedCursor)
  {
    FirstPages();
    var pages := BoardPages(CircularSource(), 2);
    assert pages[1].source == Some("a") && "a" in Consumed(pages);
    steps, m := ReturnSpoils(CircularSource(), sig, 2);
  }

  ghost predicate LoadsAfter(src: Source, sig: Json, steps: seq<Step>, m: Machine) {
    Reaches(src, sig, Start(sig), steps, m) ==> Load(m.file, sig, src.rowOk).Loaded?
  }

  /** Every file that crashes and resumes can leave loads again exactly when no page of the walk leads
      back to a cursor consumed before its own. */
  lemma LoadableIffNeverReturns(src: Source, sig: Json)
    requires ValidSignature(sig)
    ensures NeverReturns(src) <==> forall steps, m :: LoadsAfter(src, sig, steps, m)
  {
    if NeverReturns(src) {
      forall steps, m ensures LoadsAfter(src, sig, steps, m) {
        if Reaches(src, sig, Start(sig), steps, m) { ResumeRefinesWalk(src, sig, steps, m); }
      }
    } else {
      var n: nat :| Returns(src, BoardPages(src, n));
      var steps, m := ReturnSpoils(src, sig, n);
      assert !LoadsAfter(src, sig, steps, m);
    }
  }
}
