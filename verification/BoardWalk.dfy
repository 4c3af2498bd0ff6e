/** The sequential walk over the pages of a board, as one uninterrupted run would make it. */
module BoardWalk {
  import opened JsonTree
  import opened JsonText
  import opened Checkpoint
  import opened Walks

  /** What the source answers for a cursor; anything the scan would raise on is `Unusable`. */
  datatype Reply = Unusable | Reply(limit: int, rows: seq<Json>, next: Cursor)

  datatype Limit = Unlimited | AtMost(rows: nat)

  /** A deterministic source and the scan's settings. */
  datatype Source = Source(fetch: Cursor -> Reply, rowOk: Json -> bool, wallet: Json -> string, limit: Limit)

  predicate UsableReply(src: Source, r: Reply) {
    && r.Reply? && ValidCursor(r.next) && 1 <= r.limit <= MAX_PAGE_ROWS && |r.rows| <= r.limit
    && forall i :: 0 <= i < |r.rows| ==> src.rowOk(r.rows[i]) && Encodable(r.rows[i])
  }

  function Wallets(src: Source, rows: seq<Json>): set<string> {
    set i | 0 <= i < |rows| :: src.wallet(rows[i])
  }

  predicate LimitReached(src: Source, pages: seq<Page>) {
    src.limit.AtMost? && |RowsOf(pages)| >= src.limit.rows
  }

  predicate Hits(c: Cursor, tokens: set<string>) { c.Some? && c.token in tokens }

  /** The page that would follow, before looking at the cursors this process has visited. */
  function Propose(src: Source, pages: seq<Page>): Move<Page> {
    if Complete(pages) || LimitReached(src, pages) then Halt
    else
      var r := src.fetch(Continuation(pages));
      if !UsableReply(src, r) then Halt
      else if r.rows != [] && Wallets(src, r.rows) <= Wallets(src, RowsOf(pages)) then Halt
      else Take(Page(|pages|, r.limit, r.rows, Continuation(pages), r.next))
  }

  /** A continuation this process has already visited stops the scan without a commit. */
  function Decide(src: Source, pages: seq<Page>, visited: set<string>): Move<Page> {
    var d := Propose(src, pages);
    if d.Take? && Hits(d.page.next, visited) then Halt else d
  }

  /** All continuations handed out so far: what a process that never restarted has visited. */
  function Handed(pages: seq<Page>): set<string> {
    set i | 0 <= i < |pages| && pages[i].next.Some? :: pages[i].next.token
  }

  /** How a process that never restarts decides. */
  function Steady(src: Source): seq<Page> -> Move<Page> {
    pages => Decide(src, pages, Handed(pages))
  }

  /** The pages of one uninterrupted run after at most `n` commits. */
  function BoardPages(src: Source, n: nat): seq<Page> { Walk(Steady(src), n) }

  /** The next page of the walk leads back to a cursor consumed before its own. */
  predicate Returns(src: Source, pages: seq<Page>) {
    var d := Propose(src, pages);
    d.Take? && Hits(d.page.next, Consumed(pages))
  }

  ghost predicate NeverReturns(src: Source) { forall n: nat :: !Returns(src, BoardPages(src, n)) }

  // ----- the walk is a valid chain -----

  lemma HandedStep(pages: seq<Page>, p: Page)
    ensures Handed(pages + [p]) == Handed(pages) + Token(p.next)
  {
    var all := pages + [p];
    assert forall i :: 0 <= i < |pages| ==> all[i] == pages[i];
    assert all[|pages|] == p;
  }

  lemma {:induction false} ChainCursors(pages: seq<Page>, rowOk: Json -> bool)
    requires ValidChain(pages, rowOk)
    ensures Handed(pages) == Consumed(pages) + Token(Continuation(pages))
    ensures !Hits(Continuation(pages), Consumed(pages))
  {
    forall x | x in Handed(pages) ensures x in Consumed(pages) + Token(Continuation(pages)) {
      var i :| 0 <= i < |pages| && pages[i].next == Some(x);
      if i < |pages| - 1 { assert LinkAt(pages, i + 1); }
    }
    forall x | x in Consumed(pages) ensures x in Handed(pages) {
      var i :| 0 <= i < |pages| && pages[i].source == Some(x);
      assert LinkAt(pages, i);
    }
  }

  /** A page taken by any run that has visited at least its current cursor extends the chain, unless it
      leads back to an older cursor. */
  lemma TakenIsSound(src: Source, pages: seq<Page>, visited: set<string>)
    requires ValidChain(pages, src.rowOk)
    requires Decide(src, pages, visited).Take? && Token(Continuation(pages)) <= visited
    ensures var p := Decide(src, pages, visited).page;
            && SoundPage(p, src.rowOk) && p.index == |pages| && !Complete(pages) && p.source == Continuation(pages)
            && (forall i :: 0 <= i < |p.rows| ==> Encodable(p.rows[i]))
            && (LeadsBack(pages, p) <==> Returns(src, pages))
  {
    var p := Decide(src, pages, visited).page;
    assert pages != [] ==> SoundPage(pages[|pages| - 1], src.rowOk);
    assert p.source.Some? ==> p.source.token in Token(Continuation(pages));
  }

  lemma {:induction false} WalkIsChain(src: Source, n: nat)
    ensures ValidChain(BoardPages(src, n), src.rowOk)
  {
    if n > 0 {
      WalkIsChain(src, n - 1);
      MoveExtends(src, BoardPages(src, n - 1));
    }
  }

  lemma MoveExtends(src: Source, pages: seq<Page>)
    requires ValidChain(pages, src.rowOk)
    ensures Steady(src)(pages).Take? ==> ValidChain(pages + [Steady(src)(pages).page], src.rowOk)
  {
    ChainCursors(pages, src.rowOk);
    if Decide(src, pages, Handed(pages)).Take? {
      TakenIsSound(src, pages, Handed(pages));
      ChainExtends(pages, Decide(src, pages, Handed(pages)).page, src.rowOk);
    }
  }

  // ----- what is taken, and when the walk stops -----

  /** A page is taken exactly if the pages so far want more rows and have a continuation, the source answers
      it with a sound page, and that page is empty or shows a wallet not seen yet; and it holds the whole
      answer. */
  lemma ProposedExactly(src: Source, pages: seq<Page>, p: Page)
    ensures Propose(src, pages) == Take(p) <==>
      && (pages != [] ==> pages[|pages| - 1].next.Some?)
      && (src.limit.AtMost? ==> |RowsOf(pages)| < src.limit.rows)
      && p.source == (if pages == [] then None else pages[|pages| - 1].next) && p.index == |pages|
      && src.fetch(p.source) == Reply(p.limit, p.rows, p.next)
      && 1 <= p.limit <= 1000 && |p.rows| <= p.limit && (p.next.Some? ==> 1 <= |p.next.token| <= 8192)
      && (forall i :: 0 <= i < |p.rows| ==> src.rowOk(p.rows[i]) && Encodable(p.rows[i]))
      && (p.rows != [] ==> exists i :: 0 <= i < |p.rows| && NewWallet(src, pages, p.rows[i]))
  {
    var seen := Wallets(src, RowsOf(pages));
    if p.rows != [] && Wallets(src, p.rows) <= seen {
      forall i | 0 <= i < |p.rows| ensures !NewWallet(src, pages, p.rows[i]) {
        assert src.wallet(p.rows[i]) in Wallets(src, p.rows);
      }
    } else if p.rows != [] {
      var x :| x in Wallets(src, p.rows) && x !in seen;
      var i :| 0 <= i < |p.rows| && src.wallet(p.rows[i]) == x;
      assert NewWallet(src, pages, p.rows[i]);
    }
  }

  /** No row of the pages so far has this row's wallet. */
  ghost predicate NewWallet(src: Source, pages: seq<Page>, row: Json) {
    forall i :: 0 <= i < |RowsOf(pages)| ==> src.wallet(RowsOf(pages)[i]) != src.wallet(row)
  }

  /** Every page of the walk is the source's whole answer to its cursor. */
  lemma {:induction false} PagesAreAnswers(src: Source, n: nat, i: nat)
    requires i < |BoardPages(src, n)|
    ensures var p := BoardPages(src, n)[i]; src.fetch(p.source) == Reply(p.limit, p.rows, p.next)
  {
    if n > 0 {
      var before := BoardPages(src, n - 1);
      if i < |before| { PagesAreAnswers(src, n - 1, i); }
      else { ProposedExactly(src, before, BoardPages(src, n)[i]); }
    }
  }

  /** The process stops before such a page only if it has visited the page's continuation. */
  lemma DecidedExactly(src: Source, pages: seq<Page>, visited: set<string>, p: Page)
    ensures Decide(src, pages, visited) == Take(p) <==>
      Propose(src, pages) == Take(p) && (p.next.Some? ==> p.next.token !in visited)
  {
  }

  /** As long as no page leads back, what a process remembers beyond its current cursor makes no
      difference, so a restarted run decides as an uninterrupted one. */
  lemma DecideForgets(src: Source, pages: seq<Page>, visited: set<string>)
    requires ValidChain(pages, src.rowOk) && !Returns(src, pages)
    requires Token(Continuation(pages)) <= visited <= Handed(pages)
    ensures Decide(src, pages, visited) == Decide(src, pages, Handed(pages))
  {
    ChainCursors(pages, src.rowOk);
  }
}
