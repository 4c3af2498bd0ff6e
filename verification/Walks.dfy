/** A walk that takes one page at a time, each decided by the pages taken so far. */
module Walks {

  datatype Move<P> = Halt | Take(page: P)

  /** The pages after at most `n` moves. */
  function Walk<P>(next: seq<P> -> Move<P>, n: nat): seq<P> {
    if n == 0 then []
    else
      var pages := Walk(next, n - 1);
      match next(pages)
      case Halt => pages
      case Take(p) => pages + [p]
  }

  /** A walk still going has taken a page at every move. */
  lemma {:induction false} WalkGoing<P>(next: seq<P> -> Move<P>, n: nat)
    requires next(Walk(next, n)).Take?
    ensures |Walk(next, n)| == n
  {
    if n > 0 { WalkGoing(next, n - 1); }
  }

  /** A walk that halted stays as it is. */
  lemma {:induction false} WalkStalls<P>(next: seq<P> -> Move<P>, k: nat, n: nat)
    requires k <= n && next(Walk(next, k)).Halt?
    ensures Walk(next, n) == Walk(next, k)
    decreases n
  {
    if k < n { WalkStalls(next, k, n - 1); }
  }

  lemma {:induction false} WalkGrows<P>(next: seq<P> -> Move<P>, m: nat, n: nat)
    requires m <= n
    ensures |Walk(next, m)| <= |Walk(next, n)|
    decreases n
  {
    if m < n { WalkGrows(next, m, n - 1); }
  }

  /** Shorter walks are the prefixes of longer ones. */
  lemma {:induction false} WalkPrefix<P>(next: seq<P> -> Move<P>, m: nat, n: nat)
    requires m <= |Walk(next, n)|
    ensures Walk(next, n)[..m] == Walk(next, m) && |Walk(next, m)| == m
  {
    if n > 0 {
      var before := Walk(next, n - 1);
      if m <= |before| {
        WalkPrefix(next, m, n - 1);
        assert Walk(next, n)[..m] == before[..m];
      } else {
        WalkGoing(next, n - 1);
        assert Walk(next, n)[..m] == Walk(next, n);
      }
    }
  }
}
