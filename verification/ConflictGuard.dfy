/** The copy conflict guard: a copy is refused while a recent copy of the same token from another wallet
    is on record. Which orders of times make that a time window, and which do not. */
module ConflictGuard {

  /** An activity as the guard sees it; an empty key means the guard does not apply. */
  datatype Item = Item(key: string, side: string, wallet: string, ts: int)

  datatype Mark = Mark(side: string, wallet: string, ts: int)

  type Cache = map<string, Mark>

  datatype Verdict = Clear | OppositeSide(other: string) | Duplicate(other: string)

  /** A recorded time of zero counts as the present, so it is never stale. */
  predicate Stale(m: Mark, now: int, window: nat) { m.ts != 0 && now - m.ts > window }

  function Purged(c: Cache, now: int, window: nat): Cache {
    if window == 0 then c else map k | k in c && !Stale(c[k], now, window) :: c[k]
  }

  function Judge(c: Cache, x: Item): Verdict {
    if x.key !in c || c[x.key].wallet == x.wallet then Clear
    else if c[x.key].side != "" && c[x.key].side != x.side then OppositeSide(c[x.key].wallet)
    else Duplicate(c[x.key].wallet)
  }

  class Guard {
    var cache: Cache
    const enabled: bool
    const window: nat

    constructor (enabled: bool, window: int)
      ensures this.enabled == enabled && this.window == (if window < 0 then 0 else window) && cache == map[]
    {
      this.enabled := enabled;
      this.window := if window < 0 then 0 else window;
      cache := map[];
    }

    /** `_copy_conflict_reason`: drops stale marks, then looks for another wallet's mark. */
    method Reason(x: Item) returns (v: Verdict)
      modifies this`cache
      ensures !enabled || x.key == "" ==> v == Clear && cache == old(cache)
      ensures enabled && x.key != "" ==>
        cache == Purged(old(cache), x.ts, window) && v == Judge(cache, x)
    {
      if !enabled || x.key == "" { return Clear; }
      if window > 0 {
        var stale := set k | k in cache && Stale(cache[k], x.ts, window);
        while stale != {}
          invariant stale == set k | k in cache && Stale(cache[k], x.ts, window)
          invariant Purged(cache, x.ts, window) == Purged(old(cache), x.ts, window)
          decreases |stale|
        {
          var k :| k in stale;
          cache := cache - {k};
          stale := stale - {k};
        }
        assert forall k :: k in cache ==> k !in stale;
      }
      return Judge(cache, x);
    }

    /** `_commit_copy_conflict`: records the accepted copy. */
    method Commit(x: Item)
      modifies this`cache
      ensures cache == if enabled && x.key != "" then old(cache)[x.key := Mark(x.side, x.wallet, x.ts)] else old(cache)
    {
      if enabled && x.key != "" {
        cache := cache[x.key := Mark(x.side, x.wallet, x.ts)];
      }
    }

    /** One activity through the guard: judged, and recorded if the order was then accepted. With the
        guard on, cache and verdict are those of one event of a run. */
    method Handle(x: Item, orderAccepted: bool) returns (v: Verdict)
      modifies this`cache
      ensures enabled ==>
        var e := Event(x, v.Clear? && orderAccepted);
        v == VerdictOf(old(cache), e, window) && cache == After(old(cache), e, window)
      ensures !enabled ==> v == Clear && cache == old(cache)
    {
      v := Reason(x);
      if v.Clear? && orderAccepted { Commit(x); }
    }
  }

  // ----- runs with the guard on -----

  /** One handled activity; an order the guard cleared may still be refused further down. */
  datatype Event = Event(item: Item, accepted: bool)

  function VerdictOf(c: Cache, e: Event, window: nat): Verdict {
    if e.item.key == "" then Clear else Judge(Purged(c, e.item.ts, window), e.item)
  }

  function After(c: Cache, e: Event, window: nat): Cache {
    if e.item.key == "" then c
    else
      var p := Purged(c, e.item.ts, window);
      if e.accepted then p[e.item.key := Mark(e.item.side, e.item.wallet, e.item.ts)] else p
  }

  function CacheAfter(run: seq<Event>, window: nat): Cache {
    if run == [] then map[]
    else After(CacheAfter(run[..|run| - 1], window), run[|run| - 1], window)
  }

  /** The guard was obeyed: an activity is accepted only when the guard found nothing. */
  ghost predicate Obeyed(run: seq<Event>, window: nat) {
    forall i :: 0 <= i < |run| && run[i].accepted ==> VerdictOf(CacheAfter(run[..i], window), run[i], window).Clear?
  }

  /** Every mark is the trace of an accepted activity. */
  ghost predicate Traced(c: Cache, run: seq<Event>) {
    forall k :: k in c ==> exists i :: 0 <= i < |run| && IsTrace(run[i], k, c[k])
  }

  ghost predicate IsTrace(e: Event, k: string, m: Mark) {
    e.accepted && k != "" && e.item == Item(k, m.side, m.wallet, m.ts)
  }

  lemma CacheStep(run: seq<Event>, window: nat, n: nat)
    requires n < |run|
    ensures CacheAfter(run[..n + 1], window) == After(CacheAfter(run[..n], window), run[n], window)
  {
    assert run[..n + 1][..n] == run[..n];
  }

  /** The mark recorded by `run[i']` is stale when `run[j]` is handled. */
  ghost predicate Expired(run: seq<Event>, i': int, j: int, window: nat) {
    && 0 <= i' < j < |run| && window > 0
    && Stale(Mark("", "", run[i'].item.ts), run[j].item.ts, window)
  }

  /** After `n` events the mark of `run[i]`'s key is that of `run[i']`, from the same wallet. */
  ghost predicate MarkedBy(run: seq<Event>, window: nat, i: int, i': int, n: int) {
    && 0 <= i <= i' < n <= |run|
    && var c := CacheAfter(run[..n], window);
    var key := run[i].item.key;
    key in c && c[key].ts == run[i'].item.ts && c[key].wallet == run[i].item.wallet
  }

  lemma MarkStep(run: seq<Event>, window: nat, i: int, i': int, n: int)
    requires Obeyed(run, window) && MarkedBy(run, window, i, i', n) && n < |run| && run[i].item.key != ""
    ensures MarkedBy(run, window, i, i', n + 1) || MarkedBy(run, window, i, n, n + 1) || Expired(run, i', n, window)
    ensures run[n].accepted && run[n].item.key == run[i].item.key && run[n].item.wallet != run[i].item.wallet ==>
      Expired(run, i', n, window)
  {
    CacheStep(run, window, n);
  }

  /** From an accepted copy on, its wallet's mark stays until some later event finds it stale. */
  lemma {:induction false} MarkLasts(run: seq<Event>, window: nat, i: nat, n: nat)
    requires Obeyed(run, window) && i < n <= |run| && run[i].accepted && run[i].item.key != ""
    ensures (exists i' :: MarkedBy(run, window, i, i', n))
         || (exists i', j :: i <= i' && j < n && Expired(run, i', j, window))
  {
    if n == i + 1 {
      CacheStep(run, window, i);
      assert MarkedBy(run, window, i, i, n);
    } else {
      var m := n - 1;
      MarkLasts(run, window, i, m);
      if i' :| MarkedBy(run, window, i, i', m) { MarkStep(run, window, i, i', m); }
    }
  }

  /** Two accepted copies of one token from different wallets: in between, or at the second, a mark of
      the first wallet was found stale. */
  lemma ChangeOfWallet(run: seq<Event>, window: nat, i: nat, k: nat) returns (i': int, j: int)
    requires Obeyed(run, window) && i < k < |run| && run[i].accepted && run[k].accepted
    requires run[i].item.key == run[k].item.key != "" && run[i].item.wallet != run[k].item.wallet
    ensures i <= i' && j <= k && Expired(run, i', j, window)
  {
    MarkLasts(run, window, i, k);
    if m :| MarkedBy(run, window, i, m, k) {
      MarkStep(run, window, i, m, k);
      i', j := m, k;
    } else {
      i', j :| i <= i' && j < k && Expired(run, i', j, window);
    }
  }

  /** With no window only one wallet is ever accepted for a token, in whatever order times come. */
  lemma OneWalletWithoutWindow(run: seq<Event>, i: nat, k: nat)
    requires Obeyed(run, 0) && i < k < |run| && run[i].accepted && run[k].accepted
    requires run[i].item.key == run[k].item.key != ""
    ensures run[i].item.wallet == run[k].item.wallet
  {
    if run[i].item.wallet != run[k].item.wallet {
      var _, _ := ChangeOfWallet(run, 0, i, k);
    }
  }

  // ----- exactly which times keep the window -----

  ghost predicate Timed(run: seq<Event>, ts: seq<int>) {
    |run| == |ts| && forall n :: 0 <= n < |ts| ==> run[n].item.ts == ts[n]
  }

  function Distance(a: int, b: int): int { if a >= b then a - b else b - a }

  /** Accepted copies of one token from different wallets are more than the window apart. */
  ghost predicate KeepsWindow(run: seq<Event>, window: nat) {
    forall i, k :: 0 <= i < k < |run| && run[i].accepted && run[k].accepted
      && run[i].item.key == run[k].item.key != "" && run[i].item.wallet != run[k].item.wallet
      ==> Distance(run[k].item.ts, run[i].item.ts) > window
  }

  /** An event at `j` is late enough to purge a mark of `i'`, although `k`, which comes no earlier than
      `j`, is within the window of `i`, which comes no later than `i'`. */
  ghost predicate SlipAt(ts: seq<int>, window: nat, i: int, i': int, j: int, k: int) {
    && 0 <= i <= i' < j <= k < |ts|
    && ts[i'] != 0 && ts[j] - ts[i'] > window && Distance(ts[k], ts[i]) <= window
  }

  ghost predicate Slips(ts: seq<int>, window: nat) {
    exists i, i', j, k :: SlipAt(ts, window, i, i', j, k)
  }

  lemma NoSlipKeepsWindow(run: seq<Event>, ts: seq<int>, window: nat)
    requires Timed(run, ts) && Obeyed(run, window) && !Slips(ts, window)
    ensures KeepsWindow(run, window)
  {
    forall i, k | 0 <= i < k < |run| && run[i].accepted && run[k].accepted
      && run[i].item.key == run[k].item.key != "" && run[i].item.wallet != run[k].item.wallet
      ensures Distance(run[k].item.ts, run[i].item.ts) > window
    {
      var i', j := ChangeOfWallet(run, window, i, k);
      assert !SlipAt(ts, window, i, i', j, k);
    }
  }

  /** The run that exploits a slip: wallet x copies a token at `i` and `i'`, something else happens at
      `j`, wallet y copies the token at `k`, and nothing the guard looks at happens otherwise. */
  function SlipEvent(ts: seq<int>, i: int, i': int, j: int, k: int, n: int): Event
    requires 0 <= n < |ts|
  {
    if n == k then Event(Item("token", "BUY", "y", ts[n]), true)
    else if n == i || n == i' then Event(Item("token", "BUY", "x", ts[n]), true)
    else if n == j then Event(Item("other", "BUY", "x", ts[n]), false)
    else Event(Item("", "", "", ts[n]), false)
  }

  function SlipRun(ts: seq<int>, i: int, i': int, j: int, k: int): seq<Event> {
    seq(|ts|, n requires 0 <= n < |ts| => SlipEvent(ts, i, i', j, k, n))
  }

  /** What the cache knows of the token before event `n` of that run. */
  ghost predicate SlipCache(c: Cache, ts: seq<int>, i: int, i': int, j: int, n: int)
    requires 0 <= i <= i' < j < |ts|
  {
    && (n <= i || j < n ==> "token" !in c)
    && (i < n <= i' ==> "token" in c && c["token"].wallet == "x")
    && (i' < n <= j ==> "token" in c && c["token"] == Mark("BUY", "x", ts[i']))
  }

  lemma SlipCacheStep(c: Cache, ts: seq<int>, window: nat, i: int, i': int, j: int, k: int, n: int)
    requires window > 0 && SlipAt(ts, window, i, i', j, k) && 0 <= n < k && SlipCache(c, ts, i, i', j, n)
    ensures SlipCache(After(c, SlipEvent(ts, i, i', j, k, n), window), ts, i, i', j, n + 1)
  {
  }

  lemma {:induction false} SlipCacheHolds(ts: seq<int>, window: nat, i: int, i': int, j: int, k: int, n: nat)
    requires window > 0 && SlipAt(ts, window, i, i', j, k) && n <= k
    ensures SlipCache(CacheAfter(SlipRun(ts, i, i', j, k)[..n], window), ts, i, i', j, n)
  {
    var run := SlipRun(ts, i, i', j, k);
    if n == 0 {
      assert run[..0] == [];
    } else {
      SlipCacheHolds(ts, window, i, i', j, k, n - 1);
      CacheStep(run, window, n - 1);
      SlipCacheStep(CacheAfter(run[..n - 1], window), ts, window, i, i', j, k, n - 1);
    }
  }

  lemma SlipBreaks(ts: seq<int>, window: nat, i: int, i': int, j: int, k: int)
    requires window > 0 && SlipAt(ts, window, i, i', j, k)
    ensures var run := SlipRun(ts, i, i', j, k);
            Timed(run, ts) && Obeyed(run, window) && !KeepsWindow(run, window)
  {
    var run := SlipRun(ts, i, i', j, k);
    forall n | 0 <= n < |run| && run[n].accepted
      ensures VerdictOf(CacheAfter(run[..n], window), run[n], window).Clear?
    {
      SlipCacheHolds(ts, window, i, i', j, k, n);
    }
    assert run[i].item.wallet == "x" && run[k].item.wallet == "y";
  }

  ghost predicate AlwaysKept(ts: seq<int>, window: nat) {
    forall run :: Timed(run, ts) && Obeyed(run, window) ==> KeepsWindow(run, window)
  }

  /** For activities handled at the times `ts`, whatever they are, every run that obeys the guard keeps
      the window if and only if the times do not slip. */
  lemma WindowKeptIffNoSlip(ts: seq<int>, window: nat)
    requires window > 0
    ensures AlwaysKept(ts, window) <==> !Slips(ts, window)
  {
    if Slips(ts, window) {
      var i, i', j, k :| SlipAt(ts, window, i, i', j, k);
      SlipBreaks(ts, window, i, i', j, k);
    } else {
      forall run | Timed(run, ts) && Obeyed(run, window) ensures KeepsWindow(run, window) {
        NoSlipKeepsWindow(run, ts, window);
      }
    }
  }

  /** Times that never go back do not slip, so activities handled in time order keep the window. */
  lemma TimeOrderKeepsWindow(ts: seq<int>, window: nat)
    requires window > 0 && forall i, j :: 0 <= i < j < |ts| ==> ts[i] <= ts[j]
    ensures AlwaysKept(ts, window)
  {
    WindowKeptIffNoSlip(ts, window);
  }

  lemma {:induction false} RunKeepsTraced(run: seq<Event>, window: nat, n: nat)
    requires n <= |run|
    ensures Traced(CacheAfter(run[..n], window), run[..n])
  {
    if n > 0 {
      RunKeepsTraced(run, window, n - 1);
      assert run[..n][..n - 1] == run[..n - 1];
      var before, c := CacheAfter(run[..n - 1], window), CacheAfter(run[..n], window);
      forall k | k in c ensures exists i :: 0 <= i < n && IsTrace(run[..n][i], k, c[k]) {
        if run[n - 1].accepted && k == run[n - 1].item.key && k != "" {
          assert IsTrace(run[..n][n - 1], k, c[k]);
        } else {
          assert k in before && c[k] == before[k];
          var i :| 0 <= i < n - 1 && IsTrace(run[..n - 1][i], k, before[k]);
          assert run[..n][i] == run[..n - 1][i];
        }
      }
    }
  }

  /** Whatever the guard refuses had an accepted copy of the same token from the named other wallet, and
      that copy was not stale: the refused one is at most the window later, or any time earlier. */
  lemma RefusedForCause(run: seq<Event>, window: nat, j: nat)
    requires j < |run| && Refused(run, window, j)
    ensures var v := VerdictOf(CacheAfter(run[..j], window), run[j], window);
            exists i :: 0 <= i < j && Blocks(run[i], run[j], window) && Named(v, run[i].item, run[j].item)
  {
    RunKeepsTraced(run, window, j);
    var x := run[j].item;
    var c := CacheAfter(run[..j], window);
    var i :| 0 <= i < j && IsTrace(run[..j][i], x.key, c[x.key]);
    assert run[..j][i] == run[i] && Blocks(run[i], run[j], window);
    assert Named(Judge(Purged(c, x.ts, window), x), run[i].item, x);
  }

  /** The verdict on `b` names the wallet of `a`, as opposite if `a` has a side and it differs from that of
      `b`, as a duplicate otherwise. */
  ghost predicate Named(v: Verdict, a: Item, b: Item) {
    if a.side != "" && a.side != b.side then v == OppositeSide(a.wallet) else v == Duplicate(a.wallet)
  }

  ghost predicate Refused(run: seq<Event>, window: nat, j: int)
    requires 0 <= j < |run|
  {
    !VerdictOf(CacheAfter(run[..j], window), run[j], window).Clear?
  }

  ghost predicate Blocks(a: Event, b: Event, window: nat) {
    && a.accepted && a.item.key == b.item.key != "" && a.item.wallet != b.item.wallet
    && (window > 0 ==> !Stale(Mark("", "", a.item.ts), b.item.ts, window))
  }

  // ----- exactly which times make every refusal deserved -----

  /** An accepted copy of the token from another wallet within the window, before or after in time. */
  ghost predicate Deserved(run: seq<Event>, window: nat, j: int)
    requires 0 <= j < |run|
  {
    exists i :: 0 <= i < j && Blocks(run[i], run[j], window)
      && Distance(run[i].item.ts, run[j].item.ts) <= window
  }

  /** At `j` a mark of `i` counts although the two are more than the window apart: it lies in the future
      of `j`, or carries the time zero. */
  ghost predicate FarMark(ts: seq<int>, window: nat, i: int, j: int) {
    0 <= i < j < |ts| && (ts[i] - ts[j] > window || (ts[i] == 0 && ts[j] > window))
  }

  ghost predicate RefusesWell(run: seq<Event>, window: nat) {
    forall j :: 0 <= j < |run| && Refused(run, window, j) ==> Deserved(run, window, j)
  }

  ghost predicate AlwaysRefusesWell(ts: seq<int>, window: nat) {
    forall run :: Timed(run, ts) && Obeyed(run, window) ==> RefusesWell(run, window)
  }

  lemma NoFarMarkRefusesWell(run: seq<Event>, ts: seq<int>, window: nat)
    requires window > 0 && Timed(run, ts) && !(exists i, j :: FarMark(ts, window, i, j))
    ensures RefusesWell(run, window)
  {
    forall j | 0 <= j < |run| && Refused(run, window, j) ensures Deserved(run, window, j) {
      RefusedForCause(run, window, j);
      var i :| 0 <= i < j && Blocks(run[i], run[j], window);
      assert !FarMark(ts, window, i, j);
    }
  }

  /** Wallet x copies a token at `i`, wallet y tries at `j`, and nothing else concerns the guard. */
  function FarEvent(ts: seq<int>, i: int, j: int, n: int): Event
    requires 0 <= n < |ts|
  {
    if n == i then Event(Item("token", "BUY", "x", ts[n]), true)
    else if n == j then Event(Item("token", "BUY", "y", ts[n]), false)
    else Event(Item("", "", "", ts[n]), false)
  }

  function FarRun(ts: seq<int>, i: int, j: int): seq<Event> {
    seq(|ts|, n requires 0 <= n < |ts| => FarEvent(ts, i, j, n))
  }

  lemma {:induction false} FarCache(ts: seq<int>, window: nat, i: int, j: int, n: nat)
    requires 0 <= i < j < |ts| && n <= j
    ensures CacheAfter(FarRun(ts, i, j)[..n], window)
         == if n <= i then map[] else map["token" := Mark("BUY", "x", ts[i])]
  {
    var run := FarRun(ts, i, j);
    if n == 0 {
      assert run[..0] == [];
    } else {
      FarCache(ts, window, i, j, n - 1);
      CacheStep(run, window, n - 1);
    }
  }

  lemma FarMarkBreaks(ts: seq<int>, window: nat, i: int, j: int)
    requires window > 0 && FarMark(ts, window, i, j)
    ensures var run := FarRun(ts, i, j); Timed(run, ts) && Obeyed(run, window) && !RefusesWell(run, window)
  {
    var run := FarRun(ts, i, j);
    forall n | 0 <= n < |run| && run[n].accepted
      ensures VerdictOf(CacheAfter(run[..n], window), run[n], window).Clear?
    {
      FarCache(ts, window, i, j, n);
    }
    FarCache(ts, window, i, j, j);
    assert Refused(run, window, j) && !Deserved(run, window, j);
  }

  /** For activities handled at the times `ts`, whatever they are, every refusal in every run that obeys
      the guard has a cause within the window if and only if there is no far mark. */
  lemma RefusesWellIffNoFarMark(ts: seq<int>, window: nat)
    requires window > 0
    ensures AlwaysRefusesWell(ts, window) <==> !(exists i, j :: FarMark(ts, window, i, j))
  {
    if i, j :| FarMark(ts, window, i, j) {
      FarMarkBreaks(ts, window, i, j);
    } else {
      forall run | Timed(run, ts) && Obeyed(run, window) ensures RefusesWell(run, window) {
        NoFarMarkRefusesWell(run, ts, window);
      }
    }
  }

  /** With a window of 300, a copy at 10000 makes the guard refuse another wallet's at 100. */
  lemma FutureMarkRefuses()
    ensures FarMark([10000, 100], 300, 0, 1) && !AlwaysRefusesWell([10000, 100], 300)
  {
    assert FarMark([10000, 100], 300, 0, 1);
    RefusesWellIffNoFarMark([10000, 100], 300);
  }

  /** Two ways to slip with a window of 300: a later activity on another token purges a mark, or the
      same wallet refreshes its mark with an older time. */
  lemma OutOfOrderSlips()
    ensures SlipAt([1000, 2000, 1001], 300, 0, 0, 1, 2) && !AlwaysKept([1000, 2000, 1001], 300)
    ensures SlipAt([1000, 500, 900], 300, 0, 1, 2, 2) && !AlwaysKept([1000, 500, 900], 300)
  {
    assert SlipAt([1000, 2000, 1001], 300, 0, 0, 1, 2);
    WindowKeptIffNoSlip([1000, 2000, 1001], 300);
    assert SlipAt([1000, 500, 900], 300, 0, 1, 2, 2);
    WindowKeptIffNoSlip([1000, 500, 900], 300);
  }
}
