/** The copy-activity outbox kept inside the configuration: pruning, eviction of the
    oldest conclusive entries, and staging of one new activity. */
module Outbox {
  import opened Retention

  datatype CopyState = Pending | Retryable | Completed | Rejected | Ambiguous

  predicate Conclusive(s: CopyState) { s.Completed? || s.Rejected? }

  predicate Replayable(s: CopyState) { s.Pending? || s.Retryable? }

  const HISTORY_LIMIT: nat := 500

  /** Identities are compared only for equality and by a total order, so they are numbers here;
      `payload` stands for the immutable activity and policy, `note` for the outcome fields. */
  datatype Entry = Entry(
    id: nat, market: string, watch: string, key: string, payload: string,
    state: CopyState, attempts: nat, note: string,
    createdAt: int, updatedAt: int, replayAuthorizedAt: int)

  predicate SameActivity(x: Entry, y: Entry) {
    x.market == y.market && x.watch == y.watch && x.key == y.key
  }

  ghost predicate UniqueIds(o: seq<Entry>) {
    forall i, j :: 0 <= i < j < |o| ==> o[i].id != o[j].id
  }

  ghost predicate UniqueActivities(o: seq<Entry>) {
    forall i, j :: 0 <= i < j < |o| ==> !SameActivity(o[i], o[j])
  }

  ghost predicate WellFormed(o: seq<Entry>) { UniqueIds(o) && UniqueActivities(o) }

  lemma SubsequenceKeepsWellFormed(sub: seq<Entry>, o: seq<Entry>)
    requires Subsequence(sub, o) && WellFormed(o)
    ensures WellFormed(sub)
    ensures forall x :: x in sub ==> x in o
  {
    var keep: seq<nat> :| Selects(o, keep, sub);
  }

  // ----- pruning in list order -----

  function EntryId(e: Entry): nat { e.id }

  predicate Concluded(e: Entry) { Conclusive(e.state) }

  function Conclusives(o: seq<Entry>): seq<Entry> { Settled(o, Concluded) }

  lemma ConclusivesMembers(o: seq<Entry>)
    ensures forall x :: x in Conclusives(o) <==> x in o && Conclusive(x.state)
    ensures |Conclusives(o)| <= |o|
  {
    SettledMembers(o, Concluded, EntryId);
  }

  /** The list without its first `n` conclusive entries. */
  function DropConclusive(o: seq<Entry>, n: nat): seq<Entry> {
    if o == [] || n == 0 then o
    else if Conclusive(o[0].state) then DropConclusive(o[1..], n - 1)
    else [o[0]] + DropConclusive(o[1..], n)
  }

  function Pruned(o: seq<Entry>): seq<Entry> {
    DropConclusive(o, if |o| > HISTORY_LIMIT then |o| - HISTORY_LIMIT else 0)
  }

  function Min(a: int, b: int): int { if a <= b then a else b }

  lemma {:induction false} DropConclusiveKeeps(o: seq<Entry>, n: nat)
    ensures Subsequence(DropConclusive(o, n), o)
    ensures forall x :: x in o && !Conclusive(x.state) ==> x in DropConclusive(o, n)
    ensures |DropConclusive(o, n)| == |o| - Min(n, |Conclusives(o)|)
  {
    if o == [] || n == 0 {
      SubsequenceSelf(o);
      ConclusivesMembers(o);
    } else {
      var m: nat := if Conclusive(o[0].state) then n - 1 else n;
      DropConclusiveKeeps(o[1..], m);
      assert o == [o[0]] + o[1..];
      if Conclusive(o[0].state) {
        SubsequenceSkip(DropConclusive(o[1..], m), o[0], o[1..]);
      } else {
        SubsequenceTake(DropConclusive(o[1..], m), o[0], o[1..]);
      }
    }
  }

  /** Still to be acted on: pending, retryable or ambiguous. */
  predicate Unresolved(s: CopyState) { s.Pending? || s.Retryable? || s.Ambiguous? }

  function CountResolved(o: seq<Entry>): nat {
    if o == [] then 0
    else (if o[0].state.Completed? || o[0].state.Rejected? then 1 else 0) + CountResolved(o[1..])
  }

  lemma {:induction false} ConclusivesCounted(o: seq<Entry>)
    ensures |Conclusives(o)| == CountResolved(o)
  {
    if o != [] { ConclusivesCounted(o[1..]); }
  }

  /** Pruning never drops an unresolved entry, keeps the order, and shrinks the list to the
      history limit exactly when enough conclusive entries exist. */
  lemma PruneKeepsUnresolved(o: seq<Entry>)
    requires WellFormed(o)
    ensures Subsequence(Pruned(o), o) && WellFormed(Pruned(o))
    ensures forall x :: x in o && Unresolved(x.state) ==> x in Pruned(o)
    ensures forall x :: x in Pruned(o) ==> x in o
    ensures |Pruned(o)| <= 500 <==> |o| - CountResolved(o) <= 500
    ensures |o| <= 500 ==> Pruned(o) == o
    ensures |o| > 500 ==> |Pruned(o)| == |o| - Min(|o| - 500, CountResolved(o))
  {
    DropConclusiveKeeps(o, if |o| > HISTORY_LIMIT then |o| - HISTORY_LIMIT else 0);
    SubsequenceKeepsWellFormed(Pruned(o), o);
    ConclusivesMembers(o);
    ConclusivesCounted(o);
  }

  lemma {:induction false} DropsFirst(o: seq<Entry>, n: nat, i: nat)
    requires UniqueIds(o) && i < |o| && (o[i].state.Completed? || o[i].state.Rejected?)
    ensures o[i] in DropConclusive(o, n) <==> CountResolved(o[..i]) >= n
  {
    if n > 0 {
      var m: nat := if Conclusive(o[0].state) then n - 1 else n;
      DropConclusiveKeeps(o[1..], m);
      DropSubset(o[1..], m);
      if i == 0 {
        assert o[..0] == [];
        assert forall j :: 1 <= j < |o| ==> o[j].id != o[0].id;
      } else {
        DropsFirst(o[1..], m, i - 1);
        assert o[..i][1..] == o[1..][..i - 1];
      }
    }
  }

  lemma DropSubset(o: seq<Entry>, n: nat)
    ensures forall x :: x in DropConclusive(o, n) ==> x in o
  {
    DropConclusiveKeeps(o, n);
    SubsequenceKeeps(DropConclusive(o, n), o, EntryId);
  }

  /** Which completed and rejected entries go: the first in list order, as many as the list is over 500. */
  lemma PruneDropsFirst(o: seq<Entry>, i: nat)
    requires WellFormed(o) && i < |o| && (o[i].state.Completed? || o[i].state.Rejected?)
    ensures o[i] in Pruned(o) <==> CountResolved(o[..i]) >= |o| - 500
  {
    DropsFirst(o, if |o| > HISTORY_LIMIT then |o| - HISTORY_LIMIT else 0, i);
  }

  // ----- eviction of the oldest conclusive entries -----

  predicate AgeLeq(x: Entry, y: Entry) {
    || x.updatedAt < y.updatedAt
    || (x.updatedAt == y.updatedAt && (x.createdAt < y.createdAt
        || (x.createdAt == y.createdAt && x.id <= y.id)))
  }

  /** The list without its `k` oldest conclusive entries. */
  function EvictOldest(o: seq<Entry>, k: nat): seq<Entry>
    requires k <= |Queue(o, Concluded, AgeLeq)|
  {
    Evict(o, EntryId, Concluded, AgeLeq, k)
  }

  /** Last updated no later; if at the same time, created no later; if that too, with the smaller identity. */
  ghost predicate Older(x: Entry, y: Entry) {
    && x.updatedAt <= y.updatedAt && (x.updatedAt == y.updatedAt ==> x.createdAt <= y.createdAt)
    && (x.updatedAt == y.updatedAt && x.createdAt == y.createdAt ==> x.id <= y.id)
  }

  /** Eviction removes exactly `k` entries, all of them conclusive, and no surviving
      conclusive entry is older than an evicted one. */
  lemma EvictionTakesOldest(o: seq<Entry>, k: nat)
    requires WellFormed(o) && k <= |Conclusives(o)|
    ensures |Queue(o, Concluded, AgeLeq)| == |Conclusives(o)|
    ensures var kept := EvictOldest(o, k);
            && Subsequence(kept, o) && WellFormed(kept)
            && |kept| == |o| - k
            && (forall x :: x in o && x !in kept ==> !Unresolved(x.state))
            && (forall x, y :: x in o && x !in kept && y in kept && !Unresolved(y.state) ==> Older(x, y))
  {
    EvictTakesOldest(o, EntryId, Concluded, AgeLeq, k);
    SubsequenceKeepsWellFormed(EvictOldest(o, k), o);
    var kept := EvictOldest(o, k);
    forall x, y | x in o && x !in kept && y in kept && !Unresolved(y.state) ensures Older(x, y) {
      assert AgeLeq(x, y);
    }
  }

  // ----- staging one new entry -----

  /** The staged outbox, or nothing when the list is full of unresolved entries. */
  datatype Staged = Full | Ready(outbox: seq<Entry>)

  function Stage(o: seq<Entry>, e: Entry): (r: Staged)
    requires WellFormed(o)
  {
    if |o| < HISTORY_LIMIT then Ready(Pruned(o + [e]))
    else
      var slots := |o| - HISTORY_LIMIT + 1;
      if |Conclusives(o)| < slots then Full
      else
        EvictionTakesOldest(o, slots);
        Ready(Pruned(EvictOldest(o, slots) + [e]))
  }

  /** The slots a stage must free, as a number of entries. */
  function RequiredSlots(o: seq<Entry>): nat {
    if |o| < HISTORY_LIMIT then 0 else |o| - HISTORY_LIMIT + 1
  }

  lemma AppendKeepsWellFormed(o: seq<Entry>, e: Entry)
    requires WellFormed(o)
    requires forall x :: x in o ==> x.id != e.id && !SameActivity(x, e)
    ensures WellFormed(o + [e])
  {
    var r := o + [e];
    forall i, j | 0 <= i < j < |r| ensures r[i].id != r[j].id && !SameActivity(r[i], r[j]) {
      assert r[i] == o[i] && r[i] in o;
      if j < |o| { assert r[j] == o[j]; }
    }
  }

  /** A new stage succeeds exactly when enough conclusive entries can make room. It then holds at
      most 500 entries, stays unique on id and on (market, watch, key), keeps every unresolved
      entry, appends the new one last, and evicts exactly the required number of the oldest. */
  lemma StageSound(o: seq<Entry>, e: Entry)
    requires WellFormed(o)
    requires forall x :: x in o ==> x.id != e.id && !SameActivity(x, e)
    ensures RequiredSlots(o) == (if |o| < 500 then 0 else |o| - 499)
    ensures Stage(o, e).Ready? <==> |o| < 500 || |o| - 499 <= CountResolved(o)
    ensures Stage(o, e).Ready? <==> RequiredSlots(o) <= |Conclusives(o)|
    ensures Stage(o, e).Ready? ==>
      var n := Stage(o, e).outbox;
      && WellFormed(n) && |n| == |o| - RequiredSlots(o) + 1 <= 500
      && n[|n| - 1] == e && Subsequence(n[..|n| - 1], o)
      && (forall x :: x in o && Unresolved(x.state) ==> x in n)
      && (forall x :: x in n ==> x in o || x == e)
      && (forall x, y :: x in o && x !in n && y in o && y in n && !Unresolved(y.state) ==> Older(x, y))
  {
    var slots := RequiredSlots(o);
    ConclusivesMembers(o);
    ConclusivesCounted(o);
    if slots <= |Conclusives(o)| {
      var kept := if slots == 0 then o else
        (EvictionTakesOldest(o, slots); EvictOldest(o, slots));
      if slots == 0 {
        SubsequenceSelf(o);
      } else {
        EvictionTakesOldest(o, slots);
        SubsequenceKeepsWellFormed(kept, o);
      }
      AppendKeepsWellFormed(kept, e);
      PruneKeepsUnresolved(kept + [e]);
      var n := Stage(o, e).outbox;
      assert n == kept + [e] && n[..|n| - 1] == kept;
    }
  }
}
